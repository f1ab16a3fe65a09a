/**
 Where the in-place loop of util/common.go is not substitution, or does not stop, and exactly
 when: literal `$` signs before tokens, and values that hold their own token.
 */
module SubstitutionFailures {
  import opened Substitution
  import opened SubstitutionTheorems

  /**
   Outside `Flat` a literal `$` and the value behind it can become a token: with
   Y = "{X}..." the source `$${Y}${X}` has its first part substituted twice.
   */
  lemma LiteralDollarBeforeToken(x: string, y: string, w: string, env: Env)
    requires Usable(env, x) && Usable(env, y) && x != y && '$' !in w && '$' !in env[x]
    requires env[y] == "{" + x + "}" + w && Covers(env, y)
    ensures var src := "$" + Token(y) + Token(x);
      && Ends(src, 0, env, Finished(env[x] + w + env[x]))
      && Subst(src, env) == "$" + env[y] + env[x]
      && Subst(src, env) != env[x] + w + env[x]
  {
    hide Pass, After, Ends, Subst, Opens, NameAt, Close, EndsInDollar, Defined;
    var src, mid, out := "$" + Token(y) + Token(x), Token(x) + w + Token(x), env[x] + w + env[x];
    DollarSubst(x, y, w, env);
    DollarPasses(x, y, w, env);
    NoDollarText(x, w, env, 1 + |Token(y)|);
    Idle(out, |mid|, env);
    EndsAfterPass(mid, |Token(x) + w|, env, out, |mid|, Finished(out));
    EndsSkip(mid, 1 + |Token(y)|, |Token(x) + w|, env, Finished(out));
    EndsAfterPass(src, 1, env, mid, 1 + |Token(y)|, Finished(out));
    EndsAfterPass(src, 0, env, src, 1, Finished(out));
  }

  /**
   Exactly when that happens: behind a literal `$` two `$`-free values are substituted right
   unless the first is shorter than its token or completes the other's token.
   */
  lemma LiteralDollarExact(x: string, y: string, env: Env)
    requires Usable(env, x) && Usable(env, y) && x != y && '$' !in env[x] && '$' !in env[y]
    ensures var src := "$" + Token(y) + Token(x);
      Ends(src, 0, env, Finished(Subst(src, env))) <==> Covers(env, y) && !("{" + x + "}" <= env[y])
  {
    var src, open := "$" + Token(y) + Token(x), "{" + x + "}";
    DollarSubst(x, y, "", env);
    if !Covers(env, y) {
      LiteralDollarShort(x, y, env);
      if Ends(src, 0, env, Finished(Subst(src, env))) {
        OneEnd(src, 0, env, Finished("$" + env[y] + Token(x)), Finished(Subst(src, env)));
      }
    } else if open <= env[y] {
      var w := env[y][|open|..];
      assert env[y] == open + w;
      LiteralDollarBeforeToken(x, y, w, env);
      if Ends(src, 0, env, Finished(Subst(src, env))) {
        OneEnd(src, 0, env, Finished(env[x] + w + env[x]), Finished(Subst(src, env)));
      }
    } else {
      LiteralDollarHarmless(x, y, env);
    }
  }

  lemma LiteralDollarShort(x: string, y: string, env: Env)
    requires Usable(env, x) && Usable(env, y) && x != y && '$' !in env[x] && '$' !in env[y] && !Covers(env, y)
    ensures Ends("$" + Token(y) + Token(x), 0, env, Finished("$" + env[y] + Token(x)))
    ensures "$" + env[y] + Token(x) != "$" + env[y] + env[x]
  {
    var src, out := "$" + Token(y) + Token(x), "$" + env[y] + Token(x);
    assert src == "$" + (Token(y) + Token(x)) && Token(y)[0] == '$';
    assert out[|env[y]| + 1] == '$' && ("$" + env[y] + env[x])[|env[y]| + 1] == env[x][0];
    assert forall k :: 1 + |Token(y)| <= k < |out| ==> out[k] == Token(x)[k - 1 - |env[y]|];
    assert !EndsInDollar(out);
    HarmlessFirst(x, y, env);
    hide Pass, After, Ends, ReplaceAll, EndsInDollar;
    DollarDollar(Token(y) + Token(x), env);
    Idle(out, 1 + |Token(y)|, env);
    EndsAfterPass(src, 1, env, out, 1 + |Token(y)|, Finished(out));
    EndsAfterPass(src, 0, env, src, 1, Finished(out));
  }

  lemma LiteralDollarHarmless(x: string, y: string, env: Env)
    requires Usable(env, x) && Usable(env, y) && x != y && '$' !in env[x] && '$' !in env[y] && Covers(env, y)
    requires !("{" + x + "}" <= env[y])
    ensures Ends("$" + Token(y) + Token(x), 0, env, Finished("$" + env[y] + env[x]))
  {
    var src, d := "$" + Token(y) + Token(x), "$" + env[y];
    assert src == "$" + (Token(y) + Token(x)) && Token(y)[0] == '$';
    assert forall k :: 1 <= k < |d| ==> (d + Token(x))[k] != '$';
    HarmlessLast(x, env[y], env);
    HarmlessFirst(x, y, env);
    hide Pass, After, Ends, Token, ReplaceAll;
    DollarDollar(Token(y) + Token(x), env);
    EndsSkip(d + Token(x), 1 + |Token(y)|, |d|, env, Finished(d + env[x]));
    EndsAfterPass(src, 1, env, d + Token(x), 1 + |Token(y)|, Finished(d + env[x]));
    EndsAfterPass(src, 0, env, src, 1, Finished(d + env[x]));
  }

  lemma HarmlessFirst(x: string, y: string, env: Env)
    requires Usable(env, x) && Usable(env, y) && x != y
    ensures Pass("$" + (Token(y) + Token(x)), 1, env) == Running("$" + env[y] + Token(x), 1 + |Token(y)|)
  {
    OtherReplaced(y, x, env[y], env);
    assert Token(y)[0] == '$' && Token(y)[1] == '{';
    hide Pass, Token, ReplaceAll, PlainName;
    ReplaceAtFront(Token(y), Token(x), env[y]);
    ReplaceAfterDollar(Token(y) + Token(x), Token(y), env[y]);
    PassToken("$", y, Token(x), env);
    assert "$" + (env[y] + Token(x)) == "$" + env[y] + Token(x);
  }

  lemma HarmlessLast(x: string, v: string, env: Env)
    requires Usable(env, x) && '$' !in v && '$' !in env[x] && !("{" + x + "}" <= v)
    ensures var d := "$" + v; Ends(d + Token(x), |d|, env, Finished(d + env[x]))
  {
    var d := "$" + v;
    HarmlessReplace(x, v, env[x]);
    assert PlainName(x) && Defined(env, x) && Lookup(env, x) == env[x];
    assert Token(x) + "" == Token(x) && |d| >= 1 && d[1..] == v;
    NoDollarBehind(d, env[x], |d| + |Token(x)|, env);
    hide *;
    PassToken(d, x, "", env);
    Idle(d + env[x], |d| + |Token(x)|, env);
    EndsAfterPass(d + Token(x), |d|, env, d + env[x], |d| + |Token(x)|, Finished(d + env[x]));
  }

  lemma NoDollarBehind(d: string, w: string, j: nat, env: Env)
    requires d != "" && '$' !in d[1..] && '$' !in w && w != "" && j >= 1
    ensures !EndsInDollar(d + w) && forall p :: j <= p < |d + w| ==> !Opens(d + w, p)
  {
    assert forall p :: 1 <= p < |d + w| ==> (d + w)[p] == if p < |d| then d[1..][p - 1] else w[p - |d|];
  }

  lemma HarmlessReplace(x: string, v: string, w: string)
    requires PlainName(x) && '$' !in v && !("{" + x + "}" <= v)
    ensures ReplaceAll("$" + v + Token(x), Token(x), w) == "$" + v + w
  {
    if Token(x) <= "$" + v + Token(x) {
      TokenAhead(x, v);
    }
    assert ("$" + v + Token(x))[1..] == v + Token(x) && ReplaceAll("", Token(x), w) == "";
    assert ReplaceAll("$" + v + Token(x), Token(x), w) == ['$'] + ReplaceAll(v + Token(x), Token(x), w);
    ReplaceBehind(v, Token(x), Token(x), w);
    ReplaceAtFront(Token(x), "", w);
    hide ReplaceAll, Token;
    assert Token(x) + "" == Token(x) && w + "" == w;
    assert ['$'] + (v + w) == "$" + v + w;
  }

  /** A token has no `$` but its first character. */
  lemma OneDollar(s: string, n: string)
    requires PlainName(n) && Token(n) <= s
    ensures forall k :: 1 <= k < |Token(n)| ==> s[k] != '$'
  {
    assert forall k :: 1 <= k < |Token(n)| ==> s[k] == Token(n)[k];
  }

  lemma TokenAhead(x: string, v: string)
    requires PlainName(x) && Token(x) <= "$" + v + Token(x)
    ensures "{" + x + "}" <= v
  {
    var s, open := "$" + v + Token(x), "{" + x + "}";
    OneDollar(s, x);
    assert s[|v| + 1] == Token(x)[0] == '$';
    assert |open| <= |v|;
    forall k | 0 <= k < |open|
      ensures open[k] == v[k]
    {
      assert open[k] == Token(x)[k + 1] == s[k + 1] == v[k];
    }
  }

  lemma DollarSubst(x: string, y: string, w: string, env: Env)
    requires Usable(env, x) && Usable(env, y) && '$' !in env[x]
    ensures var src := "$" + Token(y) + Token(x);
      Subst(src, env) == "$" + env[y] + env[x] && Subst(src, env) != env[x] + w + env[x]
  {
    TwoTokenSubst(y, x, env);
    var s := Token(y) + Token(x);
    hide Token;
    assert "$" + Token(y) + Token(x) == "$" + s && ("$" + s)[1..] == s;
    assert s[0] == '$' by { TokenFront(y, Token(x), env); }
    assert Subst("$" + s, env) == ['$'] + (env[y] + env[x]);
    assert "$" + env[y] + env[x] == ['$'] + (env[y] + env[x]);
    assert ("$" + env[y] + env[x])[0] == '$' && (env[x] + w + env[x])[0] == env[x][0];
  }

  lemma NoDollarText(x: string, w: string, env: Env, from: nat)
    requires Usable(env, x) && '$' !in w && '$' !in env[x] && 1 <= from <= |Token(x) + w|
    ensures var mid, out := Token(x) + w + Token(x), env[x] + w + env[x];
      && (forall k :: from <= k < |Token(x) + w| ==> mid[k] != '$')
      && (forall p :: |mid| <= p < |out| && Opens(out, p) ==> !Defined(env, NameAt(out, p)))
      && !EndsInDollar(out)
  {
  }

  lemma DollarPasses(x: string, y: string, w: string, env: Env)
    requires Usable(env, x) && Usable(env, y) && x != y && '$' !in w && '$' !in env[x]
    requires env[y] == "{" + x + "}" + w
    ensures var src, mid, out := "$" + Token(y) + Token(x), Token(x) + w + Token(x), env[x] + w + env[x];
      && Pass(src, 0, env) == Running(src, 1)
      && Pass(src, 1, env) == Running(mid, 1 + |Token(y)|)
      && Pass(mid, |Token(x) + w|, env) == Running(out, |mid|)
  {
    DollarFirstPasses(x, y, w, env);
    DollarLastPass(x, w, env);
  }

  lemma DollarLastPass(x: string, w: string, env: Env)
    requires Usable(env, x) && '$' !in w
    ensures var mid, out := Token(x) + w + Token(x), env[x] + w + env[x];
      Pass(mid, |Token(x) + w|, env) == Running(out, |mid|)
  {
    var d := Token(x) + w;
    assert Token(x) + "" == Token(x);
    PassToken(d, x, "", env);
    DollarLastReplace(x, w, env[x], env);
  }

  lemma DollarFirstPasses(x: string, y: string, w: string, env: Env)
    requires Usable(env, x) && Usable(env, y) && x != y
    requires env[y] == "{" + x + "}" + w
    ensures var src, mid := "$" + Token(y) + Token(x), Token(x) + w + Token(x);
      Pass(src, 0, env) == Running(src, 1) && Pass(src, 1, env) == Running(mid, 1 + |Token(y)|)
  {
    var rest := Token(y) + Token(x);
    assert rest[0] == '$' && "$" + Token(y) + Token(x) == "$" + rest;
    DollarDollar(rest, env);
    DollarFirstReplace(x, y, w, env);
    hide Pass, ReplaceAll;
    PassToken("$", y, Token(x), env);
  }

  lemma DollarDollar(s: string, env: Env)
    requires s != "" && s[0] == '$'
    ensures Pass("$" + s, 0, env) == Running("$" + s, 1)
  {
    assert ("$" + s)[1] == '$';
  }

  lemma DollarFirstReplace(x: string, y: string, w: string, env: Env)
    requires PlainName(x) && PlainName(y) && x != y
    ensures ReplaceAll("$" + (Token(y) + Token(x)), Token(y), "{" + x + "}" + w) == Token(x) + w + Token(x)
  {
    var v := "{" + x + "}" + w;
    OtherReplaced(y, x, v, env);
    ReplaceAtFront(Token(y), Token(x), v);
    ReplaceAfterDollar(Token(y) + Token(x), Token(y), v);
    DollarAndName(x, w, Token(x));
  }

  lemma ReplaceAfterDollar(s: string, tok: string, v: string)
    requires |tok| > 1 && tok[1] != '$' && s != "" && s[0] == '$'
    ensures ReplaceAll("$" + s, tok, v) == "$" + ReplaceAll(s, tok, v)
  {
    assert ("$" + s)[1..] == s && ("$" + s)[1] == '$';
  }

  lemma DollarAndName(x: string, w: string, t: string)
    ensures "$" + ("{" + x + "}" + w + t) == Token(x) + w + t
  {
    var a := "{" + x + "}";
    assert Token(x) == "$" + a;
    assert "$" + (a + w + t) == "$" + a + w + t;
  }

  lemma DollarLastReplace(x: string, w: string, v: string, env: Env)
    requires '$' !in w
    ensures ReplaceAll(Token(x) + w + Token(x), Token(x), v) == v + w + v
  {
    ReplaceAtFront(Token(x), "", v);
    ReplaceAtFront(Token(x), w + Token(x), v);
    ReplaceBehind(w, Token(x), Token(x), v);
    assert ReplaceAll("", Token(x), v) == "";
    hide ReplaceAll;
    assert Token(x) + "" == Token(x) && v + "" == v && Token(x) + (w + Token(x)) == Token(x) + w + Token(x);
    assert v + (w + v) == v + w + v;
  }

  // ---------------------------------------------------------------- values that hold their own token

  predicate TokenFrom(s: string, i: nat, n: string) {
    exists p :: i <= p < |s| && Token(n) <= s[p..]
  }

  /** The token of `n` stands in its own value where the jump lands or later. */
  predicate LateToken(v: string, n: string) {
    TokenFrom(v, |Token(n)|, n)
  }

  /** Each value of these names holds the token of one of them, where the jump lands or later. */
  predicate LateCycle(names: set<string>, env: Env) {
    forall n :: n in names ==> PlainName(n) && Defined(env, n) && BringsNext(n, names, env)
  }

  predicate BringsNext(n: string, names: set<string>, env: Env) {
    Ahead(Lookup(env, n), |Token(n)|, names)
  }

  predicate Ahead(s: string, i: nat, names: set<string>) {
    exists n :: n in names && TokenFrom(s, i, n)
  }

  /** The defined names are plain, and no value is shorter than its token. */
  predicate AllCover(env: Env) {
    forall m :: m in env && env[m] != "" ==> PlainName(m) && Covers(env, m)
  }

  /** The replacement of what stands before a token does not depend on what follows. */
  lemma {:induction false} ReplaceBefore(d: string, x: string, n: string, v: string)
    requires PlainName(n) && x != "" && x[0] == '$'
    ensures ReplaceAll(d + x, Token(n), v) == ReplaceAll(d, Token(n), v) + ReplaceAll(x, Token(n), v)
    decreases |d|
  {
    var tok := Token(n);
    if d == "" {
      assert d + x == x;
    } else if tok <= d + x {
      TokenFits(d, x, n);
      assert (d + x)[|tok|..] == d[|tok|..] + x;
      ReplaceBefore(d[|tok|..], x, n, v);
    } else {
      assert tok <= d ==> tok <= d + x;
      assert (d + x)[1..] == d[1..] + x;
      ReplaceBefore(d[1..], x, n, v);
    }
  }

  lemma TokenFits(d: string, x: string, n: string)
    requires PlainName(n) && d != "" && x != "" && x[0] == '$' && Token(n) <= d + x
    ensures Token(n) <= d
  {
    OneDollar(d + x, n);
    assert (d + x)[|d|] == '$';
  }

  lemma {:induction false} ReplaceGrows(s: string, tok: string, v: string)
    requires tok != "" && |tok| <= |v|
    ensures |s| <= |ReplaceAll(s, tok, v)|
    decreases |s|
  {
    if s != "" {
      if tok <= s {
        ReplaceGrows(s[|tok|..], tok, v);
      } else {
        ReplaceGrows(s[1..], tok, v);
      }
    }
  }

  lemma PrefixLater(d: string, v: string, r: string, p: nat, tok: string)
    requires p < |v| && tok <= v[p..]
    ensures tok <= (d + (v + r))[|d| + p..]
  {
    assert (d + (v + r))[|d| + p..] == v[p..] + r;
  }

  /** The value put in place of the token brings the next one, behind the jump. */
  lemma ReplacedToken(d: string, r: string, n: string, v: string, m: string)
    requires PlainName(n) && TokenFrom(v, |Token(n)|, m)
    ensures TokenFrom(ReplaceAll(d + (Token(n) + r), Token(n), v), |d| + |Token(n)|, m)
  {
    var p :| |Token(n)| <= p < |v| && Token(m) <= v[p..];
    var d', r' := ReplaceAll(d, Token(n), v), ReplaceAll(r, Token(n), v);
    ReplaceGrows(d, Token(n), v);
    ReplaceBefore(d, Token(n) + r, n, v);
    ReplaceAtFront(Token(n), r, v);
    PrefixLater(d', v, r', p, Token(m));
  }

  /** The replacement of another name leaves the token whole, and behind the jump. */
  lemma SparedToken(d: string, m: string, r1: string, n: string, r2: string, v: string)
    requires PlainName(m) && PlainName(n) && m != n && |v| >= |Token(m)|
    ensures TokenFrom(ReplaceAll(d + (Token(m) + (r1 + (Token(n) + r2))), Token(m), v), |d| + |Token(m)|, n)
  {
    var t := Token(n) + r2;
    NotThatToken(m, n, r2);
    assert t[0] == '$' && t != "";
    ReplaceKeepsToken(n, r2, m, v);
    ReplaceBefore(r1, t, m, v);
    ReplaceAtFront(Token(m), r1 + t, v);
    ReplaceBefore(d, Token(m) + (r1 + t), m, v);
    ReplaceGrows(d, Token(m), v);
    TokenBehind(ReplaceAll(d, Token(m), v), v, ReplaceAll(r1, Token(m), v), n, ReplaceAll(r2, Token(m), v));
  }

  lemma NotThatToken(m: string, n: string, r: string)
    requires PlainName(m) && PlainName(n) && m != n
    ensures !(Token(m) <= Token(n) + r)
  {
    var s := Token(n) + r;
    TokenOpens(n, r);
    assert s[0..] == s;
    if Token(m) <= s {
      TokenHere(s, 0, m);
    }
  }

  lemma TokenBehind(a: string, b: string, c: string, n: string, r: string)
    ensures TokenFrom(a + (b + (c + (Token(n) + r))), |a| + |b|, n)
  {
    var s, p := a + (b + (c + (Token(n) + r))), |a| + |b| + |c|;
    assert s == a + b + c + (Token(n) + r) && s[p..] == Token(n) + r;
    assert Token(n) <= s[p..];
  }

  /** While a token of the cycle stands ahead, no pass ends the loop, and one stands ahead after it. */
  lemma AheadSurvives(s: string, i: nat, names: set<string>, env: Env)
    requires AllCover(env) && LateCycle(names, env) && Ahead(s, i, names)
    ensures var p := Pass(s, i, env); p.Running? && Ahead(p.src, p.i, names)
  {
    hide BringsNext, TokenFrom;
    var n :| n in names && TokenFrom(s, i, n);
    assert PlainName(n) && Defined(env, n);
    if Opens(s, i) && Defined(env, NameAt(s, i)) {
      var m := NameAt(s, i);
      var d, r := CutAt(s, i);
      assert PlainName(m) && |Lookup(env, m)| >= |Token(m)|;
      assert m in names ==> BringsNext(m, names, env);
      hide *;
      ReplacePass(d, m, r, n, names, env);
    } else {
      NoJump(s, i, n, env);
    }
  }

  lemma NoJump(s: string, i: nat, n: string, env: Env)
    requires PlainName(n) && Defined(env, n) && TokenFrom(s, i, n)
    requires !(Opens(s, i) && Defined(env, NameAt(s, i)))
    ensures Pass(s, i, env) == Running(s, i + 1) && TokenFrom(s, i + 1, n)
  {
    var p :| i <= p < |s| && Token(n) <= s[p..];
    if p == i {
      TokenHere(s, i, n);
    }
    assert i + 1 < |s|;
  }

  lemma ReplacePass(d: string, m: string, r: string, n: string, names: set<string>, env: Env)
    requires (m in names ==> BringsNext(m, names, env)) && n in names && TokenFrom(d + (Token(m) + r), |d|, n)
    requires PlainName(m) && PlainName(n) && Defined(env, m) && |Lookup(env, m)| >= |Token(m)|
    ensures var p := Pass(d + (Token(m) + r), |d|, env); p.Running? && Ahead(p.src, p.i, names)
  {
    var v := Lookup(env, m);
    if m in names {
      var x :| x in names && TokenFrom(v, |Token(m)|, x);
      hide *;
      PassToken(d, m, r, env);
      ReplacedToken(d, r, m, v, x);
      OneAhead(ReplaceAll(d + (Token(m) + r), Token(m), v), |d| + |Token(m)|, x, names);
    } else {
      hide *;
      PassToken(d, m, r, env);
      TokenInRest(d, m, r, n);
      var r1, r2 := Rest(m, r, n);
      SparedToken(d, m, r1, n, r2, v);
      OneAhead(ReplaceAll(d + (Token(m) + r), Token(m), v), |d| + |Token(m)|, n, names);
    }
  }

  lemma OneAhead(s: string, i: nat, n: string, names: set<string>)
    requires n in names && TokenFrom(s, i, n)
    ensures Ahead(s, i, names)
  {
  }

  lemma TokenInRest(d: string, m: string, r: string, n: string)
    requires TokenFrom(d + (Token(m) + r), |d|, n)
    ensures TokenFrom(Token(m) + r, 0, n)
  {
    var t := Token(m) + r;
    var p :| |d| <= p < |d + t| && Token(n) <= (d + t)[p..];
    hide Token;
    assert (d + t)[p..] == t[p - |d|..];
  }

  lemma Rest(m: string, r: string, n: string) returns (r1: string, r2: string)
    requires PlainName(m) && PlainName(n) && m != n && TokenFrom(Token(m) + r, 0, n)
    ensures r == r1 + (Token(n) + r2)
  {
    var t := Token(m) + r;
    var p :| 0 <= p < |t| && Token(n) <= t[p..];
    NotWithin(m, r, n, p);
    var q := p - |Token(m)|;
    hide Token;
    assert t[p..] == r[q..];
    r1, r2 := r[..q], r[q..][|Token(n)|..];
    assert r[q..] == Token(n) + r2 && r == r[..q] + r[q..];
  }

  lemma NotWithin(m: string, r: string, n: string, p: nat)
    requires PlainName(m) && PlainName(n) && m != n
    requires p < |Token(m) + r| && Token(n) <= (Token(m) + r)[p..]
    ensures p >= |Token(m)|
  {
    var t := Token(m) + r;
    NotThatToken(n, m, r);
    assert t[0..] == t && Token(m) <= t;
    OneDollar(t, m);
    assert t[p] == t[p..][0] == Token(n)[0] == '$';
  }

  lemma Braced(s: string, i: nat, c: nat)
    requires i + 2 <= c < |s| && s[i] == '$' && s[i + 1] == '{' && s[c] == '}'
    ensures s[i..c + 1] == Token(s[i + 2..c])
  {
    var t := s[i..c + 1];
    assert |t| == c + 1 - i && t[0] == '$' && t[1] == '{' && t[c - i] == '}';
    assert forall k :: 2 <= k < c - i ==> t[k] == s[i + 2..c][k - 2];
    assert forall k :: 0 <= k < |t| ==> t[k] == Token(s[i + 2..c])[k];
  }

  lemma InThree(s: string, i: nat, j: nat)
    requires i <= j <= |s|
    ensures s == s[..i] + (s[i..j] + s[j..])
  {
  }

  lemma CutAt(s: string, i: nat) returns (d: string, r: string)
    requires Opens(s, i)
    ensures |d| == i && s == d + (Token(NameAt(s, i)) + r)
  {
    var c := Close(s, i + 2);
    Braced(s, i, c);
    assert NameAt(s, i) == s[i + 2..c];
    hide *;
    InThree(s, i, c + 1);
    d, r := s[..i], s[c + 1..];
  }

  lemma TokenHere(s: string, i: nat, n: string)
    requires PlainName(n) && i < |s| && Token(n) <= s[i..]
    ensures Opens(s, i) && NameAt(s, i) == n
  {
    var x := s[i..][|Token(n)|..];
    assert s[i..] == Token(n) + x && s == s[..i] + s[i..];
    TokenOpens(n, x);
    OpensShift(s[..i], s[i..], 0);
  }

  lemma {:induction false} RunsOn(k: nat, s: string, i: nat, names: set<string>, env: Env)
    requires AllCover(env) && LateCycle(names, env) && Ahead(s, i, names)
    ensures After(k, s, i, env).Running?
    decreases k
  {
    hide Pass, AllCover, LateCycle, Ahead;
    if k > 0 {
      AheadSurvives(s, i, names, env);
      var p := Pass(s, i, env);
      RunsOn(k - 1, p.src, p.i, names, env);
    }
  }

  /**
   Where no value is shorter than its token, values that hold each other's tokens in a cycle,
   where the jumps land or later, keep the loop running on every source that calls for one of them.
   */
  lemma LateCycleNeverEnds(src: string, names: set<string>, env: Env, end: Progress)
    requires AllCover(env) && LateCycle(names, env) && Ahead(src, 0, names)
    ensures !Ends(src, 0, env, end)
  {
    hide AllCover, LateCycle, Ahead;
    if Ends(src, 0, env, end) {
      var k: nat :| After(k, src, 0, env) == end;
      RunsOn(k, src, 0, names, env);
    }
  }

  /** In particular a value that holds its own token that late. */
  lemma LateTokenNeverEnds(src: string, n: string, env: Env, end: Progress)
    requires AllCover(env) && PlainName(n) && LateToken(Lookup(env, n), n) && TokenFrom(src, 0, n)
    ensures !Ends(src, 0, env, end)
  {
    assert n in {n} && BringsNext(n, {n}, env);
    LateCycleNeverEnds(src, {n}, env, end);
  }

  /** Where some value is shorter, the jump over it may pass the token by: here the loop ends. */
  lemma LateTokenPassedBy(m: string, n: string, v: string, env: Env)
    requires Usable(env, m) && Usable(env, n) && m != n && !Covers(env, m) && env[n] != Token(n)
    requires '$' !in v && env[n] == v + Token(n) && |v| >= |Token(n)|
    ensures LateToken(env[n], n) && TokenFrom(Token(m) + Token(n), 0, n)
    ensures Ends(Token(m) + Token(n), 0, env, Finished(env[m] + Token(n)))
  {
    assert env[n][|v|..] == Token(n);
    assert (Token(m) + Token(n))[|Token(m)|..] == Token(n);
    ShortValueLosesToken(m, n, env);
  }

  /**
   If nothing else is defined: on the token alone the loop stops exactly when its value has no token
   of it that late.
   */
  lemma SelfReferenceExact(n: string, v: string)
    requires PlainName(n) && v != ""
    ensures (exists end :: Ends(Token(n), 0, map[n := v], end)) <==> !LateToken(v, n)
  {
    var env := map[n := v];
    if LateToken(v, n) {
      assert Token(n)[0..] == Token(n) && AllCover(env);
      forall end
        ensures !Ends(Token(n), 0, env, end)
      {
        LateTokenNeverEnds(Token(n), n, env, end);
      }
    } else {
      FirstValue(n, v);
      forall p | |Token(n)| <= p < |v| && Opens(v, p)
        ensures !Defined(env, NameAt(v, p))
      {
        OpenToken(v, p);
      }
      Idle(v, |Token(n)|, env);
      EndsAfterPass(Token(n), 0, env, v, |Token(n)|,
        if |Token(n)| < |v| && EndsInDollar(v) then Panicked else Finished(v));
    }
  }

  lemma OpenToken(s: string, p: nat)
    requires Opens(s, p)
    ensures Token(NameAt(s, p)) <= s[p..]
  {
    var c := Close(s, p + 2);
    Braced(s, p, c);
    assert s[p..][..c + 1 - p] == s[p..c + 1];
  }

  lemma FirstValue(n: string, v: string)
    requires PlainName(n) && v != ""
    ensures Pass(Token(n), 0, map[n := v]) == Running(v, |Token(n)|)
  {
    PassTokenOnly(n, map[n := v]);
  }

  /** Such a run: the string grows by four characters a pass, for ever. */
  lemma {:induction false} SelfReferenceDiverges(k: nat, n: nat)
    ensures After(n, Zs(k) + "${a}", 4 * k, map["a" := "zzzz${a}"]) == Running(Zs(k + n) + "${a}", 4 * (k + n))
    decreases n
  {
    hide Pass;
    if n > 0 {
      SelfReferencePass(k);
      SelfReferenceDiverges(k + 1, n - 1);
    }
  }

  lemma SelfReferencePass(k: nat)
    ensures Pass(Zs(k) + "${a}", 4 * k, map["a" := "zzzz${a}"]) == Running(Zs(k + 1) + "${a}", 4 * (k + 1))
  {
    var z, env := Zs(k), map["a" := "zzzz${a}"];
    SelfReferenceReplace(z);
    assert Token("a") == "${a}" && "${a}" + "" == "${a}";
    PassToken(z, "a", "", env);
    hide Pass, ReplaceAll;
    assert Zs(k + 1) + "${a}" == z + "zzzz${a}";
  }

  lemma SelfReferenceReplace(z: string)
    requires '$' !in z
    ensures ReplaceAll(z + "${a}", "${a}", "zzzz${a}") == z + "zzzz${a}"
  {
    ReplaceBehind(z, "${a}", "${a}", "zzzz${a}");
    ReplaceAtFront("${a}", "", "zzzz${a}");
    assert "${a}" + "" == "${a}";
  }

  function Zs(k: nat): (z: string)
    ensures |z| == 4 * k && '$' !in z
  {
    if k == 0 then "" else Zs(k - 1) + "zzzz"
  }
}
