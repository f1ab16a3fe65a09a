/**
 What the in-place loop of util/common.go computes: when it equals token-by-token
 substitution, once or through values that hold tokens themselves, when it does not, when it
 stops and when it indexes past the end.
 */
module SubstitutionTheorems {
  import opened Substitution

  /** The value covers the token, so the jump never lands past unread text. */
  predicate Covers(env: Env, n: string) {
    |Lookup(env, n)| >= |Token(n)|
  }

  /** `n` is the only defined name, and the source does not end in `$`. */
  predicate Alone(s: string, n: string, env: Env) {
    !EndsInDollar(s) && forall m :: m in Names(s) && Defined(env, m) ==> m == n
  }

  /** Every value the source calls for is quiet, and covers its token unless it is the only one called for. */
  predicate Suits(s: string, env: Env) {
    forall n :: n in Names(s) && Defined(env, n) ==>
      Quiet(Lookup(env, n), env) && (Covers(env, n) || Alone(s, n, env))
  }

  /** The value's tokens, if any name something defined, come no earlier than where the jump lands. */
  predicate Ready(env: Env, n: string) {
    var v := Lookup(env, n);
    Flat(v) && Closed(v) && exists c :: |Token(n)| <= c <= |v| && Settled(v[..c], env)
  }

  /**
   `full` gives each name what its value comes to when the tokens in it are substituted too.
   The names in `deep` call for no others, and their values are ready.
   */
  ghost predicate Resolves(env: Env, full: Env, deep: set<string>) {
    && (forall n :: Defined(env, n) <==> Defined(full, n))
    && forall n :: n in deep ==>
         && Defined(env, n) && Ready(env, n) && Lookup(full, n) == Subst(Lookup(env, n), full)
         && forall m :: m in Names(Lookup(env, n)) && Defined(env, m) ==> m in deep
  }

  /** Every defined name of the source is among `deep`, or it is alone and its value quiet. */
  ghost predicate Fits(s: string, env: Env, full: Env, deep: set<string>) {
    forall n :: n in Names(s) && Defined(env, n) ==>
      n in deep || (Alone(s, n, env) && Quiet(Lookup(env, n), env) && Lookup(full, n) == Lookup(env, n))
  }

  // ---------------------------------------------------------------- passes

  /** Where nothing defined opens, the loop only steps. */
  lemma {:induction false} EndsOver(s: string, i: nat, j: nat, env: Env, end: Progress)
    requires i <= j <= |s| && Ends(s, j, env, end)
    requires forall p :: i <= p < j && s[p] == '$' ==> p + 1 < |s| && (Opens(s, p) ==> !Defined(env, NameAt(s, p)))
    ensures Ends(s, i, env, end)
    decreases j - i
  {
    if i < j {
      EndsOver(s, i + 1, j, env, end);
      EndsAfterPass(s, i, env, s, i + 1, end);
    }
  }

  lemma SettledAt(d: string, w: string, x: string, p: nat, env: Env)
    requires Settled(w, env) && p < |w| && w[p] == '$'
    ensures var s := d + (w + x); |d| + p + 1 < |s| && (Opens(s, |d| + p) ==> !Defined(env, NameAt(s, |d| + p)))
  {
    assert p + 1 < |w|;
    hide Settled;
    OpensShift(d, w + x, p);
    if Opens(w + x, p) {
      SettledName(w, x, p, env);
    }
  }

  /** The loop steps over settled text, from wherever it lands in it. */
  lemma OverSettled(d: string, w: string, x: string, from: nat, env: Env, end: Progress)
    requires Settled(w, env) && from <= |w| && Ends(d + (w + x), |d + w|, env, end)
    ensures Ends(d + (w + x), |d| + from, env, end)
  {
    var s := d + (w + x);
    hide Opens, NameAt, Defined, Ends, Settled;
    forall p | |d| + from <= p < |d + w| && s[p] == '$'
      ensures p + 1 < |s| && (Opens(s, p) ==> !Defined(env, NameAt(s, p)))
    {
      SettledAt(d, w, x, p - |d|, env);
    }
    EndsOver(s, |d| + from, |d + w|, env, end);
  }

  lemma TokenSettles(n: string, env: Env)
    requires PlainName(n) && !Defined(env, n)
    ensures Settled(Token(n), env)
  {
    TokenOpens(n, "");
    assert Token(n) + "" == Token(n);
    assert forall p :: 1 <= p < |Token(n)| ==> Token(n)[p] != '$';
  }

  lemma PassJumps(s: string, i: nat, env: Env)
    requires Opens(s, i) && Defined(env, NameAt(s, i))
    ensures var n := NameAt(s, i);
      Pass(s, i, env) == Running(ReplaceAll(s, Token(n), Lookup(env, n)), Close(s, i + 2) + 1)
  {
  }

  lemma PassToken(d: string, n: string, r: string, env: Env)
    requires PlainName(n) && Defined(env, n)
    ensures var s := d + (Token(n) + r);
      Pass(s, |d|, env) == Running(ReplaceAll(s, Token(n), Lookup(env, n)), |d| + |Token(n)|)
  {
    TokenOpens(n, r);
    hide Opens, Defined, Pass, Close, NameAt, PlainName;
    OpensShift(d, Token(n) + r, 0);
    PassJumps(d + (Token(n) + r), |d|, env);
  }

  lemma PassFirst(n: string, r: string, env: Env)
    requires PlainName(n) && Defined(env, n)
    ensures var v := Lookup(env, n);
      Pass(Token(n) + r, 0, env) == Running(v + ReplaceAll(r, Token(n), v), |Token(n)|)
  {
    TokenOpens(n, r);
    hide Opens, Defined, Pass, Close, NameAt, PlainName, ReplaceAll;
    PassJumps(Token(n) + r, 0, env);
    ReplaceAtFront(Token(n), r, Lookup(env, n));
  }

  /** A token alone gives way to its value. */
  lemma PassTokenOnly(n: string, env: Env)
    requires PlainName(n) && Defined(env, n)
    ensures Pass(Token(n), 0, env) == Running(Lookup(env, n), |Token(n)|)
  {
    assert ReplaceAll("", Token(n), Lookup(env, n)) == "";
    hide Opens, Defined, Pass, PlainName, ReplaceAll, Token;
    PassFirst(n, "", env);
    assert Token(n) + "" == Token(n) && Lookup(env, n) + "" == Lookup(env, n);
  }

  lemma PassAt(d: string, n: string, r: string, env: Env)
    requires PlainName(n) && Settled(d, env) && Defined(env, n)
    ensures var v := Lookup(env, n);
      Pass(d + (Token(n) + r), |d|, env) == Running(d + (v + ReplaceAll(r, Token(n), v)), |d| + |Token(n)|)
  {
    hide Settled, Defined, Pass, PlainName, ReplaceAll;
    var t, v := Token(n) + r, Lookup(env, n);
    PassToken(d, n, r, env);
    ReplaceAfterSettled(d, t, 0, n, env);
    ReplaceAtFront(Token(n), r, v);
    assert (d + t)[0..] == d + t && d[0..] == d;
  }

  // ---------------------------------------------------------------- the run of the loop

  ghost function EndFor(d: string, r: string, full: Env): Progress {
    if EndsInDollar(r) then Panicked else Finished(d + Subst(r, full))
  }

  /** Text moved from the rest to the front is not lost. */
  lemma EndMoved(d: string, w: string, r: string, s: string, full: Env)
    requires Subst(s, full) == w + Subst(r, full) && EndsInDollar(s) == EndsInDollar(r)
    ensures EndFor(d + w, r, full) == EndFor(d, s, full)
  {
    assert d + w + Subst(r, full) == d + (w + Subst(r, full));
  }

  /**
   From settled text on, the loop carries out the substitution of the rest, values that hold
   tokens included, or panics when the rest ends in `$`.
   */
  lemma {:induction false} RunsDeep(d: string, r: string, env: Env, full: Env, deep: set<string>)
    requires Resolves(env, full, deep) && Settled(d, env) && Flat(r) && Fits(r, env, full, deep)
    ensures Ends(d + r, |d|, env, EndFor(d, r, full))
    decreases |Subst(r, full)|, 1
  {
    if r == "" || r == "$" {
      assert r == "" ==> d + r == d && d + Subst(r, full) == d;
      EndsNow(d + r, |d|, env);
    } else if Opens(r, 0) {
      var n, r2 := NameAt(r, 0), r[Close(r, 2) + 1..];
      SplitToken(r);
      if !Defined(env, n) {
        RunsOverUndefined(d, n, r2, env, full, deep);
      } else {
        TokenFront(n, r2, env);
        if n in deep {
          RunsOverReady(d, n, r2, env, full, deep);
        } else {
          OverShort(d, n, r2, env, full);
        }
      }
    } else if r[0] == '$' && r[1] == '{' {
      Unclosed(d, r, env);
      NoBraceNoNames(r);
      OnlyNames(r, full);
    } else {
      var k := if r[0] == '$' then 2 else 1;
      assert r == r[..k] + r[k..];
      RunsOverText(d, r[..k], r[k..], env, full, deep);
    }
  }

  lemma {:induction false} RunsOverText(d: string, w: string, r: string, env: Env, full: Env, deep: set<string>)
    requires Resolves(env, full, deep) && Settled(d, env) && Flat(w + r) && Fits(w + r, env, full, deep)
    requires Inert(w) && w != ""
    ensures Ends(d + (w + r), |d|, env, EndFor(d, w + r, full))
    decreases |Subst(w + r, full)|, 0
  {
    assert (w + r)[|w|..] == r && !EndsInDollar(w);
    FlatSuffix(w + r, |w|);
    InertFront(w, r, full);
    InertIsQuiet(w, env);
    LastOf(w, r);
    SettledConcat(d, w, env);
    hide Resolves, Settled, Flat, Inert, EndsInDollar, Subst, Names;
    RunsDeep(d + w, r, env, full, deep);
    EndMoved(d, w, r, w + r, full);
    assert d + (w + r) == d + w + r;
    OverSettled(d, w, r, 0, env, EndFor(d, w + r, full));
  }

  lemma {:induction false} RunsOverUndefined(d: string, n: string, r: string, env: Env, full: Env, deep: set<string>)
    requires Resolves(env, full, deep) && Settled(d, env) && Flat(r) && Fits(Token(n) + r, env, full, deep)
    requires PlainName(n) && !Defined(env, n)
    ensures Ends(d + (Token(n) + r), |d|, env, EndFor(d, Token(n) + r, full))
    decreases |Subst(Token(n) + r, full)|, 0
  {
    assert !Defined(full, n) && !EndsInDollar(Token(n));
    TokenFront(n, r, full);
    TokenSettles(n, env);
    LastOf(Token(n), r);
    SettledConcat(d, Token(n), env);
    hide Resolves, Settled, Flat, EndsInDollar, Subst, Names, Defined, PlainName;
    RunsDeep(d + Token(n), r, env, full, deep);
    EndMoved(d, Token(n), r, Token(n) + r, full);
    assert d + (Token(n) + r) == d + Token(n) + r;
    OverSettled(d, Token(n), r, 0, env, EndFor(d, Token(n) + r, full));
  }

  lemma {:induction false} RunsOverReady(d: string, n: string, r: string, env: Env, full: Env, deep: set<string>)
    requires Resolves(env, full, deep) && Settled(d, env) && Flat(r) && Fits(Token(n) + r, env, full, deep)
    requires PlainName(n) && n in deep
    ensures Ends(d + (Token(n) + r), |d|, env, EndFor(d, Token(n) + r, full))
    decreases |Subst(Token(n) + r, full)|, 0
  {
    assert Ready(env, n) && Defined(env, n);
    var w, y := ReadyCut(n, env);
    RestAfterReady(n, w, y, r, env, full, deep);
    hide *;
    SettledConcat(d, w, env);
    RunsDeep(d + w, y + ReplaceAll(r, Token(n), w + y), env, full, deep);
    ReadyStep(d, n, w, y, r, env, full);
  }

  lemma ReadyCut(n: string, env: Env) returns (w: string, y: string)
    requires Ready(env, n)
    ensures Lookup(env, n) == w + y && |Token(n)| <= |w| && |w| > 0 && Settled(w, env)
  {
    hide Flat, Closed, Settled, Lookup;
    var v := Lookup(env, n);
    var c :| |Token(n)| <= c <= |v| && Settled(v[..c], env);
    w, y := v[..c], v[c..];
  }

  lemma ReadyStep(d: string, n: string, w: string, y: string, r: string, env: Env, full: Env)
    requires PlainName(n) && Defined(env, n) && Lookup(env, n) == w + y && |Token(n)| <= |w|
    requires Settled(d, env) && Settled(w, env)
    requires var s := y + ReplaceAll(r, Token(n), w + y);
      && EndsInDollar(s) == EndsInDollar(Token(n) + r) && Subst(Token(n) + r, full) == w + Subst(s, full)
      && Ends(d + w + s, |d + w|, env, EndFor(d + w, s, full))
    ensures Ends(d + (Token(n) + r), |d|, env, EndFor(d, Token(n) + r, full))
  {
    var x := ReplaceAll(r, Token(n), w + y);
    hide *;
    PassAt(d, n, r, env);
    EndMoved(d, w, y + x, Token(n) + r, full);
    ReadyJump(d + (Token(n) + r), d, w, y, x, |Token(n)|, env, EndFor(d, Token(n) + r, full));
  }

  lemma ReadyJump(s: string, d: string, w: string, y: string, x: string, jump: nat, env: Env, end: Progress)
    requires Pass(s, |d|, env) == Running(d + (w + y + x), |d| + jump) && jump <= |w|
    requires Settled(w, env) && Ends(d + w + (y + x), |d + w|, env, end)
    ensures Ends(s, |d|, env, end)
  {
    hide *;
    assert d + w + (y + x) == d + (w + (y + x)) == d + (w + y + x);
    OverSettled(d, w, y + x, jump, env, end);
    EndsAfterPass(s, |d|, env, d + (w + y + x), |d| + jump, end);
  }

  /** The value is `w` before the point where reading goes on, `y` from there. */
  lemma RestAfterReady(n: string, w: string, y: string, r: string, env: Env, full: Env, deep: set<string>)
    requires Resolves(env, full, deep) && Flat(r) && Fits(Token(n) + r, env, full, deep) && PlainName(n) && n in deep
    requires Lookup(env, n) == w + y && Settled(w, env)
    ensures var s := y + ReplaceAll(r, Token(n), w + y);
      && Flat(s) && Fits(s, env, full, deep) && EndsInDollar(s) == EndsInDollar(Token(n) + r)
      && Subst(Token(n) + r, full) == w + Subst(s, full)
  {
    var s := y + ReplaceAll(r, Token(n), w + y);
    assert Stands(n, w + y, full) && Settled(w, full);
    assert forall m :: m in Names(w + y) && Defined(env, m) ==> m in deep;
    ValueRest(n, w, y, r, full);
    TokenNames(n, r);
    hide Subst, Flat, Closed, Opens, Settled, EndsInDollar, Names, Resolves, Token, PlainName, Ready, Stands, Lookup;
    forall m | m in Names(s) && Defined(env, m)
      ensures m in deep
    {
      if m !in Names(w + y) {
        assert m in Names(Token(n) + r) && n in Names(Token(n) + r);
      }
    }
  }

  lemma TokenNames(n: string, r: string)
    requires PlainName(n)
    ensures Names(Token(n) + r) == {n} + Names(r)
  {
    TokenFront(n, r, map[]);
  }

  lemma ValueRest(n: string, w: string, y: string, r: string, full: Env)
    requires Flat(r) && Stands(n, w + y, full) && Settled(w, full)
    ensures var x := ReplaceAll(r, Token(n), w + y);
      && Flat(y + x) && Names(y + x) <= Names(w + y) + Names(r)
      && EndsInDollar(y + x) == EndsInDollar(Token(n) + r)
      && Subst(Token(n) + r, full) == w + Subst(y + x, full)
  {
    var x := ReplaceAll(r, Token(n), w + y);
    ClosedRest(n, w, y, full);
    ReplaceIsPartial(r, n, w + y, full);
    hide *;
    UsePartial(r, x, n, w + y, full);
    ClosedFront(y, x, full);
    UseApart(y, x, full);
    SameLast(n, w, y, r, x, full);
    ValueText(n, w, y, r, full);
    Regroup(w, Subst(y, full), Subst(r, full));
  }

  lemma Regroup(a: string, b: string, c: string)
    ensures a + b + c == a + (b + c)
  {
  }

  lemma ClosedRest(n: string, w: string, y: string, full: Env)
    requires Stands(n, w + y, full)
    ensures Flat(y) && Closed(y) && Names(y) <= Names(w + y)
  {
    assert (w + y)[|w|..] == y;
    FlatSuffix(w + y, |w|);
    ClosedSuffix(w + y, |w|);
    NamesOfSuffix(w + y, |w|);
  }

  lemma ValueText(n: string, w: string, y: string, r: string, full: Env)
    requires Stands(n, w + y, full) && Settled(w, full)
    ensures Subst(Token(n) + r, full) == w + Subst(y, full) + Subst(r, full)
  {
    assert PlainName(n) && Defined(full, n) && Lookup(full, n) == Subst(w + y, full);
    hide *;
    TokenFront(n, r, full);
    SettledFront(w, y, full);
  }

  lemma UsePartial(r: string, r': string, n: string, v: string, env: Env)
    requires Partial(r, r', n, v, env)
    ensures Flat(r') && Subst(r', env) == Subst(r, env) && Names(r') <= Names(r) + Names(v)
  {
  }

  lemma UseApart(v: string, x: string, env: Env)
    requires Apart(v, x, env) && Flat(x)
    ensures Subst(v + x, env) == Subst(v, env) + Subst(x, env) && Names(v + x) == Names(v) + Names(x) && Flat(v + x)
  {
  }

  lemma SameLast(n: string, w: string, y: string, r: string, x: string, full: Env)
    requires Flat(r) && Stands(n, w + y, full) && x == ReplaceAll(r, Token(n), w + y)
    ensures EndsInDollar(y + x) == EndsInDollar(Token(n) + r)
  {
    ReplaceIsPartial(r, n, w + y, full);
    assert !EndsInDollar(w + y) && !EndsInDollar(Token(n));
    hide Subst, Names, Flat, Closed, EndsInDollar, Token, Stands;
    LastOf(w, y);
    LastOf(Token(n), r);
    LastOf(y, x);
    assert y == "" ==> !EndsInDollar(y) by { NoLast(); }
  }

  lemma NoLast()
    ensures !EndsInDollar("")
  {
  }

  /** A short value makes the loop jump over text, which is harmless when no other value is called for. */
  lemma OverShort(d: string, n: string, r: string, env: Env, full: Env)
    requires Settled(d, env) && PlainName(n) && Flat(r) && Defined(env, n) && Alone(Token(n) + r, n, env)
    requires Quiet(Lookup(env, n), env) && Lookup(full, n) == Lookup(env, n)
    requires forall m :: Defined(env, m) <==> Defined(full, m)
    ensures Ends(d + (Token(n) + r), |d|, env, EndFor(d, Token(n) + r, full))
  {
    var v, x := Lookup(env, n), ReplaceAll(r, Token(n), Lookup(env, n));
    NothingElse(n, r, env, full);
    assert Settled(v, env) && v != "" && !EndsInDollar(v);
    assert EndFor(d, Token(n) + r, full) == Finished(d + (v + x));
    hide *;
    PassAt(d, n, r, env);
    ShortJump(d + (Token(n) + r), d, v, x, |d| + |Token(n)|, env);
  }

  lemma ShortJump(s: string, d: string, v: string, x: string, j: nat, env: Env)
    requires Pass(s, |d|, env) == Running(d + (v + x), j) && v != "" && !EndsInDollar(v) && !EndsInDollar(x)
    requires Settled(d, env) && Settled(v, env) && forall m :: m in Names(x) ==> !Defined(env, m)
    ensures Ends(s, |d|, env, Finished(d + (v + x)))
  {
    hide *;
    SettledConcat(d, v, env);
    LastOf(d, v);
    LastOf(d + v, x);
    Dormant(d + v, x, env);
    Idle(d + v + x, j, env);
    assert d + v + x == d + (v + x);
    EndsAfterPass(s, |d|, env, d + (v + x), j, Finished(d + (v + x)));
  }

  lemma NothingElse(n: string, r: string, env: Env, full: Env)
    requires PlainName(n) && Flat(r) && Defined(env, n) && Alone(Token(n) + r, n, env)
    requires Quiet(Lookup(env, n), env) && Lookup(full, n) == Lookup(env, n)
    requires forall m :: Defined(env, m) <==> Defined(full, m)
    ensures var v := Lookup(env, n); var x := ReplaceAll(r, Token(n), v);
      && (forall m :: m in Names(x) ==> !Defined(env, m)) && !EndsInDollar(x) && !EndsInDollar(Token(n) + r)
      && Subst(Token(n) + r, full) == v + x
  {
    var v, x := Lookup(env, n), ReplaceAll(r, Token(n), Lookup(env, n));
    assert Settled(v, full);
    SettledIsClosed(v, env);
    SettledNames(v, env);
    SettledFront(v, "", full);
    assert Stands(n, v, full);
    hide Subst, Flat, Opens, PlainName, Settled, Stands, Closed;
    TokenFront(n, r, full);
    ReplaceIsPartial(r, n, v, full);
    LastOf(Token(n), r);
    assert EndsInDollar(r) ==> EndsInDollar(Token(n) + r);
    OnlyNames(x, full);
  }

  /** Settled text followed by text that calls for nothing: no defined token anywhere. */
  lemma Dormant(d: string, x: string, env: Env)
    requires Settled(d, env) && (forall m :: m in Names(x) ==> !Defined(env, m))
    ensures forall p :: 0 <= p < |d + x| && Opens(d + x, p) ==> !Defined(env, NameAt(d + x, p))
  {
    forall p | 0 <= p < |d + x| && Opens(d + x, p)
      ensures !Defined(env, NameAt(d + x, p))
    {
      if p >= |d| {
        OpensShift(d, x, p - |d|);
        NameOf(x, p - |d|);
      } else {
        SettledName(d, x, p, env);
      }
    }
  }

  lemma OnlyNames(s: string, env: Env)
    requires forall n :: n in Names(s) ==> !Defined(env, n)
    ensures Subst(s, env) == s
  {
    forall p | 0 <= p < |s| && Opens(s, p)
      ensures !Defined(env, NameAt(s, p))
    {
      NameOf(s, p);
    }
    NothingToSubst(s, env);
  }

  /** After an unclosed `${` there are no tokens left: the loop only looks for a last `$`. */
  lemma Unclosed(d: string, r: string, env: Env)
    requires |r| > 1 && (forall k :: 2 <= k < |r| ==> r[k] != '}') && r[1] == '{'
    ensures Subst(r, env) == r
    ensures Ends(d + r, |d|, env, if EndsInDollar(r) then Panicked else Finished(d + r))
  {
    NothingToSubst(r, env);
    forall p | |d| <= p < |d + r|
      ensures !Opens(d + r, p)
    {
      OpensShift(d, r, p - |d|);
    }
    Idle(d + r, |d|, env);
  }

  lemma {:induction false} NothingToSubst(s: string, env: Env)
    requires forall p :: 0 <= p < |s| && Opens(s, p) ==> !Defined(env, NameAt(s, p))
    ensures Subst(s, env) == s
  {
    if s != "" {
      forall p | 0 <= p < |s[1..]| && Opens(s[1..], p)
        ensures !Defined(env, NameAt(s[1..], p))
      {
        assert [s[0]] + s[1..] == s;
        OpensShift([s[0]], s[1..], p);
      }
      NothingToSubst(s[1..], env);
    }
  }

  /** Where no defined token is left, the loop changes nothing. */
  lemma {:induction false} Idle(s: string, i: nat, env: Env)
    requires forall p :: i <= p < |s| && Opens(s, p) ==> !Defined(env, NameAt(s, p))
    ensures Ends(s, i, env, if i < |s| && EndsInDollar(s) then Panicked else Finished(s))
    decreases |s| - i
  {
    if Pass(s, i, env).Running? {
      Idle(s, i + 1, env);
      EndsAfterPass(s, i, env, s, i + 1, if i < |s| && EndsInDollar(s) then Panicked else Finished(s));
    } else {
      EndsNow(s, i, env);
    }
  }

  // ---------------------------------------------------------------- values of any length

  /** A source all of whose values are quiet, however short. */
  predicate Tame(s: string, env: Env) {
    Flat(s) && forall n :: n in Names(s) && Defined(env, n) ==> Quiet(Lookup(env, n), env)
  }

  function Pending(s: string, env: Env): nat {
    |set n | n in Names(s) && Defined(env, n)|
  }

  lemma PendingShrinks(s: string, t: string, n: string, env: Env)
    requires forall m :: m in Names(s) && Defined(env, m) ==> m in Names(t) && m != n
    requires n in Names(t) && Defined(env, n)
    ensures Pending(s, env) < Pending(t, env)
  {
    var a, b := set m | m in Names(s) && Defined(env, m), set m | m in Names(t) && Defined(env, m);
    assert b == a + (b - a) && n in b - a;
  }

  lemma QuietStands(n: string, env: Env)
    requires PlainName(n) && Defined(env, n) && Quiet(Lookup(env, n), env)
    ensures Stands(n, Lookup(env, n), env) && forall m :: m in Names(Lookup(env, n)) ==> !Defined(env, m)
  {
    SettledIsClosed(Lookup(env, n), env);
    SettledNames(Lookup(env, n), env);
    SettledFront(Lookup(env, n), "", env);
  }

  lemma TameStep(src: string, i: nat, env: Env)
    requires Tame(src, env) && Opens(src, i) && Defined(env, NameAt(src, i))
    ensures var n := NameAt(src, i); var s := ReplaceAll(src, Token(n), Lookup(env, n));
      && Tame(s, env) && Subst(s, env) == Subst(src, env) && EndsInDollar(s) == EndsInDollar(src)
      && n in Names(src) && Pending(s, env) < Pending(src, env)
      && (forall m :: m in Names(s) ==> m in Names(src) || !Defined(env, m))
  {
    var n := NameAt(src, i);
    NameOf(src, i);
    NamesArePlain(src, n);
    hide Subst, Opens, EndsInDollar, Names, PlainName, Defined, Quiet;
    QuietStands(n, env);
    ReplaceIsPartial(src, n, Lookup(env, n), env);
    PendingShrinks(ReplaceAll(src, Token(n), Lookup(env, n)), src, n, env);
  }

  ghost predicate Means(src: string, env: Env, end: Progress) {
    match end
    case Finished(out) =>
      && Tame(out, env) && Subst(out, env) == Subst(src, env)
      && (forall n :: n in Names(out) ==> n in Names(src) || !Defined(env, n))
    case _ => EndsInDollar(src)
  }

  /** The loop stops on every tame source: each replacement uses up a name. */
  lemma {:induction false} TameStops(src: string, i: nat, env: Env) returns (end: Progress)
    requires Tame(src, env)
    ensures Ends(src, i, env, end) && Means(src, env, end)
    decreases Pending(src, env), |src| - i
  {
    match Pass(src, i, env)
    case Running(s, j) =>
      if Opens(src, i) && src[i] == '$' && Defined(env, NameAt(src, i)) {
        TameStep(src, i, env);
      }
      end := TameStops(s, j, env);
      EndsAfterPass(src, i, env, s, j, end);
    case done =>
      end := done;
      EndsNow(src, i, env);
  }

  /** `e2` agrees with `e1` on the names of the source, and defines nothing that `e1` does not. */
  ghost predicate Agree(s: string, e1: Env, e2: Env) {
    && (forall m :: m in Names(s) ==> Lookup(e1, m) == Lookup(e2, m))
    && (forall m :: !Defined(e1, m) ==> !Defined(e2, m))
  }

  lemma SamePass(src: string, i: nat, e1: Env, e2: Env)
    requires Tame(src, e1) && Agree(src, e1, e2)
    ensures Pass(src, i, e1) == Pass(src, i, e2)
    ensures var p := Pass(src, i, e1); p.Running? ==> Tame(p.src, e1) && Agree(p.src, e1, e2)
  {
    if Opens(src, i) {
      NameOf(src, i);
      if Defined(e1, NameAt(src, i)) {
        hide Tame, Opens, NameAt, Names;
        TameStep(src, i, e1);
        SameNames(ReplaceAll(src, Token(NameAt(src, i)), Lookup(e1, NameAt(src, i))), src, e1, e2);
      }
    }
  }

  lemma SameNames(s: string, src: string, e1: Env, e2: Env)
    requires Agree(src, e1, e2) && forall m :: m in Names(s) ==> m in Names(src) || !Defined(e1, m)
    ensures Agree(s, e1, e2)
  {
    forall m | m in Names(s)
      ensures Lookup(e1, m) == Lookup(e2, m)
    {
      if !Defined(e1, m) {
        assert !Defined(e2, m);
      }
    }
  }

  /** Only the values of the names a source mentions matter to the loop. */
  lemma {:induction false} SameRun(n: nat, src: string, i: nat, e1: Env, e2: Env)
    requires Tame(src, e1) && Agree(src, e1, e2)
    ensures After(n, src, i, e1) == After(n, src, i, e2)
    decreases n
  {
    hide Pass, Tame, Agree, Lookup;
    if n > 0 {
      SamePass(src, i, e1, e2);
      match Pass(src, i, e1)
      case Running(s, j) => SameRun(n - 1, s, j, e1, e2);
      case _ =>
    }
  }

  // ---------------------------------------------------------------- the main results

  /**
   Values may hold tokens themselves: if those start no earlier than the jump lands, the loop
   substitutes through them, and what it ends with is the source with every name replaced by
   what its value comes to in the end.
   */
  lemma LoopIsDeepSubstitution(src: string, env: Env, full: Env, deep: set<string>)
    requires Flat(src) && Resolves(env, full, deep) && Fits(src, env, full, deep)
    ensures Ends(src, 0, env, if EndsInDollar(src) then Panicked else Finished(Subst(src, full)))
  {
    RunsDeep("", src, env, full, deep);
    assert "" + src == src && "" + Subst(src, full) == Subst(src, full);
  }

  lemma QuietConcat(v: string, x: string, env: Env)
    requires Quiet(v, env) && Quiet(x, env)
    ensures Quiet(v + x, env)
  {
    SettledConcat(v, x, env);
    SettledIsClosed(v, env);
    ClosedFront(v, x, env);
  }

  lemma TokenQuiet(n: string, env: Env)
    requires PlainName(n) && !Defined(env, n)
    ensures Quiet(Token(n), env)
  {
    TokenSettles(n, env);
    TokenFront(n, "", env);
    assert Token(n) + "" == Token(n);
  }

  /** All the values a source calls for are quiet. */
  predicate CallsForQuiet(s: string, env: Env) {
    forall n :: n in Names(s) && Defined(env, n) ==> Quiet(Lookup(env, n), env)
  }

  lemma QuietAfterToken(n: string, r: string, env: Env)
    requires PlainName(n) && CallsForQuiet(Token(n) + r, env)
    ensures CallsForQuiet(r, env)
    ensures Quiet(Subst(r, env), env) ==> Quiet(Subst(Token(n) + r, env), env)
  {
    TokenFront(n, r, env);
    hide Quiet, Subst, Opens, Close, NameAt, Names, PlainName, Flat;
    if Quiet(Subst(r, env), env) {
      if !Defined(env, n) {
        TokenQuiet(n, env);
      }
      QuietConcat(if Defined(env, n) then Lookup(env, n) else Token(n), Subst(r, env), env);
    }
  }

  lemma QuietAfterText(w: string, r: string, env: Env)
    requires Inert(w) && CallsForQuiet(w + r, env)
    ensures CallsForQuiet(r, env)
    ensures Quiet(Subst(r, env), env) ==> Quiet(Subst(w + r, env), env)
  {
    hide Quiet, Subst, Names, Inert, Flat;
    InertFront(w, r, env);
    InertIsQuiet(w, env);
    if Quiet(Subst(r, env), env) {
      QuietConcat(w, Subst(r, env), env);
    }
  }

  /** Substituting quiet values into a closed value gives a quiet one. */
  lemma {:induction false} SubstQuiet(s: string, env: Env)
    requires Flat(s) && Closed(s) && CallsForQuiet(s, env)
    ensures Quiet(Subst(s, env), env)
    decreases |s|
  {
    hide CallsForQuiet, Quiet;
    if s == "" {
      InertIsQuiet("", env);
    } else if Opens(s, 0) {
      var n, r := NameAt(s, 0), s[Close(s, 2) + 1..];
      SplitToken(s);
      ClosedSuffix(s, Close(s, 2) + 1);
      QuietAfterToken(n, r, env);
      SubstQuiet(r, env);
    } else {
      var w, r := TextFront(s);
      QuietAfterText(w, r, env);
      SubstQuiet(r, env);
    }
  }

  /** Closed text that opens no token begins with inert text. */
  lemma TextFront(s: string) returns (w: string, r: string)
    requires Flat(s) && Closed(s) && s != "" && !Opens(s, 0)
    ensures s == w + r && w != "" && Inert(w) && Flat(r) && Closed(r) && |r| < |s|
  {
    var k := if s[0] == '$' then 2 else 1;
    w, r := s[..k], s[k..];
    assert s[0] == '$' ==> s[1] != '{' && s[1] != '$';
    FlatSuffix(s, k);
    ClosedSuffix(s, k);
  }

  lemma SuitsFits(r: string, env: Env, deep: set<string>)
    requires Flat(r) && Suits(r, env) && deep == set n | n in Names(r) && Defined(env, n) && Covers(env, n)
    ensures Resolves(env, env, deep) && Fits(r, env, env, deep)
  {
    forall n | n in deep
      ensures Ready(env, n) && Lookup(env, n) == Subst(Lookup(env, n), env)
      ensures forall m :: m in Names(Lookup(env, n)) ==> !Defined(env, m)
    {
      var v := Lookup(env, n);
      assert v[..|v|] == v;
      NamesArePlain(r, n);
      QuietStands(n, env);
    }
  }

  /** From settled text on, values quiet: the loop carries out the substitution of the rest. */
  lemma RunsToSubst(d: string, r: string, env: Env)
    requires Settled(d, env) && Flat(r) && Suits(r, env)
    ensures Ends(d + r, |d|, env, if EndsInDollar(r) then Panicked else Finished(d + Subst(r, env)))
  {
    var deep := set n | n in Names(r) && Defined(env, n) && Covers(env, n);
    SuitsFits(r, env, deep);
    RunsDeep(d, r, env, env, deep);
  }

  /** For suitable sources and values the loop is substitution; it panics exactly on a last `$`. */
  lemma LoopIsSubstitution(src: string, env: Env)
    requires Flat(src) && Suits(src, env)
    ensures Ends(src, 0, env, if EndsInDollar(src) then Panicked else Finished(Subst(src, env)))
  {
    RunsToSubst("", src, env);
    assert "" + src == src && "" + Subst(src, env) == Subst(src, env);
  }

  /** Substitution leaves no defined name behind. */
  lemma {:induction false} SubstLeavesNone(s: string, env: Env)
    requires Tame(s, env)
    ensures forall n :: n in Names(Subst(s, env)) ==> !Defined(env, n)
    decreases |s|
  {
    if s == "" {
    } else if Opens(s, 0) {
      var n, r := NameAt(s, 0), s[Close(s, 2) + 1..];
      SplitToken(s);
      TokenFront(n, r, env);
      hide Subst, Opens, NameAt, Close;
      SubstLeavesNone(r, env);
      if Defined(env, n) {
        QuietStands(n, env);
        ClosedFront(Lookup(env, n), Subst(r, env), env);
      } else {
        TokenFront(n, Subst(r, env), env);
      }
    } else if s[0] == '$' && |s| > 1 && s[1] == '{' {
      NoBraceNoNames(s);
      OnlyNames(s, env);
    } else {
      SubstLeavesNone(s[1..], env);
      assert ([s[0]] + Subst(s[1..], env))[1..] == Subst(s[1..], env);
    }
  }

  /**
   Values too short leave the work unfinished, never wrong: whatever the loop stops with
   still stands for the same text, and is that text exactly when no defined name is left in it.
   */
  lemma UnfinishedNotWrong(src: string, env: Env, end: Progress)
    requires Tame(src, env) && Ends(src, 0, env, end)
    ensures end.Panicked? ==> EndsInDollar(src)
    ensures end.Finished? ==>
      && Tame(end.out, env) && Subst(end.out, env) == Subst(src, env)
      && (forall n :: n in Names(end.out) ==> n in Names(src) || !Defined(env, n))
      && (end.out == Subst(src, env) <==> forall n :: n in Names(end.out) ==> !Defined(env, n))
  {
    var end' := TameStops(src, 0, env);
    OneEnd(src, 0, env, end, end');
    SubstLeavesNone(src, env);
    if end.Finished? && forall n :: n in Names(end.out) ==> !Defined(env, n) {
      OnlyNames(end.out, env);
    }
  }

  ghost predicate SubstitutesAll(env: Env) {
    forall s :: Flat(s) && !EndsInDollar(s) ==> Ends(s, 0, env, Finished(Subst(s, env)))
  }

  predicate Usable(env: Env, n: string) {
    n in env && env[n] != "" && PlainName(n)
  }

  /**
   Exactly which environments are safe for every source: those in which every value covers
   its token, and those with a single usable name.
   */
  lemma SafeEnvironments(env: Env)
    requires forall n :: Usable(env, n) ==> Quiet(env[n], env)
    ensures SubstitutesAll(env) <==>
      || (forall n :: Usable(env, n) ==> Covers(env, n))
      || (forall m, n :: Usable(env, m) && Usable(env, n) ==> m == n)
  {
    if (forall n :: Usable(env, n) ==> Covers(env, n)) || (forall m, n :: Usable(env, m) && Usable(env, n) ==> m == n) {
      forall s | Flat(s) && !EndsInDollar(s)
        ensures Ends(s, 0, env, Finished(Subst(s, env)))
      {
        forall n | n in Names(s) && Defined(env, n)
          ensures Usable(env, n)
        {
          NamesArePlain(s, n);
        }
        LoopIsSubstitution(s, env);
      }
    } else {
      var a :| Usable(env, a) && !Covers(env, a);
      var b :| Usable(env, b) && a != b by {
        var m, n :| Usable(env, m) && Usable(env, n) && m != n;
        assert m != a || n != a;
      }
      QuietIsNoToken(b, env);
      ShortValueLosesToken(a, b, env);
    }
  }

  lemma QuietIsNoToken(n: string, env: Env)
    requires Usable(env, n) && Quiet(env[n], env)
    ensures env[n] != Token(n)
  {
    TokenOpens(n, "");
    assert Token(n) + "" == Token(n);
  }

  /** A short value directly before another token makes the loop jump over that token. */
  lemma ShortValueLosesToken(a: string, b: string, env: Env)
    requires Usable(env, a) && Usable(env, b) && a != b && !Covers(env, a) && env[b] != Token(b)
    ensures var src := Token(a) + Token(b);
      && Flat(src) && !EndsInDollar(src)
      && Ends(src, 0, env, Finished(env[a] + Token(b)))
      && !Ends(src, 0, env, Finished(Subst(src, env)))
  {
    var src, s := Token(a) + Token(b), env[a] + Token(b);
    TwoTokens(a, b, env);
    FirstJump(a, b, env);
    NothingBehind(a, b, env);
    hide Pass, Opens, EndsInDollar, Subst, Flat;
    Idle(s, |Token(a)|, env);
    EndsAfterPass(src, 0, env, s, |Token(a)|, Finished(s));
    if Ends(src, 0, env, Finished(Subst(src, env))) {
      OneEnd(src, 0, env, Finished(Subst(src, env)), Finished(s));
    }
  }

  /** Past its first character a token opens nothing. */
  lemma NothingBehind(a: string, b: string, env: Env)
    requires Usable(env, a) && Usable(env, b) && !Covers(env, a)
    ensures var s := env[a] + Token(b);
      !EndsInDollar(s) && forall p :: |Token(a)| <= p < |s| ==> !Opens(s, p)
  {
    var s := env[a] + Token(b);
    forall p | |Token(a)| <= p < |s|
      ensures !Opens(s, p)
    {
      assert s[p] == Token(b)[p - |env[a]|];
    }
  }

  lemma TwoTokens(a: string, b: string, env: Env)
    requires Usable(env, a) && Usable(env, b) && env[b] != Token(b)
    ensures var src := Token(a) + Token(b);
      Flat(src) && !EndsInDollar(src) && Subst(src, env) == env[a] + env[b] != env[a] + Token(b)
  {
    assert Token(b) + "" == Token(b);
    TokenFront(b, "", env);
    TokenFront(a, Token(b), env);
    TwoTokenSubst(a, b, env);
    assert (env[a] + env[b])[|env[a]|..] == env[b] && (env[a] + Token(b))[|env[a]|..] == Token(b);
  }

  lemma TwoTokenSubst(a: string, b: string, env: Env)
    requires Usable(env, a) && Usable(env, b)
    ensures Subst(Token(a) + Token(b), env) == env[a] + env[b]
  {
    assert Token(b) + "" == Token(b) && env[b] + Subst("", env) == env[b];
    TokenFront(b, "", env);
    TokenFront(a, Token(b), env);
  }

  lemma FirstJump(a: string, b: string, env: Env)
    requires Usable(env, a) && Usable(env, b) && a != b
    ensures Pass(Token(a) + Token(b), 0, env) == Running(env[a] + Token(b), |Token(a)|)
  {
    PassFirst(a, Token(b), env);
    OtherReplaced(a, b, env[a], env);
  }

  lemma OtherReplaced(a: string, b: string, v: string, env: Env)
    requires PlainName(a) && PlainName(b) && a != b
    ensures ReplaceAll(Token(b), Token(a), v) == Token(b)
  {
    assert Token(b) + "" == Token(b);
    TokenFront(b, "", env);
    if Token(a) <= Token(b) + "" {
      FirstClose(Token(b), "", 0, a);
    }
    ReplaceKeepsToken(b, "", a, v);
    assert Token(b) + ReplaceAll("", Token(a), v) == Token(b);
  }
}
