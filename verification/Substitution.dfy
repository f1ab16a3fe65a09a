/**
 In-place substitution of `${NAME}` (util/common.go, parseVariablesFrom).

 The Go loop rewrites the very string it is scanning: it replaces every occurrence of the
 token it stands on and then jumps its index to where the closing brace used to be.
 `Pass` is one pass of that loop, `After` is any number of passes, and `Subst` is the
 independent left-to-right definition of what substitution means.
 */
module Substitution {

  /** What os.Getenv or a Go map gives: a missing name reads as the empty string. */
  type Env = map<string, string>

  function Lookup(env: Env, name: string): string {
    if name in env then env[name] else ""
  }

  predicate Defined(env: Env, name: string) {
    Lookup(env, name) != ""
  }

  function Token(name: string): string {
    "${" + name + "}"
  }

  /** Index of the first `}` at or after `from`; |s| when there is none. */
  function Close(s: string, from: nat): (c: nat)
    requires from <= |s|
    ensures from <= c <= |s|
    ensures forall k :: from <= k < c ==> s[k] != '}'
    ensures c < |s| ==> s[c] == '}'
    decreases |s| - from
  {
    if from == |s| || s[from] == '}' then from else Close(s, from + 1)
  }

  /** strings.Replace(s, tok, val, -1): leftmost, non-overlapping. */
  function ReplaceAll(s: string, tok: string, val: string): string
    requires tok != ""
  {
    if s == "" then ""
    else if tok <= s then val + ReplaceAll(s[|tok|..], tok, val)
    else [s[0]] + ReplaceAll(s[1..], tok, val)
  }

  /** A `${name}` with some closing brace starts at `p`; its name runs to the first `}`. */
  predicate Opens(s: string, p: nat) {
    p + 1 < |s| && s[p] == '$' && s[p + 1] == '{' && Close(s, p + 2) < |s|
  }

  function NameAt(s: string, p: nat): string
    requires Opens(s, p)
  {
    s[p + 2..Close(s, p + 2)]
  }

  // ---------------------------------------------------------------- the loop as written

  datatype Progress = Running(src: string, i: nat) | Finished(out: string) | Panicked

  /** One pass of the outer loop, from its test to its increment. */
  function Pass(src: string, i: nat, env: Env): Progress {
    if i >= |src| then Finished(src)
    else if src[i] != '$' then Running(src, i + 1)
    else if i + 1 == |src| then Panicked
    else if !Opens(src, i) || !Defined(env, NameAt(src, i)) then Running(src, i + 1)
    else
      var name := NameAt(src, i);
      Running(ReplaceAll(src, Token(name), Lookup(env, name)), Close(src, i + 2) + 1)
  }

  function After(n: nat, src: string, i: nat, env: Env): Progress {
    if n == 0 then Running(src, i)
    else match Pass(src, i, env)
      case Running(s, j) => After(n - 1, s, j, env)
      case done => done
  }

  /** The loop ends with `end` when started on `src` at index `i`. */
  ghost predicate Ends(src: string, i: nat, env: Env, end: Progress) {
    !end.Running? && exists n: nat :: After(n, src, i, env) == end
  }

  lemma EndsAfterPass(src: string, i: nat, env: Env, s: string, j: nat, end: Progress)
    requires Pass(src, i, env) == Running(s, j) && Ends(s, j, env, end)
    ensures Ends(src, i, env, end)
  {
    var n: nat :| After(n, s, j, env) == end;
    assert After(n + 1, src, i, env) == end;
  }

  lemma EndsNow(src: string, i: nat, env: Env)
    requires !Pass(src, i, env).Running?
    ensures Ends(src, i, env, Pass(src, i, env))
  {
    assert After(1, src, i, env) == Pass(src, i, env);
  }

  /** The loop is deterministic: it has at most one end. */
  lemma {:induction false} EndsOnce(n: nat, m: nat, src: string, i: nat, env: Env)
    requires !After(n, src, i, env).Running? && !After(m, src, i, env).Running?
    ensures After(n, src, i, env) == After(m, src, i, env)
  {
    hide Pass;
    match Pass(src, i, env)
    case Running(s, j) => EndsOnce(n - 1, m - 1, s, j, env);
    case _ =>
  }

  lemma OneEnd(src: string, i: nat, env: Env, e1: Progress, e2: Progress)
    requires Ends(src, i, env, e1) && Ends(src, i, env, e2)
    ensures e1 == e2
  {
    var n: nat :| After(n, src, i, env) == e1;
    var m: nat :| After(m, src, i, env) == e2;
    EndsOnce(n, m, src, i, env);
  }

  /** Text without `$` is stepped over. */
  lemma {:induction false} EndsSkip(src: string, i: nat, j: nat, env: Env, end: Progress)
    requires i <= j <= |src| && (forall k :: i <= k < j ==> src[k] != '$')
    requires Ends(src, j, env, end)
    ensures Ends(src, i, env, end)
    decreases j - i
  {
    if i < j {
      EndsSkip(src, i + 1, j, env, end);
      EndsAfterPass(src, i, env, src, i + 1, end);
    }
  }

  /** The nested loops of parseVariablesFrom. The source demands nothing; only runs that end can be stated. */
  method ParseVariablesFrom(source: string, env: Env) returns (result: Progress)
    requires exists end :: Ends(source, 0, env, end)
    ensures Ends(source, 0, env, result)
  {
    if source == "" {
      EndsNow(source, 0, env);
      return Finished(source);
    }
    ghost var end :| Ends(source, 0, env, end);
    ghost var n: nat :| After(n, source, 0, env) == end;
    var src, i := source, 0;
    while i < |src|
      invariant After(n, src, i, env) == end
      decreases n
    {
      ghost var src0, i0 := src, i;
      if src[i] == '$' {
        var lIndex := i + 1;
        if lIndex == |src| {
          assert Pass(src0, i0, env) == Panicked;
          return Panicked;
        }
        if src[lIndex] == '{' {
          var rIndex := lIndex + 1;
          while rIndex < |src|
            invariant lIndex + 1 <= rIndex <= |src| && src == src0 && i == i0
            invariant Close(src0, i0 + 2) == Close(src0, rIndex)
          {
            if src[rIndex] != '}' {
              rIndex := rIndex + 1;
              continue;
            }
            var name := src[lIndex + 1..rIndex];
            var val := Lookup(env, name);
            if val == "" {
              break;
            }
            src := ReplaceAll(src, Token(name), val);
            i := rIndex;
            break;
          }
        }
      }
      i := i + 1;
      assert Pass(src0, i0, env) == Running(src, i);
      n := n - 1;
    }
    assert Pass(src, i, env) == Finished(src);
    return Finished(src);
  }

  // ---------------------------------------------------------------- what it should mean

  /** Token-by-token substitution; a name without value keeps its token. */
  function Subst(s: string, env: Env): string {
    if s == "" then ""
    else if Opens(s, 0) && Defined(env, NameAt(s, 0)) then
      Lookup(env, NameAt(s, 0)) + Subst(s[Close(s, 2) + 1..], env)
    else [s[0]] + Subst(s[1..], env)
  }

  /** The names a source mentions. */
  function Names(s: string): set<string> {
    if s == "" then {}
    else (if Opens(s, 0) then {NameAt(s, 0)} else {}) + Names(s[1..])
  }

  /** No `$` directly before a `$`, and no `$` inside a `${...}`. */
  predicate Flat(s: string) {
    if s == "" then true
    else
      && Flat(s[1..])
      && (s[0] == '$' && |s| > 1 ==> s[1] != '$')
      && (Opens(s, 0) ==> forall k :: 1 <= k < Close(s, 2) ==> s[k] != '$')
  }

  predicate EndsInDollar(s: string) {
    s != "" && s[|s| - 1] == '$'
  }

  /** A value whose `$` signs, if any, cannot start a token. */
  predicate Inert(v: string) {
    forall k :: 0 <= k < |v| && v[k] == '$' ==> k + 1 < |v| && v[k + 1] != '{' && v[k + 1] != '$'
  }

  /** Text the loop is done with: every `${` in it is closed in it and names nothing defined. */
  predicate Settled(d: string, env: Env) {
    forall p :: 0 <= p < |d| && d[p] == '$' ==>
      && p + 1 < |d|
      && (d[p + 1] == '{' ==> Close(d, p + 2) < |d| && !Defined(env, d[p + 2..Close(d, p + 2)]))
  }

  /** A value in which every `${` is closed, and which does not end in `$`. */
  predicate Closed(v: string) {
    forall p :: 0 <= p < |v| && v[p] == '$' ==> p + 1 < |v| && (v[p + 1] == '{' ==> Opens(v, p))
  }

  /** A value in which the loop finds nothing to do. */
  predicate Quiet(v: string, env: Env) {
    Flat(v) && Settled(v, env)
  }

  predicate PlainName(n: string) {
    '$' !in n && '}' !in n
  }

  // ---------------------------------------------------------------- moving along a string

  lemma CloseIs(s: string, from: nat, c: nat)
    requires from <= c <= |s| && (forall k :: from <= k < c ==> s[k] != '}')
    requires c < |s| ==> s[c] == '}'
    ensures Close(s, from) == c
  {
  }

  lemma OpensShift(d: string, r: string, p: nat)
    requires p <= |r|
    ensures Opens(d + r, |d| + p) <==> Opens(r, p)
    ensures Opens(r, p) ==> NameAt(d + r, |d| + p) == NameAt(r, p) && Close(d + r, |d| + p + 2) == |d| + Close(r, p + 2)
  {
    if p + 2 <= |r| {
      var c := Close(r, p + 2);
      CloseIs(d + r, |d| + p + 2, |d| + c);
      assert (d + r)[|d|..] == r;
      assert (d + r)[|d| + p + 2..|d| + c] == (d + r)[|d|..][p + 2..c];
    }
  }

  lemma SettledConcat(d: string, w: string, env: Env)
    requires Settled(d, env) && Settled(w, env)
    ensures Settled(d + w, env)
  {
    forall p | 0 <= p < |d + w| && (d + w)[p] == '$'
      ensures p + 1 < |d + w|
      ensures (d + w)[p + 1] == '{' ==>
        Close(d + w, p + 2) < |d + w| && !Defined(env, (d + w)[p + 2..Close(d + w, p + 2)])
    {
      if p >= |d| {
        OpensShift(d, w, p - |d|);
      } else if d[p + 1] == '{' {
        var c := Close(d, p + 2);
        CloseIs(d + w, p + 2, c);
        assert (d + w)[p + 2..c] == d[p + 2..c];
      }
    }
  }

  lemma SettledName(d: string, x: string, p: nat, env: Env)
    requires Settled(d, env) && p < |d| && Opens(d + x, p)
    ensures Opens(d, p) && !Defined(env, NameAt(d + x, p))
  {
    var c := Close(d, p + 2);
    CloseIs(d + x, p + 2, c);
    assert (d + x)[p + 2..c] == d[p + 2..c];
  }

  lemma SettledIsClosed(d: string, env: Env)
    requires Settled(d, env)
    ensures Closed(d)
  {
  }

  lemma InertIsQuiet(v: string, env: Env)
    requires Inert(v)
    ensures Quiet(v, env) && Names(v) == {}
  {
    InertFront(v, "", env);
    assert v + "" == v;
  }

  lemma ClosedSuffix(v: string, k: nat)
    requires Closed(v) && k <= |v|
    ensures Closed(v[k..])
  {
    var d, r := v[..k], v[k..];
    assert v == d + r;
    forall p | 0 <= p < |r| && r[p] == '$'
      ensures p + 1 < |r| && (r[p + 1] == '{' ==> Opens(r, p))
    {
      assert v[k + p] == '$';
      OpensShift(d, r, p);
    }
  }

  lemma {:induction false} FlatSuffix(s: string, k: nat)
    requires Flat(s) && k <= |s|
    ensures Flat(s[k..])
    decreases k
  {
    if k > 0 {
      assert s[1..][k - 1..] == s[k..];
      FlatSuffix(s[1..], k - 1);
    }
  }

  lemma {:induction false} NameOf(s: string, p: nat)
    requires Opens(s, p)
    ensures NameAt(s, p) in Names(s)
    decreases p
  {
    if p > 0 {
      assert [s[0]] + s[1..] == s;
      OpensShift([s[0]], s[1..], p - 1);
      NameOf(s[1..], p - 1);
    }
  }

  lemma {:induction false} NamePlace(s: string, n: string) returns (p: nat)
    requires n in Names(s)
    ensures Opens(s, p) && NameAt(s, p) == n
  {
    if Opens(s, 0) && NameAt(s, 0) == n {
      p := 0;
    } else {
      var q := NamePlace(s[1..], n);
      assert [s[0]] + s[1..] == s;
      OpensShift([s[0]], s[1..], q);
      p := q + 1;
    }
  }

  lemma {:induction false} NamesOfSuffix(s: string, k: nat)
    requires k <= |s|
    ensures Names(s[k..]) <= Names(s)
    decreases k
  {
    if k > 0 {
      assert s[1..][k - 1..] == s[k..];
      NamesOfSuffix(s[1..], k - 1);
    }
  }

  lemma SettledNames(d: string, env: Env)
    requires Settled(d, env)
    ensures forall n :: n in Names(d) ==> !Defined(env, n)
  {
    forall n | n in Names(d)
      ensures !Defined(env, n)
    {
      var p := NamePlace(d, n);
      assert d + "" == d;
      SettledName(d, "", p, env);
    }
  }

  lemma {:induction false} NamesArePlain(s: string, n: string)
    requires Flat(s) && n in Names(s)
    ensures PlainName(n)
  {
    if !(Opens(s, 0) && n == NameAt(s, 0)) {
      NamesArePlain(s[1..], n);
    }
  }

  /** A character that starts no token. */
  lemma CharFront(c: char, x: string, env: Env)
    requires c == '$' && x != "" ==> x[0] != '{' && x[0] != '$'
    ensures Names([c] + x) == Names(x) && Subst([c] + x, env) == [c] + Subst(x, env)
    ensures Flat([c] + x) <==> Flat(x)
    ensures EndsInDollar([c] + x) <==> if x == "" then c == '$' else EndsInDollar(x)
  {
    var s := [c] + x;
    assert s[1..] == x && s[0] == c && (x != "" ==> s[1] == x[0] && s[|s| - 1] == x[|x| - 1]);
    CharOpensNot(s);
    hide Opens;
    assert Flat(s) <==> Flat(x);
  }

  lemma CharOpensNot(s: string)
    requires s != "" && (s[0] == '$' && |s| > 1 ==> s[1] != '{')
    ensures !Opens(s, 0)
  {
  }

  /** Inert text in front of a source changes nothing but the text itself. */
  lemma {:induction false} InertFront(v: string, x: string, env: Env)
    requires Inert(v)
    ensures Subst(v + x, env) == v + Subst(x, env)
    ensures Names(v + x) == Names(x)
    ensures Flat(x) ==> Flat(v + x)
  {
    if v == "" {
      assert v + x == x;
    } else {
      hide Subst, Names, Flat, EndsInDollar;
      InertFront(v[1..], x, env);
      CharFront(v[0], v[1..] + x, env);
      assert v + x == [v[0]] + (v[1..] + x) && [v[0]] + (v[1..] + Subst(x, env)) == v + Subst(x, env);
    }
  }

  lemma TokenOpens(n: string, x: string)
    requires PlainName(n)
    ensures var s := Token(n) + x;
      Opens(s, 0) && NameAt(s, 0) == n && Close(s, 2) == |n| + 2 && s[|n| + 3..] == x && s[1..] == "{" + n + "}" + x
  {
    var s := Token(n) + x;
    CloseIs(s, 2, |n| + 2);
    assert s[2..|n| + 2] == n;
  }

  lemma TokenFront(n: string, x: string, env: Env)
    requires PlainName(n)
    ensures Opens(Token(n) + x, 0) && NameAt(Token(n) + x, 0) == n && Close(Token(n) + x, 2) == |n| + 2
    ensures Subst(Token(n) + x, env) == (if Defined(env, n) then Lookup(env, n) else Token(n)) + Subst(x, env)
    ensures Names(Token(n) + x) == {n} + Names(x)
    ensures Flat(x) ==> Flat(Token(n) + x)
  {
    var body := "{" + n + "}";
    TokenOpens(n, x);
    assert Inert(body) && ['$'] + body == Token(n);
    TokenUnfolds(n, x, env);
    hide *;
    BodyFront(n, body, x, env);
  }

  lemma BodyFront(n: string, body: string, x: string, env: Env)
    requires Inert(body) && ['$'] + body == Token(n)
    requires var s, t := Token(n) + x, body + x;
      && Subst(s, env) == (if Defined(env, n) then Lookup(env, n) + Subst(x, env) else ['$'] + Subst(t, env))
      && Names(s) == {n} + Names(t) && (Flat(t) ==> Flat(s))
    ensures Subst(Token(n) + x, env) == (if Defined(env, n) then Lookup(env, n) else Token(n)) + Subst(x, env)
    ensures Names(Token(n) + x) == {n} + Names(x)
    ensures Flat(x) ==> Flat(Token(n) + x)
  {
    hide *;
    InertFront(body, x, env);
    assert ['$'] + (body + Subst(x, env)) == ['$'] + body + Subst(x, env);
  }

  lemma TokenUnfolds(n: string, x: string, env: Env)
    requires PlainName(n)
    ensures var s, t := Token(n) + x, "{" + n + "}" + x;
      && Subst(s, env) == (if Defined(env, n) then Lookup(env, n) + Subst(x, env) else ['$'] + Subst(t, env))
      && Names(s) == {n} + Names(t)
      && (Flat(t) ==> Flat(s))
  {
    TokenOpens(n, x);
    var s := Token(n) + x;
    assert s[0] == '$' && s[1] == '{' && forall k :: 1 <= k < |n| + 2 ==> s[k] != '$';
    hide Opens, Close, Defined;
  }

  /** A source that opens with `${` and closes it is a token followed by the rest. */
  lemma SplitToken(r: string)
    requires Flat(r) && Opens(r, 0)
    ensures PlainName(NameAt(r, 0)) && Close(r, 2) == |NameAt(r, 0)| + 2
    ensures r == Token(NameAt(r, 0)) + r[Close(r, 2) + 1..]
    ensures Flat(r[Close(r, 2) + 1..])
  {
    FlatSuffix(r, Close(r, 2) + 1);
  }

  /** `v` and `x` do not combine when they meet. */
  ghost predicate Apart(v: string, x: string, env: Env) {
    && Subst(v + x, env) == Subst(v, env) + Subst(x, env)
    && Names(v + x) == Names(v) + Names(x)
    && (Flat(x) ==> Flat(v + x))
  }

  lemma ApartAfterToken(n: string, v: string, x: string, env: Env)
    requires PlainName(n) && Apart(v, x, env)
    ensures Apart(Token(n) + v, x, env)
  {
    hide Subst, Names, Flat, Opens, Token, NameAt, Close;
    TokenFront(n, v, env);
    TokenFront(n, v + x, env);
    var t := if Defined(env, n) then Lookup(env, n) else Token(n);
    assert Token(n) + v + x == Token(n) + (v + x);
    assert t + Subst(v, env) + Subst(x, env) == t + (Subst(v, env) + Subst(x, env));
  }

  lemma ApartAfterChar(c: char, v: string, x: string, env: Env)
    requires Apart(v, x, env) && (c == '$' ==> v != "" && v[0] != '{' && v[0] != '$')
    ensures Apart([c] + v, x, env)
  {
    hide Subst, Names, Flat, EndsInDollar;
    CharFront(c, v, env);
    CharFront(c, v + x, env);
    assert [c] + v + x == [c] + (v + x);
    assert [c] + Subst(v, env) + Subst(x, env) == [c] + (Subst(v, env) + Subst(x, env));
  }

  /** A closed value in front of a source does not combine with it. */
  lemma {:induction false} ClosedFront(v: string, x: string, env: Env)
    requires Flat(v) && Closed(v)
    ensures Apart(v, x, env)
    decreases |v|
  {
    if v == "" {
      assert v + x == x && "" + Subst(x, env) == Subst(x, env);
    } else if Opens(v, 0) {
      var n, v2 := NameAt(v, 0), v[Close(v, 2) + 1..];
      SplitToken(v);
      ClosedSuffix(v, Close(v, 2) + 1);
      ClosedFront(v2, x, env);
      ApartAfterToken(n, v2, x, env);
    } else {
      assert v == [v[0]] + v[1..];
      ClosedSuffix(v, 1);
      ClosedFront(v[1..], x, env);
      ApartAfterChar(v[0], v[1..], x, env);
    }
  }

  /** Substitution passes settled text by. */
  lemma {:induction false} SettledFrontAt(d: string, x: string, k: nat, env: Env)
    requires Settled(d, env) && k <= |d|
    ensures Subst((d + x)[k..], env) == d[k..] + Subst(x, env)
    decreases |d| - k
  {
    var s := d + x;
    if k == |d| {
      assert s[k..] == x;
    } else {
      SettledFrontAt(d, x, k + 1, env);
      assert s[k..][1..] == s[k + 1..];
      NothingOpens(d, x, k, env);
      hide Opens, Settled, Defined;
      assert Subst(s[k..], env) == [s[k]] + Subst(s[k + 1..], env);
    }
  }

  lemma NothingOpens(d: string, x: string, k: nat, env: Env)
    requires Settled(d, env) && k < |d|
    ensures var s := (d + x)[k..]; Opens(s, 0) ==> !Defined(env, NameAt(s, 0))
  {
    var s := d + x;
    assert s[..k] + s[k..] == s;
    OpensShift(s[..k], s[k..], 0);
    if Opens(s[k..], 0) {
      SettledName(d, x, k, env);
    }
  }

  lemma SettledFront(d: string, x: string, env: Env)
    requires Settled(d, env)
    ensures Subst(d + x, env) == d + Subst(x, env)
    ensures Subst(d, env) == d
  {
    SettledFrontAt(d, x, 0, env);
    SettledFrontAt(d, "", 0, env);
    assert (d + x)[0..] == d + x && d[0..] == d && (d + "")[0..] == d;
  }

  // ---------------------------------------------------------------- the global replace

  lemma ReplaceAtFront(tok: string, r: string, val: string)
    requires tok != ""
    ensures ReplaceAll(tok + r, tok, val) == val + ReplaceAll(r, tok, val)
  {
    assert (tok + r)[|tok|..] == r;
  }

  lemma {:induction false} ReplaceNothing(s: string, tok: string, val: string)
    requires tok != "" && (forall p :: 0 <= p < |s| ==> !(tok <= s[p..]))
    ensures ReplaceAll(s, tok, val) == s
  {
    if s != "" {
      assert s[0..] == s;
      assert forall p :: 0 <= p < |s[1..]| ==> s[1..][p..] == s[p + 1..];
      ReplaceNothing(s[1..], tok, val);
    }
  }

  lemma {:induction false} ReplaceBehind(w: string, x: string, tok: string, val: string)
    requires tok != "" && tok[0] == '$' && '$' !in w
    ensures ReplaceAll(w + x, tok, val) == w + ReplaceAll(x, tok, val)
  {
    if w == "" {
      assert w + x == x;
    } else {
      ReplaceBehind(w[1..], x, tok, val);
      assert (w + x)[1..] == w[1..] + x && (w + x)[0] == w[0] && !(tok <= w + x);
      assert [w[0]] + (w[1..] + ReplaceAll(x, tok, val)) == w + ReplaceAll(x, tok, val);
    }
  }

  lemma FirstClose(d: string, r: string, k: nat, n: string)
    requires k + 2 <= |d| && Close(d, k + 2) < |d| && '}' !in n && Token(n) <= (d + r)[k..]
    ensures d[k + 2..Close(d, k + 2)] == n
  {
    var s := (d + r)[k..];
    var c := Close(d, k + 2);
    TokenAt(s, n);
    assert forall q :: 0 <= q < |d| - k ==> s[q] == d[k + q];
    var q := if c > k + 2 + |n| then k + 2 + |n| else c;
    assert s[q - k] == d[q] == '}';
    assert d[k + 2..c] == s[2..c - k];
  }

  lemma TokenAt(s: string, n: string)
    requires Token(n) <= s
    ensures |n| + 2 < |s| && s[2..|n| + 2] == n && s[|n| + 2] == '}'
    ensures forall q :: 2 <= q < |n| + 2 ==> s[q] == n[q - 2]
  {
    var t := Token(n);
    assert t[2..|n| + 2] == n && t[|n| + 2] == '}';
    assert forall q :: 0 <= q < |t| ==> s[q] == t[q];
    assert s[2..|n| + 2] == t[2..|n| + 2];
    assert forall q :: 2 <= q < |n| + 2 ==> s[q] == s[2..|n| + 2][q - 2];
  }

  /** No defined token starts in settled text, whatever follows it. */
  lemma NoTokenInSettled(d: string, r: string, k: nat, n: string, env: Env)
    requires k < |d| && Settled(d, env) && PlainName(n) && Defined(env, n)
    ensures !(Token(n) <= (d + r)[k..])
  {
    var s := (d + r)[k..];
    if Token(n) <= s {
      assert s[0] == Token(n)[0] && s[1] == Token(n)[1];
      FirstClose(d, r, k, n);
    }
  }

  /** Replacing a defined token leaves settled text alone. */
  lemma {:induction false} ReplaceAfterSettled(d: string, r: string, k: nat, n: string, env: Env)
    requires k <= |d| && Settled(d, env) && PlainName(n) && Defined(env, n)
    ensures ReplaceAll((d + r)[k..], Token(n), Lookup(env, n)) == d[k..] + ReplaceAll(r, Token(n), Lookup(env, n))
    decreases |d| - k
  {
    if k == |d| {
      assert (d + r)[k..] == r;
    } else {
      NoTokenInSettled(d, r, k, n, env);
      assert (d + r)[k..][1..] == (d + r)[k + 1..];
      ReplaceAfterSettled(d, r, k + 1, n, env);
    }
  }

  /** The value inserted for `n` stands for what `env` says `n` means. */
  predicate Stands(n: string, v: string, env: Env) {
    PlainName(n) && v != "" && Flat(v) && Closed(v) && Defined(env, n) && Lookup(env, n) == Subst(v, env)
  }

  /** What the global replace of one token by `v`, r' for r, must keep. */
  ghost predicate Partial(r: string, r': string, n: string, v: string, env: Env) {
    && Flat(r') && Subst(r', env) == Subst(r, env)
    && Names(r') <= (Names(r) - {n}) + Names(v)
    && EndsInDollar(r') == EndsInDollar(r)
    && (r' == "" <==> r == "") && (r != "" && r[0] != '$' ==> r'[0] == r[0])
  }

  lemma LastOf(v: string, x: string)
    ensures EndsInDollar(v + x) <==> if x == "" then EndsInDollar(v) else EndsInDollar(x)
  {
    if x == "" {
      assert v + x == v;
    }
  }

  lemma PartialAtToken(r2: string, x: string, n: string, v: string, env: Env)
    requires Flat(r2) && Stands(n, v, env) && Partial(r2, x, n, v, env)
    ensures Partial(Token(n) + r2, v + x, n, v, env)
  {
    assert !EndsInDollar(v) && !EndsInDollar(Token(n)) && Token(n)[0] == '$';
    hide Subst, Names, Flat, Opens, Closed, EndsInDollar, Token;
    LastOf(Token(n), r2);
    LastOf(v, x);
    TokenFront(n, r2, env);
    ClosedFront(v, x, env);
    assert Lookup(env, n) == Subst(v, env);
  }

  lemma PartialAtOther(m: string, r2: string, x: string, n: string, v: string, env: Env)
    requires Flat(r2) && PlainName(m) && m != n && Partial(r2, x, n, v, env)
    ensures Partial(Token(m) + r2, Token(m) + x, n, v, env)
  {
    hide Subst, Names, Flat, Opens;
    TokenFront(m, r2, env);
    TokenFront(m, x, env);
  }

  lemma PartialAtChar(c: char, r2: string, x: string, n: string, v: string, env: Env)
    requires Flat([c] + r2) && Partial(r2, x, n, v, env)
    requires c == '$' && r2 != "" ==> r2[0] != '{'
    ensures Partial([c] + r2, [c] + x, n, v, env)
  {
    if r2 != "" {
      assert ([c] + r2)[1] == r2[0];
    }
    hide Subst, Names, Flat, Opens, EndsInDollar;
    CharFront(c, r2, env);
    CharFront(c, x, env);
  }

  lemma OtherToken(r: string, n: string)
    requires Flat(r) && Opens(r, 0) && PlainName(n) && !(Token(n) <= r)
    ensures NameAt(r, 0) != n
  {
    SplitToken(r);
  }

  lemma {:induction false} ReplaceIsPartial(r: string, n: string, v: string, env: Env)
    requires Flat(r) && Stands(n, v, env)
    ensures Partial(r, ReplaceAll(r, Token(n), v), n, v, env)
    decreases |r|
  {
    hide Stands;
    var tok := Token(n);
    if r == "" {
    } else if tok <= r {
      var r2 := r[|tok|..];
      assert r == tok + r2;
      FlatSuffix(r, |tok|);
      ReplaceIsPartial(r2, n, v, env);
      PartialAtToken(r2, ReplaceAll(r2, tok, v), n, v, env);
    } else if Opens(r, 0) {
      var m, r2 := NameAt(r, 0), r[Close(r, 2) + 1..];
      SplitToken(r);
      StandsPlain(n, v, env);
      OtherToken(r, n);
      ReplaceIsPartial(r2, n, v, env);
      ReplaceKeepsToken(m, r2, n, v);
      PartialAtOther(m, r2, ReplaceAll(r2, tok, v), n, v, env);
    } else if r[0] == '$' && |r| > 1 && r[1] == '{' {
      NoBraceNoTokens(r, n, v);
    } else {
      assert r == [r[0]] + r[1..];
      ReplaceIsPartial(r[1..], n, v, env);
      PartialAtChar(r[0], r[1..], ReplaceAll(r[1..], tok, v), n, v, env);
    }
  }

  lemma StandsPlain(n: string, v: string, env: Env)
    requires Stands(n, v, env)
    ensures PlainName(n)
  {
  }

  lemma ReplaceKeepsToken(m: string, r2: string, n: string, v: string)
    requires PlainName(m) && PlainName(n) && !(Token(n) <= Token(m) + r2)
    ensures ReplaceAll(Token(m) + r2, Token(n), v) == Token(m) + ReplaceAll(r2, Token(n), v)
  {
    var body := "{" + m + "}";
    var r := Token(m) + r2;
    assert r[1..] == body + r2 && r[0] == '$';
    ReplaceBehind(body, r2, Token(n), v);
    assert ['$'] + (body + ReplaceAll(r2, Token(n), v)) == Token(m) + ReplaceAll(r2, Token(n), v);
  }

  lemma NoBraceNoTokens(r: string, n: string, v: string)
    requires |r| > 1 && r[0] == '$' && r[1] == '{' && !Opens(r, 0)
    ensures ReplaceAll(r, Token(n), v) == r && Names(r) == {}
  {
    forall p | 0 <= p < |r|
      ensures !(Token(n) <= r[p..])
    {
      if p + |n| + 2 < |r| {
        assert r[p..][|n| + 2] == r[p + |n| + 2] != Token(n)[|n| + 2];
      }
    }
    ReplaceNothing(r, Token(n), v);
    NoBraceNoNames(r);
  }

  lemma {:induction false} NoBraceNoNames(s: string)
    requires forall k :: 2 <= k < |s| ==> s[k] != '}'
    ensures Names(s) == {}
  {
    if s != "" {
      NoBraceNoNames(s[1..]);
    }
  }
}
