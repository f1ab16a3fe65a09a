/**
 How the in-place loop of util/common.go behaves on every source whatsoever, when no value
 contains `$`: it stops, it stays within bounds but for a last `$`, and its output is bounded.
 */
module SubstitutionLimits {
  import opened Substitution
  import opened SubstitutionTheorems

  function Dollars(s: string): nat {
    if s == "" then 0 else (if s[0] == '$' then 1 else 0) + Dollars(s[1..])
  }

  lemma {:induction false} DollarsConcat(a: string, b: string)
    ensures Dollars(a + b) == Dollars(a) + Dollars(b)
  {
    if a == "" {
      assert a + b == b;
    } else {
      DollarsConcat(a[1..], b);
      assert (a + b)[1..] == a[1..] + b;
    }
  }

  lemma {:induction false} NoDollars(a: string)
    requires '$' !in a
    ensures Dollars(a) == 0
  {
    if a != "" {
      NoDollars(a[1..]);
    }
  }

  /** Each replaced occurrence uses up one `$` and adds at most `max` characters. */
  ghost predicate Bounds(s: string, r: string, tok: string, v: string, max: nat) {
    && Dollars(r) <= Dollars(s)
    && |r| + Dollars(r) * max <= |s| + Dollars(s) * max
    && (|v| >= |tok| ==> |r| >= |s|)
    && EndsInDollar(r) == EndsInDollar(s) && (s != "" ==> r != "")
  }

  lemma BoundsAtToken(s: string, r: string, tok: string, v: string, max: nat)
    requires Bounds(s, r, tok, v, max) && '$' !in v && v != "" && |v| <= max
    requires tok != "" && tok[0] == '$' && !EndsInDollar(tok)
    ensures Bounds(tok + s, v + r, tok, v, max)
  {
    DollarsConcat(tok, s);
    NoDollars(v);
    DollarsConcat(v, r);
    Growth(Dollars(tok), Dollars(s), max);
    if s != "" {
      assert (tok + s)[|tok + s| - 1] == s[|s| - 1] && (v + r)[|v + r| - 1] == r[|r| - 1];
    } else {
      assert tok + s == tok;
    }
  }

  lemma BoundsAtChar(c: char, s: string, r: string, tok: string, v: string, max: nat)
    requires Bounds(s, r, tok, v, max)
    ensures Bounds([c] + s, [c] + r, tok, v, max)
  {
    DollarsConcat([c], s);
    DollarsConcat([c], r);
    Growth(Dollars([c]), Dollars(s), max);
    Growth(Dollars([c]), Dollars(r), max);
  }

  lemma {:induction false} ReplaceBounds(s: string, n: string, v: string, max: nat)
    requires '$' !in v && v != "" && |v| <= max
    ensures Bounds(s, ReplaceAll(s, Token(n), v), Token(n), v, max)
    decreases |s|
  {
    var tok := Token(n);
    if s == "" {
    } else if tok <= s {
      ReplaceBounds(s[|tok|..], n, v, max);
      BoundsAtToken(s[|tok|..], ReplaceAll(s[|tok|..], tok, v), tok, v, max);
      assert s == tok + s[|tok|..];
    } else {
      ReplaceBounds(s[1..], n, v, max);
      BoundsAtChar(s[0], s[1..], ReplaceAll(s[1..], tok, v), tok, v, max);
      assert s == [s[0]] + s[1..];
    }
  }

  lemma Growth(a: nat, b: nat, max: nat)
    ensures (a + b) * max == a * max + b * max && (a >= 1 ==> a * max >= max)
  {
    if a >= 1 {
      assert (a - 1) * max >= 0;
    }
  }

  /** Wherever the token occurs, at least one `$` goes. */
  lemma {:induction false} ReplaceConsumes(s: string, n: string, v: string, p: nat)
    requires '$' !in v && v != "" && p < |s| && Token(n) <= s[p..]
    ensures Dollars(ReplaceAll(s, Token(n), v)) < Dollars(s)
    decreases |s|
  {
    var tok := Token(n);
    if tok <= s {
      var s2 := s[|tok|..];
      assert s == tok + s2;
      DollarsConcat(tok, s2);
      NoDollars(v);
      DollarsConcat(v, ReplaceAll(s2, tok, v));
      ReplaceBounds(s2, n, v, |v|);
    } else {
      assert p != 0 by { assert s[0..] == s; }
      assert s[1..][p - 1..] == s[p..];
      ReplaceConsumes(s[1..], n, v, p - 1);
      assert ReplaceAll(s, tok, v)[1..] == ReplaceAll(s[1..], tok, v);
    }
  }

  /** Every value is free of `$` and at most `max` long. */
  predicate Bounded(env: Env, max: nat) {
    forall n :: n in env ==> '$' !in env[n] && |env[n]| <= max
  }

  ghost predicate Tight(src: string, i: nat, env: Env, max: nat, end: Progress) {
    && Ends(src, i, env, end)
    && (end.Finished? ==> |end.out| <= |src| + Dollars(src) * max)
    && (end.Panicked? ==> EndsInDollar(src))
    && ((forall n :: n in env && env[n] != "" ==> Covers(env, n)) && i < |src| && EndsInDollar(src) ==> end.Panicked?)
  }

  /** By the measure (number of `$`, distance to the end). */
  lemma {:induction false} Stops(src: string, i: nat, env: Env, max: nat) returns (end: Progress)
    requires Bounded(env, max)
    ensures Tight(src, i, env, max, end)
    decreases Dollars(src), |src| - i
  {
    match Pass(src, i, env)
    case Running(s, j) =>
      if s == src && j == i + 1 {
        end := Stops(src, j, env, max);
      } else {
        JumpFacts(src, i, env, max);
        end := Stops(s, j, env, max);
      }
      EndsAfterPass(src, i, env, s, j, end);
    case done =>
      end := done;
      EndsNow(src, i, env);
  }

  lemma JumpFacts(src: string, i: nat, env: Env, max: nat)
    requires Bounded(env, max) && Opens(src, i) && Defined(env, NameAt(src, i))
    ensures var n := NameAt(src, i); var s := ReplaceAll(src, Token(n), env[n]);
      && Dollars(s) < Dollars(src)
      && |s| + Dollars(s) * max <= |src| + Dollars(src) * max
      && EndsInDollar(s) == EndsInDollar(src)
      && (Covers(env, n) && EndsInDollar(src) ==> Close(src, i + 2) + 1 < |s|)
  {
    var n := NameAt(src, i);
    var c := Close(src, i + 2);
    assert src[i..c + 1] == Token(n);
    assert Token(n) <= src[i..];
    ReplaceConsumes(src, n, env[n], i);
    ReplaceBounds(src, n, env[n], max);
  }

  /**
   On every source, with `$`-free values: the loop stops; it can only go out of range when
   the source ends in `$`, and then it does if every value covers its token; the output is
   no longer than the source plus one longest value per `$`.
   */
  lemma AlwaysStops(src: string, env: Env, max: nat)
    requires Bounded(env, max)
    ensures exists end :: Ends(src, 0, env, end)
    ensures forall end :: Ends(src, 0, env, end) && end.Finished? ==> |end.out| <= |src| + Dollars(src) * max
    ensures !EndsInDollar(src) ==> !Ends(src, 0, env, Panicked)
    ensures (forall n :: n in env && env[n] != "" ==> Covers(env, n)) ==>
      (Ends(src, 0, env, Panicked) <==> EndsInDollar(src))
  {
    var end := Stops(src, 0, env, max);
    forall other | Ends(src, 0, env, other)
      ensures other == end
    {
      OneEnd(src, 0, env, end, other);
    }
  }
}
