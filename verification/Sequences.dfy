/** Looking for an element in a sequence, and cutting a sequence at one. */
module Sequences {
  /** Index of the first `x`; |s| when there is none. */
  function IndexOf<T(==)>(s: seq<T>, x: T): (n: nat)
    ensures n <= |s| && x !in s[..n] && (n < |s| ==> s[n] == x)
  {
    if s == [] || s[0] == x then 0 else 1 + IndexOf(s[1..], x)
  }

  lemma {:induction false} IndexOfFirst<T>(a: seq<T>, x: T, b: seq<T>)
    requires x !in a
    ensures IndexOf(a + [x] + b, x) == |a|
  {
    if a == [] {
      assert a + [x] + b == [x] + b;
    } else {
      assert (a + [x] + b)[1..] == a[1..] + [x] + b;
      IndexOfFirst(a[1..], x, b);
    }
  }

  lemma {:induction false} IndexOfAtMost<T>(s: seq<T>, x: T, i: nat)
    requires i < |s| && s[i] == x
    ensures IndexOf(s, x) <= i
  {
    if s[0] != x {
      IndexOfAtMost(s[1..], x, i - 1);
    }
  }

  /** strings.Split for a separator of one element: always at least one piece. */
  function Split<T(==)>(s: seq<T>, sep: T): (pieces: seq<seq<T>>)
    ensures |pieces| >= 1
  {
    if s == [] then [[]]
    else
      var rest := Split(s[1..], sep);
      if s[0] == sep then [[]] + rest else [[s[0]] + rest[0]] + rest[1..]
  }

  lemma {:induction false} SplitConcat<T>(a: seq<T>, sep: T, b: seq<T>)
    ensures Split(a + [sep] + b, sep) == Split(a, sep) + Split(b, sep)
  {
    if a == [] {
      assert a + [sep] + b == [sep] + b;
    } else {
      assert (a + [sep] + b)[1..] == a[1..] + [sep] + b;
      SplitConcat(a[1..], sep, b);
    }
  }

  lemma {:induction false} SplitWhole<T>(a: seq<T>, sep: T)
    requires sep !in a
    ensures Split(a, sep) == [a]
  {
    if a != [] {
      SplitWhole(a[1..], sep);
      assert a == [a[0]] + a[1..];
    }
  }

  /** Pieces are free of the separator, and of any element the whole is free of. */
  lemma {:induction false} PiecesAreFree<T>(s: seq<T>, sep: T, x: T, i: nat)
    requires i < |Split(s, sep)| && (x == sep || x !in s)
    ensures x !in Split(s, sep)[i]
  {
    if s != [] {
      if s[0] == sep {
        if i > 0 { PiecesAreFree(s[1..], sep, x, i - 1); }
      } else {
        PiecesAreFree(s[1..], sep, x, i);
      }
    }
  }
}
