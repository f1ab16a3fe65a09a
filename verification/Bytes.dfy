/** The byte and string trimming helpers of util/common.go. */
module Bytes {
  type byte = x: int | 0 <= x < 256

  method IsByteStartWith(src: seq<byte>, start: seq<byte>) returns (r: bool)
    ensures r <==> start <= src
  {
    if |src| < |start| {
      return false;
    }
    for i := 0 to |start|
      invariant start[..i] == src[..i]
    {
      if src[i] != start[i] {
        return false;
      }
    }
    return true;
  }

  /** One copy of `trim` taken off the end, if it is there. */
  function TrimmedRight(src: seq<byte>, trim: seq<byte>): seq<byte> {
    if |trim| <= |src| && src[|src| - |trim|..] == trim then src[..|src| - |trim|] else src
  }

  /** A suffix added is the suffix taken off again; what does not end in it stays. */
  lemma TrimmedRightExactly(src: seq<byte>, trim: seq<byte>)
    ensures TrimmedRight(src + trim, trim) == src
    ensures (forall front :: src != front + trim) ==> TrimmedRight(src, trim) == src
  {
    var s := src + trim;
    assert s[|s| - |trim|..] == trim && s[..|s| - |trim|] == src;
    if |trim| <= |src| && src[|src| - |trim|..] == trim {
      assert src == src[..|src| - |trim|] + trim;
    }
  }

  method BytesTrimRight(src: seq<byte>, trim: seq<byte>) returns (r: seq<byte>)
    ensures r == TrimmedRight(src, trim)
  {
    if |src| < |trim| {
      return src;
    }
    var canTrim := true;
    ghost var off := |src| - |trim|;
    var j := |trim| - 1;
    var i := |src| - 1;
    while i >= |src| - |trim|
      invariant i - j == off && -1 <= j < |trim|
      invariant forall k :: j < k < |trim| ==> src[off..][k] == trim[k]
      decreases i
    {
      if src[i] != trim[j] {
        canTrim := false;
        assert src[off..][j] != trim[j];
        break;
      }
      j := j - 1;
      i := i - 1;
    }
    if canTrim {
      assert src[off..] == trim;
      return src[0..|src| - |trim|];
    }
    return src;
  }

  /** The last index below `n` at which the two strings agree; -1 when they agree nowhere. */
  function LastMatch<T(==)>(src: seq<T>, trim: seq<T>, n: nat): (index: int)
    requires n <= |src| && n <= |trim|
    ensures -1 <= index < n && (index >= 0 ==> src[index] == trim[index])
    ensures forall i :: index < i < n ==> src[i] != trim[i]
  {
    if n == 0 then -1
    else if src[n - 1] == trim[n - 1] then n - 1
    else LastMatch(src, trim, n - 1)
  }

  /** What TrimLeftString keeps: the text after the last agreeing index, not after a common prefix. */
  function TrimmedLeft<T(==)>(src: seq<T>, trim: seq<T>): seq<T> {
    if |src| < |trim| then src
    else
      var index := LastMatch(src, trim, |trim|);
      if index == -1 then [] else src[index + 1..]
  }

  method TrimLeftString(src: string, trim: string) returns (r: string)
    ensures r == TrimmedLeft(src, trim)
  {
    if |src| < |trim| {
      return src;
    }
    var index := -1;
    for i := 0 to |trim|
      invariant index == LastMatch(src, trim, i)
    {
      if src[i] == trim[i] {
        index := i;
        continue;
      }
    }
    if index == -1 {
      return "";
    }
    return src[index + 1..];
  }

  /**
   Exactly when the first |trim| elements go, whether or not they equal `trim`: only the last
   of them is ever compared decisively. (An empty `trim` takes everything.)
   */
  lemma {:induction false} TrimLeftExact<T>(src: seq<T>, trim: seq<T>)
    requires |src| >= |trim|
    ensures TrimmedLeft(src, trim) == src[|trim|..] <==>
      || (trim != [] && src[|trim| - 1] == trim[|trim| - 1])
      || (|src| == |trim| && forall i :: 0 <= i < |trim| ==> src[i] != trim[i])
  {
    NoMatch(src, trim, |trim|);
  }

  lemma {:induction false} NoMatch<T>(src: seq<T>, trim: seq<T>, n: nat)
    requires n <= |src| && n <= |trim|
    ensures LastMatch(src, trim, n) == -1 <==> forall i :: 0 <= i < n ==> src[i] != trim[i]
  {
    if n > 0 {
      NoMatch(src, trim, n - 1);
    }
  }
}
