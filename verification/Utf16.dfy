/** UTF-16 (sections 2.1 and 2.2 of RFC 2781) and util/common.go's UTF16BytesToString. */
module Utf16 {
  import opened Bytes

  type Unit = x: int | 0 <= x < 0x1_0000

  const REPLACEMENT: Unit := 0xFFFD

  function EncodeRune(c: char): seq<Unit> {
    var v := c as int;
    if v < 0x1_0000 then [v]
    else [0xD800 + (v - 0x1_0000) / 0x400, 0xDC00 + (v - 0x1_0000) % 0x400]
  }

  function Encode(s: string): seq<Unit> {
    if s == "" then [] else EncodeRune(s[0]) + Encode(s[1..])
  }

  predicate High(u: Unit) { 0xD800 <= u < 0xDC00 }

  predicate Low(u: Unit) { 0xDC00 <= u < 0xE000 }

  function Pair(high: int, low: int): int {
    0x1_0000 + (high - 0xD800) * 0x400 + (low - 0xDC00)
  }

  /** Go's utf16.Decode: a surrogate without its partner becomes U+FFFD. */
  function Decode(us: seq<Unit>): string {
    if us == [] then ""
    else if High(us[0]) && |us| > 1 && Low(us[1]) then
      [Pair(us[0], us[1]) as char] + Decode(us[2..])
    else if High(us[0]) || Low(us[0]) then [REPLACEMENT as char] + Decode(us[1..])
    else [us[0] as char] + Decode(us[1..])
  }

  function Uint16(a: byte, b: byte, bigEndian: bool): Unit {
    if bigEndian then 256 * a + b else a + 256 * b
  }

  /** The units of a byte string; an odd last byte reads as U+FFFD. */
  function Units(b: seq<byte>, bigEndian: bool): (us: seq<Unit>)
    ensures |us| == (|b| + 1) / 2
  {
    if b == [] then []
    else if |b| == 1 then [REPLACEMENT]
    else [Uint16(b[0], b[1], bigEndian)] + Units(b[2..], bigEndian)
  }

  lemma {:induction false} UnitAt(b: seq<byte>, bigEndian: bool, k: nat)
    requires 2 * k < |b|
    ensures Units(b, bigEndian)[k]
      == if 2 * k + 1 < |b| then Uint16(b[2 * k], b[2 * k + 1], bigEndian) else REPLACEMENT
  {
    if k > 0 {
      UnitAt(b[2..], bigEndian, k - 1);
    }
  }

  method UTF16BytesToString(b: seq<byte>, bigEndian: bool) returns (s: string)
    ensures s == Decode(Units(b, bigEndian))
  {
    var utf := new Unit[(|b| + 1) / 2];
    var i := 0;
    while i + 1 < |b|
      invariant i % 2 == 0 && 0 <= i <= |b| + 1
      invariant forall k :: 0 <= 2 * k < i ==> 2 * k + 1 < |b| && utf[k] == Uint16(b[2 * k], b[2 * k + 1], bigEndian)
    {
      utf[i / 2] := Uint16(b[i], b[i + 1], bigEndian);
      i := i + 2;
    }
    if |b| / 2 < utf.Length {
      utf[utf.Length - 1] := REPLACEMENT;
    }
    forall k | 0 <= k < utf.Length
      ensures utf[k] == Units(b, bigEndian)[k]
    {
      UnitAt(b, bigEndian, k);
    }
    assert utf[..] == Units(b, bigEndian);
    s := Decode(utf[..]);
  }

  function ToBytes(us: seq<Unit>, bigEndian: bool): seq<byte> {
    if us == [] then []
    else
      var hi, lo := us[0] / 256, us[0] % 256;
      (if bigEndian then [hi, lo] else [lo, hi]) + ToBytes(us[1..], bigEndian)
  }

  lemma {:induction false} UnitsOfBytes(us: seq<Unit>, bigEndian: bool)
    ensures Units(ToBytes(us, bigEndian), bigEndian) == us
    ensures |ToBytes(us, bigEndian)| == 2 * |us|
  {
    if us != [] {
      UnitsOfBytes(us[1..], bigEndian);
      assert ToBytes(us, bigEndian)[2..] == ToBytes(us[1..], bigEndian);
    }
  }

  lemma DecodeFirst(us: seq<Unit>)
    requires us != []
    ensures
      if High(us[0]) && |us| > 1 && Low(us[1]) then Decode(us) == [Pair(us[0], us[1]) as char] + Decode(us[2..])
      else Decode(us) == [if High(us[0]) || Low(us[0]) then 0xFFFD as char else us[0] as char] + Decode(us[1..])
  {
  }

  lemma RuneBack(c: char)
    ensures var r := EncodeRune(c);
      || (r == [c as int] && !High(r[0]) && !Low(r[0]))
      || (|r| == 2 && High(r[0]) && Low(r[1]) && Pair(r[0], r[1]) == c as int)
  {
  }

  lemma {:induction false} DecodeEncode(s: string)
    ensures Decode(Encode(s)) == s
  {
    if s != "" {
      RuneBack(s[0]);
      DecodeEncode(s[1..]);
      hide Decode, EncodeRune, Pair, High, Low;
      var r := EncodeRune(s[0]);
      var us := r + Encode(s[1..]);
      assert us[|r|..] == Encode(s[1..]) && us[0] == r[0] && (|r| == 2 ==> us[1] == r[1]);
      DecodeFirst(us);
      assert s == [s[0]] + s[1..];
    }
  }

  /** Decoding inverts encoding for every string of Unicode scalar values, in either byte order. */
  lemma RoundTrip(s: string, bigEndian: bool)
    ensures Decode(Units(ToBytes(Encode(s), bigEndian), bigEndian)) == s
  {
    UnitsOfBytes(Encode(s), bigEndian);
    DecodeEncode(s);
  }

  /** Decoding can be done in parts, unless a surrogate pair is cut. */
  lemma {:induction false} DecodeParts(a: seq<Unit>, b: seq<Unit>)
    requires a != [] && b != [] ==> !(High(a[|a| - 1]) && Low(b[0]))
    ensures Decode(a + b) == Decode(a) + Decode(b)
    decreases |a|
  {
    if a == [] {
      assert a + b == b;
    } else {
      hide Decode;
      var k := if High(a[0]) && |a| > 1 && Low(a[1]) then 2 else 1;
      var us := a + b;
      assert us[k..] == a[k..] + b && us[0] == a[0];
      if |a| > 1 {
        assert us[1] == a[1];
      } else if b != [] {
        assert us[1] == b[0];
      }
      DecodeParts(a[k..], b);
      DecodeFirst(a);
      DecodeFirst(us);
      var c := Decode(a)[..1];
      Regroup(c, Decode(a[k..]), Decode(b));
    }
  }

  lemma Regroup(a: string, b: string, c: string)
    ensures a + (b + c) == (a + b) + c
  {
  }

  lemma {:induction false} UnitsOddByte(b: seq<byte>, last: byte, bigEndian: bool)
    requires |b| % 2 == 0
    ensures Units(b + [last], bigEndian) == Units(b, bigEndian) + [REPLACEMENT]
  {
    if b != [] {
      UnitsOddByte(b[2..], last, bigEndian);
      assert (b + [last])[2..] == b[2..] + [last];
    }
  }

  /** An odd trailing byte adds exactly one U+FFFD, even after an unfinished surrogate pair. */
  lemma OddByteAddsReplacement(b: seq<byte>, last: byte, bigEndian: bool)
    requires |b| % 2 == 0
    ensures Decode(Units(b + [last], bigEndian)) == Decode(Units(b, bigEndian)) + [REPLACEMENT as char]
  {
    UnitsOddByte(b, last, bigEndian);
    var us := Units(b, bigEndian);
    DecodeParts(us, [REPLACEMENT]);
    DecodeFirst([REPLACEMENT]);
  }

  lemma OneSurrogate(u: Unit, b: seq<Unit>)
    requires High(u) || Low(u)
    requires High(u) ==> b == [] || !Low(b[0])
    ensures Decode([u] + b) == [0xFFFD as char] + Decode(b)
  {
    var us := [u] + b;
    assert us[1..] == b && us[0] == u && (|us| > 1 ==> us[1] == b[0]);
    hide Decode;
    DecodeFirst(us);
  }

  /** A surrogate without its partner is replaced by U+FFFD, and its neighbours are read as if it were not there. */
  lemma LoneSurrogate(a: seq<Unit>, u: Unit, b: seq<Unit>)
    requires High(u) || Low(u)
    requires Low(u) ==> a == [] || !High(a[|a| - 1])
    requires High(u) ==> b == [] || !Low(b[0])
    ensures Decode(a + [u] + b) == Decode(a) + [0xFFFD as char] + Decode(b)
  {
    hide Decode;
    var rest := [u] + b;
    assert rest[0] == u && a + [u] + b == a + rest;
    DecodeParts(a, rest);
    OneSurrogate(u, b);
    Regroup(Decode(a), [0xFFFD as char], Decode(b));
  }
}
