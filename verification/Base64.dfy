/** Base 64 (section 4 of RFC 4648) as Go's base64.StdEncoding does it. */
module Base64 {
  import opened Bytes
  import opened Wrappers

  type Sextet = x: int | 0 <= x < 64

  function Symbol(n: Sextet): char {
    if n < 26 then 'A' + n as char
    else if n < 52 then 'a' + (n - 26) as char
    else if n < 62 then '0' + (n - 52) as char
    else if n == 62 then '+' else '/'
  }

  function ValueOf(c: char): (v: Option<int>)
    ensures v.Some? ==> 0 <= v.value < 64
  {
    if 'A' <= c <= 'Z' then Some(c as int - 'A' as int)
    else if 'a' <= c <= 'z' then Some(c as int - 'a' as int + 26)
    else if '0' <= c <= '9' then Some(c as int - '0' as int + 52)
    else if c == '+' then Some(62)
    else if c == '/' then Some(63)
    else None
  }

  function Encode(b: seq<byte>): string {
    if b == [] then ""
    else if |b| == 1 then [Symbol(b[0] / 4), Symbol(b[0] % 4 * 16), '=', '=']
    else if |b| == 2 then [Symbol(b[0] / 4), Symbol(b[0] % 4 * 16 + b[1] / 16), Symbol(b[1] % 16 * 4), '=']
    else
      [Symbol(b[0] / 4), Symbol(b[0] % 4 * 16 + b[1] / 16), Symbol(b[1] % 16 * 4 + b[2] / 64), Symbol(b[2] % 64)]
      + Encode(b[3..])
  }

  /** Line breaks are skipped; padding may only close the last quantum; its spare bits are ignored. */
  function Decode(s: string): Option<seq<byte>> {
    DecodeQuanta(WithoutLineBreaks(s))
  }

  function WithoutLineBreaks(s: string): string {
    if s == "" then ""
    else (if s[0] == '\n' || s[0] == '\r' then "" else [s[0]]) + WithoutLineBreaks(s[1..])
  }

  /** Four sextets make three bytes. */
  function Quantum(a: int, b: int, c: int, d: int): seq<byte>
    requires 0 <= a < 64 && 0 <= b < 64 && 0 <= c < 64 && 0 <= d < 64
  {
    [a * 4 + b / 16, b % 16 * 16 + c / 4, c % 4 * 64 + d]
  }

  function DecodeQuanta(s: string): Option<seq<byte>> {
    if s == "" then Some([])
    else if |s| < 4 then None
    else
      match (ValueOf(s[0]), ValueOf(s[1]), ValueOf(s[2]), ValueOf(s[3]))
      case (Some(a), Some(b), Some(c), Some(d)) =>
        (match DecodeQuanta(s[4..])
         case Some(rest) => Some(Quantum(a, b, c, d) + rest)
         case None => None)
      case (Some(a), Some(b), Some(c), None) =>
        if s[3] == '=' && |s| == 4 then Some([a * 4 + b / 16, b % 16 * 16 + c / 4]) else None
      case (Some(a), Some(b), None, None) =>
        if s[2] == '=' && s[3] == '=' && |s| == 4 then Some([a * 4 + b / 16]) else None
      case _ => None
  }

  lemma SymbolValue(n: Sextet)
    ensures ValueOf(Symbol(n)) == Some(n) && Symbol(n) != '\n' && Symbol(n) != '\r'
  {
  }

  lemma {:induction false} NoLineBreaks(s: string)
    requires '\n' !in s && '\r' !in s
    ensures WithoutLineBreaks(s) == s
  {
    if s != "" {
      NoLineBreaks(s[1..]);
    }
  }

  lemma {:induction false} EncodeHasNoLineBreaks(b: seq<byte>)
    ensures '\n' !in Encode(b) && '\r' !in Encode(b)
  {
    if |b| >= 3 {
      EncodeHasNoLineBreaks(b[3..]);
    }
  }

  lemma LastByte(x: byte)
    ensures DecodeQuanta(Encode([x])) == Some([x])
  {
    SymbolValue(x / 4);
    SymbolValue(x % 4 * 16);
    assert x / 4 * 4 + (x % 4 * 16) / 16 == x;
  }

  lemma LastTwoBytes(x: byte, y: byte)
    ensures DecodeQuanta(Encode([x, y])) == Some([x, y])
  {
    SymbolValue(x / 4);
    SymbolValue(x % 4 * 16 + y / 16);
    SymbolValue(y % 16 * 4);
  }

  /** Three bytes are cut into four sextets and put together again. */
  lemma Recombine(x: byte, y: byte, z: byte)
    ensures x / 4 < 64 && x % 4 * 16 + y / 16 < 64 && y % 16 * 4 + z / 64 < 64 && z % 64 < 64
    ensures x / 4 * 4 + (x % 4 * 16 + y / 16) / 16 == x
    ensures (x % 4 * 16 + y / 16) % 16 * 16 + (y % 16 * 4 + z / 64) / 4 == y
    ensures (y % 16 * 4 + z / 64) % 4 * 64 + z % 64 == z
  {
  }

  lemma FourSymbols(a: Sextet, b: Sextet, c: Sextet, d: Sextet, tail: string)
    requires DecodeQuanta(tail).Some?
    ensures DecodeQuanta([Symbol(a), Symbol(b), Symbol(c), Symbol(d)] + tail)
      == Some(Quantum(a, b, c, d) + DecodeQuanta(tail).value)
  {
    hide Symbol, ValueOf, Quantum;
    SymbolValue(a);
    SymbolValue(b);
    SymbolValue(c);
    SymbolValue(d);
    assert ([Symbol(a), Symbol(b), Symbol(c), Symbol(d)] + tail)[4..] == tail;
  }

  lemma FullQuantum(x: byte, y: byte, z: byte, rest: seq<byte>)
    requires DecodeQuanta(Encode(rest)) == Some(rest)
    ensures DecodeQuanta(Encode([x, y, z] + rest)) == Some([x, y, z] + rest)
  {
    hide Symbol, DecodeQuanta, Encode;
    Recombine(x, y, z);
    var a, b, c, d := x / 4, x % 4 * 16 + y / 16, y % 16 * 4 + z / 64, z % 64;
    assert Quantum(a, b, c, d) == [x, y, z];
    EncodeThree(x, y, z, rest);
    FourSymbols(a, b, c, d, Encode(rest));
  }

  lemma EncodeThree(x: byte, y: byte, z: byte, rest: seq<byte>)
    ensures Encode([x, y, z] + rest)
      == [Symbol(x / 4), Symbol(x % 4 * 16 + y / 16), Symbol(y % 16 * 4 + z / 64), Symbol(z % 64)] + Encode(rest)
  {
    hide Symbol;
    assert ([x, y, z] + rest)[3..] == rest;
  }

  lemma {:induction false} QuantaRoundTrip(b: seq<byte>)
    ensures DecodeQuanta(Encode(b)) == Some(b)
  {
    if b == [] {
    } else if |b| == 1 {
      assert b == [b[0]];
      LastByte(b[0]);
    } else if |b| == 2 {
      assert b == [b[0], b[1]];
      LastTwoBytes(b[0], b[1]);
    } else {
      assert b == [b[0], b[1], b[2]] + b[3..];
      QuantaRoundTrip(b[3..]);
      FullQuantum(b[0], b[1], b[2], b[3..]);
    }
  }

  /** Decoding inverts encoding for every byte string. */
  lemma RoundTrip(b: seq<byte>)
    ensures Decode(Encode(b)) == Some(b)
  {
    EncodeHasNoLineBreaks(b);
    NoLineBreaks(Encode(b));
    QuantaRoundTrip(b);
  }

  // ---------------------------------------------------------------- the alphabet and the bits

  const ALPHABET := "ABCDEFGHIJKLMNOPQRSTUVWXYZ" + "abcdefghijklmnopqrstuvwxyz" + "0123456789" + "+/"

  lemma UpperPlace(n: nat)
    requires n < 26
    ensures "ABCDEFGHIJKLMNOPQRSTUVWXYZ"[n] == 'A' + n as char
  {
  }

  lemma LowerPlace(n: nat)
    requires n < 26
    ensures "abcdefghijklmnopqrstuvwxyz"[n] == 'a' + n as char
  {
  }

  lemma DigitPlace(n: nat)
    requires n < 10
    ensures "0123456789"[n] == '0' + n as char
  {
  }

  /** A symbol stands for its place in the alphabet. */
  lemma SymbolPlace(n: Sextet)
    ensures |ALPHABET| == 64 && Symbol(n) == ALPHABET[n]
  {
    if n < 26 {
      UpperPlace(n);
    } else if n < 52 {
      LowerPlace(n - 26);
    } else if n < 62 {
      DigitPlace(n - 52);
    }
  }

  /** Three bytes as four sextets: the same number, in base 64. */
  lemma SameNumber(x: int, y: int, z: int)
    requires 0 <= x < 256 && 0 <= y < 256 && 0 <= z < 256
    ensures 262144 * (x / 4) + 4096 * (x % 4 * 16 + y / 16) + 64 * (y % 16 * 4 + z / 64) + z % 64
      == 65536 * x + 256 * y + z
    ensures 0 <= x / 4 < 64 && 0 <= x % 4 * 16 + y / 16 < 64 && 0 <= y % 16 * 4 + z / 64 < 64 && 0 <= z % 64 < 64
  {
  }

  /** Three bytes are four symbols that stand for the same number in base 64. */
  lemma EncodesThree(x: byte, y: byte, z: byte, rest: seq<byte>) returns (p: int, q: int, r: int, s: int)
    ensures 0 <= p < 64 && 0 <= q < 64 && 0 <= r < 64 && 0 <= s < 64 && |ALPHABET| == 64
    ensures 262144 * p + 4096 * q + 64 * r + s == 65536 * (x as int) + 256 * (y as int) + z as int
    ensures Encode([x, y, z] + rest) == [ALPHABET[p], ALPHABET[q], ALPHABET[r], ALPHABET[s]] + Encode(rest)
  {
    EncodeThree(x, y, z, rest);
    SameNumber(x, y, z);
    p, q, r, s := x / 4, x % 4 * 16 + y / 16, y % 16 * 4 + z / 64, z % 64;
    hide Encode, Symbol, ALPHABET;
    SymbolPlace(p);
    SymbolPlace(q);
    SymbolPlace(r);
    SymbolPlace(s);
  }

  /** Of two bytes the bits that are missing are zero, and the last symbol is `=`. */
  lemma EncodesTwo(x: byte, y: byte) returns (p: int, q: int, r: int)
    ensures 0 <= p < 64 && 0 <= q < 64 && 0 <= r < 64 && |ALPHABET| == 64
    ensures 4096 * p + 64 * q + r == 4 * (256 * (x as int) + y as int)
    ensures Encode([x, y]) == [ALPHABET[p], ALPHABET[q], ALPHABET[r], '=']
  {
    SameNumber(x, y, 0);
    p, q, r := x / 4, x % 4 * 16 + y / 16, y % 16 * 4;
    assert Encode([x, y]) == [Symbol(p), Symbol(q), Symbol(r), '='];
    hide Encode, Symbol, ALPHABET;
    SymbolPlace(p);
    SymbolPlace(q);
    SymbolPlace(r);
  }

  /** Of one byte likewise, and the last two symbols are `=`. */
  lemma EncodesOne(x: byte) returns (p: int, q: int)
    ensures 0 <= p < 64 && 0 <= q < 64 && |ALPHABET| == 64
    ensures 64 * p + q == 16 * (x as int)
    ensures Encode([x]) == [ALPHABET[p], ALPHABET[q], '=', '=']
  {
    p, q := x / 4, x % 4 * 16;
    assert Encode([x]) == [Symbol(p), Symbol(q), '=', '='];
    hide Encode, Symbol, ALPHABET;
    SymbolPlace(p);
    SymbolPlace(q);
  }

  // ---------------------------------------------------------------- what is refused

  /** Quanta of four symbols, of which only the last two of all may be `=`, and the last but one only with the last. */
  predicate WellFormed(s: string) {
    && |s| % 4 == 0
    && (forall i :: 0 <= i < |s| - 2 ==> ValueOf(s[i]).Some?)
    && (s != "" ==>
         && (ValueOf(s[|s| - 1]).Some? || s[|s| - 1] == '=')
         && (ValueOf(s[|s| - 2]).Some? || (s[|s| - 2] == '=' && s[|s| - 1] == '=')))
  }

  predicate FourValues(s: string)
    requires |s| >= 4
  {
    ValueOf(s[0]).Some? && ValueOf(s[1]).Some? && ValueOf(s[2]).Some? && ValueOf(s[3]).Some?
  }

  lemma WellFormedRest(s: string)
    requires |s| > 4
    ensures WellFormed(s) <==> |s| >= 8 && FourValues(s) && WellFormed(s[4..])
  {
    hide ValueOf;
    PaddingIsNoSymbol();
    var rest := s[4..];
    assert |s| % 4 == |rest| % 4;
    assert forall i :: 0 <= i < |rest| ==> rest[i] == s[i + 4];
    if |s| >= 8 && FourValues(s) && WellFormed(rest) {
      forall i | 0 <= i < |s| - 2
        ensures ValueOf(s[i]).Some?
      {
        if i >= 4 {
          assert s[i] == rest[i - 4];
        }
      }
    }
  }

  lemma DecodeRest(s: string)
    requires |s| > 4
    ensures DecodeQuanta(s).Some? <==> FourValues(s) && DecodeQuanta(s[4..]).Some?
  {
    hide ValueOf, Quantum;
  }

  lemma LastQuantum(s: string)
    requires |s| <= 4
    ensures DecodeQuanta(s).Some? <==> WellFormed(s)
  {
    hide ValueOf, Quantum;
    PaddingIsNoSymbol();
  }

  lemma {:induction false} QuantaExactly(s: string)
    ensures DecodeQuanta(s).Some? <==> WellFormed(s)
    decreases |s|
  {
    if |s| <= 4 {
      LastQuantum(s);
    } else {
      hide WellFormed, DecodeQuanta, FourValues;
      WellFormedRest(s);
      DecodeRest(s);
      QuantaExactly(s[4..]);
      if |s| < 8 {
        ShortIsNone(s[4..]);
      }
    }
  }

  lemma ShortIsNone(s: string)
    requires 0 < |s| < 4
    ensures DecodeQuanta(s) == None
  {
  }

  lemma PaddingIsNoSymbol()
    ensures ValueOf('=') == None
  {
  }

  /** Exactly which names can be decoded. */
  lemma DecodesExactly(s: string)
    ensures Decode(s).Some? <==> WellFormed(WithoutLineBreaks(s))
  {
    QuantaExactly(WithoutLineBreaks(s));
  }
}
