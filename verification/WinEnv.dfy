/**
 The reader of PowerShell's environment table (executor/util_win.go). The table is
 little-endian UTF-16, but the reader splits it at the byte 0x0A: the line break's second
 byte stays behind, so every later line starts one byte early and reads as big-endian.
 */
module WinEnv {
  import opened Bytes
  import opened Utf16
  import opened Variables
  import opened EnvRows
  import opened Wrappers
  import opened Sequences

  const DASH: seq<byte> := [0, 45, 0, 45, 0, 45, 0, 45]
  const CR: seq<byte> := [0, 13]
  const NUL: seq<byte> := [0]
  const BUFFER := 1024 * 8

  // ---------------------------------------------------------------- bufio.Reader.ReadLine

  datatype Read = Eof | Line(line: seq<byte>, rest: seq<byte>)

  /** A line without its "\n" or "\r\n", or one full buffer of a longer line. */
  function ReadLine(d: seq<byte>): (r: Read)
    ensures r.Line? ==> |r.rest| < |d|
  {
    var n := IndexOf(d, 10);
    if d == [] then Eof
    else if n < BUFFER && n < |d| then
      Line(if n > 0 && d[n - 1] == 13 then d[..n - 1] else d[..n], d[n + 1..])
    else if |d| >= BUFFER then
      var k := if d[BUFFER - 1] == 13 then BUFFER - 1 else BUFFER;
      Line(d[..k], d[k..])
    else Line(d, [])
  }

  /**
   Nothing is lost but line ends: a line is followed by "\n", by "\r\n", or, where the buffer
   is full or the input ends, directly by the rest. It never holds a line break.
   */
  lemma ReadLineCuts(d: seq<byte>)
    requires d != []
    ensures var r := ReadLine(d);
      && r.Line? && 10 !in r.line && |r.line| <= 8192
      && (d == r.line + [13, 10] + r.rest
          || (d == r.line + [10] + r.rest && (r.line == [] || r.line[|r.line| - 1] != 13))
          || (d == r.line + r.rest && (r.rest == [] || |r.line| >= 8191)))
  {
    var n := IndexOf(d, 10);
    if n < BUFFER && n < |d| {
      hide IndexOf;
      assert d == d[..n] + [10] + d[n + 1..];
      if n > 0 && d[n - 1] == 13 {
        NoneBefore(d, n, n - 1);
        assert d == d[..n - 1] + [13, 10] + d[n + 1..];
      }
    } else {
      FullBuffer(d, n);
    }
  }

  lemma FullBuffer(d: seq<byte>, n: nat)
    requires d != [] && n == IndexOf(d, 10) && !(n < BUFFER && n < |d|)
    ensures var r := ReadLine(d); 10 !in r.line && d == r.line + r.rest
  {
    if |d| < BUFFER {
      assert d[..n] == d && d + [] == d;
    } else {
      var k := if d[BUFFER - 1] == 13 then BUFFER - 1 else BUFFER;
      NoneBefore(d, n, k);
      InTwo(d, k);
    }
  }

  lemma InTwo(d: seq<byte>, k: nat)
    requires k <= |d|
    ensures d == d[..k] + d[k..]
  {
  }

  lemma NoneBefore(d: seq<byte>, n: nat, k: nat)
    requires k <= n <= |d| && 10 !in d[..n]
    ensures 10 !in d[..k]
  {
    assert d[..k] == d[..n][..k];
  }

  /** A line that fits the buffer. */
  lemma ReadLineAt(l: seq<byte>, rest: seq<byte>)
    requires 10 !in l && |l| < BUFFER
    ensures ReadLine(l + [10] + rest) == Line(if l != [] && l[|l| - 1] == 13 then l[..|l| - 1] else l, rest)
  {
    IndexOfFirst(l, 10, rest);
    hide IndexOf;
    var d := l + [10] + rest;
    assert d[..|l|] == l && d[|l| + 1..] == rest;
    if l != [] {
      assert d[|l| - 1] == l[|l| - 1] && d[..|l| - 1] == l[..|l| - 1];
    }
  }

  // ---------------------------------------------------------------- the reader

  /** strings.Trim(s, " "). */
  function TrimBlanks(s: string): string {
    if s != "" && s[0] == ' ' then TrimBlanks(s[1..])
    else if s != "" && s[|s| - 1] == ' ' then TrimBlanks(s[..|s| - 1])
    else s
  }

  /** getEnvKeyAndValForWin. */
  function KeyAndVal(line: string): Option<Row> {
    var index := IndexOf(line, ' ');
    if index == |line| then None else Some((line[..index], TrimBlanks(line[index + 1..])))
  }

  function Content(line: seq<byte>): seq<byte> {
    TrimmedRight(TrimmedRight(line, NUL), CR)
  }

  ghost function AddLine(line: seq<byte>, filters: seq<string>, out: VarMap): VarMap {
    if Content(line) == [] then out
    else AddRow(KeyAndVal(Decode(Units(Content(line), true))), filters, out)
  }

  ghost function ReadTable(data: seq<byte>, process: bool, filters: seq<string>, out: VarMap): VarMap
    decreases |data|
  {
    match ReadLine(data)
    case Eof => out
    case Line(line, rest) =>
      if DASH <= line then ReadTable(rest, true, filters, out)
      else ReadTable(rest, process, filters, if process then AddLine(line, filters, out) else out)
  }

  method ReadEnvFromReaderForWin(data: seq<byte>, filters: seq<string>) returns (output: VarMap)
    ensures output == ReadTable(data, false, filters, DEFAULT_VARS)
  {
    output := DEFAULT_VARS;
    var process := false;
    var reader := data;
    while true
      invariant ReadTable(reader, process, filters, output) == ReadTable(data, false, filters, DEFAULT_VARS)
      decreases |reader|
    {
      var read := ReadLine(reader);
      if read.Eof? {
        return;
      }
      var line := read.line;
      reader := read.rest;
      var dashes := IsByteStartWith(line, DASH);
      if dashes {
        process := true;
        continue;
      }
      if process {
        line := BytesTrimRight(line, NUL);
        line := BytesTrimRight(line, CR);
        if |line| == 0 {
          continue;
        }
        var strLine := UTF16BytesToString(line, true);
        var row := KeyAndVal(strLine);
        if row.Some? {
          var passes := MatchEnvFilter(row.value.0, filters);
          if passes {
            output := output[row.value.0 := row.value.1];
          }
        }
      }
    }
  }

  // ---------------------------------------------------------------- what the table means

  /** Characters U+0001 to U+00FF except the line break. */
  predicate Latin(s: string) {
    forall i :: 0 <= i < |s| ==> 1 <= s[i] as int < 256 && s[i] != '\n'
  }

  predicate FitsBuffer(line: string) {
    2 * |line| + 4 <= 8192
  }

  function TableLine(line: string): seq<byte> {
    ToBytes(Encode(line + "\r\n"), false)
  }

  function Table(lines: seq<string>): seq<byte> {
    if lines == [] then [] else TableLine(lines[0]) + Table(lines[1..])
  }

  /** The reader's intent, line by line of text. */
  ghost function ReadText(lines: seq<string>, process: bool, filters: seq<string>, out: VarMap): VarMap {
    if lines == [] then out
    else if "----" <= lines[0] then ReadText(lines[1..], true, filters, out)
    else if process && lines[0] != "" then
      ReadText(lines[1..], process, filters, AddRow(KeyAndVal(lines[0]), filters, out))
    else ReadText(lines[1..], process, filters, out)
  }

  // ---------------------------------------------------------------- the shift by one byte

  lemma {:induction false} LatinUnits(s: string)
    requires Latin(s)
    ensures |Encode(s)| == |s| && forall i :: 0 <= i < |s| ==> Encode(s)[i] == s[i] as int
  {
    if s != "" {
      LatinUnits(s[1..]);
    }
  }

  lemma {:induction false} ByteAt(us: seq<Unit>, bigEndian: bool, i: nat)
    requires i < |us|
    ensures |ToBytes(us, bigEndian)| == 2 * |us|
    ensures ToBytes(us, bigEndian)[2 * i] == if bigEndian then us[i] / 256 else us[i] % 256
    ensures ToBytes(us, bigEndian)[2 * i + 1] == if bigEndian then us[i] % 256 else us[i] / 256
  {
    UnitsOfBytes(us, bigEndian);
    if i > 0 {
      var b, t := ToBytes(us, bigEndian), ToBytes(us[1..], bigEndian);
      assert b[2..] == t;
      hide ToBytes;
      ByteAt(us[1..], bigEndian, i - 1);
      assert b[2 * i] == t[2 * i - 2] && b[2 * i + 1] == t[2 * i - 1];
    }
  }

  lemma {:induction false} ToBytesConcat(a: seq<Unit>, b: seq<Unit>, bigEndian: bool)
    ensures ToBytes(a + b, bigEndian) == ToBytes(a, bigEndian) + ToBytes(b, bigEndian)
  {
    if a == [] {
      assert a + b == b;
    } else {
      assert (a + b)[1..] == a[1..] + b;
      ToBytesConcat(a[1..], b, bigEndian);
    }
  }

  predicate OneByte(us: seq<Unit>) {
    forall i :: 0 <= i < |us| ==> us[i] < 256
  }

  /** For units below 256, little-endian one byte early is big-endian with a byte left over. */
  lemma {:induction false} Shift(us: seq<Unit>)
    requires OneByte(us)
    ensures [0] + ToBytes(us, false) == ToBytes(us, true) + [0]
  {
    if us != [] {
      Shift(us[1..]);
      assert us[0] / 256 == 0 && us[0] % 256 == us[0];
      assert ToBytes(us, false) == [us[0], 0] + ToBytes(us[1..], false);
      assert [0] + ToBytes(us, false) == [0, us[0]] + ([0] + ToBytes(us[1..], false));
    }
  }

  lemma {:induction false} EncodeConcat(a: string, b: string)
    ensures Encode(a + b) == Encode(a) + Encode(b)
  {
    if a == "" {
      assert a + b == b;
    } else {
      assert (a + b)[1..] == a[1..] + b;
      EncodeConcat(a[1..], b);
    }
  }

  /** A line of the table, seen one byte early. */
  lemma ShiftedLine(line: string)
    requires Latin(line)
    ensures [0] + TableLine(line) == ToBytes(Encode(line), true) + [0, 13, 0, 10, 0]
  {
    assert Encode("\r\n") == [13, 10] by {
      assert "\r\n"[1..] == "\n";
    }
    EncodeConcat(line, "\r\n");
    LatinUnits(line);
    hide ToBytes, Encode;
    ShiftedBytes(Encode(line));
  }

  lemma ShiftedBytes(us: seq<Unit>)
    requires OneByte(us)
    ensures [0] + ToBytes(us + [13, 10], false) == ToBytes(us, true) + [0, 13, 0, 10, 0]
  {
    assert OneByte(us + [13, 10]);
    EndOfLine();
    hide ToBytes, OneByte;
    Shift(us + [13, 10]);
    ToBytesConcat(us, [13, 10], true);
    FourAndOne(ToBytes(us, true));
  }

  lemma FourAndOne(b: seq<byte>)
    ensures b + [0, 13, 0, 10] + [0] == b + [0, 13, 0, 10, 0]
  {
  }

  lemma EndOfLine()
    ensures ToBytes([13, 10], true) == [0, 13, 0, 10]
  {
    var us: seq<Unit> := [13, 10];
    assert us[1..] == [10] && us[1..][1..] == [];
  }

  lemma {:induction false} NoTen(us: seq<Unit>)
    requires OneByte(us) && 10 !in us
    ensures 10 !in ToBytes(us, true)
  {
    if us != [] {
      assert us[0] in us && forall u :: u in us[1..] ==> u in us;
      NoTen(us[1..]);
    }
  }

  lemma NoLineBreak(line: string)
    requires Latin(line)
    ensures 10 !in ToBytes(Encode(line), true) && |ToBytes(Encode(line), true)| == 2 * |line|
  {
    LatinUnits(line);
    UnitsOfBytes(Encode(line), true);
    hide ToBytes, Encode;
    NoTen(Encode(line));
  }

  lemma ReadShiftedLine(line: string, rest: seq<byte>)
    requires Latin(line) && FitsBuffer(line)
    ensures ReadLine([0] + TableLine(line) + rest)
      == Line(ToBytes(Encode(line), true) + [0, 13, 0], [0] + rest)
  {
    var b := ToBytes(Encode(line), true);
    ShiftedLine(line);
    NoLineBreak(line);
    var l := b + [0, 13, 0];
    assert l[|l| - 1] == 0 && 10 !in l;
    hide ToBytes, Encode, TableLine, ReadLine;
    ReadLineAt(l, [0] + rest);
    FiveBytes(b, rest);
  }

  lemma FiveBytes(b: seq<byte>, rest: seq<byte>)
    ensures b + [0, 13, 0, 10, 0] + rest == b + [0, 13, 0] + [10] + ([0] + rest)
  {
  }

  lemma ShiftedDashes(line: string)
    requires Latin(line)
    ensures DASH <= ToBytes(Encode(line), true) + [0, 13, 0] <==> "----" <= line
  {
    var l := ToBytes(Encode(line), true) + [0, 13, 0];
    LatinUnits(line);
    UnitsOfBytes(Encode(line), true);
    forall i | 0 <= i < |line|
      ensures l[2 * i] == 0 && l[2 * i + 1] == line[i] as int
    {
      ByteAt(Encode(line), true, i);
    }
    hide ToBytes, Encode;
    if |line| >= 4 {
      EightBytes(l, line);
    } else if |l| >= 8 {
      assert l[2 * |line| + 1] == 13 && DASH[2 * |line| + 1] == 45;
    }
  }

  lemma EightBytes(l: seq<byte>, line: string)
    requires |line| >= 4 && |l| >= 8
    requires forall i :: 0 <= i < 4 ==> l[2 * i] == 0 && l[2 * i + 1] == line[i] as int
    ensures DASH <= l <==> "----" <= line
  {
    assert l[0] == l[2 * 0] && l[1] == l[2 * 0 + 1] && l[2] == l[2 * 1] && l[3] == l[2 * 1 + 1];
    assert l[4] == l[2 * 2] && l[5] == l[2 * 2 + 1] && l[6] == l[2 * 3] && l[7] == l[2 * 3 + 1];
    assert "----" <= line <==> line[0] == line[1] == line[2] == line[3] == '-';
    assert DASH <= l <==> forall k :: 0 <= k < 8 ==> l[k] == DASH[k];
  }

  lemma ShiftedContent(line: string)
    requires Latin(line)
    ensures Content(ToBytes(Encode(line), true) + [0, 13, 0]) == ToBytes(Encode(line), true)
    ensures Decode(Units(ToBytes(Encode(line), true), true)) == line
    ensures ToBytes(Encode(line), true) == [] <==> line == ""
  {
    var b := ToBytes(Encode(line), true);
    var l := b + [0, 13, 0];
    assert l == b + CR + NUL;
    assert l[|l| - 1..] == NUL && l[..|l| - 1] == b + CR;
    assert (b + CR)[|b + CR| - 2..] == CR && (b + CR)[..|b + CR| - 2] == b;
    RoundTrip(line, true);
    LatinUnits(line);
    UnitsOfBytes(Encode(line), true);
  }

  lemma {:induction false} ReadShiftedTable(lines: seq<string>, process: bool, filters: seq<string>, out: VarMap)
    requires forall l :: l in lines ==> Latin(l) && FitsBuffer(l)
    ensures ReadTable([0] + Table(lines), process, filters, out) == ReadText(lines, process, filters, out)
    decreases |lines|
  {
    if lines == [] {
      LeftoverByte(process, filters, out);
      assert [0] + Table(lines) == [0];
    } else {
      var line, rest := lines[0], Table(lines[1..]);
      assert [0] + Table(lines) == [0] + TableLine(line) + rest;
      ReadShiftedLine(line, rest);
      ShiftedDashes(line);
      ShiftedContent(line);
      var process' := process || "----" <= line;
      var out' := if process && !("----" <= line) && line != "" then AddRow(KeyAndVal(line), filters, out) else out;
      ReadShiftedTable(lines[1..], process', filters, out');
    }
  }

  /** The zero byte left after the last line break is no row. */
  lemma LeftoverByte(process: bool, filters: seq<string>, out: VarMap)
    ensures ReadTable([0], process, filters, out) == out
  {
    var d: seq<byte> := [0];
    assert IndexOf(d, 10) == 1;
    assert ReadLine(d) == Line(d, []);
    assert Content(d) == [];
    assert ReadLine([]) == Eof;
  }

  /**
   A table of text lines behind any first line: splitting at the byte 0x0A, trimming and
   decoding as big-endian reads exactly the lines of text.
   */
  lemma TableIsRead(first: seq<byte>, lines: seq<string>, filters: seq<string>)
    requires 10 !in first && |first| < BUFFER && !(DASH <= first)
    requires forall l :: l in lines ==> Latin(l) && FitsBuffer(l)
    ensures ReadTable(first + [10, 0] + Table(lines), false, filters, DEFAULT_VARS)
      == ReadText(lines, false, filters, DEFAULT_VARS)
  {
    var rest := [0] + Table(lines);
    assert first + [10, 0] + Table(lines) == first + [10] + rest;
    FirstLineSkipped(first, rest, filters);
    ReadShiftedTable(lines, false, filters, DEFAULT_VARS);
  }

  lemma FirstLineSkipped(first: seq<byte>, rest: seq<byte>, filters: seq<string>)
    requires 10 !in first && |first| < BUFFER && !(DASH <= first)
    ensures ReadTable(first + [10] + rest, false, filters, DEFAULT_VARS)
      == ReadTable(rest, false, filters, DEFAULT_VARS)
  {
    ReadLineAt(first, rest);
    hide ReadLine, AddLine;
    var line := ReadLine(first + [10] + rest).line;
    assert line <= first && !(DASH <= line);
  }

  // ---------------------------------------------------------------- rows

  function Blanks(n: nat): string {
    seq(n, _ => ' ')
  }

  datatype TableRow = TableRow(key: string, pad: nat, val: string, after: nat)

  /** As PowerShell prints it: the key, at least one blank, the value, blanks. */
  function Print(row: TableRow): string {
    row.key + " " + (Blanks(row.pad) + row.val + Blanks(row.after))
  }

  predicate Printable(row: TableRow) {
    && ' ' !in row.key && !("----" <= Print(row)) && Latin(Print(row)) && FitsBuffer(Print(row))
    && (row.val != "" ==> row.val[0] != ' ' && row.val[|row.val| - 1] != ' ')
  }

  lemma {:induction false} TrimBlanksBack(v: string, m: nat)
    requires v != "" ==> v[0] != ' ' && v[|v| - 1] != ' '
    ensures TrimBlanks(v + Blanks(m)) == v
    decreases m
  {
    var s := v + Blanks(m);
    if m == 0 {
      assert s == v;
    } else if v == "" {
      assert s[1..] == v + Blanks(m - 1);
      TrimBlanksBack(v, m - 1);
    } else {
      assert s[|s| - 1] == ' ' && s[0] == v[0] && s[..|s| - 1] == v + Blanks(m - 1);
      TrimBlanksBack(v, m - 1);
    }
  }

  lemma {:induction false} TrimBlanksBoth(n: nat, v: string, m: nat)
    requires v != "" ==> v[0] != ' ' && v[|v| - 1] != ' '
    ensures TrimBlanks(Blanks(n) + v + Blanks(m)) == v
    decreases n
  {
    if n == 0 {
      assert Blanks(n) + v == v;
      TrimBlanksBack(v, m);
    } else {
      assert (Blanks(n) + v + Blanks(m))[1..] == Blanks(n - 1) + v + Blanks(m);
      TrimBlanksBoth(n - 1, v, m);
    }
  }

  lemma RowReadBack(row: TableRow)
    requires ' ' !in row.key && (row.val != "" ==> row.val[0] != ' ' && row.val[|row.val| - 1] != ' ')
    ensures KeyAndVal(Print(row)) == Some((row.key, row.val)) && Print(row) != ""
  {
    var rest := Blanks(row.pad) + row.val + Blanks(row.after);
    TrimBlanksBoth(row.pad, row.val, row.after);
    IndexOfFirst(row.key, ' ', rest);
    hide TrimBlanks, Blanks, IndexOf;
    var s := row.key + " " + rest;
    assert Print(row) == s;
    assert s[..|row.key|] == row.key && s[|row.key| + 1..] == rest;
  }

  function Rows(table: seq<TableRow>): seq<Option<Row>> {
    seq(|table|, i requires 0 <= i < |table| => Some((table[i].key, table[i].val)))
  }

  function PrintAll(table: seq<TableRow>): seq<string> {
    seq(|table|, i requires 0 <= i < |table| => Print(table[i]))
  }

  lemma ReadRow(row: TableRow, lines: seq<string>, filters: seq<string>, out: VarMap)
    requires Printable(row)
    ensures ReadText([Print(row)] + lines, true, filters, out)
      == ReadText(lines, true, filters, AddRow(Some((row.key, row.val)), filters, out))
  {
    RowReadBack(row);
    hide Print, KeyAndVal, AddRow;
    assert ([Print(row)] + lines)[1..] == lines;
  }

  lemma TableCons(table: seq<TableRow>)
    requires table != []
    ensures PrintAll(table) == [Print(table[0])] + PrintAll(table[1..])
    ensures Rows(table) == [Some((table[0].key, table[0].val))] + Rows(table[1..])
  {
    hide Print;
  }

  lemma {:induction false} ReadRows(table: seq<TableRow>, filters: seq<string>, out: VarMap)
    requires forall r :: r in table ==> Printable(r)
    ensures ReadText(PrintAll(table), true, filters, out) == AddRows(Rows(table), filters, out)
    decreases |table|
  {
    if table != [] {
      var row := table[0];
      assert row in table && forall r :: r in table[1..] ==> r in table;
      TableCons(table);
      ReadRow(row, PrintAll(table[1..]), filters, out);
      hide Printable, Print, ReadText, PrintAll, Rows, AddRow;
      assert Rows(table)[1..] == Rows(table[1..]);
      ReadRows(table[1..], filters, AddRow(Rows(table)[0], filters, out));
    }
  }

  lemma {:induction false} SkipHeader(
    header: seq<string>, dashes: string, rest: seq<string>, filters: seq<string>, out: VarMap)
    requires (forall h :: h in header ==> !("----" <= h)) && "----" <= dashes
    ensures ReadText(header + [dashes] + rest, false, filters, out) == ReadText(rest, true, filters, out)
  {
    var lines := header + [dashes] + rest;
    if header == [] {
      assert lines[1..] == rest;
    } else {
      assert lines[0] == header[0] && header[0] in header;
      assert lines[1..] == header[1..] + [dashes] + rest;
      assert forall h :: h in header[1..] ==> h in header;
      SkipHeader(header[1..], dashes, rest, filters, out);
    }
  }

  /** Every environment table comes back as exactly its rows, under the filters, the last of equal keys winning. */
  lemma EnvTableRoundTrip(
    first: seq<byte>, header: seq<string>, dashes: string, table: seq<TableRow>, filters: seq<string>)
    requires 10 !in first && |first| < BUFFER && !(DASH <= first)
    requires forall h :: h in header + [dashes] ==> Latin(h) && FitsBuffer(h)
    requires (forall h :: h in header ==> !("----" <= h)) && "----" <= dashes
    requires forall r :: r in table ==> Printable(r)
    ensures ReadTable(first + [10, 0] + Table(header + [dashes] + PrintAll(table)), false, filters, DEFAULT_VARS)
      == AddRows(Rows(table), filters, DEFAULT_VARS)
  {
    var lines := header + [dashes] + PrintAll(table);
    forall l | l in lines
      ensures Latin(l) && FitsBuffer(l)
    {
      if l in PrintAll(table) {
        var i :| 0 <= i < |table| && PrintAll(table)[i] == l;
        assert Printable(table[i]);
      } else {
        assert l in header + [dashes];
      }
    }
    TableIsRead(first, lines, filters);
    SkipHeader(header, dashes, PrintAll(table), filters, DEFAULT_VARS);
    ReadRows(table, filters, DEFAULT_VARS);
  }

  /** A line without a blank is no row; a line with one always is. */
  lemma RowExactly(line: string)
    ensures KeyAndVal(line).Some? <==> ' ' in line
  {
  }

  // ---------------------------------------------------------------- where the trick ends

  /** The bytes of a line one byte early, up to its line break, for any units. */
  function EarlyLine(us: seq<Unit>): seq<byte> {
    [0] + ToBytes(us, false) + [13, 0]
  }

  /** The unit read in the place of `us[k]`: its low byte behind the high byte of the one before. */
  function Spilled(us: seq<Unit>, k: nat): int
    requires k < |us|
  {
    256 * (if k == 0 then 0 else us[k - 1] / 256) + us[k] % 256
  }

  predicate AllSpilled(us: seq<Unit>, units: seq<Unit>) {
    |units| == |us| && forall k :: 0 <= k < |us| ==> units[k] == Spilled(us, k)
  }

  lemma EarlyUnit(us: seq<Unit>, k: nat)
    requires k < |us|
    ensures var b := [0] + ToBytes(us, false);
      |b| == 2 * |us| + 1 && b[2 * k] == (if k == 0 then 0 else us[k - 1] / 256) && b[2 * k + 1] == us[k] % 256
  {
    ByteAt(us, false, k);
    if k > 0 {
      ByteAt(us, false, k - 1);
    }
  }

  /** Exactly the lines of characters up to U+00FF survive: a first unit beyond spills into its neighbour. */
  lemma EarlyLineExact(us: seq<Unit>)
    ensures Units(Content(EarlyLine(us)), true) == us <==> OneByte(us)
  {
    var b := [0] + ToBytes(us, false);
    UnitsOfBytes(us, false);
    EarlyContent(us);
    var units := Units(Content(EarlyLine(us)), true);
    if us != [] && us[|us| - 1] >= 256 {
      assert |units| != |us|;
    } else {
      EarlyUnits(us);
      SpillExact(us, units);
    }
  }

  /** What the reader makes of a line of any units, seen one byte early and followed by `rest`. */
  ghost predicate ReadsBack(us: seq<Unit>, rest: seq<byte>) {
    var r := ReadLine(EarlyLine(us) + [10] + rest);
    r.Line? && r.rest == rest && Units(Content(r.line), true) == us
  }

  /**
   Exactly the lines of characters up to U+00FF except the line break are read back, and nothing of the
   rest with them.
   */
  lemma ReadsBackExactly(us: seq<Unit>, rest: seq<byte>)
    requires 2 * |us| + 4 <= BUFFER
    ensures ReadsBack(us, rest) <==> forall k :: 0 <= k < |us| ==> us[k] < 256 && us[k] != 10
  {
    var l := EarlyLine(us);
    UnitsOfBytes(us, false);
    assert |l| == 2 * |us| + 3 && l[|l| - 1] == 0;
    if 10 in l {
      BreakInside(us);
      CutEarly(l, rest);
    } else {
      ReadLineAt(l, rest);
      EarlyLineExact(us);
      NoBreakInside(us);
    }
  }

  /** A byte 0x0A comes from the unit 10 or from a unit beyond U+00FF. */
  lemma BreakInside(us: seq<Unit>)
    requires 10 in EarlyLine(us)
    ensures exists k :: 0 <= k < |us| && (us[k] == 10 || us[k] >= 256)
  {
    var l := EarlyLine(us);
    UnitsOfBytes(us, false);
    hide ToBytes;
    var i :| 0 <= i < |l| && l[i] == 10;
    var k := (i - 1) / 2;
    assert 0 <= k < |us| && (i == 2 * k + 1 || i == 2 * k + 2);
    ByteAt(us, false, k);
  }

  lemma NoBreakInside(us: seq<Unit>)
    requires 10 !in EarlyLine(us)
    ensures forall k :: 0 <= k < |us| ==> us[k] != 10
  {
    forall k | 0 <= k < |us|
      ensures us[k] != 10
    {
      ByteAt(us, false, k);
      assert EarlyLine(us)[2 * k + 1] == us[k] % 256;
    }
  }

  lemma CutEarly(l: seq<byte>, rest: seq<byte>)
    requires 10 in l && |l| < BUFFER
    ensures var r := ReadLine(l + [10] + rest); r.Line? && |r.rest| > |rest|
  {
    var i :| 0 <= i < |l| && l[i] == 10;
    IndexOfAtMost(l + [10] + rest, 10, i);
  }

  lemma Below(u: Unit)
    ensures u < 256 ==> u / 256 == 0 && u % 256 == u
  {
  }

  lemma SpillExact(us: seq<Unit>, units: seq<Unit>)
    requires AllSpilled(us, units)
    ensures units == us <==> OneByte(us)
  {
    if units == us {
      AllLow(us, |us|);
    } else if OneByte(us) {
      forall k | 0 <= k < |us|
        ensures units[k] == us[k]
      {
        if k > 0 {
          Below(us[k - 1]);
        }
        Below(us[k]);
        assert units[k] == Spilled(us, k);
      }
    }
  }

  /** The CR goes with its leading zero only if the last unit left a zero there. */
  lemma EarlyContent(us: seq<Unit>)
    ensures var b := [0] + ToBytes(us, false);
      Content(EarlyLine(us)) == if us != [] && us[|us| - 1] >= 256 then b + [13] else b[..|b| - 1]
  {
    var b := [0] + ToBytes(us, false);
    if us != [] {
      ByteAt(us, false, |us| - 1);
      assert b[|b| - 1] == us[|us| - 1] / 256;
    }
    hide ToBytes, Content;
    assert EarlyLine(us) == b + [13, 0];
    TrimEnd(b);
  }

  lemma TrimEnd(b: seq<byte>)
    requires b != []
    ensures Content(b + [13, 0]) == if b[|b| - 1] == 0 then b[..|b| - 1] else b + [13]
  {
    var l, t := b + [13, 0], b + [13];
    assert l[|l| - 1..] == NUL && l[..|l| - 1] == t;
    assert t[|t| - 2..] == [b[|b| - 1], 13];
    assert t[..|t| - 2] == b[..|b| - 1];
  }

  lemma EarlyUnits(us: seq<Unit>)
    ensures var b := [0] + ToBytes(us, false); var units := Units(b[..|b| - 1], true);
      AllSpilled(us, units)
  {
    var b := [0] + ToBytes(us, false);
    UnitsOfBytes(us, false);
    forall k | 0 <= k < |us|
      ensures Units(b[..|b| - 1], true)[k] == Spilled(us, k)
    {
      EarlyUnit(us, k);
      UnitAt(b[..|b| - 1], true, k);
    }
  }

  lemma LowBehindLow(us: seq<Unit>, k: nat)
    requires AllSpilled(us, us) && k < |us| && (k > 0 ==> us[k - 1] < 256)
    ensures us[k] < 256
  {
    assert us[k] == Spilled(us, k);
    if k > 0 {
      Below(us[k - 1]);
    }
  }

  lemma {:induction false} AllLow(us: seq<Unit>, n: nat)
    requires AllSpilled(us, us) && n <= |us|
    ensures forall k :: 0 <= k < n ==> us[k] < 256
  {
    hide AllSpilled;
    if n > 0 {
      AllLow(us, n - 1);
      LowBehindLow(us, n - 1);
    }
  }
}
