/** The reader of `env` output (executor/util_unix.go), against Variables.ToStringArray. */
module UnixEnv {
  import opened Variables
  import opened EnvRows
  import opened Wrappers
  import opened Sequences

  const LINE_BREAK: char := '\n'

  /** unicode.IsSpace. */
  predicate IsSpace(c: char) {
    var v := c as int;
    || 9 <= v <= 13 || v == 0x20 || v == 0x85 || v == 0xA0 || v == 0x1680 || 0x2000 <= v <= 0x200A
    || v == 0x2028 || v == 0x2029 || v == 0x202F || v == 0x205F || v == 0x3000
  }

  function TrimFront(s: string): string {
    if s != "" && IsSpace(s[0]) then TrimFront(s[1..]) else s
  }

  function TrimBack(s: string): string {
    if s != "" && IsSpace(s[|s| - 1]) then TrimBack(s[..|s| - 1]) else s
  }

  function TrimSpace(s: string): string {
    TrimBack(TrimFront(s))
  }

  /** getEnvKeyAndValForUnix. */
  function KeyAndVal(line: string): Option<Row> {
    var index := IndexOf(line, '=');
    if index == |line| then None else Some((line[..index], line[index + 1..]))
  }

  ghost function ReadLines(data: string, filters: seq<string>, out: VarMap): VarMap
    decreases |data|
  {
    var n := IndexOf(data, LINE_BREAK);
    if n == |data| then out
    else ReadLines(data[n + 1..], filters, AddRow(KeyAndVal(TrimSpace(data[..n + 1])), filters, out))
  }

  // ---------------------------------------------------------------- what one line gives back

  predicate SpaceFirst(s: string) { s != "" && IsSpace(s[0]) }

  predicate SpaceLast(s: string) { s != "" && IsSpace(s[|s| - 1]) }

  lemma {:induction false} TrimFrontTo(s: string, rest: string)
    requires rest != "" && !IsSpace(rest[0])
    ensures TrimFront(s + rest) == TrimFront(s) + rest
  {
    if s == "" {
      assert s + rest == rest;
    } else {
      assert (s + rest)[1..] == s[1..] + rest;
      TrimFrontTo(s[1..], rest);
    }
  }

  lemma {:induction false} TrimBackTo(front: string, s: string)
    requires front != "" && !IsSpace(front[|front| - 1])
    ensures TrimBack(front + s) == front + TrimBack(s)
  {
    if s == "" {
      assert front + s == front;
    } else {
      assert (front + s)[..|front + s| - 1] == front + s[..|s| - 1];
      TrimBackTo(front, s[..|s| - 1]);
    }
  }

  lemma {:induction false} Trimmed(s: string)
    ensures TrimFront(s) == s <==> !SpaceFirst(s)
    ensures TrimBack(s) == s <==> !SpaceLast(s)
    ensures |TrimFront(s)| <= |s| && |TrimBack(s)| <= |s|
    ensures '=' in TrimFront(s) <==> '=' in s
    decreases |s|
  {
    if SpaceFirst(s) {
      Trimmed(s[1..]);
    }
    if SpaceLast(s) {
      Trimmed(s[..|s| - 1]);
    }
  }

  lemma FirstEquals(k: string, v: string)
    requires '=' !in k
    ensures KeyAndVal(k + "=" + v) == Some((k, v))
  {
    IndexOfFirst(k, '=', v);
    var s := k + ['='] + v;
    assert s == k + "=" + v && s[..|k|] == k && s[|k| + 1..] == v;
  }

  /** Exactly which entries a line gives back unchanged. */
  lemma EntryReadBack(k: string, v: string)
    ensures KeyAndVal(TrimSpace(k + "=" + v + "\n")) == Some((k, v)) <==>
      '=' !in k && !SpaceFirst(k) && !SpaceLast(v)
  {
    var tail := "=" + v + "\n";
    assert k + "=" + v + "\n" == k + tail;
    TrimFrontTo(k, tail);
    var k', v' := TrimFront(k), TrimBack(v);
    assert (v + "\n")[..|v + "\n"| - 1] == v;
    TrimBackTo(k' + "=", v + "\n");
    assert k' + tail == k' + "=" + (v + "\n");
    Trimmed(k);
    Trimmed(v);
    if '=' !in k {
      FirstEquals(k', v');
    } else {
      var row := KeyAndVal(k' + "=" + v');
      assert row.Some? ==> '=' !in row.value.0;
    }
  }

  /** The characters unicode.IsSpace knows. */
  const SPACES := "\t\n\U{B}\U{C}\r \U{85}\U{A0}\U{1680}\U{2000}\U{2001}\U{2002}\U{2003}\U{2004}\U{2005}"
    + "\U{2006}\U{2007}\U{2008}\U{2009}\U{200A}\U{2028}\U{2029}\U{202F}\U{205F}\U{3000}"

  lemma {:induction false} OnlySpaces(s: string)
    requires forall i :: 0 <= i < |s| ==> s[i] in SPACES
    ensures TrimFront(s) == "" && TrimBack(s) == ""
    decreases |s|
  {
    if s != "" {
      OnlySpaces(s[1..]);
      OnlySpaces(s[..|s| - 1]);
    }
  }

  lemma SpacesAre(c: char)
    ensures IsSpace(c) <==> c in SPACES
  {
  }

  /**
   Spaces around an entry go, and no more than these: a key without `=` and without a space in front
   comes back, and so does a value without one at its end.
   */
  lemma OuterSpacesGo(l: string, k: string, v: string, r: string)
    requires forall c :: c in l + r ==> c in SPACES
    requires '=' !in k && (k == "" || k[0] !in SPACES) && (v == "" || v[|v| - 1] !in SPACES)
    ensures KeyAndVal(TrimSpace(l + (k + "=" + v) + r)) == Some((k, v))
  {
    var e := k + "=" + v;
    SpacesAre(e[0]);
    SpacesAre(e[|e| - 1]);
    assert forall i :: 0 <= i < |l| ==> l[i] in l + r;
    assert forall i :: 0 <= i < |r| ==> r[i] in l + r;
    OnlySpaces(l);
    OnlySpaces(r);
    assert l + e + r == l + (e + r) && (e + r)[0] == e[0];
    TrimFrontTo(l, e + r);
    TrimBackTo(e, r);
    assert "" + (e + r) == e + r && e + "" == e;
    FirstEquals(k, v);
  }

  /** A line gives a row if and only if it has an `=`; and untrimmed, an entry splits where its key ends. */
  lemma RowExactly(line: string)
    ensures KeyAndVal(TrimSpace(line)).Some? <==> '=' in line
  {
    Trimmed(line);
    KeepsEquals(TrimFront(line));
  }

  lemma {:induction false} KeepsEquals(s: string)
    ensures '=' in TrimBack(s) <==> '=' in s
    decreases |s|
  {
    if SpaceLast(s) {
      KeepsEquals(s[..|s| - 1]);
      assert s == s[..|s| - 1] + [s[|s| - 1]];
    }
  }

  /** What ToStringArray lists is the key, one `=` and the value, outer spaces of the value included. */
  lemma EntrySplits(k: string, m: VarMap)
    requires k in m && '=' !in k
    ensures KeyAndVal(Entry(k, m)) == Some((k, m[k]))
  {
    FirstEquals(k, m[k]);
  }

  // ---------------------------------------------------------------- the reader

  /** The text between line breaks, without what follows the last of them. */
  function CompleteLines(data: string): seq<string> {
    var pieces := Split(data, LINE_BREAK);
    pieces[..|pieces| - 1]
  }

  function RowsOf(lines: seq<string>): seq<Option<Row>> {
    seq(|lines|, i requires 0 <= i < |lines| => KeyAndVal(TrimSpace(lines[i])))
  }

  lemma {:induction false} SplitFirst(data: string)
    ensures var n := IndexOf(data, LINE_BREAK);
      Split(data, LINE_BREAK)
      == if n == |data| then [data] else [data[..n]] + Split(data[n + 1..], LINE_BREAK)
  {
    var n := IndexOf(data, LINE_BREAK);
    SplitWhole(data[..n], LINE_BREAK);
    if n < |data| {
      assert data == data[..n] + [LINE_BREAK] + data[n + 1..];
      SplitConcat(data[..n], LINE_BREAK, data[n + 1..]);
    } else {
      assert data[..n] == data;
    }
  }

  /** The line break itself is a space. */
  lemma TrimLineBreak(line: string)
    ensures TrimSpace(line + "\n") == TrimSpace(line)
  {
    TrimFrontBreak(line);
    var s := TrimFront(line);
    assert (s + "\n")[..|s + "\n"| - 1] == s;
  }

  lemma {:induction false} TrimFrontBreak(line: string)
    ensures TrimFront(line + "\n") == if TrimFront(line) == "" then "" else TrimFront(line) + "\n"
  {
    if line == "" {
      assert line + "\n" == "\n" && "\n"[1..] == "";
    } else {
      assert (line + "\n")[1..] == line[1..] + "\n";
      if IsSpace(line[0]) {
        TrimFrontBreak(line[1..]);
      }
    }
  }

  /** Reading collects the rows of the complete lines, in order. */
  lemma {:induction false} LinesAreRows(data: string, filters: seq<string>, out: VarMap)
    ensures ReadLines(data, filters, out) == AddRows(RowsOf(CompleteLines(data)), filters, out)
    decreases |data|
  {
    var n := IndexOf(data, LINE_BREAK);
    SplitFirst(data);
    if n == |data| {
      assert CompleteLines(data) == [];
    } else {
      var line, rest := data[..n], data[n + 1..];
      assert data[..n + 1] == line + "\n";
      TrimLineBreak(line);
      var row := KeyAndVal(TrimSpace(line));
      LinesAreRows(rest, filters, AddRow(row, filters, out));
      LinesCons(data, line, rest);
    }
  }

  lemma LinesCons(data: string, line: string, rest: string)
    requires Split(data, LINE_BREAK) == [line] + Split(rest, LINE_BREAK)
    ensures var rows := RowsOf(CompleteLines(data));
      rows != [] && rows[0] == KeyAndVal(TrimSpace(line)) && rows[1..] == RowsOf(CompleteLines(rest))
  {
    var pieces := Split(rest, LINE_BREAK);
    assert ([line] + pieces)[..|pieces|] == [line] + pieces[..|pieces| - 1];
    assert CompleteLines(data)[1..] == CompleteLines(rest);
  }

  /** readEnvFromReaderForUnix: the rows of all complete lines, in order; text after the last line break is dropped. */
  method ReadEnvFromReaderForUnix(data: string, filters: seq<string>) returns (output: VarMap)
    ensures output == AddRows(RowsOf(CompleteLines(data)), filters, DEFAULT_VARS)
  {
    LinesAreRows(data, filters, DEFAULT_VARS);
    output := DEFAULT_VARS;
    var rest := data;
    while true
      invariant ReadLines(rest, filters, output) == ReadLines(data, filters, DEFAULT_VARS)
      decreases |rest|
    {
      var n := IndexOf(rest, LINE_BREAK);
      if n == |rest| {
        return;
      }
      var line := TrimSpace(rest[..n + 1]);
      var row := KeyAndVal(line);
      if row.Some? {
        var passes := MatchEnvFilter(row.value.0, filters);
        if passes {
          output := output[row.value.0 := row.value.1];
        }
      }
      rest := rest[n + 1..];
    }
  }

  // ---------------------------------------------------------------- the round trip

  function Lines(entries: seq<string>): string {
    if entries == [] then "" else entries[0] + "\n" + Lines(entries[1..])
  }

  predicate Readable(k: string, v: string) {
    && '=' !in k && !SpaceFirst(k) && !SpaceLast(v)
    && LINE_BREAK !in k && LINE_BREAK !in v
  }

  lemma ReadOneLine(k: string, v: string, rest: string, filters: seq<string>, out: VarMap)
    requires Readable(k, v)
    ensures ReadLines(k + "=" + v + "\n" + rest, filters, out)
      == ReadLines(rest, filters, AddRow(Some((k, v)), filters, out))
  {
    var line := k + "=" + v;
    var data := line + "\n" + rest;
    IndexOfFirst(line, LINE_BREAK, rest);
    assert data[..|line| + 1] == line + "\n" && data[|line| + 1..] == rest;
    EntryReadBack(k, v);
  }

  ghost function Chosen(keys: seq<string>, m: VarMap, filters: seq<string>): VarMap {
    map k | k in keys && k in m && Passes(k, filters) :: m[k]
  }

  lemma {:induction false} ReadListing(order: seq<string>, m: VarMap, filters: seq<string>, out: VarMap)
    requires forall k :: k in order ==> k in m && Readable(k, m[k])
    requires forall i, j :: 0 <= i < j < |order| ==> order[i] != order[j]
    ensures ReadLines(Lines(Entries(order, m)), filters, out) == out + Chosen(order, m, filters)
  {
    if order == [] {
      assert out + Chosen(order, m, filters) == out;
    } else {
      var k := order[0];
      ReadOneLine(k, m[k], Lines(Entries(order[1..], m)), filters, out);
      ReadListing(order[1..], m, filters, AddRow(Some((k, m[k])), filters, out));
      ChosenCons(order, m, filters, out);
    }
  }

  lemma ChosenCons(order: seq<string>, m: VarMap, filters: seq<string>, out: VarMap)
    requires order != [] && order[0] in m && order[0] !in order[1..]
    ensures AddRow(Some((order[0], m[order[0]])), filters, out) + Chosen(order[1..], m, filters)
      == out + Chosen(order, m, filters)
  {
    assert order == [order[0]] + order[1..];
  }

  /**
   A variable map written with ToStringArray, one entry a line, and read back gives the
   default map overlaid with the entries that match a filter, in whatever order it was written.
   */
  lemma WriteThenRead(order: seq<string>, m: VarMap, filters: seq<string>)
    requires Ordering(order, m) && (forall k :: k in m ==> Readable(k, m[k]))
    ensures ReadLines(Lines(Entries(order, m)), filters, DEFAULT_VARS)
      == DEFAULT_VARS + map k | k in m && Passes(k, filters) :: m[k]
  {
    ReadListing(order, m, filters, DEFAULT_VARS);
    assert Chosen(order, m, filters) == map k | k in m && Passes(k, filters) :: m[k];
  }
}
