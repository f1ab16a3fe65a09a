/** What both environment readers share (executor/util.go): filters and the collected map. */
module EnvRows {
  import opened Wrappers
  import opened Variables

  type Row = (string, string)

  ghost predicate StartsWith(s: string, front: string) {
    exists rest :: s == front + rest
  }

  /** A key passes if it starts with one of the filters. */
  ghost predicate Passes(key: string, filters: seq<string>) {
    exists f :: f in filters && StartsWith(key, f)
  }

  method MatchEnvFilter(env: string, filters: seq<string>) returns (r: bool)
    ensures r <==> exists f, rest :: f in filters && env == f + rest
    ensures r <==> Passes(env, filters)
  {
    for i := 0 to |filters|
      invariant forall k :: 0 <= k < i ==> !StartsWith(env, filters[k])
    {
      PrefixIsFront(env, filters[i]);
      if filters[i] <= env {
        assert env == filters[i] + env[|filters[i]|..];
        return true;
      }
    }
    return false;
  }

  lemma PrefixIsFront(s: string, front: string)
    ensures front <= s <==> StartsWith(s, front)
  {
    if front <= s {
      assert s == front + s[|front|..];
    }
  }

  /** Whatever follows it, a filter lets a key through that starts with it; and nothing else does. */
  lemma PassesExactly(filters: seq<string>)
    ensures forall f, rest :: f in filters ==> Passes(f + rest, filters)
    ensures forall key :: Passes(key, filters) ==> exists f, rest :: f in filters && key == f + rest
    ensures forall key :: Passes(key, filters) <==> exists n: nat :: n <= |key| && key[..n] in filters
  {
    forall f, rest | f in filters
      ensures Passes(f + rest, filters)
    {
      assert StartsWith(f + rest, f);
    }
    forall key
      ensures Passes(key, filters) <==> exists n: nat :: n <= |key| && key[..n] in filters
    {
      if Passes(key, filters) {
        var f :| f in filters && StartsWith(key, f);
        assert key[..|f|] == f;
      }
      if n: nat :| n <= |key| && key[..n] in filters {
        assert key == key[..n] + key[n..];
      }
    }
  }

  /** So of the rows whose key starts with a filter, the last with each key is in the output. */
  lemma ExportedRows(rows: seq<Option<Row>>, filters: seq<string>, out: VarMap, f: string, rest: string)
    requires f in filters && LastValue(rows, f + rest).Some?
    ensures var r := AddRows(rows, filters, out);
      f + rest in r && r[f + rest] == LastValue(rows, f + rest).value
  {
    PassesExactly(filters);
    LastRowWins(rows, filters, out, f + rest);
  }

  /** The output after one parsed line: a row passes when its key matches a filter. */
  ghost function AddRow(row: Option<Row>, filters: seq<string>, out: VarMap): VarMap {
    if row.Some? && Passes(row.value.0, filters) then out[row.value.0 := row.value.1] else out
  }

  ghost function AddRows(rows: seq<Option<Row>>, filters: seq<string>, out: VarMap): VarMap {
    if rows == [] then out else AddRows(rows[1..], filters, AddRow(rows[0], filters, out))
  }

  /** The value of the last row with this key, looked for from the back. */
  function LastValue(rows: seq<Option<Row>>, key: string): Option<string> {
    if rows == [] then None
    else
      var last := rows[|rows| - 1];
      if last.Some? && last.value.0 == key then Some(last.value.1) else LastValue(rows[..|rows| - 1], key)
  }

  lemma {:induction false} AddRowsSnoc(rows: seq<Option<Row>>, row: Option<Row>, filters: seq<string>, out: VarMap)
    ensures AddRows(rows + [row], filters, out) == AddRow(row, filters, AddRows(rows, filters, out))
  {
    if rows == [] {
      assert [row][1..] == [] && rows + [row] == [row];
    } else {
      assert (rows + [row])[1..] == rows[1..] + [row];
      AddRowsSnoc(rows[1..], row, filters, AddRow(rows[0], filters, out));
    }
  }

  /** Exactly the rows that pass a filter end up in the output, and of equal keys the last wins. */
  lemma {:induction false} LastRowWins(rows: seq<Option<Row>>, filters: seq<string>, out: VarMap, key: string)
    ensures var r := AddRows(rows, filters, out); var last := LastValue(rows, key);
      if last.Some? && Passes(key, filters) then key in r && r[key] == last.value
      else (key in r <==> key in out) && (key in r ==> r[key] == out[key])
  {
    if rows != [] {
      var front, row := rows[..|rows| - 1], rows[|rows| - 1];
      assert rows == front + [row];
      LastRowWins(front, filters, out, key);
      AddRowsSnoc(front, row, filters, out);
    }
  }
}
