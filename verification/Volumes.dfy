/** The volume list of an agent, as text (domain/docker.go, NewVolumesFromString). */
module Volumes {
  import opened Sequences

  datatype Volume = Volume(name: string, dest: string, script: string, image: string, init: string)

  /** The source panics on malformed text. */
  datatype Result<+T> = Ok(value: T) | Panic {
    predicate IsFailure() { Panic? }

    function PropagateFailure<U>(): Result<U>
      requires Panic?
    {
      Panic
    }

    function Extract(): T
      requires Ok?
    {
      value
    }
  }

  function GetValue(field: string): Result<string> {
    var pair := Split(field, '=');
    if |pair| != 2 then Panic else Ok(pair[1])
  }

  function ParseVolume(token: string): Result<Volume> {
    var fields := Split(token, ',');
    if |fields| != 5 then Panic
    else
      var name :- GetValue(fields[0]);
      var dest :- GetValue(fields[1]);
      var script :- GetValue(fields[2]);
      var image :- GetValue(fields[3]);
      var init :- GetValue(fields[4]);
      Ok(Volume(name, dest, script, image, init))
  }

  /** Empty tokens are skipped; one bad token fails the whole text. */
  function ParseTokens(tokens: seq<string>): Result<seq<Volume>> {
    if tokens == [] then Ok([])
    else if tokens[0] == "" then ParseTokens(tokens[1..])
    else
      var v :- ParseVolume(tokens[0]);
      var rest :- ParseTokens(tokens[1..]);
      Ok([v] + rest)
  }

  function Parse(val: string): Result<seq<Volume>> {
    ParseTokens(Split(val, ';'))
  }

  method NewVolumesFromString(val: string) returns (result: Result<seq<Volume>>)
    ensures result == Parse(val)
  {
    var volumes := [];
    if val == "" {
      return Ok(volumes);
    }
    var tokens := Split(val, ';');
    assert tokens[0..] == tokens;
    PrependNone(Parse(val));
    for i := 0 to |tokens|
      invariant Parse(val) == Prepend(volumes, ParseTokens(tokens[i..]))
    {
      assert tokens[i..][1..] == tokens[i + 1..];
      if tokens[i] == "" {
        continue;
      }
      var v := ParseVolume(tokens[i]);
      if v.Panic? {
        return Panic;
      }
      PrependOne(volumes, v.value, ParseTokens(tokens[i + 1..]));
      volumes := volumes + [v.value];
    }
    assert tokens[|tokens|..] == [] && volumes + [] == volumes;
    return Ok(volumes);
  }

  function Prepend(front: seq<Volume>, rest: Result<seq<Volume>>): Result<seq<Volume>> {
    match rest
    case Ok(vs) => Ok(front + vs)
    case Panic => Panic
  }

  lemma PrependNone(rest: Result<seq<Volume>>)
    ensures Prepend([], rest) == rest
  {
    if rest.Ok? {
      assert [] + rest.value == rest.value;
    }
  }

  lemma PrependOne(front: seq<Volume>, v: Volume, rest: Result<seq<Volume>>)
    ensures Prepend(front, Prepend([v], rest)) == Prepend(front + [v], rest)
  {
    if rest.Ok? {
      assert front + ([v] + rest.value) == front + [v] + rest.value;
    }
  }

  // ---------------------------------------------------------------- printing and parsing

  predicate Clean(s: string) {
    ',' !in s && ';' !in s && '=' !in s
  }

  predicate CleanVolume(v: Volume) {
    Clean(v.name) && Clean(v.dest) && Clean(v.script) && Clean(v.image) && Clean(v.init)
  }

  function Field(key: string, val: string): string {
    key + "=" + val
  }

  function Print(v: Volume): string {
    Field("name", v.name) + "," + (Field("dest", v.dest) + "," + (Field("script", v.script) + ","
    + (Field("image", v.image) + "," + Field("init", v.init))))
  }

  function PrintAll(vs: seq<Volume>): string {
    if vs == [] then ""
    else if |vs| == 1 then Print(vs[0])
    else Print(vs[0]) + ";" + PrintAll(vs[1..])
  }

  lemma FieldValue(key: string, val: string)
    requires '=' !in key && '=' !in val
    ensures GetValue(Field(key, val)) == Ok(val)
  {
    SplitConcat(key, '=', val);
    SplitWhole(key, '=');
    SplitWhole(val, '=');
  }

  lemma OneField(field: string, rest: string)
    requires ',' !in field
    ensures Split(field + "," + rest, ',') == [field] + Split(rest, ',')
  {
    SplitConcat(field, ',', rest);
    SplitWhole(field, ',');
  }

  lemma PrintedFields(v: Volume)
    requires CleanVolume(v)
    ensures Split(Print(v), ',')
      == [Field("name", v.name), Field("dest", v.dest), Field("script", v.script), Field("image", v.image),
          Field("init", v.init)]
  {
    var e := Field("init", v.init);
    var d := Field("image", v.image) + "," + e;
    var c := Field("script", v.script) + "," + d;
    var b := Field("dest", v.dest) + "," + c;
    SplitWhole(e, ',');
    OneField(Field("image", v.image), e);
    OneField(Field("script", v.script), d);
    OneField(Field("dest", v.dest), c);
    OneField(Field("name", v.name), b);
  }

  lemma VolumeReadBack(v: Volume)
    requires CleanVolume(v)
    ensures ParseVolume(Print(v)) == Ok(v)
  {
    PrintedFields(v);
    FieldValue("name", v.name);
    FieldValue("dest", v.dest);
    FieldValue("script", v.script);
    FieldValue("image", v.image);
    FieldValue("init", v.init);
  }

  lemma ParseLast(v: Volume)
    requires CleanVolume(v)
    ensures Parse(Print(v)) == Ok([v])
  {
    VolumeReadBack(v);
    SplitWhole(Print(v), ';');
    assert [Print(v)][1..] == [] && [v] + [] == [v];
    hide Print;
    assert ParseTokens([Print(v)]) == Ok([v] + []);
  }

  lemma ParseNext(v: Volume, rest: string)
    requires CleanVolume(v)
    ensures Parse(Print(v) + ";" + rest) == Prepend([v], Parse(rest))
  {
    VolumeReadBack(v);
    SplitWhole(Print(v), ';');
    SplitConcat(Print(v), ';', rest);
    hide Print, Split, ParseVolume;
    var tokens := Split(Print(v) + ";" + rest, ';');
    assert tokens == [Print(v)] + Split(rest, ';') && tokens[1..] == Split(rest, ';');
  }

  lemma {:induction false} ParsePrinted(vs: seq<Volume>)
    requires forall i :: 0 <= i < |vs| ==> CleanVolume(vs[i])
    ensures Parse(PrintAll(vs)) == Ok(vs)
  {
    hide Print, ParseVolume, CleanVolume;
    if vs == [] {
      assert Split("", ';')[1..] == [];
    } else if |vs| == 1 {
      ParseLast(vs[0]);
      assert vs == [vs[0]];
    } else {
      ParseNext(vs[0], PrintAll(vs[1..]));
      ParsePrinted(vs[1..]);
      assert vs == [vs[0]] + vs[1..];
    }
  }

  lemma FieldIsClean(token: string, i: nat)
    requires ';' !in token && i < |Split(token, ',')| && GetValue(Split(token, ',')[i]).Ok?
    ensures Clean(GetValue(Split(token, ',')[i]).value)
  {
    var field := Split(token, ',')[i];
    PiecesAreFree(token, ',', ',', i);
    PiecesAreFree(token, ',', ';', i);
    PiecesAreFree(field, '=', ',', 1);
    PiecesAreFree(field, '=', ';', 1);
    PiecesAreFree(field, '=', '=', 1);
  }

  /** Whatever parses has clean fields. */
  lemma {:induction false} ParsedIsClean(tokens: seq<string>)
    requires ParseTokens(tokens).Ok? && (forall i :: 0 <= i < |tokens| ==> ';' !in tokens[i])
    ensures forall i :: 0 <= i < |ParseTokens(tokens).value| ==> CleanVolume(ParseTokens(tokens).value[i])
  {
    if tokens != [] {
      ParsedIsClean(tokens[1..]);
      if tokens[0] != "" {
        FieldIsClean(tokens[0], 0);
        FieldIsClean(tokens[0], 1);
        FieldIsClean(tokens[0], 2);
        FieldIsClean(tokens[0], 3);
        FieldIsClean(tokens[0], 4);
      }
    }
  }

  /** Printing and parsing gives the list back exactly when no field holds a separator. */
  lemma VolumesRoundTrip(vs: seq<Volume>)
    ensures Parse(PrintAll(vs)) == Ok(vs) <==> forall i :: 0 <= i < |vs| ==> CleanVolume(vs[i])
  {
    if forall i :: 0 <= i < |vs| ==> CleanVolume(vs[i]) {
      ParsePrinted(vs);
    } else if Parse(PrintAll(vs)) == Ok(vs) {
      var tokens := Split(PrintAll(vs), ';');
      forall i | 0 <= i < |tokens|
        ensures ';' !in tokens[i]
      {
        PiecesAreFree(PrintAll(vs), ';', ';', i);
      }
      ParsedIsClean(tokens);
    }
  }

  lemma {:induction false} SkipEmptyToken(front: seq<string>, back: seq<string>)
    ensures ParseTokens(front + [""] + back) == ParseTokens(front + back)
  {
    if front == [] {
      assert (front + [""] + back)[1..] == back && front + back == back;
    } else {
      assert (front + [""] + back)[1..] == front[1..] + [""] + back;
      assert (front + back)[1..] == front[1..] + back;
      SkipEmptyToken(front[1..], back);
    }
  }

  /** An empty segment changes nothing, at the front, at the end or between others, whatever these are. */
  lemma EmptySegment(a: string, b: string)
    ensures Parse(a + ";" + (";" + b)) == Parse(a + ";" + b)
    ensures Parse(";" + b) == Parse(b) && Parse(a + ";") == Parse(a)
  {
    EmptyInside(a, b);
    EmptyAtFront(b);
    EmptyAtEnd(a);
  }

  lemma EmptyInside(a: string, b: string)
    ensures Parse(a + ";" + (";" + b)) == Parse(a + ";" + b)
  {
    SplitConcat(a, ';', b);
    SplitConcat(a, ';', ";" + b);
    assert "" + [';'] + b == ";" + b;
    SplitConcat("", ';', b);
    hide Split, ParseTokens;
    SkipEmptyToken(Split(a, ';'), Split(b, ';'));
    assert Split(a, ';') + ([""] + Split(b, ';')) == Split(a, ';') + [""] + Split(b, ';');
  }

  lemma EmptyAtFront(b: string)
    ensures Parse(";" + b) == Parse(b)
  {
    var pieces := Split(b, ';');
    assert (";" + b)[0] == ';' && (";" + b)[1..] == b;
    assert Split(";" + b, ';') == [""] + pieces;
    hide Split, ParseVolume;
    assert ([""] + pieces)[1..] == pieces;
  }

  lemma EmptyAtEnd(a: string)
    ensures Parse(a + ";") == Parse(a)
  {
    SplitConcat(a, ';', "");
    SplitWhole("", ';');
    assert a + [';'] + "" == a + ";";
    hide Split, ParseTokens;
    SkipEmptyToken(Split(a, ';'), []);
    assert Split(a, ';') + [""] + [] == Split(a, ';') + [""] && Split(a, ';') + [] == Split(a, ';');
  }

  // ---------------------------------------------------------------- what is malformed

  /** Five fields, each one key and one value. */
  predicate WellFormed(token: string) {
    var fields := Split(token, ',');
    |fields| == 5 && forall i :: 0 <= i < 5 ==> |Split(fields[i], '=')| == 2
  }

  predicate SomeMalformed(segments: seq<string>) {
    exists i :: 0 <= i < |segments| && segments[i] != "" && !WellFormed(segments[i])
  }

  lemma {:induction false} TokensPanic(tokens: seq<string>)
    ensures ParseTokens(tokens) == Panic <==> SomeMalformed(tokens)
  {
    if tokens != [] {
      TokensPanic(tokens[1..]);
      assert tokens[0] != "" ==> (ParseVolume(tokens[0]) == Panic <==> !WellFormed(tokens[0]));
      if i :| 0 <= i < |tokens| && tokens[i] != "" && !WellFormed(tokens[i]) && i > 0 {
        assert tokens[1..][i - 1] == tokens[i];
      }
      if i :| 0 <= i < |tokens[1..]| && tokens[1..][i] != "" && !WellFormed(tokens[1..][i]) {
        assert tokens[i + 1] == tokens[1..][i];
      }
    }
  }

  /** The text is refused if and only if some segment is neither empty nor five fields of one key and one value. */
  lemma PanicsExactly(val: string)
    ensures Parse(val) == Panic <==> SomeMalformed(Split(val, ';'))
  {
    TokensPanic(Split(val, ';'));
  }

  /** The names of the keys are not looked at, only their order counts. */
  lemma KeysAreIgnored(keys: seq<string>, v: Volume)
    requires |keys| == 5 && (forall i :: 0 <= i < 5 ==> Clean(keys[i])) && CleanVolume(v)
    ensures ParseVolume(Field(keys[0], v.name) + "," + (Field(keys[1], v.dest) + "," + (Field(keys[2], v.script) + ","
      + (Field(keys[3], v.image) + "," + Field(keys[4], v.init))))) == Ok(v)
  {
    var e := Field(keys[4], v.init);
    var d := Field(keys[3], v.image) + "," + e;
    var c := Field(keys[2], v.script) + "," + d;
    var b := Field(keys[1], v.dest) + "," + c;
    SplitWhole(e, ',');
    OneField(Field(keys[3], v.image), e);
    OneField(Field(keys[2], v.script), d);
    OneField(Field(keys[1], v.dest), c);
    OneField(Field(keys[0], v.name), b);
    FieldValue(keys[0], v.name);
    FieldValue(keys[1], v.dest);
    FieldValue(keys[2], v.script);
    FieldValue(keys[3], v.image);
    FieldValue(keys[4], v.init);
  }
}
