/**
 The log of a command (executor/executor.go, executor/docker_util.go, service/cmd_service.go):
 writer goroutines that strip Docker headers and encode what they read, single lines from the
 retry loop, the bounded channel, and the consumer that decodes into the log file.
 */
module LogPipeline {
  import opened Bytes
  import opened Wrappers
  import Base64

  const CHANNEL_CAPACITY := 1000
  const READ_BUFFER := 8 * 1024
  const HEADER_SIZE := 8
  const STDOUT_PREFIX: seq<byte> := [1, 0, 0, 0]
  const STDERR_PREFIX: seq<byte> := [2, 0, 0, 0]

  function RemoveDockerHeader(chunk: seq<byte>): seq<byte> {
    if |chunk| < HEADER_SIZE then chunk
    else if chunk[..4] == STDOUT_PREFIX then chunk[HEADER_SIZE..]
    else if chunk[..4] == STDERR_PREFIX then chunk[HEADER_SIZE..]
    else chunk
  }

  /**
   A chunk loses exactly its first eight bytes or none, and none exactly when it is short or carries
   neither prefix.
   */
  lemma HeaderRemovedExactly(chunk: seq<byte>)
    ensures RemoveDockerHeader(chunk) == chunk
      <==> |chunk| < 8 || !([1, 0, 0, 0] <= chunk || [2, 0, 0, 0] <= chunk)
    ensures RemoveDockerHeader(chunk) != chunk ==>
      exists h: seq<byte> :: |h| == 8 && chunk == h + RemoveDockerHeader(chunk)
  {
    assert |chunk| >= 4 ==> (chunk[..4] == STDOUT_PREFIX <==> STDOUT_PREFIX <= chunk);
    assert |chunk| >= 4 ==> (chunk[..4] == STDERR_PREFIX <==> STDERR_PREFIX <= chunk);
    if |chunk| >= HEADER_SIZE {
      assert chunk == chunk[..HEADER_SIZE] + chunk[HEADER_SIZE..];
    }
  }

  /** A frame of Docker's attach stream: the stream's number, three zeros, the payload's length. */
  datatype Frame = Frame(stderr: bool, size: seq<byte>, payload: seq<byte>)

  predicate IsFrame(f: Frame) {
    |f.size| == 4
  }

  function Raw(f: Frame): seq<byte> {
    [if f.stderr then 2 else 1, 0, 0, 0] + f.size + f.payload
  }

  function RawAll(fs: seq<Frame>): seq<byte> {
    if fs == [] then [] else Raw(fs[0]) + RawAll(fs[1..])
  }

  function PayloadAll(fs: seq<Frame>): seq<byte> {
    if fs == [] then [] else fs[0].payload + PayloadAll(fs[1..])
  }

  lemma {:induction false} RawIsLonger(fs: seq<Frame>)
    requires forall f :: f in fs ==> IsFrame(f)
    ensures |RawAll(fs)| == |PayloadAll(fs)| + 8 * |fs|
  {
    if fs != [] {
      assert fs[0] in fs && forall f :: f in fs[1..] ==> f in fs;
      RawIsLonger(fs[1..]);
    }
  }

  lemma FirstHeader(f: Frame, rest: seq<byte>)
    requires IsFrame(f)
    ensures RemoveDockerHeader(Raw(f) + rest) == f.payload + rest
  {
    var p := if f.stderr then STDERR_PREFIX else STDOUT_PREFIX;
    var chunk := Raw(f) + rest;
    assert chunk == p + f.size + (f.payload + rest);
    assert chunk[..4] == p && chunk[HEADER_SIZE..] == f.payload + rest;
  }

  /**
   A read of whole frames is logged as their payloads if and only if it is one frame at most; other
   headers stay in.
   */
  lemma OneFrameExactly(fs: seq<Frame>)
    requires forall f :: f in fs ==> IsFrame(f)
    ensures RemoveDockerHeader(RawAll(fs)) == PayloadAll(fs) <==> |fs| <= 1
  {
    if fs != [] {
      assert fs[0] in fs && forall f :: f in fs[1..] ==> f in fs;
      RawIsLonger(fs[1..]);
      FirstHeader(fs[0], RawAll(fs[1..]));
    }
  }

  /** Reading: at the top of its loop. Holding: a chunk is read, not sent. Counting: sent, LogSize not yet raised. */
  datatype Place = Reading | Holding | Counting | Gone

  datatype Writer = Writer(counted: bool, at: Place, chunks: seq<seq<byte>>, sends: nat)

  datatype Entry = Entry(from: Option<nat>, payload: seq<byte>)

  datatype State = State(
    writers: seq<Writer>,
    credit: nat,                   // added to the wait group for writers not started (yet)
    wg: int,                       // the wait group's counter
    queue: seq<string>,            // the stdout channel
    closed: bool,
    sent: seq<Entry>,              // everything ever sent on the channel
    taken: nat,                    // how many of them the consumer has received
    file: seq<byte>,
    logSize: nat
  )

  const INIT := State([], 0, 0, [], false, [], 0, [], 0)

  datatype Event =
    | Add(n: nat) | Spawn(counted: bool) | Read(w: nat, chunk: seq<byte>) | ReadEnds(w: nat)
    | SendChunk(w: nat) | SendPanics(w: nat) | Count(w: nat)
    | Single(line: seq<byte>) | Take | Close

  predicate At(s: State, w: nat, p: Place) {
    w < |s.writers| && s.writers[w].at == p
  }

  predicate Enabled(s: State, e: Event) {
    match e
    case Add(_) => true
    case Spawn(counted) => counted ==> s.credit > 0
    case Read(w, chunk) => At(s, w, Reading) && |chunk| <= READ_BUFFER
    case ReadEnds(w) => At(s, w, Reading)
    case SendChunk(w) =>
      At(s, w, Holding) && s.writers[w].sends < |s.writers[w].chunks| && !s.closed && |s.queue| < CHANNEL_CAPACITY
    case SendPanics(w) => At(s, w, Holding) && s.closed
    case Count(w) => At(s, w, Counting) && 0 < s.writers[w].sends <= |s.writers[w].chunks|
    case Single(_) => !s.closed && |s.queue| < CHANNEL_CAPACITY
    case Take => s.queue != []
    case Close => !s.closed
  }

  function Set(s: State, w: nat, writer: Writer): State
    requires w < |s.writers|
  {
    s.(writers := s.writers[w := writer])
  }

  /** The deferred part of a writer: it ends, and is counted off if it was counted. */
  function Leave(s: State, w: nat): State
    requires w < |s.writers|
  {
    Set(s, w, s.writers[w].(at := Gone)).(wg := if s.writers[w].counted then s.wg - 1 else s.wg)
  }

  function Push(s: State, x: Entry): State {
    s.(queue := s.queue + [Base64.Encode(x.payload)], sent := s.sent + [x])
  }

  function Step(s: State, e: Event): State
    requires Enabled(s, e)
  {
    match e
    case Add(n) => s.(credit := s.credit + n, wg := s.wg + n)
    case Spawn(counted) =>
      s.(writers := s.writers + [Writer(counted, Reading, [], 0)], credit := if counted then s.credit - 1 else s.credit)
    case Read(w, chunk) => Set(s, w, s.writers[w].(at := Holding, chunks := s.writers[w].chunks + [chunk]))
    case ReadEnds(w) => Leave(s, w)
    case SendChunk(w) =>
      var x := s.writers[w];
      Push(Set(s, w, x.(at := Counting, sends := x.sends + 1)), Entry(Some(w), RemoveDockerHeader(x.chunks[x.sends])))
    case SendPanics(w) => Leave(s, w)
    case Count(w) =>
      var x := s.writers[w];
      Set(s, w, x.(at := Reading)).(logSize := s.logSize + |x.chunks[x.sends - 1]|)
    case Single(line) => Push(s, Entry(None, line + [10]))
    case Take =>
      var log := Base64.Decode(s.queue[0]);
      s.(queue := s.queue[1..], taken := s.taken + 1, file := s.file + if log.Some? then log.value else [])
    case Close => s.(closed := true)
  }

  ghost predicate Reaches(s: State, es: seq<Event>, t: State)
    decreases |es|
  {
    if es == [] then s == t
    else Enabled(s, es[0]) && Reaches(Step(s, es[0]), es[1..], t)
  }

  // ---------------------------------------------------------------- the channel and the file

  function Payloads(sent: seq<Entry>, n: nat): seq<byte>
    requires n <= |sent|
  {
    if n == 0 then [] else Payloads(sent, n - 1) + sent[n - 1].payload
  }

  lemma {:induction false} PayloadsPrefix(sent: seq<Entry>, x: Entry, n: nat)
    requires n <= |sent|
    ensures Payloads(sent + [x], n) == Payloads(sent, n)
  {
    if n > 0 {
      PayloadsPrefix(sent, x, n - 1);
    }
  }

  predicate ChannelInv(s: State) {
    && s.taken + |s.queue| == |s.sent|
    && (forall i :: 0 <= i < |s.queue| ==> s.queue[i] == Base64.Encode(s.sent[s.taken + i].payload))
    && s.file == Payloads(s.sent, s.taken)
  }

  lemma StepKeepsChannel(s: State, e: Event)
    requires ChannelInv(s) && Enabled(s, e)
    ensures ChannelInv(Step(s, e))
  {
    hide Payloads, Base64.Encode, Base64.Decode, RemoveDockerHeader;
    match e
    case SendChunk(w) =>
      var x := s.writers[w];
      PushKeepsChannel(s, Entry(Some(w), RemoveDockerHeader(x.chunks[x.sends])));
    case Single(line) => PushKeepsChannel(s, Entry(None, line + [10]));
    case Take => TakeKeepsChannel(s);
    case _ => assert SameChannel(s, Step(s, e));
  }

  predicate SameChannel(s: State, t: State) {
    t.queue == s.queue && t.sent == s.sent && t.taken == s.taken && t.file == s.file
  }

  lemma TakeKeepsChannel(s: State)
    requires ChannelInv(s) && Enabled(s, Take)
    ensures ChannelInv(Step(s, Take))
  {
    hide Base64.Encode, Base64.Decode;
    Base64.RoundTrip(s.sent[s.taken].payload);
    assert Payloads(s.sent, s.taken + 1) == Payloads(s.sent, s.taken) + s.sent[s.taken].payload;
  }

  lemma PushKeepsChannel(s: State, x: Entry)
    requires ChannelInv(s)
    ensures ChannelInv(Push(s, x))
  {
    hide Base64.Encode;
    PayloadsPrefix(s.sent, x, s.taken);
  }

  // ---------------------------------------------------------------- each writer's part

  function Part(sent: seq<Entry>, w: nat): seq<seq<byte>> {
    if sent == [] then []
    else
      var last := sent[|sent| - 1];
      Part(sent[..|sent| - 1], w) + if last.from == Some(w) then [last.payload] else []
  }

  function Stripped(chunks: seq<seq<byte>>): seq<seq<byte>> {
    seq(|chunks|, i requires 0 <= i < |chunks| => RemoveDockerHeader(chunks[i]))
  }

  lemma PartAppend(sent: seq<Entry>, x: Entry, w: nat)
    ensures Part(sent + [x], w) == Part(sent, w) + if x.from == Some(w) then [x.payload] else []
  {
    assert (sent + [x])[..|sent|] == sent;
  }

  predicate WriterInv(x: Writer) {
    && x.sends <= |x.chunks| <= x.sends + 1
    && (x.at == Reading || x.at == Counting ==> |x.chunks| == x.sends)
    && (x.at == Holding ==> |x.chunks| == x.sends + 1)
    && (x.at == Counting ==> x.sends > 0)
  }

  predicate PartsInv(s: State) {
    && (forall i :: 0 <= i < |s.sent| && s.sent[i].from.Some? ==> s.sent[i].from.value < |s.writers|)
    && forall w :: 0 <= w < |s.writers| ==>
         WriterInv(s.writers[w]) && Part(s.sent, w) == Stripped(s.writers[w].chunks[..s.writers[w].sends])
  }

  lemma {:induction false} NoPartYet(sent: seq<Entry>, w: nat)
    requires forall i :: 0 <= i < |sent| ==> sent[i].from != Some(w)
    ensures Part(sent, w) == []
  {
    if sent != [] {
      NoPartYet(sent[..|sent| - 1], w);
    }
  }

  lemma StepKeepsParts(s: State, e: Event)
    requires PartsInv(s) && Enabled(s, e)
    ensures PartsInv(Step(s, e))
  {
    if e.Spawn? {
      SpawnKeepsParts(s, e.counted);
    } else if e.Single? {
      SingleKeepsParts(s, e.line);
    } else if e.SendChunk? {
      SendKeepsParts(s, e.w);
    } else if e.Read? {
      ReadKeepsParts(s, e.w, e.chunk);
    } else {
      OthersKeepParts(s, e);
    }
  }

  lemma SpawnKeepsParts(s: State, counted: bool)
    requires PartsInv(s) && Enabled(s, Spawn(counted))
    ensures PartsInv(Step(s, Spawn(counted)))
  {
    hide Part, RemoveDockerHeader;
    NoPartYet(s.sent, |s.writers|);
  }

  lemma SingleKeepsParts(s: State, line: seq<byte>)
    requires PartsInv(s) && Enabled(s, Single(line))
    ensures PartsInv(Step(s, Single(line)))
  {
    hide Part, RemoveDockerHeader, Base64.Encode;
    var t := Step(s, Single(line));
    forall w | 0 <= w < |s.writers|
      ensures Part(t.sent, w) == Part(s.sent, w)
    {
      PartAppend(s.sent, Entry(None, line + [10]), w);
    }
  }

  lemma SendKeepsParts(s: State, w0: nat)
    requires PartsInv(s) && Enabled(s, SendChunk(w0))
    ensures PartsInv(Step(s, SendChunk(w0)))
  {
    hide Part, RemoveDockerHeader, Base64.Encode;
    var t, x := Step(s, SendChunk(w0)), s.writers[w0];
    var entry := Entry(Some(w0), RemoveDockerHeader(x.chunks[x.sends]));
    forall w | 0 <= w < |s.writers|
      ensures Part(t.sent, w) == Stripped(t.writers[w].chunks[..t.writers[w].sends])
    {
      PartAppend(s.sent, entry, w);
      if w == w0 {
        assert x.chunks[..x.sends + 1] == x.chunks[..x.sends] + [x.chunks[x.sends]];
      }
    }
  }

  lemma ReadKeepsParts(s: State, w: nat, chunk: seq<byte>)
    requires PartsInv(s) && Enabled(s, Read(w, chunk))
    ensures PartsInv(Step(s, Read(w, chunk)))
  {
    hide Part, Stripped;
    var x := s.writers[w];
    assert (x.chunks + [chunk])[..x.sends] == x.chunks[..x.sends];
  }

  lemma OthersKeepParts(s: State, e: Event)
    requires PartsInv(s) && Enabled(s, e) && !e.Spawn? && !e.Single? && !e.SendChunk? && !e.Read?
    ensures PartsInv(Step(s, e))
  {
    hide Part, Stripped, Base64.Decode;
  }

  // ---------------------------------------------------------------- sums over the writers

  function Sum(f: Writer -> int, ws: seq<Writer>): int {
    if ws == [] then 0 else Sum(f, ws[..|ws| - 1]) + f(ws[|ws| - 1])
  }

  lemma SumAppend(f: Writer -> int, ws: seq<Writer>, x: Writer)
    ensures Sum(f, ws + [x]) == Sum(f, ws) + f(x)
  {
    assert (ws + [x])[..|ws|] == ws;
  }

  lemma {:induction false} SumUpdate(f: Writer -> int, ws: seq<Writer>, w: nat, x: Writer)
    requires w < |ws|
    ensures Sum(f, ws[w := x]) == Sum(f, ws) - f(ws[w]) + f(x)
    decreases |ws|
  {
    var front := ws[..|ws| - 1];
    if w < |ws| - 1 {
      SumUpdate(f, front, w, x);
      assert ws[w := x][..|ws| - 1] == front[w := x];
    } else {
      assert ws[w := x][..|ws| - 1] == front;
    }
  }

  function LiveCounted(x: Writer): int {
    if x.counted && x.at != Gone then 1 else 0
  }

  function RawSize(chunks: seq<seq<byte>>): nat {
    if chunks == [] then 0 else RawSize(chunks[..|chunks| - 1]) + |chunks[|chunks| - 1]|
  }

  /** Raw bytes of the chunks a writer has sent. */
  function RawSent(x: Writer): int {
    if x.sends <= |x.chunks| then RawSize(x.chunks[..x.sends]) else 0
  }

  /** Raw bytes of the chunk sent but not yet counted. */
  function Uncounted(x: Writer): int {
    if x.at == Counting && 0 < x.sends <= |x.chunks| then |x.chunks[x.sends - 1]| else 0
  }

  predicate SumsInv(s: State) {
    && s.wg == s.credit + Sum(LiveCounted, s.writers)
    && s.logSize + Sum(Uncounted, s.writers) == Sum(RawSent, s.writers)
  }

  lemma SumsAfterSet(s: State, w: nat, x: Writer)
    requires w < |s.writers|
    ensures var ws := s.writers[w := x];
      && Sum(LiveCounted, ws) == Sum(LiveCounted, s.writers) - LiveCounted(s.writers[w]) + LiveCounted(x)
      && Sum(Uncounted, ws) == Sum(Uncounted, s.writers) - Uncounted(s.writers[w]) + Uncounted(x)
      && Sum(RawSent, ws) == Sum(RawSent, s.writers) - RawSent(s.writers[w]) + RawSent(x)
  {
    SumUpdate(LiveCounted, s.writers, w, x);
    SumUpdate(Uncounted, s.writers, w, x);
    SumUpdate(RawSent, s.writers, w, x);
  }

  lemma StepKeepsSums(s: State, e: Event)
    requires SumsInv(s) && PartsInv(s) && Enabled(s, e)
    ensures SumsInv(Step(s, e))
  {
    hide Sum, PartsInv, LiveCounted, Uncounted, RawSent, Base64.Decode, Base64.Encode, RemoveDockerHeader;
    match e
    case Spawn(counted) => SpawnKeepsSums(s, counted);
    case Read(w, chunk) => ReadKeepsSums(s, w, chunk);
    case ReadEnds(w) => LeaveKeepsSums(s, w);
    case SendPanics(w) => LeaveKeepsSums(s, w);
    case Count(w) => CountKeepsSums(s, w);
    case SendChunk(w) => SendKeepsSums(s, w);
    case _ =>
  }

  lemma SpawnKeepsSums(s: State, counted: bool)
    requires SumsInv(s) && Enabled(s, Spawn(counted))
    ensures SumsInv(Step(s, Spawn(counted)))
  {
    var x := Writer(counted, Reading, [], 0);
    SumAppend(LiveCounted, s.writers, x);
    SumAppend(Uncounted, s.writers, x);
    SumAppend(RawSent, s.writers, x);
  }

  lemma LeaveKeepsSums(s: State, w: nat)
    requires SumsInv(s) && w < |s.writers| && (s.writers[w].at == Reading || s.writers[w].at == Holding)
    ensures SumsInv(Leave(s, w))
  {
    SumsAfterSet(s, w, s.writers[w].(at := Gone));
  }

  lemma CountKeepsSums(s: State, w: nat)
    requires SumsInv(s) && Enabled(s, Count(w))
    ensures SumsInv(Step(s, Count(w)))
  {
    SumsAfterSet(s, w, s.writers[w].(at := Reading));
  }

  lemma ReadKeepsSums(s: State, w: nat, chunk: seq<byte>)
    requires SumsInv(s) && PartsInv(s) && Enabled(s, Read(w, chunk))
    ensures SumsInv(Step(s, Read(w, chunk)))
  {
    var x := s.writers[w];
    var x' := x.(at := Holding, chunks := x.chunks + [chunk]);
    SumsAfterSet(s, w, x');
    assert x'.chunks[..x.sends] == x.chunks[..x.sends];
  }

  lemma SendKeepsSums(s: State, w: nat)
    requires SumsInv(s) && PartsInv(s) && Enabled(s, SendChunk(w))
    ensures SumsInv(Step(s, SendChunk(w)))
  {
    var x := s.writers[w];
    SumsAfterSet(s, w, x.(at := Counting, sends := x.sends + 1));
    assert x.chunks[..x.sends + 1][..x.sends] == x.chunks[..x.sends];
  }

  lemma {:induction false} RunKeepsInv(s: State, es: seq<Event>, t: State)
    requires ChannelInv(s) && PartsInv(s) && SumsInv(s) && |s.queue| <= CHANNEL_CAPACITY && Reaches(s, es, t)
    ensures ChannelInv(t) && PartsInv(t) && SumsInv(t) && |t.queue| <= CHANNEL_CAPACITY
    decreases |es|
  {
    if es != [] {
      StepKeepsChannel(s, es[0]);
      StepKeepsParts(s, es[0]);
      StepKeepsSums(s, es[0]);
      RunKeepsInv(Step(s, es[0]), es[1..], t);
    }
  }

  // ---------------------------------------------------------------- the main results

  /**
   In every interleaving the file holds the first payloads sent, in send order, and the channel decodes
   to all the others.
   */
  lemma FileThenQueueIsSent(es: seq<Event>, t: State)
    requires Reaches(INIT, es, t)
    ensures t.taken + |t.queue| == |t.sent| && |t.queue| <= 1000
    ensures t.file == Payloads(t.sent, t.taken)
    ensures forall i :: 0 <= i < |t.queue| ==> Base64.Decode(t.queue[i]) == Some(t.sent[t.taken + i].payload)
  {
    RunKeepsInv(INIT, es, t);
    forall i | 0 <= i < |t.queue|
      ensures Base64.Decode(t.queue[i]) == Some(t.sent[t.taken + i].payload)
    {
      Base64.RoundTrip(t.sent[t.taken + i].payload);
    }
  }

  /**
   Each writer's part of what was sent is the chunks it read, headers stripped, in order, all but at
   most the last.
   */
  lemma WriterPartIsPrefix(es: seq<Event>, t: State, w: nat)
    requires Reaches(INIT, es, t) && w < |t.writers|
    ensures var part, all := Part(t.sent, w), Stripped(t.writers[w].chunks); part <= all && |all| <= |part| + 1
  {
    RunKeepsInv(INIT, es, t);
    var x := t.writers[w];
    assert Stripped(x.chunks)[..x.sends] == Stripped(x.chunks[..x.sends]);
  }

  /**
   The log size and the chunks still to be counted are the raw bytes sent; the wait group never goes
   below the live counted writers.
   */
  lemma SizesAndWaitGroup(es: seq<Event>, t: State)
    requires Reaches(INIT, es, t)
    ensures t.logSize + Sum(Uncounted, t.writers) == Sum(RawSent, t.writers)
    ensures t.wg - Sum(LiveCounted, t.writers) == t.credit >= 0
    ensures t.wg >= 0
  {
    RunKeepsInv(INIT, es, t);
    LiveIsNatural(t.writers);
  }

  lemma {:induction false} LiveIsNatural(ws: seq<Writer>)
    ensures Sum(LiveCounted, ws) >= 0
  {
    if ws != [] {
      LiveIsNatural(ws[..|ws| - 1]);
    }
  }

  // ---------------------------------------------------------------- by the events alone

  /** The chunks writer `w` reads in a run. */
  function Reads(es: seq<Event>, w: nat): seq<seq<byte>> {
    if es == [] then []
    else (if es[0].Read? && es[0].w == w then [es[0].chunk] else []) + Reads(es[1..], w)
  }

  /** The lines written singly in a run, each with its line break. */
  function Lines(es: seq<Event>): seq<seq<byte>> {
    if es == [] then [] else (if es[0].Single? then [es[0].line + [10]] else []) + Lines(es[1..])
  }

  function Singles(sent: seq<Entry>): seq<seq<byte>> {
    if sent == [] then []
    else
      var last := sent[|sent| - 1];
      Singles(sent[..|sent| - 1]) + if last.from.None? then [last.payload] else []
  }

  function Added(es: seq<Event>): nat {
    if es == [] then 0 else (if es[0].Add? then es[0].n else 0) + Added(es[1..])
  }

  function CountedSpawns(es: seq<Event>): nat {
    if es == [] then 0 else (if es[0].Spawn? && es[0].counted then 1 else 0) + CountedSpawns(es[1..])
  }

  function ChunksOf(s: State, w: nat): seq<seq<byte>> {
    if w < |s.writers| then s.writers[w].chunks else []
  }

  lemma OneEvent(s: State, e: Event, w: nat)
    requires Enabled(s, e)
    ensures ChunksOf(Step(s, e), w) == ChunksOf(s, w) + if e.Read? && e.w == w then [e.chunk] else []
    ensures Step(s, e).credit + (if e.Spawn? && e.counted then 1 else 0) == s.credit + if e.Add? then e.n else 0
  {
    hide RemoveDockerHeader, Base64.Encode, Base64.Decode;
  }

  lemma OneSingle(s: State, e: Event)
    requires Enabled(s, e)
    ensures Singles(Step(s, e).sent) == Singles(s.sent) + if e.Single? then [e.line + [10]] else []
  {
    hide RemoveDockerHeader, Base64.Encode, Base64.Decode;
    var t := Step(s, e);
    assert t.sent == s.sent || t.sent[..|t.sent| - 1] == s.sent;
  }

  lemma Regroup<T>(a: seq<T>, b: seq<T>, c: seq<T>)
    ensures a + b + c == a + (b + c)
  {
  }

  lemma {:induction false} RunTellsReads(s: State, es: seq<Event>, t: State, w: nat)
    requires Reaches(s, es, t)
    ensures ChunksOf(t, w) == ChunksOf(s, w) + Reads(es, w)
    ensures t.credit + CountedSpawns(es) == s.credit + Added(es)
    decreases |es|
  {
    if es != [] {
      var m, rest := Step(s, es[0]), es[1..];
      OneEvent(s, es[0], w);
      hide Step, Enabled, ChunksOf;
      RunTellsReads(m, rest, t, w);
      Regroup(ChunksOf(s, w), if es[0].Read? && es[0].w == w then [es[0].chunk] else [], Reads(rest, w));
    }
  }

  lemma {:induction false} RunTellsSingles(s: State, es: seq<Event>, t: State)
    requires Reaches(s, es, t)
    ensures Singles(t.sent) == Singles(s.sent) + Lines(es)
    decreases |es|
  {
    if es != [] {
      var m, rest := Step(s, es[0]), es[1..];
      OneSingle(s, es[0]);
      hide Step, Enabled, Singles;
      RunTellsSingles(m, rest, t);
      Regroup(Singles(s.sent), if es[0].Single? then [es[0].line + [10]] else [], Lines(rest));
    }
  }

  /**
   By the events of a run: a writer's chunks are what it read, the entries of no writer are the
   single lines, each with its line break, in order, and what was added to the wait group has gone
   to counted writers or is still to go.
   */
  lemma EventsExactly(es: seq<Event>, t: State)
    requires Reaches(INIT, es, t)
    ensures forall w: nat :: w < |t.writers| ==> t.writers[w].chunks == Reads(es, w)
    ensures Singles(t.sent) == Lines(es)
    ensures t.credit + CountedSpawns(es) == Added(es)
  {
    RunTellsReads(INIT, es, t, 0);
    RunTellsSingles(INIT, es, t);
    forall w: nat | w < |t.writers|
      ensures t.writers[w].chunks == Reads(es, w)
    {
      RunTellsReads(INIT, es, t, w);
    }
  }

  // ---------------------------------------------------------------- what can happen

  lemma {:induction false} Drain(s: State) returns (es: seq<Event>, t: State)
    ensures Reaches(s, es, t) && t.queue == [] && t.sent == s.sent
    decreases |s.queue|
  {
    if s.queue == [] {
      es, t := [], s;
    } else {
      hide Base64.Decode, Base64.Encode;
      var rest;
      rest, t := Drain(Step(s, Take));
      es := [Take] + rest;
      assert es[1..] == rest;
    }
  }

  /** From every reachable state, closed or not, the consumer can bring all that has been sent into the file. */
  lemma CanWriteAll(before: seq<Event>, s: State) returns (es: seq<Event>, t: State)
    requires Reaches(INIT, before, s)
    ensures Reaches(s, es, t) && t.sent == s.sent && t.file == Payloads(s.sent, |s.sent|)
  {
    es, t := Drain(s);
    RunKeepsInv(INIT, before, s);
    RunKeepsInv(s, es, t);
  }

  lemma Then(s: State, es: seq<Event>, m: State, e: Event) returns (es': seq<Event>, t: State)
    requires Reaches(s, es, m) && Enabled(m, e)
    ensures Reaches(s, es', t) && t == Step(m, e)
  {
    Joined(s, es, m, e);
    es', t := es + [e], Step(m, e);
  }

  lemma {:induction false} Joined(s: State, es: seq<Event>, m: State, e: Event)
    requires Reaches(s, es, m) && Enabled(m, e)
    ensures Reaches(s, es + [e], Step(m, e))
    decreases |es|
  {
    hide Step, Enabled;
    if es == [] {
      assert [e][1..] == [] && [] + [e] == [e];
    } else {
      Joined(Step(s, es[0]), es[1..], m, e);
      assert (es + [e])[1..] == es[1..] + [e];
    }
  }

  lemma Fill(k: nat) returns (es: seq<Event>, t: State)
    requires k <= 1000
    ensures Reaches(INIT, es, t) && |t.queue| == k && !t.closed
  {
    if k == 0 {
      es, t := [], INIT;
    } else {
      es, t := Fill(k - 1);
      es, t := Then(INIT, es, t, Single([]));
    }
  }

  /** The channel takes a thousand entries and no more. */
  lemma ChannelHoldsThousand() returns (es: seq<Event>, t: State)
    ensures Reaches(INIT, es, t) && |t.queue| == 1000
    ensures forall es, t :: Reaches(INIT, es, t) ==> |t.queue| <= 1000
  {
    es, t := Fill(1000);
    forall es, t | Reaches(INIT, es, t)
      ensures |t.queue| <= 1000
    {
      FileThenQueueIsSent(es, t);
    }
  }

  /** A writer can read exactly what fits its buffer of 8192 bytes. */
  lemma ReadsFitExactly(s: State, w: nat, chunk: seq<byte>)
    requires At(s, w, Reading)
    ensures Enabled(s, Read(w, chunk)) <==> |chunk| <= 8192
  {
  }

  lemma SendHeld(before: seq<Event>, s: State, w: nat) returns (es: seq<Event>, t: State)
    requires Reaches(INIT, before, s) && At(s, w, Holding) && !s.closed
    ensures Reaches(s, es, t) && At(t, w, Counting)
  {
    RunKeepsInv(INIT, before, s);
    assert WriterInv(s.writers[w]);
    es, t := [], s;
    hide RemoveDockerHeader, Base64.Encode, Base64.Decode;
    if |s.queue| == 1000 {
      es, t := Then(s, es, t, Take);
    }
    es, t := Then(s, es, t, SendChunk(w));
  }

  lemma EndCounting(s: State, es0: seq<Event>, m: State, w: nat) returns (es: seq<Event>, t: State)
    requires Reaches(s, es0, m) && At(m, w, Counting) && 0 < m.writers[w].sends <= |m.writers[w].chunks|
    ensures Reaches(s, es, t) && At(t, w, Gone)
  {
    es, t := Then(s, es0, m, Count(w));
    es, t := Then(s, es, t, ReadEnds(w));
  }

  /** Every writer can end. */
  lemma CanEnd(before: seq<Event>, s: State, w: nat) returns (es: seq<Event>, t: State)
    requires Reaches(INIT, before, s) && w < |s.writers|
    ensures Reaches(s, es, t) && At(t, w, Gone)
  {
    RunKeepsInv(INIT, before, s);
    assert WriterInv(s.writers[w]);
    es, t := [], s;
    match s.writers[w].at
    case Gone =>
    case Reading => es, t := Then(s, es, t, ReadEnds(w));
    case Counting => es, t := EndCounting(s, es, t, w);
    case Holding =>
      if s.closed {
        es, t := Then(s, es, t, SendPanics(w));
      } else {
        es, t := SendHeld(before, s, w);
        RunKeepsInv(s, es, t);
        assert WriterInv(t.writers[w]);
        es, t := EndCounting(s, es, t, w);
      }
  }

  /** Any number of writers can be started and waited for. */
  lemma CanWaitFor(n: nat) returns (es: seq<Event>, t: State)
    ensures Reaches(INIT, es, t) && t.wg == 0 && t.closed && |t.writers| == n
    ensures forall w :: 0 <= w < n ==> t.writers[w].counted
  {
    es, t := Then(INIT, [], INIT, Add(n));
    es, t := StartAll(es, t, n);
    es, t := Then(INIT, es, t, Close);
  }

  lemma {:induction false} StartAll(es0: seq<Event>, s: State, n: nat) returns (es: seq<Event>, t: State)
    requires Reaches(INIT, es0, s) && s.wg == s.credit == n && !s.closed
    requires forall w :: 0 <= w < |s.writers| ==> s.writers[w].counted
    ensures Reaches(INIT, es, t) && t.wg == 0 && !t.closed && |t.writers| == |s.writers| + n
    ensures forall w :: 0 <= w < |t.writers| ==> t.writers[w].counted
    decreases n
  {
    es, t := es0, s;
    if n > 0 {
      es, t := Then(INIT, es, t, Spawn(true));
      es, t := Then(INIT, es, t, ReadEnds(|s.writers|));
      es, t := StartAll(es, t, n - 1);
    }
  }

  // ---------------------------------------------------------------- what closing loses

  /**
   Some run goes on from `s` to the end of writer `w` with a chunk read and never sent. `Close` is
   one step, whether the source has waited for the wait group before, has given up waiting, or has
   not waited because the channel was empty.
   */
  ghost predicate CanLose(s: State, w: nat) {
    exists es, t :: Reaches(s, es, t) && At(t, w, Gone) && t.writers[w].sends < |t.writers[w].chunks|
  }

  /** While the channel is open, writers end with everything sent. */
  predicate AllSent(s: State) {
    !s.closed ==>
      forall w :: 0 <= w < |s.writers| && s.writers[w].at == Gone ==> |s.writers[w].chunks| == s.writers[w].sends
  }

  lemma StepKeepsAllSent(s: State, e: Event)
    requires AllSent(s) && PartsInv(s) && Enabled(s, e)
    ensures AllSent(Step(s, e))
  {
    hide Part, Stripped, RemoveDockerHeader, Base64.Encode, Base64.Decode;
  }

  lemma {:induction false} RunKeepsAllSent(s: State, es: seq<Event>, t: State)
    requires AllSent(s) && PartsInv(s) && Reaches(s, es, t)
    ensures AllSent(t)
    decreases |es|
  {
    if es != [] {
      StepKeepsAllSent(s, es[0]);
      StepKeepsParts(s, es[0]);
      hide Step, Enabled, AllSent, PartsInv;
      RunKeepsAllSent(Step(s, es[0]), es[1..], t);
    }
  }

  lemma GoneStep(s: State, e: Event, w: nat)
    requires Enabled(s, e) && At(s, w, Gone)
    ensures At(Step(s, e), w, Gone) && Step(s, e).writers[w] == s.writers[w]
  {
    hide RemoveDockerHeader, Base64.Encode, Base64.Decode;
  }

  lemma {:induction false} GoneForGood(s: State, es: seq<Event>, t: State, w: nat)
    requires Reaches(s, es, t) && At(s, w, Gone)
    ensures At(t, w, Gone) && t.writers[w] == s.writers[w]
    decreases |es|
  {
    if es != [] {
      GoneStep(s, es[0], w);
      hide Step, Enabled;
      GoneForGood(Step(s, es[0]), es[1..], t, w);
    }
  }

  lemma Later(s: State, e: Event, w: nat)
    requires Enabled(s, e) && CanLose(Step(s, e), w)
    ensures CanLose(s, w)
  {
    hide Step, Enabled;
    var es, t :|
      Reaches(Step(s, e), es, t) && At(t, w, Gone) && t.writers[w].sends < |t.writers[w].chunks|;
    assert ([e] + es)[1..] == es;
    assert Reaches(s, [e] + es, t);
  }

  lemma HoldingLoses(s: State, w: nat)
    requires s.closed && At(s, w, Holding) && s.writers[w].sends < |s.writers[w].chunks|
    ensures CanLose(s, w)
  {
    var t := Step(s, SendPanics(w));
    assert Reaches(t, [], t);
    Later(s, SendPanics(w), w);
  }

  lemma ReadingLoses(s: State, w: nat)
    requires s.closed && At(s, w, Reading) && s.writers[w].sends <= |s.writers[w].chunks|
    ensures CanLose(s, w)
  {
    HoldingLoses(Step(s, Read(w, [])), w);
    Later(s, Read(w, []), w);
  }

  lemma LiveLoses(s: State, w: nat)
    requires s.closed && w < |s.writers| && WriterInv(s.writers[w]) && s.writers[w].at != Gone
    ensures CanLose(s, w)
  {
    hide CanLose;
    match s.writers[w].at
    case Reading => ReadingLoses(s, w);
    case Holding => HoldingLoses(s, w);
    case Counting =>
      ReadingLoses(Step(s, Count(w)), w);
      Later(s, Count(w), w);
  }

  /** A chunk of a writer can be lost after the channel is closed if and only if the writer had not ended then. */
  lemma LostAtCloseExactly(before: seq<Event>, s: State, w: nat)
    requires Reaches(INIT, before, s) && Enabled(s, Close) && w < |s.writers|
    ensures CanLose(Step(s, Close), w) <==> s.writers[w].at != Gone
  {
    RunKeepsInv(INIT, before, s);
    RunKeepsAllSent(INIT, before, s);
    var c := Step(s, Close);
    assert c.writers == s.writers && c.closed && WriterInv(s.writers[w]);
    hide Step, Enabled, PartsInv, ChannelInv, SumsInv;
    if s.writers[w].at != Gone {
      LiveLoses(c, w);
    } else {
      forall es, t | Reaches(c, es, t)
        ensures At(t, w, Gone) && t.writers[w] == s.writers[w]
      {
        GoneForGood(c, es, t, w);
      }
    }
  }

  lemma {:induction false} NoneLive(ws: seq<Writer>, w: nat)
    requires Sum(LiveCounted, ws) <= 0 && w < |ws|
    ensures LiveCounted(ws[w]) == 0
  {
    var front := ws[..|ws| - 1];
    LiveIsNatural(front);
    if w < |ws| - 1 {
      NoneLive(front, w);
      assert front[w] == ws[w];
    }
  }

  /** A close for which the wait group was waited for loses nothing of a counted writer. */
  lemma WaitedCloseLosesNothing(before: seq<Event>, s: State, w: nat)
    requires Reaches(INIT, before, s) && Enabled(s, Close) && s.wg == 0 && w < |s.writers| && s.writers[w].counted
    ensures !CanLose(Step(s, Close), w)
  {
    SizesAndWaitGroup(before, s);
    NoneLive(s.writers, w);
    LostAtCloseExactly(before, s, w);
  }
}
