/**
 The WebSocket client and its reconnects (api/client.go, config/manager.go): readers, pending
 message consumers, the bounded queue with its disconnect sentinel, and the reconnecting
 listener, old and new connections overlapping.

 Goroutines of one kind differ only in where they are, since all share the client's fields,
 so readers are counted per place and consumers are a count plus the messages in hand.
 */
module WsClient {
  import opened Bytes
  import opened Wrappers
  import opened CacheName

  datatype Message = Message(event: seq<byte>, body: seq<byte>)

  datatype Item = Msg(m: Message) | Disconnected

  datatype Frame = Frame(conn: nat, m: Message)

  const PENDING_CAPACITY := 100
  const CONNECT_TRIES := 6

  /**
   Idle: waiting for a lost connection. Dialed: the handshake is next. ReaderUp: the reader is started,
   the consumer is next.
   */
  datatype Listener = Idle | Dialing(left: nat) | Dialed(left: nat) | ReaderUp

  datatype State = State(
    conn: Option<nat>,             // c.conn; connections are numbered
    nextConn: nat,
    queue: seq<Item>,              // c.pending
    listener: Listener,
    reading: nat,                  // readers in their read loop
    lost: nat,                     // readers that saw the connection close
    signalled: nat,                // readers that have sent on reConn
    cleared: nat,                  // readers that have cleared c.conn
    waiting: nat,                  // consumers at the queue
    holding: seq<Message>,         // the messages in the hands of the other consumers
    enqueued: seq<Message>,
    attempted: seq<Frame>,         // writes to a socket, in order
    down: bool                     // the process has ended
  )

  /** Manager.Init connects once. */
  const INIT := State(None, 0, [], Dialing(1), 0, 0, 0, 0, 0, [], [], [], false)

  datatype Event =
    | DialOk | DialFails | HandshakeOk | HandshakeFails | SpawnConsumer
    | LoseConnection | ReadNil | ReadFails | Signal | ClearConn | PushSentinel
    | Take | Write(j: nat) | Send(m: Message)

  predicate Enabled(s: State, e: Event) {
    !s.down &&
    match e
    case DialOk => s.listener.Dialing?
    case DialFails => s.listener.Dialing?
    case HandshakeOk => s.listener.Dialed? && s.conn.Some?
    case HandshakeFails => s.listener.Dialed?
    case SpawnConsumer => s.listener == ReaderUp
    case LoseConnection => s.reading > 0
    case ReadNil => s.reading > 0 && s.conn.None?
    case ReadFails => s.reading > 0
    case Signal => s.lost > 0 && s.listener == Idle
    case ClearConn => s.signalled > 0
    case PushSentinel => s.cleared > 0 && |s.queue| < PENDING_CAPACITY
    case Take => s.waiting > 0 && s.queue != []
    case Write(j) => j < |s.holding|
    case Send(_) => |s.queue| < PENDING_CAPACITY
  }

  function Retry(s: State, left: nat): State {
    if left <= 1 then s.(down := true) else s.(listener := Dialing(left - 1))
  }

  function Step(s: State, e: Event): State
    requires Enabled(s, e)
  {
    match e
    case DialOk => s.(conn := Some(s.nextConn), nextConn := s.nextConn + 1, listener := Dialed(s.listener.left))
    case DialFails => Retry(s.(conn := None), s.listener.left)
    case HandshakeOk => s.(reading := s.reading + 1, listener := ReaderUp)
    case HandshakeFails => Retry(s, s.listener.left)
    case SpawnConsumer => s.(waiting := s.waiting + 1, listener := Idle)
    case LoseConnection => s.(reading := s.reading - 1, lost := s.lost + 1)
    case ReadNil => s.(down := true)
    case ReadFails => s.(down := true)
    case Signal => s.(lost := s.lost - 1, signalled := s.signalled + 1, listener := Dialing(CONNECT_TRIES))
    case ClearConn => s.(signalled := s.signalled - 1, cleared := s.cleared + 1, conn := None)
    case PushSentinel => s.(cleared := s.cleared - 1, queue := s.queue + [Disconnected])
    case Take =>
      var s' := s.(waiting := s.waiting - 1, queue := s.queue[1..]);
      if s.queue[0].Msg? then s'.(holding := s.holding + [s.queue[0].m]) else s'
    case Write(j) =>
      if s.conn.None? then s.(down := true)
      else s.(attempted := s.attempted + [Frame(s.conn.value, s.holding[j])],
              holding := s.holding[..j] + s.holding[j + 1..], waiting := s.waiting + 1)
    case Send(m) => s.(queue := s.queue + [Msg(m)], enqueued := s.enqueued + [m])
  }

  ghost predicate Reaches(s: State, es: seq<Event>, t: State)
    decreases |es|
  {
    if es == [] then s == t
    else Enabled(s, es[0]) && Reaches(Step(s, es[0]), es[1..], t)
  }

  // ---------------------------------------------------------------- what is counted

  function Sentinels(q: seq<Item>): nat {
    if q == [] then 0 else (if q[0].Disconnected? then 1 else 0) + Sentinels(q[1..])
  }

  function Messages(q: seq<Item>): seq<Message> {
    if q == [] then [] else (if q[0].Msg? then [q[0].m] else []) + Messages(q[1..])
  }

  function Written(fs: seq<Frame>): seq<Message> {
    seq(|fs|, i requires 0 <= i < |fs| => fs[i].m)
  }

  lemma {:induction false} QueueAppend(q: seq<Item>, x: Item)
    ensures Sentinels(q + [x]) == Sentinels(q) + if x.Disconnected? then 1 else 0
    ensures Messages(q + [x]) == Messages(q) + if x.Msg? then [x.m] else []
  {
    if q == [] {
      assert q + [x] == [x] && [x][1..] == [];
    } else {
      QueueAppend(q[1..], x);
      assert (q + [x])[1..] == q[1..] + [x];
    }
  }

  function Consumers(s: State): nat {
    s.waiting + |s.holding|
  }

  /** Readers that have not yet queued their sentinel. */
  function Readers(s: State): nat {
    s.reading + s.lost + s.signalled + s.cleared
  }

  predicate Balanced(s: State) {
    Consumers(s) + (if s.listener == ReaderUp then 1 else 0) == Readers(s) + Sentinels(s.queue)
  }

  predicate Conserved(s: State) {
    Adds(Written(s.attempted), s.holding, Messages(s.queue), s.enqueued)
  }

  lemma StepKeepsBalance(s: State, e: Event)
    requires Balanced(s) && Enabled(s, e)
    ensures Balanced(Step(s, e))
  {
    match e
    case PushSentinel => QueueAppend(s.queue, Disconnected);
    case Send(m) => QueueAppend(s.queue, Msg(m));
    case _ =>
  }

  /** Written, in hand, queued, enqueued: as a multiset nothing is lost or doubled. */
  predicate Adds(w: seq<Message>, h: seq<Message>, q: seq<Message>, all: seq<Message>) {
    multiset(w) + multiset(h) + multiset(q) == multiset(all)
  }

  lemma StepKeepsMessages(s: State, e: Event)
    requires Conserved(s) && Enabled(s, e)
    ensures Conserved(Step(s, e))
  {
    hide Adds, Messages, Written;
    if e.Send? {
      SendKeepsMessages(s, e.m);
    } else if e.PushSentinel? {
      QueueAppend(s.queue, Disconnected);
      assert Messages(s.queue) + [] == Messages(s.queue);
    } else if e.Take? {
      TakeKeepsMessages(s);
    } else if e.Write? {
      WriteKeepsMessages(s, e.j);
    } else {
      assert SameMessages(s, Step(s, e));
    }
  }

  predicate SameMessages(s: State, t: State) {
    t.attempted == s.attempted && t.holding == s.holding && t.queue == s.queue && t.enqueued == s.enqueued
  }

  lemma SendKeepsMessages(s: State, m: Message)
    requires Conserved(s) && Enabled(s, Send(m))
    ensures Conserved(Step(s, Send(m)))
  {
    QueueAppend(s.queue, Msg(m));
    hide Messages, Written;
    OneMore(Written(s.attempted), s.holding, Messages(s.queue), s.enqueued, m);
  }

  lemma OneMore(w: seq<Message>, h: seq<Message>, q: seq<Message>, all: seq<Message>, m: Message)
    requires Adds(w, h, q, all)
    ensures Adds(w, h, q + [m], all + [m])
  {
  }

  lemma TakeKeepsMessages(s: State)
    requires Conserved(s) && Enabled(s, Take)
    ensures Conserved(Step(s, Take))
  {
    var t, rest := Step(s, Take), Messages(s.queue[1..]);
    if s.queue[0].Msg? {
      assert Messages(s.queue) == [s.queue[0].m] + rest;
      hide Messages, Written, Adds;
      Taken(Written(s.attempted), s.holding, rest, s.enqueued, s.queue[0].m);
    } else {
      assert Messages(s.queue) == [] + rest == rest;
      hide Messages, Written, Adds;
      assert t.holding == s.holding && t.queue == s.queue[1..];
    }
  }

  lemma Taken(w: seq<Message>, h: seq<Message>, q: seq<Message>, all: seq<Message>, m: Message)
    requires Adds(w, h, [m] + q, all)
    ensures Adds(w, h + [m], q, all)
  {
  }

  lemma WriteKeepsMessages(s: State, j: nat)
    requires Conserved(s) && Enabled(s, Write(j))
    ensures Conserved(Step(s, Write(j)))
  {
    if s.conn.Some? {
      WrittenAppend(s.attempted, Frame(s.conn.value, s.holding[j]));
      hide Messages, Written;
      TakenOut(Written(s.attempted), s.holding, Messages(s.queue), s.enqueued, j);
    }
  }

  lemma WrittenAppend(fs: seq<Frame>, f: Frame)
    ensures Written(fs + [f]) == Written(fs) + [f.m]
  {
  }

  lemma TakenOut(w: seq<Message>, h: seq<Message>, q: seq<Message>, all: seq<Message>, j: nat)
    requires Adds(w, h, q, all) && j < |h|
    ensures Adds(w + [h[j]], h[..j] + h[j + 1..], q, all)
  {
    assert h == h[..j] + [h[j]] + h[j + 1..];
  }

  lemma {:induction false} RunKeepsCounts(s: State, es: seq<Event>, t: State)
    requires Balanced(s) && Conserved(s) && |s.queue| <= PENDING_CAPACITY && Reaches(s, es, t)
    ensures Balanced(t) && Conserved(t) && |t.queue| <= PENDING_CAPACITY
    decreases |es|
  {
    if es != [] {
      StepKeepsBalance(s, es[0]);
      StepKeepsMessages(s, es[0]);
      RunKeepsCounts(Step(s, es[0]), es[1..], t);
    }
  }

  // ---------------------------------------------------------------- the main results

  /**
   In every reachable state, however connections overlap: live consumers, counting one about to
   be started with its reader, are readers without a queued sentinel plus queued sentinels.
   */
  lemma ConsumersMatchReaders(es: seq<Event>, t: State)
    requires Reaches(INIT, es, t)
    ensures Consumers(t) + (if t.listener == ReaderUp then 1 else 0) == Readers(t) + Sentinels(t.queue)
  {
    InitCounts();
    RunKeepsCounts(INIT, es, t);
  }

  /** No message is lost or doubled by any number of reconnects: each is queued, in hand or attempted. */
  lemma NoMessageLost(es: seq<Event>, t: State)
    requires Reaches(INIT, es, t)
    ensures multiset(Written(t.attempted)) + multiset(t.holding) + multiset(Messages(t.queue)) == multiset(t.enqueued)
    ensures |t.queue| <= PENDING_CAPACITY
  {
    InitCounts();
    RunKeepsCounts(INIT, es, t);
  }

  lemma InitCounts()
    ensures Balanced(INIT) && Conserved(INIT)
  {
    assert Written([]) == [];
  }

  // ---------------------------------------------------------------- order

  function Pipeline(s: State): seq<Message> {
    Written(s.attempted) + s.holding + Messages(s.queue)
  }

  /** From `s` to `t` the pipeline only grew by what was sent, in order. */
  ghost predicate Grows(s: State, t: State) {
    s.enqueued <= t.enqueued && Pipeline(t) == Pipeline(s) + t.enqueued[|s.enqueued|..]
  }

  /** A consumer writes a message while an older one is in another's hands. */
  predicate Overtakes(s: State, e: Event) {
    e.Write? && e.j > 0 && s.conn.Some?
  }

  lemma Regroup(a: seq<Message>, b: seq<Message>, c: seq<Message>, d: seq<Message>)
    ensures a + b + (c + d) == a + b + c + d && a + (b + c) + d == a + b + (c + d)
  {
  }

  /** Nothing but overtaking disturbs the order. */
  lemma StepGrows(s: State, e: Event)
    requires Enabled(s, e) && !Overtakes(s, e)
    ensures Grows(s, Step(s, e))
  {
    var w, h, q := Written(s.attempted), s.holding, Messages(s.queue);
    if e.Send? {
      QueueAppend(s.queue, Msg(e.m));
      hide Messages, Written;
      Regroup(w, h, q, [e.m]);
      assert (s.enqueued + [e.m])[|s.enqueued|..] == [e.m];
    } else if e.Take? {
      TakeKeepsOrder(s);
    } else if e.Write? && s.conn.Some? {
      WriteInOrder(s, 0);
    } else if e.PushSentinel? {
      QueueAppend(s.queue, Disconnected);
      hide Messages, Written;
      assert Messages(Step(s, e).queue) == q;
      NothingSent(s, Step(s, e));
    } else {
      NothingSent(s, Step(s, e));
    }
  }

  lemma NothingSent(s: State, t: State)
    requires t.enqueued == s.enqueued && Pipeline(t) == Pipeline(s)
    ensures Grows(s, t)
  {
    hide Pipeline;
    assert t.enqueued[|s.enqueued|..] == [] && Pipeline(s) + [] == Pipeline(s);
  }

  lemma TakeKeepsOrder(s: State)
    requires Enabled(s, Take)
    ensures Grows(s, Step(s, Take))
  {
    var w, h, rest := Written(s.attempted), s.holding, Messages(s.queue[1..]);
    var x := if s.queue[0].Msg? then [s.queue[0].m] else [];
    assert Messages(s.queue) == x + rest;
    hide Messages, Written;
    assert Step(s, Take).holding == h + x;
    Regroup(w, h, x, rest);
    assert Pipeline(Step(s, Take)) == w + (h + x) + rest;
    NothingSent(s, Step(s, Take));
  }

  /**
   A write through a live connection keeps the pipeline exactly if moving its message to the front
   changes nothing.
   */
  lemma WriteInOrder(s: State, j: nat)
    requires Enabled(s, Write(j)) && s.conn.Some?
    ensures var h := s.holding;
      Pipeline(Step(s, Write(j))) == Pipeline(s) <==> [h[j]] + h[..j] == h[..j + 1]
    ensures j == 0 ==> Grows(s, Step(s, Write(j)))
  {
    var w, h, q, t := Written(s.attempted), s.holding, Messages(s.queue), Step(s, Write(j));
    WrittenAppend(s.attempted, Frame(s.conn.value, h[j]));
    hide Messages, Written;
    MovedToFront(w, h, q, j);
    assert Pipeline(t) == w + [h[j]] + (h[..j] + h[j + 1..]) + q;
    if j == 0 {
      assert [h[j]] + h[..j] == h[..j + 1];
      NothingSent(s, t);
    }
  }

  lemma MovedToFront(w: seq<Message>, h: seq<Message>, q: seq<Message>, j: nat)
    requires j < |h|
    ensures w + [h[j]] + (h[..j] + h[j + 1..]) + q == w + h + q <==> [h[j]] + h[..j] == h[..j + 1]
  {
    var a, b := [h[j]] + h[..j], h[..j + 1];
    assert h == b + h[j + 1..];
    assert w + [h[j]] + (h[..j] + h[j + 1..]) + q == w + a + (h[j + 1..] + q);
    assert w + h + q == w + b + (h[j + 1..] + q);
    var x, y := w + a + (h[j + 1..] + q), w + b + (h[j + 1..] + q);
    assert x[|w|..|w| + j + 1] == a && y[|w|..|w| + j + 1] == b;
  }

  lemma GrowsOn(s: State, m: State, t: State)
    requires Grows(s, m) && Grows(m, t)
    ensures Grows(s, t)
  {
    hide Pipeline;
    var a, b := m.enqueued[|s.enqueued|..], t.enqueued[|m.enqueued|..];
    assert t.enqueued[|s.enqueued|..] == a + b;
    assert Pipeline(s) + a + b == Pipeline(s) + (a + b);
  }

  ghost predicate NeverOvertakes(s: State, es: seq<Event>)
    decreases |es|
  {
    es != [] && Enabled(s, es[0]) ==> !Overtakes(s, es[0]) && NeverOvertakes(Step(s, es[0]), es[1..])
  }

  lemma {:induction false} RunGrows(s: State, es: seq<Event>, t: State)
    requires Reaches(s, es, t) && NeverOvertakes(s, es)
    ensures Grows(s, t)
    decreases |es|
  {
    hide Step, Enabled, Overtakes, Grows;
    if es == [] {
      NothingSent(s, s);
    } else {
      StepGrows(s, es[0]);
      RunGrows(Step(s, es[0]), es[1..], t);
      GrowsOn(s, Step(s, es[0]), t);
    }
  }

  /**
   Across any number of reconnects: attempted, in hand and queued are what was enqueued, in order,
   unless a consumer overtakes.
   */
  lemma InOrderUnlessOvertaken(es: seq<Event>, t: State)
    requires Reaches(INIT, es, t) && NeverOvertakes(INIT, es)
    ensures Pipeline(t) == t.enqueued
  {
    RunGrows(INIT, es, t);
    assert Pipeline(INIT) == [] && t.enqueued[0..] == t.enqueued && [] + t.enqueued == t.enqueued;
  }

  predicate Distinct(q: seq<Message>) {
    forall i, j :: 0 <= i < j < |q| ==> q[i] != q[j]
  }

  lemma {:induction false} OnlyGrow(s: State, es: seq<Event>, t: State)
    requires Reaches(s, es, t)
    ensures s.attempted <= t.attempted && s.enqueued <= t.enqueued
    decreases |es|
  {
    if es != [] {
      GrowStep(s, es[0]);
      hide Step, Enabled;
      OnlyGrow(Step(s, es[0]), es[1..], t);
    }
  }

  lemma GrowStep(s: State, e: Event)
    requires Enabled(s, e)
    ensures s.attempted <= Step(s, e).attempted && s.enqueued <= Step(s, e).enqueued
  {
  }

  /** What was written out of order stays so. */
  lemma OvertakenForGood(s: State, e: Event, es: seq<Event>, t: State)
    requires Pipeline(s) == s.enqueued && Enabled(s, e) && Overtakes(s, e)
    requires Reaches(Step(s, e), es, t) && Distinct(t.enqueued)
    ensures Pipeline(t) != t.enqueued
  {
    var m, i := Step(s, e), |s.attempted|;
    OnlyGrow(m, es, t);
    WrittenAppend(s.attempted, Frame(s.conn.value, s.holding[e.j]));
    assert m.attempted[i].m == s.holding[e.j] && m.enqueued == s.enqueued;
    assert Pipeline(s)[i + e.j] == s.holding[e.j] && Pipeline(s)[i] == s.holding[0];
    assert t.enqueued[i] == s.enqueued[i] && t.enqueued[i + e.j] == s.enqueued[i + e.j];
    assert t.attempted[i] == m.attempted[i];
    assert Pipeline(t)[i] == t.attempted[i].m;
  }

  lemma {:induction false} OvertakingShows(s: State, es: seq<Event>, t: State)
    requires Pipeline(s) == s.enqueued && Reaches(s, es, t) && !NeverOvertakes(s, es) && Distinct(t.enqueued)
    ensures Pipeline(t) != t.enqueued
    decreases |es|
  {
    if Overtakes(s, es[0]) {
      OvertakenForGood(s, es[0], es[1..], t);
    } else {
      StepGrows(s, es[0]);
      var m := Step(s, es[0]);
      hide Step, Enabled, Overtakes, Pipeline, Distinct;
      assert m.enqueued == s.enqueued + m.enqueued[|s.enqueued|..];
      OvertakingShows(m, es[1..], t);
    }
  }

  /** With distinct messages the order is kept, over whole runs and reconnects, if and only if no consumer overtakes. */
  lemma InOrderExactly(es: seq<Event>, t: State)
    requires Reaches(INIT, es, t) && Distinct(t.enqueued)
    ensures Pipeline(t) == t.enqueued <==> NeverOvertakes(INIT, es)
  {
    if NeverOvertakes(INIT, es) {
      InOrderUnlessOvertaken(es, t);
    } else {
      assert Pipeline(INIT) == INIT.enqueued;
      OvertakingShows(INIT, es, t);
    }
  }

  /** Overtaking takes two readers, or sentinels, at once: connections that overlap. */
  lemma OvertakingNeedsOverlap(es: seq<Event>, t: State, j: nat)
    requires Reaches(INIT, es, t) && Enabled(t, Write(j)) && j > 0
    ensures Readers(t) + Sentinels(t.queue) >= 2
  {
    ConsumersMatchReaders(es, t);
  }

  /** Some run goes on from `s`, without a disconnect, in which a consumer overtakes. */
  ghost predicate CanOvertake(s: State) {
    exists es, t :: Reaches(s, es, t) && LoseConnection !in es && !NeverOvertakes(s, es)
  }

  /** The messages queued before the last sentinel. */
  function BeforeLast(q: seq<Item>): nat {
    if Sentinels(q) == 0 then 0 else (if q[0].Msg? then 1 else 0) + BeforeLast(q[1..])
  }

  lemma {:induction false} SendsComeLast(q: seq<Item>, m: Message)
    ensures BeforeLast(q + [Msg(m)]) == BeforeLast(q)
  {
    QueueAppend(q, Msg(m));
    if Sentinels(q) > 0 {
      assert (q + [Msg(m)])[1..] == q[1..] + [Msg(m)];
      SendsComeLast(q[1..], m);
    }
  }

  /** One reader reads, through a connection, and the listener waits. */
  predicate Reading(s: State) {
    !s.down && s.reading == 1 && s.lost == 0 && s.listener == Idle && s.conn.Some?
  }

  /** No second message can come into a hand before the consumers of lost connections are gone. */
  predicate Single(s: State) {
    s.down || (
      && s.reading == 1 && s.lost == s.signalled == s.cleared == 0 && s.listener == Idle
      && Balanced(s) && |s.holding| + BeforeLast(s.queue) <= 1)
  }

  lemma StepKeepsSingle(s: State, e: Event)
    requires Single(s) && Enabled(s, e) && e != LoseConnection
    ensures Single(Step(s, e)) && !Overtakes(s, e)
  {
    StepKeepsBalance(s, e);
    if e.Send? {
      SendsComeLast(s.queue, e.m);
    }
    if e.Take? {
      assert s.queue == [s.queue[0]] + s.queue[1..];
    }
  }

  lemma {:induction false} SingleNeverOvertakes(s: State, es: seq<Event>)
    requires Single(s) && LoseConnection !in es
    ensures NeverOvertakes(s, es)
    decreases |es|
  {
    if es != [] && Enabled(s, es[0]) {
      assert es[0] in es && forall e :: e in es[1..] ==> e in es;
      StepKeepsSingle(s, es[0]);
      hide Step, Enabled, Single, Overtakes;
      SingleNeverOvertakes(Step(s, es[0]), es[1..]);
    }
  }

  lemma TwoHeld(s: State)
    requires Reading(s) && |s.holding| >= 2
    ensures CanOvertake(s)
  {
    var es := [Write(1)];
    assert es[1..] == [] && Reaches(Step(s, Write(1)), [], Step(s, Write(1)));
    assert Reaches(s, es, Step(s, Write(1))) && !NeverOvertakes(s, es);
  }

  lemma StepFirst(s: State, e: Event)
    requires Enabled(s, e) && e != LoseConnection && CanOvertake(Step(s, e))
    ensures CanOvertake(s)
  {
    var es, t :| Reaches(Step(s, e), es, t) && LoseConnection !in es && !NeverOvertakes(Step(s, e), es);
    hide Step, Enabled, Overtakes;
    Prefixed(s, e, es, t);
    assert ([e] + es)[1..] == es && LoseConnection !in [e] + es;
    assert !NeverOvertakes(s, [e] + es);
  }

  lemma {:induction false} OvertakeBeforeLast(s: State)
    requires Reading(s) && Balanced(s) && |s.holding| + BeforeLast(s.queue) >= 2
    ensures CanOvertake(s)
    decreases |s.queue|
  {
    if |s.holding| >= 2 {
      TwoHeld(s);
    } else {
      assert Sentinels(s.queue) >= 1 && s.waiting > 0;
      StepKeepsBalance(s, Take);
      OvertakeBeforeLast(Step(s, Take));
      StepFirst(s, Take);
    }
  }

  lemma {:induction false} OvertakeSpare(s: State)
    requires Reading(s) && Balanced(s) && s.signalled + s.cleared > 0
    ensures CanOvertake(s)
    decreases |s.queue|, |s.holding|
  {
    if |s.holding| >= 2 {
      TwoHeld(s);
    } else if |s.holding| == 1 {
      StepKeepsBalance(s, Write(0));
      OvertakeSpare(Step(s, Write(0)));
      StepFirst(s, Write(0));
    } else if s.queue != [] {
      StepKeepsBalance(s, Take);
      OvertakeSpare(Step(s, Take));
      StepFirst(s, Take);
    } else {
      SendTwo(s);
    }
  }

  lemma SendTwo(s: State)
    requires Reading(s) && s.queue == [] && s.waiting >= 2
    ensures CanOvertake(s)
  {
    var m := Message([], []);
    var s1 := Step(s, Send(m));
    var s2 := Step(s1, Send(m));
    var s3 := Step(s2, Take);
    var s4 := Step(s3, Take);
    assert s2.queue == [Msg(m), Msg(m)] && s3.queue == [Msg(m)] && |s4.holding| >= 2;
    TwoHeld(s4);
    hide CanOvertake;
    StepFirst(s3, Take);
    StepFirst(s2, Take);
    StepFirst(s1, Send(m));
    StepFirst(s, Send(m));
  }

  /**
   While a reader reads: a consumer can still overtake before the next disconnect if and only if
   another reader has its sentinel still to queue, or two messages are in hand or come before the
   last sentinel in the queue.
   */
  lemma OvertakingExactly(before: seq<Event>, s: State)
    requires Reaches(INIT, before, s) && Reading(s)
    ensures CanOvertake(s) <==> s.signalled + s.cleared > 0 || |s.holding| + BeforeLast(s.queue) >= 2
  {
    InitCounts();
    RunKeepsCounts(INIT, before, s);
    if s.signalled + s.cleared > 0 {
      OvertakeSpare(s);
    } else if |s.holding| + BeforeLast(s.queue) >= 2 {
      OvertakeBeforeLast(s);
    } else {
      forall es | LoseConnection !in es
        ensures NeverOvertakes(s, es)
      {
        SingleNeverOvertakes(s, es);
      }
    }
  }

  /** One live reader, in its read loop, and no sentinel queued. */
  predicate Steady(s: State) {
    s.reading == 1 && s.lost == s.signalled == s.cleared == 0 && Sentinels(s.queue) == 0 && s.listener == Idle
  }

  /**
   From `s` to `t` the pipeline only grew by what was sent, in order, and all new frames went to the
   connection of `s`.
   */
  ghost predicate Continues(s: State, t: State) {
    && t.conn == s.conn && Grows(s, t)
    && s.attempted <= t.attempted
    && (forall i :: |s.attempted| <= i < |t.attempted| ==> s.conn == Some(t.attempted[i].conn))
  }

  lemma ContinuesOn(s: State, m: State, t: State)
    requires Continues(s, m) && Continues(m, t)
    ensures Continues(s, t)
  {
    GrowsOn(s, m, t);
    forall i | |s.attempted| <= i < |t.attempted|
      ensures s.conn == Some(t.attempted[i].conn)
    {
      if i < |m.attempted| {
        assert t.attempted[i] == m.attempted[i];
      }
    }
  }

  /** While steady, every step but a disconnect keeps the single consumer and the order of the pipeline. */
  lemma SteadyStep(s: State, e: Event)
    requires Balanced(s) && Steady(s) && Enabled(s, e) && e != LoseConnection && !Step(s, e).down
    ensures Steady(Step(s, e)) && Continues(s, Step(s, e))
  {
    if e.Send? {
      QueueAppend(s.queue, Msg(e.m));
    }
    StepGrows(s, e);
    hide Grows;
  }

  /**
   From any steady state until the next disconnect there is exactly one consumer, and what was
   in the pipeline followed by what is sent meanwhile is, in this order, what has been
   attempted, then what is in hand, then what is queued. All new frames go to the same connection.
   */
  lemma {:induction false} InOrderWhileSteady(s: State, es: seq<Event>, t: State)
    requires Balanced(s) && Steady(s) && Reaches(s, es, t) && LoseConnection !in es && !t.down
    ensures Steady(t) && Consumers(t) == 1 && Continues(s, t)
    decreases |es|
  {
    if es == [] {
      NothingSent(s, s);
    } else {
      var m := Step(s, es[0]);
      NotDown(m, es[1..], t);
      StepKeepsBalance(s, es[0]);
      SteadyStep(s, es[0]);
      assert forall e :: e in es[1..] ==> e in es;
      InOrderWhileSteady(m, es[1..], t);
      ContinuesOn(s, m, t);
    }
  }

  /** The same for the steady states of real runs, connections lost and re-made any number of times before. */
  lemma InOrderBetweenDisconnects(before: seq<Event>, s: State, es: seq<Event>, t: State)
    requires Reaches(INIT, before, s) && Steady(s)
    requires Reaches(s, es, t) && LoseConnection !in es && !t.down
    ensures Consumers(s) == 1 && Consumers(t) == 1 && Continues(s, t)
  {
    InitCounts();
    RunKeepsCounts(INIT, before, s);
    InOrderWhileSteady(s, es, t);
  }

  lemma NotDown(s: State, es: seq<Event>, t: State)
    requires Reaches(s, es, t) && !t.down
    ensures !s.down
  {
  }

  /** What the server reads off a steady connection: each frame gives back its message. */
  lemma FramesDecode(fs: seq<Frame>, i: nat)
    requires i < |fs| && IsEvent(fs[i].m.event)
    ensures SplitFrame(BuildMessage(fs[i].m.event, fs[i].m.body)) == Some((fs[i].m.event, fs[i].m.body))
  {
    FrameDecodable(fs[i].m.event, fs[i].m.body);
  }

  // ---------------------------------------------------------------- dialling again

  /**
   What a run tells of the listener: how many tries it has, one at the start and six after a lost
   connection, how many have failed, and whether one has worked.
   */
  datatype Dials = Dials(allowed: nat, failed: nat, connected: bool)

  predicate Fails(e: Event) {
    e == DialFails || e == HandshakeFails
  }

  function DialsAfter(x: Dials, e: Event): Dials {
    if e == Signal then Dials(6, 0, false)
    else if Fails(e) then x.(failed := x.failed + 1)
    else if e == HandshakeOk then x.(connected := true)
    else x
  }

  function DialsIn(es: seq<Event>, x: Dials): Dials
    decreases |es|
  {
    if es == [] then x else DialsIn(es[1..], DialsAfter(x, es[0]))
  }

  predicate DialInv(s: State, x: Dials) {
    && x.failed <= x.allowed
    && if x.connected then s.listener == Idle || s.listener == ReaderUp
    else if x.failed < x.allowed
    then s.listener == Dialing(x.allowed - x.failed) || s.listener == Dialed(x.allowed - x.failed)
    else s.down && x.failed == x.allowed && (s.listener.Dialing? || s.listener.Dialed?)
  }

  lemma StepKeepsDials(s: State, e: Event, x: Dials)
    requires DialInv(s, x) && Enabled(s, e)
    ensures DialInv(Step(s, e), DialsAfter(x, e))
  {
  }

  lemma {:induction false} RunKeepsDials(s: State, es: seq<Event>, t: State, x: Dials)
    requires DialInv(s, x) && Reaches(s, es, t)
    ensures DialInv(t, DialsIn(es, x))
    decreases |es|
  {
    if es != [] {
      StepKeepsDials(s, es[0], x);
      hide Step, Enabled, DialInv, DialsAfter;
      RunKeepsDials(Step(s, es[0]), es[1..], t, DialsAfter(x, es[0]));
    }
  }

  /**
   How often the listener dials: at the start once, after a lost connection up to six times. While
   tries are left it goes on, and the last failure ends the process, in every run.
   */
  lemma RedialsExactly(es: seq<Event>, t: State)
    requires Reaches(INIT, es, t)
    ensures var x := DialsIn(es, Dials(1, 0, false));
      && (x.allowed == 1 || x.allowed == 6) && x.failed <= x.allowed
      && (!x.connected && x.failed < x.allowed ==>
            t.listener == Dialing(x.allowed - x.failed) || t.listener == Dialed(x.allowed - x.failed))
      && (!x.connected && x.failed == x.allowed ==> t.down)
      && (x.connected ==> t.listener == Idle || t.listener == ReaderUp)
  {
    RunKeepsDials(INIT, es, t, Dials(1, 0, false));
    AllowedIs(es, Dials(1, 0, false));
  }

  lemma {:induction false} AllowedIs(es: seq<Event>, x: Dials)
    requires x.allowed == 1 || x.allowed == 6
    ensures var y := DialsIn(es, x); y.allowed == 1 || y.allowed == 6
    decreases |es|
  {
    if es != [] {
      AllowedIs(es[1..], DialsAfter(x, es[0]));
    }
  }

  /**
   Exactly what ends the process: a read through no connection or with an error that is no
   disconnect, a write through no connection, and the failure of the last try to connect.
   */
  lemma EndsExactly(es: seq<Event>, s: State, e: Event)
    requires Reaches(INIT, es, s) && Enabled(s, e)
    ensures var x := DialsIn(es, Dials(1, 0, false));
      Step(s, e).down <==>
        || e == ReadNil || e == ReadFails
        || (e.Write? && s.conn.None?)
        || (Fails(e) && x.failed + 1 == x.allowed)
  {
    RunKeepsDials(INIT, es, s, Dials(1, 0, false));
  }

  /** The connection dialed last, by its number, unless it has been cleared or a dial has failed since. */
  function ConnIn(es: seq<Event>, conn: Option<nat>, next: nat): Option<nat>
    decreases |es|
  {
    if es == [] then conn
    else if es[0] == DialOk then ConnIn(es[1..], Some(next), next + 1)
    else ConnIn(es[1..], if es[0] == DialFails || es[0] == ClearConn then None else conn, next)
  }

  lemma {:induction false} RunKeepsConnection(s: State, es: seq<Event>, t: State)
    requires Reaches(s, es, t)
    ensures t.conn == ConnIn(es, s.conn, s.nextConn)
    decreases |es|
  {
    if es != [] {
      ConnStep(s, es[0]);
      hide Step, Enabled;
      RunKeepsConnection(Step(s, es[0]), es[1..], t);
    }
  }

  lemma ConnStep(s: State, e: Event)
    requires Enabled(s, e)
    ensures var t := Step(s, e);
      if e == DialOk then t.conn == Some(s.nextConn) && t.nextConn == s.nextConn + 1
      else t.nextConn == s.nextConn && t.conn == if e == DialFails || e == ClearConn then None else s.conn
  {
  }

  /** In every run: which connection the client holds. */
  lemma ConnectionExactly(es: seq<Event>, t: State)
    requires Reaches(INIT, es, t)
    ensures t.conn == ConnIn(es, None, 0)
  {
    RunKeepsConnection(INIT, es, t);
  }

  /**
   A lost connection can be replaced: from the moment it is lost some run leads to a reader reading
   through a new one.
   */
  lemma CanReconnect(before: seq<Event>, s: State) returns (es: seq<Event>, t: State)
    requires Reaches(INIT, before, s) && !s.down && s.lost > 0
    ensures Reaches(s, es, t) && Reading(t) && t.conn == Some(s.nextConn) && t.enqueued == s.enqueued
  {
    RunKeepsDials(INIT, before, s, Dials(1, 0, false));
    RunKeepsConn(INIT, before, s, false);
    assert s.listener == Idle || s.listener == ReaderUp;
    es, t := [], s;
    if s.listener == ReaderUp {
      es, t := Then(s, es, t, SpawnConsumer);
    }
    es, t := Then(s, es, t, Signal);
    es, t := Then(s, es, t, DialOk);
    es, t := Then(s, es, t, HandshakeOk);
    es, t := Then(s, es, t, SpawnConsumer);
  }

  /** And it may not be: all six tries can fail, each at the dial or each at the handshake. */
  lemma CanGiveUp(before: seq<Event>, s: State, atDial: bool) returns (es: seq<Event>, t: State)
    requires Reaches(INIT, before, s) && !s.down && s.lost > 0
    ensures Reaches(s, es, t) && t.down && t.nextConn == s.nextConn + if atDial then 0 else 6
  {
    RunKeepsDials(INIT, before, s, Dials(1, 0, false));
    RunKeepsConn(INIT, before, s, false);
    es, t := [], s;
    if s.listener == ReaderUp {
      es, t := Then(s, es, t, SpawnConsumer);
    }
    es, t := Then(s, es, t, Signal);
    es, t := FailOn(s, es, t, atDial);
  }

  lemma {:induction false} FailOn(s: State, es0: seq<Event>, m: State, atDial: bool)
    returns (es: seq<Event>, t: State)
    requires Reaches(s, es0, m) && !m.down && m.listener.Dialing? && m.listener.left > 0
    ensures Reaches(s, es, t) && t.down && t.nextConn == m.nextConn + if atDial then 0 else m.listener.left
    decreases m.listener.left
  {
    es, t := es0, m;
    if atDial {
      es, t := Then(s, es, t, DialFails);
    } else {
      es, t := Then(s, es, t, DialOk);
      es, t := Then(s, es, t, HandshakeFails);
    }
    if !t.down {
      es, t := FailOn(s, es, t, atDial);
    }
  }

  /** Some run goes on from `s`, without a disconnect, to everything enqueued so far attempted. */
  ghost predicate CanDrain(s: State) {
    exists es, t ::
      Reaches(s, es, t) && LoseConnection !in es && t.holding == [] && t.queue == [] && t.enqueued == s.enqueued
  }

  lemma DrainStep(s: State, e: Event)
    requires Enabled(s, e) && e != LoseConnection && CanDrain(Step(s, e)) && Step(s, e).enqueued == s.enqueued
    ensures CanDrain(s)
  {
    hide Step, Enabled;
    var es, t :|
      && Reaches(Step(s, e), es, t) && LoseConnection !in es && t.holding == [] && t.queue == []
      && t.enqueued == Step(s, e).enqueued;
    Prefixed(s, e, es, t);
    assert LoseConnection !in [e] + es;
  }

  lemma {:induction false} DrainsOn(s: State)
    requires Reading(s) && Balanced(s)
    ensures CanDrain(s)
    decreases |s.queue|, |s.holding|
  {
    if s.holding != [] {
      StepKeepsBalance(s, Write(0));
      DrainsOn(Step(s, Write(0)));
      DrainStep(s, Write(0));
    } else if s.queue != [] {
      StepKeepsBalance(s, Take);
      DrainsOn(Step(s, Take));
      DrainStep(s, Take);
    } else {
      assert Reaches(s, [], s);
    }
  }

  /** While a reader reads, everything enqueued can be attempted before the next disconnect. */
  lemma CanAttemptAll(before: seq<Event>, s: State) returns (es: seq<Event>, t: State)
    requires Reaches(INIT, before, s) && Reading(s)
    ensures Reaches(s, es, t) && LoseConnection !in es && multiset(Written(t.attempted)) == multiset(s.enqueued)
  {
    InitCounts();
    RunKeepsCounts(INIT, before, s);
    DrainsOn(s);
    es, t :|
      Reaches(s, es, t) && LoseConnection !in es && t.holding == [] && t.queue == [] && t.enqueued == s.enqueued;
    RunKeepsCounts(s, es, t);
    assert Messages(t.queue) == [];
  }

  /** A reader that has cleared its connection can end, at the latest when a consumer has made room. */
  lemma CanQueueSentinel(before: seq<Event>, s: State) returns (es: seq<Event>, t: State)
    requires Reaches(INIT, before, s) && Reading(s) && s.cleared > 0
    ensures Reaches(s, es, t) && !t.down && t.cleared == s.cleared - 1
    ensures t.queue != [] && t.queue[|t.queue| - 1] == Disconnected
  {
    InitCounts();
    RunKeepsCounts(INIT, before, s);
    es, t := [], s;
    if |s.queue| == 100 {
      if s.waiting == 0 {
        es, t := Then(s, es, t, Write(0));
      }
      es, t := Then(s, es, t, Take);
    }
    es, t := Then(s, es, t, PushSentinel);
  }

  lemma Fill(k: nat) returns (es: seq<Event>, t: State)
    requires k <= 100
    ensures Reaches(INIT, es, t) && |t.queue| == k && !t.down
  {
    if k == 0 {
      es, t := [], INIT;
    } else {
      es, t := Fill(k - 1);
      es, t := Then(INIT, es, t, Send(Message([], [])));
    }
  }

  /** The queue takes a hundred entries and no more. */
  lemma QueueHoldsHundred() returns (es: seq<Event>, t: State)
    ensures Reaches(INIT, es, t) && |t.queue| == 100
    ensures forall es, t :: Reaches(INIT, es, t) ==> |t.queue| <= 100
  {
    es, t := Fill(100);
    forall es, t | Reaches(INIT, es, t)
      ensures |t.queue| <= 100
    {
      NoMessageLost(es, t);
    }
  }

  // ---------------------------------------------------------------- the reader and its connection

  /** Since the last dial that worked, a reader has cleared the connection; `cleared` tells of the time before. */
  predicate ClearedSinceDial(es: seq<Event>, cleared: bool)
    decreases |es|
  {
    if es == [] then cleared else ClearedSinceDial(es[1..], ClearedAfter(es[0], cleared))
  }

  predicate ClearedAfter(e: Event, cleared: bool) {
    e == ClearConn || (cleared && e != DialOk)
  }

  /** Either one reader reads, or one has lost its connection, or the listener connects. */
  predicate OneAtWork(s: State) {
    s.reading + s.lost + (if s.listener.Dialing? || s.listener.Dialed? then 1 else 0) == 1
  }

  predicate Connected(s: State) {
    s.reading > 0 || s.listener.Dialed?
  }

  predicate ConnInv(s: State, cleared: bool) {
    OneAtWork(s) && (Connected(s) ==> (s.conn.None? <==> cleared))
  }

  lemma StepKeepsConn(s: State, e: Event, cleared: bool)
    requires ConnInv(s, cleared) && Enabled(s, e)
    ensures ConnInv(Step(s, e), ClearedAfter(e, cleared))
  {
  }

  lemma {:induction false} RunKeepsConn(s: State, es: seq<Event>, t: State, cleared: bool)
    requires ConnInv(s, cleared) && Reaches(s, es, t)
    ensures ConnInv(t, ClearedSinceDial(es, cleared))
    decreases |es|
  {
    if es != [] {
      StepKeepsConn(s, es[0], cleared);
      hide Step, Enabled, ConnInv;
      RunKeepsConn(Step(s, es[0]), es[1..], t, ClearedAfter(es[0], cleared));
    }
  }

  /**
   There is one reading reader at most, and it finds no connection exactly if an earlier reader has
   cleared it since it was dialed.
   */
  lemma ReaderWithoutConnection(es: seq<Event>, t: State)
    requires Reaches(INIT, es, t)
    ensures t.reading > 0 ==> t.reading == 1 && (t.conn.None? <==> ClearedSinceDial(es, false))
    ensures Enabled(t, HandshakeOk) ==> !ClearedSinceDial(es, false)
    ensures !t.down && t.reading > 0 ==>
      Enabled(t, ReadFails) && (Enabled(t, ReadNil) <==> ClearedSinceDial(es, false))
  {
    RunKeepsConn(INIT, es, t, false);
  }

  /** No reader that has told the listener is still to clear the connection when the next one is dialed. */
  ghost predicate ClearsFirst(s: State, es: seq<Event>)
    decreases |es|
  {
    es != [] && Enabled(s, es[0]) ==>
      (es[0] == DialOk ==> s.signalled == 0) && ClearsFirst(Step(s, es[0]), es[1..])
  }

  predicate NoneToClear(s: State) {
    OneAtWork(s) && (Connected(s) ==> s.signalled == 0 && s.conn.Some?)
  }

  lemma StepKeepsNone(s: State, e: Event)
    requires NoneToClear(s) && Enabled(s, e) && (e == DialOk ==> s.signalled == 0)
    ensures NoneToClear(Step(s, e))
  {
  }

  lemma {:induction false} RunKeepsNone(s: State, es: seq<Event>, t: State)
    requires NoneToClear(s) && Reaches(s, es, t) && ClearsFirst(s, es)
    ensures NoneToClear(t)
    decreases |es|
  {
    if es != [] {
      StepKeepsNone(s, es[0]);
      hide Step, Enabled, NoneToClear;
      RunKeepsNone(Step(s, es[0]), es[1..], t);
    }
  }

  /** If every reader clears before the next dial, a reading reader always has its connection. */
  lemma ConnectionIfClearedFirst(es: seq<Event>, t: State)
    requires Reaches(INIT, es, t) && ClearsFirst(INIT, es) && t.reading > 0
    ensures t.conn.Some?
  {
    RunKeepsNone(INIT, es, t);
  }

  /** Some run goes on from `s`, without another dial, to a reader without connection. */
  ghost predicate CanLoseNew(s: State) {
    exists es, t :: Reaches(s, es, t) && DialOk !in es && t.reading > 0 && t.conn.None?
  }

  lemma {:induction false} NoDial(s: State, es: seq<Event>)
    requires DialOk !in es
    ensures ClearsFirst(s, es)
    decreases |es|
  {
    if es != [] && Enabled(s, es[0]) {
      assert es[0] in es && forall e :: e in es[1..] ==> e in es;
      NoDial(Step(s, es[0]), es[1..]);
    }
  }

  /**
   A newly dialed connection can be cleared under its reader if and only if an earlier reader had still
   to clear when it was dialed.
   */
  lemma ClearsNewExactly(before: seq<Event>, s: State)
    requires Reaches(INIT, before, s) && Enabled(s, DialOk)
    ensures CanLoseNew(Step(s, DialOk)) <==> s.signalled > 0
  {
    var m := Step(s, DialOk);
    RunKeepsConn(INIT, before, s, false);
    if s.signalled > 0 {
      var r := Step(m, HandshakeOk);
      var t := Step(r, ClearConn);
      Prefixed(r, ClearConn, [], t);
      Prefixed(m, HandshakeOk, [ClearConn] + [], t);
      assert DialOk !in [HandshakeOk] + ([ClearConn] + []);
    } else {
      StepKeepsConn(s, DialOk, ClearedSinceDial(before, false));
      assert NoneToClear(m);
      forall es, t | Reaches(m, es, t) && DialOk !in es && t.reading > 0
        ensures t.conn.Some?
      {
        NoDial(m, es);
        RunKeepsNone(m, es, t);
      }
    }
  }

  // ---------------------------------------------------------------- what overlap can do

  lemma Prefixed(s: State, e: Event, es: seq<Event>, t: State)
    requires Enabled(s, e) && Reaches(Step(s, e), es, t)
    ensures Reaches(s, [e] + es, t)
  {
    assert ([e] + es)[1..] == es;
  }

  lemma {:induction false} Joined(s: State, es: seq<Event>, m: State, e: Event)
    requires Reaches(s, es, m) && Enabled(m, e)
    ensures Reaches(s, es + [e], Step(m, e))
    decreases |es|
  {
    if es == [] {
      Prefixed(s, e, [], Step(s, e));
      assert [e] + [] == es + [e];
    } else {
      Joined(Step(s, es[0]), es[1..], m, e);
      assert (es + [e])[1..] == es[1..] + [e];
    }
  }

  lemma Then(s: State, es: seq<Event>, m: State, e: Event) returns (es': seq<Event>, t: State)
    requires Reaches(s, es, m) && Enabled(m, e)
    ensures Reaches(s, es', t) && t == Step(m, e)
  {
    Joined(s, es, m, e);
    es', t := es + [e], Step(m, e);
  }

  /** The first connection is up, lost, and the listener told. */
  lemma LostOnce() returns (es: seq<Event>, t: State)
    ensures Reaches(INIT, es, t) && t == State(Some(0), 1, [], Dialing(CONNECT_TRIES), 0, 0, 1, 0, 1, [], [], [], false)
  {
    es, t := [], INIT;
    es, t := Then(INIT, es, t, DialOk);
    es, t := Then(INIT, es, t, HandshakeOk);
    es, t := Then(INIT, es, t, SpawnConsumer);
    es, t := Then(INIT, es, t, LoseConnection);
    es, t := Then(INIT, es, t, Signal);
  }

  /**
   The old reader clears the connection only after telling the listener, and so may clear the new one:
   the next write ends the process.
   */
  lemma OldReaderClearsNewConnection(m: Message) returns (es: seq<Event>, t: State)
    ensures Reaches(INIT, es, t) && t.reading == 1 && t.conn.None? && t.nextConn == 2 && t.down
  {
    es, t := LostOnce();
    es, t := Then(INIT, es, t, DialOk);
    es, t := Then(INIT, es, t, HandshakeOk);
    es, t := Then(INIT, es, t, SpawnConsumer);
    es, t := Then(INIT, es, t, ClearConn);
    es, t := Then(INIT, es, t, Send(m));
    es, t := Then(INIT, es, t, Take);
    es, t := Then(INIT, es, t, Write(0));
  }

  /** With two consumers during an overlap, messages can overtake each other. */
  lemma OverlapCanReorder(m1: Message, m2: Message) returns (es: seq<Event>, t: State)
    ensures Reaches(INIT, es, t) && t.enqueued == [m1, m2] && Written(t.attempted) == [m2, m1]
  {
    es, t := ConnectedAgain();
    es, t := TwoInHand(es, t, m1, m2);
    es, t := Then(INIT, es, t, Write(1));
    es, t := Then(INIT, es, t, Write(0));
  }

  /** A second connection is up while the first one's sentinel is still to be queued. */
  lemma ConnectedAgain() returns (es: seq<Event>, t: State)
    ensures Reaches(INIT, es, t) && t == State(Some(1), 2, [], Idle, 1, 0, 0, 1, 2, [], [], [], false)
  {
    es, t := LostOnce();
    es, t := Then(INIT, es, t, ClearConn);
    es, t := Then(INIT, es, t, DialOk);
    es, t := Then(INIT, es, t, HandshakeOk);
    es, t := Then(INIT, es, t, SpawnConsumer);
  }

  lemma TwoInHand(es0: seq<Event>, s: State, m1: Message, m2: Message) returns (es: seq<Event>, t: State)
    requires Reaches(INIT, es0, s) && s.queue == [] && s.waiting == 2 && s.holding == [] && !s.down && s.enqueued == []
    ensures Reaches(INIT, es, t)
    ensures t == s.(waiting := 0, holding := [m1, m2], enqueued := [m1, m2])
  {
    es, t := Then(INIT, es0, s, Send(m1));
    es, t := Then(INIT, es, t, Send(m2));
    es, t := Then(INIT, es, t, Take);
    es, t := Then(INIT, es, t, Take);
  }
}
