/**
 The life of a command in the agent (service/cmd_service.go, executor/executor.go,
 config/manager.go): one dispatcher, one worker goroutine per started command, and the idle
 timer. Each event is one step; the three steps of `release` are separate events.
 */
module CmdService {
  import opened Wrappers

  type Id = string

  /**
   Where the dispatcher is. Accepted: IsRunning was false. Busy: EventOnBusy fired. Built:
   s.executor set, not initialised. Failing: a panic was recovered. The last three are the
   dispatcher's own `release`. KillCall: a kill found an executor and is about to use it.
   */
  datatype Dispatcher =
    | Waiting | Accepted(id: Id) | Busy(id: Id) | Built(id: Id) | Failing(id: Id)
    | Releasing | ReleaseClosed | ReleaseCleared | KillCall

  /** Where a command's goroutine is; Ran: Start has returned; Sent: the result is sent. */
  datatype Worker = NotStarted | Running | Ran | Sent | Closed | Cleared | Exited

  datatype AgentStatus = AgentIdle | AgentBusy

  /** Why the agent process ended: it used a nil executor, or the idle timer fired. */
  datatype Down = NilExecutor | IdleExit

  datatype State = State(
    disp: Dispatcher,
    exec: Option<nat>,             // s.executor, by number
    owner: seq<Id>,                // the command of each executor, in the order they were built
    closes: seq<nat>,              // how often each was closed
    workers: seq<Worker>,
    saw: seq<(nat, nat)>,          // worker number and the executor it found in s.executor
    accepted: seq<Id>,
    sent: seq<Id>,                 // ids of the shell results sent
    status: AgentStatus,
    armed: bool,                   // the idle timer
    exitOnIdle: int,
    killRaced: bool,               // s.executor was cleared between a kill's check and its call
    down: Option<Down>
  )

  function FireIdle(s: State): State {
    s.(status := AgentIdle, armed := s.armed || s.exitOnIdle > 0)
  }

  function FireBusy(s: State): State {
    s.(status := AgentBusy, armed := false)
  }

  /** Manager.Init ends with the idle event. */
  function AfterInit(exitOnIdle: int): State {
    FireIdle(State(Waiting, None, [], [], [], [], [], [], AgentIdle, false, exitOnIdle, false, None))
  }

  datatype Event =
    | Receive(id: Id) | Reject(id: Id) | GoBusy | PrepareFails | Build | InitFails | InitOk
    | SendFailure | ReleaseCheck | ReleaseClear | ReleaseIdle | KillCheck | Kill
    | WorkerStart(k: nat) | WorkerSend(k: nat) | WorkerClose(k: nat) | WorkerClear(k: nat) | WorkerIdle(k: nat)
    | Reconfigure(exitOnIdle: int) | IdleTimeout

  predicate WorkerAt(s: State, k: nat, w: Worker) {
    k < |s.workers| && s.workers[k] == w
  }

  ghost predicate SomeCleared(s: State) {
    exists k :: 0 <= k < |s.workers| && s.workers[k] == Cleared
  }

  predicate Enabled(s: State, e: Event) {
    s.down.None? &&
    match e
    case Receive(_) => s.disp == Waiting && s.exec.None?
    case Reject(_) => s.disp == Waiting && s.exec.Some?
    case GoBusy => s.disp.Accepted?
    case PrepareFails => s.disp.Busy?
    case Build => s.disp.Busy?
    case InitFails => s.disp.Built?
    case InitOk => s.disp.Built? && s.workers != []
    case SendFailure => s.disp.Failing?
    case ReleaseCheck => s.disp == Releasing
    case ReleaseClear => s.disp == ReleaseClosed
    case ReleaseIdle => s.disp == ReleaseCleared
    case KillCheck => s.disp == Waiting && s.exec.Some?
    case Kill => s.disp == KillCall
    case WorkerStart(k) => WorkerAt(s, k, Running)
    case WorkerSend(k) => WorkerAt(s, k, Ran)
    case WorkerClose(k) => WorkerAt(s, k, Sent)
    case WorkerClear(k) => WorkerAt(s, k, Closed)
    case WorkerIdle(k) => WorkerAt(s, k, Cleared)
    case Reconfigure(_) => true
    case IdleTimeout => s.armed
  }

  function CloseExecutor(s: State, k: nat): State {
    if k < |s.closes| then s.(closes := s.closes[k := s.closes[k] + 1]) else s
  }

  /** What a worker does with whatever it finds in s.executor; nil ends the process. */
  ghost function WorkerUses(s: State, k: nat, next: Worker): State
    requires k < |s.workers|
  {
    match s.exec
    case None => s.(down := Some(NilExecutor))
    case Some(e) => s.(saw := s.saw + [(k, e)], workers := s.workers[k := next])
  }

  function OwnerOf(s: State, e: nat): seq<Id> {
    if e < |s.owner| then [s.owner[e]] else []
  }

  ghost function Step(s: State, e: Event): State
    requires Enabled(s, e)
  {
    match e
    case Receive(id) => s.(disp := Accepted(id), accepted := s.accepted + [id])
    case Reject(_) => s
    case GoBusy => FireBusy(s).(disp := Busy(s.disp.id))
    case PrepareFails => s.(disp := Failing(s.disp.id))
    case Build =>
      s.(disp := Built(s.disp.id), exec := Some(|s.owner|), owner := s.owner + [s.disp.id],
         closes := s.closes + [0], workers := s.workers + [NotStarted])
    case InitFails => s.(disp := Failing(s.disp.id))
    case InitOk => s.(disp := Waiting, workers := s.workers[|s.workers| - 1 := Running])
    case SendFailure => s.(disp := Releasing, sent := s.sent + [s.disp.id])
    case ReleaseCheck =>
      if s.exec.Some? then CloseExecutor(s, s.exec.value).(disp := ReleaseClosed) else s.(disp := Waiting)
    case ReleaseClear => s.(disp := ReleaseCleared, exec := None)
    case ReleaseIdle => FireIdle(s).(disp := Waiting)
    case KillCheck => s.(disp := KillCall)
    case Kill => if s.exec.Some? then s.(disp := Waiting) else s.(down := Some(NilExecutor))
    case WorkerStart(k) => WorkerUses(s, k, Ran)
    case WorkerSend(k) =>
      var s' := WorkerUses(s, k, Sent);
      if s.exec.Some? then s'.(sent := s.sent + OwnerOf(s, s.exec.value)) else s'
    case WorkerClose(k) =>
      var s' := WorkerUses(s, k, Closed);
      if s.exec.Some? then CloseExecutor(s', s.exec.value) else s'
    case WorkerClear(k) =>
      s.(exec := None, workers := s.workers[k := Cleared], killRaced := s.killRaced || s.disp == KillCall)
    case WorkerIdle(k) => FireIdle(s).(workers := s.workers[k := Exited])
    case Reconfigure(n) => s.(exitOnIdle := n)
    case IdleTimeout => s.(down := Some(IdleExit))
  }

  ghost predicate Reaches(s: State, es: seq<Event>, t: State)
    decreases |es|
  {
    if es == [] then s == t
    else Enabled(s, es[0]) && Reaches(Step(s, es[0]), es[1..], t)
  }

  // ---------------------------------------------------------------- what every step keeps

  /** The command accepted but not yet answered, if any. */
  function InFlight(s: State): seq<Id> {
    match s.disp
    case Accepted(id) => [id]
    case Busy(id) => [id]
    case Built(id) => [id]
    case Failing(id) => [id]
    case _ =>
      if s.exec.Some? && s.exec.value < |s.owner| && s.exec.value < |s.workers|
         && (s.workers[s.exec.value] == Running || s.workers[s.exec.value] == Ran)
      then [s.owner[s.exec.value]]
      else []
  }

  predicate Shape(s: State) {
    && |s.owner| == |s.closes| == |s.workers|
    && (s.exec.Some? ==> s.exec.value == |s.owner| - 1)
  }

  /** An executor no longer in s.executor has been closed once and has no worker that will use it. */
  predicate OldOnes(s: State)
    requires Shape(s)
  {
    forall k :: 0 <= k < |s.owner| && s.exec != Some(k) ==>
      s.closes[k] == 1 && (s.workers[k] == NotStarted || s.workers[k] == Cleared || s.workers[k] == Exited)
  }

  /** The executor in s.executor belongs to the dispatcher until its worker starts, then to the worker. */
  predicate Current(s: State)
    requires Shape(s)
  {
    match s.exec
    case None => !s.disp.Built? && s.disp != ReleaseClosed
    case Some(k) =>
      && s.workers[k] != Cleared && s.workers[k] != Exited
      && s.closes[k] == (if s.workers[k] == Closed || s.disp == ReleaseClosed then 1 else 0)
      && if s.workers[k] == NotStarted
         then
           || s.disp == Built(s.owner[k]) || s.disp == Failing(s.owner[k])
           || s.disp == Releasing || s.disp == ReleaseClosed
         else (s.disp == Waiting || s.disp == KillCall)
  }

  predicate Conserved(s: State) {
    s.sent + InFlight(s) == s.accepted
  }

  predicate OwnOnly(s: State) {
    forall i :: 0 <= i < |s.saw| ==> s.saw[i].0 == s.saw[i].1
  }

  predicate NilOnlyByRace(s: State) {
    && (s.killRaced <==> s.disp == KillCall && s.exec.None?)
    && (s.down == Some(NilExecutor) ==> s.killRaced)
  }

  ghost predicate Inv(s: State) {
    Shape(s) && OldOnes(s) && Current(s) && Conserved(s) && OwnOnly(s) && NilOnlyByRace(s)
  }

  lemma {:induction false} RunKeepsInv(s: State, es: seq<Event>, t: State)
    requires Inv(s) && Reaches(s, es, t)
    ensures Inv(t)
    decreases |es|
  {
    if es != [] {
      StepKeepsInv(s, es[0]);
      RunKeepsInv(Step(s, es[0]), es[1..], t);
    }
  }

  lemma StepKeepsInv(s: State, e: Event)
    requires Inv(s) && Enabled(s, e)
    ensures Inv(Step(s, e))
  {
    StepKeepsExecutors(s, e);
    StepKeepsConserved(s, e);
  }

  lemma StepKeepsExecutors(s: State, e: Event)
    requires Inv(s) && Enabled(s, e)
    ensures var t := Step(s, e); Shape(t) && OldOnes(t) && Current(t) && OwnOnly(t) && NilOnlyByRace(t)
  {
    hide Conserved, SomeCleared, InFlight;
    StepKeepsCurrent(s, e);
    StepKeepsRecords(s, e);
  }

  predicate ByWorker(e: Event) {
    e.WorkerStart? || e.WorkerSend? || e.WorkerClose? || e.WorkerClear?
  }

  lemma StepKeepsCurrent(s: State, e: Event)
    requires Shape(s) && OldOnes(s) && Current(s) && Enabled(s, e)
    ensures var t := Step(s, e); Shape(t) && OldOnes(t) && Current(t)
  {
    if ByWorker(e) {
      WorkerKeepsCurrent(s, e);
    } else if e.Build? {
      BuildKeepsCurrent(s);
    } else {
      DispatcherKeepsCurrent(s, e);
    }
  }

  /** A worker at work finds its own executor in s.executor. */
  lemma WorkerKeepsCurrent(s: State, e: Event)
    requires Shape(s) && OldOnes(s) && Current(s) && Enabled(s, e) && ByWorker(e)
    ensures s.exec == Some(e.k)
    ensures var t := Step(s, e); Shape(t) && OldOnes(t) && Current(t)
  {
    hide SomeCleared;
    var k := e.k;
    assert s.exec == Some(k);
    var t := Step(s, e);
    assert forall i :: 0 <= i < |s.owner| && i != k ==> t.workers[i] == s.workers[i] && t.closes[i] == s.closes[i];
  }

  lemma BuildKeepsCurrent(s: State)
    requires Shape(s) && OldOnes(s) && Current(s) && Enabled(s, Build)
    ensures var t := Step(s, Build); Shape(t) && OldOnes(t) && Current(t)
  {
    hide SomeCleared;
    assert s.exec.None?;
  }

  lemma DispatcherKeepsCurrent(s: State, e: Event)
    requires Shape(s) && OldOnes(s) && Current(s) && Enabled(s, e) && !ByWorker(e) && !e.Build?
    ensures var t := Step(s, e); Shape(t) && OldOnes(t) && Current(t)
  {
    hide SomeCleared;
    if e.InitOk? {
      InitOkKeepsCurrent(s);
    } else if e.ReleaseCheck? {
      ReleaseCheckKeepsCurrent(s);
    } else if e.WorkerIdle? {
      WorkerIdleKeepsCurrent(s, e.k);
    } else {
      assert SameExecutors(s, Step(s, e));
    }
  }

  predicate SameExecutors(s: State, t: State) {
    t.owner == s.owner && t.closes == s.closes && t.workers == s.workers
  }

  lemma InitOkKeepsCurrent(s: State)
    requires Shape(s) && OldOnes(s) && Current(s) && Enabled(s, InitOk)
    ensures var t := Step(s, InitOk); Shape(t) && OldOnes(t) && Current(t)
  {
    hide SomeCleared;
    assert s.exec == Some(|s.owner| - 1);
  }

  lemma ReleaseCheckKeepsCurrent(s: State)
    requires Shape(s) && OldOnes(s) && Current(s) && Enabled(s, ReleaseCheck)
    ensures var t := Step(s, ReleaseCheck); Shape(t) && OldOnes(t) && Current(t)
  {
    hide SomeCleared;
  }

  lemma WorkerIdleKeepsCurrent(s: State, k: nat)
    requires Shape(s) && OldOnes(s) && Current(s) && Enabled(s, WorkerIdle(k))
    ensures var t := Step(s, WorkerIdle(k)); Shape(t) && OldOnes(t) && Current(t)
  {
    hide SomeCleared;
  }

  lemma StepKeepsRecords(s: State, e: Event)
    requires Shape(s) && OldOnes(s) && Current(s) && OwnOnly(s) && NilOnlyByRace(s) && Enabled(s, e)
    ensures var t := Step(s, e); OwnOnly(t) && NilOnlyByRace(t)
  {
    hide SomeCleared;
  }

  lemma StepKeepsConserved(s: State, e: Event)
    requires Inv(s) && Enabled(s, e)
    ensures Conserved(Step(s, e))
  {
    hide SomeCleared, OwnOnly, NilOnlyByRace;
    if ByWorker(e) {
      WorkerKeepsCurrent(s, e);
      WorkerKeepsConserved(s, e);
    } else {
      DispatcherKeepsConserved(s, e);
    }
  }

  lemma WorkerKeepsConserved(s: State, e: Event)
    requires Shape(s) && Current(s) && Conserved(s) && Enabled(s, e) && ByWorker(e) && s.exec == Some(e.k)
    ensures Conserved(Step(s, e))
  {
    hide SomeCleared;
  }

  lemma DispatcherKeepsConserved(s: State, e: Event)
    requires Shape(s) && Current(s) && Conserved(s) && Enabled(s, e) && !ByWorker(e)
    ensures Conserved(Step(s, e))
  {
    hide SomeCleared;
  }

  // ---------------------------------------------------------------- the idle timer

  /** Whether the command to go busy last did so while no other command's release was half done. */
  ghost function LastAlone(s: State, es: seq<Event>, alone: bool): bool
    decreases |es|
  {
    if es == [] || !Enabled(s, es[0]) then alone
    else LastAlone(Step(s, es[0]), es[1..], AloneAfter(s, es[0], alone))
  }

  ghost function AloneAfter(s: State, e: Event, alone: bool): bool {
    if e.GoBusy? then !SomeCleared(s) else alone
  }

  /** An armed timer means an idle agent; and until a command that went busy alone is done, none is armed. */
  ghost predicate TimerInv(s: State, alone: bool) {
    && (s.armed ==> s.status == AgentIdle)
    && (alone && (s.exec.Some? || s.disp.Busy? || s.disp == ReleaseClosed) ==> !s.armed && !SomeCleared(s))
  }

  lemma StepKeepsTimer(s: State, e: Event, alone: bool)
    requires Inv(s) && TimerInv(s, alone) && Enabled(s, e)
    ensures TimerInv(Step(s, e), AloneAfter(s, e, alone))
  {
    if SomeCleared(Step(s, e)) && !e.WorkerClear? {
      ClearedBefore(s, e);
    }
    if e.WorkerIdle? {
      ClearedNow(s, e.k);
    }
    TimerStep(s, e, alone);
  }

  lemma TimerStep(s: State, e: Event, alone: bool)
    requires Shape(s) && OldOnes(s) && Current(s) && TimerInv(s, alone) && Enabled(s, e)
    requires SomeCleared(Step(s, e)) && !e.WorkerClear? ==> SomeCleared(s)
    requires e.WorkerIdle? ==> SomeCleared(s)
    ensures TimerInv(Step(s, e), AloneAfter(s, e, alone))
  {
    if ByWorker(e) {
      WorkerKeepsCurrent(s, e);
    }
    hide SomeCleared, Shape, OldOnes;
  }

  lemma {:induction false} RunKeepsTimer(s: State, es: seq<Event>, t: State, alone: bool)
    requires Inv(s) && TimerInv(s, alone) && Reaches(s, es, t)
    ensures TimerInv(t, LastAlone(s, es, alone))
    decreases |es|
  {
    if es != [] {
      StepKeepsInv(s, es[0]);
      StepKeepsTimer(s, es[0], alone);
      hide Step, Enabled, Inv, TimerInv, AloneAfter;
      RunKeepsTimer(Step(s, es[0]), es[1..], t, AloneAfter(s, es[0], alone));
    }
  }

  lemma {:induction false} NoneGoesBusy(s: State, es: seq<Event>, alone: bool)
    requires GoBusy !in es
    ensures LastAlone(s, es, alone) == alone
    decreases |es|
  {
    if es != [] && Enabled(s, es[0]) {
      assert es[0] in es && forall e :: e in es[1..] ==> e in es;
      hide Step, Enabled;
      NoneGoesBusy(Step(s, es[0]), es[1..], alone);
    }
  }

  lemma ClearedNow(s: State, k: nat)
    requires WorkerAt(s, k, Cleared)
    ensures SomeCleared(s)
  {
    assert s.workers[k] == Cleared;
  }

  lemma ClearedBefore(s: State, e: Event)
    requires Enabled(s, e) && SomeCleared(Step(s, e)) && !e.WorkerClear?
    ensures SomeCleared(s)
  {
    var t := Step(s, e);
    var k :| 0 <= k < |t.workers| && t.workers[k] == Cleared;
    assert k < |s.workers| && s.workers[k] == Cleared;
  }

  // ---------------------------------------------------------------- the main results

  /** In every interleaving: at most one executor is unclosed, it is the current one, and none is closed twice. */
  lemma ClosedOnce(exitOnIdle: int, es: seq<Event>, t: State)
    requires Reaches(AfterInit(exitOnIdle), es, t)
    ensures forall k :: 0 <= k < |t.closes| ==> t.closes[k] <= 1
    ensures forall k :: 0 <= k < |t.closes| && t.closes[k] == 0 ==> t.exec == Some(k)
  {
    RunKeepsInv(AfterInit(exitOnIdle), es, t);
  }

  /** Every worker only ever finds its own executor. */
  lemma WorkersSeeTheirOwn(exitOnIdle: int, es: seq<Event>, t: State)
    requires Reaches(AfterInit(exitOnIdle), es, t)
    ensures forall i :: 0 <= i < |t.saw| ==> t.saw[i].0 == t.saw[i].1
  {
    RunKeepsInv(AfterInit(exitOnIdle), es, t);
  }

  /** The results sent, and the command in flight if any, are the accepted commands in order. */
  lemma EveryCommandAnsweredOnce(exitOnIdle: int, es: seq<Event>, t: State)
    requires Reaches(AfterInit(exitOnIdle), es, t)
    ensures t.sent + InFlight(t) == t.accepted && |InFlight(t)| <= 1
  {
    RunKeepsInv(AfterInit(exitOnIdle), es, t);
  }

  /**
   An armed idle timer always means an idle agent, and one without an executor unless the command
   to go busy last did so while another's release was half done.
   */
  lemma TimerOnlyWhenIdle(exitOnIdle: int, es: seq<Event>, t: State)
    requires Reaches(AfterInit(exitOnIdle), es, t) && t.armed
    ensures t.status == AgentIdle
    ensures LastAlone(AfterInit(exitOnIdle), es, true) ==> t.exec.None?
  {
    RunKeepsTimer(AfterInit(exitOnIdle), es, t, true);
  }

  predicate IsIdleEvent(e: Event) {
    e == ReleaseIdle || e.WorkerIdle?
  }

  /**
   Since the last command went busy, or since `armed` told so at the start, an idle event has come
   while the limit, now `limit`, was positive.
   */
  predicate IdleWhileLimited(es: seq<Event>, limit: int, armed: bool)
    decreases |es|
  {
    if es == [] then armed
    else
      var e := es[0];
      IdleWhileLimited(es[1..],
        if e.Reconfigure? then e.exitOnIdle else limit,
        e != GoBusy && (armed || (IsIdleEvent(e) && limit > 0)))
  }

  lemma LimitStep(s: State, e: Event)
    requires Enabled(s, e)
    ensures Step(s, e).exitOnIdle == if e.Reconfigure? then e.exitOnIdle else s.exitOnIdle
    ensures Step(s, e).armed <==> e != GoBusy && (s.armed || (IsIdleEvent(e) && s.exitOnIdle > 0))
  {
  }

  lemma {:induction false} RunKeepsLimit(s: State, es: seq<Event>, t: State)
    requires Reaches(s, es, t)
    ensures t.armed == IdleWhileLimited(es, s.exitOnIdle, s.armed)
    decreases |es|
  {
    if es != [] {
      LimitStep(s, es[0]);
      hide Step, Enabled, IsIdleEvent;
      RunKeepsLimit(Step(s, es[0]), es[1..], t);
    }
  }

  /**
   The idle timer is armed, and can end the agent, if and only if since the last command went busy
   an idle event, be it the first one at the agent's start, has come while the limit was positive.
   */
  lemma ArmedExactly(exitOnIdle: int, es: seq<Event>, t: State)
    requires Reaches(AfterInit(exitOnIdle), es, t)
    ensures t.armed <==> IdleWhileLimited(es, exitOnIdle, exitOnIdle > 0)
    ensures t.down.None? ==> (Enabled(t, IdleTimeout) <==> IdleWhileLimited(es, exitOnIdle, exitOnIdle > 0))
  {
    RunKeepsLimit(AfterInit(exitOnIdle), es, t);
  }

  lemma {:induction false} NeverLimited(es: seq<Event>, limit: int)
    requires limit <= 0 && forall e :: e in es && e.Reconfigure? ==> e.exitOnIdle <= 0
    ensures !IdleWhileLimited(es, limit, false)
    decreases |es|
  {
    if es != [] {
      assert es[0] in es && forall e :: e in es[1..] ==> e in es;
      NeverLimited(es[1..], if es[0].Reconfigure? then es[0].exitOnIdle else limit);
    }
  }

  lemma {:induction false} ExitNeedsArmed(s: State, es: seq<Event>, t: State)
    requires Reaches(s, es, t) && (s.down == Some(IdleExit) ==> s.armed)
    ensures t.down == Some(IdleExit) ==> t.armed
    decreases |es|
  {
    if es != [] {
      ExitStep(s, es[0]);
      hide Step, Enabled;
      ExitNeedsArmed(Step(s, es[0]), es[1..], t);
    }
  }

  lemma ExitStep(s: State, e: Event)
    requires Enabled(s, e)
    ensures Step(s, e).down == Some(IdleExit) ==> Step(s, e).armed
  {
  }

  /** An agent that is never given a positive limit never exits for being idle. */
  lemma NoLimitNoExit(exitOnIdle: int, es: seq<Event>, t: State)
    requires Reaches(AfterInit(exitOnIdle), es, t)
    requires exitOnIdle <= 0 && forall e :: e in es && e.Reconfigure? ==> e.exitOnIdle <= 0
    ensures !t.armed && t.down != Some(IdleExit)
  {
    ArmedExactly(exitOnIdle, es, t);
    NeverLimited(es, exitOnIdle);
    ExitNeedsArmed(AfterInit(exitOnIdle), es, t);
  }

  /** No event comes between a worker's clearing of s.executor, if `cleared` did so last, and its idle event. */
  predicate ReleaseInOneStep(es: seq<Event>, cleared: Option<nat>)
    decreases |es|
  {
    es != [] ==>
      && (cleared.Some? ==> es[0] == WorkerIdle(cleared.value))
      && ReleaseInOneStep(es[1..], if es[0].WorkerClear? then Some(es[0].k) else None)
  }

  /** At most the worker named last has cleared s.executor and not yet fired its idle event. */
  predicate ClearedOnly(s: State, cleared: Option<nat>) {
    forall k :: 0 <= k < |s.workers| && s.workers[k] == Cleared ==> cleared == Some(k)
  }

  lemma OneStepRelease(s: State, e: Event, cleared: Option<nat>)
    requires Enabled(s, e) && ClearedOnly(s, cleared)
    requires cleared.Some? ==> e == WorkerIdle(cleared.value)
    ensures ClearedOnly(Step(s, e), if e.WorkerClear? then Some(e.k) else None) && AloneAfter(s, e, true)
  {
  }

  /** Every command goes busy while no other command's release is half done. */
  ghost predicate EveryAlone(s: State, es: seq<Event>)
    decreases |es|
  {
    es != [] && Enabled(s, es[0]) ==> AloneAfter(s, es[0], true) && EveryAlone(Step(s, es[0]), es[1..])
  }

  lemma {:induction false} OneStepAlone(s: State, es: seq<Event>, cleared: Option<nat>)
    requires ReleaseInOneStep(es, cleared) && ClearedOnly(s, cleared)
    ensures EveryAlone(s, es)
    decreases |es|
  {
    hide Step, Enabled, ClearedOnly, AloneAfter;
    if es != [] && Enabled(s, es[0]) {
      OneStepRelease(s, es[0], cleared);
      OneStepAlone(Step(s, es[0]), es[1..], if es[0].WorkerClear? then Some(es[0].k) else None);
    }
  }

  lemma {:induction false} EveryIsLast(s: State, es: seq<Event>)
    requires EveryAlone(s, es)
    ensures LastAlone(s, es, true)
    decreases |es|
  {
    hide Step, Enabled;
    if es != [] && Enabled(s, es[0]) {
      EveryIsLast(Step(s, es[0]), es[1..]);
    }
  }

  /**
   With `release` as one step, an armed idle timer always means an idle agent without an executor,
   reconnects or not.
   */
  lemma TimerIfReleaseIsOneStep(exitOnIdle: int, es: seq<Event>, t: State)
    requires Reaches(AfterInit(exitOnIdle), es, t) && ReleaseInOneStep(es, None) && t.armed
    ensures t.status == AgentIdle && t.exec.None?
  {
    OneStepAlone(AfterInit(exitOnIdle), es, None);
    EveryIsLast(AfterInit(exitOnIdle), es);
    TimerOnlyWhenIdle(exitOnIdle, es, t);
  }

  /** A nil executor is only ever used by a kill whose check was overtaken by a release. */
  lemma NilExecutorNeedsRace(exitOnIdle: int, es: seq<Event>, t: State)
    requires Reaches(AfterInit(exitOnIdle), es, t) && t.down == Some(NilExecutor)
    ensures t.killRaced
  {
    RunKeepsInv(AfterInit(exitOnIdle), es, t);
  }

  // ---------------------------------------------------------------- exactly when it goes wrong

  lemma {:induction false} KillWindow(s: State, es: seq<Event>, t: State)
    requires Inv(s) && s.disp == KillCall && Reaches(s, es, t) && Kill !in es
    ensures t.disp == KillCall
    ensures t.exec.None? <==> s.exec.None? || exists i :: 0 <= i < |es| && es[i].WorkerClear?
    decreases |es|
  {
    if es != [] {
      var m, rest := Step(s, es[0]), es[1..];
      StepKeepsInv(s, es[0]);
      KillStep(s, es[0]);
      assert forall e :: e in rest ==> e in es;
      hide Inv, Step, Enabled;
      KillWindow(m, rest, t);
      if i :| 0 <= i < |rest| && rest[i].WorkerClear? {
        assert es[i + 1].WorkerClear?;
      }
      assert forall i :: 1 <= i < |es| ==> es[i] == rest[i - 1];
    }
  }

  lemma KillStep(s: State, e: Event)
    requires Enabled(s, e) && s.disp == KillCall && e != Kill
    ensures Step(s, e).disp == KillCall
    ensures Step(s, e).exec.None? <==> s.exec.None? || e.WorkerClear?
  {
  }

  /** A kill meets no executor if and only if a worker clears it between the kill's check and its call. */
  lemma KillMeetsNilExactly(exitOnIdle: int, before: seq<Event>, s: State, es: seq<Event>, t: State)
    requires Reaches(AfterInit(exitOnIdle), before, s) && Enabled(s, KillCheck)
    requires Reaches(Step(s, KillCheck), es, t) && Kill !in es && Enabled(t, Kill)
    ensures Step(t, Kill).down == Some(NilExecutor) <==> exists i :: 0 <= i < |es| && es[i].WorkerClear?
  {
    RunKeepsInv(AfterInit(exitOnIdle), before, s);
    StepKeepsInv(s, KillCheck);
    KillWindow(Step(s, KillCheck), es, t);
  }

  /** Some run goes on from `s`, no further command going busy, to an armed timer and an executor. */
  ghost predicate CanArm(s: State) {
    exists es, t :: Reaches(s, es, t) && GoBusy !in es && t.armed && t.exec.Some?
  }

  /**
   The idle timer can be armed while a command has its executor exactly if another command's
   release was half done when it went busy; the idle limit may come with a reconnect.
   */
  lemma ArmedDuringCommandExactly(exitOnIdle: int, before: seq<Event>, s: State)
    requires Reaches(AfterInit(exitOnIdle), before, s) && Enabled(s, GoBusy)
    ensures CanArm(Step(s, GoBusy)) <==> SomeCleared(s)
  {
    var m, alone := Step(s, GoBusy), LastAlone(AfterInit(exitOnIdle), before, true);
    RunKeepsInv(AfterInit(exitOnIdle), before, s);
    RunKeepsTimer(AfterInit(exitOnIdle), before, s, true);
    StepKeepsInv(s, GoBusy);
    StepKeepsTimer(s, GoBusy, alone);
    if SomeCleared(s) {
      var k :| 0 <= k < |s.workers| && s.workers[k] == Cleared;
      ArmingRun(m, k);
    } else {
      hide Step, Enabled, SomeCleared, Inv;
      forall es, t | Reaches(m, es, t) && GoBusy !in es && t.exec.Some?
        ensures !t.armed
      {
        RunKeepsTimer(m, es, t, true);
        NoneGoesBusy(m, es, true);
      }
    }
  }

  lemma ArmingRun(m: State, k: nat)
    requires m.down.None? && m.disp.Busy? && WorkerAt(m, k, Cleared)
    ensures CanArm(m)
  {
    var c := Step(m, Reconfigure(1));
    var b := Step(c, Build);
    assert b.workers[k] == Cleared;
    var t := Step(b, WorkerIdle(k));
    assert t.armed && t.exec.Some?;
    Prefixed(b, WorkerIdle(k), [], t);
    Prefixed(c, Build, [WorkerIdle(k)] + [], t);
    Prefixed(m, Reconfigure(1), [Build] + ([WorkerIdle(k)] + []), t);
    assert GoBusy !in [Reconfigure(1)] + ([Build] + ([WorkerIdle(k)] + []));
  }

  /**
   Whether the last command to be prepared failed before it had an executor, having gone busy
   while no other command's release was half done (`alone`).
   */
  ghost function Stranded(s: State, es: seq<Event>, alone: bool, stranded: bool): bool
    decreases |es|
  {
    if es == [] || !Enabled(s, es[0]) then stranded
    else Stranded(Step(s, es[0]), es[1..], AloneAfter(s, es[0], alone), StrandedAfter(es[0], alone, stranded))
  }

  function StrandedAfter(e: Event, alone: bool, stranded: bool): bool {
    if e.PrepareFails? then alone else stranded && !e.Build?
  }

  ghost predicate StrandedInv(s: State, alone: bool, stranded: bool) {
    && (stranded ==>
          && s.exec.None? && !SomeCleared(s) && s.status == AgentBusy
          && !s.disp.Built? && s.disp != ReleaseClosed && s.disp != ReleaseCleared)
    && (!stranded && s.exec.None? && !SomeCleared(s) && !s.disp.Busy? && s.disp != ReleaseCleared ==>
          s.status == AgentIdle)
    && (s.disp.Busy? ==>
          if alone then s.status == AgentBusy && !SomeCleared(s) else SomeCleared(s) || s.status == AgentIdle)
  }

  lemma StepKeepsStranded(s: State, e: Event, alone: bool, stranded: bool)
    requires Inv(s) && StrandedInv(s, alone, stranded) && Enabled(s, e)
    ensures StrandedInv(Step(s, e), AloneAfter(s, e, alone), StrandedAfter(e, alone, stranded))
  {
    if SomeCleared(s) && !e.WorkerIdle? {
      ClearedStays(s, e);
    }
    if SomeCleared(Step(s, e)) && !e.WorkerClear? {
      ClearedBefore(s, e);
    }
    if ByWorker(e) {
      WorkerKeepsCurrent(s, e);
    }
    if e.WorkerIdle? {
      ClearedNow(s, e.k);
    }
    if e.WorkerClear? {
      assert Step(s, e).workers[e.k] == Cleared;
    }
    StrandedCore(s, e, alone, stranded);
  }

  lemma StrandedCore(s: State, e: Event, alone: bool, stranded: bool)
    requires Shape(s) && Current(s) && StrandedInv(s, alone, stranded) && Enabled(s, e)
    requires SomeCleared(s) && !e.WorkerIdle? ==> SomeCleared(Step(s, e))
    requires SomeCleared(Step(s, e)) && !e.WorkerClear? ==> SomeCleared(s)
    requires (ByWorker(e) ==> s.exec == Some(e.k)) && (e.WorkerIdle? ==> SomeCleared(s))
    requires e.WorkerClear? ==> SomeCleared(Step(s, e))
    ensures StrandedInv(Step(s, e), AloneAfter(s, e, alone), StrandedAfter(e, alone, stranded))
  {
    hide SomeCleared, Shape;
  }

  lemma ClearedStays(s: State, e: Event)
    requires Shape(s) && Current(s) && Enabled(s, e) && SomeCleared(s) && !e.WorkerIdle?
    ensures SomeCleared(Step(s, e))
  {
    var k :| 0 <= k < |s.workers| && s.workers[k] == Cleared;
    assert Step(s, e).workers[k] == Cleared;
  }

  lemma {:induction false} RunKeepsStranded(s: State, es: seq<Event>, t: State, alone: bool, stranded: bool)
    returns (alone': bool)
    requires Inv(s) && StrandedInv(s, alone, stranded) && Reaches(s, es, t)
    ensures StrandedInv(t, alone', Stranded(s, es, alone, stranded))
    decreases |es|
  {
    if es == [] {
      alone' := alone;
    } else {
      StepKeepsInv(s, es[0]);
      StepKeepsStranded(s, es[0], alone, stranded);
      alone' := RunKeepsStranded(
        Step(s, es[0]), es[1..], t, AloneAfter(s, es[0], alone), StrandedAfter(es[0], alone, stranded));
    }
  }

  /** An agent with nothing to do is BUSY if and only if the last command to be prepared failed early and alone. */
  lemma BusyExactly(exitOnIdle: int, es: seq<Event>, t: State)
    requires Reaches(AfterInit(exitOnIdle), es, t) && t.disp == Waiting && t.exec.None? && !SomeCleared(t)
    ensures t.status == AgentBusy <==> Stranded(AfterInit(exitOnIdle), es, true, false)
  {
    var alone := RunKeepsStranded(AfterInit(exitOnIdle), es, t, true, false);
  }

  /** Of the commands prepared, the last failed; `failed` tells of those before. */
  predicate LastFailed(es: seq<Event>, failed: bool)
    decreases |es|
  {
    if es == [] then failed else LastFailed(es[1..], StrandedAfter(es[0], true, failed))
  }

  lemma {:induction false} StrandedIfAlone(s: State, es: seq<Event>, t: State, failed: bool)
    requires Reaches(s, es, t) && EveryAlone(s, es)
    ensures Stranded(s, es, true, failed) == LastFailed(es, failed)
    decreases |es|
  {
    if es != [] {
      hide Step, Enabled;
      StrandedIfAlone(Step(s, es[0]), es[1..], t, StrandedAfter(es[0], true, failed));
    }
  }

  /**
   While no command goes busy inside another's release: BUSY with nothing to do means exactly that the
   last command failed early.
   */
  lemma BusyAfterFailure(exitOnIdle: int, es: seq<Event>, t: State)
    requires Reaches(AfterInit(exitOnIdle), es, t) && t.disp == Waiting && t.exec.None? && !SomeCleared(t)
    requires EveryAlone(AfterInit(exitOnIdle), es)
    ensures t.status == AgentBusy <==> LastFailed(es, false)
  {
    BusyExactly(exitOnIdle, es, t);
    StrandedIfAlone(AfterInit(exitOnIdle), es, t, false);
  }

  // ---------------------------------------------------------------- serving again

  /** Some run goes on from `s` to an agent that waits without an executor, everything accepted so far answered. */
  ghost predicate CanServe(s: State) {
    exists es, t :: Reaches(s, es, t) && Ready(t) && t.accepted == s.accepted
  }

  predicate Ready(s: State) {
    s.down.None? && s.disp == Waiting && s.exec.None?
  }

  /** One way on to there. */
  function Onward(s: State): Event {
    match s.disp
    case Accepted(_) => GoBusy
    case Busy(_) => PrepareFails
    case Built(_) => InitFails
    case Failing(_) => SendFailure
    case Releasing => ReleaseCheck
    case ReleaseClosed => ReleaseClear
    case ReleaseCleared => ReleaseIdle
    case KillCall => Kill
    case Waiting =>
      if s.exec.None? || s.exec.value >= |s.workers| then ReleaseIdle
      else match s.workers[s.exec.value]
        case Running => WorkerStart(s.exec.value)
        case Ran => WorkerSend(s.exec.value)
        case Sent => WorkerClose(s.exec.value)
        case _ => WorkerClear(s.exec.value)
  }

  function Distance(s: State): nat {
    match s.disp
    case Accepted(_) => 20
    case Busy(_) => 19
    case Built(_) => 18
    case Failing(_) => 17
    case Releasing => 16
    case ReleaseClosed => 15
    case ReleaseCleared => 14
    case KillCall => 13
    case Waiting =>
      if s.exec.None? || s.exec.value >= |s.workers| then 0
      else match s.workers[s.exec.value]
        case Running => 4
        case Ran => 3
        case Sent => 2
        case _ => 1
  }

  lemma OnwardStep(s: State)
    requires Shape(s) && OldOnes(s) && Current(s) && !s.killRaced && NilOnlyByRace(s) && s.down.None? && !Ready(s)
    ensures Enabled(s, Onward(s))
    ensures var t := Step(s, Onward(s));
      t.down.None? && !t.killRaced && t.accepted == s.accepted && Distance(t) < Distance(s)
  {
    if s.disp == Waiting {
      WorkerOnward(s);
    } else {
      DispatcherOnward(s);
    }
  }

  lemma WorkerOnward(s: State)
    requires Shape(s) && Current(s) && !s.killRaced && s.down.None? && s.disp == Waiting && s.exec.Some?
    ensures Enabled(s, Onward(s))
    ensures var t := Step(s, Onward(s));
      t.down.None? && !t.killRaced && t.accepted == s.accepted && Distance(t) < Distance(s)
  {
    hide SomeCleared;
  }

  lemma DispatcherOnward(s: State)
    requires Shape(s) && Current(s) && !s.killRaced && NilOnlyByRace(s) && s.down.None? && s.disp != Waiting
    ensures Enabled(s, Onward(s))
    ensures var t := Step(s, Onward(s));
      t.down.None? && !t.killRaced && t.accepted == s.accepted && Distance(t) < Distance(s)
  {
    hide SomeCleared;
  }

  lemma OneOnward(s: State, e: Event)
    requires Enabled(s, e) && CanServe(Step(s, e)) && Step(s, e).accepted == s.accepted
    ensures CanServe(s)
  {
    hide Step, Enabled, Ready;
    var es, t :| Reaches(Step(s, e), es, t) && Ready(t) && t.accepted == Step(s, e).accepted;
    Prefixed(s, e, es, t);
  }

  lemma {:induction false} ServesOn(s: State)
    requires Inv(s) && !s.killRaced && s.down.None?
    ensures CanServe(s)
    decreases Distance(s)
  {
    if Ready(s) {
      assert Reaches(s, [], s);
    } else {
      OnwardStep(s);
      hide Step, Enabled, Inv, Distance, Onward, CanServe;
      StepKeepsInv(s, Onward(s));
      ServesOn(Step(s, Onward(s)));
      OneOnward(s, Onward(s));
    }
  }

  /**
   From every reachable state of a living agent, unless a kill is about to use a cleared executor:
   the commands accepted can all be answered, and the agent can wait for the next one.
   */
  lemma CanServeAgain(exitOnIdle: int, before: seq<Event>, s: State) returns (es: seq<Event>, t: State)
    requires Reaches(AfterInit(exitOnIdle), before, s) && s.down.None? && !(s.disp == KillCall && s.exec.None?)
    ensures Reaches(s, es, t) && Ready(t) && t.sent == s.accepted
  {
    RunKeepsInv(AfterInit(exitOnIdle), before, s);
    ServesOn(s);
    es, t :| Reaches(s, es, t) && Ready(t) && t.accepted == s.accepted;
    RunKeepsInv(s, es, t);
    assert Conserved(t) && InFlight(t) == [];
  }

  /**
   The waiting dispatcher takes a command exactly if no earlier one has still to run or to be released,
   and otherwise rejects it, which changes nothing.
   */
  lemma OneAtATime(exitOnIdle: int, es: seq<Event>, s: State, id: Id)
    requires Reaches(AfterInit(exitOnIdle), es, s) && s.down.None? && s.disp == Waiting
    ensures Enabled(s, Reject(id)) <==>
      exists k :: 0 <= k < |s.workers|
        && (s.workers[k] == Running || s.workers[k] == Ran || s.workers[k] == Sent || s.workers[k] == Closed)
    ensures Enabled(s, Receive(id)) <==> !Enabled(s, Reject(id))
    ensures Enabled(s, Reject(id)) ==> Step(s, Reject(id)) == s
  {
    RunKeepsInv(AfterInit(exitOnIdle), es, s);
    hide Conserved, OwnOnly, NilOnlyByRace;
    if s.exec.Some? {
      assert s.workers[s.exec.value] != NotStarted;
    }
  }

  // ---------------------------------------------------------------- what can happen otherwise

  lemma Prefixed(s: State, e: Event, es: seq<Event>, t: State)
    requires Enabled(s, e) && Reaches(Step(s, e), es, t)
    ensures Reaches(s, [e] + es, t)
  {
    assert ([e] + es)[1..] == es;
  }

  lemma {:induction false} Joined(s: State, es: seq<Event>, m: State, e: Event)
    requires Reaches(s, es, m) && Enabled(m, e)
    ensures Reaches(s, es + [e], Step(m, e))
    decreases |es|
  {
    if es == [] {
      Prefixed(s, e, [], Step(s, e));
      assert [e] + [] == es + [e];
    } else {
      Joined(Step(s, es[0]), es[1..], m, e);
      assert (es + [e])[1..] == es[1..] + [e];
    }
  }

  lemma Then(s: State, es: seq<Event>, m: State, e: Event) returns (es': seq<Event>, t: State)
    requires Reaches(s, es, m) && Enabled(m, e)
    ensures Reaches(s, es', t) && t == Step(m, e)
  {
    Joined(s, es, m, e);
    es', t := es + [e], Step(m, e);
  }

  lemma OneCommandIn(s: State, id: Id) returns (es: seq<Event>, t: State)
    requires s == AfterInit(5)
    ensures Reaches(s, es, t) && t.down.None? && t.disp == Waiting && t.exec == Some(0) && t.workers == [Running]
    ensures t.exitOnIdle == 5 && !t.armed && t.owner == [id] && t.closes == [0]
  {
    es, t := [], s;
    es, t := Then(s, es, t, Receive(id));
    es, t := Then(s, es, t, GoBusy);
    es, t := Then(s, es, t, Build);
    es, t := Then(s, es, t, InitOk);
  }

  /** A command that has run and sent its result, its worker about to release. */
  lemma OneCommandRun(s: State, id: Id) returns (es: seq<Event>, t: State)
    requires s == AfterInit(5)
    ensures Reaches(s, es, t) && t.down.None? && t.disp == Waiting && t.exec == Some(0) && t.workers == [Closed]
    ensures t.exitOnIdle == 5 && !t.armed && |t.owner| == 1
  {
    es, t := OneCommandIn(s, id);
    es, t := Then(s, es, t, WorkerStart(0));
    es, t := Then(s, es, t, WorkerSend(0));
    es, t := Then(s, es, t, WorkerClose(0));
  }

  /** The next command is received while the first one's idle event is still to come. */
  lemma SecondCommandIn(s: State, a: Id, b: Id) returns (es: seq<Event>, t: State)
    requires s == AfterInit(5)
    ensures Reaches(s, es, t) && t.down.None? && t.disp == Accepted(b) && t.workers == [Cleared] && |t.owner| == 1
    ensures t.exitOnIdle == 5
  {
    es, t := OneCommandRun(s, a);
    es, t := Then(s, es, t, WorkerClear(0));
    es, t := Then(s, es, t, Receive(b));
  }

  lemma SecondCommandBusy(s: State, a: Id, b: Id) returns (es: seq<Event>, t: State)
    requires s == AfterInit(5)
    ensures Reaches(s, es, t) && t.down.None? && t.disp == Busy(b) && t.workers == [Cleared] && |t.owner| == 1
    ensures t.exitOnIdle == 5
  {
    es, t := SecondCommandIn(s, a, b);
    es, t := Then(s, es, t, GoBusy);
  }

  /** `release` is not one step: its idle event can arm the timer while the next command has an executor. */
  lemma IdleExitDuringCommand(a: Id, b: Id) returns (es: seq<Event>, t: State)
    ensures Reaches(AfterInit(5), es, t) && t.armed && t.exec.Some? && Enabled(t, IdleTimeout)
  {
    var s := AfterInit(5);
    es, t := SecondCommandBusy(s, a, b);
    es, t := Then(s, es, t, Build);
    es, t := Then(s, es, t, WorkerIdle(0));
  }

  /** A kill that found an executor can be left with none. */
  lemma KillCanMeetNil(a: Id) returns (es: seq<Event>, t: State)
    ensures Reaches(AfterInit(5), es, t) && t.down == Some(NilExecutor)
  {
    var s := AfterInit(5);
    es, t := OneCommandRun(s, a);
    es, t := Then(s, es, t, KillCheck);
    es, t := Then(s, es, t, WorkerClear(0));
    es, t := Then(s, es, t, Kill);
  }

  /** A command that fails before it has an executor leaves the agent busy with nothing to do. */
  lemma StaysBusyAfterEarlyFailure(a: Id) returns (es: seq<Event>, t: State)
    ensures Reaches(AfterInit(5), es, t)
    ensures t.disp == Waiting && t.exec.None? && t.sent == [a] && t.workers == [] && t.status == AgentBusy && !t.armed
  {
    var s := AfterInit(5);
    es, t := [], s;
    es, t := Then(s, es, t, Receive(a));
    es, t := Then(s, es, t, GoBusy);
    es, t := Then(s, es, t, PrepareFails);
    es, t := Then(s, es, t, SendFailure);
    es, t := Then(s, es, t, ReleaseCheck);
  }
}
