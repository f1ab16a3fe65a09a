/**
 The retry loop of the shell executor racing with its one-shot context watcher
 (executor/shell.go, executor/shell_bash.go), as a state machine: every event is one step of
 the loop, of the watcher or of the world, and events come in any order that is enabled.
 */
module ShellLoop {
  import opened ShellResult
  import opened Wrappers

  /**
   Where Start is. Setup: from the entry of doStart until se.command is set. Launching: until
   command.Start has ended. Launched: until toStartStatus. Alive: until the process and its tty
   are gone. Exited: until the finish check. Finishing: until toFinishStatus. Leaving: until the
   context error is read. Verdict: doStart has returned.
   */
  datatype Pc =
    | Head | Setup | Launching | Launched | Alive | Exited | Finishing | Leaving | Verdict | Returned

  datatype State = State(
    retry: int,
    allowFailure: bool,
    i: int,
    pc: Pc,
    out: bool,                   // doStart returned an error
    res: ShellOut,
    ctx: Option<ContextError>,
    watched: bool,               // the watcher has set its status
    attempts: nat,
    markers: nat,                // retry lines written to the log
    hit: nat,                    // the attempt whose window the watcher hit; 0 when none
    overwritten: bool,           // a status was set after the watcher's
    noProcess: bool,             // se.command is set, its Process is nil
    crashed: bool                // the watcher used a nil Process, which ends the agent
  )

  function Start(retry: int, allowFailure: bool): State {
    State(retry, allowFailure, retry, Head, false, NEW_OUTPUT, None, false, 0, 0, 0, false, false, false)
  }

  datatype Event =
    | Begin | GiveUp | SetupFails | Launch | LaunchFails | LaunchOk | Started(pid: int) | ProcessEnds | FinishCheck
    | Finish(exitCode: int) | ReadContext | Judge
    | ContextEnds(err: ContextError) | Watch

  predicate Enabled(s: State, e: Event) {
    !s.crashed &&
    match e
    case Begin => s.pc == Head && s.i >= 0
    case GiveUp => s.pc == Head && s.i < 0
    case SetupFails => s.pc == Setup || s.pc == Launched
    case Launch => s.pc == Setup
    case LaunchFails => s.pc == Launching
    case LaunchOk => s.pc == Launching
    case Started(_) => s.pc == Launched
    case ProcessEnds => s.pc == Alive
    case FinishCheck => s.pc == Exited
    case Finish(_) => s.pc == Finishing
    case ReadContext => s.pc == Leaving
    case Judge => s.pc == Verdict
    case ContextEnds(_) => s.ctx == None
    case Watch => s.ctx.Some? && !s.watched
  }

  function Step(s: State, e: Event): State
    requires Enabled(s, e)
  {
    match e
    case Begin => s.(pc := Setup, attempts := s.attempts + 1)
    case GiveUp => s.(pc := Returned)
    case SetupFails => s.(pc := Verdict, out := true, res := ErrorStatus(s.res), overwritten := s.watched)
    case Launch => s.(pc := Launching, noProcess := true)
    case LaunchFails => s.(pc := Verdict, out := true, res := ErrorStatus(s.res), overwritten := s.watched)
    case LaunchOk => s.(pc := Launched, noProcess := false)
    case Started(pid) => s.(pc := Alive, res := StartStatus(s.res, pid), overwritten := s.watched)
    case ProcessEnds => s.(pc := Exited)
    case FinishCheck =>
      if IsFinishStatus(s.res.status) then s.(pc := Verdict, out := false) else s.(pc := Finishing)
    case Finish(exitCode) =>
      s.(pc := Leaving, res := FinishStatus(s.res, exitCode, s.allowFailure), overwritten := s.watched)
    case ReadContext => s.(pc := Verdict, out := s.ctx.Some?)
    case Judge =>
      if s.res.status == Exception || s.out
      then s.(pc := Head, i := s.i - 1, markers := s.markers + if s.i > 0 then 1 else 0)
      else s.(pc := Returned)
    case ContextEnds(err) => s.(ctx := Some(err))
    case Watch =>
      if s.noProcess then s.(crashed := true)
      else s.(watched := true, res := ContextStatus(s.res, s.ctx.value),
         hit := if s.pc == Alive || s.pc == Exited then s.attempts else s.hit)
  }

  ghost predicate Reaches(s: State, es: seq<Event>, t: State)
    decreases |es|
  {
    if es == [] then s == t
    else Enabled(s, es[0]) && Reaches(Step(s, es[0]), es[1..], t)
  }

  lemma Prefixed(s: State, e: Event, es: seq<Event>, t: State)
    requires Enabled(s, e) && Reaches(Step(s, e), es, t)
    ensures Reaches(s, [e] + es, t)
  {
    assert ([e] + es)[1..] == es;
  }

  // ---------------------------------------------------------------- what every step keeps

  predicate Counted(s: State) {
    match s.pc
    case Head => s.attempts + s.i == s.retry
                 && s.markers == (if s.attempts > 0 && s.i < 0 then s.attempts - 1 else s.attempts)
                 && (s.retry >= 0 ==> s.i >= -1) && (s.retry < 0 ==> s.attempts == 0)
    case Returned => s.markers == (if s.attempts > 0 then s.attempts - 1 else 0)
                     && (s.retry >= 0 ==> 1 <= s.attempts <= s.retry + 1) && (s.retry < 0 ==> s.attempts == 0)
    case _ => s.attempts >= 1 && s.attempts - 1 + s.i == s.retry && 0 <= s.i && s.markers == s.attempts - 1
  }

  predicate Finished(s: State) {
    match s.pc
    case Head => s.attempts > 0 ==> IsFinishStatus(s.res.status)
    case Leaving => IsFinishStatus(s.res.status)
    case Verdict => IsFinishStatus(s.res.status)
    case Returned => s.attempts > 0 ==> IsFinishStatus(s.res.status)
    case _ => true
  }

  /** Once the watcher has hit an attempt between its start and its finish check, that attempt is the last. */
  predicate LastIfHit(s: State) {
    s.hit > 0 ==>
      && s.ctx.Some? && s.watched && s.hit == s.attempts && Reports(s.res, s.ctx.value) && !s.overwritten
      && (s.pc == Alive || s.pc == Exited || (s.pc == Verdict && !s.out) || (s.pc == Returned && !s.out))
  }

  predicate Told(s: State) {
    if s.watched then s.ctx.Some? && (Reports(s.res, s.ctx.value) <==> !s.overwritten)
    else !s.overwritten && s.res.status != Killed && s.res.status != Timeout
  }

  predicate Inv(s: State) {
    Counted(s) && Finished(s) && LastIfHit(s) && Told(s)
  }

  lemma StepKeepsInv(s: State, e: Event)
    requires Inv(s) && Enabled(s, e)
    ensures Inv(Step(s, e)) && Step(s, e).retry == s.retry
  {
    StepKeepsCounts(s, e);
    StepKeepsStatus(s, e);
  }

  lemma StepKeepsCounts(s: State, e: Event)
    requires Counted(s) && Enabled(s, e)
    ensures Counted(Step(s, e)) && Step(s, e).retry == s.retry
  {
  }

  lemma StepKeepsStatus(s: State, e: Event)
    requires Finished(s) && LastIfHit(s) && Told(s) && Counted(s) && Enabled(s, e)
    ensures Finished(Step(s, e)) && LastIfHit(Step(s, e)) && Told(Step(s, e))
  {
  }

  lemma {:induction false} RunKeepsInv(s: State, es: seq<Event>, t: State)
    requires Inv(s) && Reaches(s, es, t)
    ensures Inv(t) && t.retry == s.retry
    decreases |es|
  {
    if es != [] {
      StepKeepsInv(s, es[0]);
      RunKeepsInv(Step(s, es[0]), es[1..], t);
    }
  }

  // ---------------------------------------------------------------- the main results

  /** In every interleaving: the number of attempts, of retry lines, and the kind of the reported status. */
  lemma StartReturnsFinished(retry: int, allowFailure: bool, es: seq<Event>, t: State)
    requires retry >= 0 && Reaches(Start(retry, allowFailure), es, t) && t.pc == Returned
    ensures t.res.status in {Success, Exception, Killed, Timeout}
    ensures 1 <= t.attempts <= retry + 1 && t.markers == t.attempts - 1
  {
    RunKeepsInv(Start(retry, allowFailure), es, t);
  }

  // ---------------------------------------------------------------- retries

  predicate RetryInv(s: State) {
    && (s.pc == Head && s.attempts > 0 ==> s.res.status == Exception || s.out || s.watched)
    && (s.pc == Returned && s.retry >= 0 && (s.res.status == Exception || s.out) ==> s.attempts == s.retry + 1)
  }

  lemma StepKeepsRetry(s: State, e: Event)
    requires Counted(s) && RetryInv(s) && Enabled(s, e)
    ensures RetryInv(Step(s, e))
  {
  }

  lemma {:induction false} RunKeepsRetry(s: State, es: seq<Event>, t: State)
    requires Counted(s) && RetryInv(s) && Reaches(s, es, t)
    ensures RetryInv(t)
    decreases |es|
  {
    if es != [] {
      StepKeepsCounts(s, es[0]);
      StepKeepsRetry(s, es[0]);
      hide Step, Enabled, Counted, RetryInv;
      RunKeepsRetry(Step(s, es[0]), es[1..], t);
    }
  }

  /**
   A failed loop has used up its retries; and whenever an attempt has been judged, another is due
   exactly if it ended in an exception or with an error, and the retry line is written exactly if
   retries are left.
   */
  lemma RetriesExactly(retry: int, allowFailure: bool, es: seq<Event>, t: State)
    requires Reaches(Start(retry, allowFailure), es, t)
    ensures retry >= 0 && t.pc == Returned && (t.res.status == Exception || t.out) ==> t.attempts == retry + 1
    ensures Enabled(t, Judge) ==>
      var u := Step(t, Judge);
      && u.attempts == t.attempts && u.res == t.res
      && (Enabled(u, Begin) <==> (t.res.status == Exception || t.out) && t.attempts <= retry)
      && (u.markers == t.markers + 1 <==> Enabled(u, Begin)) && (u.markers == t.markers <==> !Enabled(u, Begin))
      && (u.pc == Returned <==> t.res.status != Exception && !t.out)
  {
    RunKeepsInv(Start(retry, allowFailure), es, t);
    RunKeepsRetry(Start(retry, allowFailure), es, t);
  }

  function Begins(es: seq<Event>): nat {
    if es == [] then 0 else (if es[0] == Begin then 1 else 0) + Begins(es[1..])
  }

  lemma {:induction false} AttemptsAreBegins(s: State, es: seq<Event>, t: State)
    requires Reaches(s, es, t)
    ensures t.attempts == s.attempts + Begins(es)
    decreases |es|
  {
    if es != [] {
      OneBegin(s, es[0]);
      hide Step, Enabled;
      AttemptsAreBegins(Step(s, es[0]), es[1..], t);
    }
  }

  lemma OneBegin(s: State, e: Event)
    requires Enabled(s, e)
    ensures Step(s, e).attempts == s.attempts + if e == Begin then 1 else 0
  {
  }

  // ---------------------------------------------------------------- what is reported

  /**
   How an attempt ended: not at all, before its command was awaited, or with an exit code; `late`: the
   context had ended by then.
   */
  datatype Ending = Unended | NotRun | Ran(exitCode: int, late: bool)

  /** What a run tells, by its events alone. */
  datatype Story = Story(ending: Ending, context: Option<ContextError>, pid: int, code: int)

  const INIT_STORY := Story(Unended, None, 0, -1)

  function Next(x: Story, e: Event): Story {
    match e
    case Begin => x.(ending := Unended)
    case SetupFails => x.(ending := NotRun)
    case LaunchFails => x.(ending := NotRun)
    case Finish(exitCode) => x.(ending := Ran(exitCode, false), code := exitCode)
    case ReadContext => if x.ending.Ran? then x.(ending := Ran(x.ending.exitCode, x.context.Some?)) else x
    case ContextEnds(err) => x.(context := Some(err))
    case Started(pid) => x.(pid := pid)
    case _ => x
  }

  function Tell(es: seq<Event>, x: Story): Story
    decreases |es|
  {
    if es == [] then x else Tell(es[1..], Next(x, es[0]))
  }

  predicate Judged(s: State, x: Story) {
    match x.ending
    case Unended => s.watched && !s.out
    case NotRun => s.out && (!s.watched ==> s.res.status == Exception)
    case Ran(exitCode, late) => s.out == late && (!s.watched ==> ReportsExit(s.res, exitCode, s.allowFailure))
  }

  predicate StoryFacts(s: State, x: Story) {
    s.ctx == x.context && s.res.processId == x.pid && (!s.watched ==> s.res.code == x.code)
  }

  predicate StoryPlace(s: State, x: Story) {
    match s.pc
    case Head => s.attempts > 0 ==> Judged(s, x)
    case Verdict => Judged(s, x)
    case Returned => s.attempts > 0 ==> Judged(s, x)
    case Leaving => x.ending.Ran? && (!s.watched ==> ReportsExit(s.res, x.ending.exitCode, s.allowFailure))
    case Alive => x.ending.Unended? && (!s.watched ==> s.res.status == Running)
    case Exited => x.ending.Unended? && (!s.watched ==> s.res.status == Running)
    case _ => x.ending.Unended?
  }

  predicate StoryInv(s: State, x: Story) {
    StoryFacts(s, x) && StoryPlace(s, x)
  }

  lemma StepKeepsStory(s: State, e: Event, x: Story)
    requires StoryInv(s, x) && Enabled(s, e) && (s.pc == Verdict ==> s.attempts > 0)
    ensures StoryInv(Step(s, e), Next(x, e)) && Step(s, e).allowFailure == s.allowFailure
  {
    StepKeepsFacts(s, e, x);
    if e.Watch? || e.ContextEnds? {
      WorldKeepsPlace(s, e, x);
    } else {
      LoopKeepsPlace(s, e, x);
    }
  }

  lemma StepKeepsFacts(s: State, e: Event, x: Story)
    requires StoryFacts(s, x) && Enabled(s, e)
    ensures StoryFacts(Step(s, e), Next(x, e)) && Step(s, e).allowFailure == s.allowFailure
  {
  }

  lemma WorldKeepsPlace(s: State, e: Event, x: Story)
    requires StoryPlace(s, x) && Enabled(s, e) && (e.Watch? || e.ContextEnds?)
    ensures StoryPlace(Step(s, e), Next(x, e))
  {
  }

  lemma LoopKeepsPlace(s: State, e: Event, x: Story)
    requires StoryFacts(s, x) && StoryPlace(s, x) && Enabled(s, e) && !e.Watch? && !e.ContextEnds?
    requires s.pc == Verdict ==> s.attempts > 0
    ensures StoryPlace(Step(s, e), Next(x, e))
  {
    hide ContextStatus, Reports;
  }

  lemma {:induction false} RunKeepsStory(s: State, es: seq<Event>, t: State, x: Story)
    requires Counted(s) && StoryInv(s, x) && Reaches(s, es, t)
    ensures StoryInv(t, Tell(es, x)) && t.allowFailure == s.allowFailure
    decreases |es|
  {
    if es != [] {
      StepKeepsCounts(s, es[0]);
      StepKeepsStory(s, es[0], x);
      hide Step, Enabled, Counted, StoryInv, Next;
      RunKeepsStory(Step(s, es[0]), es[1..], t, Next(x, es[0]));
    }
  }

  /**
   What Start returns, by the events of the last attempt. With no word of the watcher: a command
   that ran is reported with its exit code, as a success if that is 0 or failing is allowed and as
   an exception otherwise, one that did not as an exception. An error is returned exactly if it did
   not run, or ran until after the context's end. The pid is that of the last command started.
   */
  lemma ReportedExactly(retry: int, allowFailure: bool, es: seq<Event>, t: State)
    requires retry >= 0 && Reaches(Start(retry, allowFailure), es, t) && t.pc == Returned
    ensures var x := Tell(es, INIT_STORY);
      && t.ctx == x.context && t.res.processId == x.pid && (!t.watched ==> t.res.code == x.code)
      && match x.ending
         case Unended => t.watched && !t.out
         case NotRun => t.out && (!t.watched ==> t.res.status == Exception)
         case Ran(exitCode, late) =>
           && t.out == late
           && (!t.watched ==>
                && t.res.code == exitCode
                && (t.res.status == Success <==> exitCode == 0 || allowFailure)
                && (t.res.status == Success || t.res.status == Exception))
  {
    RunKeepsInv(Start(retry, allowFailure), es, t);
    RunKeepsStory(Start(retry, allowFailure), es, t, INIT_STORY);
  }

  /** A negative retry count: no attempt is made, and the result stays as new. */
  lemma NoAttemptExactly(retry: int, allowFailure: bool, es: seq<Event>, t: State)
    requires Reaches(Start(retry, allowFailure), es, t) && t.pc == Returned
    ensures t.attempts == 0 <==> retry < 0
    ensures retry < 0 && !t.watched ==> t.res.status == Pending && t.res.code == -1 && t.res.processId == 0
  {
    RunKeepsInv(Start(retry, allowFailure), es, t);
    if retry < 0 {
      NothingBegins(Start(retry, allowFailure), es, t);
    }
  }

  lemma {:induction false} NothingBegins(s: State, es: seq<Event>, t: State)
    requires Reaches(s, es, t) && s.i < 0 && (s.pc == Head || s.pc == Returned)
    ensures t.i < 0 && (t.pc == Head || t.pc == Returned) && (!t.watched ==> t.res == s.res)
    ensures s.watched ==> t.watched
    decreases |es|
  {
    if es != [] {
      NothingBegins(Step(s, es[0]), es[1..], t);
    }
  }

  // ---------------------------------------------------------------- what can happen

  ghost predicate CanReturn(s: State) {
    exists es, t :: Reaches(s, es, t) && t.pc == Returned
  }

  lemma Via(s: State, e: Event)
    requires Enabled(s, e) && CanReturn(Step(s, e))
    ensures CanReturn(s)
  {
    hide Step, Enabled;
    var es, t :| Reaches(Step(s, e), es, t) && t.pc == Returned;
    Prefixed(s, e, es, t);
  }

  function Rank(pc: Pc): nat {
    match pc
    case Head => 9
    case Setup => 8
    case Launching => 7
    case Launched => 7
    case Alive => 6
    case Exited => 5
    case Finishing => 4
    case Leaving => 3
    case Verdict => 2
    case Returned => 0
  }

  /** One way on towards the end of the loop. */
  function Onward(s: State): Event {
    match s.pc
    case Head => if s.i >= 0 then Begin else GiveUp
    case Setup => SetupFails
    case Launching => LaunchFails
    case Launched => SetupFails
    case Alive => ProcessEnds
    case Exited => FinishCheck
    case Finishing => Finish(0)
    case Leaving => ReadContext
    case _ => Judge
  }

  function Left(s: State): nat {
    if s.i < 0 then 0 else s.i + 1
  }

  lemma OnwardStep(s: State)
    requires Counted(s) && !s.crashed && s.pc != Returned
    ensures Enabled(s, Onward(s)) && !Step(s, Onward(s)).crashed
    ensures var t := Step(s, Onward(s)); Left(t) < Left(s) || (Left(t) == Left(s) && Rank(t.pc) < Rank(s.pc))
  {
  }

  /** Wherever the loop is, unless the agent has crashed, it can still return. */
  lemma {:induction false} AlwaysCanReturn(s: State)
    requires Counted(s) && !s.crashed
    ensures CanReturn(s)
    decreases Left(s), Rank(s.pc)
  {
    if s.pc == Returned {
      assert Reaches(s, [], s);
    } else {
      OnwardStep(s);
      hide Step, Enabled, Counted, CanReturn, Onward, Rank, Left;
      StepKeepsCounts(s, Onward(s));
      AlwaysCanReturn(Step(s, Onward(s)));
      Via(s, Onward(s));
    }
  }

  /** So every run that has not crashed the agent can go on to its return. */
  lemma EveryRunCanReturn(retry: int, allowFailure: bool, es: seq<Event>, s: State)
    requires Reaches(Start(retry, allowFailure), es, s) && !s.crashed
    ensures CanReturn(s)
  {
    RunKeepsInv(Start(retry, allowFailure), es, s);
    AlwaysCanReturn(s);
  }

  /** Every exit code can be the end of an only attempt. */
  lemma AnyExitCode(retry: int, allowFailure: bool, pid: int, exitCode: int) returns (es: seq<Event>, s: State)
    requires retry >= 0
    ensures Reaches(Start(retry, allowFailure), es, s) && s.pc == Verdict && s.attempts == 1
    ensures Tell(es, INIT_STORY) == Story(Ran(exitCode, false), None, pid, exitCode)
  {
    var s0 := Start(retry, allowFailure);
    var s2 := Step(Step(s0, Begin), Launch);
    var s4 := Step(Step(s2, LaunchOk), Started(pid));
    var s6 := Step(Step(s4, ProcessEnds), FinishCheck);
    s := Step(Step(s6, Finish(exitCode)), ReadContext);
    es := [Begin, Launch, LaunchOk, Started(pid), ProcessEnds, FinishCheck, Finish(exitCode), ReadContext];
    TellFour(pid, exitCode);
    var last := [ProcessEnds, FinishCheck] + [Finish(exitCode), ReadContext];
    assert es == [Begin, Launch] + ([LaunchOk, Started(pid)] + last);
    TwoSteps(s6, Finish(exitCode), ReadContext, [], s);
    TwoSteps(s4, ProcessEnds, FinishCheck, [Finish(exitCode), ReadContext], s);
    TwoSteps(s2, LaunchOk, Started(pid), last, s);
    TwoSteps(s0, Begin, Launch, [LaunchOk, Started(pid)] + last, s);
  }

  lemma TwoSteps(s: State, e1: Event, e2: Event, es: seq<Event>, t: State)
    requires Enabled(s, e1) && Enabled(Step(s, e1), e2) && Reaches(Step(Step(s, e1), e2), es, t)
    ensures Reaches(s, [e1, e2] + es, t)
    ensures es == [] ==> Reaches(s, [e1, e2], t)
  {
    hide Step, Enabled;
    Prefixed(Step(s, e1), e2, es, t);
    Prefixed(s, e1, [e2] + es, t);
    assert [e1] + ([e2] + es) == [e1, e2] + es;
    if es == [] {
      assert [e1, e2] + es == [e1, e2];
    }
  }

  lemma TellFour(pid: int, exitCode: int)
    ensures Tell([Begin, Launch, LaunchOk, Started(pid), ProcessEnds, FinishCheck, Finish(exitCode), ReadContext],
                 INIT_STORY) == Story(Ran(exitCode, false), None, pid, exitCode)
  {
    var es := [Begin, Launch, LaunchOk, Started(pid), ProcessEnds, FinishCheck, Finish(exitCode), ReadContext];
    var x0 := INIT_STORY;
    assert Tell(es, x0) == Tell(es[1..], x0) == Tell(es[1..][1..], x0) == Tell(es[2..], x0);
    var x1 := x0.(pid := pid);
    assert es[2..][1..] == es[3..] && es[3..][1..] == es[4..] && es[4..][1..] == es[5..] && es[5..][1..] == es[6..];
    assert es[6..][1..] == es[7..] && es[7..][1..] == [];
    assert Tell(es[2..], x0) == Tell(es[3..], x0) == Tell(es[4..], x1) == Tell(es[5..], x1) == Tell(es[6..], x1);
    var x2 := Story(Ran(exitCode, false), None, pid, exitCode);
    assert Tell(es[6..], x1) == Tell(es[7..], x2) == Tell([], x2);
  }

  /** A watcher status set between toStartStatus and the finish check ends the loop with that status. */
  lemma WatcherInWindowWins(retry: int, allowFailure: bool, es: seq<Event>, t: State)
    requires Reaches(Start(retry, allowFailure), es, t) && t.hit > 0
    ensures t.attempts == t.hit && t.ctx.Some?
    ensures t.pc == Returned ==> Reports(t.res, t.ctx.value) && !t.out
  {
    RunKeepsInv(Start(retry, allowFailure), es, t);
  }

  /** Once the watcher has acted, the result tells of the context's end exactly while no status was set after it. */
  lemma ReportedUnlessOverwritten(retry: int, allowFailure: bool, es: seq<Event>, t: State)
    requires Reaches(Start(retry, allowFailure), es, t) && t.watched
    ensures t.ctx.Some? && (Reports(t.res, t.ctx.value) <==> !t.overwritten)
  {
    RunKeepsInv(Start(retry, allowFailure), es, t);
  }

  /** The process is alive or gone but not yet judged, or the attempt is over and no other follows. */
  predicate DecidingPlace(s: State) {
    match s.pc
    case Alive => true
    case Exited => true
    case Leaving => s.i <= 0
    case Verdict => !s.out || s.i <= 0
    case Head => s.i < 0
    case Returned => true
    case _ => false
  }

  /** What must hold when the watcher acts for its status to be reported. */
  predicate Decides(s: State) {
    DecidingPlace(s) && !s.noProcess
  }

  /** The watcher has acted at a deciding place, or at a later one of the same kind. */
  predicate Wins(s: State) {
    s.watched && s.ctx.Some? && Reports(s.res, s.ctx.value) && !s.overwritten && DecidingPlace(s)
  }

  predicate Loses(s: State) {
    s.watched && s.ctx.Some? && (s.overwritten || !DecidingPlace(s))
  }

  lemma WinsStep(s: State, e: Event)
    requires Wins(s) && Enabled(s, e)
    ensures Wins(Step(s, e)) && Step(s, e).ctx == s.ctx
  {
  }

  lemma {:induction false} WinsOn(s: State, es: seq<Event>, t: State)
    requires Wins(s) && Reaches(s, es, t)
    ensures Wins(t) && t.ctx == s.ctx
    decreases |es|
  {
    hide Step, Enabled, Wins;
    if es != [] {
      WinsStep(s, es[0]);
      WinsOn(Step(s, es[0]), es[1..], t);
    }
  }

  lemma LosesStep(s: State, e: Event)
    requires Loses(s) && Enabled(s, e)
    ensures Loses(Step(s, e)) && Step(s, e).ctx == s.ctx
  {
  }

  lemma {:induction false} LosesOn(s: State, es: seq<Event>, t: State)
    requires Loses(s) && Reaches(s, es, t)
    ensures Loses(t) && t.ctx == s.ctx
    decreases |es|
  {
    hide Step, Enabled, Loses;
    if es != [] {
      LosesStep(s, es[0]);
      LosesOn(Step(s, es[0]), es[1..], t);
    }
  }

  /**
   In every run a kill or timeout is reported if and only if the watcher acts at a deciding place,
   with no command lacking its process.
   */
  lemma WatcherDecides(retry: int, allowFailure: bool, before: seq<Event>, s: State, es: seq<Event>, t: State)
    requires Reaches(Start(retry, allowFailure), before, s) && Enabled(s, Watch)
    requires Reaches(Step(s, Watch), es, t) && t.pc == Returned
    ensures Reports(t.res, s.ctx.value) <==> Decides(s)
  {
    RunKeepsInv(Start(retry, allowFailure), before, s);
    StepKeepsInv(s, Watch);
    RunKeepsInv(Step(s, Watch), es, t);
    if s.noProcess {
      assert t == Step(s, Watch);
    } else if DecidingPlace(s) {
      WinsOn(Step(s, Watch), es, t);
    } else {
      LosesOn(Step(s, Watch), es, t);
    }
  }

  /** The command set last has not been started, or could not be; `missing` tells of the time before. */
  predicate NotLaunched(es: seq<Event>, missing: bool)
    decreases |es|
  {
    if es == [] then missing else NotLaunched(es[1..], MissingAfter(es[0], missing))
  }

  predicate MissingAfter(e: Event, missing: bool) {
    e == Launch || (missing && e != LaunchOk)
  }

  lemma {:induction false} RunKeepsMissing(s: State, es: seq<Event>, t: State)
    requires Reaches(s, es, t)
    ensures t.noProcess == NotLaunched(es, s.noProcess)
    decreases |es|
  {
    if es != [] {
      MissingStep(s, es[0]);
      hide Step, Enabled, MissingAfter;
      RunKeepsMissing(Step(s, es[0]), es[1..], t);
    }
  }

  lemma MissingStep(s: State, e: Event)
    requires Enabled(s, e)
    ensures Step(s, e).noProcess == MissingAfter(e, s.noProcess)
  {
  }

  /**
   The watcher ends the agent if and only if the command set last has no process: it is being
   started, or could not be.
   */
  lemma WatcherCrashesExactly(retry: int, allowFailure: bool, before: seq<Event>, s: State)
    requires Reaches(Start(retry, allowFailure), before, s) && Enabled(s, Watch)
    ensures Step(s, Watch).crashed <==> NotLaunched(before, false)
  {
    RunKeepsMissing(Start(retry, allowFailure), before, s);
  }

  /** Closing the executor cancels its context: after a command that could not be started, that ends the agent. */
  lemma CloseEndsAgent(allowFailure: bool) returns (es: seq<Event>, t: State)
    ensures Reaches(Start(0, allowFailure), es, t) && t.pc == Returned && t.res.status == Exception && t.crashed
  {
    var s0 := Start(0, allowFailure);
    var s2 := Step(Step(s0, Begin), Launch);
    var s4 := Step(Step(s2, LaunchFails), Judge);
    var s6 := Step(Step(s4, GiveUp), ContextEnds(Canceled));
    t := Step(s6, Watch);
    Prefixed(s6, Watch, [], t);
    es := Before(s4, GiveUp, ContextEnds(Canceled), [Watch] + [], t);
    es := Before(s2, LaunchFails, Judge, es, t);
    es := Before(s0, Begin, Launch, es, t);
  }

  ghost predicate AlwaysFinishes(retry: int, allowFailure: bool) {
    forall es, t :: Reaches(Start(retry, allowFailure), es, t) && t.pc == Returned ==> IsFinishStatus(t.res.status)
  }

  /** A finish status at return is guaranteed exactly for retry counts that are not negative. */
  lemma FinishedExactlyFor(retry: int, allowFailure: bool)
    ensures AlwaysFinishes(retry, allowFailure) <==> retry >= 0
  {
    var s := Start(retry, allowFailure);
    if retry >= 0 {
      forall es, t | Reaches(s, es, t) && t.pc == Returned
        ensures IsFinishStatus(t.res.status)
      {
        StartReturnsFinished(retry, allowFailure, es, t);
      }
    } else {
      var t := Step(s, GiveUp);
      assert t.pc == Returned && !IsFinishStatus(t.res.status);
      Prefixed(s, GiveUp, [], t);
    }
  }

  lemma FinishesAfterStart(s: State) returns (es: seq<Event>, t: State)
    requires s.pc == Alive && s.i == 0 && s.ctx == Some(Canceled) && s.watched && !s.crashed
    requires !IsFinishStatus(s.res.status)
    ensures Reaches(s, es, t) && t.pc == Returned && t.watched && t.ctx == s.ctx && t.res.status == Success && t.out
  {
    var s2 := Step(Step(s, ProcessEnds), FinishCheck);
    var s4 := Step(Step(s2, Finish(0)), ReadContext);
    t := Step(Step(s4, Judge), GiveUp);
    es := Before(s4, Judge, GiveUp, [], t);
    es := Before(s2, Finish(0), ReadContext, es, t);
    es := Before(s, ProcessEnds, FinishCheck, es, t);
  }

  /** The window matters: a kill seen before toStartStatus is overwritten, and the command may still report Success. */
  lemma EarlyKillIsOverwritten(allowFailure: bool, pid: int) returns (es: seq<Event>, t: State)
    ensures Reaches(Start(0, allowFailure), es, t) && t.pc == Returned
    ensures t.watched && t.ctx == Some(Canceled) && t.res.status == Success && t.out
  {
    var s0 := Start(0, allowFailure);
    var s2 := Step(Step(s0, Begin), ContextEnds(Canceled));
    var s4 := Step(Step(s2, Watch), Launch);
    es, t := FinishesAfterStart(Step(Step(s4, LaunchOk), Started(pid)));
    es := Before(s4, LaunchOk, Started(pid), es, t);
    es := Before(s2, Watch, Launch, es, t);
    es := Before(s0, Begin, ContextEnds(Canceled), es, t);
  }

  lemma Before(s: State, e1: Event, e2: Event, es: seq<Event>, t: State) returns (r: seq<Event>)
    requires Enabled(s, e1) && Enabled(Step(s, e1), e2) && Reaches(Step(Step(s, e1), e2), es, t)
    ensures Reaches(s, r, t)
  {
    Prefixed(Step(s, e1), e2, es, t);
    Prefixed(s, e1, [e2] + es, t);
    r := [e1] + ([e2] + es);
  }
}
