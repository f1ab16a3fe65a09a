/**
 The Docker executor's retry loop and container handling (executor/docker.go). Every call
 to the Docker engine may fail at any time, with a context error or another one; containers
 may exit or vanish at any time. What is proved holds for every such behaviour.
 */
module DockerExecutor {
  import opened ShellResult
  import opened Wrappers

  datatype CallError = Context(err: ContextError) | Other

  /** A panicking Go call: nothing, or the error it panics with. */
  datatype Outcome = Done | Failed(error: CallError) {
    predicate IsFailure() { Failed? }

    function PropagateFailure(): Outcome
      requires Failed?
    {
      this
    }
  }

  /** Container ids; None is the empty id. */
  type Cid = Option<nat>

  datatype ContainerState = Created | Up | Down

  /** How far an attempt has come. */
  datatype Stage = Fresh | ImagesPulled | ContainersStarted | PluginsCopied | ShellRun | ShellExited

  datatype DockerConfig = DockerConfig(containerId: Cid, isDelete: bool, isStop: bool)

  const PULL_RETRY := 3

  method AnyOutcome() returns (o: Outcome)
  {
    var ok: bool := *;
    if ok {
      return Done;
    }
    var error: CallError := *;
    return Failed(error);
  }

  /**
   pullImageWithName, given what each try would give: `out` keeps the error of the last try
   that failed, so an image pulled on the second or third try is still reported as an error.
   */
  method PullImageWithName(isOnLocal: bool, tries: seq<Outcome>) returns (out: Outcome, pulled: bool)
    requires |tries| == 3
    ensures out.Done? <==> isOnLocal || tries[0].Done?
    ensures pulled <==> !isOnLocal && exists i :: 0 <= i < 3 && tries[i].Done?
    ensures !isOnLocal && tries[0].Failed? ==>
      out == if tries[1].Done? then tries[0] else if tries[2].Done? then tries[1] else tries[2]
  {
    pulled := false;
    out := Done;
    if isOnLocal {
      return;
    }
    for i := 0 to PULL_RETRY
      invariant !pulled && forall k :: 0 <= k < i ==> tries[k].Failed?
      invariant out == if i == 0 then Done else tries[i - 1]
    {
      if tries[i].Failed? {
        out := tries[i];
        continue;
      }
      pulled := true;
      break;
    }
  }

  /**
   The part of initConfig that fills the config list, which must not be empty; an entry is
   the number of the option it was made from, or None for a nil entry. The runtime option is
   put first, wherever it stands, so a config exists for every option exactly when no later
   option is the runtime; otherwise the attempt would run into a nil entry.
   */
  method InitConfig(isRuntime: seq<bool>) returns (panics: bool, configs: seq<Option<nat>>)
    requires isRuntime != []
    ensures panics <==> |isRuntime| > 1 && true !in isRuntime
    ensures |configs| == |isRuntime|
    ensures !panics ==>
      ((forall i :: 0 <= i < |configs| ==> configs[i] == Some(i)) <==> true !in isRuntime[1..])
    ensures !panics && true in isRuntime[1..] ==> exists i :: 0 < i < |configs| && configs[i] == None
    ensures !panics ==> forall i :: 0 < i < |configs| ==> configs[i] == if isRuntime[i] then None else Some(i)
    ensures !panics ==> configs[0].Some? && configs[0].value < |isRuntime|
    ensures !panics && true in isRuntime ==>
      isRuntime[configs[0].value] && forall i :: configs[0].value < i < |isRuntime| ==> !isRuntime[i]
  {
    configs := seq(|isRuntime|, _ => None);
    var runtime: Option<nat> := None;
    for i := 0 to |isRuntime|
      invariant |configs| == |isRuntime|
      invariant forall k :: 0 <= k < |configs| ==> configs[k] == if k < i && !isRuntime[k] then Some(k) else None
      invariant runtime.None? <==> true !in isRuntime[..i]
      invariant runtime.Some? ==>
        runtime.value < i && isRuntime[runtime.value] && forall k :: runtime.value < k < i ==> !isRuntime[k]
    {
      if isRuntime[i] {
        runtime := Some(i);
        continue;
      }
      configs := configs[i := Some(i)];
    }
    assert isRuntime[..|isRuntime|] == isRuntime == [isRuntime[0]] + isRuntime[1..];
    if runtime.None? {
      if |isRuntime| > 1 {
        return true, configs;
      }
      runtime := Some(0);
    }
    configs := configs[0 := runtime];
    panics := false;
    if true in isRuntime[1..] {
      var j :| 0 <= j < |isRuntime[1..]| && isRuntime[1..][j];
      assert configs[j + 1] == None;
    } else {
      forall k | 0 < k < |isRuntime|
        ensures !isRuntime[k]
      {
        assert isRuntime[1..][k - 1] == isRuntime[k];
      }
    }
  }

  class DockerExecutor {
    const retry: int
    const allowFailure: bool

    var configs: seq<DockerConfig>
    var result: ShellOut
    var markers: nat                            // retry lines in the log

    // the Docker engine
    var containers: map<nat, ContainerState>
    var nextId: nat

    // what happened, for the specification
    ghost var history: seq<Status>              // the status after each attempt
    ghost var started: set<nat>                 // started or restarted for a delete-flagged config
    ghost var created: set<nat>                 // created for a delete-flagged config
    ghost var startFailed: set<nat>             // created, but the start call failed
    ghost var restartFailed: set<nat>
    ghost var removeTried: set<nat>
    ghost var removeFailed: set<nat>
    ghost var toStop: set<nat>                  // started last for a config that is to be stopped
    ghost var stopFailed: set<nat>              // and not restarted since

    // what has been done in the present attempt
    ghost var stage: Stage
    ghost var images: set<nat>                  // of the configs whose image is there
    ghost var upNow: set<nat>                   // containers started or restarted

    constructor (
      retry: int, allowFailure: bool, configs: seq<DockerConfig>, containers: map<nat, ContainerState>, nextId: nat)
      requires forall id :: id in containers ==> id < nextId
      requires forall c :: c in configs && c.containerId.Some? ==> c.containerId.value < nextId
      ensures this.retry == retry && this.allowFailure == allowFailure
      ensures history == [] && markers == 0 && result == NEW_OUTPUT
      ensures Valid() && CleanedUp()
    {
      stopFailed, toStop, restartFailed := {}, {}, {};
      stage, images, upNow := Fresh, {}, {};
      this.retry, this.allowFailure, this.configs := retry, allowFailure, configs;
      this.containers, this.nextId, result, markers := containers, nextId, NEW_OUTPUT, 0;
      history, started, created, startFailed, removeTried, removeFailed := [], {}, {}, {}, {}, {};
    }

    ghost predicate Valid()
      reads this
    {
      && (forall id :: id in containers ==> id < nextId)
      && (forall k :: 0 <= k < |configs| && configs[k].containerId.Some? ==> configs[k].containerId.value < nextId)
      && (forall id :: id in started ==> id < nextId) && (forall id :: id in created ==> id < nextId)
      && (forall id :: id in startFailed ==> id < nextId) && (forall id :: id in removeTried ==> id < nextId)
      && (forall k :: 0 <= k < |configs| && configs[k].containerId.Some? ==>
            configs[k].containerId.value !in startFailed)
      && startFailed !! removeTried
    }

    ghost predicate Held(id: nat, lo: nat, hi: nat)
      reads this`configs
      requires hi <= |configs|
    {
      exists k :: lo <= k < hi && configs[k].isDelete && configs[k].containerId == Some(id)
    }

    ghost predicate HeldToStop(id: nat, lo: nat, hi: nat)
      reads this`configs
      requires hi <= |configs|
    {
      exists k :: lo <= k < hi && ForStop(configs[k]) && configs[k].containerId == Some(id)
    }

    /**
     No container this executor started or created for deletion, and none it started to be stopped
     that is up, is beyond the reach of configs lo..hi.
     */
    ghost predicate Reachable(lo: nat, hi: nat)
      reads this
      requires hi <= |configs|
    {
      && (forall id :: id in started && id in containers ==> id in removeFailed || Held(id, lo, hi))
      && (forall id :: id in created && id in containers ==>
            id in removeFailed || id in startFailed || Held(id, lo, hi))
      && (forall id :: id in toStop && id in containers && containers[id] == Up ==>
            id in stopFailed || HeldToStop(id, lo, hi))
    }

    /** The image of every config is there. */
    ghost predicate ImagesThere()
      reads this`images, this`configs
    {
      forall k :: 0 <= k < |configs| ==> k in images
    }

    /** Every config below `hi` has a container started or restarted in this attempt. */
    ghost predicate StartedNow(hi: nat)
      reads this`upNow, this`configs
      requires hi <= |configs|
    {
      forall k :: 0 <= k < hi ==> configs[k].containerId.Some? && configs[k].containerId.value in upNow
    }

    /** The container of config `i` is up. */
    ghost predicate RunsAt(i: nat)
      reads this
      requires i < |configs|
    {
      configs[i].containerId.Some? && configs[i].containerId.value in containers
      && containers[configs[i].containerId.value] == Up
    }

    /**
     Between attempts: a container started for a delete-flagged config exists, alive or not,
     only if its removal failed, and one created for it only if its removal or its start failed.
     One started for a config that is to be stopped is up only if stopping it failed.
     */
    ghost predicate CleanedUp()
      reads this
    {
      && (forall id :: id in started && id in containers ==> id in removeFailed)
      && (forall id :: id in created && id in containers ==> id in removeFailed || id in startFailed)
      && (forall id :: id in toStop && id in containers && containers[id] == Up ==> id in stopFailed)
    }

    /** The containers of the stop-flagged configs below `hi` are up only if stopping them failed. */
    ghost predicate Stopped(hi: nat)
      reads this
      requires hi <= |configs|
    {
      forall k :: 0 <= k < hi && ForStop(configs[k]) && configs[k].containerId.Some? ==>
        var id := configs[k].containerId.value;
        id in containers && containers[id] == Up ==> id in stopFailed
    }

    // -------------------------------------------------------------- the engine

    /** Containers may exit or vanish behind the executor's back. */
    method Interfere()
      modifies this`containers
      ensures forall id :: id in containers ==> id in old(containers)
      ensures forall id :: id in containers && containers[id] == Up ==> old(containers)[id] == Up
    {
      var n: int := *;
      for i := 0 to if n < 0 then 0 else n
        invariant forall id :: id in containers ==> id in old(containers)
        invariant forall id :: id in containers && containers[id] == Up ==> old(containers)[id] == Up
      {
        var id: nat := *;
        var vanishes: bool := *;
        if id in containers {
          containers := if vanishes then containers - {id} else containers[id := Down];
        }
      }
    }

    method ContainerCreate(forDelete: bool) returns (o: Outcome, id: nat)
      requires Valid()
      modifies this`containers, this`nextId, this`created
      ensures o.Failed? ==> unchanged(this)
      ensures o.Done? ==>
        && id == old(nextId) && nextId == old(nextId) + 1
        && containers == old(containers)[id := Created]
        && created == old(created) + if forDelete then {id} else {}
    {
      id := nextId;
      o := AnyOutcome();
      if o.Done? {
        nextId := nextId + 1;
        containers := containers[id := Created];
        created := created + if forDelete then {id} else {};
      }
    }

    method ContainerStart(id: nat, config: DockerConfig) returns (o: Outcome)
      modifies this`containers, this`started, this`toStop, this`startFailed, this`upNow
      ensures o.Failed? ==>
        && containers == old(containers) && started == old(started) && toStop == old(toStop) && upNow == old(upNow)
        && startFailed == old(startFailed) + {id}
      ensures o.Done? ==>
        && id in old(containers) && containers == old(containers)[id := Up] && startFailed == old(startFailed)
        && started == old(started) + (if config.isDelete then {id} else {})
        && toStop == old(toStop) - {id} + (if ForStop(config) then {id} else {})
        && upNow == old(upNow) + {id}
    {
      o := AnyOutcome();
      if id !in containers && o.Done? {
        o := Failed(Other);
      }
      if o.Done? {
        containers := containers[id := Up];
        started := started + if config.isDelete then {id} else {};
        toStop := toStop - {id} + if ForStop(config) then {id} else {};
        upNow := upNow + {id};
      } else {
        startFailed := startFailed + {id};
      }
    }

    method ContainerRemove(id: nat) returns (o: Outcome)
      modifies this`containers, this`removeTried, this`removeFailed
      ensures removeTried == old(removeTried) + {id}
      ensures o.Done? ==> containers == old(containers) - {id} && removeFailed == old(removeFailed)
      ensures o.Failed? ==>
        && containers == old(containers)
        && removeFailed == old(removeFailed) + if id in containers then {id} else {}
    {
      o := AnyOutcome();
      removeTried := removeTried + {id};
      if o.Done? {
        containers := containers - {id};
      } else {
        removeFailed := removeFailed + if id in containers then {id} else {};
      }
    }

    // -------------------------------------------------------------- containers of an attempt

    /**
     Whether the container of config `i` is running again. A container that is gone or not
     exited is left alone; one that cannot restart is removed; then a new one is needed.
     */
    method Resume(i: nat) returns (o: Outcome, resumed: bool)
      requires i < |configs| && Valid() && Reachable(0, i)
      modifies this`containers, this`started, this`toStop, this`removeTried, this`removeFailed, this`stopFailed,
        this`restartFailed, this`upNow
      ensures Valid() && old(upNow) <= upNow
      ensures removeTried - old(removeTried) <= restartFailed
      ensures o.Done? && resumed ==> Reachable(0, i + 1) && RunsAt(i) && configs[i].containerId.value in upNow
      ensures o.Failed? || !resumed ==> !resumed && Reachable(0, i)
      ensures o.Done? && !resumed && configs[i].containerId.Some? ==>
        var cid := configs[i].containerId.value;
        cid in containers && containers[cid] == Down ==> cid in removeFailed
    {
      var config := configs[i];
      if config.containerId.None? {
        return Done, false;
      }
      Interfere();
      var cid := config.containerId.value;
      o := AnyOutcome();
      if cid !in containers && o.Done? {
        return Done, false;
      }
      if o.Failed? {
        return o, false;
      }
      if containers[cid] != Down {
        return Done, false;
      }
      resumed := Restart(i, cid);
      o := Done;
    }

    /** Restarts an exited container, or removes it when that fails. */
    method Restart(i: nat, cid: nat) returns (resumed: bool)
      requires i < |configs| && Valid() && Reachable(0, i) && configs[i].containerId == Some(cid)
      requires cid in containers && containers[cid] == Down
      modifies this`containers, this`started, this`toStop, this`removeTried, this`removeFailed, this`stopFailed,
        this`restartFailed, this`upNow
      ensures Valid() && if resumed then Reachable(0, i + 1) && RunsAt(i) else Reachable(0, i)
      ensures upNow == old(upNow) + (if resumed then {cid} else {})
      ensures restartFailed == old(restartFailed) + (if resumed then {} else {cid})
      ensures removeTried == old(removeTried) + if resumed then {} else {cid}
      ensures !resumed && cid in containers ==> cid in removeFailed
    {
      var o := AnyOutcome();
      if o.Done? {
        Restarted(i, cid);
        return true;
      }
      restartFailed := restartFailed + {cid};
      o := ContainerRemove(cid);
      return false;
    }

    /** A restarted container is up, and its earlier failures no longer excuse it. */
    method Restarted(i: nat, cid: nat)
      requires i < |configs| && Valid() && Reachable(0, i) && configs[i].containerId == Some(cid) && cid in containers
      modifies this`containers, this`started, this`toStop, this`removeFailed, this`stopFailed, this`upNow
      ensures Valid() && Reachable(0, i + 1) && RunsAt(i) && upNow == old(upNow) + {cid}
      ensures configs[i].isDelete ==> cid in started && cid !in removeFailed
      ensures ForStop(configs[i]) ==> cid in toStop && cid !in stopFailed
    {
      Widened(i);
      hide Held, HeldToStop;
      MarkUp(cid, configs[i]);
    }

    method MarkUp(id: nat, config: DockerConfig)
      modifies this`containers, this`started, this`toStop, this`removeFailed, this`stopFailed, this`upNow
      ensures containers == old(containers)[id := Up] && upNow == old(upNow) + {id}
      ensures started == old(started) + if config.isDelete then {id} else {}
      ensures removeFailed == old(removeFailed) - if config.isDelete then {id} else {}
      ensures toStop == old(toStop) - {id} + if ForStop(config) then {id} else {}
      ensures stopFailed == old(stopFailed) - if ForStop(config) then {id} else {}
    {
      containers := containers[id := Up];
      started := started + if config.isDelete then {id} else {};
      removeFailed := removeFailed - if config.isDelete then {id} else {};
      toStop := toStop - {id} + if ForStop(config) then {id} else {};
      stopFailed := stopFailed - if ForStop(config) then {id} else {};
      upNow := upNow + {id};
    }

    lemma Widened(i: nat)
      requires i < |configs|
      ensures forall id: nat :: Held(id, 0, i) ==> Held(id, 0, i + 1)
      ensures forall id: nat :: HeldToStop(id, 0, i) ==> HeldToStop(id, 0, i + 1)
      ensures configs[i].containerId.Some? && configs[i].isDelete ==> Held(configs[i].containerId.value, 0, i + 1)
      ensures configs[i].containerId.Some? && ForStop(configs[i]) ==> HeldToStop(configs[i].containerId.value, 0, i + 1)
    {
    }

    /** Resumes or replaces every config's container, in order, until a call fails. */
    method StartContainer() returns (o: Outcome)
      requires Valid() && CleanedUp() && ImagesThere() && stage == ImagesPulled
      modifies this`configs, this`containers, this`nextId, this`started, this`created, this`startFailed,
        this`removeTried, this`removeFailed, this`toStop, this`stopFailed, this`restartFailed, this`upNow, this`stage
      ensures Valid() && Reachable(0, |configs|)
      ensures SameFlags(old(configs), configs) && ImagesThere()
      ensures o.Done? ==> StartedNow(|configs|)
      ensures stage == if o.Done? then ContainersStarted else ImagesPulled
    {
      hide Held, HeldToStop;
      for i := 0 to |configs|
        invariant |configs| == |old(configs)| && SameFlags(old(configs), configs)
        invariant Valid() && Reachable(0, i) && StartedNow(i) && ImagesThere() && stage == ImagesPulled
      {
        var resumed;
        o, resumed := Resume(i);
        if o.Failed? {
          Wider(0, i);
          return;
        }
        if resumed {
          continue;
        }
        o := Replace(i);
        if o.Failed? {
          Wider(0, i);
          return;
        }
      }
      stage := ContainersStarted;
      o := Done;
    }

    /** Creates and starts a container for config `i`; its id is kept only once it has started. */
    method Replace(i: nat) returns (o: Outcome)
      requires i < |configs| && Valid() && Reachable(0, i) && i in images
      modifies this`configs, this`containers, this`nextId, this`started, this`created, this`startFailed, this`toStop,
        this`upNow
      ensures Valid() && SameFlags(old(configs), configs)
      ensures upNow == old(upNow) + if o.Done? then {old(nextId)} else {}
      ensures if o.Done? then Reachable(0, i + 1) && RunsAt(i) else Reachable(0, i)
      ensures if o.Done? then configs == old(configs)[i := old(configs)[i].(containerId := Some(old(nextId)))]
        else configs == old(configs)
    {
      hide Held, HeldToStop;
      var id;
      o, id := CreateFor(i);
      if o.Failed? {
        return;
      }
      o := ContainerStart(id, configs[i]);
      if o.Failed? {
        return;
      }
      Keep(i, id);
    }

    /** A new container, not yet started; until its id is kept only its creation is on record. */
    method CreateFor(i: nat) returns (o: Outcome, id: nat)
      requires i < |configs| && Valid() && Reachable(0, i)
      modifies this`containers, this`nextId, this`created
      ensures o.Failed? ==> unchanged(this)
      ensures o.Done? ==> Valid() && id == old(nextId) && nextId == old(nextId) + 1
      ensures o.Done? ==> id !in removeTried && id !in startFailed && id !in started && id !in old(created)
      ensures o.Done? ==> created == old(created) + if configs[i].isDelete then {id} else {}
      ensures o.Done? ==> forall x :: x in containers ==> x == id || x in old(containers)
      ensures o.Done? ==> forall x :: x in containers && containers[x] == Up ==>
        x in old(containers) && old(containers)[x] == Up
    {
      o, id := ContainerCreate(configs[i].isDelete);
      if o.Done? {
        Interfere();
      }
    }

    /** The id of a started container goes into its config. */
    method Keep(i: nat, id: nat)
      requires i < |configs| && Valid() && id < nextId && id !in startFailed
      requires forall x :: x in started && x in containers ==>
        x in removeFailed || Held(x, 0, i) || (x == id && configs[i].isDelete)
      requires forall x :: x in created && x in containers ==>
        x in removeFailed || x in startFailed || Held(x, 0, i) || (x == id && configs[i].isDelete)
      requires forall x :: x in toStop && x in containers && containers[x] == Up ==>
        x in stopFailed || HeldToStop(x, 0, i) || (x == id && ForStop(configs[i]))
      modifies this`configs
      ensures Valid() && SameFlags(old(configs), configs) && Reachable(0, i + 1)
      ensures configs == old(configs)[i := old(configs)[i].(containerId := Some(id))]
    {
      ghost var before := configs;
      configs := configs[i := configs[i].(containerId := Some(id))];
      assert configs[i].containerId == Some(id);
      assert configs[i].isDelete ==> Held(id, 0, i + 1);
      assert ForStop(configs[i]) ==> HeldToStop(id, 0, i + 1);
      forall x | exists k :: 0 <= k < i && before[k].isDelete && before[k].containerId == Some(x)
        ensures Held(x, 0, i + 1)
      {
        var k :| 0 <= k < i && before[k].isDelete && before[k].containerId == Some(x);
        assert configs[k] == before[k];
      }
      forall x | exists k :: 0 <= k < i && ForStop(before[k]) && before[k].containerId == Some(x)
        ensures HeldToStop(x, 0, i + 1)
      {
        var k :| 0 <= k < i && ForStop(before[k]) && before[k].containerId == Some(x);
        assert configs[k] == before[k];
      }
    }

    lemma Wider(lo: nat, hi: nat)
      requires hi <= |configs| && Reachable(lo, hi)
      ensures Reachable(lo, |configs|)
    {
    }

    /** Removes or stops every config's container; failures are only logged. */
    method CleanupContainer()
      requires Valid() && Reachable(0, |configs|)
      modifies this`containers, this`removeTried, this`removeFailed, this`stopFailed
      ensures Valid() && CleanedUp() && Stopped(|configs|)
    {
      Interfere();
      for i := 0 to |configs|
        invariant Valid() && Reachable(i, |configs|) && Stopped(i)
      {
        CleanupOne(i);
        Interfere();
      }
    }

    method CleanupOne(i: nat)
      requires i < |configs| && Valid() && Reachable(i, |configs|) && Stopped(i)
      modifies this`containers, this`removeTried, this`removeFailed, this`stopFailed
      ensures Valid() && Reachable(i + 1, |configs|) && Stopped(i + 1)
    {
      var c := configs[i];
      Narrowed(i);
      hide Held, HeldToStop;
      if c.isDelete {
        if c.containerId.Some? {
          var o := ContainerRemove(c.containerId.value);
        }
        return;
      }
      if c.isStop && c.containerId.Some? {
        ContainerStop(c.containerId.value);
      }
    }

    lemma Narrowed(i: nat)
      requires i < |configs|
      ensures forall id: nat :: Held(id, i, |configs|) ==>
        Held(id, i + 1, |configs|) || (configs[i].isDelete && configs[i].containerId == Some(id))
      ensures forall id: nat :: HeldToStop(id, i, |configs|) ==>
        HeldToStop(id, i + 1, |configs|) || (ForStop(configs[i]) && configs[i].containerId == Some(id))
    {
    }

    method ContainerStop(id: nat)
      modifies this`containers, this`stopFailed
      ensures containers == old(containers) || (id in old(containers) && containers == old(containers)[id := Down])
      ensures old(stopFailed) <= stopFailed
      ensures id in containers && containers[id] == Up ==> id in stopFailed
    {
      var o := AnyOutcome();
      if o.Done? && id in containers {
        containers := containers[id := Down];
      } else if o.Failed? {
        stopFailed := stopFailed + {id};
      }
    }

    // -------------------------------------------------------------- one attempt

    /** The first call of an attempt. */
    method PullImage() returns (o: Outcome)
      modifies this`images, this`stage, this`upNow
      ensures o.Done? ==> ImagesThere()
      ensures upNow == {} && stage == if o.Done? then ImagesPulled else Fresh
    {
      stage, images, upNow := Fresh, {}, {};
      for i := 0 to |configs|
        invariant stage == Fresh && upNow == {} && forall k :: 0 <= k < i ==> k in images
      {
        o := PullOne(i);
        if o.Failed? {
          return;
        }
      }
      stage := ImagesPulled;
      o := Done;
    }

    method PullOne(i: nat) returns (o: Outcome)
      modifies this`images
      ensures images == old(images) + if o.Done? then {i} else {}
    {
      var isOnLocal: bool := *;
      var t0 := AnyOutcome();
      var t1 := AnyOutcome();
      var t2 := AnyOutcome();
      var pulled;
      o, pulled := PullImageWithName(isOnLocal, [t0, t1, t2]);
      images := images + if o.Done? then {i} else {};
    }

    method CopyPlugins() returns (o: Outcome)
      requires stage == ContainersStarted
      modifies this`stage
      ensures stage == if o.Done? then PluginsCopied else ContainersStarted
    {
      o := AnyOutcome();
      stage := if o.Done? then PluginsCopied else stage;
    }

    method RunShell() returns (o: Outcome)
      requires stage == PluginsCopied
      modifies this`stage
      ensures stage == if o.Done? then ShellRun else PluginsCopied
    {
      o := AnyOutcome();
      stage := if o.Done? then ShellRun else stage;
    }

    /** Polls the shell until it has ended; the first answer gives its pid. */
    method WaitForExit() returns (o: Outcome, exitCode: int)
      requires stage == ShellRun
      modifies this`result, this`stage
      ensures o.Done? ==> result.status == Running
      ensures o.Failed? ==> result == old(result) || result.status == Running
      ensures stage == if o.Done? then ShellExited else ShellRun
    {
      exitCode := *;
      o := AnyOutcome();
      if o.Failed? {
        return;
      }
      var pid: int := *;
      result := StartStatus(result, pid);
      var polls: int := *;
      for i := 0 to if polls < 1 then 1 else polls
        invariant result.status == Running && stage == ShellRun
      {
        o := AnyOutcome();
        if o.Failed? {
          return;
        }
      }
      stage := ShellExited;
      o := Done;
    }

    /** The part of doStart up to the running shell. */
    method Prepare() returns (o: Outcome)
      requires Valid() && CleanedUp()
      modifies this`configs, this`containers, this`nextId, this`started, this`created,
        this`startFailed, this`removeTried, this`removeFailed, this`toStop, this`stopFailed, this`restartFailed,
        this`stage, this`images, this`upNow
      ensures Valid() && Reachable(0, |configs|)
      ensures o.Done? ==> stage == ShellRun && ImagesThere() && StartedNow(|configs|)
      ensures o.Failed? ==> stage != ShellRun && stage != ShellExited
    {
      o := PullImage();
      if o.Failed? {
        Wider(0, 0);
        return;
      }
      o := StartContainer();
      if o.Failed? {
        return;
      }
      Interfere();
      o := CopyPlugins();
      if o.Failed? {
        return;
      }
      o := RunShell();
    }

    /** The part of doStart that may panic. */
    method Attempt() returns (o: Outcome, ghost exited: Option<int>)
      requires Valid() && CleanedUp()
      modifies this`configs, this`result, this`containers, this`nextId, this`started, this`created,
        this`startFailed, this`removeTried, this`removeFailed, this`toStop, this`stopFailed, this`restartFailed,
        this`stage, this`images, this`upNow
      ensures Valid() && Reachable(0, |configs|)
      ensures o.Done? <==> exited.Some?
      ensures o.Done? <==> stage == ShellExited
      ensures o.Done? ==> ReportsExit(result, exited.value, allowFailure) && ImagesThere() && StartedNow(|configs|)
      ensures o.Failed? ==> result == old(result) || result.status == Running
    {
      exited := None;
      o := Prepare();
      if o.Failed? {
        return;
      }
      var exitCode;
      o, exitCode := WaitForExit();
      if o.Failed? {
        return;
      }
      exited := Some(exitCode);
      if !IsFinishStatus(result.status) {
        result := FinishStatus(result, exitCode, allowFailure);
      }
    }

    /**
     A shell that has exited is reported with its exit code, as a success if that is 0 or failing is
     allowed, and as an exception otherwise; without one there is no success. An error is returned
     exactly with an exception for which no shell has exited.
     */
    ghost predicate Tells(out: bool, exited: Option<int>)
      reads this`result
    {
      && (exited.Some? ==>
            && result.code == exited.value
            && (result.status == Success <==> exited.value == 0 || allowFailure)
            && (result.status == Success || result.status == Exception))
      && (exited.None? ==> result.status != Success)
      && (out <==> exited.None? && result.status == Exception)
    }

    method HandleErrors(e: CallError) returns (out: bool)
      modifies this`result
      ensures e.Other? ==> out && result == ErrorStatus(old(result))
      ensures e.Context? ==> !out && result == ContextStatus(old(result), e.err)
    {
      match e
      case Context(err) =>
        result := ContextStatus(result, err);
        return false;
      case Other =>
        result := ErrorStatus(result);
        return true;
    }

    /** The end of an attempt: a panic becomes a status. */
    method Judge(o: Outcome) returns (out: bool)
      modifies this`result, this`history
      ensures o.Done? ==> !out && result == old(result)
      ensures o.Failed? && o.error.Other? ==> out && result == ErrorStatus(old(result))
      ensures o.Failed? && o.error.Context? ==> !out && result == ContextStatus(old(result), o.error.err)
      ensures history == old(history) + [result.status]
    {
      out := false;
      if o.Failed? {
        out := HandleErrors(o.error);
      }
      history := history + [result.status];
    }

    /** One attempt: clean-up comes first, then a panic becomes a status. */
    method DoStart() returns (out: bool, ghost exited: Option<int>)
      requires Valid() && CleanedUp()
      modifies this
      ensures Valid() && CleanedUp() && Stopped(|configs|) && markers == old(markers)
      ensures history == old(history) + [result.status] && result.status in {Success, Exception, Timeout, Killed}
      ensures exited.Some? <==> stage == ShellExited
      ensures exited.Some? ==> ImagesThere() && StartedNow(|configs|)
      ensures Tells(out, exited)
      ensures result.status == Timeout ==> Reports(result, DeadlineExceeded)
      ensures result.status == Killed ==> Reports(result, Canceled)
    {
      var o;
      o, exited := Attempt();
      CleanupContainer();
      out := Judge(o);
    }

    /**
     The retry loop: between 1 and retry + 1 attempts, one retry line fewer than attempts,
     another attempt exactly after an exception while retries are left, a finish status at
     the end, and no started container left whose removal did not fail. A negative retry
     count makes no attempt and leaves the result PENDING.
     */
    method Start() returns (out: bool, ghost exited: Option<int>)
      requires Valid() && CleanedUp() && history == [] && markers == 0 && result == NEW_OUTPUT
      modifies this
      ensures Valid() && CleanedUp() && startFailed !! removeTried
      ensures retry >= 0 ==> Stopped(|configs|)
      ensures retry < 0 ==> history == [] && result == ShellOut(Pending, -1, 0) && markers == 0 && !out
      ensures retry >= 0 ==> 1 <= |history| <= retry + 1 && markers == |history| - 1
      ensures retry >= 0 ==>
        history[|history| - 1] == result.status && result.status in {Success, Exception, Timeout, Killed}
      ensures forall i :: 0 <= i < |history| - 1 ==> history[i] == Exception
      ensures retry >= 0 && result.status == Exception ==> |history| == retry + 1
      ensures Tells(out, exited)
      ensures result.status == Timeout ==> Reports(result, DeadlineExceeded)
      ensures result.status == Killed ==> Reports(result, Canceled)
    {
      out, exited := false, None;
      var i := retry;
      while i >= 0
        invariant Valid() && CleanedUp()
        invariant i <= retry && (retry >= 0 ==> i >= -1 && |history| == retry - i)
        invariant retry < 0 ==> history == [] && i == retry
        invariant history != [] ==> Stopped(|configs|)
        invariant history == [] ==> result == NEW_OUTPUT && !out && exited.None? && markers == 0
        invariant Tells(out, exited)
        invariant history != [] ==> result.status == Exception && markers == if i >= 0 then |history| else |history| - 1
        invariant forall k :: 0 <= k < |history| ==> history[k] == Exception
        decreases i
      {
        out, exited := DoStart();
        if result.status == Exception || out {
          if i > 0 {
            markers := markers + 1;
          }
          i := i - 1;
          continue;
        }
        break;
      }
    }
  }

  /** What cleanupContainer stops: it removes a config flagged for both. */
  predicate ForStop(c: DockerConfig) {
    c.isStop && !c.isDelete
  }

  predicate SameFlags(a: seq<DockerConfig>, b: seq<DockerConfig>) {
    |a| == |b| && forall k :: 0 <= k < |a| ==> a[k].isDelete == b[k].isDelete && a[k].isStop == b[k].isStop
  }
}
