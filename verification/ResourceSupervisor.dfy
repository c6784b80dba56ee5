/** The supervisor that stops, starts and rolls back GPU workers, one operation at a time. */
module ResourceSupervisor {
  import opened Wrappers
  import opened ResourceTypes

  // ---------- what an operation shows while it runs ----------

  /** The sets of ready workloads an operation goes through. */
  datatype Trail = Begun | Then(before: Trail, ready: set<Workload>)

  /** At every moment the ready workers are among those of one of the allowed sets. */
  ghost predicate Always(trail: Trail, allowed: set<set<Workload>>) {
    trail.Then? ==> Always(trail.before, allowed) && exists a :: a in allowed && trail.ready * WORKERS <= a
  }

  /** These workloads are ready at every moment. */
  predicate Undisturbed(trail: Trail, kept: set<Workload>) {
    trail.Then? ==> Undisturbed(trail.before, kept) && kept <= trail.ready
  }

  /** At some moment this workload is not ready. */
  predicate WasDown(trail: Trail, w: Workload) {
    trail.Then? && (w !in trail.ready || WasDown(trail.before, w))
  }

  /** The phases an operation publishes. */
  datatype Phases = Unpublished | Published(before: Phases, phase: Phase)

  predicate Forward(p: Phases) {
    p.Published? && p.before.Published? ==>
      Forward(p.before) && !Terminal(p.before.phase) && Rank(p.before.phase) <= Rank(p.phase)
  }

  // ---------- requests as functions ----------

  /** The arguments of the executing thread. */
  datatype Task = Task(previous: Snapshot, desired: set<Workload>, profile: Option<Profile>, restart: Option<Workload>)

  datatype State = State(snapshot: Snapshot, thread: Option<Task>, ready: set<Workload>, nextId: nat)

  datatype RequestError = AgentUnavailable

  predicate Busy(s: Snapshot) {
    s.operation.Some? && !Terminal(s.operation.value.phase)
  }

  predicate AlreadyReady(s: Snapshot, desired: set<Workload>) {
    s.desired == desired && forall w :: w in desired ==> w in s.statuses && s.statuses[w].ready
  }

  function Request(s: State, action: Action, desired: set<Workload>, profile: Option<Profile>,
                   restart: Option<Workload>): (State, Operation) {
    var sn := s.snapshot;
    if Busy(sn) then (s, sn.operation.value)
    else if action.Reconciling? && AlreadyReady(sn, desired) then
      if sn.operation.Some? && sn.operation.value.action == action && sn.operation.value.phase.Ready? then
        (s, sn.operation.value)
      else
        var op := Operation(s.nextId, action, Ready, None);
        (s.(snapshot := sn.(profile := profile, operation := Some(op), lastReady := profile),
            nextId := s.nextId + 1),
         op)
    else
      var op := Operation(s.nextId, action, Queued, None);
      (s.(snapshot := sn.(profile := profile, desired := desired, statuses := Desiring(sn.statuses, desired),
                          operation := Some(op)),
          thread := Some(Task(sn, desired, profile, restart)),
          nextId := s.nextId + 1),
       op)
  }

  function Reconcile(s: State, agentReady: bool, p: Profile): (State, Result<Operation, RequestError>) {
    if p.FullPipeline? && !agentReady then (s, Failure(AgentUnavailable))
    else var (s', op) := Request(s, Reconciling(p), Plan(p), Some(p), None); (s', Success(op))
  }

  /** What a reset asks for, computed from a snapshot read before the request is made. */
  function ResetTarget(seen: Snapshot, w: Workload): (set<Workload>, Option<Profile>) {
    if seen.policy.Exclusive? then
      if w.Tts? then ({Tts}, Some(TtsOnly)) else ({Asr, Correction}, Some(AsrOnly))
    else
      var desired := seen.desired + {w} + (if w.Asr? then {Correction} else {});
      (desired, ProfileFor(desired))
  }

  function Reset(s: State, agentReady: bool, w: Workload, seen: Snapshot): (State, Result<Operation, RequestError>) {
    if w.Agent? && !agentReady then (s, Failure(AgentUnavailable))
    else
      var (desired, profile) := ResetTarget(seen, w);
      var (s', op) := Request(s, Resetting(w), desired, profile, Some(w));
      (s', Success(op))
  }

  /** The ready workers a task wants and does not restart. */
  function Kept(ready: set<Workload>, t: Task): set<Workload> {
    ready * t.desired - (if t.restart.Some? then {t.restart.value} else {})
  }

  /** Every ready workload that is not wanted, and the one to restart. */
  function ToStop(ready: set<Workload>, t: Task): set<Workload> {
    ready - t.desired + (if t.restart.Some? && t.restart.value in ready then {t.restart.value} else {})
  }

  lemma {:induction false} NothingStops(trail: Trail, n: nat)
    requires trail.Then? && n <= |STOP_ORDER|
    ensures AfterStops(trail, n, {}) == trail
  {
    if n > 0 {
      NothingStops(trail, n - 1);
    }
  }

  lemma StoppedEnough(before: set<Workload>, t: Task, after: set<Workload>)
    requires after == before - ToStop(before, t) * WORKERS
    ensures after * WORKERS <= t.desired && after - WORKERS == before - WORKERS
    ensures Kept(before, t) <= before - ToStop(before, t) <= after
    ensures t.restart.Some? && t.restart.value in WORKERS ==> t.restart.value !in after
  {
  }

  /** The trail after stopping, in stop order, those of the first `n` workers that are chosen. */
  function AfterStops(trail: Trail, n: nat, chosen: set<Workload>): (r: Trail)
    requires trail.Then? && n <= |STOP_ORDER|
    ensures r.Then?
  {
    if n == 0 then trail
    else
      var before, w := AfterStops(trail, n - 1, chosen), STOP_ORDER[n - 1];
      if w in chosen then Then(before, before.ready - {w}) else before
  }

  function AfterStarts(trail: Trail, n: nat, chosen: set<Workload>): (r: Trail)
    requires trail.Then? && n <= |START_ORDER|
    ensures r.Then?
  {
    if n == 0 then trail
    else
      var before, w := AfterStarts(trail, n - 1, chosen), START_ORDER[n - 1];
      if w in chosen then Then(before, before.ready + {w}) else before
  }

  function FirstStarts(n: nat): set<Workload>
    requires n <= |START_ORDER|
  {
    if n == 0 then {} else FirstStarts(n - 1) + {START_ORDER[n - 1]}
  }

  lemma FirstStartsAre()
    ensures FirstStarts(0) == {} && FirstStarts(1) == {Asr} && FirstStarts(2) == {Asr, Correction}
            && FirstStarts(3) == WORKERS
  {
    assert FirstStarts(1) == FirstStarts(0) + {START_ORDER[0]};
    assert FirstStarts(2) == FirstStarts(1) + {START_ORDER[1]};
    assert FirstStarts(3) == FirstStarts(2) + {START_ORDER[2]};
  }

  /** One warming phase for each worker started. */
  function AfterWarmings(p: Phases, n: nat, chosen: set<Workload>): Phases
    requires n <= |START_ORDER|
  {
    if n == 0 then p
    else
      var before := AfterWarmings(p, n - 1, chosen);
      if START_ORDER[n - 1] in chosen then Published(before, Warming) else before
  }

  /** What is wanted and not ready once the stops are done. */
  function ToStart(ready: set<Workload>, t: Task): set<Workload> {
    t.desired - (ready - ToStop(ready, t) * WORKERS)
  }

  /** The course of a successful operation: every stop before every start, each in its order. */
  function ReadyTrail(ready: set<Workload>, t: Task): Trail {
    AfterStarts(AfterStops(Then(Begun, ready), |STOP_ORDER|, ToStop(ready, t)), |START_ORDER|, ToStart(ready, t))
  }

  function ReleasePhases(ready: set<Workload>, t: Task, p: Phases): Phases {
    if ToStop(ready, t) != {} then Published(Published(p, Draining), Releasing) else p
  }

  function LaunchPhases(p: Phases, start: set<Workload>): Phases {
    AfterWarmings(if start != {} then Published(p, Starting) else p, |START_ORDER|, start)
  }

  /** The phases it publishes: draining only if something stops, starting and warming only if something starts. */
  function ReadyPhases(ready: set<Workload>, t: Task): Phases {
    Published(LaunchPhases(ReleasePhases(ready, t, Published(Unpublished, Queued)), ToStart(ready, t)), Ready)
  }

  lemma {:induction false} StopsKeep(trail: Trail, n: nat, chosen: set<Workload>, kept: set<Workload>)
    requires trail.Then? && n <= |STOP_ORDER| && Undisturbed(trail, kept) && forall w :: w in kept ==> w !in chosen
    ensures Undisturbed(AfterStops(trail, n, chosen), kept)
  {
    if n > 0 {
      StopsKeep(trail, n - 1, chosen, kept);
    }
  }

  lemma {:induction false} StartsKeep(trail: Trail, n: nat, chosen: set<Workload>, kept: set<Workload>, w: Workload)
    requires trail.Then? && n <= |START_ORDER|
    ensures Undisturbed(trail, kept) ==> Undisturbed(AfterStarts(trail, n, chosen), kept)
    ensures WasDown(trail, w) ==> WasDown(AfterStarts(trail, n, chosen), w)
  {
    if n > 0 {
      StartsKeep(trail, n - 1, chosen, kept, w);
    }
  }

  lemma {:induction false} StopsTakeDown(trail: Trail, n: nat, chosen: set<Workload>, i: nat)
    requires trail.Then? && i < n <= |STOP_ORDER|
    ensures AfterStops(trail, n, chosen).ready <= trail.ready
    ensures STOP_ORDER[i] in chosen ==> STOP_ORDER[i] !in AfterStops(trail, n, chosen).ready
  {
    if n > 1 {
      StopsTakeDown(trail, n - 1, chosen, if i < n - 1 then i else 0);
    }
  }

  /** A successful operation never interrupts a wanted worker, except the one it was asked to restart, which it does
      take down. */
  lemma OnlyTheRestartedWorkerIsDisturbed(ready: set<Workload>, t: Task)
    ensures Undisturbed(ReadyTrail(ready, t), Kept(ready, t))
    ensures t.restart.Some? && t.restart.value in WORKERS ==> WasDown(ReadyTrail(ready, t), t.restart.value)
  {
    var begun := Then(Begun, ready);
    var stopped, kept := AfterStops(begun, |STOP_ORDER|, ToStop(ready, t)), Kept(ready, t);
    assert Undisturbed(begun, kept);
    StopsKeep(begun, |STOP_ORDER|, ToStop(ready, t), kept);
    StartsKeep(stopped, |START_ORDER|, ToStart(ready, t), kept, Asr);
    if t.restart.Some? && t.restart.value in WORKERS {
      var w := t.restart.value;
      var i := if w.Correction? then 0 else if w.Asr? then 1 else 2;
      assert STOP_ORDER[i] == w;
      StopsTakeDown(begun, |STOP_ORDER|, ToStop(ready, t), i);
      assert w !in stopped.ready;
      StartsKeep(stopped, |START_ORDER|, ToStart(ready, t), kept, w);
    }
  }

  // ---------- what an execution may do ----------

  /** `readyBefore` is the set of ready workloads when the thread starts. */
  ghost predicate Executes(s: State, t: Task, s': State, trail: Trail, phases: Phases) {
    && s.snapshot.operation.Some? && s'.snapshot.operation.Some?
    && Always(trail, {s.ready * WORKERS, t.desired, t.previous.desired}) && trail.Then? && trail.ready == s'.ready
    && Forward(phases) && phases.Published? && phases.phase == s'.snapshot.operation.value.phase
    && s'.thread == None && s'.nextId == s.nextId
    && s'.ready - WORKERS == s.ready - WORKERS
    && s'.snapshot.policy == t.previous.policy && ValidSnapshot(s'.snapshot)
    && SameOperation(s.snapshot.operation.value, s'.snapshot.operation.value)
    && match s'.snapshot.operation.value.phase
       case Ready =>
         && s'.ready * WORKERS == t.desired * WORKERS
         && s'.snapshot.desired == t.desired && s'.snapshot.profile == t.profile && s'.snapshot.lastReady == t.profile
         && s'.snapshot.operation.value.error == None
         && (Accurate(s.snapshot, s.ready) ==> Accurate(s'.snapshot, s'.ready))
         && trail == ReadyTrail(s.ready, t) && phases == ReadyPhases(s.ready, t)
       case RolledBack =>
         && s'.ready * WORKERS == t.previous.desired * WORKERS
         && s'.snapshot.desired == t.previous.desired && s'.snapshot.profile == t.previous.profile
         && s'.snapshot.lastReady == t.previous.lastReady
         && Accurate(s'.snapshot, s'.ready)
         && phases.before.Published? && s'.snapshot.operation.value.error.Some?
         && FailureAt(s'.snapshot.operation.value.error.value, phases.before.phase)
       case Failed =>
         && s'.snapshot.desired == t.desired && s'.snapshot.profile == s.snapshot.profile
         && s'.snapshot.lastReady == s.snapshot.lastReady
         && s'.snapshot.operation.value.error == Some(RollbackFailed)
       case _ => false
  }

  /** A failure counts as a start failure once starting was announced, and as a stop failure before. */
  predicate FailureAt(error: OperationError, phase: Phase) {
    error == if Rank(Starting) <= Rank(phase) then StartFailed else StopFailed
  }

  predicate SameOperation(a: Operation, b: Operation) {
    a.id == b.id && a.action == b.action
  }

  // ---------- the workers ----------

  /**
   The lifecycle adapter. Any call may raise. Readiness changes only through `Start` and
   `Stop`: a start becomes visible within `patience` polls or never, a start that raises
   or whose polling raises never becomes ready, a stop that raises may or may not have stopped.
   */
  class Lifecycle {
    const patience: nat
    var ready: set<Workload>
    /** The worker being started, and after how many more polls it is ready. */
    var booting: Option<(Workload, nat)>
    ghost var trail: Trail

    constructor (patience: nat, ready: set<Workload>)
      ensures this.patience == patience && this.ready == ready && booting == None
    {
      this.patience, this.ready, booting, trail := patience, ready, None, Begun;
    }

    /** No worker is being started, and the trail ends with what is ready now. */
    ghost predicate Tracked()
      reads this
    {
      booting == None && trail.Then? && trail.ready == ready
    }

    /** At most this worker is being started, within the polling bound. */
    ghost predicate BootingAtMost(w: Workload)
      reads this
    {
      && trail.Then? && trail.ready == ready
      && (booting.Some? ==> booting.value.0 == w && booting.value.1 <= patience)
    }

    ghost method Begin()
      modifies this`trail
      ensures trail == Then(Begun, ready)
    {
      trail := Then(Begun, ready);
    }

    method IsReady(w: Workload) returns (r: Option<bool>)
      modifies this
      ensures r.Some? ==> r.value == (w in ready)
      ensures r.None? ==> booting == None
      ensures old(booting) == None ==> booting == None && ready == old(ready) && trail == old(trail)
      ensures old(booting).Some? && old(booting).value.0 == w && r.Some? ==>
                var polls := old(booting).value.1;
                if polls == 0 then booting == None && ready == old(ready) + {w} && trail == Then(old(trail), ready)
                else booting == Some((w, polls - 1)) && ready == old(ready) && trail == old(trail)
      ensures r.None? ==> ready == old(ready) && trail == old(trail)
    {
      var raises: bool := *;
      if raises {
        booting := None;
        return None;
      }
      if booting.Some? && booting.value.0 == w {
        if booting.value.1 == 0 {
          ready := ready + {w};
          booting := None;
          trail := Then(trail, ready);
        } else {
          booting := Some((w, booting.value.1 - 1));
        }
      }
      r := Some(w in ready);
    }

    method Start(w: Workload) returns (ok: bool)
      modifies this`booting
      ensures booting == None || (ok && booting.value.0 == w && booting.value.1 <= patience)
    {
      ok := *;
      var boots: bool := *;
      var polls: nat := *;
      booting := if ok && boots && polls <= patience then Some((w, polls)) else None;
    }

    method Stop(w: Workload) returns (ok: bool)
      modifies this`ready, this`trail
      ensures ready == old(ready) - {w} || (!ok && ready == old(ready))
      ensures trail == Then(old(trail), ready)
    {
      ok := *;
      var stopped: bool := *;
      if ok || stopped {
        ready := ready - {w};
      }
      trail := Then(trail, ready);
    }
  }

  // ---------- the supervisor ----------

  class ResourceSupervisor {
    const lifecycle: Lifecycle
    const agentReady: bool
    var snapshot: Snapshot
    var thread: Option<Task>
    var nextId: nat
    /** The phases published since the thread started. */
    ghost var phases: Phases

    ghost function View(): State
      reads this, lifecycle
    {
      State(snapshot, thread, lifecycle.ready, nextId)
    }

    ghost predicate Valid()
      reads this, lifecycle
    {
      Settled(View()) && lifecycle.booting == None
    }

    /** An operation is running and has not gone past this phase. */
    ghost predicate Executing(limit: Phase)
      reads this
    {
      && snapshot.operation.Some? && phases.Published? && phases.phase == snapshot.operation.value.phase
      && Forward(phases) && !Terminal(phases.phase) && Rank(phases.phase) <= Rank(limit)
    }

    constructor (lifecycle: Lifecycle, policy: Policy, agentReady: bool)
      requires lifecycle.booting == None
      ensures Valid() && this.lifecycle == lifecycle && this.agentReady == agentReady
      ensures snapshot.policy == policy && snapshot.operation == None && thread == None
      ensures Apart(snapshot.desired) && Accurate(snapshot, lifecycle.ready)
      ensures snapshot.profile == Some(if Tts in lifecycle.ready && Asr !in lifecycle.ready then TtsOnly else AsrOnly)
      ensures snapshot.desired == Plan(snapshot.profile.value) && snapshot.lastReady == None
      ensures snapshot.statuses == Observed(lifecycle.ready, snapshot.desired)
    {
      this.lifecycle, this.agentReady, this.nextId, this.thread := lifecycle, agentReady, 0, None;
      phases := Unpublished;
      var profile := if Tts in lifecycle.ready && Asr !in lifecycle.ready then TtsOnly else AsrOnly;
      snapshot := Snapshot(policy, Some(profile), Plan(profile), Observed(lifecycle.ready, Plan(profile)), None, None);
      ObservedIsAccurate(lifecycle.ready, Plan(profile));
    }

    method RequestOperation(action: Action, desired: set<Workload>, profile: Option<Profile>, restart: Option<Workload>)
        returns (op: Operation)
      requires Valid()
      modifies this
      ensures Valid()
      ensures (View(), op) == Request(old(View()), action, desired, profile, restart)
    {
      if snapshot.operation.Some? && !Terminal(snapshot.operation.value.phase) {
        return snapshot.operation.value;
      }
      if action.Reconciling? && AlreadyReady(snapshot, desired) {
        if snapshot.operation.Some? && snapshot.operation.value.action == action
          && snapshot.operation.value.phase.Ready? {
          return snapshot.operation.value;
        }
        op := Operation(nextId, action, Ready, None);
        nextId := nextId + 1;
        snapshot := snapshot.(profile := profile, operation := Some(op), lastReady := profile);
        return;
      }
      var previous := snapshot;
      op := Operation(nextId, action, Queued, None);
      nextId := nextId + 1;
      snapshot := previous.(profile := profile, desired := desired, statuses := Desiring(previous.statuses, desired),
        operation := Some(op));
      thread := Some(Task(previous, desired, profile, restart));
    }

    method ReconcileTo(p: Profile) returns (r: Result<Operation, RequestError>)
      requires Valid()
      modifies this
      ensures Valid()
      ensures (View(), r) == Reconcile(old(View()), agentReady, p)
    {
      if p.FullPipeline? && !agentReady {
        return Failure(AgentUnavailable);
      }
      var op := RequestOperation(Reconciling(p), Plan(p), Some(p), None);
      r := Success(op);
    }

    method ResetWorkload(w: Workload) returns (r: Result<Operation, RequestError>)
      requires Valid()
      modifies this
      ensures Valid()
      ensures (View(), r) == Reset(old(View()), agentReady, w, old(snapshot))
    {
      if w.Agent? && !agentReady {
        return Failure(AgentUnavailable);
      }
      var (desired, profile) := ResetTarget(snapshot, w);
      var op := RequestOperation(Resetting(w), desired, profile, Some(w));
      r := Success(op);
    }

    method SetPhase(phase: Phase, error: Option<OperationError>)
      requires snapshot.operation.Some?
      requires Forward(phases) && phases.Published? && phases.phase == snapshot.operation.value.phase
      requires !Terminal(phases.phase) && Rank(phases.phase) <= Rank(phase)
      modifies this`snapshot, this`phases
      ensures snapshot
              == old(snapshot).(operation := Some(old(snapshot.operation.value).(phase := phase, error := error)))
      ensures Forward(phases) && phases == Published(old(phases), phase)
    {
      snapshot := snapshot.(operation := Some(snapshot.operation.value.(phase := phase, error := error)));
      phases := Published(phases, phase);
    }

    method SetWorkload(w: Workload, state: WorkerState)
      requires ValidSnapshot(snapshot)
      modifies this`snapshot
      ensures ValidSnapshot(snapshot)
      ensures snapshot == old(snapshot).(statuses := snapshot.statuses)
      ensures ReadyFlags(snapshot) == if state.WorkerReady? then ReadyFlags(old(snapshot)) + {w}
                                        else ReadyFlags(old(snapshot)) - {w}
    {
      assert w in ALL_WORKLOADS;
      snapshot := snapshot.(statuses := snapshot.statuses[w := snapshot.statuses[w].(lifecycle := state,
        ready := state.WorkerReady?)]);
    }

    /** Which of these workloads are ready; `None` when asking raised. */
    method Observe(of: set<Workload>) returns (r: Option<set<Workload>>)
      requires lifecycle.booting == None
      modifies lifecycle
      ensures lifecycle.booting == None && lifecycle.ready == old(lifecycle.ready)
              && lifecycle.trail == old(lifecycle.trail)
      ensures r.Some? ==> r.value == lifecycle.ready * of
    {
      var rest, found := of, {};
      while rest != {}
        invariant rest <= of && found == lifecycle.ready * (of - rest)
        invariant lifecycle.booting == None && lifecycle.ready == old(lifecycle.ready)
                  && lifecycle.trail == old(lifecycle.trail)
        decreases |rest|
      {
        var w :| w in rest;
        var ready := lifecycle.IsReady(w);
        if ready.None? {
          return None;
        }
        if ready.value {
          found := found + {w};
        }
        rest := rest - {w};
      }
      r := Some(found);
    }

    /** Polls a started worker until it is ready or the start times out. */
    method AwaitReady(w: Workload, ghost allowed: set<set<Workload>>) returns (ok: bool)
      requires lifecycle.BootingAtMost(w) && w !in lifecycle.ready
      requires Always(lifecycle.trail, allowed) && exists a :: a in allowed && (lifecycle.ready + {w}) * WORKERS <= a
      modifies lifecycle
      ensures lifecycle.Tracked() && Always(lifecycle.trail, allowed)
      ensures lifecycle.ready == if ok then old(lifecycle.ready) + {w} else old(lifecycle.ready)
      ensures lifecycle.trail == if ok then Then(old(lifecycle.trail), lifecycle.ready) else old(lifecycle.trail)
    {
      var polls := 0;
      while true
        invariant 0 <= polls <= lifecycle.patience && lifecycle.trail.Then? && lifecycle.trail.ready == lifecycle.ready
        invariant lifecycle.booting.Some?
                  ==> lifecycle.booting.value.0 == w && lifecycle.booting.value.1 <= lifecycle.patience - polls
        invariant lifecycle.ready == old(lifecycle.ready) && Always(lifecycle.trail, allowed)
                  && lifecycle.trail == old(lifecycle.trail)
        decreases lifecycle.patience - polls
      {
        var ready := lifecycle.IsReady(w);
        if ready.None? {
          return false;
        }
        if ready.value {
          return true;
        }
        if polls == lifecycle.patience {
          return false;
        }
        polls := polls + 1;
      }
    }

    method StopOne(w: Workload, ghost allowed: set<set<Workload>>, ghost bound: set<Workload>) returns (ok: bool)
      requires ValidSnapshot(snapshot) && lifecycle.Tracked() && w in WORKERS
      requires Always(lifecycle.trail, allowed) && bound in allowed && lifecycle.ready * WORKERS <= bound
      modifies this`snapshot, lifecycle
      ensures ValidSnapshot(snapshot) && lifecycle.Tracked() && Always(lifecycle.trail, allowed)
      ensures snapshot == old(snapshot).(statuses := snapshot.statuses)
      ensures lifecycle.ready == old(lifecycle.ready) - {w} || (!ok && lifecycle.ready == old(lifecycle.ready))
      ensures ok ==> ReadyFlags(snapshot) == ReadyFlags(old(snapshot)) - {w}
      ensures lifecycle.trail == Then(old(lifecycle.trail), lifecycle.ready)
    {
      SetWorkload(w, WorkerDraining);
      ok := lifecycle.Stop(w);
      assert lifecycle.ready * WORKERS <= bound;
      if ok {
        SetWorkload(w, WorkerStopped);
      }
    }

    /** Drains and stops workers in stop order. */
    method StopAll(toStop: set<Workload>, ghost allowed: set<set<Workload>>) returns (ok: bool)
      requires ValidSnapshot(snapshot) && lifecycle.Tracked()
      requires Always(lifecycle.trail, allowed) && lifecycle.ready * WORKERS in allowed
      modifies this`snapshot, lifecycle
      ensures ValidSnapshot(snapshot) && lifecycle.Tracked() && Always(lifecycle.trail, allowed)
      ensures snapshot == old(snapshot).(statuses := snapshot.statuses)
      ensures lifecycle.ready <= old(lifecycle.ready) && lifecycle.ready - WORKERS == old(lifecycle.ready) - WORKERS
      ensures ok ==> lifecycle.ready == old(lifecycle.ready) - (toStop * WORKERS)
      ensures ok ==> ReadyFlags(snapshot) == ReadyFlags(old(snapshot)) - (toStop * WORKERS)
      ensures ok ==> lifecycle.trail == AfterStops(old(lifecycle.trail), |STOP_ORDER|, toStop)
    {
      ghost var done: set<Workload> := {};
      for i := 0 to |STOP_ORDER|
        invariant done == if i == 0 then {} else if i == 1 then {Correction} else if i == 2 then {Correction, Asr}
                  else WORKERS
        invariant ValidSnapshot(snapshot) && lifecycle.Tracked() && Always(lifecycle.trail, allowed)
        invariant snapshot == old(snapshot).(statuses := snapshot.statuses)
        invariant lifecycle.ready == old(lifecycle.ready) - (toStop * done)
        invariant ReadyFlags(snapshot) == ReadyFlags(old(snapshot)) - (toStop * done)
        invariant lifecycle.trail == AfterStops(old(lifecycle.trail), i, toStop)
      {
        var w := STOP_ORDER[i];
        if w in toStop {
          ok := StopOne(w, allowed, old(lifecycle.ready) * WORKERS);
          if !ok {
            return;
          }
        }
        done := done + {w};
      }
      ok := true;
    }

    method StartOne(w: Workload, ghost allowed: set<set<Workload>>, ghost desired: set<Workload>) returns (ok: bool)
      requires ValidSnapshot(snapshot) && lifecycle.Tracked() && Executing(Warming) && w in WORKERS
      requires w in desired && w !in lifecycle.ready
      requires Always(lifecycle.trail, allowed) && desired in allowed && lifecycle.ready * WORKERS <= desired
      modifies this`snapshot, this`phases, lifecycle
      ensures ValidSnapshot(snapshot) && lifecycle.Tracked() && Always(lifecycle.trail, allowed)
      ensures Executing(Warming) && SameRequest(old(snapshot), snapshot)
      ensures lifecycle.ready == if ok then old(lifecycle.ready) + {w} else old(lifecycle.ready)
      ensures ok ==> ReadyFlags(snapshot) == ReadyFlags(old(snapshot)) + {w}
      ensures lifecycle.trail == if ok then Then(old(lifecycle.trail), lifecycle.ready) else old(lifecycle.trail)
      ensures ok ==> phases == Published(old(phases), Warming)
      ensures Rank(old(phases.phase)) <= Rank(phases.phase)
    {
      SetWorkload(w, WorkerStarting);
      ok := lifecycle.Start(w);
      if !ok {
        return;
      }
      SetPhase(Warming, None);
      SetWorkload(w, WorkerWarming);
      assert (lifecycle.ready + {w}) * WORKERS <= desired;
      ok := AwaitReady(w, allowed);
      if ok {
        SetWorkload(w, WorkerReady);
      }
    }

    /** The first `i` of the start order have been started if chosen. */
    ghost predicate Started(i: nat, chosen: set<Workload>, trail: Trail, before: Phases, ready: set<Workload>,
                            flags: set<Workload>)
      requires trail.Then? && i <= |START_ORDER|
      reads this, lifecycle
    {
      && lifecycle.trail == AfterStarts(trail, i, chosen) && phases == AfterWarmings(before, i, chosen)
      && lifecycle.ready == ready + chosen * FirstStarts(i) && ReadyFlags(snapshot) == flags + chosen * FirstStarts(i)
    }

    method StartNext(i: nat, chosen: set<Workload>, ghost desired: set<Workload>, ghost allowed: set<set<Workload>>,
                     ghost trail: Trail, ghost before: Phases, ghost ready: set<Workload>, ghost flags: set<Workload>)
        returns (ok: bool)
      requires ValidSnapshot(snapshot) && lifecycle.Tracked() && Executing(Warming) && i < |START_ORDER| && trail.Then?
      requires Started(i, chosen, trail, before, ready, flags) && chosen <= desired && chosen * ready == {}
      requires Always(lifecycle.trail, allowed) && desired in allowed && lifecycle.ready * WORKERS <= desired
      modifies this`snapshot, this`phases, lifecycle
      ensures ValidSnapshot(snapshot) && lifecycle.Tracked() && Always(lifecycle.trail, allowed)
      ensures Executing(Warming) && SameRequest(old(snapshot), snapshot)
      ensures lifecycle.ready - WORKERS == old(lifecycle.ready) - WORKERS && lifecycle.ready * WORKERS <= desired
      ensures ok ==> Started(i + 1, chosen, trail, before, ready, flags)
      ensures START_ORDER[i] !in chosen ==> ok
      ensures Rank(old(phases.phase)) <= Rank(phases.phase)
    {
      var w := START_ORDER[i];
      ok := true;
      FirstStartsAre();
      assert w in WORKERS && w !in FirstStarts(i) && FirstStarts(i + 1) == FirstStarts(i) + {w};
      if w in chosen {
        ok := StartOne(w, allowed, desired);
      }
    }

    /** Starts and warms workers in start order. */
    method StartAll(toStart: set<Workload>, desired: set<Workload>, ghost allowed: set<set<Workload>>)
        returns (ok: bool)
      requires ValidSnapshot(snapshot) && lifecycle.Tracked() && Executing(Warming)
      requires Always(lifecycle.trail, allowed) && desired in allowed && lifecycle.ready * WORKERS <= desired
      requires toStart <= desired && toStart * lifecycle.ready == {}
      modifies this`snapshot, this`phases, lifecycle
      ensures ValidSnapshot(snapshot) && lifecycle.Tracked() && Always(lifecycle.trail, allowed)
      ensures Executing(Warming) && SameRequest(old(snapshot), snapshot)
      ensures lifecycle.ready - WORKERS == old(lifecycle.ready) - WORKERS && lifecycle.ready * WORKERS <= desired
      ensures ok
              ==> Started(|START_ORDER|, toStart, old(lifecycle.trail), old(phases), old(lifecycle.ready),
                ReadyFlags(old(snapshot)))
      ensures Rank(old(phases.phase)) <= Rank(phases.phase) && (toStart == {} ==> ok)
    {
      FirstStartsAre();
      for i := 0 to |START_ORDER|
        invariant ValidSnapshot(snapshot) && lifecycle.Tracked() && Always(lifecycle.trail, allowed)
        invariant Executing(Warming) && SameRequest(old(snapshot), snapshot)
        invariant lifecycle.ready - WORKERS == old(lifecycle.ready) - WORKERS && lifecycle.ready * WORKERS <= desired
        invariant Started(i, toStart, old(lifecycle.trail), old(phases), old(lifecycle.ready),
                  ReadyFlags(old(snapshot)))
        invariant Rank(old(phases.phase)) <= Rank(phases.phase)
      {
        ok := StartNext(i, toStart, desired, allowed,
                        old(lifecycle.trail), old(phases), old(lifecycle.ready), ReadyFlags(old(snapshot)));
        if !ok {
          return;
        }
      }
      ok := true;
    }

    /** Every ready worker that is not desired, and the one to restart, is stopped before anything starts. */
    method Release(t: Task, ghost allowed: set<set<Workload>>) returns (ok: bool)
      requires ValidSnapshot(snapshot) && lifecycle.Tracked() && Executing(Queued)
      requires Always(lifecycle.trail, allowed) && lifecycle.ready * WORKERS in allowed
      modifies this`snapshot, this`phases, lifecycle
      ensures ValidSnapshot(snapshot) && lifecycle.Tracked() && Always(lifecycle.trail, allowed)
      ensures Executing(Releasing) && SameRequest(old(snapshot), snapshot)
      ensures lifecycle.ready - WORKERS == old(lifecycle.ready) - WORKERS && lifecycle.ready <= old(lifecycle.ready)
      ensures ok ==> lifecycle.ready * WORKERS <= t.desired
      ensures ok ==> lifecycle.ready == old(lifecycle.ready) - ToStop(old(lifecycle.ready), t) * WORKERS
      ensures ok ==> lifecycle.trail == AfterStops(old(lifecycle.trail), |STOP_ORDER|, ToStop(old(lifecycle.ready), t))
      ensures ok ==> phases == ReleasePhases(old(lifecycle.ready), t, old(phases))
      ensures ok && Accurate(old(snapshot), old(lifecycle.ready)) ==> Accurate(snapshot, lifecycle.ready)
    {
      var readyBefore := Observe(ALL_WORKLOADS);
      if readyBefore.None? {
        return false;
      }
      EveryWorkload(lifecycle.ready);
      assert readyBefore.value == old(lifecycle.ready);
      var toStop := readyBefore.value - t.desired;
      if t.restart.Some? && t.restart.value in readyBefore.value {
        toStop := toStop + {t.restart.value};
      }
      assert toStop == ToStop(old(lifecycle.ready), t);
      if toStop != {} {
        SetPhase(Draining, None);
        ok := StopAll(toStop, allowed);
        if !ok {
          return;
        }
        SetPhase(Releasing, None);
      } else {
        NothingStops(lifecycle.trail, |STOP_ORDER|);
      }
      StoppedEnough(old(lifecycle.ready), t, lifecycle.ready);
      ok := true;
    }

    /** Starts what is desired and not ready; `None` is success. */
    method Launch(t: Task, ghost allowed: set<set<Workload>>) returns (failure: Option<OperationError>)
      requires ValidSnapshot(snapshot) && lifecycle.Tracked() && Executing(Releasing)
      requires Always(lifecycle.trail, allowed) && t.desired in allowed && lifecycle.ready * WORKERS <= t.desired
      modifies this`snapshot, this`phases, lifecycle
      ensures ValidSnapshot(snapshot) && lifecycle.Tracked() && Always(lifecycle.trail, allowed)
      ensures Executing(Warming) && SameRequest(old(snapshot), snapshot)
      ensures lifecycle.ready - WORKERS == old(lifecycle.ready) - WORKERS && lifecycle.ready * WORKERS <= t.desired
      ensures failure.None? ==> lifecycle.ready * WORKERS == t.desired * WORKERS
      ensures failure.None?
              ==> lifecycle.trail == AfterStarts(old(lifecycle.trail), |START_ORDER|, t.desired - old(lifecycle.ready))
      ensures failure.None? ==> phases == LaunchPhases(old(phases), t.desired - old(lifecycle.ready))
      ensures failure.Some? ==> FailureAt(failure.value, phases.phase)
      ensures failure.None? && Accurate(old(snapshot), old(lifecycle.ready)) ==> Accurate(snapshot, lifecycle.ready)
    {
      var kept := Observe(t.desired);
      if kept.None? {
        return Some(StopFailed);
      }
      var toStart := t.desired - kept.value;
      assert toStart == t.desired - lifecycle.ready;
      if toStart != {} {
        SetPhase(Starting, None);
      }
      FirstStartsAre();
      var started := StartAll(toStart, t.desired, allowed);
      failure := if started then None else Some(StartFailed);
    }

    /** The body of the thread up to its exception handler; reports how it failed. */
    method Apply(t: Task, ghost allowed: set<set<Workload>>) returns (failure: Option<OperationError>)
      requires ValidSnapshot(snapshot) && lifecycle.Tracked() && Executing(Queued)
      requires Always(lifecycle.trail, allowed) && lifecycle.ready * WORKERS in allowed && t.desired in allowed
      modifies this`snapshot, this`phases, lifecycle
      ensures ValidSnapshot(snapshot) && lifecycle.Tracked() && Always(lifecycle.trail, allowed)
      ensures lifecycle.ready - WORKERS == old(lifecycle.ready) - WORKERS
      ensures failure.Some?
              ==> Executing(Warming) && SameRequest(old(snapshot), snapshot) && FailureAt(failure.value, phases.phase)
      ensures failure.Some? ==> lifecycle.ready <= old(lifecycle.ready) || lifecycle.ready * WORKERS <= t.desired
      ensures failure.None? ==>
                && lifecycle.ready * WORKERS == t.desired * WORKERS
                && Forward(phases) && phases.Published? && phases.phase.Ready?
                && snapshot == old(snapshot).(profile := t.profile, lastReady := t.profile,
                                              statuses := snapshot.statuses, operation := snapshot.operation)
                && snapshot.operation == Some(old(snapshot.operation.value).(phase := Ready, error := None))
                && (Accurate(old(snapshot), old(lifecycle.ready)) ==> Accurate(snapshot, lifecycle.ready))
                && lifecycle.trail
                   == AfterStarts(AfterStops(old(lifecycle.trail), |STOP_ORDER|, ToStop(old(lifecycle.ready), t)),
                                  |START_ORDER|, ToStart(old(lifecycle.ready), t))
                && phases == Published(LaunchPhases(ReleasePhases(old(lifecycle.ready), t, old(phases)),
                                                    ToStart(old(lifecycle.ready), t)), Ready)
    {
      var released := Release(t, allowed);
      if !released {
        return Some(StopFailed);
      }
      failure := Launch(t, allowed);
      if failure.None? {
        snapshot := snapshot.(profile := t.profile, lastReady := t.profile);
        SetPhase(Ready, None);
      }
    }

    /** Rollback, first half: stops every ready worker the previous request did not want. */
    method StopUnwanted(wanted: set<Workload>, ghost allowed: set<set<Workload>>, ghost bound: set<Workload>)
        returns (ok: bool)
      requires lifecycle.Tracked()
      requires Always(lifecycle.trail, allowed) && bound in allowed && lifecycle.ready * WORKERS <= bound
      modifies lifecycle
      ensures lifecycle.Tracked() && Always(lifecycle.trail, allowed)
      ensures lifecycle.ready <= old(lifecycle.ready) && lifecycle.ready - WORKERS == old(lifecycle.ready) - WORKERS
      ensures ok ==> lifecycle.ready * WORKERS == old(lifecycle.ready) * WORKERS * wanted
    {
      ghost var done: set<Workload> := {};
      for i := 0 to |STOP_ORDER|
        invariant done == if i == 0 then {} else if i == 1 then {Correction} else if i == 2 then {Correction, Asr}
                  else WORKERS
        invariant lifecycle.Tracked() && Always(lifecycle.trail, allowed)
        invariant lifecycle.ready == old(lifecycle.ready) - (done - wanted)
      {
        var w := STOP_ORDER[i];
        done := done + {w};
        if w !in wanted {
          var ready := lifecycle.IsReady(w);
          if ready.None? {
            return false;
          }
          if ready.value {
            var stopped := lifecycle.Stop(w);
            assert lifecycle.ready * WORKERS <= bound;
            if !stopped {
              return false;
            }
          }
        }
      }
      ok := true;
    }

    /** Rollback, second half: starts every worker the previous request wanted. */
    method StartWanted(wanted: set<Workload>, ghost allowed: set<set<Workload>>) returns (ok: bool)
      requires lifecycle.Tracked()
      requires Always(lifecycle.trail, allowed) && wanted in allowed && lifecycle.ready * WORKERS <= wanted
      modifies lifecycle
      ensures lifecycle.Tracked() && Always(lifecycle.trail, allowed)
      ensures lifecycle.ready - WORKERS == old(lifecycle.ready) - WORKERS
      ensures ok ==> lifecycle.ready * WORKERS == wanted * WORKERS
    {
      ghost var done: set<Workload> := {};
      for i := 0 to |START_ORDER|
        invariant done == if i == 0 then {} else if i == 1 then {Asr} else if i == 2 then {Asr, Correction} else WORKERS
        invariant lifecycle.Tracked() && Always(lifecycle.trail, allowed)
        invariant lifecycle.ready == old(lifecycle.ready) + (done * wanted)
      {
        var w := START_ORDER[i];
        done := done + {w};
        if w in wanted {
          var ready := lifecycle.IsReady(w);
          if ready.None? {
            return false;
          }
          if !ready.value {
            assert (lifecycle.ready + {w}) * WORKERS <= wanted;
            var started := lifecycle.Start(w);
            if !started {
              return false;
            }
            started := AwaitReady(w, allowed);
            if !started {
              return false;
            }
          }
        }
      }
      ok := true;
    }

    method RestoreWorkers(wanted: set<Workload>, ghost allowed: set<set<Workload>>, ghost bound: set<Workload>)
        returns (statuses: Option<map<Workload, Status>>)
      requires lifecycle.Tracked() && wanted in allowed
      requires Always(lifecycle.trail, allowed) && bound in allowed && lifecycle.ready * WORKERS <= bound
      modifies lifecycle
      ensures lifecycle.Tracked() && Always(lifecycle.trail, allowed)
      ensures lifecycle.ready - WORKERS == old(lifecycle.ready) - WORKERS
      ensures statuses.Some?
              ==> lifecycle.ready * WORKERS == wanted * WORKERS && statuses.value == Observed(lifecycle.ready, wanted)
    {
      var ok := StopUnwanted(wanted, allowed, bound);
      if !ok {
        return None;
      }
      ok := StartWanted(wanted, allowed);
      if !ok {
        return None;
      }
      var seen := Observe(ALL_WORKLOADS);
      if seen.None? {
        return None;
      }
      EveryWorkload(lifecycle.ready);
      statuses := Some(Observed(seen.value, wanted));
    }

    method Rollback(previous: Snapshot, error: OperationError, ghost allowed: set<set<Workload>>,
                    ghost bound: set<Workload>)
      requires ValidSnapshot(snapshot) && ValidSnapshot(previous) && lifecycle.Tracked() && Executing(Warming)
      requires previous.desired in allowed && Always(lifecycle.trail, allowed) && bound in allowed
               && lifecycle.ready * WORKERS <= bound
      modifies this`snapshot, this`phases, lifecycle
      ensures ValidSnapshot(snapshot) && lifecycle.Tracked() && Always(lifecycle.trail, allowed)
      ensures lifecycle.ready - WORKERS == old(lifecycle.ready) - WORKERS
      ensures Forward(phases) && phases.Published? && snapshot.operation.Some?
              && phases.phase == snapshot.operation.value.phase
      ensures SameOperation(old(snapshot.operation.value), snapshot.operation.value)
      ensures if snapshot.operation.value.phase.RolledBack?
              then
                && snapshot == previous.(statuses := snapshot.statuses, operation := snapshot.operation)
                && snapshot.operation.value.error == Some(error) && phases == Published(old(phases), RolledBack)
                && lifecycle.ready * WORKERS == previous.desired * WORKERS && Accurate(snapshot, lifecycle.ready)
              else
                && snapshot.operation.value.phase.Failed? && snapshot.operation.value.error == Some(RollbackFailed)
                && snapshot == old(snapshot).(operation := snapshot.operation)
    {
      var statuses := RestoreWorkers(previous.desired, allowed, bound);
      match statuses
      case Some(observed) =>
        ObservedIsAccurate(lifecycle.ready, previous.desired);
        var operation := snapshot.operation.value.(phase := RolledBack, error := Some(error));
        snapshot := previous.(statuses := observed, operation := Some(operation));
        phases := Published(phases, RolledBack);
      case None =>
        SetPhase(Failed, Some(RollbackFailed));
    }

    /** The thread of an operation. Requests made meanwhile are answered with this operation and change nothing. */
    method Execute()
      requires Valid() && thread.Some?
      modifies this, lifecycle
      ensures Valid() && thread == None
      ensures Executes(old(View()), old(thread.value), View(), lifecycle.trail, phases)
    {
      var t := thread.value;
      lifecycle.Begin();
      phases := Published(Unpublished, Queued);
      ghost var before := lifecycle.ready * WORKERS;
      ghost var allowed := {before, t.desired, t.previous.desired};
      assert lifecycle.ready * WORKERS <= before;
      var failure := Apply(t, allowed);
      if failure.Some? {
        ghost var bound := if lifecycle.ready * WORKERS <= t.desired then t.desired else before;
        Rollback(t.previous, failure.value, allowed, bound);
      }
      thread := None;
    }
  }

  /** The parts of a snapshot an execution leaves alone until it ends. */
  predicate SameRequest(a: Snapshot, b: Snapshot) {
    && a.policy == b.policy && a.profile == b.profile && a.desired == b.desired && a.lastReady == b.lastReady
    && a.operation.Some? && b.operation.Some? && SameOperation(a.operation.value, b.operation.value)
  }

  lemma EveryWorkload(s: set<Workload>)
    ensures s <= ALL_WORKLOADS
  {
    forall w | w in s
      ensures w in ALL_WORKLOADS
    {
      assert w.Asr? || w.Correction? || w.Agent? || w.Tts?;
    }
  }

  lemma ObservedIsAccurate(ready: set<Workload>, desired: set<Workload>)
    ensures var statuses := Observed(ready, desired);
            && statuses.Keys == ALL_WORKLOADS
            && (set w | w in statuses && statuses[w].ready) == ready
  {
    EveryWorkload(ready);
  }

  /** Between executions: the thread exists exactly while its operation is queued. */
  ghost predicate Settled(s: State) {
    && ValidSnapshot(s.snapshot)
    && (s.thread.Some? <==> Busy(s.snapshot))
    && (s.thread.Some? ==> Pending(s.snapshot, s.thread.value))
  }

  ghost predicate Pending(sn: Snapshot, t: Task) {
    && sn.operation.Some? && sn.operation.value.phase.Queued?
    && sn.desired == t.desired && sn.profile == t.profile && sn.policy == t.previous.policy
    && ValidSnapshot(t.previous) && !Busy(t.previous)
    && ReadyFlags(sn) == ReadyFlags(t.previous)
  }
}
