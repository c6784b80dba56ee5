/** Runs of the resource supervisor: requests from any number of clients, and the executions they start. */
module ResourceRuns {
  import opened Wrappers
  import opened ResourceTypes
  import opened ResourceSupervisor

  /** `seen` is the snapshot a reset read before it made its request. */
  datatype Call =
    | Reconciling(profile: Profile)
    | Resetting(workload: Workload, seen: Snapshot)
    | Executing(trail: Trail, phases: Phases)

  datatype Step = Step(call: Call, after: State)

  ghost predicate Allowed(agentReady: bool, s: State, step: Step) {
    match step.call
    case Reconciling(p) => step.after == Reconcile(s, agentReady, p).0
    case Resetting(w, seen) => seen.policy == s.snapshot.policy && step.after == Reset(s, agentReady, w, seen).0
    case Executing(trail, phases) => s.thread.Some? && Executes(s, s.thread.value, step.after, trail, phases)
  }

  ghost predicate Run(agentReady: bool, s: State, steps: seq<Step>)
    decreases |steps|
  {
    steps != [] ==> Allowed(agentReady, s, steps[0]) && Run(agentReady, steps[0].after, steps[1..])
  }

  // ---------- one operation at a time ----------

  /** While an operation has not ended, every request is answered with it and changes nothing, whatever it asks for. */
  lemma BusyAnswersTheRunningOperation(s: State, agentReady: bool, p: Profile, w: Workload, seen: Snapshot)
    requires Busy(s.snapshot)
    ensures Reconcile(s, agentReady, p).0 == s && Reset(s, agentReady, w, seen).0 == s
    ensures var op := s.snapshot.operation.value;
            && (Reconcile(s, agentReady, p).1.Success? ==> Reconcile(s, agentReady, p).1.value == op)
            && (Reset(s, agentReady, w, seen).1.Success? ==> Reset(s, agentReady, w, seen).1.value == op)
  {
  }

  lemma RequestKeepsSettled(s: State, action: Action, desired: set<Workload>, profile: Option<Profile>,
                            restart: Option<Workload>)
    requires Settled(s)
    ensures Settled(Request(s, action, desired, profile, restart).0)
  {
  }

  lemma CallKeepsSettled(agentReady: bool, s: State, step: Step)
    requires Settled(s) && Allowed(agentReady, s, step)
    ensures Settled(step.after)
  {
    match step.call
    case Reconciling(p) => RequestKeepsSettled(s, Action.Reconciling(p), Plan(p), Some(p), None);
    case Resetting(w, seen) =>
      var (desired, profile) := ResetTarget(seen, w);
      RequestKeepsSettled(s, Action.Resetting(w), desired, profile, Some(w));
    case Executing(_, _) =>
  }

  /** A thread exists exactly while its operation has not ended, so at most one executes, and it always ends
      terminal. */
  lemma {:induction false} RunIsSettled(agentReady: bool, s: State, steps: seq<Step>, i: nat)
    requires Settled(s) && Run(agentReady, s, steps) && i < |steps|
    ensures Settled(steps[i].after)
    ensures steps[i].call.Executing? ==> !Busy(steps[i].after.snapshot) && steps[i].after.thread == None
    decreases |steps|
  {
    CallKeepsSettled(agentReady, s, steps[0]);
    if i > 0 {
      RunIsSettled(agentReady, steps[0].after, steps[1..], i - 1);
    }
  }

  /** The state in which step `i` is made. */
  function Before(s: State, steps: seq<Step>, i: nat): State
    requires i < |steps|
  {
    if i == 0 then s else steps[i - 1].after
  }

  // ---------- what an accepted request brings about ----------

  /** A request that was neither refused nor answered with an earlier operation, and needs workers to move. */
  predicate StartsThread(before: State, step: Step) {
    !step.call.Executing? && before.thread.None? && step.after.thread.Some?
  }

  /** A reset always starts a thread, however ready its worker is, unless an operation runs or the agent is missing. */
  lemma ResetIsNeverSkipped(agentReady: bool, s: State, step: Step)
    requires Settled(s) && Allowed(agentReady, s, step) && step.call.Resetting?
    ensures StartsThread(s, step) <==> !Busy(s.snapshot) && (step.call.workload.Agent? ==> agentReady)
  {
  }

  /** A reconcile starts one exactly when it is admitted and some wanted workload is not reported ready yet. */
  lemma ReconcileStartsIff(agentReady: bool, s: State, step: Step)
    requires Settled(s) && Accurate(s.snapshot, s.ready) && Allowed(agentReady, s, step) && step.call.Reconciling?
    ensures var p := step.call.profile;
            StartsThread(s, step)
            <==> && !Busy(s.snapshot) && (p.FullPipeline? ==> agentReady)
                 && !(s.snapshot.desired == Plan(p) && Plan(p) <= s.ready)
  {
  }

  /** A reconcile that finds everything ready publishes so at once, under its own profile, and moves nothing. */
  lemma ReadyAtOnce(agentReady: bool, s: State, step: Step)
    requires Settled(s) && Accurate(s.snapshot, s.ready) && Allowed(agentReady, s, step) && step.call.Reconciling?
    requires var p := step.call.profile;
             && !Busy(s.snapshot) && (p.FullPipeline? ==> agentReady)
             && s.snapshot.desired == Plan(p) && Plan(p) <= s.ready
    ensures var p, before, after := step.call.profile, s.snapshot, step.after.snapshot;
            && step.after.thread == None && step.after.ready == s.ready && after.operation.Some?
            && after.operation.value.action == Action.Reconciling(p) && after.operation.value.phase == Ready
            && (if before.operation.Some? && before.operation.value.action == Action.Reconciling(p)
                   && before.operation.value.phase == Ready
                then step.after == s
                else && after.operation.value.id == s.nextId && step.after.nextId > s.nextId
                     && after.operation.value.error == None
                     && after.profile == Some(p) && after.lastReady == Some(p)
                     && after.desired == before.desired && after.statuses == before.statuses)
  {
  }

  /** An accepted request is published as a new queued operation that wants its workloads. */
  lemma AcceptedRequestIsQueued(agentReady: bool, s: State, step: Step)
    requires Settled(s) && Allowed(agentReady, s, step) && StartsThread(s, step)
    ensures var after := step.after.snapshot;
            && after.operation.Some? && after.operation.value.id == s.nextId && step.after.nextId > s.nextId
            && after.operation.value.phase == Queued && after.operation.value.error == None
            && step.after.ready == s.ready
            && (step.call.Reconciling? ==>
                  && after.operation.value.action == Action.Reconciling(step.call.profile)
                  && after.desired == Plan(step.call.profile) && after.profile == Some(step.call.profile))
            && (step.call.Resetting? ==> after.operation.value.action == Action.Resetting(step.call.workload))
            && (forall w: Workload :: w in after.statuses && after.statuses[w].desired == (w in after.desired))
  {
    forall w: Workload
      ensures w in ALL_WORKLOADS
    {
      assert w.Asr? || w.Correction? || w.Agent? || w.Tts?;
    }
  }

  /** An observation tells of every workload whether it is wanted and whether it is ready, and shows no other state. */
  lemma ObservedTells(ready: set<Workload>, desired: set<Workload>, w: Workload)
    ensures var statuses := Observed(ready, desired);
            && w in statuses && statuses[w].desired == (w in desired) && statuses[w].ready == (w in ready)
            && statuses[w].lifecycle == if w in ready then WorkerReady else WorkerStopped
  {
    assert w.Asr? || w.Correction? || w.Agent? || w.Tts?;
  }

  /** An execution keeps its operation's identity and says how it ended and, when it failed, at what. */
  lemma ExecutionReports(s: State, t: Task, s': State, trail: Trail, phases: Phases)
    requires Executes(s, t, s', trail, phases)
    ensures s'.thread == None && s.snapshot.operation.Some? && s'.snapshot.operation.Some?
    ensures var before, after := s.snapshot.operation.value, s'.snapshot.operation.value;
            && after.id == before.id && after.action == before.action && s'.nextId == s.nextId
            && (after.phase == Ready || after.phase == RolledBack || after.phase == Failed)
            && phases.Published? && phases.phase == after.phase
            && (after.phase == Ready ==>
                  after.error == None && s'.snapshot.lastReady == t.profile && s'.snapshot.profile == t.profile)
            && (after.phase == Failed ==> after.error == Some(RollbackFailed))
            && (after.phase == RolledBack ==>
                  && phases.Published? && phases.before.Published?
                  && var last := phases.before.phase;
                     after.error == Some(if last == Starting || last == Warming then StartFailed else StopFailed))
    ensures s'.ready - WORKERS == s.ready - WORKERS
  {
  }

  /** Until its thread is executed, the accepted request stands, whatever else is asked for. */
  lemma {:induction false} RequestStands(agentReady: bool, s: State, steps: seq<Step>, j: nat)
    requires Settled(s) && s.thread.Some? && Run(agentReady, s, steps) && j < |steps|
    requires forall k :: 0 <= k < j ==> !steps[k].call.Executing?
    ensures Before(s, steps, j) == s && Allowed(agentReady, s, steps[j])
    decreases j
  {
    if j > 0 {
      assert steps[0].after == s;
      forall k | 0 <= k < j - 1
        ensures !steps[1..][k].call.Executing?
      {
        assert steps[1..][k] == steps[k + 1];
      }
      RequestStands(agentReady, s, steps[1..], j - 1);
      assert Before(s, steps[1..], j - 1) == Before(s, steps, j);
    }
  }

  /** What the execution of an accepted request has done when it ended ready. */
  ghost predicate CarriesOut(before: State, request: Step, executed: Step)
    requires executed.call.Executing?
  {
    match request.call
    case Reconciling(p) =>
      // exactly the profile's workers are ready, and no wanted one was interrupted
      && executed.after.snapshot.desired == Plan(p) && executed.after.snapshot.profile == Some(p)
      && (forall w :: w in WORKERS ==> (w in executed.after.ready <==> w in Plan(p)))
      && Undisturbed(executed.call.trail, before.ready * Plan(p))
    case Resetting(w, seen) =>
      // the worker was down for a moment and is ready again, and no other wanted one was interrupted
      && (w in WORKERS ==> WasDown(executed.call.trail, w) && w in executed.after.ready)
      && Undisturbed(executed.call.trail, before.ready * executed.after.snapshot.desired - {w})
    case Executing(_, _) => true
  }

  /** After a rollback the request that stood before is in force again, with its workers. */
  ghost predicate TakenBack(before: State, executed: Step) {
    && executed.after.snapshot.desired == before.snapshot.desired
    && executed.after.snapshot.profile == before.snapshot.profile
    && executed.after.snapshot.lastReady == before.snapshot.lastReady
    && forall w :: w in WORKERS ==> (w in executed.after.ready <==> w in before.snapshot.desired)
  }

  lemma SameMembers(ready: set<Workload>, desired: set<Workload>)
    requires ready * WORKERS == desired * WORKERS
    ensures forall w :: w in WORKERS ==> (w in ready <==> w in desired)
  {
    forall w | w in WORKERS
      ensures w in ready <==> w in desired
    {
      assert w in ready * WORKERS <==> w in desired * WORKERS;
    }
  }

  /** The thread of an accepted request carries it out, or takes it back. */
  lemma ExecutionCarriesOut(agentReady: bool, s: State, request: Step, executed: Step)
    requires Settled(s) && Allowed(agentReady, s, request) && StartsThread(s, request)
    requires executed.call.Executing? && Allowed(agentReady, request.after, executed)
    ensures executed.after.snapshot.operation.Some?
    ensures executed.after.snapshot.operation.value.phase.Ready? ==> CarriesOut(s, request, executed)
    ensures executed.after.snapshot.operation.value.phase.RolledBack? ==> TakenBack(s, executed)
  {
    var t := request.after.thread.value;
    OnlyTheRestartedWorkerIsDisturbed(request.after.ready, t);
    if executed.after.snapshot.operation.value.phase.Ready? {
      SameMembers(executed.after.ready, t.desired);
      match request.call
      case Reconciling(p) => assert Kept(s.ready, t) == s.ready * Plan(p);
      case Resetting(w, seen) => assert Kept(s.ready, t) == s.ready * executed.after.snapshot.desired - {w};
    } else if executed.after.snapshot.operation.value.phase.RolledBack? {
      SameMembers(executed.after.ready, t.previous.desired);
    }
  }

  /**
   In every run: the execution that follows an accepted request restarts the worker of a reset, and
   interrupts no wanted worker otherwise; or it restores what was wanted before the request.
   */
  lemma {:induction false} AcceptedRequestIsCarriedOut(agentReady: bool, s: State, steps: seq<Step>, i: nat, j: nat)
    requires Settled(s) && Run(agentReady, s, steps) && i < j < |steps|
    requires StartsThread(Before(s, steps, i), steps[i]) && steps[j].call.Executing?
    requires forall k :: i < k < j ==> !steps[k].call.Executing?
    ensures steps[j].after.snapshot.operation.Some?
    ensures steps[j].after.snapshot.operation.value.phase.Ready? ==> CarriesOut(Before(s, steps, i), steps[i], steps[j])
    ensures steps[j].after.snapshot.operation.value.phase.RolledBack? ==> TakenBack(Before(s, steps, i), steps[j])
    decreases i
  {
    CallKeepsSettled(agentReady, s, steps[0]);
    var s', rest := steps[0].after, steps[1..];
    if i == 0 {
      forall k | 0 <= k < j - 1
        ensures !rest[k].call.Executing?
      {
        assert rest[k] == steps[k + 1];
      }
      RequestStands(agentReady, s', rest, j - 1);
      ExecutionCarriesOut(agentReady, s, steps[0], steps[j]);
    } else {
      assert Before(s', rest, i - 1) == Before(s, steps, i) && rest[j - 1] == steps[j];
      forall k | i - 1 < k < j - 1
        ensures !rest[k].call.Executing?
      {
        assert rest[k] == steps[k + 1];
      }
      AcceptedRequestIsCarriedOut(agentReady, s', rest, i - 1, j - 1);
    }
  }

  /**
   What a reset asks for: its workload, except the agent under the exclusive policy; what was
   wanted before, unless the policy is exclusive; and the profile that plans exactly this set.
   */
  lemma ResetWantsItsWorkload(seen: Snapshot, w: Workload)
    ensures var (desired, profile) := ResetTarget(seen, w);
            && (w in desired <==> !(seen.policy.Exclusive? && w.Agent?))
            && (w.Asr? ==> Correction in desired)
            && (!seen.policy.Exclusive? ==> seen.desired <= desired <= seen.desired + {w, Correction})
            && (!seen.policy.Exclusive? ==>
                  (Correction in desired <==> Correction in seen.desired || w.Asr? || w.Correction?))
            && (seen.policy.Exclusive? ==> Apart(desired))
            && (profile.Some? ==> Plan(profile.value) == desired)
            && (profile.None? ==> forall p: Profile :: Plan(p) != desired)
  {
    var (desired, profile) := ResetTarget(seen, w);
    if profile.None? {
      forall p: Profile
        ensures Plan(p) != desired
      {
        match p
        case AsrOnly =>
        case TtsOnly =>
        case FullPipeline =>
      }
    }
  }

  // ---------- exclusivity ----------

  ghost predicate AlwaysApart(trail: Trail) {
    trail.Then? ==> AlwaysApart(trail.before) && Apart(trail.ready)
  }

  lemma {:induction false} BoundedIsApart(trail: Trail, allowed: set<set<Workload>>)
    requires Always(trail, allowed) && forall a :: a in allowed ==> Apart(a)
    ensures AlwaysApart(trail)
  {
    if trail.Then? {
      BoundedIsApart(trail.before, allowed);
      var a :| a in allowed && trail.ready * WORKERS <= a;
      WithinIsApart(trail.ready, a);
    }
  }

  lemma WithinIsApart(ready: set<Workload>, a: set<Workload>)
    requires ready * WORKERS <= a && Apart(a)
    ensures Apart(ready)
  {
    if Tts in ready {
      assert Tts in ready * WORKERS;
      assert Asr in ready ==> Asr in ready * WORKERS;
      assert Correction in ready ==> Correction in ready * WORKERS;
    }
  }

  /** No request so far, pending or served, wants the synthesiser together with recognition or correction. */
  ghost predicate Separated(s: State) {
    && Settled(s) && s.snapshot.policy.Exclusive?
    && Apart(s.ready) && Apart(s.snapshot.desired)
    && (s.thread.Some? ==> Apart(s.thread.value.previous.desired))
  }

  lemma ExecutionIsApart(s: State, t: Task, s': State, trail: Trail, phases: Phases)
    requires Separated(s) && s.thread == Some(t) && Executes(s, t, s', trail, phases)
    ensures AlwaysApart(trail) && Apart(s'.ready) && Apart(s'.snapshot.desired)
  {
    var allowed := {s.ready * WORKERS, t.desired, t.previous.desired};
    assert forall a :: a in allowed ==> Apart(a);
    BoundedIsApart(trail, allowed);
  }

  /** A request for the full pipeline that is neither refused nor answered with the running operation. */
  predicate AcceptsFullPipeline(s: State, step: Step) {
    step.call.Reconciling? && step.call.profile.FullPipeline? && step.after != s
  }

  lemma CallKeepsSeparated(agentReady: bool, s: State, step: Step)
    requires Separated(s) && Allowed(agentReady, s, step) && !AcceptsFullPipeline(s, step)
    ensures Separated(step.after)
    ensures step.call.Executing? ==> AlwaysApart(step.call.trail)
  {
    CallKeepsSettled(agentReady, s, step);
    match step.call
    case Reconciling(p) =>
    case Resetting(w, seen) =>
    case Executing(trail, phases) => ExecutionIsApart(s, s.thread.value, step.after, trail, phases);
  }

  /**
   Under the exclusive policy, until a request for the full pipeline is accepted, at no moment is the
   synthesiser ready beside the others. Without an agent no such request is accepted.
   */
  lemma {:induction false} ExclusiveRun(agentReady: bool, s: State, steps: seq<Step>, i: nat)
    requires Separated(s) && Run(agentReady, s, steps) && i < |steps|
    requires agentReady ==> forall j :: 0 <= j <= i ==> !AcceptsFullPipeline(Before(s, steps, j), steps[j])
    ensures Apart(steps[i].after.ready)
    ensures !(Tts in steps[i].after.ready && (Asr in steps[i].after.ready || Correction in steps[i].after.ready))
    ensures steps[i].call.Executing? ==> AlwaysApart(steps[i].call.trail)
    decreases |steps|
  {
    assert agentReady ==> !AcceptsFullPipeline(Before(s, steps, 0), steps[0]);
    CallKeepsSeparated(agentReady, s, steps[0]);
    if i > 0 {
      var s', rest := steps[0].after, steps[1..];
      forall j | 0 <= j <= i - 1
        ensures agentReady ==> !AcceptsFullPipeline(Before(s', rest, j), rest[j])
      {
        assert Before(s', rest, j) == Before(s, steps, j + 1) && rest[j] == steps[j + 1];
      }
      ExclusiveRun(agentReady, s', rest, i - 1);
    }
  }

  /** Separated, but for a thread that waits to bring up the full pipeline. */
  ghost predicate NearlySeparated(s: State) {
    && Settled(s) && s.snapshot.policy.Exclusive? && Apart(s.ready)
    && (s.thread.None? ==> Apart(s.snapshot.desired))
    && (s.thread.Some? ==> && Apart(s.thread.value.previous.desired)
                           && (Apart(s.thread.value.desired) || s.thread.value.desired == Plan(FullPipeline)))
  }

  /** This step executes a thread for the full pipeline. */
  predicate ExecutesFullPipeline(s: State, step: Step) {
    step.call.Executing? && s.thread.Some? && s.thread.value.desired == Plan(FullPipeline)
  }

  predicate Succeeds(step: Step) {
    step.call.Executing? ==> step.after.snapshot.operation.Some? && step.after.snapshot.operation.value.phase.Ready?
  }

  /** The workers are apart after the step, and were at every moment of the execution if it was one. */
  ghost predicate StaysApart(step: Step) {
    Apart(step.after.ready) && (step.call.Executing? ==> AlwaysApart(step.call.trail))
  }

  lemma SuccessIsApartIff(agentReady: bool, s: State, step: Step)
    requires NearlySeparated(s) && Allowed(agentReady, s, step) && Succeeds(step)
    ensures StaysApart(step) <==> !ExecutesFullPipeline(s, step)
    ensures StaysApart(step) ==> NearlySeparated(step.after)
  {
    CallKeepsSettled(agentReady, s, step);
    match step.call
    case Reconciling(p) =>
    case Resetting(w, seen) =>
    case Executing(trail, phases) =>
      var t := s.thread.value;
      SameWorkers(step.after.ready, t.desired);
      if t.desired != Plan(FullPipeline) {
        ExecutionIsApart(s, t, step.after, trail, phases);
      }
  }

  /**
   In a run in which every execution succeeds, agent or not, the synthesiser is never ready beside the
   others exactly when no execution is for the full pipeline.
   */
  lemma {:induction false} ExclusiveRunIff(agentReady: bool, s: State, steps: seq<Step>)
    requires NearlySeparated(s) && Run(agentReady, s, steps) && forall i :: 0 <= i < |steps| ==> Succeeds(steps[i])
    ensures (forall i :: 0 <= i < |steps| ==> StaysApart(steps[i]))
            <==> forall i :: 0 <= i < |steps| ==> !ExecutesFullPipeline(Before(s, steps, i), steps[i])
    decreases |steps|
  {
    if steps != [] {
      var s', rest := steps[0].after, steps[1..];
      assert Before(s, steps, 0) == s;
      SuccessIsApartIff(agentReady, s, steps[0]);
      if StaysApart(steps[0]) {
        ExclusiveRunIff(agentReady, s', rest);
        assert forall i :: 0 <= i < |rest| ==>
            rest[i] == steps[i + 1] && Before(s', rest, i) == Before(s, steps, i + 1);
        assert forall i :: 0 < i < |steps| ==>
            steps[i] == rest[i - 1] && Before(s, steps, i) == Before(s', rest, i - 1);
      }
    }
  }

  /** Rolling back restores the earlier request, so it ends apart exactly when that request was. */
  lemma RollbackIsApartIffThePreviousRequestWas(s: State, t: Task, s': State, trail: Trail, phases: Phases)
    requires Executes(s, t, s', trail, phases) && s'.snapshot.operation.value.phase.RolledBack?
    ensures Apart(s'.ready) <==> Apart(t.previous.desired)
  {
    SameWorkers(s'.ready, t.previous.desired);
  }

  lemma SameWorkers(a: set<Workload>, b: set<Workload>)
    requires a * WORKERS == b * WORKERS
    ensures Apart(a) <==> Apart(b)
  {
    forall w | w in WORKERS
      ensures w in a <==> w in b
    {
      assert w in a * WORKERS <==> w in b * WORKERS;
    }
  }

  // ---------- what the snapshot tells ----------

  predicate RollbackFailedIn(step: Step) {
    step.call.Executing? && step.after.snapshot.operation.Some? && step.after.snapshot.operation.value.phase.Failed?
  }

  lemma CallKeepsAccurate(agentReady: bool, s: State, step: Step)
    requires Settled(s) && Accurate(s.snapshot, s.ready) && Allowed(agentReady, s, step)
    requires !RollbackFailedIn(step)
    ensures Accurate(step.after.snapshot, step.after.ready)
  {
  }

  /** Until a rollback fails, the published statuses tell exactly which workloads are ready. */
  lemma {:induction false} AccurateUntilFailure(agentReady: bool, s: State, steps: seq<Step>, i: nat)
    requires Settled(s) && Accurate(s.snapshot, s.ready) && Run(agentReady, s, steps) && i < |steps|
    requires forall j :: 0 <= j <= i ==> !RollbackFailedIn(steps[j])
    ensures Accurate(steps[i].after.snapshot, steps[i].after.ready)
    decreases |steps|
  {
    CallKeepsSettled(agentReady, s, steps[0]);
    CallKeepsAccurate(agentReady, s, steps[0]);
    if i > 0 {
      forall j | 0 <= j <= i - 1
        ensures !RollbackFailedIn(steps[1..][j])
      {
        assert steps[1..][j] == steps[j + 1];
      }
      AccurateUntilFailure(agentReady, steps[0].after, steps[1..], i - 1);
    }
  }

  /** A reconcile is answered ready at once exactly when nothing runs and the workers already are what it asks for. */
  lemma ImmediateReadyIsTrue(s: State, agentReady: bool, p: Profile)
    requires Settled(s) && Accurate(s.snapshot, s.ready)
    ensures var (s', r) := Reconcile(s, agentReady, p);
            && (r.Success? && r.value.phase.Ready?
                <==> (p.FullPipeline? ==> agentReady) && !Busy(s.snapshot)
                     && s.snapshot.desired == Plan(p) && Plan(p) <= s.ready)
            && (r.Success? && r.value.phase.Ready?
                ==> s'.thread == None && s'.ready == s.ready && Accurate(s'.snapshot, s'.ready))
  {
    assert AlreadyReady(s.snapshot, Plan(p)) <==> s.snapshot.desired == Plan(p) && Plan(p) <= s.ready by {
      assert forall w :: w in ReadyFlags(s.snapshot) <==> w in s.ready;
    }
  }

  // ---------- the phases that are published ----------

  function Listed(p: Phases): seq<Phase> {
    match p
    case Unpublished => []
    case Published(before, phase) => Listed(before) + [phase]
  }

  const PHASE_ORDER: seq<Phase> := [Queued, Draining, Releasing, Starting, Warming]

  function PlaceOf(p: Phase): (i: nat)
    ensures i <= |PHASE_ORDER| && (i < |PHASE_ORDER| ==> PHASE_ORDER[i] == p)
  {
    if p.Queued? then 0 else if p.Draining? then 1 else if p.Releasing? then 2
    else if p.Starting? then 3 else if p.Warming? then 4 else 5
  }

  /** Published phases never go back in the order of an operation, and none follows a terminal one. */
  lemma {:induction false} PhasesGoForward(p: Phases, i: nat)
    requires Forward(p) && i + 1 < |Listed(p)|
    ensures PlaceOf(Listed(p)[i]) < |PHASE_ORDER| && PlaceOf(Listed(p)[i]) <= PlaceOf(Listed(p)[i + 1])
  {
    if i + 2 < |Listed(p)| {
      PhasesGoForward(p.before, i);
    }
  }

  function Warmings(n: nat): seq<Phase> {
    if n == 0 then [] else Warmings(n - 1) + [Warming]
  }

  /** How many of the first `n` workers in start order are among these. */
  function StartsAmong(n: nat, chosen: set<Workload>): nat
    requires n <= |START_ORDER|
  {
    if n == 0 then 0 else StartsAmong(n - 1, chosen) + if START_ORDER[n - 1] in chosen then 1 else 0
  }

  lemma {:induction false} WarmingsListed(p: Phases, n: nat, chosen: set<Workload>)
    requires n <= |START_ORDER|
    ensures Listed(AfterWarmings(p, n, chosen)) == Listed(p) + Warmings(StartsAmong(n, chosen))
  {
    if n > 0 {
      var k := StartsAmong(n - 1, chosen);
      WarmingsListed(p, n - 1, chosen);
      assert Listed(p) + Warmings(k) + [Warming] == Listed(p) + Warmings(k + 1);
    }
  }

  /**
   A successful operation publishes queued; draining and releasing exactly if something stops; starting exactly
   if something starts, and then one warming for each worker it starts; and ready.
   */
  lemma ReadyPhasesListed(ready: set<Workload>, t: Task)
    ensures var k := StartsAmong(|START_ORDER|, ToStart(ready, t));
            Listed(ReadyPhases(ready, t))
            == [Queued] + (if ToStop(ready, t) != {} then [Draining, Releasing] else [])
               + (if ToStart(ready, t) != {} then [Starting] else []) + Warmings(k) + [Ready]
  {
    var queued := Published(Unpublished, Queued);
    assert Listed(queued) == [Queued];
    var released := ReleasePhases(ready, t, queued);
    assert Listed(released) == [Queued] + (if ToStop(ready, t) != {} then [Draining, Releasing] else []);
    var start := ToStart(ready, t);
    var starting := if start != {} then Published(released, Starting) else released;
    assert Listed(starting) == Listed(released) + (if start != {} then [Starting] else []);
    WarmingsListed(starting, |START_ORDER|, start);
  }

  /** So does every execution that ends ready, in these phases and no others. */
  lemma ExecutionPublishes(s: State, t: Task, s': State, trail: Trail, phases: Phases)
    requires Executes(s, t, s', trail, phases) && s'.snapshot.operation.value.phase.Ready?
    ensures var k := StartsAmong(|START_ORDER|, ToStart(s.ready, t));
            Listed(phases)
            == [Queued] + (if ToStop(s.ready, t) != {} then [Draining, Releasing] else [])
               + (if ToStart(s.ready, t) != {} then [Starting] else []) + Warmings(k) + [Ready]
  {
    ReadyPhasesListed(s.ready, t);
  }

  /** An operation stops the unwanted and the one to restart, and starts the wanted that are then not ready. */
  lemma MovesAre(ready: set<Workload>, t: Task, w: Workload)
    ensures w in ToStop(ready, t) <==> w in ready && (w !in t.desired || t.restart == Some(w))
    ensures w in ToStart(ready, t) <==> && w in t.desired
                                        && (w !in ready || (t.restart == Some(w) && w in WORKERS))
  {
  }
}
