/** Workloads, profiles, policies and the snapshot a resource supervisor publishes. */
module ResourceTypes {
  import opened Wrappers

  datatype Policy = Exclusive | Concurrent | MultiGpu

  datatype Profile = AsrOnly | TtsOnly | FullPipeline

  datatype Workload = Asr | Correction | Agent | Tts

  const ALL_WORKLOADS: set<Workload> := {Asr, Correction, Agent, Tts}

  /** The workers the supervisor starts and stops; the agent is an external provider. */
  const WORKERS: set<Workload> := {Asr, Correction, Tts}

  const START_ORDER: seq<Workload> := [Asr, Correction, Tts]

  const STOP_ORDER: seq<Workload> := [Correction, Asr, Tts]

  datatype Phase = Queued | Draining | Releasing | Starting | Warming | Ready | Failed | RolledBack | Cancelled

  datatype WorkerState = WorkerStopped | WorkerDraining | WorkerStarting | WorkerWarming | WorkerReady | WorkerFailed

  datatype Status = Status(desired: bool, lifecycle: WorkerState, ready: bool)

  datatype Action = Reconciling(profile: Profile) | Resetting(workload: Workload)

  datatype OperationError = StopFailed | StartFailed | RollbackFailed

  datatype Operation = Operation(id: nat, action: Action, phase: Phase, error: Option<OperationError>)

  datatype Snapshot = Snapshot(
    policy: Policy,
    profile: Option<Profile>,
    desired: set<Workload>,
    statuses: map<Workload, Status>,
    operation: Option<Operation>,
    lastReady: Option<Profile>)

  predicate Terminal(p: Phase) {
    p.Ready? || p.Failed? || p.RolledBack? || p.Cancelled?
  }

  /** The order in which an operation may move through its phases. */
  function Rank(p: Phase): nat {
    match p
    case Queued => 0
    case Draining => 1
    case Releasing => 2
    case Starting => 3
    case Warming => 4
    case _ => 5
  }

  function Plan(p: Profile): set<Workload> {
    match p
    case AsrOnly => {Asr, Correction}
    case TtsOnly => {Tts}
    case FullPipeline => {Asr, Correction, Agent, Tts}
  }

  function ProfileFor(desired: set<Workload>): Option<Profile> {
    if desired == Plan(AsrOnly) then Some(AsrOnly)
    else if desired == Plan(TtsOnly) then Some(TtsOnly)
    else if desired == Plan(FullPipeline) then Some(FullPipeline)
    else None
  }

  /** What a snapshot checks when it is built. */
  predicate ValidSnapshot(s: Snapshot) {
    && s.statuses.Keys == ALL_WORKLOADS
    && forall w :: w in s.statuses ==> s.statuses[w].desired == (w in s.desired)
                                       && s.statuses[w].ready == s.statuses[w].lifecycle.WorkerReady?
  }

  function Desiring(statuses: map<Workload, Status>, desired: set<Workload>): map<Workload, Status> {
    map w | w in statuses :: statuses[w].(desired := w in desired)
  }

  function Observed(ready: set<Workload>, desired: set<Workload>): map<Workload, Status> {
    map w | w in ALL_WORKLOADS ::
      Status(w in desired, if w in ready then WorkerReady else WorkerStopped, w in ready)
  }

  function ReadyFlags(s: Snapshot): set<Workload> {
    set w | w in s.statuses && s.statuses[w].ready
  }

  /** The published statuses tell exactly which workloads are ready. */
  predicate Accurate(s: Snapshot, ready: set<Workload>) {
    ReadyFlags(s) == ready
  }

  /** The speech synthesiser does not share the GPU with recognition or correction. */
  predicate Apart(ready: set<Workload>) {
    Tts in ready ==> Asr !in ready && Correction !in ready
  }
}
