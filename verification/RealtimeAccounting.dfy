/** Pending-work accounting of the coordinator, over every interleaving. */
module RealtimeAccounting {
  import opened Wrappers
  import opened RealtimeQueue
  import opened RealtimeCoordinator

  function AsrSessions(jobs: seq<AsrJob>): seq<SessionId> {
    seq(|jobs|, i requires 0 <= i < |jobs| => jobs[i].session)
  }

  function TextSessions(jobs: seq<TextJob>): seq<SessionId> {
    seq(|jobs|, i requires 0 <= i < |jobs| => jobs[i].session)
  }

  function Count(sessions: seq<SessionId>, s: SessionId): nat {
    multiset(sessions)[s]
  }

  /** A stream's entries in the two queues. */
  function Queued(sys: System, s: SessionId): nat {
    Count(AsrSessions(sys.asrQueue.finals), s) + Count(AsrSessions(sys.asrQueue.partials), s)
    + Count(TextSessions(sys.textQueue.endpoints), s) + Count(TextSessions(sys.textQueue.corrections), s)
  }

  predicate AsrBusyWith(asr: AsrWorker, s: SessionId) {
    match asr
    case Transcribing(job) => job.session == s
    case AsrTelling(job, _) => job.session == s
    case FinalAccepted(job, _) => job.session == s
    case FinalTold(job, _, _) => job.session == s
    case AsrSettled(job) => job.session == s
    case _ => false
  }

  predicate TextBusyWith(text: TextWorker, s: SessionId) {
    match text
    case Inferring(job) => job.session == s
    case TextNoting(job) => job.session == s
    case TextTelling(job, _) => job.session == s
    case TextSettled(job) => job.session == s
    case _ => false
  }

  function InFlight(sys: System, s: SessionId): nat {
    (if AsrBusyWith(sys.asr, s) then 1 else 0) + (if TextBusyWith(sys.text, s) then 1 else 0)
  }

  /** The pending counter is exact, and the idle flag says whether it is zero; an unknown session has no work. */
  ghost predicate Exact(sys: System, s: SessionId) {
    if s in sys.streams then
      var st := sys.streams[s];
      && st.pending == Queued(sys, s) + InFlight(sys, s) + st.dropped
      && (st.idle <==> st.pending == 0)
      && (s in sys.registered ==> st.dropped == 0)
    else
      Queued(sys, s) == 0 && InFlight(sys, s) == 0 && s !in sys.registered
  }

  ghost predicate Accounts(sys: System) {
    forall s :: Exact(sys, s)
  }

  // ---------- how the counts move ----------

  lemma HeadCount(sessions: seq<SessionId>)
    requires sessions != []
    ensures forall s :: Count(sessions, s) == Count(sessions[1..], s) + (if s == sessions[0] then 1 else 0)
  {
    assert sessions == [sessions[0]] + sessions[1..];
  }

  lemma TailCount(sessions: seq<SessionId>, last: SessionId)
    ensures forall s :: Count(sessions + [last], s) == Count(sessions, s) + (if s == last then 1 else 0)
  {
  }

  lemma AsrPush(jobs: seq<AsrJob>, job: AsrJob)
    ensures forall s :: Count(AsrSessions(jobs + [job]), s)
                        == Count(AsrSessions(jobs), s) + (if s == job.session then 1 else 0)
  {
    assert AsrSessions(jobs + [job]) == AsrSessions(jobs) + [job.session];
    TailCount(AsrSessions(jobs), job.session);
  }

  lemma AsrPop(jobs: seq<AsrJob>)
    requires jobs != []
    ensures forall s :: Count(AsrSessions(jobs), s)
                        == Count(AsrSessions(jobs[1..]), s) + (if s == jobs[0].session then 1 else 0)
  {
    HeadCount(AsrSessions(jobs));
    assert AsrSessions(jobs)[1..] == AsrSessions(jobs[1..]);
  }

  /** Replacing a slot keeps every count; a new slot adds one. */
  lemma SlotStored(jobs: seq<AsrJob>, job: AsrJob)
    ensures forall s :: Count(AsrSessions(Stored(jobs, job)), s)
                        == Count(AsrSessions(jobs), s)
                          + (if s == job.session && !HasSlot(jobs, job.Key()) then 1 else 0)
  {
    if HasSlot(jobs, job.Key()) {
      assert AsrSessions(Stored(jobs, job)) == AsrSessions(jobs);
    } else {
      AsrPush(jobs, job);
    }
  }

  lemma TextPush(jobs: seq<TextJob>, job: TextJob)
    ensures forall s :: Count(TextSessions(jobs + [job]), s)
                        == Count(TextSessions(jobs), s) + (if s == job.session then 1 else 0)
  {
    assert TextSessions(jobs + [job]) == TextSessions(jobs) + [job.session];
    TailCount(TextSessions(jobs), job.session);
  }

  lemma TextPop(jobs: seq<TextJob>)
    requires jobs != []
    ensures forall s :: Count(TextSessions(jobs), s)
                        == Count(TextSessions(jobs[1..]), s) + (if s == jobs[0].session then 1 else 0)
  {
    HeadCount(TextSessions(jobs));
    assert TextSessions(jobs)[1..] == TextSessions(jobs[1..]);
  }

  // ---------- every step keeps the accounts ----------

  /** From `sys` to `sys'`, only the work of `s` changed, by the given amounts. */
  ghost predicate WorkMoves(sys: System, sys': System, s: SessionId, queued: int, inFlight: int) {
    forall t ::
      && Queued(sys', t) == Queued(sys, t) + (if t == s then queued else 0)
      && InFlight(sys', t) == InFlight(sys, t) + (if t == s then inFlight else 0)
  }

  /** The stream's own counters follow, and no other stream changed. */
  ghost predicate CountersFollow(sys: System, sys': System, s: SessionId, change: int) {
    && s in sys.streams && sys'.streams.Keys == sys.streams.Keys && sys'.registered == sys.registered
    && (forall t :: t in sys.streams && t != s ==> sys'.streams[t] == sys.streams[t])
    && var st, st' := sys.streams[s], sys'.streams[s];
       && st'.pending + st.dropped == st.pending + change + st'.dropped
       && (st'.idle <==> st'.pending == 0)
       && (s in sys.registered ==> st'.dropped == 0)
  }

  lemma AccountsFollow(sys: System, sys': System, s: SessionId, queued: int, inFlight: int)
    requires Accounts(sys) && WorkMoves(sys, sys', s, queued, inFlight)
    requires CountersFollow(sys, sys', s, queued + inFlight)
    ensures Accounts(sys')
  {
    forall t
      ensures Exact(sys', t)
    {
      assert Exact(sys, t);
    }
  }

  /** A step of a worker: the queues stay as they are. */
  lemma WorkerStepKeeps(sys: System, sys': System, s: SessionId, inFlight: int)
    requires Accounts(sys) && CountersFollow(sys, sys', s, inFlight)
    requires sys'.asrQueue == sys.asrQueue && sys'.textQueue == sys.textQueue
    requires forall t :: InFlight(sys', t) == InFlight(sys, t) + (if t == s then inFlight else 0)
    ensures Accounts(sys')
  {
    AccountsFollow(sys, sys', s, 0, inFlight);
  }

  lemma PartialOutcomeKeeps(sys: System, st: Stream, job: AsrJob, r: Result<(AsrQueue, bool), QueueError>)
    requires Accounts(sys) && job.session in sys.streams && PartialPut(sys.asrQueue, job, r)
    requires var was := sys.streams[job.session];
             st.pending == was.pending && st.idle == was.idle && st.dropped == was.dropped
    ensures Accounts(PartialOutcome(sys, job.session, st, r))
  {
    var s, sys' := job.session, PartialOutcome(sys, job.session, st, r);
    assert Exact(sys, s);
    match r
    case Failure(_) => WorkerStepKeeps(sys, sys', s, 0);
    case Success((q, inserted)) =>
      SlotStored(sys.asrQueue.partials, job);
      AccountsFollow(sys, sys', s, if inserted then 1 else 0, 0);
  }

  lemma PartialQueuedKeeps(sys: System, limits: Limits, s: SessionId, u: UtteranceId, pcm: seq<nat>)
    requires Accounts(sys) && s in sys.streams
    ensures Accounts(PartialQueued(sys, limits, s, u, pcm))
  {
    var st := Numbered(sys.streams[s], u);
    var job := AsrJob(s, u, st.generation, Partial, pcm);
    PutPartialStores(sys.asrQueue, limits.partials, job);
    PartialOutcomeKeeps(sys, st, job, PutPartial(sys.asrQueue, limits.partials, job));
  }

  lemma FinalQueuedKeeps(sys: System, limits: Limits, s: SessionId, u: UtteranceId, pcm: seq<nat>)
    requires Accounts(sys) && s in sys.streams
    ensures Accounts(FinalQueued(sys, limits, s, u, pcm))
  {
    var job := AsrJob(s, u, 1, Final, pcm);
    if PutFinal(sys.asrQueue, limits.finals, job).Success? {
      AsrPush(sys.asrQueue.finals, job);
      QueueStepKeeps(sys, FinalQueued(sys, limits, s, u, pcm), s);
    }
  }

  lemma FinalOfferedKeeps(sys: System, limits: Limits, s: SessionId, u: UtteranceId, pcm: seq<nat>)
    requires Accounts(sys) && s in sys.streams
    ensures Accounts(FinalOffered(sys, limits, s, u, pcm))
  {
    FinalQueuedKeeps(sys, limits, s, u, pcm);
    SaidKeeps(FinalQueued(sys, limits, s, u, pcm), limits, s);
  }

  /** One more job of `s` in one of the queues. */
  lemma QueueStepKeeps(sys: System, sys': System, s: SessionId)
    requires Accounts(sys) && s in sys.streams
    requires sys'.asr == sys.asr && sys'.text == sys.text && sys'.registered == sys.registered
    requires sys'.streams == sys.streams[s := WorkQueued(sys.streams[s])]
    requires forall t :: Queued(sys', t) == Queued(sys, t) + (if t == s then 1 else 0)
    ensures Accounts(sys')
  {
    assert Exact(sys, s);
    AccountsFollow(sys, sys', s, 1, 0);
  }

  lemma TextQueuedKeeps(sys: System, limits: Limits, lane: TextMode, job: TextJob)
    requires Accounts(sys) && job.session in sys.streams
    ensures Accounts(TextQueued(sys, limits, lane, job))
  {
    if PutText(sys.textQueue, limits.texts, lane, job).Success? {
      if lane.Endpoint? {
        TextPush(sys.textQueue.endpoints, job);
      } else {
        TextPush(sys.textQueue.corrections, job);
      }
      QueueStepKeeps(sys, TextQueued(sys, limits, lane, job), job.session);
    }
  }

  /** What the counters do not depend on may change freely; sessions may only leave the registry. */
  lemma SameWorkKeeps(sys: System, sys': System)
    requires Accounts(sys) && sys'.streams == sys.streams && sys'.registered <= sys.registered
    requires forall t :: InFlight(sys', t) == InFlight(sys, t)
    requires sys'.asrQueue.finals == sys.asrQueue.finals && sys'.asrQueue.partials == sys.asrQueue.partials
    requires sys'.textQueue.endpoints == sys.textQueue.endpoints
             && sys'.textQueue.corrections == sys.textQueue.corrections
    ensures Accounts(sys')
  {
    forall t
      ensures Exact(sys', t)
    {
      assert Exact(sys, t);
    }
  }

  lemma AsrTakenCounts(q: AsrQueue, q': AsrQueue, job: AsrJob)
    requires GetAsr(q) == (q', Job(job))
    ensures forall s :: Count(AsrSessions(q.finals), s) + Count(AsrSessions(q.partials), s)
                        == Count(AsrSessions(q'.finals), s) + Count(AsrSessions(q'.partials), s)
                          + (if s == job.session then 1 else 0)
  {
    if q.finals != [] {
      AsrPop(q.finals);
    } else {
      AsrPop(q.partials);
    }
  }

  lemma AsrTakenKeeps(sys: System)
    requires Accounts(sys) && sys.asr.AsrWaiting?
    ensures Accounts(AsrTaken(sys))
  {
    match GetAsr(sys.asrQueue)
    case (q, Job(job)) =>
      AsrTakenCounts(sys.asrQueue, q, job);
      assert Queued(sys, job.session) > 0;
      assert Exact(sys, job.session);
      AccountsFollow(sys, AsrTaken(sys), job.session, -1, if job.session in sys.registered then 1 else 0);
    case (_, _) => SameWorkKeeps(sys, AsrTaken(sys));
  }

  lemma TextTakenCounts(q: TextQueue, q': TextQueue, job: TextJob)
    requires GetText(q) == (q', Job(job))
    ensures forall s :: Count(TextSessions(q.endpoints), s) + Count(TextSessions(q.corrections), s)
                        == Count(TextSessions(q'.endpoints), s) + Count(TextSessions(q'.corrections), s)
                          + (if s == job.session then 1 else 0)
  {
    if q.endpoints != [] {
      TextPop(q.endpoints);
    } else {
      TextPop(q.corrections);
    }
  }

  lemma TextTakenKeeps(sys: System)
    requires Accounts(sys) && sys.text.TextWaiting?
    ensures Accounts(TextTaken(sys))
  {
    match GetText(sys.textQueue)
    case (q, Job(job)) =>
      TextTakenCounts(sys.textQueue, q, job);
      assert Queued(sys, job.session) > 0;
      assert Exact(sys, job.session);
      AccountsFollow(sys, TextTaken(sys), job.session, -1, if job.session in sys.registered then 1 else 0);
    case (_, _) => SameWorkKeeps(sys, TextTaken(sys));
  }

  /** A worker that reports a job done always finds it counted, so the clamp at zero never acts. */
  lemma ClampNeverActs(sys: System, s: SessionId)
    requires Accounts(sys) && (AsrBusyWith(sys.asr, s) || TextBusyWith(sys.text, s))
    ensures s in sys.streams && sys.streams[s].pending >= 1
    ensures WorkDone(sys.streams[s]).pending == sys.streams[s].pending - 1
  {
    assert InFlight(sys, s) >= 1;
    assert Exact(sys, s);
  }

  /** A worker stays with its job, and only the bookkeeping outside the counters of its stream changes. */
  predicate SameCounts(st: Stream, st': Stream) {
    st'.pending == st.pending && st'.idle == st.idle && st'.dropped == st.dropped
  }

  /** The recognition worker moves on within its job. */
  lemma AsrStaysKeeps(sys: System, asr': AsrWorker, s: SessionId, st': Stream)
    requires Accounts(sys) && AsrBusyWith(sys.asr, s) && s in sys.streams && SameCounts(sys.streams[s], st')
    requires forall t :: AsrBusyWith(asr', t) <==> t == s
    ensures Accounts(Put(sys.(asr := asr'), s, st'))
  {
    assert Exact(sys, s);
    WorkerStepKeeps(sys, Put(sys.(asr := asr'), s, st'), s, 0);
  }

  /** The recognition worker leaves its job, done or by an exception. */
  lemma AsrLeavesKeeps(sys: System, asr': AsrWorker, s: SessionId)
    requires Accounts(sys) && AsrBusyWith(sys.asr, s) && s in sys.streams
    requires forall t :: !AsrBusyWith(asr', t)
    ensures Accounts(Put(sys.(asr := asr'), s, WorkDone(sys.streams[s])))
  {
    ClampNeverActs(sys, s);
    assert Exact(sys, s);
    WorkerStepKeeps(sys, Put(sys.(asr := asr'), s, WorkDone(sys.streams[s])), s, -1);
  }

  lemma TextStaysKeeps(sys: System, text': TextWorker, s: SessionId, st': Stream)
    requires Accounts(sys) && TextBusyWith(sys.text, s) && s in sys.streams && SameCounts(sys.streams[s], st')
    requires forall t :: TextBusyWith(text', t) <==> t == s
    ensures Accounts(Put(sys.(text := text'), s, st'))
  {
    assert Exact(sys, s);
    WorkerStepKeeps(sys, Put(sys.(text := text'), s, st'), s, 0);
  }

  lemma TextLeavesKeeps(sys: System, text': TextWorker, s: SessionId)
    requires Accounts(sys) && TextBusyWith(sys.text, s) && s in sys.streams
    requires forall t :: !TextBusyWith(text', t)
    ensures Accounts(Put(sys.(text := text'), s, WorkDone(sys.streams[s])))
  {
    ClampNeverActs(sys, s);
    assert Exact(sys, s);
    WorkerStepKeeps(sys, Put(sys.(text := text'), s, WorkDone(sys.streams[s])), s, -1);
  }

  /** Putting back the stream that is there changes nothing. */
  lemma PutSame(sys: System, s: SessionId)
    requires s in sys.streams
    ensures Put(sys, s, sys.streams[s]) == sys
  {
    assert sys.streams[s := sys.streams[s]] == sys.streams;
  }

  lemma BookkeepingKeeps(sys: System, s: SessionId, st': Stream)
    requires Accounts(sys) && s in sys.streams && SameCounts(sys.streams[s], st')
    ensures Accounts(Put(sys, s, st'))
  {
    assert Exact(sys, s);
    WorkerStepKeeps(sys, Put(sys, s, st'), s, 0);
  }

  lemma EventPutKeeps(sys: System, s: SessionId)
    requires Accounts(sys) && s in sys.streams
    ensures Accounts(EventPut(sys, s))
  {
    BookkeepingKeeps(sys, s, EventPut(sys, s).streams[s]);
  }

  lemma SaidKeeps(sys: System, limits: Limits, s: SessionId)
    requires Accounts(sys) && s in sys.streams
    ensures Accounts(Said(sys, limits, s))
  {
    BookkeepingKeeps(sys, s, Said(sys, limits, s).streams[s]);
  }

  // ---------- the recognition worker ----------

  lemma PartialAcceptedCounts(st: Stream, job: AsrJob, text: string)
    ensures SameCounts(st, PartialAccepted(st, job, text))
    ensures forall t :: AsrBusyWith(AfterPartial(st, job, text), t) <==> t == job.session
  {
  }

  lemma AsrResultKeeps(sys: System, result: Option<string>)
    requires Accounts(sys) && sys.asr.Transcribing?
    ensures sys.asr.job.session in sys.streams
    ensures Accounts(AsrResultAccepted(sys, sys.asr.job, result))
  {
    var job := sys.asr.job;
    var s := job.session;
    ClampNeverActs(sys, s);
    var st := sys.streams[s];
    if result.None? {
      var asr' := AsrTelling(job, if job.mode.Final? then 2 else 1);
      AsrStaysKeeps(sys, asr', s, st);
      PutSame(sys.(asr := asr'), s);
    } else if job.mode.Partial? {
      PartialAcceptedCounts(st, job, result.value);
      AsrStaysKeeps(sys, AfterPartial(st, job, result.value), s, PartialAccepted(st, job, result.value));
    } else {
      match Ledger.AcceptFinal(st.rows, job.utterance, result.value)
      case Failure(_) => AsrLeavesKeeps(sys, AsrStopped, s);
      case Success(rows) => AsrStaysKeeps(sys, FinalAccepted(job, result.value), s, st.(rows := rows));
    }
  }

  lemma AsrMovesKeeps(sys: System, asr': AsrWorker, s: SessionId)
    requires Accounts(sys) && AsrBusyWith(sys.asr, s) && forall t :: AsrBusyWith(asr', t) <==> t == s
    ensures Accounts(sys.(asr := asr'))
  {
    ClampNeverActs(sys, s);
    AsrStaysKeeps(sys, asr', s, sys.streams[s]);
    PutSame(sys.(asr := asr'), s);
  }

  lemma AsrToldKeeps(sys: System, limits: Limits)
    requires Accounts(sys) && (sys.asr.AsrTelling? || sys.asr.FinalAccepted?) && sys.asr.job.session in sys.streams
    ensures Accounts(AsrTold(sys, limits))
  {
    var s := sys.asr.job.session;
    if EmitRaises(sys, limits, s) {
      AsrLeavesKeeps(sys, AsrStopped, s);
    } else {
      AsrMovesKeeps(sys, AsrTold(sys, limits).asr, s);
    }
  }

  lemma CorrectionQueuedKeeps(sys: System, limits: Limits)
    requires Accounts(sys) && sys.asr.FinalTold? && sys.asr.job.session in sys.streams
    ensures Accounts(CorrectionQueued(sys, limits))
  {
    var asrJob := sys.asr.job;
    var job := TextJob(asrJob.session, asrJob.utterance, Correction, sys.asr.previousText, sys.asr.text);
    match PutText(sys.textQueue, limits.texts, Correction, job)
    case Failure(QueueFull) => AsrMovesKeeps(sys, AsrTelling(asrJob, 2), asrJob.session);
    case Failure(_) => AsrLeavesKeeps(sys, AsrStopped, asrJob.session);
    case Success(_) =>
      AsrMovesKeeps(sys, AsrSettled(asrJob), asrJob.session);
      TextQueuedKeeps(sys.(asr := AsrSettled(asrJob)), limits, Correction, job);
  }

  // ---------- the text worker ----------

  lemma TextMovesKeeps(sys: System, text': TextWorker, s: SessionId)
    requires Accounts(sys) && TextBusyWith(sys.text, s) && forall t :: TextBusyWith(text', t) <==> t == s
    ensures Accounts(sys.(text := text'))
  {
    ClampNeverActs(sys, s);
    TextStaysKeeps(sys, text', s, sys.streams[s]);
    PutSame(sys.(text := text'), s);
  }

  lemma EndpointAnsweredKeeps(sys: System, limits: Limits, job: TextJob, outcome: TextOutcome)
    requires Accounts(sys) && sys.text == Inferring(job) && job.session in sys.streams
    ensures Accounts(EndpointAnswered(sys, limits, job, outcome))
  {
    if !outcome.Completes? || Blank(job.currentText) {
      TextMovesKeeps(sys, EndpointAnswered(sys, limits, job, outcome).text, job.session);
    } else {
      match FinalOffer(sys, limits, job.session, outcome.utterance, outcome.pcm)
      case Failure(QueueFull) => TextMovesKeeps(sys, TextTelling(job, 1), job.session);
      case Failure(_) => TextLeavesKeeps(sys, TextStopped, job.session);
      case Success(_) =>
        TextMovesKeeps(sys, TextNoting(job), job.session);
        FinalQueuedKeeps(sys.(text := TextNoting(job)), limits, job.session, outcome.utterance, outcome.pcm);
    }
  }

  lemma RevisionAnsweredKeeps(sys: System, job: TextJob, outcome: TextOutcome)
    requires Accounts(sys) && sys.text == Inferring(job) && job.session in sys.streams
    ensures Accounts(RevisionAnswered(sys, job, outcome))
  {
    var st := sys.streams[job.session];
    if !outcome.Revised? {
      TextMovesKeeps(sys, TextTelling(job, 2), job.session);
    } else {
      match Ledger.ApplyRevision(st.rows, job.utterance, outcome.previousText, outcome.currentText)
      case Failure(_) => TextMovesKeeps(sys, TextSettled(job), job.session);
      case Success(rows) => TextStaysKeeps(sys, TextTelling(job, 2), job.session, st.(rows := rows));
    }
  }

  lemma TextToldKeeps(sys: System, limits: Limits)
    requires Accounts(sys) && (sys.text.TextTelling? || sys.text.TextNoting?) && sys.text.job.session in sys.streams
    ensures Accounts(TextTold(sys, limits))
  {
    var s := sys.text.job.session;
    if sys.text.TextTelling? && EmitRaises(sys, limits, s) {
      TextLeavesKeeps(sys, TextStopped, s);
    } else {
      TextMovesKeeps(sys, TextTold(sys, limits).text, s);
    }
  }

  // ---------- opening and closing ----------

  lemma OpenKeeps(sys: System, s: SessionId)
    requires Accounts(sys) && s !in sys.streams
    ensures Accounts(Put(sys.(registered := sys.registered + {s}), s, NEW_STREAM))
  {
    var sys' := Put(sys.(registered := sys.registered + {s}), s, NEW_STREAM);
    forall t
      ensures Exact(sys', t)
    {
      assert Exact(sys, t);
    }
  }

  lemma StopBegunKeeps(sys: System, limits: Limits, s: SessionId, speech: Option<(UtteranceId, seq<nat>)>)
    requires Accounts(sys) && s in sys.streams
    ensures Accounts(StopBegun(sys, limits, s, speech))
  {
    if sys.streams[s].stop.Running? {
      var phase := if StopRaises(sys, limits, s, speech) then StopFailed else Stopping;
      BookkeepingKeeps(sys, s, sys.streams[s].(stop := phase));
      if speech.Some? {
        FinalOfferedKeeps(Put(sys, s, sys.streams[s].(stop := phase)), limits, s, speech.value.0, speech.value.1);
      }
    }
  }

  lemma LedgerFinalizedKeeps(sys: System, limits: Limits, s: SessionId)
    requires Accounts(sys) && s in sys.streams
    ensures Accounts(LedgerFinalized(sys, limits, s))
  {
    var st := sys.streams[s];
    if st.stop.Stopping? {
      var finalized := st.(rows := Ledger.Finalized(st.rows), stop := Stopped, owed := st.owed + 1);
      BookkeepingKeeps(sys, s, finalized);
      SaidKeeps(Put(sys, s, finalized), limits, s);
    }
  }

  lemma RestartedKeeps(sys: System, limits: Limits, s: SessionId)
    requires Accounts(sys) && s in sys.streams
    ensures Accounts(Restarted(sys, limits, s))
  {
    var st := sys.streams[s];
    if st.stop.Stopped? {
      BookkeepingKeeps(sys, s, st.(stop := Running));
      SaidKeeps(Put(sys, s, st.(stop := Running)), limits, s);
    }
  }

  lemma ClosedKeeps(sys: System, limits: Limits, s: SessionId, speech: Option<(UtteranceId, seq<nat>)>)
    requires Accounts(sys)
    ensures Accounts(Closed(sys, limits, s, speech))
  {
    var gone := sys.(registered := sys.registered - {s});
    SameWorkKeeps(sys, gone);
    if s in sys.registered && s in sys.streams {
      StopBegunKeeps(gone, limits, s, speech);
    }
  }

  // ---------- every step ----------

  predicate IsClientOp(op: Op) {
    op.QueuePartial? || op.QueueFinal? || op.QueueEndpoint? || op.Say?
  }

  predicate IsEventOp(op: Op) {
    op.Deliver? || op.GiveUp? || op.Attach? || op.Detach? || op.ReadEvent?
  }

  predicate IsLifeOp(op: Op) {
    op.Admit? || op.Evict? || op.Open? || op.Stop? || op.Close? || op.FinalizeLedger? || op.Restart? || op.CloseQueues?
  }

  predicate IsAsrOp(op: Op) {
    op.TakeAsr? || op.AsrResult? || op.AsrTell? || op.QueueCorrection? || op.AsrDone?
  }

  predicate IsTextOp(op: Op) {
    op.TakeText? || op.TextResult? || op.TextTell? || op.TextDone?
  }

  lemma ClientStepKeeps(sys: System, limits: Limits, op: Op)
    requires Accounts(sys) && IsClientOp(op)
    ensures Accounts(Next(sys, limits, op))
  {
    match op
    case QueuePartial(s, u, pcm) =>
      if s in sys.streams {
        PartialQueuedKeeps(sys, limits, s, u, pcm);
        SaidKeeps(PartialQueued(sys, limits, s, u, pcm), limits, s);
      }
    case QueueFinal(s, u, pcm) =>
      if s in sys.streams {
        FinalOfferedKeeps(sys, limits, s, u, pcm);
      }
    case QueueEndpoint(s, u) =>
      if s in sys.streams {
        TextQueuedKeeps(sys, limits, Endpoint, Question(sys.streams[s].rows, s, u));
        SaidKeeps(sys, limits, s);
      }
    case Say(s) =>
      if s in sys.streams {
        SaidKeeps(sys, limits, s);
      }
  }

  lemma EventStepKeeps(sys: System, limits: Limits, op: Op)
    requires Accounts(sys) && IsEventOp(op)
    ensures Accounts(Next(sys, limits, op))
  {
    if op.session in sys.streams {
      BookkeepingKeeps(sys, op.session, EventStep(sys.streams[op.session], limits, op.session in sys.registered, op));
    }
  }

  lemma LifeStepKeeps(sys: System, limits: Limits, op: Op)
    requires Accounts(sys) && IsLifeOp(op)
    ensures Accounts(Next(sys, limits, op))
  {
    match op
    case Open(s) =>
      if s !in sys.streams {
        OpenKeeps(sys, s);
      }
    case Stop(s, speech) =>
      if s in sys.streams {
        StopBegunKeeps(sys, limits, s, speech);
      }
    case Close(s, speech) => ClosedKeeps(sys, limits, s, speech);
    case FinalizeLedger(s) =>
      if s in sys.streams {
        LedgerFinalizedKeeps(sys, limits, s);
      }
    case Restart(s) =>
      if s in sys.streams {
        RestartedKeeps(sys, limits, s);
      }
    case _ => SameWorkKeeps(sys, Next(sys, limits, op));
  }

  lemma AsrStepKeeps(sys: System, limits: Limits, op: Op)
    requires Accounts(sys) && IsAsrOp(op)
    ensures Accounts(Next(sys, limits, op))
  {
    match op
    case TakeAsr =>
      if sys.asr.AsrWaiting? {
        AsrTakenKeeps(sys);
      }
    case AsrResult(result) =>
      if sys.asr.Transcribing? {
        AsrResultKeeps(sys, result);
      }
    case AsrTell =>
      if AsrMayTell(sys, limits) && !sys.asr.FinalTold? {
        EventPutKeeps(sys, sys.asr.job.session);
        AsrToldKeeps(EventPut(sys, sys.asr.job.session), limits);
      }
    case QueueCorrection =>
      if AsrMayTell(sys, limits) && sys.asr.FinalTold? {
        EventPutKeeps(sys, sys.asr.job.session);
        CorrectionQueuedKeeps(EventPut(sys, sys.asr.job.session), limits);
      }
    case AsrDone =>
      if sys.asr.AsrSettled? && sys.asr.job.session in sys.streams {
        AsrLeavesKeeps(sys, AsrWaiting, sys.asr.job.session);
      }
  }

  lemma TextStepKeeps(sys: System, limits: Limits, op: Op)
    requires Accounts(sys) && IsTextOp(op)
    ensures Accounts(Next(sys, limits, op))
  {
    match op
    case TakeText =>
      if sys.text.TextWaiting? {
        TextTakenKeeps(sys);
      }
    case TextResult(outcome) =>
      if sys.text.Inferring? && sys.text.job.session in sys.streams {
        if sys.text.job.mode.Endpoint? {
          EndpointAnsweredKeeps(sys, limits, sys.text.job, outcome);
        } else {
          RevisionAnsweredKeeps(sys, sys.text.job, outcome);
        }
      }
    case TextTell =>
      if TextMayTell(sys, limits) {
        EventPutKeeps(sys, sys.text.job.session);
        TextToldKeeps(EventPut(sys, sys.text.job.session), limits);
      }
    case TextDone =>
      if sys.text.TextSettled? && sys.text.job.session in sys.streams {
        TextLeavesKeeps(sys, TextWaiting, sys.text.job.session);
      }
  }

  lemma NextKeepsAccounts(sys: System, limits: Limits, op: Op)
    requires Accounts(sys)
    ensures Accounts(Next(sys, limits, op))
  {
    if IsClientOp(op) {
      ClientStepKeeps(sys, limits, op);
    } else if IsLifeOp(op) {
      LifeStepKeeps(sys, limits, op);
    } else if IsEventOp(op) {
      EventStepKeeps(sys, limits, op);
    } else if IsAsrOp(op) {
      AsrStepKeeps(sys, limits, op);
    } else {
      TextStepKeeps(sys, limits, op);
    }
  }

  /** In every interleaving: pending is queued entries plus jobs in flight plus jobs skipped unregistered. */
  lemma {:induction false} RunKeepsAccounts(sys: System, limits: Limits, ops: seq<Op>)
    requires Accounts(sys)
    ensures Accounts(Run(sys, limits, ops))
    decreases |ops|
  {
    if ops != [] {
      NextKeepsAccounts(sys, limits, ops[0]);
      RunKeepsAccounts(Next(sys, limits, ops[0]), limits, ops[1..]);
    }
  }
}
