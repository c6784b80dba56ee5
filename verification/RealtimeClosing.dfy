/** When a stream that has left the registry can still become idle. */
module RealtimeClosing {
  import opened Wrappers
  import opened RealtimeQueue
  import opened RealtimeCoordinator
  import opened RealtimeAccounting
  import opened RealtimeResults
  import opened RealtimeEvents
  import opened RealtimeNeeds

  // ---------- three ways to be lost ----------

  /** Work that no worker will ever finish: it waits in a queue, or was skipped. */
  ghost predicate Stranded(sys: System, s: SessionId) {
    s in sys.streams && s !in sys.registered && Queued(sys, s) + sys.streams[s].dropped > 0
  }

  /** An accepted final of this stream is about to queue its correction, and the text queue will take it. */
  predicate Committed(sys: System, limits: Limits, s: SessionId) {
    && (sys.asr.FinalTold? || (sys.asr.FinalAccepted? && !EmitRaises(sys, limits, s)))
    && sys.asr.job.session == s
    && !sys.textQueue.closed && |sys.textQueue.corrections| < limits.texts
  }

  ghost predicate Lost(sys: System, limits: Limits, s: SessionId) {
    Stranded(sys, s) || (s in sys.streams && s !in sys.registered && Committed(sys, limits, s))
  }

  /** Nobody takes the stream's events, and those that its jobs in flight must still put do not fit. */
  predicate Blocked(sys: System, limits: Limits, s: SessionId, raises: bool, closed: bool) {
    && s in sys.streams && sys.streams[s].readers == 0
    && sys.streams[s].waiting + NeedOf(sys, s, raises, closed) > limits.events
  }

  /** A reader remains, or there is room for what the jobs in flight must still put. */
  predicate Heard(sys: System, limits: Limits, s: SessionId)
    requires s in sys.streams
  {
    !Blocked(sys, limits, s, EmitRaises(sys, limits, s), sys.textQueue.closed)
  }

  /** The stream is left to the workers and its readers, its broker session stays, and so do the queues. */
  predicate Benign(op: Op, s: SessionId) {
    LeftAlone(op, s) && !(op.Evict? && op.session == s) && !op.CloseQueues?
  }

  // ---------- what is stranded stays stranded ----------

  /** What an unregistered stream still counts beyond its jobs in flight. */
  function Owed(sys: System, s: SessionId): int
    requires s in sys.streams
  {
    sys.streams[s].pending - InFlight(sys, s)
  }

  ghost predicate OwesNoLess(sys: System, sys': System, s: SessionId)
    requires s in sys.streams
  {
    s in sys'.streams && s !in sys'.registered && Owed(sys', s) >= Owed(sys, s)
  }

  /** An unregistered stream that counts at least its jobs in flight. */
  ghost predicate Owing(sys: System, s: SessionId) {
    && s in sys.streams && s !in sys.registered
    && (AsrBusyWith(sys.asr, s) || TextBusyWith(sys.text, s) ==> sys.streams[s].pending >= 1)
  }

  lemma AsrToldOwesNoLess(sys: System, limits: Limits, s: SessionId)
    requires Owing(sys, s) && AsrMayTell(sys, limits)
    ensures var put := EventPut(sys, sys.asr.job.session);
            OwesNoLess(sys, if sys.asr.FinalTold? then CorrectionQueued(put, limits) else AsrTold(put, limits), s)
  {
  }

  lemma AsrStepOwesNoLess(sys: System, limits: Limits, op: Op, s: SessionId)
    requires Owing(sys, s) && IsAsrOp(op)
    ensures OwesNoLess(sys, Next(sys, limits, op), s)
  {
    if (op.AsrTell? || op.QueueCorrection?) && AsrMayTell(sys, limits) {
      AsrToldOwesNoLess(sys, limits, s);
    }
  }

  lemma TextResultOwesNoLess(sys: System, limits: Limits, outcome: TextOutcome, s: SessionId)
    requires Owing(sys, s)
    ensures OwesNoLess(sys, Next(sys, limits, TextResult(outcome)), s)
  {
  }

  lemma TextStepOwesNoLess(sys: System, limits: Limits, op: Op, s: SessionId)
    requires Owing(sys, s) && IsTextOp(op)
    ensures OwesNoLess(sys, Next(sys, limits, op), s)
  {
    match op
    case TakeText =>
    case TextResult(outcome) => TextResultOwesNoLess(sys, limits, outcome, s);
    case TextTell =>
    case TextDone =>
  }

  lemma ClientStepOwesNoLess(sys: System, limits: Limits, op: Op, s: SessionId)
    requires Owing(sys, s) && (IsClientOp(op) || IsEventOp(op))
    ensures OwesNoLess(sys, Next(sys, limits, op), s)
  {
    OthersLeaveWorkers(sys, limits, op);
    NextKeepsUnregistered(sys, limits, op, s);
    if op.session == s {
      OwnStepPends(sys, limits, op);
    }
  }

  /** No operation of a client takes work away from its stream. */
  lemma OwnStepPends(sys: System, limits: Limits, op: Op)
    requires (IsClientOp(op) || IsEventOp(op)) && op.session in sys.streams
    ensures op.session in Next(sys, limits, op).streams
    ensures Next(sys, limits, op).streams[op.session].pending >= sys.streams[op.session].pending
  {
    match op
    case QueuePartial(s, u, pcm) => PartialPends(sys, limits, s, u, pcm);
    case QueueFinal(s, u, pcm) =>
    case QueueEndpoint(_, _) =>
    case _ =>
  }

  lemma PartialPends(sys: System, limits: Limits, s: SessionId, u: UtteranceId, pcm: seq<nat>)
    requires s in sys.streams
    ensures PartialOffered(sys, limits, s, u, pcm).streams[s].pending >= sys.streams[s].pending
  {
    var queued := PartialQueued(sys, limits, s, u, pcm);
    assert queued.streams[s].pending >= sys.streams[s].pending;
  }

  lemma LifeStepOwesNoLess(sys: System, limits: Limits, op: Op, s: SessionId)
    requires Owing(sys, s) && IsLifeOp(op)
    ensures OwesNoLess(sys, Next(sys, limits, op), s)
  {
    OthersLeaveWorkers(sys, limits, op);
    NextKeepsUnregistered(sys, limits, op, s);
    match op
    case Stop(_, _) =>
    case Close(_, _) =>
    case _ =>
  }

  lemma NextStrands(sys: System, limits: Limits, op: Op, s: SessionId)
    requires Accounts(sys) && Stranded(sys, s)
    ensures Stranded(Next(sys, limits, op), s)
  {
    if AsrBusyWith(sys.asr, s) || TextBusyWith(sys.text, s) {
      ClampNeverActs(sys, s);
    }
    if IsAsrOp(op) {
      AsrStepOwesNoLess(sys, limits, op, s);
    } else if IsTextOp(op) {
      TextStepOwesNoLess(sys, limits, op, s);
    } else if IsLifeOp(op) {
      LifeStepOwesNoLess(sys, limits, op, s);
    } else {
      ClientStepOwesNoLess(sys, limits, op, s);
    }
    NextKeepsAccounts(sys, limits, op);
    assert Exact(sys, s) && Exact(Next(sys, limits, op), s);
  }

  /** A stream that leaves the registry with work in a queue never becomes idle again, whatever happens. */
  lemma {:induction false} StrandedStreamIsNeverIdle(sys: System, limits: Limits, ops: seq<Op>, s: SessionId)
    requires Accounts(sys) && Stranded(sys, s)
    ensures var end := Run(sys, limits, ops); s in end.streams && !end.streams[s].idle
    decreases |ops|
  {
    if ops == [] {
      assert Exact(sys, s);
    } else {
      NextStrands(sys, limits, ops[0], s);
      NextKeepsAccounts(sys, limits, ops[0]);
      StrandedStreamIsNeverIdle(Next(sys, limits, ops[0]), limits, ops[1..], s);
    }
  }

  // ---------- what is committed becomes stranded ----------

  /** Queueing the correction of a stream that has left strands it. */
  lemma CommittedStrands(sys: System, limits: Limits, s: SessionId)
    requires s in sys.streams && s !in sys.registered && CorrectionFits(sys, limits, s) && AsrMayTell(sys, limits)
    ensures Stranded(Next(sys, limits, QueueCorrection), s)
  {
    var before, after := sys.textQueue.corrections, Next(sys, limits, QueueCorrection).textQueue.corrections;
    assert |after| == |before| + 1 && after[|before|].session == s;
    assert TextSessions(after)[|before|] == s;
    assert s in TextSessions(after);
  }

  /** Nothing but the recognition worker puts corrections into the queue or changes its own job. */
  lemma OthersKeepCommitted(sys: System, limits: Limits, op: Op, s: SessionId)
    requires Committed(sys, limits, s) && Benign(op, s) && !IsAsrOp(op)
    ensures Committed(Next(sys, limits, op), limits, s)
  {
    var sys' := Next(sys, limits, op);
    WorkersMoveThemselves(sys, limits, op);
    if IsTextOp(op) {
      TextStepKeepsRoom(sys, limits, op);
    } else {
      assert sys'.textQueue.corrections == sys.textQueue.corrections
             && sys'.textQueue.closed == sys.textQueue.closed && (s in sys.known ==> s in sys'.known);
    }
  }

  lemma AsrKeepsCommitted(sys: System, limits: Limits, op: Op, s: SessionId)
    requires Committed(sys, limits, s) && IsAsrOp(op)
    requires !(op.QueueCorrection? && sys.asr.FinalTold? && AsrMayTell(sys, limits))
    ensures Committed(Next(sys, limits, op), limits, s)
  {
  }

  lemma TextStepKeepsRoom(sys: System, limits: Limits, op: Op)
    requires IsTextOp(op)
    ensures var sys' := Next(sys, limits, op);
            && |sys'.textQueue.corrections| <= |sys.textQueue.corrections|
            && sys'.textQueue.closed == sys.textQueue.closed && sys'.known == sys.known
  {
    match op
    case TakeText =>
    case TextResult(outcome) =>
    case TextTell =>
    case TextDone =>
  }

  lemma NextIsLost(sys: System, limits: Limits, op: Op, s: SessionId)
    requires Accounts(sys) && Lost(sys, limits, s) && Benign(op, s)
    ensures Lost(Next(sys, limits, op), limits, s)
  {
    if Stranded(sys, s) {
      NextStrands(sys, limits, op, s);
    } else {
      NextKeepsUnregistered(sys, limits, op, s);
      if op.QueueCorrection? && sys.asr.FinalTold? && AsrMayTell(sys, limits) {
        CommittedStrands(sys, limits, s);
      } else if IsAsrOp(op) {
        AsrKeepsCommitted(sys, limits, op, s);
      } else {
        OthersKeepCommitted(sys, limits, op, s);
      }
    }
  }

  // ---------- what is blocked stays blocked ----------

  /** A blocked stream stays so, unless its announced correction is queued and strands it. */
  lemma NextBlocked(sys: System, limits: Limits, op: Op, s: SessionId, raises: bool, closed: bool)
    requires s !in sys.registered && Blocked(sys, limits, s, raises, closed)
    requires Covers(sys, limits, s, raises, closed) && LeftAlone(op, s)
    ensures var sys' := Next(sys, limits, op);
            Stranded(sys', s) || (s !in sys'.registered && Blocked(sys', limits, s, raises, closed))
  {
    NextStaysUnread(sys, limits, op, s);
    if !(op.QueueCorrection? && CorrectionFits(sys, limits, s)) {
      NextNeeds(sys, limits, op, s, raises, closed);
    } else if AsrMayTell(sys, limits) {
      CommittedStrands(sys, limits, s);
    }
  }

  lemma BusyIsNotIdle(sys: System, limits: Limits, s: SessionId, raises: bool, closed: bool)
    requires Accounts(sys) && Fits(sys, limits) && s in sys.streams
    requires Lost(sys, limits, s) || Blocked(sys, limits, s, raises, closed)
    ensures !sys.streams[s].idle
  {
    assert Exact(sys, s);
    if Blocked(sys, limits, s, raises, closed) {
      assert NeedOf(sys, s, raises, closed) > 0;
      assert InFlight(sys, s) > 0;
    }
  }

  lemma BenignKeepsCover(sys: System, limits: Limits, op: Op, s: SessionId, raises: bool, closed: bool)
    requires Covers(sys, limits, s, raises, closed) && Benign(op, s)
    ensures Covers(Next(sys, limits, op), limits, s, raises, closed)
  {
    KnownAndClosed(sys, limits, op);
  }

  /** Only an eviction makes the broker forget a session, and only the coordinator closes its queues. */
  lemma KnownAndClosed(sys: System, limits: Limits, op: Op)
    ensures var sys' := Next(sys, limits, op);
            && (forall s :: s in sys.known && !(op.Evict? && op.session == s) ==> s in sys'.known)
            && (!op.CloseQueues? ==> sys'.textQueue.closed == sys.textQueue.closed)
  {
    if IsTextOp(op) {
      TextStepKeepsRoom(sys, limits, op);
    }
  }

  lemma {:induction false} LostStaysBusy(sys: System, limits: Limits, ops: seq<Op>, s: SessionId, raises: bool,
                                         closed: bool)
    requires Accounts(sys) && Fits(sys, limits) && Covers(sys, limits, s, raises, closed)
    requires s in sys.streams && s !in sys.registered && forall op :: op in ops ==> Benign(op, s)
    requires Lost(sys, limits, s) || Blocked(sys, limits, s, raises, closed)
    ensures !IdleAfter(sys, limits, s, ops)
    decreases |ops|
  {
    BusyIsNotIdle(sys, limits, s, raises, closed);
    if ops != [] {
      var op := ops[0];
      assert op in ops && forall op :: op in ops[1..] ==> op in ops;
      if Lost(sys, limits, s) {
        NextIsLost(sys, limits, op, s);
      } else {
        NextBlocked(sys, limits, op, s, raises, closed);
      }
      NextKeepsUnregistered(sys, limits, op, s);
      BenignKeepsCover(sys, limits, op, s, raises, closed);
      NextKeepsAccounts(sys, limits, op);
      NextFits(sys, limits, op);
      LostStaysBusy(Next(sys, limits, op), limits, ops[1..], s, raises, closed);
    }
  }

  /** The same when the broker and the coordinator may act as well, for the need that is left in the best case. */
  lemma {:induction false} BlockedStaysBusy(sys: System, limits: Limits, ops: seq<Op>, s: SessionId)
    requires Accounts(sys) && Fits(sys, limits)
    requires s in sys.streams && s !in sys.registered && forall op :: op in ops ==> LeftAlone(op, s)
    requires Stranded(sys, s) || Blocked(sys, limits, s, limits.broker, true)
    ensures !IdleAfter(sys, limits, s, ops)
    decreases |ops|
  {
    BusyIsNotIdle(sys, limits, s, limits.broker, true);
    if ops != [] {
      var op := ops[0];
      assert op in ops && forall op :: op in ops[1..] ==> op in ops;
      if Stranded(sys, s) {
        NextStrands(sys, limits, op, s);
      } else {
        NextBlocked(sys, limits, op, s, limits.broker, true);
      }
      NextKeepsUnregistered(sys, limits, op, s);
      NextKeepsAccounts(sys, limits, op);
      NextFits(sys, limits, op);
      BlockedStaysBusy(Next(sys, limits, op), limits, ops[1..], s);
    }
  }

  // ---------- anything else can still drain ----------

  /** An unregistered stream whose only work is in flight and need not lead to more. */
  ghost predicate Drainable(sys: System, limits: Limits, s: SessionId) {
    Accounts(sys) && s in sys.streams && s !in sys.registered && !Lost(sys, limits, s)
  }

  /** How many steps a worker has left, at most. */
  function AsrLeft(asr: AsrWorker): nat {
    match asr
    case Transcribing(_) => 7
    case FinalAccepted(_, _) => 6
    case FinalTold(_, _, _) => 5
    case AsrTelling(_, events) => 2 + events
    case AsrSettled(_) => 1
    case _ => 0
  }

  function TextLeft(text: TextWorker): nat {
    match text
    case Inferring(_) => 5
    case TextNoting(_) => 2
    case TextTelling(_, events) => 2 + events
    case TextSettled(_) => 1
    case _ => 0
  }

  function Left(sys: System, s: SessionId): nat {
    (if AsrBusyWith(sys.asr, s) then AsrLeft(sys.asr) else 0)
    + (if TextBusyWith(sys.text, s) then TextLeft(sys.text) else 0)
  }

  /** The result that costs the fewest events: one that supersedes a revision in flight, or raises, or fails. */
  function CheapestResult(sys: System, limits: Limits, s: SessionId): Option<string>
    requires s in sys.streams && sys.asr.Transcribing?
  {
    var rows, id := sys.streams[s].rows, sys.asr.job.utterance;
    var supersedes := && AddsRow(rows, id) && (EmitRaises(sys, limits, s) || sys.textQueue.closed)
                      && TextBusyWith(sys.text, s) && sys.text.Inferring?
                      && RevisionLands(rows, sys.text.job.utterance);
    if sys.asr.job.mode.Partial? || LedgerRefuses(rows, id) || supersedes then Some("") else None
  }

  /** The step by which a worker gets on with a job of `s` at the least cost and without making new work. */
  function AsrGetsOn(sys: System, limits: Limits, s: SessionId): Op
    requires s in sys.streams
  {
    match sys.asr
    case Transcribing(_) => AsrResult(CheapestResult(sys, limits, s))
    case FinalTold(_, _, _) => QueueCorrection
    case AsrSettled(_) => AsrDone
    case _ => AsrTell
  }

  function TextGetsOn(text: TextWorker, rows: Ledger.Rows): Op {
    match text
    case Inferring(job) =>
      TextResult(if job.mode.Endpoint? then Continues(false)
                 else if RevisionLands(rows, job.utterance) then RevisionFailed
                 else Revised("", ""))
    case TextSettled(_) => TextDone
    case _ => TextTell
  }

  /** The queues and the registry stay as they are, and only the work in flight of `s` shrinks. */
  ghost predicate GetsOn(sys: System, sys': System, s: SessionId)
    requires s in sys.streams
  {
    && sys'.asrQueue == sys.asrQueue && sys'.textQueue == sys.textQueue
    && sys'.registered == sys.registered && sys'.known == sys.known
    && s in sys'.streams
    && sys'.streams[s].dropped == sys.streams[s].dropped && sys'.streams[s].readers == sys.streams[s].readers
  }

  /** Nothing of the event queue is used beyond the need. */
  ghost predicate NeedsNoMore(sys: System, sys': System, s: SessionId, raises: bool, closed: bool)
    requires s in sys.streams
  {
    && s in sys'.streams
    && sys'.streams[s].waiting + NeedOf(sys', s, raises, closed)
       <= sys.streams[s].waiting + NeedOf(sys, s, raises, closed)
  }

  lemma CheapestPartialCosts(sys: System, limits: Limits, s: SessionId, raises: bool, closed: bool)
    requires s in sys.streams && sys.asr.Transcribing? && sys.asr.job.session == s && sys.asr.job.mode.Partial?
    ensures NeedsNoMore(sys, AsrResultAccepted(sys, sys.asr.job, Some("")), s, raises, closed)
  {
    var job, st := sys.asr.job, sys.streams[s];
    LedgerAnswers(st.rows, job.utterance, "", "");
    if sys.text.Inferring? {
      PartialKeepsLanding(st.rows, job.utterance, "", sys.text.job.utterance);
    }
  }

  lemma CheapestFinalCosts(sys: System, limits: Limits, s: SessionId)
    requires s in sys.streams && sys.asr.Transcribing? && sys.asr.job.session == s && sys.asr.job.mode.Final?
    ensures NeedsNoMore(sys, AsrResultAccepted(sys, sys.asr.job, CheapestResult(sys, limits, s)), s,
                        EmitRaises(sys, limits, s), sys.textQueue.closed)
  {
    var job, st := sys.asr.job, sys.streams[s];
    LedgerAnswers(st.rows, job.utterance, "", "");
    if CheapestResult(sys, limits, s).Some? && !LedgerRefuses(st.rows, job.utterance) {
      FinalKeepsLanding(st.rows, job.utterance, "", sys.text.job.utterance);
    }
  }

  /** The worker moves on within the job of `s`, or leaves it, and is not committed to a correction by that. */
  ghost predicate AsrGetsNearer(sys: System, sys': System, limits: Limits, s: SessionId)
    requires s in sys.streams
  {
    && GetsOn(sys, sys', s) && sys'.text == sys.text && !Committed(sys', limits, s)
    && (if AsrBusyWith(sys'.asr, s) then AsrLeft(sys'.asr) else 0) < AsrLeft(sys.asr)
  }

  lemma CheapestResultMoves(sys: System, limits: Limits, s: SessionId)
    requires s in sys.streams && sys.asr.Transcribing? && sys.asr.job.session == s
    ensures AsrGetsNearer(sys, AsrResultAccepted(sys, sys.asr.job, CheapestResult(sys, limits, s)), limits, s)
  {
    LedgerAnswers(sys.streams[s].rows, sys.asr.job.utterance, "", "");
  }

  lemma ToldMoves(sys: System, limits: Limits, s: SessionId)
    requires s in sys.streams && (sys.asr.AsrTelling? || sys.asr.FinalAccepted?) && sys.asr.job.session == s
    requires !Committed(sys, limits, s)
    ensures var sys' := AsrTold(EventPut(sys, s), limits);
            AsrGetsNearer(sys, sys', limits, s)
            && NeedsNoMore(sys, sys', s, EmitRaises(sys, limits, s), sys.textQueue.closed)
  {
  }

  lemma RefusedCorrectionMoves(sys: System, limits: Limits, s: SessionId)
    requires s in sys.streams && sys.asr.FinalTold? && sys.asr.job.session == s && !Committed(sys, limits, s)
    ensures var sys' := CorrectionQueued(EventPut(sys, s), limits);
            AsrGetsNearer(sys, sys', limits, s)
            && NeedsNoMore(sys, sys', s, EmitRaises(sys, limits, s), sys.textQueue.closed)
  {
  }

  lemma AsrGetsOnStep(sys: System, limits: Limits, s: SessionId)
    requires s in sys.streams && AsrBusyWith(sys.asr, s) && !Committed(sys, limits, s)
    requires AsrTells(sys.asr) ==> HasRoom(sys.streams[s], limits)
    ensures var sys' := Next(sys, limits, AsrGetsOn(sys, limits, s));
            AsrGetsNearer(sys, sys', limits, s)
            && NeedsNoMore(sys, sys', s, EmitRaises(sys, limits, s), sys.textQueue.closed)
  {
    match sys.asr
    case Transcribing(job) =>
      CheapestResultMoves(sys, limits, s);
      if job.mode.Partial? {
        CheapestPartialCosts(sys, limits, s, EmitRaises(sys, limits, s), sys.textQueue.closed);
      } else {
        CheapestFinalCosts(sys, limits, s);
      }
    case AsrTelling(job, events) => ToldMoves(sys, limits, s);
    case FinalAccepted(job, text) => ToldMoves(sys, limits, s);
    case FinalTold(job, text, previousText) => RefusedCorrectionMoves(sys, limits, s);
    case AsrSettled(job) =>
  }

  lemma TextGetsOnStep(sys: System, limits: Limits, s: SessionId)
    requires s in sys.streams && TextBusyWith(sys.text, s) && !AsrBusyWith(sys.asr, s)
    requires TextTells(sys.text) ==> HasRoom(sys.streams[s], limits)
    ensures var sys' := Next(sys, limits, TextGetsOn(sys.text, sys.streams[s].rows));
            && GetsOn(sys, sys', s) && sys'.asr == sys.asr
            && (if TextBusyWith(sys'.text, s) then TextLeft(sys'.text) else 0) < TextLeft(sys.text)
            && NeedsNoMore(sys, sys', s, EmitRaises(sys, limits, s), sys.textQueue.closed)
  {
    match sys.text
    case Inferring(job) => LedgerAnswers(sys.streams[s].rows, job.utterance, "", "");
    case TextNoting(job) =>
    case TextTelling(job, events) =>
    case TextSettled(job) =>
  }

  /** A worker whose next step puts an event needs at least one. */
  lemma TellingNeeds(sys: System, s: SessionId, raises: bool, closed: bool)
    requires s in sys.streams
    ensures AsrTells(sys.asr) && sys.asr.job.session == s ==> NeedOf(sys, s, raises, closed) > 0
    ensures !AsrBusyWith(sys.asr, s) && TextTells(sys.text) && sys.text.job.session == s ==>
              NeedOf(sys, s, raises, closed) > 0
  {
  }

  /** The next step towards idle: a reader makes room, or a worker gets on. */
  function DrainOp(sys: System, limits: Limits, s: SessionId): Op
    requires s in sys.streams
  {
    var asr := AsrBusyWith(sys.asr, s);
    if (if asr then AsrTells(sys.asr) else TextTells(sys.text)) && !HasRoom(sys.streams[s], limits) then ReadEvent(s)
    else if asr then AsrGetsOn(sys, limits, s)
    else TextGetsOn(sys.text, sys.streams[s].rows)
  }

  lemma GetsOnStaysDrainable(sys: System, sys': System, limits: Limits, s: SessionId)
    requires Drainable(sys, limits, s) && Accounts(sys') && GetsOn(sys, sys', s) && !Committed(sys', limits, s)
    requires Heard(sys, limits, s)
    requires NeedsNoMore(sys, sys', s, EmitRaises(sys, limits, s), sys.textQueue.closed)
    ensures Drainable(sys', limits, s) && Heard(sys', limits, s)
  {
    assert Queued(sys', s) == Queued(sys, s);
  }

  lemma WorkerGetsOn(sys: System, limits: Limits, s: SessionId)
    requires Drainable(sys, limits, s) && Heard(sys, limits, s) && !sys.streams[s].idle
    requires !DrainOp(sys, limits, s).ReadEvent?
    ensures var sys' := Next(sys, limits, DrainOp(sys, limits, s));
            Drainable(sys', limits, s) && Heard(sys', limits, s) && Left(sys', s) < Left(sys, s)
  {
    assert Exact(sys, s);
    var op := DrainOp(sys, limits, s);
    if AsrBusyWith(sys.asr, s) {
      AsrGetsOnStep(sys, limits, s);
    } else {
      TextGetsOnStep(sys, limits, s);
    }
    NextKeepsAccounts(sys, limits, op);
    GetsOnStaysDrainable(sys, Next(sys, limits, op), limits, s);
  }

  lemma ReaderGetsOn(sys: System, limits: Limits, s: SessionId)
    requires Drainable(sys, limits, s) && Heard(sys, limits, s) && !sys.streams[s].idle
    requires DrainOp(sys, limits, s).ReadEvent?
    ensures var sys' := Next(sys, limits, DrainOp(sys, limits, s));
            && Drainable(sys', limits, s) && Heard(sys', limits, s) && Left(sys', s) == Left(sys, s)
            && sys'.streams[s].waiting < sys.streams[s].waiting
  {
    assert Exact(sys, s);
    TellingNeeds(sys, s, EmitRaises(sys, limits, s), sys.textQueue.closed);
    var sys' := Next(sys, limits, ReadEvent(s));
    assert sys' == Put(sys, s, sys.streams[s].(waiting := sys.streams[s].waiting - 1));
    NextKeepsAccounts(sys, limits, ReadEvent(s));
    assert Queued(sys', s) == Queued(sys, s);
  }

  lemma {:induction false} DrainableDrains(sys: System, limits: Limits, s: SessionId) returns (ops: seq<Op>)
    requires Drainable(sys, limits, s) && Heard(sys, limits, s)
    ensures forall op :: op in ops ==> Benign(op, s)
    ensures IdleAfter(sys, limits, s, ops)
    decreases Left(sys, s), sys.streams[s].waiting
  {
    ops := [];
    if !sys.streams[s].idle {
      var op := DrainOp(sys, limits, s);
      DrainStep(sys, limits, s);
      var rest := DrainableDrains(Next(sys, limits, op), limits, s);
      RunOneMore(sys, limits, op, rest);
      ops := [op] + rest;
    }
  }

  lemma DrainStep(sys: System, limits: Limits, s: SessionId)
    requires Drainable(sys, limits, s) && Heard(sys, limits, s) && !sys.streams[s].idle
    ensures Benign(DrainOp(sys, limits, s), s)
    ensures var sys' := Next(sys, limits, DrainOp(sys, limits, s));
            && Drainable(sys', limits, s) && Heard(sys', limits, s)
            && (Left(sys', s) < Left(sys, s)
                || (Left(sys', s) == Left(sys, s) && sys'.streams[s].waiting < sys.streams[s].waiting))
  {
    if DrainOp(sys, limits, s).ReadEvent? {
      ReaderGetsOn(sys, limits, s);
    } else {
      WorkerGetsOn(sys, limits, s);
    }
  }

  lemma RunOneMore(sys: System, limits: Limits, op: Op, rest: seq<Op>)
    ensures Run(sys, limits, [op] + rest) == Run(Next(sys, limits, op), limits, rest)
  {
    assert ([op] + rest)[1..] == rest;
  }

  ghost predicate IdleAfter(sys: System, limits: Limits, s: SessionId, ops: seq<Op>) {
    var end := Run(sys, limits, ops); s in end.streams && end.streams[s].idle
  }

  /** A run of benign steps after which the stream is idle. */
  ghost predicate DrainsBy(sys: System, limits: Limits, s: SessionId, ops: seq<Op>) {
    (forall op :: op in ops ==> Benign(op, s)) && IdleAfter(sys, limits, s, ops)
  }

  ghost predicate CanDrain(sys: System, limits: Limits, s: SessionId) {
    exists ops :: DrainsBy(sys, limits, s, ops)
  }

  /**
   A stream that has left the registry can still become idle exactly when it is neither stranded nor
   committed, and a reader remains or there is room for the events its jobs in flight must still put.
   */
  lemma CanDrainIff(sys: System, limits: Limits, s: SessionId)
    requires Accounts(sys) && Fits(sys, limits) && s in sys.streams && s !in sys.registered
    ensures CanDrain(sys, limits, s) <==> !Stranded(sys, s) && !Committed(sys, limits, s) && Heard(sys, limits, s)
  {
    if Lost(sys, limits, s) || !Heard(sys, limits, s) {
      forall ops | forall op :: op in ops ==> Benign(op, s)
        ensures !DrainsBy(sys, limits, s, ops)
      {
        LostStaysBusy(sys, limits, ops, s, EmitRaises(sys, limits, s), sys.textQueue.closed);
      }
    } else {
      var ops := DrainableDrains(sys, limits, s);
      assert DrainsBy(sys, limits, s, ops);
    }
  }

  /** A run in which the broker and the coordinator may act as well. */
  ghost predicate BecomesIdleBy(sys: System, limits: Limits, s: SessionId, ops: seq<Op>) {
    (forall op :: op in ops ==> LeftAlone(op, s)) && IdleAfter(sys, limits, s, ops)
  }

  /** The broker evicts the session, and the coordinator closes its queues. */
  function GivenUp(sys: System, limits: Limits, s: SessionId): System {
    Next(Next(sys, limits, Evict(s)), limits, CloseQueues)
  }

  /**
   When the session may be evicted and the queues may close as well, a stream never becomes idle
   exactly when it is stranded, or blocked even by the need that is left after both.
   */
  lemma BecomesIdleIff(sys: System, limits: Limits, s: SessionId)
    requires Accounts(sys) && Fits(sys, limits) && s in sys.streams && s !in sys.registered
    ensures (exists ops :: BecomesIdleBy(sys, limits, s, ops))
            <==> !Stranded(sys, s) && !Blocked(sys, limits, s, limits.broker, true)
  {
    if Stranded(sys, s) || Blocked(sys, limits, s, limits.broker, true) {
      forall ops | forall op :: op in ops ==> LeftAlone(op, s)
        ensures !BecomesIdleBy(sys, limits, s, ops)
      {
        BlockedStaysBusy(sys, limits, ops, s);
      }
    } else {
      GivenUpIsDrainable(sys, limits, s);
      var rest := DrainableDrains(GivenUp(sys, limits, s), limits, s);
      RunOneMore(Next(sys, limits, Evict(s)), limits, CloseQueues, rest);
      RunOneMore(sys, limits, Evict(s), [CloseQueues] + rest);
      assert BecomesIdleBy(sys, limits, s, [Evict(s)] + ([CloseQueues] + rest));
    }
  }

  lemma GivenUpIsDrainable(sys: System, limits: Limits, s: SessionId)
    requires Accounts(sys) && s in sys.streams && s !in sys.registered
    requires !Stranded(sys, s) && !Blocked(sys, limits, s, limits.broker, true)
    ensures Drainable(GivenUp(sys, limits, s), limits, s) && Heard(GivenUp(sys, limits, s), limits, s)
  {
    var evicted := Next(sys, limits, Evict(s));
    NextKeepsAccounts(sys, limits, Evict(s));
    NextKeepsAccounts(evicted, limits, CloseQueues);
    assert Queued(GivenUp(sys, limits, s), s) == Queued(sys, s);
  }

  // ---------- what a caller sees when it closes ----------

  /** The close itself queues the utterance in progress. */
  predicate CloseQueuesFinal(sys: System, limits: Limits, s: SessionId, speech: Option<(UtteranceId, seq<nat>)>) {
    && speech.Some? && s in sys.streams && sys.streams[s].stop.Running?
    && !sys.asrQueue.closed && |sys.asrQueue.finals| < limits.finals
  }

  /** The close itself puts the warning that the final queue is full. */
  predicate CloseWarns(sys: System, limits: Limits, s: SessionId, speech: Option<(UtteranceId, seq<nat>)>) {
    && speech.Some? && s in sys.streams && sys.streams[s].stop.Running?
    && !sys.asrQueue.closed && |sys.asrQueue.finals| >= limits.finals
  }

  /** A stream after its client said something, in the parts that the workers and the event queue depend on. */
  predicate SaidAtMostOnce(st: Stream, st': Stream, limits: Limits, says: bool) {
    && st'.rows == st.rows && st'.latest == st.latest && st'.readers == st.readers && st'.dropped == st.dropped
    && st'.waiting == st.waiting + (if says && HasRoom(st, limits) then 1 else 0)
  }

  /** A final that the queue takes is one more job of its stream, and nothing else changes for the workers. */
  lemma FinalOfferedCounts(sys: System, limits: Limits, s: SessionId, u: UtteranceId, pcm: seq<nat>)
    requires s in sys.streams
    ensures var sys' := FinalOffered(sys, limits, s, u, pcm);
            && Queued(sys', s) == Queued(sys, s) + (if FinalOffer(sys, limits, s, u, pcm).Success? then 1 else 0)
            && s in sys'.streams && SaidAtMostOnce(sys.streams[s], sys'.streams[s], limits, !sys.asrQueue.closed)
            && sys' == sys.(asrQueue := sys'.asrQueue, streams := sys'.streams)
  {
    AsrPush(sys.asrQueue.finals, AsrJob(s, u, 1, Final, pcm));
    assert Queued(FinalQueued(sys, limits, s, u, pcm), s) == Queued(FinalOffered(sys, limits, s, u, pcm), s);
  }

  lemma StopBegunCounts(sys: System, limits: Limits, s: SessionId, speech: Option<(UtteranceId, seq<nat>)>)
    requires s in sys.streams
    ensures var sys', queues := StopBegun(sys, limits, s, speech), CloseQueuesFinal(sys, limits, s, speech);
            && Queued(sys', s) == Queued(sys, s) + (if queues then 1 else 0)
            && s in sys'.streams
            && SaidAtMostOnce(sys.streams[s], sys'.streams[s], limits, queues || CloseWarns(sys, limits, s, speech))
            && sys' == sys.(asrQueue := sys'.asrQueue, streams := sys'.streams)
  {
    if sys.streams[s].stop.Running? {
      var phase := if StopRaises(sys, limits, s, speech) then StopFailed else Stopping;
      var stopping := Put(sys, s, sys.streams[s].(stop := phase));
      assert Queued(stopping, s) == Queued(sys, s);
      if speech.Some? {
        FinalOfferedCounts(stopping, limits, s, speech.value.0, speech.value.1);
      }
    }
  }

  lemma CloseStrandsIff(sys: System, limits: Limits, s: SessionId, speech: Option<(UtteranceId, seq<nat>)>)
    requires Accounts(sys) && s in sys.registered
    ensures var sys', queues := Next(sys, limits, Close(s, speech)), CloseQueuesFinal(sys, limits, s, speech);
            && s in sys.streams && s in sys'.streams && s !in sys'.registered
            && (Stranded(sys', s) <==> Queued(sys, s) > 0 || queues)
            && (Committed(sys', limits, s) <==> Committed(sys, limits, s))
            && SaidAtMostOnce(sys.streams[s], sys'.streams[s], limits, queues || CloseWarns(sys, limits, s, speech))
            && sys' == sys.(registered := sys.registered - {s}, asrQueue := sys'.asrQueue, streams := sys'.streams)
  {
    assert Exact(sys, s);
    var gone := sys.(registered := sys.registered - {s});
    assert Queued(gone, s) == Queued(sys, s);
    StopBegunCounts(gone, limits, s, speech);
    assert Next(sys, limits, Close(s, speech)) == StopBegun(gone, limits, s, speech);
  }

  /** After the close, and the warning that it may put, a reader remains or what must still be put finds room. */
  predicate CloseIsHeard(sys: System, limits: Limits, s: SessionId, speech: Option<(UtteranceId, seq<nat>)>)
    requires s in sys.streams
  {
    var st, need := sys.streams[s], NeedOf(sys, s, EmitRaises(sys, limits, s), sys.textQueue.closed);
    || st.readers > 0 || need == 0
    || st.waiting + (if CloseWarns(sys, limits, s, speech) then 1 else 0) + need <= limits.events
  }

  /**
   `close_stream` leaves a stream that can become idle exactly when, at the close, none of its work
   waits in a queue, no utterance is in progress that the final queue takes, no accepted final
   is about to queue its correction, and the events of its jobs in flight are heard.
   */
  lemma ClosedStreamDrainsIff(sys: System, limits: Limits, s: SessionId, speech: Option<(UtteranceId, seq<nat>)>)
    requires Accounts(sys) && Fits(sys, limits) && s in sys.registered
    ensures s in sys.streams
    ensures CanDrain(Next(sys, limits, Close(s, speech)), limits, s)
            <==> && Queued(sys, s) == 0 && !CloseQueuesFinal(sys, limits, s, speech)
                 && !Committed(sys, limits, s) && CloseIsHeard(sys, limits, s, speech)
  {
    var sys' := Next(sys, limits, Close(s, speech));
    NextKeepsAccounts(sys, limits, Close(s, speech));
    NextFits(sys, limits, Close(s, speech));
    CloseStrandsIff(sys, limits, s, speech);
    CanDrainIff(sys', limits, s);
    SameNeed(sys, sys', s, EmitRaises(sys, limits, s), sys.textQueue.closed);
  }

  // ---------- jobs in flight at the close ----------

  /** The correction of a final in flight would be queued. */
  predicate WouldQueueCorrection(sys: System, limits: Limits, s: SessionId) {
    && sys.asr.Transcribing? && sys.asr.job.session == s && sys.asr.job.mode.Final? && s in sys.streams
    && !LedgerRefuses(sys.streams[s].rows, sys.asr.job.utterance) && !EmitRaises(sys, limits, s)
    && !sys.textQueue.closed && |sys.textQueue.corrections| < limits.texts
  }

  /** A final in flight at the close that comes back loses the stream exactly when its correction would be queued. */
  lemma FinalInFlightIsLostIff(sys: System, limits: Limits, s: SessionId, text: string)
    requires Drainable(sys, limits, s)
    requires sys.asr.Transcribing? && sys.asr.job.session == s && sys.asr.job.mode.Final?
    ensures Lost(Next(sys, limits, AsrResult(Some(text))), limits, s) <==> WouldQueueCorrection(sys, limits, s)
  {
    var sys' := Next(sys, limits, AsrResult(Some(text)));
    assert Queued(sys', s) == Queued(sys, s) && sys'.streams[s].dropped == sys.streams[s].dropped;
  }
}
