/** What the accounting buys: no idle before a correction, and exactly when a worker loop ends. */
module RealtimeResults {
  import opened Wrappers
  import opened RealtimeQueue
  import opened RealtimeCoordinator
  import opened RealtimeAccounting

  /** Every run from the start keeps the accounts. */
  lemma PendingIsExact(limits: Limits, ops: seq<Op>)
    ensures Accounts(Run(START, limits, ops))
  {
    RunKeepsAccounts(START, limits, ops);
  }

  /** When a registered stream is idle, nothing of it is queued or in flight. */
  lemma IdleMeansDrained(limits: Limits, ops: seq<Op>, s: SessionId)
    ensures var sys := Run(START, limits, ops);
            s in sys.streams && s in sys.registered ==>
              (sys.streams[s].idle <==> Queued(sys, s) == 0 && InFlight(sys, s) == 0)
  {
    PendingIsExact(limits, ops);
    var sys := Run(START, limits, ops);
    if s in sys.streams {
      assert Exact(sys, s);
    }
  }

  // ---------- no idle between a final result and its correction ----------

  predicate IsCorrectionOf(job: TextJob, s: SessionId, u: UtteranceId) {
    job.session == s && job.utterance == u && job.mode.Correction?
  }

  /** The recognition worker has accepted this final and has its correction to queue. */
  predicate AsrHolds(asr: AsrWorker, s: SessionId, u: UtteranceId) {
    (asr.FinalAccepted? || asr.FinalTold?) && asr.job.session == s && asr.job.utterance == u
  }

  /** The text worker is at this correction. */
  predicate TextHolds(text: TextWorker, s: SessionId, u: UtteranceId) {
    (text.Inferring? || text.TextTelling? || text.TextSettled?) && IsCorrectionOf(text.job, s, u)
  }

  ghost predicate Waits(q: TextQueue, s: SessionId, u: UtteranceId) {
    exists i :: 0 <= i < |q.corrections| && IsCorrectionOf(q.corrections[i], s, u)
  }

  /** The final text has been accepted and its correction is still to be made. */
  ghost predicate InHand(sys: System, s: SessionId, u: UtteranceId) {
    AsrHolds(sys.asr, s, u) || Waits(sys.textQueue, s, u) || TextHolds(sys.text, s, u)
  }

  lemma InHandIsNotIdle(sys: System, s: SessionId, u: UtteranceId)
    requires Accounts(sys) && InHand(sys, s, u)
    ensures s in sys.streams && !sys.streams[s].idle
  {
    if i :| 0 <= i < |sys.textQueue.corrections| && IsCorrectionOf(sys.textQueue.corrections[i], s, u) {
      assert TextSessions(sys.textQueue.corrections)[i] == s;
      assert s in TextSessions(sys.textQueue.corrections);
      assert Queued(sys, s) > 0;
    } else {
      assert InFlight(sys, s) > 0;
    }
    assert Exact(sys, s);
  }

  /**
   The ways a correction leaves: made; refused by a full or closed queue; skipped as
   unregistered; or lost because the broker no longer knows the session. A worker that
   still has an event to put needs room for it.
   */
  predicate Releases(sys: System, limits: Limits, op: Op, s: SessionId, u: UtteranceId) {
    match op
    case TextDone => sys.text.TextSettled? && TextHolds(sys.text, s, u)
    case TextTell =>
      TextMayTell(sys, limits) && sys.text.TextTelling? && TextHolds(sys.text, s, u) && EmitRaises(sys, limits, s)
    case AsrTell =>
      AsrMayTell(sys, limits) && sys.asr.FinalAccepted? && AsrHolds(sys.asr, s, u) && EmitRaises(sys, limits, s)
    case QueueCorrection =>
      AsrMayTell(sys, limits) && sys.asr.FinalTold? && AsrHolds(sys.asr, s, u)
      && (sys.textQueue.closed || |sys.textQueue.corrections| >= limits.texts)
    case TakeText => s !in sys.registered
    case _ => false
  }

  /** A step leaves this correction where it is, or moves it on. */
  ghost predicate Holds(sys: System, sys': System, s: SessionId, u: UtteranceId) {
    && (AsrHolds(sys.asr, s, u) ==> AsrHolds(sys'.asr, s, u) || Waits(sys'.textQueue, s, u))
    && (Waits(sys.textQueue, s, u) ==> Waits(sys'.textQueue, s, u) || TextHolds(sys'.text, s, u))
    && (TextHolds(sys.text, s, u) ==> TextHolds(sys'.text, s, u))
  }

  lemma AsrStepHolds(sys: System, limits: Limits, op: Op, s: SessionId, u: UtteranceId)
    requires op.AsrResult? || op.AsrTell? || op.AsrDone? || op.TakeAsr?
    requires !Releases(sys, limits, op, s, u)
    ensures Holds(sys, Next(sys, limits, op), s, u)
  {
    match op
    case AsrResult(result) =>
    case AsrTell =>
    case AsrDone =>
    case TakeAsr =>
  }

  lemma QueueCorrectionHolds(sys: System, limits: Limits, s: SessionId, u: UtteranceId)
    requires !Releases(sys, limits, QueueCorrection, s, u)
    ensures Holds(sys, Next(sys, limits, QueueCorrection), s, u)
  {
    if AsrMayTell(sys, limits) && sys.asr.FinalTold? {
      var sys' := CorrectionQueued(EventPut(sys, sys.asr.job.session), limits);
      var before, after := sys.textQueue.corrections, sys'.textQueue.corrections;
      assert sys'.text == sys.text;
      assert after == before || (|after| == |before| + 1 && after[..|before|] == before);
      if AsrHolds(sys.asr, s, u) {
        assert IsCorrectionOf(after[|before|], s, u);
      }
      if i :| 0 <= i < |before| && IsCorrectionOf(before[i], s, u) {
        assert after[i] == before[i];
      }
    }
  }

  lemma TakeTextHolds(sys: System, limits: Limits, s: SessionId, u: UtteranceId)
    requires s in sys.registered
    ensures Holds(sys, Next(sys, limits, TakeText), s, u)
  {
    var before := sys.textQueue.corrections;
    if i :| 0 <= i < |before| && IsCorrectionOf(before[i], s, u) {
      if i > 0 {
        assert before[1..][i - 1] == before[i];
      }
    }
  }

  lemma TextStepHolds(sys: System, limits: Limits, op: Op, s: SessionId, u: UtteranceId)
    requires op.TextResult? || op.TextTell? || op.TextDone?
    requires !Releases(sys, limits, op, s, u)
    ensures Holds(sys, Next(sys, limits, op), s, u)
  {
    match op
    case TextResult(outcome) =>
    case TextTell =>
    case TextDone =>
  }

  /** Nobody else touches the correction lane, the text worker or an accepted final. */
  lemma OtherStepHolds(sys: System, limits: Limits, op: Op, s: SessionId, u: UtteranceId)
    requires IsClientOp(op) || IsLifeOp(op) || IsEventOp(op)
    ensures Holds(sys, Next(sys, limits, op), s, u)
  {
    var sys' := Next(sys, limits, op);
    assert sys'.textQueue.corrections == sys.textQueue.corrections && sys'.text == sys.text && sys'.asr == sys.asr;
  }

  lemma CorrectionStays(sys: System, limits: Limits, op: Op, s: SessionId, u: UtteranceId)
    requires InHand(sys, s, u) && !Releases(sys, limits, op, s, u)
    ensures InHand(Next(sys, limits, op), s, u)
  {
    if IsClientOp(op) || IsLifeOp(op) || IsEventOp(op) {
      OtherStepHolds(sys, limits, op, s, u);
    } else if op.QueueCorrection? {
      QueueCorrectionHolds(sys, limits, s, u);
    } else if op.TakeText? {
      TakeTextHolds(sys, limits, s, u);
    } else if IsAsrOp(op) {
      AsrStepHolds(sys, limits, op, s, u);
    } else {
      TextStepHolds(sys, limits, op, s, u);
    }
  }

  /** Along this run the correction is never released. */
  ghost predicate HeldThroughout(sys: System, limits: Limits, ops: seq<Op>, s: SessionId, u: UtteranceId)
    decreases |ops|
  {
    ops == [] || (!Releases(sys, limits, ops[0], s, u)
      && HeldThroughout(Next(sys, limits, ops[0]), limits, ops[1..], s, u))
  }

  /** From a final's acceptance until its correction leaves, the stream is never idle. */
  lemma {:induction false} NeverIdleBeforeCorrection(sys: System, limits: Limits, ops: seq<Op>, s: SessionId,
                                                     u: UtteranceId)
    requires Accounts(sys) && InHand(sys, s, u) && HeldThroughout(sys, limits, ops, s, u)
    ensures var end := Run(sys, limits, ops);
            InHand(end, s, u) && s in end.streams && !end.streams[s].idle
    decreases |ops|
  {
    InHandIsNotIdle(sys, s, u);
    if ops != [] {
      CorrectionStays(sys, limits, ops[0], s, u);
      NextKeepsAccounts(sys, limits, ops[0]);
      NeverIdleBeforeCorrection(Next(sys, limits, ops[0]), limits, ops[1..], s, u);
    }
  }

  /** A successful final result takes the correction in hand, and the stream was not idle before it. */
  lemma FinalResultIsInHand(sys: System, limits: Limits, text: string)
    requires Accounts(sys) && sys.asr.Transcribing? && sys.asr.job.mode.Final?
    ensures var s, sys' := sys.asr.job.session, Next(sys, limits, AsrResult(Some(text)));
            && s in sys.streams && !sys.streams[s].idle
            && (sys'.asr.AsrStopped? || InHand(sys', s, sys.asr.job.utterance))
  {
    ClampNeverActs(sys, sys.asr.job.session);
    assert Exact(sys, sys.asr.job.session);
  }

  // ---------- when a worker loop ends ----------

  /** The ledger has no place for a final of this utterance. */
  predicate LedgerRefuses(rows: Ledger.Rows, id: UtteranceId) {
    && rows != []
    && !(Ledger.Last(rows).id == id && !Ledger.Last(rows).locked)
    && !(Ledger.Last(rows).final && Ledger.IsNew(rows, id))
  }

  /** The steps of a recognition worker that nobody interrupts, from a result to the settled job. */
  function UndisturbedJob(result: Option<string>): seq<Op> {
    [AsrResult(result), AsrTell, QueueCorrection, AsrTell, AsrTell]
  }

  lemma FiveSteps(sys: System, limits: Limits, a: Op, b: Op, c: Op, d: Op, e: Op)
    ensures Run(sys, limits, [a, b, c, d, e])
            == Next(Next(Next(Next(Next(sys, limits, a), limits, b), limits, c), limits, d), limits, e)
  {
    var all := [a, b, c, d, e];
    assert all[1..] == [b, c, d, e] && [b, c, d, e][1..] == [c, d, e];
    assert [c, d, e][1..] == [d, e] && [d, e][1..] == [e] && [e][1..] == [];
    var one := Next(sys, limits, a);
    var two := Next(one, limits, b);
    var three := Next(two, limits, c);
    var four := Next(three, limits, d);
    assert Run(four, limits, [e]) == Next(four, limits, e);
    assert Run(three, limits, [d, e]) == Run(four, limits, [e]);
    assert Run(two, limits, [c, d, e]) == Run(three, limits, [d, e]);
    assert Run(one, limits, [b, c, d, e]) == Run(two, limits, [c, d, e]);
  }

  /** At least `n` more events fit the stream's queue. */
  predicate Room(sys: System, limits: Limits, s: SessionId, n: nat) {
    s in sys.streams && sys.streams[s].waiting + n <= limits.events
  }

  /** Telling ends the loop exactly when there is room for the first event and the broker does not know the session. */
  lemma TellingStopsIff(sys: System, limits: Limits)
    requires sys.asr.AsrTelling? && sys.asr.job.session in sys.streams
    ensures var told := Next(sys, limits, AsrTell);
            && (told.asr.AsrStopped?
                <==> EmitRaises(sys, limits, sys.asr.job.session) && Room(sys, limits, sys.asr.job.session, 1))
            && (Next(told, limits, AsrTell).asr.AsrStopped? <==> told.asr.AsrStopped?)
            && Next(sys, limits, QueueCorrection) == sys
            && (told.asr.AsrStopped? || told.asr.AsrTelling? || told.asr.AsrSettled?)
  {
  }

  /**
   A final transcription that comes back to a worker nobody interrupts ends the recognition loop
   exactly when the ledger refuses it, or the broker no longer knows its session, or the text queue is
   closed; in the last two cases the event queue must take the events before that, or the loop waits.
   */
  lemma FinalResultStopsTheLoop(sys: System, limits: Limits, text: string)
    requires Accounts(sys) && sys.asr.Transcribing? && sys.asr.job.mode.Final?
    ensures var job := sys.asr.job;
            && job.session in sys.streams
            && (Run(sys, limits, UndisturbedJob(Some(text))).asr.AsrStopped?
                <==> || LedgerRefuses(sys.streams[job.session].rows, job.utterance)
                     || (EmitRaises(sys, limits, job.session) && Room(sys, limits, job.session, 1))
                     || (sys.textQueue.closed && Room(sys, limits, job.session, 2)))
  {
    var job := sys.asr.job;
    var s := job.session;
    ClampNeverActs(sys, s);
    var heard := AsrResultAccepted(sys, job, Some(text));
    FiveSteps(sys, limits, AsrResult(Some(text)), AsrTell, QueueCorrection, AsrTell, AsrTell);
    assert heard == Next(sys, limits, AsrResult(Some(text)));
    if LedgerRefuses(sys.streams[s].rows, job.utterance) {
      StoppedStays(heard, limits, AsrTell, QueueCorrection, AsrTell, AsrTell);
    } else {
      assert heard.asr.FinalAccepted? && heard.streams[s].waiting == sys.streams[s].waiting;
      AfterFinalAccepted(heard, limits);
    }
  }

  lemma AfterFinalAccepted(sys: System, limits: Limits)
    requires sys.asr.FinalAccepted? && sys.asr.job.session in sys.streams
    ensures var s, told := sys.asr.job.session, Next(sys, limits, AsrTell);
            Next(Next(Next(told, limits, QueueCorrection), limits, AsrTell), limits, AsrTell).asr.AsrStopped?
            <==> || (EmitRaises(sys, limits, s) && Room(sys, limits, s, 1))
                 || (sys.textQueue.closed && Room(sys, limits, s, 2))
  {
    var s, told := sys.asr.job.session, Next(sys, limits, AsrTell);
    if !Room(sys, limits, s, 1) {
      assert told == sys && Next(sys, limits, QueueCorrection) == sys;
    } else if EmitRaises(sys, limits, s) {
      assert told.asr.AsrStopped?;
      StoppedStays(told, limits, QueueCorrection, AsrTell, AsrTell, AsrTell);
    } else {
      assert told.asr.FinalTold? && told.textQueue == sys.textQueue && told.known == sys.known;
      assert told.streams[s].waiting == sys.streams[s].waiting + 1;
      AfterFinalTold(told, limits);
    }
  }

  /** From a told final on, only a closed text queue can end the loop; a full one is reported. */
  lemma AfterFinalTold(sys: System, limits: Limits)
    requires sys.asr.FinalTold? && sys.asr.job.session in sys.streams && !EmitRaises(sys, limits, sys.asr.job.session)
    ensures var queued := Next(sys, limits, QueueCorrection);
            Next(Next(queued, limits, AsrTell), limits, AsrTell).asr.AsrStopped?
            <==> sys.textQueue.closed && Room(sys, limits, sys.asr.job.session, 1)
  {
    var queued := Next(sys, limits, QueueCorrection);
    if !Room(sys, limits, sys.asr.job.session, 1) {
      assert queued == sys && Next(sys, limits, AsrTell) == sys;
    } else if sys.textQueue.closed {
      assert queued.asr.AsrStopped?;
      StoppedStays(queued, limits, AsrTell, AsrTell, AsrTell, AsrTell);
    } else if queued.asr.AsrTelling? {
      TellingStopsIff(queued, limits);
    } else {
      assert queued.asr.AsrSettled?;
      assert Next(queued, limits, AsrTell) == queued;
    }
  }

  lemma StoppedStays(sys: System, limits: Limits, a: Op, b: Op, c: Op, d: Op)
    requires sys.asr.AsrStopped?
    ensures Next(Next(sys, limits, a), limits, b).asr.AsrStopped?
    ensures Next(Next(Next(sys, limits, a), limits, b), limits, c).asr.AsrStopped?
    ensures Next(Next(Next(Next(sys, limits, a), limits, b), limits, c), limits, d).asr.AsrStopped?
  {
    StoppedStep(sys, limits, a);
    StoppedStep(Next(sys, limits, a), limits, b);
    StoppedStep(Next(Next(sys, limits, a), limits, b), limits, c);
    StoppedStep(Next(Next(Next(sys, limits, a), limits, b), limits, c), limits, d);
  }

  lemma StoppedStep(sys: System, limits: Limits, op: Op)
    ensures sys.asr.AsrStopped? ==> Next(sys, limits, op).asr.AsrStopped?
    ensures sys.text.TextStopped? ==> Next(sys, limits, op).text.TextStopped?
  {
    LoopsStopExactly(sys, limits, op);
  }

  /**
   A failed transcription ends the loop exactly when the broker no longer knows its session, once the
   event queue takes the warning.
   */
  lemma FailedResultStopsTheLoop(sys: System, limits: Limits)
    requires Accounts(sys) && sys.asr.Transcribing?
    ensures sys.asr.job.session in sys.streams
    ensures Run(sys, limits, UndisturbedJob(None)).asr.AsrStopped?
            <==> EmitRaises(sys, limits, sys.asr.job.session) && Room(sys, limits, sys.asr.job.session, 1)
  {
    var s := sys.asr.job.session;
    ClampNeverActs(sys, s);
    FiveSteps(sys, limits, AsrResult(None), AsrTell, QueueCorrection, AsrTell, AsrTell);
    var heard := Next(sys, limits, AsrResult(None));
    assert heard == sys.(asr := AsrTelling(sys.asr.job, if sys.asr.job.mode.Final? then 2 else 1));
    AfterFailure(heard, limits);
  }

  /** Telling what is left of a failure ends the loop at its first event or not at all. */
  lemma AfterFailure(heard: System, limits: Limits)
    requires heard.asr.AsrTelling? && heard.asr.job.session in heard.streams
    ensures var s, told := heard.asr.job.session, Next(heard, limits, AsrTell);
            Next(Next(Next(told, limits, QueueCorrection), limits, AsrTell), limits, AsrTell).asr.AsrStopped?
            <==> EmitRaises(heard, limits, s) && Room(heard, limits, s, 1)
  {
    var s := heard.asr.job.session;
    TellingStopsIff(heard, limits);
    var told := Next(heard, limits, AsrTell);
    if told.asr.AsrStopped? {
      StoppedStays(told, limits, QueueCorrection, AsrTell, AsrTell, AsrTell);
    } else if told.asr.AsrTelling? {
      TellingStopsIff(told, limits);
      assert EmitRaises(told, limits, s) ==> told == heard;
    } else {
      assert Next(told, limits, QueueCorrection) == told && Next(told, limits, AsrTell) == told;
    }
  }

  /** The steps at which the recognition loop raises. */
  predicate AsrRaises(sys: System, limits: Limits, op: Op) {
    match op
    case AsrResult(Some(text)) =>
      && sys.asr.Transcribing? && sys.asr.job.session in sys.streams && sys.asr.job.mode.Final?
      && LedgerRefuses(sys.streams[sys.asr.job.session].rows, sys.asr.job.utterance)
    case AsrTell =>
      && AsrMayTell(sys, limits) && !sys.asr.FinalTold? && EmitRaises(sys, limits, sys.asr.job.session)
    case QueueCorrection => AsrMayTell(sys, limits) && sys.asr.FinalTold? && sys.textQueue.closed
    case _ => false
  }

  predicate TextRaises(sys: System, limits: Limits, op: Op) {
    match op
    case TextResult(Completes(_, _)) =>
      && sys.text.Inferring? && sys.text.job.session in sys.streams
      && sys.text.job.mode.Endpoint? && !Blank(sys.text.job.currentText)
      && sys.asrQueue.closed
    case TextTell =>
      && TextMayTell(sys, limits) && sys.text.TextTelling? && EmitRaises(sys, limits, sys.text.job.session)
    case _ => false
  }

  /** The ordinary end of a loop: it asks for work, and its queue is closed and drained. */
  predicate AsrReturns(sys: System, op: Op) {
    && op.TakeAsr? && sys.asr.AsrWaiting?
    && sys.asrQueue.closed && sys.asrQueue.finals == [] && sys.asrQueue.partials == []
  }

  predicate TextReturns(sys: System, op: Op) {
    && op.TakeText? && sys.text.TextWaiting?
    && sys.textQueue.closed && sys.textQueue.endpoints == [] && sys.textQueue.corrections == []
  }

  /** The loops end where they raise or return, and at no other step, whatever else happens in between. */
  lemma LoopsStopExactly(sys: System, limits: Limits, op: Op)
    ensures Next(sys, limits, op).asr.AsrStopped?
            <==> sys.asr.AsrStopped? || AsrRaises(sys, limits, op) || AsrReturns(sys, op)
    ensures Next(sys, limits, op).text.TextStopped?
            <==> sys.text.TextStopped? || TextRaises(sys, limits, op) || TextReturns(sys, op)
  {
    if IsClientOp(op) || IsLifeOp(op) || IsEventOp(op) {
      var sys' := Next(sys, limits, op);
      assert sys'.asr == sys.asr && sys'.text == sys.text;
    } else if IsAsrOp(op) {
      AsrStepStops(sys, limits, op);
    } else {
      TextStepStops(sys, limits, op);
    }
  }

  lemma AsrStepStops(sys: System, limits: Limits, op: Op)
    requires IsAsrOp(op)
    ensures Next(sys, limits, op).text == sys.text
    ensures Next(sys, limits, op).asr.AsrStopped?
            <==> sys.asr.AsrStopped? || AsrRaises(sys, limits, op) || AsrReturns(sys, op)
  {
    match op
    case TakeAsr =>
    case AsrResult(result) =>
    case AsrTell =>
    case QueueCorrection =>
    case AsrDone =>
  }

  lemma TextStepStops(sys: System, limits: Limits, op: Op)
    requires IsTextOp(op)
    ensures Next(sys, limits, op).asr == sys.asr
    ensures Next(sys, limits, op).text.TextStopped?
            <==> sys.text.TextStopped? || TextRaises(sys, limits, op) || TextReturns(sys, op)
  {
    match op
    case TakeText =>
    case TextResult(outcome) =>
    case TextTell =>
    case TextDone =>
  }

  /** Nothing restarts a loop that ended. */
  lemma {:induction false} StoppedLoopStaysStopped(sys: System, limits: Limits, ops: seq<Op>)
    ensures sys.asr.AsrStopped? ==> Run(sys, limits, ops).asr.AsrStopped?
    ensures sys.text.TextStopped? ==> Run(sys, limits, ops).text.TextStopped?
    decreases |ops|
  {
    if ops != [] {
      StoppedStep(sys, limits, ops[0]);
      StoppedLoopStaysStopped(Next(sys, limits, ops[0]), limits, ops[1..]);
    }
  }
}
