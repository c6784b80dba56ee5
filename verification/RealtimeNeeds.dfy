/** How many events the jobs in flight of a stream must put, at the least, before they are done. */
module RealtimeNeeds {
  import opened Wrappers
  import opened RealtimeQueue
  import opened RealtimeCoordinator
  import opened RealtimeAccounting
  import opened RealtimeResults
  import opened RealtimeEvents

  // ---------- what the ledger will do with a result ----------

  /** A text for this utterance opens a new row after a final one. */
  predicate AddsRow(rows: Ledger.Rows, id: UtteranceId) {
    rows != [] && Ledger.Last(rows).id != id && !LedgerRefuses(rows, id)
  }

  /** A revision of this utterance is accepted. */
  predicate RevisionLands(rows: Ledger.Rows, id: UtteranceId) {
    && rows != [] && Ledger.Last(rows).id == id && !Ledger.Last(rows).locked && Ledger.Last(rows).final
    && (|rows| > 1 ==> !rows[|rows| - 2].locked && rows[|rows| - 2].revisable)
  }

  lemma LedgerAnswers(rows: Ledger.Rows, id: UtteranceId, previousText: string, currentText: string)
    ensures Ledger.AcceptPartial(rows, id, currentText).Success? <==> !LedgerRefuses(rows, id)
    ensures Ledger.AcceptFinal(rows, id, currentText).Success? <==> !LedgerRefuses(rows, id)
    ensures Ledger.ApplyRevision(rows, id, previousText, currentText).Success? <==> RevisionLands(rows, id)
  {
  }

  /** A partial that adds a row leaves no revision that lands; any other keeps those that do. */
  lemma PartialKeepsLanding(rows: Ledger.Rows, id: UtteranceId, text: string, other: UtteranceId)
    ensures var rows' := Ledger.Step(rows, Ledger.PartialText(id, text));
            RevisionLands(rows', other) <==> RevisionLands(rows, other) && !AddsRow(rows, id)
  {
  }

  lemma FinalKeepsLanding(rows: Ledger.Rows, id: UtteranceId, text: string, other: UtteranceId)
    requires Ledger.AcceptFinal(rows, id, text).Success?
    ensures var rows' := Ledger.AcceptFinal(rows, id, text).value;
            RevisionLands(rows, other) ==> (RevisionLands(rows', other) <==> !AddsRow(rows, id))
  {
  }

  lemma RevisionKeepsPlaces(rows: Ledger.Rows, id: UtteranceId, previousText: string, currentText: string,
                            other: UtteranceId)
    requires Ledger.ApplyRevision(rows, id, previousText, currentText).Success?
    ensures var rows' := Ledger.ApplyRevision(rows, id, previousText, currentText).value;
            && (LedgerRefuses(rows', other) <==> LedgerRefuses(rows, other))
            && (AddsRow(rows', other) <==> AddsRow(rows, other))
  {
    var rows' := Ledger.ApplyRevision(rows, id, previousText, currentText).value;
    assert forall i :: 0 <= i < |rows| ==> rows'[i].id == rows[i].id;
    assert Ledger.IsNew(rows', other) <==> Ledger.IsNew(rows, other);
  }

  // ---------- the least number of events ----------

  /** A worker with events to tell puts the first of them, and the others unless the broker raises. */
  function Telling(events: nat, raises: bool): nat {
    if raises || events <= 1 then 1 else events
  }

  /** `raises` and `closed` say that the broker does not know the session, and that the text queue is closed. */
  function AsrNeed(asr: AsrWorker, st: Stream, raises: bool, closed: bool): nat {
    match asr
    case Transcribing(job) =>
      if LedgerRefuses(st.rows, job.utterance) || (job.mode.Partial? && !IsNewest(st, job)) then 0
      else if job.mode.Partial? then 1
      else Telling(2, raises)
    case AsrTelling(_, events) => Telling(events, raises)
    case FinalAccepted(_, _) => if raises then 1 else if closed then 2 else 4
    case FinalTold(_, _, _) => if closed then 1 else 1 + Telling(2, raises)
    case _ => 0
  }

  function TextNeed(text: TextWorker, rows: Ledger.Rows, raises: bool): nat {
    match text
    case Inferring(job) =>
      if job.mode.Correction? && RevisionLands(rows, job.utterance) then Telling(2, raises) else 0
    case TextNoting(_) => 1
    case TextTelling(_, events) => Telling(events, raises)
    case _ => 0
  }

  /** A result in flight may add a row at no extra cost, which makes every revision in flight stale. */
  predicate Supersedes(asr: AsrWorker, st: Stream, raises: bool, closed: bool) {
    && asr.Transcribing? && AddsRow(st.rows, asr.job.utterance)
    && (if asr.job.mode.Partial? then IsNewest(st, asr.job) else raises || closed)
  }

  function Need(asr: AsrWorker, text: TextWorker, st: Stream, s: SessionId, raises: bool, closed: bool): nat {
    (if AsrBusyWith(asr, s) then AsrNeed(asr, st, raises, closed) else 0)
    + (if !TextBusyWith(text, s) then 0
       else if AsrBusyWith(asr, s) && text.Inferring? && Supersedes(asr, st, raises, closed) then 0
       else TextNeed(text, st.rows, raises))
  }

  /** The need of a stream in this state of the system. */
  function NeedOf(sys: System, s: SessionId, raises: bool, closed: bool): nat
    requires s in sys.streams
  {
    Need(sys.asr, sys.text, sys.streams[s], s, raises, closed)
  }

  lemma SameNeed(sys: System, sys': System, s: SessionId, raises: bool, closed: bool)
    requires s in sys.streams && s in sys'.streams && sys'.asr == sys.asr && sys'.text == sys.text
    requires sys'.streams[s].rows == sys.streams[s].rows && sys'.streams[s].latest == sys.streams[s].latest
    ensures NeedOf(sys', s, raises, closed) == NeedOf(sys, s, raises, closed)
  {
  }

  // ---------- no step gets below it ----------

  /** `raises` and `closed` hold at least when they do in this state. */
  predicate Covers(sys: System, limits: Limits, s: SessionId, raises: bool, closed: bool) {
    (EmitRaises(sys, limits, s) ==> raises) && (sys.textQueue.closed ==> closed)
  }

  /** What waits in the event queue and what must still be put do not get fewer together. */
  ghost predicate NeedsNoLess(sys: System, sys': System, s: SessionId, raises: bool, closed: bool)
    requires s in sys.streams
  {
    && s in sys'.streams
    && sys'.streams[s].waiting + NeedOf(sys', s, raises, closed)
       >= sys.streams[s].waiting + NeedOf(sys, s, raises, closed)
  }

  lemma AsrResultNeeds(sys: System, result: Option<string>, s: SessionId, raises: bool, closed: bool)
    requires s in sys.streams && sys.asr.Transcribing? && sys.asr.job.session == s
    ensures NeedsNoLess(sys, AsrResultAccepted(sys, sys.asr.job, result), s, raises, closed)
  {
    var job, st := sys.asr.job, sys.streams[s];
    if result.Some? {
      LedgerAnswers(st.rows, job.utterance, "", result.value);
      if sys.text.Inferring? {
        PartialKeepsLanding(st.rows, job.utterance, result.value, sys.text.job.utterance);
        if !LedgerRefuses(st.rows, job.utterance) {
          FinalKeepsLanding(st.rows, job.utterance, result.value, sys.text.job.utterance);
        }
      }
    }
  }

  lemma AsrToldNeeds(sys: System, limits: Limits, s: SessionId, raises: bool, closed: bool)
    requires s in sys.streams && Covers(sys, limits, s, raises, closed)
    requires (sys.asr.AsrTelling? || sys.asr.FinalAccepted?) && sys.asr.job.session == s
    ensures NeedsNoLess(sys, AsrTold(EventPut(sys, s), limits), s, raises, closed)
  {
  }

  /** Queueing the announced correction, unless it finds a place in the queue. */
  lemma CorrectionQueuedNeeds(sys: System, limits: Limits, s: SessionId, raises: bool, closed: bool)
    requires s in sys.streams && Covers(sys, limits, s, raises, closed)
    requires sys.asr.FinalTold? && sys.asr.job.session == s
    requires sys.textQueue.closed || |sys.textQueue.corrections| >= limits.texts
    ensures NeedsNoLess(sys, CorrectionQueued(EventPut(sys, s), limits), s, raises, closed)
  {
  }

  lemma RevisionAnsweredNeeds(sys: System, outcome: TextOutcome, s: SessionId, raises: bool, closed: bool)
    requires s in sys.streams && sys.text.Inferring? && sys.text.job.session == s && sys.text.job.mode.Correction?
    ensures NeedsNoLess(sys, RevisionAnswered(sys, sys.text.job, outcome), s, raises, closed)
  {
    var job, st := sys.text.job, sys.streams[s];
    if outcome.Revised? {
      LedgerAnswers(st.rows, job.utterance, outcome.previousText, outcome.currentText);
      if sys.asr.Transcribing? && RevisionLands(st.rows, job.utterance) {
        RevisionKeepsPlaces(st.rows, job.utterance, outcome.previousText, outcome.currentText, sys.asr.job.utterance);
      }
    }
  }

  lemma EndpointAnsweredNeeds(sys: System, limits: Limits, outcome: TextOutcome, s: SessionId, raises: bool,
                              closed: bool)
    requires s in sys.streams && sys.text.Inferring? && sys.text.job.session == s && sys.text.job.mode.Endpoint?
    ensures NeedsNoLess(sys, EndpointAnswered(sys, limits, sys.text.job, outcome), s, raises, closed)
  {
  }

  lemma TextToldNeeds(sys: System, limits: Limits, s: SessionId, raises: bool, closed: bool)
    requires s in sys.streams && Covers(sys, limits, s, raises, closed)
    requires TextTells(sys.text) && sys.text.job.session == s
    ensures NeedsNoLess(sys, TextTold(EventPut(sys, s), limits), s, raises, closed)
  {
  }

  /** A step at work on another stream, or between two jobs, leaves this one's events and rows alone. */
  ghost predicate ElsewhereOnly(sys: System, sys': System, s: SessionId)
    requires s in sys.streams
  {
    && s in sys'.streams && sys'.streams[s].waiting == sys.streams[s].waiting
    && sys'.streams[s].rows == sys.streams[s].rows && sys'.streams[s].latest == sys.streams[s].latest
    && (sys'.asr == sys.asr || !AsrBusyWith(sys.asr, s)) && (AsrBusyWith(sys'.asr, s) ==> sys'.asr == sys.asr)
    && (sys'.text == sys.text || !TextBusyWith(sys.text, s)) && (TextBusyWith(sys'.text, s) ==> sys'.text == sys.text)
  }

  lemma ElsewhereNeeds(sys: System, sys': System, s: SessionId, raises: bool, closed: bool)
    requires s in sys.streams && ElsewhereOnly(sys, sys', s)
    ensures NeedsNoLess(sys, sys', s, raises, closed)
  {
  }

  lemma AsrStepNeeds(sys: System, limits: Limits, op: Op, s: SessionId, raises: bool, closed: bool)
    requires s in sys.streams && s !in sys.registered && Covers(sys, limits, s, raises, closed) && IsAsrOp(op)
    requires !(op.QueueCorrection? && CorrectionFits(sys, limits, s))
    ensures NeedsNoLess(sys, Next(sys, limits, op), s, raises, closed)
  {
    var sys' := Next(sys, limits, op);
    if !AsrBusyWith(sys.asr, s) {
      AsrElsewhere(sys, limits, op, s);
      ElsewhereNeeds(sys, sys', s, raises, closed);
    } else {
      match op
      case TakeAsr =>
      case AsrResult(result) =>
        if sys.asr.Transcribing? {
          AsrResultNeeds(sys, result, s, raises, closed);
        }
      case AsrTell =>
        if AsrMayTell(sys, limits) && !sys.asr.FinalTold? {
          AsrToldNeeds(sys, limits, s, raises, closed);
        }
      case QueueCorrection =>
        if AsrMayTell(sys, limits) && sys.asr.FinalTold? {
          CorrectionQueuedNeeds(sys, limits, s, raises, closed);
        }
      case AsrDone =>
    }
  }

  /** The announced correction of this stream is next, and the text queue takes it. */
  predicate CorrectionFits(sys: System, limits: Limits, s: SessionId) {
    && sys.asr.FinalTold? && sys.asr.job.session == s
    && !sys.textQueue.closed && |sys.textQueue.corrections| < limits.texts
  }

  lemma AsrElsewhere(sys: System, limits: Limits, op: Op, s: SessionId)
    requires s in sys.streams && s !in sys.registered && !AsrBusyWith(sys.asr, s) && IsAsrOp(op)
    ensures ElsewhereOnly(sys, Next(sys, limits, op), s)
  {
    AsrStepStops(sys, limits, op);
    match op
    case TakeAsr =>
    case AsrResult(_) =>
    case AsrTell =>
    case QueueCorrection =>
    case AsrDone =>
  }

  lemma TextStepNeeds(sys: System, limits: Limits, op: Op, s: SessionId, raises: bool, closed: bool)
    requires s in sys.streams && s !in sys.registered && Covers(sys, limits, s, raises, closed) && IsTextOp(op)
    ensures NeedsNoLess(sys, Next(sys, limits, op), s, raises, closed)
  {
    var sys' := Next(sys, limits, op);
    if !TextBusyWith(sys.text, s) {
      TextElsewhere(sys, limits, op, s);
      ElsewhereNeeds(sys, sys', s, raises, closed);
    } else {
      match op
      case TakeText =>
      case TextResult(outcome) =>
        if sys.text.Inferring? {
          if sys.text.job.mode.Endpoint? {
            EndpointAnsweredNeeds(sys, limits, outcome, s, raises, closed);
          } else {
            RevisionAnsweredNeeds(sys, outcome, s, raises, closed);
          }
        }
      case TextTell =>
        if TextMayTell(sys, limits) {
          TextToldNeeds(sys, limits, s, raises, closed);
        }
      case TextDone =>
    }
  }

  lemma TextElsewhere(sys: System, limits: Limits, op: Op, s: SessionId)
    requires s in sys.streams && s !in sys.registered && !TextBusyWith(sys.text, s) && IsTextOp(op)
    ensures ElsewhereOnly(sys, Next(sys, limits, op), s)
  {
    TextStepStops(sys, limits, op);
    match op
    case TakeText =>
    case TextResult(_) =>
    case TextTell =>
    case TextDone =>
  }

  /** No client of the stream does anything, and its stop neither begins nor ends. */
  predicate LeftAlone(op: Op, s: SessionId) {
    !((IsClientOp(op) || op.Stop? || op.FinalizeLedger? || op.Restart?) && op.session == s)
  }

  lemma OtherStepIsElsewhere(sys: System, limits: Limits, op: Op, s: SessionId)
    requires s in sys.streams && s !in sys.registered && LeftAlone(op, s)
    requires IsClientOp(op) || IsLifeOp(op)
    ensures ElsewhereOnly(sys, Next(sys, limits, op), s)
  {
    OthersLeaveWorkers(sys, limits, op);
    match op
    case QueuePartial(_, _, _) =>
    case QueueFinal(_, _, _) =>
    case QueueEndpoint(_, _) =>
    case Stop(_, _) =>
    case Close(_, _) =>
    case _ =>
  }

  lemma EventStepNeeds(sys: System, limits: Limits, op: Op, s: SessionId, raises: bool, closed: bool)
    requires s in sys.streams && s !in sys.registered && sys.streams[s].readers == 0 && IsEventOp(op)
    ensures NeedsNoLess(sys, Next(sys, limits, op), s, raises, closed)
  {
    var sys' := Next(sys, limits, op);
    if op.session in sys.streams {
      var st := sys.streams[op.session];
      assert sys' == Put(sys, op.session, EventStep(st, limits, op.session in sys.registered, op));
    }
    SameNeed(sys, sys', s, raises, closed);
  }

  /** A stream that nobody reads any more does not get below its need, whatever others do. */
  lemma NextNeeds(sys: System, limits: Limits, op: Op, s: SessionId, raises: bool, closed: bool)
    requires s in sys.streams && s !in sys.registered && sys.streams[s].readers == 0
    requires Covers(sys, limits, s, raises, closed) && LeftAlone(op, s)
    requires !(op.QueueCorrection? && CorrectionFits(sys, limits, s))
    ensures NeedsNoLess(sys, Next(sys, limits, op), s, raises, closed)
  {
    if IsAsrOp(op) {
      AsrStepNeeds(sys, limits, op, s, raises, closed);
    } else if IsTextOp(op) {
      TextStepNeeds(sys, limits, op, s, raises, closed);
    } else if IsEventOp(op) {
      EventStepNeeds(sys, limits, op, s, raises, closed);
    } else {
      OtherStepIsElsewhere(sys, limits, op, s);
      ElsewhereNeeds(sys, Next(sys, limits, op), s, raises, closed);
    }
  }
}
