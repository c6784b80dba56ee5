/** Where the text of a transcript row comes from, when corrections go through the guard. */
module RealtimeTexts {
  import opened Wrappers
  import opened RealtimeQueue
  import opened RealtimeCoordinator
  import opened RealtimeAccounting
  import opened TextGuard

  // ---------- origins ----------

  /** A text was heard, or is one half of a guarded rewrite of two texts it was asked about. */
  datatype Origin =
    | Heard
    | Nothing
    | FirstOf(previous: Origin, p: string, c: string, r: Revision)
    | SecondOf(previous: Origin, p: string, c: string, r: Revision)

  /** The pair asked about is a text with an origin, or nothing, and a text that was heard. */
  ghost predicate Derives(g: LlamaCppTextProvider, heard: set<string>, o: Origin, text: string) {
    match o
    case Heard => text in heard
    case Nothing => text == ""
    case FirstOf(previous, p, c, r) =>
      Derives(g, heard, previous, p) && c in heard && g.Guarded(p, c, r) && text == r.previousText
    case SecondOf(previous, p, c, r) =>
      Derives(g, heard, previous, p) && c in heard && g.Guarded(p, c, r) && text == r.currentText
  }

  /** Recognised, or a guarded rewrite of texts that are themselves accounted for. */
  ghost predicate Sourced(g: LlamaCppTextProvider, heard: set<string>, text: string) {
    exists o :: Derives(g, heard, o, text)
  }

  lemma HeardIsSourced(g: LlamaCppTextProvider, heard: set<string>, text: string)
    requires text in heard || text == ""
    ensures Sourced(g, heard, text)
  {
    assert text in heard ==> Derives(g, heard, Heard, text);
    assert text == "" ==> Derives(g, heard, Nothing, text);
  }

  // ---------- answers of the text provider ----------

  /** What `revise` may answer for this pair: the pair itself or a guarded rewrite of it. */
  ghost predicate Offers(g: LlamaCppTextProvider, p: string, c: string, p': string, c': string) {
    (p' == p && c' == c) || exists changed :: g.Guarded(p, c, Revision(p', c', changed))
  }

  lemma OffersAreSourced(g: LlamaCppTextProvider, heard: set<string>, p: string, c: string, p': string, c': string)
    requires Sourced(g, heard, p) && c in heard && Offers(g, p, c, p', c')
    ensures Sourced(g, heard, p') && Sourced(g, heard, c')
  {
    if p' == p && c' == c {
      HeardIsSourced(g, heard, c);
    } else {
      var o :| Derives(g, heard, o, p);
      var changed :| g.Guarded(p, c, Revision(p', c', changed));
      assert Derives(g, heard, FirstOf(o, p, c, Revision(p', c', changed)), p');
      assert Derives(g, heard, SecondOf(o, p, c, Revision(p', c', changed)), c');
    }
  }

  /** The step's correction, if it brings one, is an answer of the provider to the job at hand. */
  ghost predicate Provided(g: LlamaCppTextProvider, sys: System, op: Op) {
    op.TextResult? && op.outcome.Revised? && sys.text.Inferring? && sys.text.job.mode.Correction? ==>
      Offers(g, sys.text.job.previousText, sys.text.job.currentText, op.outcome.previousText, op.outcome.currentText)
  }

  ghost predicate ProvidedThroughout(g: LlamaCppTextProvider, sys: System, limits: Limits, ops: seq<Op>)
    decreases |ops|
  {
    ops != [] ==> Provided(g, sys, ops[0]) && ProvidedThroughout(g, Next(sys, limits, ops[0]), limits, ops[1..])
  }

  // ---------- the invariant ----------

  ghost predicate RowsSourced(g: LlamaCppTextProvider, heard: set<string>, rows: Ledger.Rows) {
    forall i :: 0 <= i < |rows| ==> Sourced(g, heard, rows[i].text)
  }

  ghost predicate StreamsSourced(g: LlamaCppTextProvider, heard: set<string>, streams: map<SessionId, Stream>) {
    forall s :: s in streams ==> RowsSourced(g, heard, streams[s].rows)
  }

  /** A correction asks about a text with an origin and a text that was heard. */
  ghost predicate JobSourced(g: LlamaCppTextProvider, heard: set<string>, job: TextJob) {
    job.mode.Correction? ==> Sourced(g, heard, job.previousText) && job.currentText in heard
  }

  ghost predicate AsrSourced(g: LlamaCppTextProvider, heard: set<string>, asr: AsrWorker) {
    && (asr.FinalAccepted? || asr.FinalTold? ==> asr.text in heard)
    && (asr.FinalTold? ==> Sourced(g, heard, asr.previousText))
  }

  ghost predicate TextSourced(g: LlamaCppTextProvider, heard: set<string>, text: TextWorker) {
    text.Inferring? ==> JobSourced(g, heard, text.job)
  }

  ghost predicate QueueSourced(g: LlamaCppTextProvider, heard: set<string>, q: TextQueue) {
    && (forall i :: 0 <= i < |q.corrections| ==> JobSourced(g, heard, q.corrections[i]))
    && (forall i :: 0 <= i < |q.endpoints| ==> q.endpoints[i].mode.Endpoint?)
  }

  ghost predicate AllSourced(g: LlamaCppTextProvider, heard: set<string>, sys: System) {
    && StreamsSourced(g, heard, sys.streams) && QueueSourced(g, heard, sys.textQueue)
    && AsrSourced(g, heard, sys.asr) && TextSourced(g, heard, sys.text)
  }

  function HeardBy(op: Op): set<string> {
    if op.AsrResult? && op.result.Some? then {op.result.value} else {}
  }

  function HeardIn(ops: seq<Op>): set<string> {
    if ops == [] then {} else HeardBy(ops[0]) + HeardIn(ops[1..])
  }

  // ---------- the ledger's calls ----------

  lemma LedgerStepSourced(g: LlamaCppTextProvider, heard: set<string>, rows: Ledger.Rows, op: Ledger.Op)
    requires RowsSourced(g, heard, rows)
    requires op.PartialText? || op.FinalText? ==> Sourced(g, heard, op.text)
    requires op.Revision? ==> Sourced(g, heard, op.previousText) && Sourced(g, heard, op.currentText)
    ensures RowsSourced(g, heard, Ledger.Step(rows, op))
  {
    var after := Ledger.Step(rows, op);
    forall i | 0 <= i < |after|
      ensures Sourced(g, heard, after[i].text)
    {
      if i < |rows| && after[i].text == rows[i].text {
        assert Sourced(g, heard, rows[i].text);
      }
    }
  }

  lemma PutSourced(g: LlamaCppTextProvider, heard: set<string>, streams: map<SessionId, Stream>, s: SessionId,
                   st': Stream)
    requires StreamsSourced(g, heard, streams) && RowsSourced(g, heard, st'.rows)
    ensures StreamsSourced(g, heard, streams[s := st'])
  {
  }

  // ---------- the steps ----------

  lemma AsrResultSourced(g: LlamaCppTextProvider, heard: set<string>, sys: System, result: Option<string>)
    requires AllSourced(g, heard, sys) && sys.asr.Transcribing? && sys.asr.job.session in sys.streams
    requires result.Some? ==> result.value in heard
    ensures AllSourced(g, heard, AsrResultAccepted(sys, sys.asr.job, result))
  {
    if result.Some? {
      var job := sys.asr.job;
      var st := sys.streams[job.session];
      HeardIsSourced(g, heard, result.value);
      LedgerStepSourced(g, heard, st.rows, Ledger.PartialText(job.utterance, result.value));
      LedgerStepSourced(g, heard, st.rows, Ledger.FinalText(job.utterance, result.value));
      var sys' := AsrResultAccepted(sys, job, result);
      PutSourced(g, heard, sys.streams, job.session, sys'.streams[job.session]);
    }
  }

  lemma PreviousTextSourced(g: LlamaCppTextProvider, heard: set<string>, rows: Ledger.Rows)
    requires RowsSourced(g, heard, rows)
    ensures Sourced(g, heard, PreviousText(rows))
  {
    HeardIsSourced(g, heard, "");
  }

  lemma AsrToldSourced(g: LlamaCppTextProvider, heard: set<string>, sys: System, limits: Limits)
    requires AllSourced(g, heard, sys)
    requires (sys.asr.AsrTelling? || sys.asr.FinalAccepted?) && sys.asr.job.session in sys.streams
    ensures AllSourced(g, heard, AsrTold(sys, limits))
  {
    var s := sys.asr.job.session;
    PreviousTextSourced(g, heard, sys.streams[s].rows);
    PutSourced(g, heard, sys.streams, s, WorkDone(sys.streams[s]));
  }

  lemma EventPutSourced(g: LlamaCppTextProvider, heard: set<string>, sys: System, s: SessionId)
    requires AllSourced(g, heard, sys) && s in sys.streams
    ensures AllSourced(g, heard, EventPut(sys, s))
  {
    PutSourced(g, heard, sys.streams, s, EventPut(sys, s).streams[s]);
  }

  lemma CorrectionQueuedSourced(g: LlamaCppTextProvider, heard: set<string>, sys: System, limits: Limits)
    requires AllSourced(g, heard, sys) && sys.asr.FinalTold? && sys.asr.job.session in sys.streams
    ensures AllSourced(g, heard, CorrectionQueued(sys, limits))
  {
    var s, sys' := sys.asr.job.session, CorrectionQueued(sys, limits);
    PutSourced(g, heard, sys.streams, s, WorkDone(sys.streams[s]));
    PutSourced(g, heard, sys.streams, s, WorkQueued(sys.streams[s]));
    var job := TextJob(s, sys.asr.job.utterance, Correction, sys.asr.previousText, sys.asr.text);
    assert JobSourced(g, heard, job);
  }

  lemma TextTakenSourced(g: LlamaCppTextProvider, heard: set<string>, sys: System)
    requires AllSourced(g, heard, sys)
    ensures AllSourced(g, heard, TextTaken(sys))
  {
    match GetText(sys.textQueue)
    case (q, Job(job)) =>
      assert JobSourced(g, heard, job);
      if job.session in sys.streams {
        PutSourced(g, heard, sys.streams, job.session,
                   sys.streams[job.session].(dropped := sys.streams[job.session].dropped + 1));
      }
    case (_, _) =>
  }

  lemma RevisionSourced(g: LlamaCppTextProvider, heard: set<string>, sys: System, outcome: TextOutcome)
    requires AllSourced(g, heard, sys) && sys.text.Inferring? && sys.text.job.session in sys.streams
    requires sys.text.job.mode.Correction? && Provided(g, sys, TextResult(outcome))
    ensures AllSourced(g, heard, RevisionAnswered(sys, sys.text.job, outcome))
  {
    var job := sys.text.job;
    if outcome.Revised? {
      OffersAreSourced(g, heard, job.previousText, job.currentText, outcome.previousText, outcome.currentText);
      var revision := Ledger.Revision(job.utterance, outcome.previousText, outcome.currentText);
      LedgerStepSourced(g, heard, sys.streams[job.session].rows, revision);
      var sys' := RevisionAnswered(sys, job, outcome);
      PutSourced(g, heard, sys.streams, job.session, sys'.streams[job.session]);
    }
  }

  /** Steps that queue or finish work: rows, corrections and the texts at hand stay. */
  ghost predicate SameTexts(sys: System, sys': System) {
    && sys'.textQueue.corrections == sys.textQueue.corrections
    && (forall i :: 0 <= i < |sys'.textQueue.endpoints| ==>
          sys'.textQueue.endpoints[i] in sys.textQueue.endpoints || sys'.textQueue.endpoints[i].mode.Endpoint?)
    && sys.streams.Keys <= sys'.streams.Keys
    && (forall s :: s in sys'.streams ==>
          if s in sys.streams then SameRowTexts(sys.streams[s].rows, sys'.streams[s].rows)
          else |sys'.streams[s].rows| == 0)
    && (sys'.asr.FinalAccepted? || sys'.asr.FinalTold? ==> sys'.asr == sys.asr)
    && (sys'.text.Inferring? ==> sys'.text == sys.text)
  }

  ghost predicate SameRowTexts(rows: Ledger.Rows, rows': Ledger.Rows) {
    |rows'| == |rows| && forall i :: 0 <= i < |rows| ==> rows'[i].text == rows[i].text
  }

  lemma SameTextsSourced(g: LlamaCppTextProvider, heard: set<string>, sys: System, sys': System)
    requires AllSourced(g, heard, sys) && SameTexts(sys, sys')
    ensures AllSourced(g, heard, sys')
  {
    forall s | s in sys'.streams
      ensures RowsSourced(g, heard, sys'.streams[s].rows)
    {
      if s in sys.streams {
        assert RowsSourced(g, heard, sys.streams[s].rows);
      }
    }
  }

  /** One stream's bookkeeping and the queues' other lanes may change. */
  lemma PutSameTexts(sys: System, sys': System, s: SessionId)
    requires s in sys.streams && s in sys'.streams && sys'.streams == sys.streams[s := sys'.streams[s]]
    requires SameRowTexts(sys.streams[s].rows, sys'.streams[s].rows)
    requires sys'.textQueue.corrections == sys.textQueue.corrections
    requires sys'.textQueue.endpoints == sys.textQueue.endpoints
    requires sys'.asr.FinalAccepted? || sys'.asr.FinalTold? ==> sys'.asr == sys.asr
    requires sys'.text.Inferring? ==> sys'.text == sys.text
    ensures SameTexts(sys, sys')
  {
  }

  lemma PartialSameTexts(sys: System, limits: Limits, s: SessionId, u: UtteranceId, pcm: seq<nat>)
    requires s in sys.streams
    ensures SameTexts(sys, PartialQueued(sys, limits, s, u, pcm))
  {
    PutSameTexts(sys, PartialQueued(sys, limits, s, u, pcm), s);
  }

  lemma FinalSameTexts(sys: System, limits: Limits, s: SessionId, u: UtteranceId, pcm: seq<nat>)
    requires s in sys.streams
    ensures SameTexts(sys, FinalQueued(sys, limits, s, u, pcm))
  {
    assert sys.streams[s := sys.streams[s]] == sys.streams;
    PutSameTexts(sys, FinalQueued(sys, limits, s, u, pcm), s);
  }

  lemma SaidSameTexts(sys: System, limits: Limits, s: SessionId)
    requires s in sys.streams
    ensures SameTexts(sys, Said(sys, limits, s))
  {
    PutSameTexts(sys, Said(sys, limits, s), s);
  }

  lemma FinalOfferedSameTexts(sys: System, limits: Limits, s: SessionId, u: UtteranceId, pcm: seq<nat>)
    requires s in sys.streams
    ensures SameTexts(sys, FinalOffered(sys, limits, s, u, pcm))
  {
    var queued := FinalQueued(sys, limits, s, u, pcm);
    FinalSameTexts(sys, limits, s, u, pcm);
    SaidSameTexts(queued, limits, s);
    SameTextsTwice(sys, queued, Said(queued, limits, s));
  }

  lemma ClientStepSameTexts(sys: System, limits: Limits, op: Op)
    requires IsClientOp(op)
    ensures SameTexts(sys, Next(sys, limits, op))
  {
    if op.session in sys.streams {
      match op
      case QueuePartial(s, u, pcm) =>
        var queued := PartialQueued(sys, limits, s, u, pcm);
        PartialSameTexts(sys, limits, s, u, pcm);
        SaidSameTexts(queued, limits, s);
        SameTextsTwice(sys, queued, Said(queued, limits, s));
      case QueueFinal(s, u, pcm) => FinalOfferedSameTexts(sys, limits, s, u, pcm);
      case QueueEndpoint(s, _) => SaidSameTexts(sys, limits, s);
      case Say(s) => SaidSameTexts(sys, limits, s);
    }
  }

  lemma EventStepSameTexts(sys: System, limits: Limits, op: Op)
    requires IsEventOp(op)
    ensures SameTexts(sys, Next(sys, limits, op))
  {
    if op.session in sys.streams {
      PutSameTexts(sys, Next(sys, limits, op), op.session);
    }
  }

  lemma SameTextsTwice(a: System, b: System, c: System)
    requires SameTexts(a, b) && SameTexts(b, c)
    ensures SameTexts(a, c)
  {
  }

  lemma StopSameTexts(sys: System, limits: Limits, s: SessionId, speech: Option<(UtteranceId, seq<nat>)>)
    requires s in sys.streams
    ensures SameTexts(sys, StopBegun(sys, limits, s, speech))
  {
    if sys.streams[s].stop.Running? {
      var phase := if StopRaises(sys, limits, s, speech) then StopFailed else Stopping;
      var stopping := Put(sys, s, sys.streams[s].(stop := phase));
      PutSameTexts(sys, stopping, s);
      if speech.Some? {
        FinalOfferedSameTexts(stopping, limits, s, speech.value.0, speech.value.1);
        SameTextsTwice(sys, stopping, StopBegun(sys, limits, s, speech));
      }
    }
  }

  lemma LifeStepSameTexts(sys: System, limits: Limits, op: Op)
    requires IsLifeOp(op)
    ensures SameTexts(sys, Next(sys, limits, op))
  {
    match op
    case Stop(s, speech) =>
      if s in sys.streams {
        StopSameTexts(sys, limits, s, speech);
      }
    case Close(s, speech) =>
      if s in sys.registered && s in sys.streams {
        StopSameTexts(sys.(registered := sys.registered - {s}), limits, s, speech);
      }
    case FinalizeLedger(s) =>
      if s in sys.streams && sys.streams[s].stop.Stopping? {
        var st := sys.streams[s];
        PutThenSaidSameTexts(sys, limits, s,
          st.(rows := Ledger.Finalized(st.rows), stop := Stopped, owed := st.owed + 1));
      }
    case Restart(s) =>
      if s in sys.streams && sys.streams[s].stop.Stopped? {
        PutThenSaidSameTexts(sys, limits, s, sys.streams[s].(stop := Running));
      }
    case _ =>
  }

  lemma PutThenSaidSameTexts(sys: System, limits: Limits, s: SessionId, st': Stream)
    requires s in sys.streams && SameRowTexts(sys.streams[s].rows, st'.rows)
    ensures SameTexts(sys, Said(Put(sys, s, st'), limits, s))
  {
    PutSameTexts(sys, Put(sys, s, st'), s);
    SaidSameTexts(Put(sys, s, st'), limits, s);
    SameTextsTwice(sys, Put(sys, s, st'), Said(Put(sys, s, st'), limits, s));
  }

  lemma AsrWorkSameTexts(sys: System, limits: Limits, op: Op)
    requires op.TakeAsr? || op.AsrDone?
    ensures SameTexts(sys, Next(sys, limits, op))
  {
    var sys' := Next(sys, limits, op);
    if sys'.streams == sys.streams {
      assert forall s :: s in sys.streams ==> SameRowTexts(sys.streams[s].rows, sys.streams[s].rows);
    } else if op.TakeAsr? {
      PutSameTexts(sys, sys', GetAsr(sys.asrQueue).1.job.session);
    } else {
      PutSameTexts(sys, sys', sys.asr.job.session);
    }
  }

  lemma TextWorkSameTexts(sys: System, limits: Limits, op: Op)
    requires op.TextTell? || op.TextDone?
    ensures SameTexts(sys, Next(sys, limits, op))
  {
    var sys' := Next(sys, limits, op);
    if sys'.streams == sys.streams {
      assert forall s :: s in sys.streams ==> SameRowTexts(sys.streams[s].rows, sys.streams[s].rows);
    } else {
      PutSameTexts(sys, sys', sys.text.job.session);
    }
  }

  lemma EndpointSameTexts(sys: System, limits: Limits, outcome: TextOutcome)
    requires sys.text.Inferring? && sys.text.job.session in sys.streams
    ensures SameTexts(sys, EndpointAnswered(sys, limits, sys.text.job, outcome))
  {
  }

  lemma TextResultSourced(g: LlamaCppTextProvider, heard: set<string>, sys: System, limits: Limits,
                          outcome: TextOutcome)
    requires AllSourced(g, heard, sys) && Provided(g, sys, TextResult(outcome))
    ensures AllSourced(g, heard, Next(sys, limits, TextResult(outcome)))
  {
    if sys.text.Inferring? && sys.text.job.session in sys.streams {
      if sys.text.job.mode.Endpoint? {
        EndpointSameTexts(sys, limits, outcome);
        SameTextsSourced(g, heard, sys, EndpointAnswered(sys, limits, sys.text.job, outcome));
      } else {
        RevisionSourced(g, heard, sys, outcome);
      }
    }
  }

  lemma NextSourced(g: LlamaCppTextProvider, heard: set<string>, sys: System, limits: Limits, op: Op)
    requires AllSourced(g, heard, sys) && Provided(g, sys, op) && HeardBy(op) <= heard
    ensures AllSourced(g, heard, Next(sys, limits, op))
  {
    match op
    case AsrResult(result) =>
      if sys.asr.Transcribing? && sys.asr.job.session in sys.streams {
        assert result.Some? ==> result.value in HeardBy(op);
        AsrResultSourced(g, heard, sys, result);
      }
    case AsrTell =>
      if AsrMayTell(sys, limits) && !sys.asr.FinalTold? {
        EventPutSourced(g, heard, sys, sys.asr.job.session);
        AsrToldSourced(g, heard, EventPut(sys, sys.asr.job.session), limits);
      }
    case QueueCorrection =>
      if AsrMayTell(sys, limits) && sys.asr.FinalTold? {
        EventPutSourced(g, heard, sys, sys.asr.job.session);
        CorrectionQueuedSourced(g, heard, EventPut(sys, sys.asr.job.session), limits);
      }
    case TakeText =>
      if sys.text.TextWaiting? {
        TextTakenSourced(g, heard, sys);
      }
    case TextResult(outcome) => TextResultSourced(g, heard, sys, limits, outcome);
    case _ => OtherStepSourced(g, heard, sys, limits, op);
  }

  lemma OtherStepSourced(g: LlamaCppTextProvider, heard: set<string>, sys: System, limits: Limits, op: Op)
    requires AllSourced(g, heard, sys)
    requires || IsClientOp(op) || IsLifeOp(op) || IsEventOp(op)
             || op.TakeAsr? || op.AsrDone? || op.TextTell? || op.TextDone?
    ensures AllSourced(g, heard, Next(sys, limits, op))
  {
    if IsClientOp(op) {
      ClientStepSameTexts(sys, limits, op);
    } else if IsLifeOp(op) {
      LifeStepSameTexts(sys, limits, op);
    } else if IsEventOp(op) {
      EventStepSameTexts(sys, limits, op);
    } else if op.TakeAsr? || op.AsrDone? {
      AsrWorkSameTexts(sys, limits, op);
    } else {
      TextWorkSameTexts(sys, limits, op);
    }
    SameTextsSourced(g, heard, sys, Next(sys, limits, op));
  }

  lemma {:induction false} RunSourced(g: LlamaCppTextProvider, heard: set<string>, sys: System, limits: Limits,
                                      ops: seq<Op>)
    requires AllSourced(g, heard, sys) && ProvidedThroughout(g, sys, limits, ops) && HeardIn(ops) <= heard
    ensures AllSourced(g, heard, Run(sys, limits, ops))
    decreases |ops|
  {
    if ops != [] {
      NextSourced(g, heard, sys, limits, ops[0]);
      RunSourced(g, heard, Next(sys, limits, ops[0]), limits, ops[1..]);
    }
  }

  /**
   In every run whose corrections are answers of the guarded provider, the text of every row was
   recognised in the run, or is one half of a guarded rewrite of the two texts it was asked about.
   */
  lemma EveryRowHasAnOrigin(g: LlamaCppTextProvider, limits: Limits, ops: seq<Op>, s: SessionId)
    requires ProvidedThroughout(g, START, limits, ops)
    ensures var sys := Run(START, limits, ops); s in sys.streams ==> RowsSourced(g, HeardIn(ops), sys.streams[s].rows)
  {
    RunSourced(g, HeardIn(ops), START, limits, ops);
  }
}
