/** A closed stream whose work in flight leads to no more work. */
module RealtimeWinding {
  import opened Wrappers
  import opened RealtimeQueue
  import opened RealtimeCoordinator
  import opened RealtimeAccounting
  import opened RealtimeResults
  import opened RealtimeEvents
  import opened RealtimeNeeds
  import opened RealtimeClosing

  // ---------- no new work ----------

  /** Work in flight that may still lead to more. */
  predicate MayFollow(sys: System, s: SessionId) {
    || (sys.asr.Transcribing? && sys.asr.job.session == s && sys.asr.job.mode.Final?)
    || ((sys.asr.FinalAccepted? || sys.asr.FinalTold?) && sys.asr.job.session == s)
    || (sys.text.Inferring? && sys.text.job.session == s && sys.text.job.mode.Endpoint?)
  }

  /** Nothing of the stream is queued, and nothing in flight can lead to more. */
  ghost predicate WindingDown(sys: System, limits: Limits, s: SessionId) {
    Drainable(sys, limits, s) && !MayFollow(sys, s)
  }

  /** A step by which a client gives this stream new work. */
  predicate GivesWork(op: Op, s: SessionId) {
    (IsClientOp(op) || op.Stop?) && op.session == s
  }

  ghost predicate KeepsWindingDown(sys: System, sys': System, s: SessionId)
    requires s in sys.streams
  {
    && s in sys'.streams && s !in sys'.registered && !MayFollow(sys', s)
    && Queued(sys', s) == Queued(sys, s) && sys'.streams[s].dropped == sys.streams[s].dropped
  }

  lemma AsrTakenWindsDown(sys: System, limits: Limits, s: SessionId)
    requires WindingDown(sys, limits, s) && sys.asr.AsrWaiting?
    ensures KeepsWindingDown(sys, AsrTaken(sys), s)
  {
    match GetAsr(sys.asrQueue)
    case (q, Job(job)) =>
      AsrTakenCounts(sys.asrQueue, q, job);
      assert Queued(sys, s) == 0;
      assert job.session != s;
    case (_, _) =>
  }

  lemma TextTakenWindsDown(sys: System, limits: Limits, s: SessionId)
    requires WindingDown(sys, limits, s) && sys.text.TextWaiting?
    ensures KeepsWindingDown(sys, TextTaken(sys), s)
  {
    match GetText(sys.textQueue)
    case (q, Job(job)) =>
      TextTakenCounts(sys.textQueue, q, job);
      assert Queued(sys, s) == 0;
      assert job.session != s;
    case (_, _) =>
  }

  lemma CorrectionQueuedWindsDown(sys: System, limits: Limits, s: SessionId)
    requires WindingDown(sys, limits, s) && sys.asr.FinalTold? && sys.asr.job.session in sys.streams
    ensures KeepsWindingDown(sys, CorrectionQueued(EventPut(sys, sys.asr.job.session), limits), s)
  {
    var asrJob := sys.asr.job;
    TextPush(sys.textQueue.corrections,
             TextJob(asrJob.session, asrJob.utterance, Correction, sys.asr.previousText, sys.asr.text));
  }

  /** A step that leaves the queues and the registry alone. */
  lemma SameQueuesWindDown(sys: System, sys': System, s: SessionId)
    requires s in sys.streams && s !in sys.registered
    requires SameQueues(sys, sys') && sys'.registered == sys.registered
    requires s in sys'.streams && sys'.streams[s].dropped == sys.streams[s].dropped && !MayFollow(sys', s)
    ensures KeepsWindingDown(sys, sys', s)
  {
  }

  predicate SameQueues(sys: System, sys': System) {
    && sys'.asrQueue.finals == sys.asrQueue.finals && sys'.asrQueue.partials == sys.asrQueue.partials
    && sys'.textQueue.endpoints == sys.textQueue.endpoints && sys'.textQueue.corrections == sys.textQueue.corrections
  }

  lemma AsrToldWindsDown(sys: System, limits: Limits, s: SessionId)
    requires WindingDown(sys, limits, s)
    ensures KeepsWindingDown(sys, Next(sys, limits, AsrTell), s)
  {
    SameQueuesWindDown(sys, Next(sys, limits, AsrTell), s);
  }

  lemma AsrStepWindsDown(sys: System, limits: Limits, op: Op, s: SessionId)
    requires WindingDown(sys, limits, s) && IsAsrOp(op)
    ensures KeepsWindingDown(sys, Next(sys, limits, op), s)
  {
    if op.TakeAsr? {
      if sys.asr.AsrWaiting? {
        AsrTakenWindsDown(sys, limits, s);
      }
    } else if op.AsrTell? {
      AsrToldWindsDown(sys, limits, s);
    } else if op.QueueCorrection? {
      if AsrMayTell(sys, limits) && sys.asr.FinalTold? {
        CorrectionQueuedWindsDown(sys, limits, s);
      }
    } else {
      SameQueuesWindDown(sys, Next(sys, limits, op), s);
    }
  }

  /** A final of another stream leaves this one alone. */
  lemma OtherFinalQueued(sys: System, limits: Limits, s: SessionId, other: SessionId, u: UtteranceId, pcm: seq<nat>)
    requires s in sys.streams && other in sys.streams && other != s
    ensures var sys' := FinalQueued(sys, limits, other, u, pcm);
            && s in sys'.streams && Queued(sys', s) == Queued(sys, s) && sys'.streams[s] == sys.streams[s]
            && sys' == sys.(asrQueue := sys'.asrQueue, streams := sys'.streams)
  {
    AsrPush(sys.asrQueue.finals, AsrJob(other, u, 1, Final, pcm));
  }

  lemma TextResultWindsDown(sys: System, limits: Limits, outcome: TextOutcome, s: SessionId)
    requires WindingDown(sys, limits, s) && sys.text.Inferring? && sys.text.job.session in sys.streams
    ensures KeepsWindingDown(sys, Next(sys, limits, TextResult(outcome)), s)
  {
    var job, sys' := sys.text.job, Next(sys, limits, TextResult(outcome));
    if job.mode.Endpoint? && outcome.Completes? && !Blank(job.currentText)
       && FinalOffer(sys, limits, job.session, outcome.utterance, outcome.pcm).Success? {
      var noting := sys.(text := TextNoting(job));
      OtherFinalQueued(noting, limits, s, job.session, outcome.utterance, outcome.pcm);
      assert Queued(noting, s) == Queued(sys, s);
    } else {
      SameQueuesWindDown(sys, sys', s);
    }
  }

  lemma TextToldWindsDown(sys: System, limits: Limits, op: Op, s: SessionId)
    requires WindingDown(sys, limits, s) && (op.TextTell? || op.TextDone?)
    ensures KeepsWindingDown(sys, Next(sys, limits, op), s)
  {
    SameQueuesWindDown(sys, Next(sys, limits, op), s);
  }

  lemma TextStepWindsDown(sys: System, limits: Limits, op: Op, s: SessionId)
    requires WindingDown(sys, limits, s) && IsTextOp(op)
    ensures KeepsWindingDown(sys, Next(sys, limits, op), s)
  {
    if op.TakeText? {
      if sys.text.TextWaiting? {
        TextTakenWindsDown(sys, limits, s);
      }
    } else if op.TextResult? {
      if sys.text.Inferring? && sys.text.job.session in sys.streams {
        TextResultWindsDown(sys, limits, op.outcome, s);
      }
    } else {
      TextToldWindsDown(sys, limits, op, s);
    }
  }

  /** What other streams' clients do leaves this stream, the workers and the registry alone. */
  ghost predicate Untouched(sys: System, sys': System, s: SessionId)
    requires s in sys.streams
  {
    && s in sys'.streams && sys'.streams[s] == sys.streams[s] && sys'.registered == sys.registered
    && sys'.asr == sys.asr && sys'.text == sys.text && Queued(sys', s) == Queued(sys, s)
  }

  lemma SaidElsewhere(sys: System, queued: System, limits: Limits, s: SessionId, other: SessionId)
    requires s in sys.streams && other in queued.streams && other != s && Untouched(sys, queued, s)
    ensures Untouched(sys, Said(queued, limits, other), s)
  {
    var said := Said(queued, limits, other);
    assert Queued(said, s) == Queued(queued, s);
  }

  lemma OtherPartialQueued(sys: System, limits: Limits, s: SessionId, other: SessionId, u: UtteranceId, pcm: seq<nat>)
    requires s in sys.streams && other in sys.streams && other != s
    ensures Untouched(sys, PartialQueued(sys, limits, other, u, pcm), s)
  {
    var st := Numbered(sys.streams[other], u);
    var job := AsrJob(other, u, st.generation, Partial, pcm);
    PutPartialStores(sys.asrQueue, limits.partials, job);
    SlotStored(sys.asrQueue.partials, job);
    OtherPartialOutcome(sys, s, st, job, PutPartial(sys.asrQueue, limits.partials, job));
  }

  lemma OtherPartialOutcome(sys: System, s: SessionId, st: Stream, job: AsrJob, r: Result<(AsrQueue, bool), QueueError>)
    requires s in sys.streams && job.session in sys.streams && job.session != s
    requires PartialPut(sys.asrQueue, job, r)
    requires Count(AsrSessions(Stored(sys.asrQueue.partials, job)), s) == Count(AsrSessions(sys.asrQueue.partials), s)
    ensures Untouched(sys, PartialOutcome(sys, job.session, st, r), s)
  {
  }

  lemma OtherEndpointQueued(sys: System, limits: Limits, s: SessionId, job: TextJob)
    requires s in sys.streams && job.session in sys.streams && job.session != s
    ensures Untouched(sys, TextQueued(sys, limits, Endpoint, job), s)
  {
    TextPush(sys.textQueue.endpoints, job);
  }

  lemma OtherFinalOffered(sys: System, limits: Limits, s: SessionId, other: SessionId, u: UtteranceId, pcm: seq<nat>)
    requires s in sys.streams && other in sys.streams && other != s
    ensures Untouched(sys, FinalOffered(sys, limits, other, u, pcm), s)
  {
    OtherFinalQueued(sys, limits, s, other, u, pcm);
    SaidElsewhere(sys, FinalQueued(sys, limits, other, u, pcm), limits, s, other);
  }

  lemma OtherClientStep(sys: System, limits: Limits, op: Op, s: SessionId)
    requires s in sys.streams && IsClientOp(op) && op.session != s
    ensures Untouched(sys, Next(sys, limits, op), s)
  {
    var other := op.session;
    if other in sys.streams {
      if op.QueuePartial? {
        OtherPartialQueued(sys, limits, s, other, op.utterance, op.pcm);
        SaidElsewhere(sys, PartialQueued(sys, limits, other, op.utterance, op.pcm), limits, s, other);
      } else if op.QueueFinal? {
        OtherFinalOffered(sys, limits, s, other, op.utterance, op.pcm);
      } else {
        SaidElsewhere(sys, sys, limits, s, other);
        if op.QueueEndpoint? {
          OtherEndpointQueued(sys, limits, s, Question(sys.streams[other].rows, other, op.utterance));
        }
      }
    }
  }

  lemma StopOfAnother(sys: System, limits: Limits, s: SessionId, other: SessionId,
                      speech: Option<(UtteranceId, seq<nat>)>)
    requires s in sys.streams && other in sys.streams && other != s
    ensures Untouched(sys, StopBegun(sys, limits, other, speech), s)
  {
    if sys.streams[other].stop.Running? {
      var phase := if StopRaises(sys, limits, other, speech) then StopFailed else Stopping;
      var stopping := Put(sys, other, sys.streams[other].(stop := phase));
      assert Queued(stopping, s) == Queued(sys, s);
      if speech.Some? {
        OtherFinalOffered(stopping, limits, s, other, speech.value.0, speech.value.1);
      }
    }
  }

  lemma UntouchedWindsDown(sys: System, sys': System, limits: Limits, s: SessionId)
    requires WindingDown(sys, limits, s) && Untouched(sys, sys', s)
    ensures KeepsWindingDown(sys, sys', s)
  {
  }

  lemma LifeStepWindsDown(sys: System, limits: Limits, op: Op, s: SessionId)
    requires WindingDown(sys, limits, s) && IsLifeOp(op) && !(op.Stop? && op.session == s)
    ensures KeepsWindingDown(sys, Next(sys, limits, op), s)
  {
    if op.Stop? {
      if op.session in sys.streams {
        StopOfAnother(sys, limits, s, op.session, op.speech);
        UntouchedWindsDown(sys, Next(sys, limits, op), limits, s);
      }
    } else if op.Close? {
      if op.session in sys.registered && op.session in sys.streams {
        StopOfAnother(sys.(registered := sys.registered - {op.session}), limits, s, op.session, op.speech);
      }
    } else {
      RestWindsDown(sys, limits, op, s);
    }
  }

  lemma RestWindsDown(sys: System, limits: Limits, op: Op, s: SessionId)
    requires WindingDown(sys, limits, s) && (IsEventOp(op) || (IsLifeOp(op) && !op.Stop? && !op.Close?))
    ensures KeepsWindingDown(sys, Next(sys, limits, op), s)
  {
    var sys' := Next(sys, limits, op);
    OthersLeaveWorkers(sys, limits, op);
    NextKeepsUnregistered(sys, limits, op, s);
    if IsEventOp(op) {
      EventStepLeavesQueues(sys, limits, op, s);
    } else {
      RestLeavesQueues(sys, limits, op, s);
    }
    assert Queued(sys', s) == Queued(sys, s);
  }

  lemma EventStepLeavesQueues(sys: System, limits: Limits, op: Op, s: SessionId)
    requires s in sys.streams && IsEventOp(op)
    ensures var sys' := Next(sys, limits, op);
            SameQueues(sys, sys') && s in sys'.streams && sys'.streams[s].dropped == sys.streams[s].dropped
  {
  }

  lemma RestLeavesQueues(sys: System, limits: Limits, op: Op, s: SessionId)
    requires s in sys.streams && IsLifeOp(op) && !op.Stop? && !op.Close?
    ensures var sys' := Next(sys, limits, op);
            SameQueues(sys, sys') && s in sys'.streams && sys'.streams[s].dropped == sys.streams[s].dropped
  {
  }

  /** However the broker, the queues and all other streams behave, winding down goes on. */
  lemma NextWindsDown(sys: System, limits: Limits, op: Op, s: SessionId)
    requires WindingDown(sys, limits, s) && !GivesWork(op, s)
    ensures WindingDown(Next(sys, limits, op), limits, s)
  {
    if IsAsrOp(op) {
      AsrStepWindsDown(sys, limits, op, s);
    } else if IsTextOp(op) {
      TextStepWindsDown(sys, limits, op, s);
    } else if IsClientOp(op) {
      OtherClientStep(sys, limits, op, s);
      UntouchedWindsDown(sys, Next(sys, limits, op), limits, s);
    } else if IsLifeOp(op) {
      LifeStepWindsDown(sys, limits, op, s);
    } else {
      RestWindsDown(sys, limits, op, s);
    }
    NextKeepsAccounts(sys, limits, op);
  }

  // ---------- what may still be put into the event queue ----------

  /** The most events that the jobs in flight may put. */
  function Most(asr: AsrWorker, text: TextWorker, s: SessionId): nat {
    (match asr
     case Transcribing(job) => if job.session == s then 1 else 0
     case AsrTelling(job, events) => if job.session == s then Telling(events, false) else 0
     case _ => 0)
    + (match text
       case Inferring(job) => if job.session == s then 2 else 0
       case TextNoting(job) => if job.session == s then 1 else 0
       case TextTelling(job, events) => if job.session == s then Telling(events, false) else 0
       case _ => 0)
  }

  /** A stop in progress says that it stopped and marks the end; a stopped stream may say that it started again. */
  function StopSays(stop: StopPhase): nat {
    match stop
    case Stopping => 3
    case Stopped => 1
    case _ => 0
  }

  /** Everything that is in the event queue of a stream winding down, waits for it, or may still come. */
  function Budget(sys: System, s: SessionId): nat
    requires s in sys.streams
  {
    var st := sys.streams[s];
    st.waiting + st.owed + StopSays(st.stop) + Most(sys.asr, sys.text, s)
  }

  /** A step spends from the budget at most, and only a leaving reader leaves. */
  ghost predicate BudgetKept(sys: System, op: Op, sys': System, s: SessionId)
    requires s in sys.streams
  {
    && s in sys'.streams && Budget(sys', s) <= Budget(sys, s)
    && (op == Detach(s) || sys'.streams[s].readers == sys.streams[s].readers)
  }

  /** The stream keeps what its clients and its stop still say. */
  predicate SaysTheSame(st: Stream, st': Stream) {
    st'.owed == st.owed && st'.stop == st.stop && st'.readers == st.readers
  }

  lemma AsrStepBudget(sys: System, limits: Limits, op: Op, s: SessionId)
    requires WindingDown(sys, limits, s) && IsAsrOp(op)
    ensures BudgetKept(sys, op, Next(sys, limits, op), s)
  {
    AsrStepStops(sys, limits, op);
    if op.AsrTell? {
      if AsrMayTell(sys, limits) && !sys.asr.FinalTold? {
        AsrToldBudget(sys, limits, s);
      }
    } else if op.QueueCorrection? {
      if AsrMayTell(sys, limits) && sys.asr.FinalTold? {
        CorrectionBudget(sys, limits, s);
      }
    } else {
      AsrWorkBudget(sys, limits, op, s);
    }
  }

  lemma AsrWorkBudget(sys: System, limits: Limits, op: Op, s: SessionId)
    requires WindingDown(sys, limits, s) && (op.TakeAsr? || op.AsrResult? || op.AsrDone?)
    ensures BudgetKept(sys, op, Next(sys, limits, op), s)
  {
    AsrStepStops(sys, limits, op);
    if op.AsrResult? {
      AsrResultBudget(sys, limits, op.result, s);
    } else if op.AsrDone? && sys.asr.AsrSettled? && sys.asr.job.session == s {
      assert SaysTheSame(sys.streams[s], WorkDone(sys.streams[s]));
    }
  }

  lemma AsrResultBudget(sys: System, limits: Limits, result: Option<string>, s: SessionId)
    requires WindingDown(sys, limits, s)
    ensures BudgetKept(sys, AsrResult(result), Next(sys, limits, AsrResult(result)), s)
  {
    if sys.asr.Transcribing? && sys.asr.job.session in sys.streams {
      var sys' := AsrResultAccepted(sys, sys.asr.job, result);
      assert SaysTheSame(sys.streams[s], sys'.streams[s]) && sys'.streams[s].waiting == sys.streams[s].waiting;
    }
  }

  lemma CorrectionBudget(sys: System, limits: Limits, s: SessionId)
    requires WindingDown(sys, limits, s) && AsrMayTell(sys, limits) && sys.asr.FinalTold?
    ensures BudgetKept(sys, QueueCorrection, CorrectionQueued(EventPut(sys, sys.asr.job.session), limits), s)
  {
    assert sys.asr.job.session != s;
    assert CorrectionQueued(EventPut(sys, sys.asr.job.session), limits).streams[s] == sys.streams[s];
  }

  lemma AsrToldBudget(sys: System, limits: Limits, s: SessionId)
    requires WindingDown(sys, limits, s) && AsrMayTell(sys, limits) && !sys.asr.FinalTold?
    ensures BudgetKept(sys, AsrTell, AsrTold(EventPut(sys, sys.asr.job.session), limits), s)
  {
    assert SaysTheSame(sys.streams[s], AsrTold(EventPut(sys, sys.asr.job.session), limits).streams[s]);
  }

  lemma TextStepBudget(sys: System, limits: Limits, op: Op, s: SessionId)
    requires WindingDown(sys, limits, s) && IsTextOp(op)
    ensures BudgetKept(sys, op, Next(sys, limits, op), s)
  {
    TextStepStops(sys, limits, op);
    if op.TextTell? {
      TextToldBudget(sys, limits, s);
    } else if op.TextResult? {
      TextResultBudget(sys, limits, op.outcome, s);
    }
  }

  lemma TextResultBudget(sys: System, limits: Limits, outcome: TextOutcome, s: SessionId)
    requires WindingDown(sys, limits, s)
    ensures BudgetKept(sys, TextResult(outcome), Next(sys, limits, TextResult(outcome)), s)
  {
    if sys.text.Inferring? && sys.text.job.session in sys.streams {
      if sys.text.job.mode.Endpoint? {
        assert sys.text.job.session != s;
        assert EndpointAnswered(sys, limits, sys.text.job, outcome).streams[s] == sys.streams[s];
      } else {
        var sys' := RevisionAnswered(sys, sys.text.job, outcome);
        assert SaysTheSame(sys.streams[s], sys'.streams[s]) && sys'.streams[s].waiting == sys.streams[s].waiting;
      }
    }
  }

  lemma TextToldBudget(sys: System, limits: Limits, s: SessionId)
    requires WindingDown(sys, limits, s)
    ensures BudgetKept(sys, TextTell, Next(sys, limits, TextTell), s)
  {
    if TextMayTell(sys, limits) {
      var sys' := TextTold(EventPut(sys, sys.text.job.session), limits);
      assert SaysTheSame(sys.streams[s], sys'.streams[s]);
    }
  }

  /** Own steps of the event queue and of the stop only spend what the budget has for them. */
  lemma RestBudget(sys: System, limits: Limits, op: Op, s: SessionId)
    requires s in sys.streams && s !in sys.registered
    requires IsEventOp(op) || (IsLifeOp(op) && !op.Stop? && !op.Close?)
    ensures BudgetKept(sys, op, Next(sys, limits, op), s)
  {
    OthersLeaveWorkers(sys, limits, op);
  }

  lemma NextBudget(sys: System, limits: Limits, op: Op, s: SessionId)
    requires WindingDown(sys, limits, s) && !GivesWork(op, s)
    ensures BudgetKept(sys, op, Next(sys, limits, op), s)
  {
    if IsAsrOp(op) {
      AsrStepBudget(sys, limits, op, s);
    } else if IsTextOp(op) {
      TextStepBudget(sys, limits, op, s);
    } else if IsClientOp(op) {
      OtherClientStep(sys, limits, op, s);
    } else if op.Stop? {
      if op.session in sys.streams {
        StopOfAnother(sys, limits, s, op.session, op.speech);
      }
    } else if op.Close? {
      if op.session in sys.registered && op.session in sys.streams {
        StopOfAnother(sys.(registered := sys.registered - {op.session}), limits, s, op.session, op.speech);
      }
    } else {
      RestBudget(sys, limits, op, s);
    }
  }

  /** The jobs in flight never need more than the budget has for them. */
  lemma NeedIsInBudget(sys: System, limits: Limits, s: SessionId, raises: bool, closed: bool)
    requires WindingDown(sys, limits, s)
    ensures sys.streams[s].waiting + NeedOf(sys, s, raises, closed) <= Budget(sys, s)
  {
  }

  /** A reader stays to the end, or everything that may still come fits. */
  predicate Assured(sys: System, limits: Limits, ops: seq<Op>, s: SessionId)
    requires s in sys.streams
  {
    (sys.streams[s].readers > 0 && Detach(s) !in ops) || Budget(sys, s) <= limits.events
  }

  /**
   A stream closed with nothing queued and nothing in flight that can lead to more work winds down
   in every later run in which no client gives it new work; and if a reader stays, or everything that
   may still come has room, it can become idle from every point of that run.
   */
  lemma {:induction false} WindingDownNeverStrands(sys: System, limits: Limits, ops: seq<Op>, s: SessionId)
    requires WindingDown(sys, limits, s) && Fits(sys, limits) && forall op :: op in ops ==> !GivesWork(op, s)
    ensures WindingDown(Run(sys, limits, ops), limits, s)
    ensures Assured(sys, limits, ops, s) ==> CanDrain(Run(sys, limits, ops), limits, s)
    decreases |ops|
  {
    if ops == [] {
      CanDrainIff(sys, limits, s);
      NeedIsInBudget(sys, limits, s, EmitRaises(sys, limits, s), sys.textQueue.closed);
    } else {
      var op, sys' := ops[0], Next(sys, limits, ops[0]);
      assert op in ops && forall later :: later in ops[1..] ==> later in ops;
      NextWindsDown(sys, limits, op, s);
      NextFits(sys, limits, op);
      NextBudget(sys, limits, op, s);
      assert Assured(sys, limits, ops, s) ==> Assured(sys', limits, ops[1..], s);
      WindingDownNeverStrands(sys', limits, ops[1..], s);
    }
  }
}
