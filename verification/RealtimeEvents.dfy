/** The bounded event queue of a stream, and the worker loops that wait at a full one. */
module RealtimeEvents {
  import opened Wrappers
  import opened RealtimeQueue
  import opened RealtimeCoordinator
  import opened RealtimeAccounting
  import opened RealtimeResults

  // ---------- the bound ----------

  ghost predicate Fits(sys: System, limits: Limits) {
    forall s :: s in sys.streams ==> sys.streams[s].waiting <= limits.events
  }

  /** At most one event is put, and only where there is room. */
  predicate PutsAtMostOne(st: Stream, st': Stream, limits: Limits) {
    && st'.readers == st.readers
    && (st'.waiting == st.waiting || (HasRoom(st, limits) && st'.waiting == st.waiting + 1))
  }

  /** The events of every stream grow by at most one, and new streams have none. */
  ghost predicate EventsGrow(sys: System, sys': System, limits: Limits) {
    && sys.streams.Keys <= sys'.streams.Keys
    && (forall s :: s in sys.streams ==> PutsAtMostOne(sys.streams[s], sys'.streams[s], limits))
    && (forall s :: s in sys'.streams && s !in sys.streams ==> sys'.streams[s].waiting == 0)
  }

  lemma OneStreamGrows(sys: System, sys': System, limits: Limits, s: SessionId)
    requires s in sys.streams && s in sys'.streams && sys'.streams == sys.streams[s := sys'.streams[s]]
    requires PutsAtMostOne(sys.streams[s], sys'.streams[s], limits)
    ensures EventsGrow(sys, sys', limits)
  {
  }

  lemma SaidGrows(sys: System, queued: System, limits: Limits, s: SessionId)
    requires s in sys.streams && s in queued.streams && queued.streams == sys.streams[s := queued.streams[s]]
    requires queued.streams[s].waiting == sys.streams[s].waiting && queued.streams[s].readers == sys.streams[s].readers
    ensures EventsGrow(sys, Said(queued, limits, s), limits)
  {
    OneStreamGrows(sys, Said(queued, limits, s), limits, s);
  }

  lemma FinalOfferedGrows(sys: System, limits: Limits, s: SessionId, u: UtteranceId, pcm: seq<nat>)
    requires s in sys.streams
    ensures EventsGrow(sys, FinalOffered(sys, limits, s, u, pcm), limits)
  {
    PutSame(sys, s);
    SaidGrows(sys, FinalQueued(sys, limits, s, u, pcm), limits, s);
  }

  lemma ClientStepGrows(sys: System, limits: Limits, op: Op)
    requires IsClientOp(op)
    ensures EventsGrow(sys, Next(sys, limits, op), limits)
  {
    if op.session in sys.streams {
      PutSame(sys, op.session);
      match op
      case QueuePartial(s, u, pcm) => PartialOfferedGrows(sys, limits, s, u, pcm);
      case QueueFinal(s, u, pcm) => FinalOfferedGrows(sys, limits, s, u, pcm);
      case QueueEndpoint(s, u) => EndpointOfferedGrows(sys, limits, Question(sys.streams[s].rows, s, u));
      case Say(s) => SaidGrows(sys, sys, limits, s);
    }
  }

  lemma PartialOfferedGrows(sys: System, limits: Limits, s: SessionId, u: UtteranceId, pcm: seq<nat>)
    requires s in sys.streams
    ensures EventsGrow(sys, PartialOffered(sys, limits, s, u, pcm), limits)
  {
    var queued := PartialQueued(sys, limits, s, u, pcm);
    SaidGrows(sys, queued, limits, s);
    OneStreamGrows(sys, queued, limits, s);
  }

  lemma EndpointOfferedGrows(sys: System, limits: Limits, job: TextJob)
    requires job.session in sys.streams
    ensures EventsGrow(sys, EndpointOffered(sys, limits, job), limits)
  {
    PutSame(sys, job.session);
    SaidGrows(sys, sys, limits, job.session);
    OneStreamGrows(sys, TextQueued(sys, limits, Endpoint, job), limits, job.session);
  }

  lemma StopBegunGrows(sys: System, limits: Limits, s: SessionId, speech: Option<(UtteranceId, seq<nat>)>)
    requires s in sys.streams
    ensures EventsGrow(sys, StopBegun(sys, limits, s, speech), limits)
  {
    if sys.streams[s].stop.Running? && speech.Some? {
      var phase := if StopRaises(sys, limits, s, speech) then StopFailed else Stopping;
      FinalOfferedGrows(Put(sys, s, sys.streams[s].(stop := phase)), limits, s, speech.value.0, speech.value.1);
    }
  }

  lemma LifeStepGrows(sys: System, limits: Limits, op: Op)
    requires IsLifeOp(op)
    ensures EventsGrow(sys, Next(sys, limits, op), limits)
  {
    match op
    case Stop(s, speech) =>
      if s in sys.streams {
        StopBegunGrows(sys, limits, s, speech);
      }
    case Close(s, speech) =>
      if s in sys.streams {
        StopBegunGrows(sys.(registered := sys.registered - {s}), limits, s, speech);
      }
    case FinalizeLedger(s) =>
    case Restart(s) =>
    case _ =>
  }

  lemma AsrStepGrows(sys: System, limits: Limits, op: Op)
    requires IsAsrOp(op)
    ensures EventsGrow(sys, Next(sys, limits, op), limits) && Next(sys, limits, op).registered == sys.registered
  {
    var sys' := Next(sys, limits, op);
    if sys'.streams != sys.streams {
      OneStreamGrows(sys, sys', limits,
                     if op.TakeAsr? then GetAsr(sys.asrQueue).1.job.session else sys.asr.job.session);
    }
  }

  lemma TextStepGrows(sys: System, limits: Limits, op: Op)
    requires IsTextOp(op)
    ensures EventsGrow(sys, Next(sys, limits, op), limits) && Next(sys, limits, op).registered == sys.registered
  {
    var sys' := Next(sys, limits, op);
    if sys'.streams != sys.streams {
      OneStreamGrows(sys, sys', limits,
                     if op.TakeText? then GetText(sys.textQueue).1.job.session else sys.text.job.session);
    }
  }

  lemma NextGrows(sys: System, limits: Limits, op: Op)
    requires !IsEventOp(op)
    ensures EventsGrow(sys, Next(sys, limits, op), limits)
  {
    if IsClientOp(op) {
      ClientStepGrows(sys, limits, op);
    } else if IsLifeOp(op) {
      LifeStepGrows(sys, limits, op);
    } else if IsAsrOp(op) {
      AsrStepGrows(sys, limits, op);
    } else {
      TextStepGrows(sys, limits, op);
    }
  }

  lemma NextFits(sys: System, limits: Limits, op: Op)
    requires Fits(sys, limits)
    ensures Fits(Next(sys, limits, op), limits)
  {
    if !IsEventOp(op) {
      NextGrows(sys, limits, op);
    }
  }

  /** In every interleaving no event queue holds more than its capacity. */
  lemma {:induction false} RunFits(sys: System, limits: Limits, ops: seq<Op>)
    requires Fits(sys, limits)
    ensures Fits(Run(sys, limits, ops), limits)
    decreases |ops|
  {
    if ops != [] {
      NextFits(sys, limits, ops[0]);
      RunFits(Next(sys, limits, ops[0]), limits, ops[1..]);
    }
  }

  // ---------- no event is lost or made up ----------

  /** The events of a stream that are in its queue or wait for room there. */
  function Outstanding(st: Stream): nat {
    st.waiting + st.owed
  }

  /** The client's operation gives one event: for itself, that a job is queued, or that a lane is full. */
  predicate SaysOne(sys: System, limits: Limits, op: Op) {
    || op.Say?
    || ((op.QueuePartial? || op.QueueFinal?) && !sys.asrQueue.closed)
    || (op.QueueEndpoint? && !sys.textQueue.closed && |sys.textQueue.endpoints| >= limits.texts)
  }

  /** An event of a client goes into the queue exactly when there is room, and waits otherwise. */
  lemma ClientEventIsKept(sys: System, limits: Limits, op: Op)
    requires IsClientOp(op) && op.session in sys.streams
    ensures op.session in Next(sys, limits, op).streams
    ensures var st, st' := sys.streams[op.session], Next(sys, limits, op).streams[op.session];
            if !SaysOne(sys, limits, op) then st'.waiting == st.waiting && st'.owed == st.owed
            else if st.waiting < limits.events then st'.waiting == st.waiting + 1 && st'.owed == st.owed
            else st'.waiting == st.waiting && st'.owed == st.owed + 1
  {
    match op
    case QueuePartial(s, u, pcm) => PartialOfferedSays(sys, limits, s, u, pcm);
    case QueueFinal(_, _, _) =>
    case QueueEndpoint(_, _) =>
    case Say(_) =>
  }

  lemma PartialOfferedSays(sys: System, limits: Limits, s: SessionId, u: UtteranceId, pcm: seq<nat>)
    requires s in sys.streams
    ensures var queued := PartialQueued(sys, limits, s, u, pcm);
            && s in queued.streams
            && queued.streams[s].waiting == sys.streams[s].waiting && queued.streams[s].owed == sys.streams[s].owed
  {
  }

  /** What waits is delivered exactly when there is room, given up, or read; readers come to registered streams. */
  lemma EventStepMoves(sys: System, limits: Limits, op: Op)
    requires IsEventOp(op) && op.session in sys.streams
    ensures var sys' := Next(sys, limits, op);
            && op.session in sys'.streams
            && var st, st' := sys.streams[op.session], sys'.streams[op.session];
               match op
               case Deliver(_) =>
                 && Outstanding(st') == Outstanding(st) && st'.readers == st.readers
                 && st'.waiting == st.waiting + (if st.owed > 0 && st.waiting < limits.events then 1 else 0)
               case GiveUp(_) =>
                 && st'.waiting == st.waiting && st'.readers == st.readers
                 && st'.owed == (if st.owed > 0 then st.owed - 1 else 0)
               case ReadEvent(_) =>
                 && st'.owed == st.owed && st'.readers == st.readers
                 && st'.waiting == st.waiting - (if st.readers > 0 && st.waiting > 0 then 1 else 0)
               case Attach(s) =>
                 Outstanding(st') == Outstanding(st) && st'.waiting == st.waiting
                 && st'.readers == st.readers + (if s in sys.registered then 1 else 0)
               case Detach(_) =>
                 Outstanding(st') == Outstanding(st) && st'.waiting == st.waiting
                 && st'.readers == (if st.readers > 0 then st.readers - 1 else 0)
               case _ => true
  {
  }

  /** A worker's event goes into the queue of its stream, before anything else comes of it. */
  lemma WorkerEventIsPut(sys: System, limits: Limits)
    ensures var sys' := Next(sys, limits, if sys.asr.FinalTold? then QueueCorrection else AsrTell);
            AsrMayTell(sys, limits) ==>
              && sys.asr.job.session in sys'.streams && sys'.asr != sys.asr
              && sys'.streams[sys.asr.job.session].waiting == sys.streams[sys.asr.job.session].waiting + 1
    ensures var sys' := Next(sys, limits, TextTell);
            TextMayTell(sys, limits) ==>
              && sys.text.job.session in sys'.streams && sys'.text != sys.text
              && sys'.streams[sys.text.job.session].waiting == sys.streams[sys.text.job.session].waiting + 1
  {
  }

  lemma {:induction false} RunPlusOne(sys: System, limits: Limits, ops: seq<Op>, op: Op)
    ensures Run(sys, limits, ops + [op]) == Next(Run(sys, limits, ops), limits, op)
    decreases |ops|
  {
    if ops == [] {
      assert [op][1..] == [];
    } else {
      assert (ops + [op])[1..] == ops[1..] + [op];
      RunPlusOne(Next(sys, limits, ops[0]), limits, ops[1..], op);
    }
  }

  // ---------- a full queue that nobody reads ----------

  lemma NextKeepsUnregistered(sys: System, limits: Limits, op: Op, s: SessionId)
    requires s in sys.streams && s !in sys.registered
    ensures var sys' := Next(sys, limits, op); s in sys'.streams && s !in sys'.registered
  {
    if IsAsrOp(op) {
      AsrStepGrows(sys, limits, op);
    } else if IsTextOp(op) {
      TextStepGrows(sys, limits, op);
    }
  }

  /** The stream has left the registry, nobody takes its events any more, and there is no room for another. */
  ghost predicate Clogged(sys: System, limits: Limits, s: SessionId) {
    && s in sys.streams && s !in sys.registered
    && sys.streams[s].readers == 0 && sys.streams[s].waiting >= limits.events
  }

  lemma NextStaysUnread(sys: System, limits: Limits, op: Op, s: SessionId)
    requires s in sys.streams && s !in sys.registered && sys.streams[s].readers == 0
    ensures var sys' := Next(sys, limits, op);
            && s in sys'.streams && s !in sys'.registered && sys'.streams[s].readers == 0
            && (IsEventOp(op) || sys'.streams[s].waiting >= sys.streams[s].waiting)
  {
    NextKeepsUnregistered(sys, limits, op, s);
    if !IsEventOp(op) {
      NextGrows(sys, limits, op);
      assert PutsAtMostOne(sys.streams[s], Next(sys, limits, op).streams[s], limits);
    }
  }

  lemma NextClogged(sys: System, limits: Limits, op: Op, s: SessionId)
    requires Clogged(sys, limits, s)
    ensures Clogged(Next(sys, limits, op), limits, s)
  {
    NextStaysUnread(sys, limits, op, s);
  }

  /** The worker's next step puts an event. */
  predicate AsrTells(asr: AsrWorker) {
    asr.AsrTelling? || asr.FinalAccepted? || asr.FinalTold?
  }

  predicate TextTells(text: TextWorker) {
    text.TextTelling? || text.TextNoting?
  }

  /** The recognition worker has an event to put into a clogged queue. */
  ghost predicate AsrHangs(sys: System, limits: Limits) {
    AsrTells(sys.asr) && Clogged(sys, limits, sys.asr.job.session)
  }

  ghost predicate TextHangs(sys: System, limits: Limits) {
    TextTells(sys.text) && Clogged(sys, limits, sys.text.job.session)
  }

  lemma NextHangs(sys: System, limits: Limits, op: Op)
    ensures AsrHangs(sys, limits) ==>
              AsrHangs(Next(sys, limits, op), limits) && Next(sys, limits, op).asr == sys.asr
    ensures TextHangs(sys, limits) ==>
              TextHangs(Next(sys, limits, op), limits) && Next(sys, limits, op).text == sys.text
  {
    if AsrHangs(sys, limits) {
      NextClogged(sys, limits, op, sys.asr.job.session);
    }
    if TextHangs(sys, limits) {
      NextClogged(sys, limits, op, sys.text.job.session);
    }
    WorkersMoveThemselves(sys, limits, op);
  }

  /** Only its own steps change what a worker is doing, and a telling worker needs room for that. */
  lemma WorkersMoveThemselves(sys: System, limits: Limits, op: Op)
    ensures !IsAsrOp(op) ==> Next(sys, limits, op).asr == sys.asr
    ensures !IsTextOp(op) ==> Next(sys, limits, op).text == sys.text
    ensures AsrTells(sys.asr) ==> AsrMayTell(sys, limits) || Next(sys, limits, op).asr == sys.asr
    ensures TextTells(sys.text) ==> TextMayTell(sys, limits) || Next(sys, limits, op).text == sys.text
  {
    if IsAsrOp(op) {
      AsrStepStops(sys, limits, op);
      AsrWaitsForRoom(sys, limits, op);
    } else if IsTextOp(op) {
      TextStepStops(sys, limits, op);
      TextWaitsForRoom(sys, limits, op);
    } else {
      OthersLeaveWorkers(sys, limits, op);
    }
  }

  lemma OthersLeaveWorkers(sys: System, limits: Limits, op: Op)
    requires !IsAsrOp(op) && !IsTextOp(op)
    ensures Next(sys, limits, op).asr == sys.asr && Next(sys, limits, op).text == sys.text
  {
  }

  lemma AsrWaitsForRoom(sys: System, limits: Limits, op: Op)
    requires IsAsrOp(op)
    ensures AsrTells(sys.asr) ==> AsrMayTell(sys, limits) || Next(sys, limits, op).asr == sys.asr
  {
  }

  lemma TextWaitsForRoom(sys: System, limits: Limits, op: Op)
    requires IsTextOp(op)
    ensures TextTells(sys.text) ==> TextMayTell(sys, limits) || Next(sys, limits, op).text == sys.text
  {
  }

  /** A loop that hangs at a clogged queue stays there for ever, whatever happens, and serves no stream again. */
  lemma {:induction false} HangingLoopNeverMoves(sys: System, limits: Limits, ops: seq<Op>)
    ensures AsrHangs(sys, limits) ==> Run(sys, limits, ops).asr == sys.asr
    ensures TextHangs(sys, limits) ==> Run(sys, limits, ops).text == sys.text
    decreases |ops|
  {
    if ops != [] {
      NextHangs(sys, limits, ops[0]);
      HangingLoopNeverMoves(Next(sys, limits, ops[0]), limits, ops[1..]);
    }
  }

  /** The step that puts the recognition worker's next event. */
  function AsrTellingStep(asr: AsrWorker): Op {
    if asr.FinalTold? then QueueCorrection else AsrTell
  }

  /** What makes room, where room can be made: a reader takes an event, and a stream in the registry can get one. */
  function RoomMakers(sys: System, limits: Limits, s: SessionId): seq<Op>
    requires s in sys.streams
  {
    if HasRoom(sys.streams[s], limits) then []
    else if sys.streams[s].readers > 0 then [ReadEvent(s)]
    else [Attach(s), ReadEvent(s)]
  }

  lemma RoomIsMade(sys: System, limits: Limits, s: SessionId)
    requires Fits(sys, limits) && s in sys.streams && !Clogged(sys, limits, s)
    ensures var sys' := Run(sys, limits, RoomMakers(sys, limits, s));
            sys'.asr == sys.asr && s in sys'.streams && HasRoom(sys'.streams[s], limits)
  {
    var attached := Next(sys, limits, Attach(s));
    assert [Attach(s), ReadEvent(s)][1..] == [ReadEvent(s)] && [ReadEvent(s)][1..] == [];
    assert Run(attached, limits, [ReadEvent(s)]) == Next(attached, limits, ReadEvent(s));
    assert Run(sys, limits, [ReadEvent(s)]) == Next(sys, limits, ReadEvent(s));
  }

  /** A recognition loop with an event to put can get on exactly when it does not hang. */
  lemma LoopMovesOnIff(sys: System, limits: Limits)
    requires Fits(sys, limits) && AsrTells(sys.asr) && sys.asr.job.session in sys.streams
    ensures (exists ops :: Run(sys, limits, ops).asr != sys.asr) <==> !AsrHangs(sys, limits)
  {
    if AsrHangs(sys, limits) {
      forall ops
        ensures Run(sys, limits, ops).asr == sys.asr
      {
        HangingLoopNeverMoves(sys, limits, ops);
      }
    } else {
      var s, op := sys.asr.job.session, AsrTellingStep(sys.asr);
      var ops := RoomMakers(sys, limits, s);
      RoomIsMade(sys, limits, s);
      RunPlusOne(sys, limits, ops, op);
      assert Next(Run(sys, limits, ops), limits, op).asr != sys.asr;
    }
  }

  // ---------- a loop that serves nobody ----------

  /** The recognition loop has ended or hangs. */
  ghost predicate AsrDead(sys: System, limits: Limits) {
    sys.asr.AsrStopped? || AsrHangs(sys, limits)
  }

  ghost predicate TextDead(sys: System, limits: Limits) {
    sys.text.TextStopped? || TextHangs(sys, limits)
  }

  function AsrQueued(q: AsrQueue, s: SessionId): nat {
    Count(AsrSessions(q.finals), s) + Count(AsrSessions(q.partials), s)
  }

  function TextsQueued(q: TextQueue, s: SessionId): nat {
    Count(TextSessions(q.endpoints), s) + Count(TextSessions(q.corrections), s)
  }

  /** Work enters a queue at the end of a lane or in the slot of its utterance. */
  ghost predicate AsrQueueGrows(q: AsrQueue, q': AsrQueue) {
    && (q'.finals == q.finals || exists job :: q'.finals == q.finals + [job])
    && (q'.partials == q.partials || exists job :: q'.partials == Stored(q.partials, job))
  }

  ghost predicate TextQueueGrows(q: TextQueue, q': TextQueue) {
    && (q'.endpoints == q.endpoints || exists job :: q'.endpoints == q.endpoints + [job])
    && (q'.corrections == q.corrections || exists job :: q'.corrections == q.corrections + [job])
  }

  lemma GrowingKeepsCounts(q: AsrQueue, q': AsrQueue, s: SessionId)
    requires AsrQueueGrows(q, q')
    ensures AsrQueued(q', s) >= AsrQueued(q, s)
  {
    if job :| q'.finals == q.finals + [job] {
      AsrPush(q.finals, job);
    }
    if job :| q'.partials == Stored(q.partials, job) {
      SlotStored(q.partials, job);
    }
  }

  lemma GrowingKeepsTextCounts(q: TextQueue, q': TextQueue, s: SessionId)
    requires TextQueueGrows(q, q')
    ensures TextsQueued(q', s) >= TextsQueued(q, s)
  {
    if job :| q'.endpoints == q.endpoints + [job] {
      TextPush(q.endpoints, job);
    }
    if job :| q'.corrections == q.corrections + [job] {
      TextPush(q.corrections, job);
    }
  }

  lemma NextGrowsQueues(sys: System, limits: Limits, op: Op)
    ensures !(op.TakeAsr? && sys.asr.AsrWaiting?) ==> AsrQueueGrows(sys.asrQueue, Next(sys, limits, op).asrQueue)
    ensures !(op.TakeText? && sys.text.TextWaiting?) ==> TextQueueGrows(sys.textQueue, Next(sys, limits, op).textQueue)
  {
    if IsClientOp(op) {
      ClientStepGrowsQueues(sys, limits, op);
    } else if op.Stop? || op.Close? {
      StopGrowsQueues(sys, limits, op);
    } else if op.TextResult? {
      TextResultGrowsQueues(sys, limits, op.outcome);
    } else if op.QueueCorrection? {
      CorrectionGrowsQueue(sys, limits);
    } else if !op.TakeAsr? && !op.TakeText? {
      var sys' := Next(sys, limits, op);
      assert sys'.asrQueue.finals == sys.asrQueue.finals && sys'.asrQueue.partials == sys.asrQueue.partials;
      assert sys'.textQueue.endpoints == sys.textQueue.endpoints;
      assert sys'.textQueue.corrections == sys.textQueue.corrections;
    }
  }

  lemma ClientStepGrowsQueues(sys: System, limits: Limits, op: Op)
    requires IsClientOp(op)
    ensures AsrQueueGrows(sys.asrQueue, Next(sys, limits, op).asrQueue)
    ensures TextQueueGrows(sys.textQueue, Next(sys, limits, op).textQueue)
  {
    match op
    case QueuePartial(_, _, _) =>
    case QueueFinal(_, _, _) =>
    case QueueEndpoint(_, _) =>
    case Say(_) =>
  }

  lemma StopGrowsQueues(sys: System, limits: Limits, op: Op)
    requires op.Stop? || op.Close?
    ensures AsrQueueGrows(sys.asrQueue, Next(sys, limits, op).asrQueue)
    ensures Next(sys, limits, op).textQueue == sys.textQueue
  {
  }

  lemma TextResultGrowsQueues(sys: System, limits: Limits, outcome: TextOutcome)
    ensures AsrQueueGrows(sys.asrQueue, Next(sys, limits, TextResult(outcome)).asrQueue)
    ensures Next(sys, limits, TextResult(outcome)).textQueue == sys.textQueue
  {
  }

  lemma CorrectionGrowsQueue(sys: System, limits: Limits)
    ensures Next(sys, limits, QueueCorrection).asrQueue == sys.asrQueue
    ensures TextQueueGrows(sys.textQueue, Next(sys, limits, QueueCorrection).textQueue)
  {
  }

  lemma NextDead(sys: System, limits: Limits, op: Op, s: SessionId)
    ensures AsrDead(sys, limits) ==>
              var sys' := Next(sys, limits, op);
              AsrDead(sys', limits) && AsrQueued(sys'.asrQueue, s) >= AsrQueued(sys.asrQueue, s)
    ensures TextDead(sys, limits) ==>
              var sys' := Next(sys, limits, op);
              TextDead(sys', limits) && TextsQueued(sys'.textQueue, s) >= TextsQueued(sys.textQueue, s)
  {
    NextHangs(sys, limits, op);
    StoppedStep(sys, limits, op);
    NextGrowsQueues(sys, limits, op);
    if AsrDead(sys, limits) {
      GrowingKeepsCounts(sys.asrQueue, Next(sys, limits, op).asrQueue, s);
    }
    if TextDead(sys, limits) {
      GrowingKeepsTextCounts(sys.textQueue, Next(sys, limits, op).textQueue, s);
    }
  }

  /** Work of a stream waits in the queue of a loop that serves nobody any more. */
  ghost predicate Abandoned(sys: System, limits: Limits, s: SessionId) {
    || (AsrDead(sys, limits) && AsrQueued(sys.asrQueue, s) > 0)
    || (TextDead(sys, limits) && TextsQueued(sys.textQueue, s) > 0)
  }

  /** Once a loop has ended or hangs, no stream with work in its queue ever becomes idle, in the registry or not. */
  lemma {:induction false} AbandonedStreamIsNeverIdle(sys: System, limits: Limits, ops: seq<Op>, s: SessionId)
    requires Accounts(sys) && Abandoned(sys, limits, s)
    ensures var end := Run(sys, limits, ops); s in end.streams && !end.streams[s].idle
    decreases |ops|
  {
    if ops == [] {
      assert Queued(sys, s) > 0;
      assert Exact(sys, s);
    } else {
      NextDead(sys, limits, ops[0], s);
      NextKeepsAccounts(sys, limits, ops[0]);
      AbandonedStreamIsNeverIdle(Next(sys, limits, ops[0]), limits, ops[1..], s);
    }
  }
}
