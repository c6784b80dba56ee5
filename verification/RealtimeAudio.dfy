/** Which audio the recognition jobs carry, from the client that spoke to the worker that transcribes. */
module RealtimeAudio {
  import opened Wrappers
  import opened RealtimeQueue
  import opened RealtimeCoordinator
  import opened RealtimeAccounting
  import opened RealtimeEvents

  /** Audio of one utterance. */
  datatype Clip = Clip(session: SessionId, utterance: UtteranceId, pcm: seq<nat>)

  function ClipOf(job: AsrJob): Clip {
    Clip(job.session, job.utterance, job.pcm)
  }

  function Clips(jobs: seq<AsrJob>): seq<Clip> {
    seq(|jobs|, i requires 0 <= i < |jobs| => ClipOf(jobs[i]))
  }

  // ---------- finals ----------

  /** The utterance that this step finishes, with its audio. */
  function Finished(sys: System, op: Op): Option<Clip> {
    match op
    case QueueFinal(s, u, pcm) => if s in sys.streams then Some(Clip(s, u, pcm)) else None
    case Stop(s, Some(speech)) =>
      if s in sys.streams && sys.streams[s].stop.Running? then Some(Clip(s, speech.0, speech.1)) else None
    case Close(s, Some(speech)) =>
      if s in sys.registered && s in sys.streams && sys.streams[s].stop.Running?
      then Some(Clip(s, speech.0, speech.1)) else None
    case TextResult(Completes(u, pcm)) =>
      if && sys.text.Inferring? && sys.text.job.mode.Endpoint? && sys.text.job.session in sys.streams
         && !Blank(sys.text.job.currentText)
      then Some(Clip(sys.text.job.session, u, pcm)) else None
    case _ => None
  }

  /** The final lane is open and has room. */
  predicate FinalFits(sys: System, limits: Limits) {
    !sys.asrQueue.closed && |sys.asrQueue.finals| < limits.finals
  }

  /** What this step adds to the final lane: one clip exactly when an utterance is finished and the lane takes it. */
  function Added(sys: System, limits: Limits, op: Op): seq<Clip> {
    match Finished(sys, op)
    case Some(clip) => if FinalFits(sys, limits) then [clip] else []
    case None => []
  }

  /** The clips that this step takes from the final lane. */
  function Taken(sys: System, op: Op): seq<Clip> {
    if op.TakeAsr? && sys.asr.AsrWaiting? && sys.asrQueue.finals != [] then [ClipOf(sys.asrQueue.finals[0])] else []
  }

  lemma ClipsPlusOne(jobs: seq<AsrJob>, job: AsrJob)
    ensures Clips(jobs + [job]) == Clips(jobs) + [ClipOf(job)]
  {
  }

  lemma ClipsHead(jobs: seq<AsrJob>)
    requires jobs != []
    ensures Clips(jobs) == [ClipOf(jobs[0])] + Clips(jobs[1..])
  {
  }

  lemma ClientAdds(sys: System, limits: Limits, op: Op)
    requires IsClientOp(op)
    ensures Clips(Next(sys, limits, op).asrQueue.finals) == Clips(sys.asrQueue.finals) + Added(sys, limits, op)
  {
    match op
    case QueuePartial(_, _, _) =>
    case QueueFinal(s, u, pcm) => ClipsPlusOne(sys.asrQueue.finals, AsrJob(s, u, 1, Final, pcm));
    case QueueEndpoint(_, _) =>
    case Say(_) =>
  }

  lemma StopAdds(sys: System, limits: Limits, op: Op)
    requires op.Stop? || op.Close?
    ensures Clips(Next(sys, limits, op).asrQueue.finals) == Clips(sys.asrQueue.finals) + Added(sys, limits, op)
  {
    if op.speech.Some? {
      ClipsPlusOne(sys.asrQueue.finals, AsrJob(op.session, op.speech.value.0, 1, Final, op.speech.value.1));
    }
  }

  lemma AnswerAdds(sys: System, limits: Limits, outcome: TextOutcome)
    ensures Clips(Next(sys, limits, TextResult(outcome)).asrQueue.finals)
            == Clips(sys.asrQueue.finals) + Added(sys, limits, TextResult(outcome))
  {
    if outcome.Completes? && sys.text.Inferring? {
      ClipsPlusOne(sys.asrQueue.finals, AsrJob(sys.text.job.session, outcome.utterance, 1, Final, outcome.pcm));
    }
  }

  /** Every other step leaves the final lane alone. */
  lemma OthersAddNothing(sys: System, limits: Limits, op: Op)
    requires !IsClientOp(op) && !op.Stop? && !op.Close? && !op.TextResult? && !op.TakeAsr?
    ensures Next(sys, limits, op).asrQueue.finals == sys.asrQueue.finals && Added(sys, limits, op) == []
  {
  }

  /** One step: what the lane held and what was added is what was taken and what it holds, in order. */
  lemma StepConservesClips(sys: System, limits: Limits, op: Op)
    ensures Clips(sys.asrQueue.finals) + Added(sys, limits, op)
            == Taken(sys, op) + Clips(Next(sys, limits, op).asrQueue.finals)
  {
    if op.TakeAsr? {
      if Taken(sys, op) != [] {
        ClipsHead(sys.asrQueue.finals);
        assert Next(sys, limits, op).asrQueue.finals == sys.asrQueue.finals[1..];
      } else {
        assert Next(sys, limits, op).asrQueue.finals == sys.asrQueue.finals;
      }
    } else if IsClientOp(op) {
      ClientAdds(sys, limits, op);
    } else if op.Stop? || op.Close? {
      StopAdds(sys, limits, op);
    } else if op.TextResult? {
      AnswerAdds(sys, limits, op.outcome);
    } else {
      OthersAddNothing(sys, limits, op);
    }
  }

  /** The clips of the utterances that a run finished and the lane took. */
  function AllAdded(sys: System, limits: Limits, ops: seq<Op>): seq<Clip>
    decreases |ops|
  {
    if ops == [] then [] else Added(sys, limits, ops[0]) + AllAdded(Next(sys, limits, ops[0]), limits, ops[1..])
  }

  function AllTaken(sys: System, limits: Limits, ops: seq<Op>): seq<Clip>
    decreases |ops|
  {
    if ops == [] then [] else Taken(sys, ops[0]) + AllTaken(Next(sys, limits, ops[0]), limits, ops[1..])
  }

  /** In every interleaving the worker takes the finished utterances in order, each with the audio it ended with. */
  lemma {:induction false} RunConservesClips(sys: System, limits: Limits, ops: seq<Op>)
    ensures Clips(sys.asrQueue.finals) + AllAdded(sys, limits, ops)
            == AllTaken(sys, limits, ops) + Clips(Run(sys, limits, ops).asrQueue.finals)
    decreases |ops|
  {
    if ops != [] {
      var next := Next(sys, limits, ops[0]);
      StepConservesClips(sys, limits, ops[0]);
      RunConservesClips(next, limits, ops[1..]);
      ConservedTwice(Clips(sys.asrQueue.finals), Added(sys, limits, ops[0]), Taken(sys, ops[0]),
                     Clips(next.asrQueue.finals), AllAdded(next, limits, ops[1..]), AllTaken(next, limits, ops[1..]),
                     Clips(Run(next, limits, ops[1..]).asrQueue.finals));
    }
  }

  lemma ConservedTwice(held: seq<Clip>, added: seq<Clip>, taken: seq<Clip>, between: seq<Clip>, added': seq<Clip>,
                       taken': seq<Clip>, left: seq<Clip>)
    requires held + added == taken + between && between + added' == taken' + left
    ensures held + (added + added') == taken + taken' + left
  {
    assert held + (added + added') == held + added + added';
    assert taken + between + added' == taken + (between + added');
    assert taken + (taken' + left) == taken + taken' + left;
  }

  // ---------- partials ----------

  /** The audio that waits for this utterance in the partial lane. */
  function Slot(sys: System, s: SessionId, u: UtteranceId): Option<Clip> {
    var i := SlotOf(sys.asrQueue.partials, (s, u));
    if i < |sys.asrQueue.partials| then Some(ClipOf(sys.asrQueue.partials[i])) else None
  }

  /** The partial lane is open, and has a slot for this utterance or room for one. */
  predicate PartialFits(sys: System, limits: Limits, s: SessionId, u: UtteranceId) {
    && !sys.asrQueue.closed
    && (Slot(sys, s, u).Some? || |sys.asrQueue.partials| < limits.partials)
  }

  lemma SlotIsUnique(partials: seq<AsrJob>, i: nat)
    requires OneSlotEach(partials) && i < |partials|
    ensures SlotOf(partials, partials[i].Key()) == i
  {
  }

  lemma StoredSlots(partials: seq<AsrJob>, job: AsrJob, key: (SessionId, UtteranceId))
    ensures var i := SlotOf(Stored(partials, job), key);
            if key == job.Key() then i < |Stored(partials, job)| && Stored(partials, job)[i] == job
            else
              var k := SlotOf(partials, key);
              && (k < |partials| ==> i < |Stored(partials, job)| && Stored(partials, job)[i] == partials[k])
              && (k == |partials| ==> i == |Stored(partials, job)|)
  {
    var after, at := Stored(partials, job), SlotOf(partials, job.Key());
    assert forall j :: 0 <= j < |partials| && j != at ==> after[j] == partials[j];
    assert at < |after| && after[at] == job;
    var i, k := SlotOf(after, key), SlotOf(partials, key);
    if key == job.Key() {
      assert after[at].Key() == key;
    } else if k < |partials| {
      assert after[k].Key() == key;
      assert forall j :: 0 <= j < k ==> after[j].Key() != key;
    }
  }

  /** A partial that the lane takes is what waits for its utterance, with this audio; every other slot stays. */
  lemma PartialIsStored(sys: System, limits: Limits, s: SessionId, u: UtteranceId, pcm: seq<nat>)
    requires s in sys.streams
    ensures var sys' := Next(sys, limits, QueuePartial(s, u, pcm));
            forall t, v :: Slot(sys', t, v)
                           == if t == s && v == u && PartialFits(sys, limits, s, u) then Some(Clip(s, u, pcm))
                              else Slot(sys, t, v)
  {
    var sys' := Next(sys, limits, QueuePartial(s, u, pcm));
    var job := AsrJob(s, u, sys.streams[s].generation + 1, Partial, pcm);
    if PartialFits(sys, limits, s, u) {
      assert sys'.asrQueue.partials == Stored(sys.asrQueue.partials, job);
      forall t, v
        ensures Slot(sys', t, v) == if t == s && v == u then Some(Clip(s, u, pcm)) else Slot(sys, t, v)
      {
        StoredSlots(sys.asrQueue.partials, job, (t, v));
      }
    } else {
      assert sys'.asrQueue.partials == sys.asrQueue.partials;
    }
  }

  // ---------- what is transcribed ----------

  /** The audio that this step offers for recognition, final or not. */
  function Offered(sys: System, op: Op): set<(AsrMode, Clip)> {
    match Finished(sys, op)
    case Some(clip) => {(Final, clip)}
    case None => if op.QueuePartial? then {(Partial, Clip(op.session, op.utterance, op.pcm))} else {}
  }

  function AllOffered(sys: System, limits: Limits, ops: seq<Op>): set<(AsrMode, Clip)>
    decreases |ops|
  {
    if ops == [] then {} else Offered(sys, ops[0]) + AllOffered(Next(sys, limits, ops[0]), limits, ops[1..])
  }

  predicate IsOffered(offered: set<(AsrMode, Clip)>, job: AsrJob) {
    (job.mode, ClipOf(job)) in offered
  }

  predicate AsrAtJob(asr: AsrWorker) {
    !asr.AsrWaiting? && !asr.AsrStopped?
  }

  /** Every job in the queue or at the worker carries the audio of a step that offered it. */
  ghost predicate JobsAreOffered(sys: System, offered: set<(AsrMode, Clip)>) {
    && (forall j :: j in sys.asrQueue.finals ==> IsOffered(offered, j))
    && (forall j :: j in sys.asrQueue.partials ==> IsOffered(offered, j))
    && (AsrAtJob(sys.asr) ==> IsOffered(offered, sys.asr.job))
  }

  /** The lanes grow by jobs that the step offers, at most. */
  ghost predicate LanesGrowBy(q: AsrQueue, q': AsrQueue, offered: set<(AsrMode, Clip)>) {
    && (forall j :: j in q'.finals ==> j in q.finals || IsOffered(offered, j))
    && (forall j :: j in q'.partials ==> j in q.partials || IsOffered(offered, j))
  }

  lemma ClientOffers(sys: System, limits: Limits, op: Op)
    requires IsClientOp(op)
    ensures LanesGrowBy(sys.asrQueue, Next(sys, limits, op).asrQueue, Offered(sys, op))
  {
    match op
    case QueuePartial(s, u, pcm) =>
    case QueueFinal(s, u, pcm) =>
    case QueueEndpoint(_, _) =>
    case Say(_) =>
  }

  lemma StopOffers(sys: System, limits: Limits, op: Op)
    requires op.Stop? || op.Close?
    ensures LanesGrowBy(sys.asrQueue, Next(sys, limits, op).asrQueue, Offered(sys, op))
  {
  }

  lemma AnswerOffers(sys: System, limits: Limits, outcome: TextOutcome)
    ensures var op := TextResult(outcome);
            LanesGrowBy(sys.asrQueue, Next(sys, limits, op).asrQueue, Offered(sys, op))
  {
  }

  lemma OthersOfferNothing(sys: System, limits: Limits, op: Op)
    requires !IsClientOp(op) && !op.Stop? && !op.Close? && !op.TextResult?
    ensures LanesGrowBy(sys.asrQueue, Next(sys, limits, op).asrQueue, {})
  {
  }

  /** The worker stays with its job, leaves it, or takes one from the lanes. */
  lemma WorkerKeepsJob(sys: System, limits: Limits, op: Op)
    ensures var asr' := Next(sys, limits, op).asr;
            AsrAtJob(asr') ==>
              || (AsrAtJob(sys.asr) && asr'.job == sys.asr.job)
              || asr'.job in sys.asrQueue.finals || asr'.job in sys.asrQueue.partials
  {
    WorkersMoveThemselves(sys, limits, op);
    if IsAsrOp(op) {
      match op
      case TakeAsr =>
      case AsrResult(_) =>
      case AsrTell =>
      case QueueCorrection =>
      case AsrDone =>
    }
  }

  lemma StepOffers(sys: System, limits: Limits, op: Op, offered: set<(AsrMode, Clip)>)
    requires JobsAreOffered(sys, offered)
    ensures JobsAreOffered(Next(sys, limits, op), offered + Offered(sys, op))
  {
    LanesGrowByOffers(sys, limits, op);
    WorkerKeepsJob(sys, limits, op);
    GrowthIsOffered(sys, Next(sys, limits, op), offered, Offered(sys, op));
  }

  lemma GrowthIsOffered(sys: System, sys': System, offered: set<(AsrMode, Clip)>, more: set<(AsrMode, Clip)>)
    requires JobsAreOffered(sys, offered) && LanesGrowBy(sys.asrQueue, sys'.asrQueue, more)
    requires AsrAtJob(sys'.asr) ==>
               || (AsrAtJob(sys.asr) && sys'.asr.job == sys.asr.job)
               || sys'.asr.job in sys.asrQueue.finals || sys'.asr.job in sys.asrQueue.partials
    ensures JobsAreOffered(sys', offered + more)
  {
  }

  lemma LanesGrowByOffers(sys: System, limits: Limits, op: Op)
    ensures LanesGrowBy(sys.asrQueue, Next(sys, limits, op).asrQueue, Offered(sys, op))
  {
    if IsClientOp(op) {
      ClientOffers(sys, limits, op);
    } else if op.Stop? || op.Close? {
      StopOffers(sys, limits, op);
    } else if op.TextResult? {
      AnswerOffers(sys, limits, op.outcome);
    } else {
      OthersOfferNothing(sys, limits, op);
    }
  }

  lemma {:induction false} RunOffers(sys: System, limits: Limits, ops: seq<Op>, offered: set<(AsrMode, Clip)>)
    requires JobsAreOffered(sys, offered)
    ensures JobsAreOffered(Run(sys, limits, ops), offered + AllOffered(sys, limits, ops))
    decreases |ops|
  {
    if ops == [] {
      assert offered + {} == offered;
    } else {
      var now, next := Offered(sys, ops[0]), Next(sys, limits, ops[0]);
      StepOffers(sys, limits, ops[0], offered);
      RunOffers(next, limits, ops[1..], offered + now);
      assert offered + now + AllOffered(next, limits, ops[1..]) == offered + AllOffered(sys, limits, ops);
    }
  }

  /** In every run, whatever is queued or transcribed is the audio of a step that offered it for that utterance. */
  lemma EveryJobCarriesOfferedAudio(limits: Limits, ops: seq<Op>)
    ensures JobsAreOffered(Run(START, limits, ops), AllOffered(START, limits, ops))
  {
    RunOffers(START, limits, ops, {});
    assert {} + AllOffered(START, limits, ops) == AllOffered(START, limits, ops);
  }

  /** The worker transcribes the head of the lanes, finals first, when its stream is in the registry. */
  lemma TakenIsTranscribed(sys: System, limits: Limits)
    requires sys.asr.AsrWaiting?
    ensures var sys', q := Next(sys, limits, TakeAsr), sys.asrQueue;
            var head := if q.finals != [] then q.finals else q.partials;
            && (head != [] && head[0].session in sys.registered ==> sys'.asr == Transcribing(head[0]))
            && (head != [] && head[0].session !in sys.registered ==> sys'.asr.AsrWaiting?)
            && (head == [] ==> sys'.asr == if q.closed then AsrStopped else AsrWaiting)
  {
  }
}
