/** Partials of one utterance reach the ledger in strictly increasing generations. */
module RealtimeGenerations {
  import opened Wrappers
  import opened RealtimeQueue
  import opened RealtimeCoordinator
  import opened RealtimeAccounting

  /** Strictly increasing per utterance. */
  ghost predicate Increasing(offered: seq<(UtteranceId, nat)>) {
    forall i, j :: 0 <= i < j < |offered| && offered[i].0 == offered[j].0 ==> offered[i].1 < offered[j].1
  }

  /** Every generation offered for `u` is below `generation`. */
  ghost predicate OfferedBelow(offered: seq<(UtteranceId, nat)>, u: UtteranceId, generation: nat) {
    forall i :: 0 <= i < |offered| && offered[i].0 == u ==> offered[i].1 < generation
  }

  ghost predicate StreamOrdered(st: Stream) {
    && Increasing(st.offered)
    && (forall u :: u in st.latest ==> st.latest[u] <= st.generation && OfferedBelow(st.offered, u, st.latest[u] + 1))
    && (forall i :: 0 <= i < |st.offered| ==> st.offered[i].0 in st.latest)
  }

  /** A partial on its way: known to its stream, and newer than everything offered for its utterance. */
  ghost predicate JobOrdered(streams: map<SessionId, Stream>, job: AsrJob) {
    && job.session in streams
    && var st := streams[job.session];
       && job.utterance in st.latest && job.generation <= st.latest[job.utterance]
       && OfferedBelow(st.offered, job.utterance, job.generation)
  }

  ghost predicate Newer(slot: AsrJob, inFlight: AsrJob) {
    slot.Key() == inFlight.Key() ==> slot.generation > inFlight.generation
  }

  ghost predicate Ordered(sys: System) {
    && OneSlotEach(sys.asrQueue.partials)
    && (forall j :: j in sys.asrQueue.finals ==> j.mode.Final?)
    && (forall s :: s in sys.streams ==> StreamOrdered(sys.streams[s]))
    && (forall j :: j in sys.asrQueue.partials ==> j.mode.Partial? && JobOrdered(sys.streams, j))
    && (sys.asr.Transcribing? && sys.asr.job.mode.Partial? ==>
          && JobOrdered(sys.streams, sys.asr.job)
          && forall j :: j in sys.asrQueue.partials ==> Newer(j, sys.asr.job))
  }

  // ---------- queueing a partial ----------

  lemma NumberedOrdered(st: Stream, u: UtteranceId)
    requires StreamOrdered(st)
    ensures StreamOrdered(Numbered(st, u)) && OfferedBelow(st.offered, u, st.generation + 1)
  {
    forall i | 0 <= i < |st.offered|
      ensures st.offered[i].1 <= st.generation
    {
      assert st.offered[i].0 in st.latest;
      assert OfferedBelow(st.offered, st.offered[i].0, st.latest[st.offered[i].0] + 1);
    }
  }

  /** Numbering a partial keeps every job ordered; only the counters may differ otherwise. */
  lemma NumberingKeepsJobs(streams: map<SessionId, Stream>, s: SessionId, u: UtteranceId, st': Stream, job: AsrJob)
    requires s in streams && StreamOrdered(streams[s]) && JobOrdered(streams, job)
    requires st'.latest == Numbered(streams[s], u).latest && st'.offered == streams[s].offered
    ensures JobOrdered(streams[s := st'], job)
  {
  }

  /** The stream has numbered `job`, and the slots are the old ones, possibly with `job` stored. */
  lemma NumberedSystemOrdered(sys: System, s: SessionId, u: UtteranceId, st': Stream, slots: seq<AsrJob>, job: AsrJob)
    requires Ordered(sys) && s in sys.streams
    requires st'.latest == Numbered(sys.streams[s], u).latest && st'.offered == sys.streams[s].offered
    requires st'.generation == sys.streams[s].generation + 1
    requires job.session == s && job.utterance == u && job.generation == st'.generation && job.mode.Partial?
    requires OneSlotEach(slots) && forall j :: j in slots ==> j == job || j in sys.asrQueue.partials
    ensures Ordered(Put(sys.(asrQueue := sys.asrQueue.(partials := slots)), s, st'))
  {
    var sys' := Put(sys.(asrQueue := sys.asrQueue.(partials := slots)), s, st');
    NumberedOrdered(sys.streams[s], u);
    assert StreamOrdered(st');
    forall j | j in sys.asrQueue.partials
      ensures JobOrdered(sys'.streams, j)
    {
      NumberingKeepsJobs(sys.streams, s, u, st', j);
    }
    if sys.asr.Transcribing? && sys.asr.job.mode.Partial? {
      NumberingKeepsJobs(sys.streams, s, u, st', sys.asr.job);
    }
  }

  lemma PartialOutcomeOrdered(sys: System, job: AsrJob, r: Result<(AsrQueue, bool), QueueError>)
    requires Ordered(sys) && job.session in sys.streams && job.mode.Partial?
    requires job.generation == sys.streams[job.session].generation + 1
    requires PartialPut(sys.asrQueue, job, r)
    ensures Ordered(PartialOutcome(sys, job.session, Numbered(sys.streams[job.session], job.utterance), r))
  {
    var s, u, slots := job.session, job.utterance, sys.asrQueue.partials;
    var st' := Numbered(sys.streams[s], u);
    match r
    case Failure(_) =>
      NumberedSystemOrdered(sys, s, u, st', slots, job);
      assert sys.(asrQueue := sys.asrQueue.(partials := slots)) == sys;
    case Success((q, inserted)) =>
      StoredReplacesInPlace(slots, job);
      StoredAreOldOrNew(slots, job);
      NumberedSystemOrdered(sys, s, u, if inserted then WorkQueued(st') else st', Stored(slots, job), job);
  }

  lemma PartialQueuedOrdered(sys: System, limits: Limits, s: SessionId, u: UtteranceId, pcm: seq<nat>)
    requires Ordered(sys) && s in sys.streams
    ensures Ordered(PartialQueued(sys, limits, s, u, pcm))
  {
    var job := AsrJob(s, u, sys.streams[s].generation + 1, Partial, pcm);
    PutPartialStores(sys.asrQueue, limits.partials, job);
    PartialOutcomeOrdered(sys, job, PutPartial(sys.asrQueue, limits.partials, job));
  }

  lemma StoredAreOldOrNew(partials: seq<AsrJob>, job: AsrJob)
    ensures forall j :: j in Stored(partials, job) ==> j == job || j in partials
  {
  }

  // ---------- the other steps ----------

  /** Streams change at most in ways that do not concern partials. */
  ghost predicate SamePartials(streams: map<SessionId, Stream>, streams': map<SessionId, Stream>) {
    && streams.Keys <= streams'.Keys
    && (forall s :: s in streams ==>
          && streams'[s].latest == streams[s].latest && streams'[s].offered == streams[s].offered
          && streams'[s].generation == streams[s].generation)
    && (forall s :: s in streams' && s !in streams ==>
          streams'[s].latest == map[] && streams'[s].offered == [] && streams'[s].generation == 0)
  }

  /** A step that concerns no partial. */
  ghost predicate Unrelated(sys: System, sys': System) {
    && SamePartials(sys.streams, sys'.streams)
    && sys'.asrQueue.partials == sys.asrQueue.partials
    && (forall j :: j in sys'.asrQueue.finals ==> j in sys.asrQueue.finals || j.mode.Final?)
    && (sys'.asr.Transcribing? && sys'.asr.job.mode.Partial? ==> sys'.asr == sys.asr)
  }

  lemma UnrelatedStepOrdered(sys: System, sys': System)
    requires Ordered(sys) && Unrelated(sys, sys')
    ensures Ordered(sys')
  {
    forall s | s in sys'.streams
      ensures StreamOrdered(sys'.streams[s])
    {
      if s in sys.streams {
        assert StreamOrdered(sys.streams[s]);
      }
    }
    forall j | j in sys'.asrQueue.partials
      ensures j.mode.Partial? && JobOrdered(sys'.streams, j)
    {
      assert JobOrdered(sys.streams, j);
    }
  }

  lemma AsrTakenOrdered(sys: System)
    requires Ordered(sys) && sys.asr.AsrWaiting?
    ensures Ordered(AsrTaken(sys))
  {
    var q, sys' := sys.asrQueue, AsrTaken(sys);
    if q.finals != [] {
      assert q.finals[0] in q.finals;
      UnrelatedStepOrdered(sys, sys');
    } else if q.partials != [] {
      PartialTakenOrdered(sys);
    }
  }

  lemma PartialTakenOrdered(sys: System)
    requires Ordered(sys) && sys.asr.AsrWaiting? && sys.asrQueue.finals == [] && sys.asrQueue.partials != []
    ensures Ordered(AsrTaken(sys))
  {
    var job, sys' := sys.asrQueue.partials[0], AsrTaken(sys);
    assert job in sys.asrQueue.partials;
    forall j | j in sys.asrQueue.partials[1..]
      ensures j in sys.asrQueue.partials && Newer(j, job)
    {
    }
    var shorter := sys.(asrQueue := sys.asrQueue.(partials := sys.asrQueue.partials[1..]));
    assert Ordered(shorter);
    if job.session !in sys.registered {
      UnrelatedStepOrdered(shorter, sys');
    }
  }

  lemma PartialResultOrdered(sys: System, text: string)
    requires Ordered(sys) && sys.asr.Transcribing? && sys.asr.job.mode.Partial?
    ensures Ordered(AsrResultAccepted(sys, sys.asr.job, Some(text)))
  {
    var job := sys.asr.job;
    var st := sys.streams[job.session];
    var sys' := AsrResultAccepted(sys, job, Some(text));
    var st' := sys'.streams[job.session];
    if st.latest[job.utterance] == job.generation {
      assert st'.offered == st.offered + [(job.utterance, job.generation)];
      forall u | u in st'.latest
        ensures OfferedBelow(st'.offered, u, st'.latest[u] + 1)
      {
        assert OfferedBelow(st.offered, u, st.latest[u] + 1);
      }
      assert StreamOrdered(st');
      forall j | j in sys.asrQueue.partials
        ensures JobOrdered(sys'.streams, j)
      {
        assert JobOrdered(sys.streams, j) && Newer(j, job);
      }
    } else {
      UnrelatedStepOrdered(sys, sys');
    }
  }

  lemma ResultOrdered(sys: System, limits: Limits, result: Option<string>)
    requires Ordered(sys)
    ensures Ordered(Next(sys, limits, AsrResult(result)))
  {
    var sys' := Next(sys, limits, AsrResult(result));
    if sys' != sys && sys.asr.job.mode.Partial? && result.Some? {
      PartialResultOrdered(sys, result.value);
    } else {
      UnrelatedStepOrdered(sys, sys');
    }
  }

  lemma NextOrdered(sys: System, limits: Limits, op: Op)
    requires Ordered(sys)
    ensures Ordered(Next(sys, limits, op))
  {
    match op
    case QueuePartial(s, u, pcm) =>
      if s in sys.streams {
        PartialQueuedOrdered(sys, limits, s, u, pcm);
        var queued := PartialQueued(sys, limits, s, u, pcm);
        SaidIsUnrelated(queued, limits, s);
        UnrelatedStepOrdered(queued, Said(queued, limits, s));
      }
    case TakeAsr =>
      if sys.asr.AsrWaiting? {
        AsrTakenOrdered(sys);
      }
    case AsrResult(result) => ResultOrdered(sys, limits, result);
    case _ => OtherStepOrdered(sys, limits, op);
  }

  lemma OtherStepOrdered(sys: System, limits: Limits, op: Op)
    requires Ordered(sys) && !op.QueuePartial? && !op.TakeAsr? && !op.AsrResult?
    ensures Ordered(Next(sys, limits, op))
  {
    if op.QueueFinal? || op.QueueEndpoint? || op.Say? {
      ClientStepIsUnrelated(sys, limits, op);
    } else if op.Stop? || op.Close? {
      StopIsUnrelated(sys, limits, op);
    } else if op.AsrTell? || op.QueueCorrection? || op.AsrDone? {
      WorkerStepIsUnrelated(sys, limits, op);
    } else if op.TextResult? {
      TextResultIsUnrelated(sys, limits, op);
    } else if op.TakeText? || op.TextTell? || op.TextDone? {
      TextStepIsUnrelated(sys, limits, op);
    } else if IsEventOp(op) {
      EventStepIsUnrelated(sys, limits, op);
    } else {
      OtherStepIsUnrelated(sys, limits, op);
    }
    UnrelatedStepOrdered(sys, Next(sys, limits, op));
  }

  lemma FinalQueuedIsUnrelated(sys: System, limits: Limits, s: SessionId, u: UtteranceId, pcm: seq<nat>)
    requires s in sys.streams
    ensures Unrelated(sys, FinalQueued(sys, limits, s, u, pcm))
  {
  }

  lemma ClientStepIsUnrelated(sys: System, limits: Limits, op: Op)
    requires op.QueueFinal? || op.QueueEndpoint? || op.Say?
    ensures Unrelated(sys, Next(sys, limits, op))
  {
    if op.session in sys.streams {
      SaidIsUnrelated(sys, limits, op.session);
      if op.QueueFinal? {
        FinalOfferedIsUnrelated(sys, limits, op.session, op.utterance, op.pcm);
      }
    }
  }

  lemma FinalOfferedIsUnrelated(sys: System, limits: Limits, s: SessionId, u: UtteranceId, pcm: seq<nat>)
    requires s in sys.streams
    ensures Unrelated(sys, FinalOffered(sys, limits, s, u, pcm))
  {
    var queued := FinalQueued(sys, limits, s, u, pcm);
    FinalQueuedIsUnrelated(sys, limits, s, u, pcm);
    SaidIsUnrelated(queued, limits, s);
    UnrelatedTwice(sys, queued, Said(queued, limits, s));
  }

  lemma EventStepIsUnrelated(sys: System, limits: Limits, op: Op)
    requires IsEventOp(op)
    ensures Unrelated(sys, Next(sys, limits, op))
  {
    var s := op.session;
    if s in sys.streams {
      BookkeepingIsUnrelated(sys, s, EventStep(sys.streams[s], limits, s in sys.registered, op));
    } else {
      MoveIsUnrelated(sys, sys.asr, sys.text, sys.textQueue);
    }
  }

  lemma UnrelatedTwice(a: System, b: System, c: System)
    requires Unrelated(a, b) && Unrelated(b, c)
    ensures Unrelated(a, c)
  {
  }

  lemma StopBegunIsUnrelated(sys: System, limits: Limits, s: SessionId, speech: Option<(UtteranceId, seq<nat>)>)
    requires s in sys.streams
    ensures Unrelated(sys, StopBegun(sys, limits, s, speech))
  {
    if sys.streams[s].stop.Running? && speech.Some? {
      var phase := if StopRaises(sys, limits, s, speech) then StopFailed else Stopping;
      var stopping := Put(sys, s, sys.streams[s].(stop := phase));
      FinalOfferedIsUnrelated(stopping, limits, s, speech.value.0, speech.value.1);
      UnrelatedTwice(sys, stopping, FinalOffered(stopping, limits, s, speech.value.0, speech.value.1));
    }
  }

  lemma StopIsUnrelated(sys: System, limits: Limits, op: Op)
    requires op.Stop? || op.Close?
    ensures Unrelated(sys, Next(sys, limits, op))
  {
    if op.session in sys.streams {
      if op.Stop? {
        StopBegunIsUnrelated(sys, limits, op.session, op.speech);
      } else {
        var gone := sys.(registered := sys.registered - {op.session});
        StopBegunIsUnrelated(gone, limits, op.session, op.speech);
        UnrelatedTwice(sys, gone, StopBegun(gone, limits, op.session, op.speech));
      }
    }
  }

  /** A worker moves on and touches at most one stream, but none of its partials. */
  lemma PutIsUnrelated(sys: System, asr': AsrWorker, text': TextWorker, textQueue': TextQueue, s: SessionId,
                       st': Stream)
    requires s in sys.streams && (asr'.Transcribing? ==> asr' == sys.asr)
    requires var st := sys.streams[s];
             st'.latest == st.latest && st'.offered == st.offered && st'.generation == st.generation
    ensures Unrelated(sys, Put(sys.(asr := asr', text := text', textQueue := textQueue'), s, st'))
  {
  }

  /** The same without touching any stream. */
  lemma MoveIsUnrelated(sys: System, asr': AsrWorker, text': TextWorker, textQueue': TextQueue)
    requires asr'.Transcribing? ==> asr' == sys.asr
    ensures Unrelated(sys, sys.(asr := asr', text := text', textQueue := textQueue'))
  {
  }

  lemma BookkeepingIsUnrelated(sys: System, s: SessionId, st': Stream)
    requires s in sys.streams
    requires var st := sys.streams[s];
             st'.latest == st.latest && st'.offered == st.offered && st'.generation == st.generation
    ensures Unrelated(sys, Put(sys, s, st'))
  {
    PutIsUnrelated(sys, sys.asr, sys.text, sys.textQueue, s, st');
  }

  lemma EventPutIsUnrelated(sys: System, s: SessionId)
    requires s in sys.streams
    ensures Unrelated(sys, EventPut(sys, s))
  {
    BookkeepingIsUnrelated(sys, s, EventPut(sys, s).streams[s]);
  }

  lemma SaidIsUnrelated(sys: System, limits: Limits, s: SessionId)
    requires s in sys.streams
    ensures Unrelated(sys, Said(sys, limits, s))
  {
    BookkeepingIsUnrelated(sys, s, Said(sys, limits, s).streams[s]);
  }

  lemma AsrToldIsUnrelated(sys: System, limits: Limits)
    requires (sys.asr.AsrTelling? || sys.asr.FinalAccepted?) && sys.asr.job.session in sys.streams
    ensures Unrelated(sys, AsrTold(sys, limits))
  {
    var s := sys.asr.job.session;
    PutIsUnrelated(sys, AsrStopped, sys.text, sys.textQueue, s, WorkDone(sys.streams[s]));
    if !EmitRaises(sys, limits, s) {
      MoveIsUnrelated(sys, AsrTold(sys, limits).asr, sys.text, sys.textQueue);
    }
  }

  lemma CorrectionQueuedIsUnrelated(sys: System, limits: Limits)
    requires sys.asr.FinalTold? && sys.asr.job.session in sys.streams
    ensures Unrelated(sys, CorrectionQueued(sys, limits))
  {
    var s, sys' := sys.asr.job.session, CorrectionQueued(sys, limits);
    if sys'.streams == sys.streams {
      MoveIsUnrelated(sys, sys'.asr, sys.text, sys.textQueue);
    } else {
      PutIsUnrelated(sys, sys'.asr, sys.text, sys'.textQueue, s, sys'.streams[s]);
    }
  }

  lemma WorkerStepIsUnrelated(sys: System, limits: Limits, op: Op)
    requires op.AsrTell? || op.QueueCorrection? || op.AsrDone?
    ensures Unrelated(sys, Next(sys, limits, op))
  {
    MoveIsUnrelated(sys, sys.asr, sys.text, sys.textQueue);
    match op
    case AsrTell =>
      if AsrMayTell(sys, limits) && !sys.asr.FinalTold? {
        var put := EventPut(sys, sys.asr.job.session);
        EventPutIsUnrelated(sys, sys.asr.job.session);
        AsrToldIsUnrelated(put, limits);
        UnrelatedTwice(sys, put, AsrTold(put, limits));
      }
    case QueueCorrection =>
      if AsrMayTell(sys, limits) && sys.asr.FinalTold? {
        var put := EventPut(sys, sys.asr.job.session);
        EventPutIsUnrelated(sys, sys.asr.job.session);
        CorrectionQueuedIsUnrelated(put, limits);
        UnrelatedTwice(sys, put, CorrectionQueued(put, limits));
      }
    case AsrDone =>
      if sys.asr.AsrSettled? && sys.asr.job.session in sys.streams {
        var s := sys.asr.job.session;
        PutIsUnrelated(sys, AsrWaiting, sys.text, sys.textQueue, s, WorkDone(sys.streams[s]));
      }
  }

  lemma EndpointAnsweredIsUnrelated(sys: System, limits: Limits, job: TextJob, outcome: TextOutcome)
    requires job.session in sys.streams
    ensures Unrelated(sys, EndpointAnswered(sys, limits, job, outcome))
  {
    var sys', noting := EndpointAnswered(sys, limits, job, outcome), sys.(text := TextNoting(job));
    if outcome.Completes? && !Blank(job.currentText)
       && FinalOffer(sys, limits, job.session, outcome.utterance, outcome.pcm).Success? {
      FinalQueuedIsUnrelated(noting, limits, job.session, outcome.utterance, outcome.pcm);
      MoveIsUnrelated(sys, sys.asr, TextNoting(job), sys.textQueue);
      UnrelatedTwice(sys, noting, sys');
    } else if sys'.text.TextStopped? {
      PutIsUnrelated(sys, sys.asr, TextStopped, sys.textQueue, job.session, WorkDone(sys.streams[job.session]));
    } else {
      MoveIsUnrelated(sys, sys.asr, sys'.text, sys.textQueue);
    }
  }

  lemma RevisionAnsweredIsUnrelated(sys: System, job: TextJob, outcome: TextOutcome)
    requires job.session in sys.streams
    ensures Unrelated(sys, RevisionAnswered(sys, job, outcome))
  {
    var sys' := RevisionAnswered(sys, job, outcome);
    if sys'.streams == sys.streams {
      MoveIsUnrelated(sys, sys.asr, sys'.text, sys.textQueue);
    } else {
      PutIsUnrelated(sys, sys.asr, sys'.text, sys.textQueue, job.session, sys'.streams[job.session]);
    }
  }

  lemma TextResultIsUnrelated(sys: System, limits: Limits, op: Op)
    requires op.TextResult?
    ensures Unrelated(sys, Next(sys, limits, op))
  {
    if sys.text.Inferring? && sys.text.job.session in sys.streams {
      if sys.text.job.mode.Endpoint? {
        EndpointAnsweredIsUnrelated(sys, limits, sys.text.job, op.outcome);
      } else {
        RevisionAnsweredIsUnrelated(sys, sys.text.job, op.outcome);
      }
    } else {
      MoveIsUnrelated(sys, sys.asr, sys.text, sys.textQueue);
    }
  }

  lemma TextTakenIsUnrelated(sys: System)
    ensures Unrelated(sys, TextTaken(sys))
  {
    var sys' := TextTaken(sys);
    match GetText(sys.textQueue)
    case (q, Job(job)) =>
      if job.session !in sys.registered && job.session in sys.streams {
        PutIsUnrelated(sys, sys.asr, sys.text, q, job.session, sys'.streams[job.session]);
      } else {
        MoveIsUnrelated(sys, sys.asr, sys'.text, q);
      }
    case (_, _) => MoveIsUnrelated(sys, sys.asr, sys'.text, sys.textQueue);
  }

  lemma TextToldIsUnrelated(sys: System, limits: Limits)
    requires (sys.text.TextTelling? || sys.text.TextNoting?) && sys.text.job.session in sys.streams
    ensures Unrelated(sys, TextTold(sys, limits))
  {
    var s, text' := sys.text.job.session, TextTold(sys, limits).text;
    PutIsUnrelated(sys, sys.asr, TextStopped, sys.textQueue, s, WorkDone(sys.streams[s]));
    MoveIsUnrelated(sys, sys.asr, text', sys.textQueue);
  }

  lemma TextStepIsUnrelated(sys: System, limits: Limits, op: Op)
    requires op.TakeText? || op.TextTell? || op.TextDone?
    ensures Unrelated(sys, Next(sys, limits, op))
  {
    MoveIsUnrelated(sys, sys.asr, sys.text, sys.textQueue);
    match op
    case TakeText =>
      if sys.text.TextWaiting? {
        TextTakenIsUnrelated(sys);
      }
    case TextTell =>
      if TextMayTell(sys, limits) {
        var put := EventPut(sys, sys.text.job.session);
        EventPutIsUnrelated(sys, sys.text.job.session);
        TextToldIsUnrelated(put, limits);
        UnrelatedTwice(sys, put, TextTold(put, limits));
      }
    case TextDone =>
      if sys.text.TextSettled? && sys.text.job.session in sys.streams {
        var s := sys.text.job.session;
        PutIsUnrelated(sys, sys.asr, TextWaiting, sys.textQueue, s, WorkDone(sys.streams[s]));
      }
  }

  lemma OtherStepIsUnrelated(sys: System, limits: Limits, op: Op)
    requires IsLifeOp(op) && !op.Stop? && !op.Close?
    ensures Unrelated(sys, Next(sys, limits, op))
  {
    if (op.FinalizeLedger? || op.Restart?) && op.session in sys.streams {
      var s, st := op.session, sys.streams[op.session];
      var st' := if op.Restart? then st.(stop := Running)
                 else st.(rows := Ledger.Finalized(st.rows), stop := Stopped, owed := st.owed + 1);
      var put := Put(sys, s, st');
      BookkeepingIsUnrelated(sys, s, st');
      SaidIsUnrelated(put, limits, s);
      UnrelatedTwice(sys, put, Said(put, limits, s));
      MoveIsUnrelated(sys, sys.asr, sys.text, sys.textQueue);
    }
  }

  /** Every partial uses up the next number of its stream, refused or not, and makes older ones stale. */
  lemma PartialIsNumbered(sys: System, limits: Limits, s: SessionId, u: UtteranceId, pcm: seq<nat>, older: AsrJob)
    requires s in sys.streams && older.utterance == u && older.generation <= sys.streams[s].generation
    ensures var sys' := Next(sys, limits, QueuePartial(s, u, pcm));
            && s in sys'.streams
            && sys'.streams[s].generation == sys.streams[s].generation + 1
            && sys'.streams[s].latest == sys.streams[s].latest[u := sys.streams[s].generation + 1]
            && !IsNewest(sys'.streams[s], older)
  {
    var queued := PartialQueued(sys, limits, s, u, pcm);
    assert queued.streams[s].latest == sys.streams[s].latest[u := sys.streams[s].generation + 1];
  }

  lemma {:induction false} RunOrdered(sys: System, limits: Limits, ops: seq<Op>)
    requires Ordered(sys)
    ensures Ordered(Run(sys, limits, ops))
    decreases |ops|
  {
    if ops != [] {
      NextOrdered(sys, limits, ops[0]);
      RunOrdered(Next(sys, limits, ops[0]), limits, ops[1..]);
    }
  }

  /** In every run, the partials offered to the ledger for one utterance have strictly increasing generations. */
  lemma PartialsReachLedgerInOrder(limits: Limits, ops: seq<Op>, s: SessionId)
    ensures var sys := Run(START, limits, ops);
            s in sys.streams ==> Increasing(sys.streams[s].offered)
  {
    RunOrdered(START, limits, ops);
  }
}
