/** Runs from the start that end or hang the recognition loop for every stream. */
module RealtimeRuns {
  import opened Wrappers
  import opened RealtimeQueue
  import opened RealtimeCoordinator
  import opened RealtimeAccounting
  import opened RealtimeEvents
  import opened RealtimeNeeds

  ghost predicate Reachable(sys: System, limits: Limits) {
    exists ops :: Run(START, limits, ops) == sys
  }

  lemma ReachStart(limits: Limits)
    ensures Reachable(START, limits)
  {
    assert Run(START, limits, []) == START;
  }

  lemma ReachNext(sys: System, limits: Limits, op: Op)
    requires Reachable(sys, limits)
    ensures Reachable(Next(sys, limits, op), limits)
  {
    var ops :| Run(START, limits, ops) == sys;
    RunPlusOne(START, limits, ops, op);
  }

  /** One job waits in the ASR queue and nothing else is going on; this much room is left for events. */
  ghost predicate OneJobWaits(sys: System, limits: Limits, job: AsrJob, rows: Ledger.Rows, room: nat) {
    && job.session in sys.registered && job.session in sys.streams
    && sys.streams[job.session].rows == rows && sys.streams[job.session].waiting + room <= limits.events
    && sys.asr == AsrWaiting && !sys.asrQueue.closed
    && (if job.mode.Final? then sys.asrQueue.finals == [job] && sys.asrQueue.partials == []
        else sys.asrQueue.finals == [] && sys.asrQueue.partials == [job] && IsNewest(sys.streams[job.session], job))
  }

  lemma Take(sys: System, limits: Limits, job: AsrJob, rows: Ledger.Rows, room: nat) returns (taken: System)
    requires Reachable(sys, limits) && OneJobWaits(sys, limits, job, rows, room)
    ensures Reachable(taken, limits)
    ensures taken == sys.(asrQueue := AsrQueue([], [], false), asr := Transcribing(job))
  {
    taken := Next(sys, limits, TakeAsr);
    ReachNext(sys, limits, TakeAsr);
    assert taken == sys.(asrQueue := AsrQueue([], [], false), asr := Transcribing(job));
  }

  /** The worker takes the waiting job and gets a result for it. */
  lemma TakeAndHear(sys: System, limits: Limits, job: AsrJob, rows: Ledger.Rows, room: nat, result: Option<string>)
      returns (heard: System)
    requires Reachable(sys, limits) && OneJobWaits(sys, limits, job, rows, room)
    ensures Reachable(heard, limits) && job.session in heard.registered && job.session in heard.streams
    ensures heard.asrQueue == AsrQueue([], [], false)
    ensures heard.streams[job.session].waiting + room <= limits.events
    ensures result.None? ==>
              heard.asr == AsrTelling(job, if job.mode.Final? then 2 else 1) && heard.streams[job.session].rows == rows
    ensures result.Some? && job.mode.Partial? ==>
              && heard.streams[job.session].rows == Ledger.Step(rows, Ledger.PartialText(job.utterance, result.value))
              && (Ledger.AcceptPartial(rows, job.utterance, result.value).Success? ==> heard.asr == AsrTelling(job, 1))
    ensures result.Some? && job.mode.Final? && Ledger.AcceptFinal(rows, job.utterance, result.value).Failure? ==>
              heard.asr.AsrStopped?
  {
    var taken := Take(sys, limits, job, rows, room);
    heard := Next(taken, limits, AsrResult(result));
    ReachNext(taken, limits, AsrResult(result));
  }

  /** The worker tells its events and finishes its job, and the stream queues a final of utterance `u`. */
  lemma {:induction false} TellThenFinal(sys: System, limits: Limits, job: AsrJob, events: nat, u: UtteranceId,
                                         room: nat)
      returns (waits: System)
    requires Reachable(sys, limits) && limits.finals > 0 && !limits.broker && sys.asr == AsrTelling(job, events)
    requires job.session in sys.registered && job.session in sys.streams && sys.asrQueue == AsrQueue([], [], false)
    requires sys.streams[job.session].waiting + Telling(events, false) + 1 + room <= limits.events
    ensures Reachable(waits, limits)
    ensures OneJobWaits(waits, limits, AsrJob(job.session, u, 1, Final, []), sys.streams[job.session].rows, room)
    decreases events
  {
    var told := Next(sys, limits, AsrTell);
    ReachNext(sys, limits, AsrTell);
    assert told == EventPut(sys, job.session).(asr := told.asr);
    if events > 1 {
      waits := TellThenFinal(told, limits, job, events - 1, u, room);
    } else {
      waits := DoneThenFinal(told, limits, job, u, room);
    }
  }

  lemma DoneThenFinal(sys: System, limits: Limits, job: AsrJob, u: UtteranceId, room: nat) returns (waits: System)
    requires Reachable(sys, limits) && limits.finals > 0 && sys.asr == AsrSettled(job)
    requires job.session in sys.registered && job.session in sys.streams && sys.asrQueue == AsrQueue([], [], false)
    requires sys.streams[job.session].waiting + 1 + room <= limits.events
    ensures Reachable(waits, limits)
    ensures OneJobWaits(waits, limits, AsrJob(job.session, u, 1, Final, []), sys.streams[job.session].rows, room)
  {
    var done := Next(sys, limits, AsrDone);
    ReachNext(sys, limits, AsrDone);
    waits := Next(done, limits, QueueFinal(job.session, u, []));
    ReachNext(done, limits, QueueFinal(job.session, u, []));
  }

  /** A session that the broker knows opens its stream, and a reader attaches. */
  lemma Opened(limits: Limits, s: SessionId) returns (started: System)
    ensures Reachable(started, limits)
    ensures started == START.(streams := map[s := NEW_STREAM.(readers := 1)], registered := {s}, known := {s})
  {
    ReachStart(limits);
    var known := Next(START, limits, Admit(s));
    ReachNext(START, limits, Admit(s));
    var open := Next(known, limits, Open(s));
    ReachNext(known, limits, Open(s));
    started := Next(open, limits, Attach(s));
    ReachNext(open, limits, Attach(s));
  }

  /** A new stream queues its first partial. */
  lemma FirstPartial(limits: Limits, s: SessionId) returns (waits: System)
    requires limits.partials > 0
    ensures Reachable(waits, limits)
    ensures OneJobWaits(waits, limits, AsrJob(s, 1, 1, Partial, []), [], limits.events - 1)
  {
    var started := Opened(limits, s);
    waits := Next(started, limits, QueuePartial(s, 1, []));
    ReachNext(started, limits, QueuePartial(s, 1, []));
  }

  /** A partial, then a failed final, then the next utterance's final: the ledger refuses it and the loop ends. */
  lemma LostFinalEndsTheLoop() returns (end: System)
    ensures Reachable(end, Limits(1, 1, 1, 64, false)) && end.asr.AsrStopped?
  {
    var limits, partial := Limits(1, 1, 1, 64, false), AsrJob("s", 1, 1, Partial, []);
    var rows := [Ledger.NewRow(1, "a", false)];
    var waits := FirstPartial(limits, "s");
    var heard := TakeAndHear(waits, limits, partial, [], 63, Some("a"));
    assert Ledger.Step([], Ledger.PartialText(1, "a")) == rows;
    var first := TellThenFinal(heard, limits, partial, 1, 1, 61);
    var failed := TakeAndHear(first, limits, AsrJob("s", 1, 1, Final, []), rows, 61, None);
    var second := TellThenFinal(failed, limits, AsrJob("s", 1, 1, Final, []), 2, 2, 58);
    end := TakeAndHear(second, limits, AsrJob("s", 2, 1, Final, []), rows, 58, Some("b"));
  }

  /** A final is being transcribed, and a reader has taken every event so far. */
  lemma FirstFinalTaken(limits: Limits, s: SessionId) returns (taken: System)
    requires limits.finals > 0
    ensures Reachable(taken, limits) && taken.asr == Transcribing(AsrJob(s, 1, 1, Final, []))
    ensures s in taken.registered && s in taken.known && s in taken.streams
    ensures taken.asrQueue == AsrQueue([], [], false) && taken.textQueue == TextQueue([], [], false)
    ensures taken.text == TextWaiting
    ensures taken.streams[s].rows == [] && taken.streams[s].waiting == 0 && taken.streams[s].readers == 1
    ensures taken.streams[s].stop == Running
  {
    var started := Opened(limits, s);
    var waits := Next(started, limits, QueueFinal(s, 1, []));
    ReachNext(started, limits, QueueFinal(s, 1, []));
    var read := Next(waits, limits, ReadEvent(s));
    ReachNext(waits, limits, ReadEvent(s));
    taken := Take(read, limits, AsrJob(s, 1, 1, Final, []), [], 0);
  }

  /** The first final of any stream whose session is evicted meanwhile: the ledger takes it, and the loop ends. */
  lemma EvictionEndsTheLoop(limits: Limits, s: SessionId, text: string) returns (end: System)
    requires limits.broker && limits.finals > 0
    ensures Reachable(end, limits) && end.asr.AsrStopped?
    ensures s in end.streams && end.streams[s].rows == [Ledger.NewRow(1, text, true)]
  {
    var taken := FirstFinalTaken(limits, s);
    var evicted := Next(taken, limits, Evict(s));
    ReachNext(taken, limits, Evict(s));
    var heard := Next(evicted, limits, AsrResult(Some(text)));
    ReachNext(evicted, limits, AsrResult(Some(text)));
    assert heard.asr == FinalAccepted(AsrJob(s, 1, 1, Final, []), text);
    end := Next(heard, limits, AsrTell);
    ReachNext(heard, limits, AsrTell);
  }

  /** A client speaks until its event queue is full. */
  lemma {:induction false} FilledUp(sys: System, limits: Limits, s: SessionId) returns (full: System)
    requires Reachable(sys, limits) && s in sys.streams && sys.streams[s].waiting <= limits.events
    ensures Reachable(full, limits)
    ensures full == Put(sys, s, sys.streams[s].(waiting := limits.events))
    decreases limits.events - sys.streams[s].waiting
  {
    if HasRoom(sys.streams[s], limits) {
      var said := Next(sys, limits, Say(s));
      ReachNext(sys, limits, Say(s));
      assert said == Put(sys, s, sys.streams[s].(waiting := sys.streams[s].waiting + 1));
      full := FilledUp(said, limits, s);
    } else {
      full := sys;
      PutSame(sys, s);
    }
  }

  /**
   For every capacity: a client stops reading while one final is being transcribed, its event queue
   fills, and it disconnects with nothing queued. The transcription fails, and the loop hangs for good.
   */
  lemma UnreadEventsHangTheLoop(limits: Limits, s: SessionId) returns (end: System)
    requires limits.finals > 0
    ensures Reachable(end, limits) && AsrHangs(end, limits) && end.asr.job.session == s
    ensures end.asrQueue == AsrQueue([], [], false) && end.textQueue == TextQueue([], [], false)
  {
    var taken := FirstFinalTaken(limits, s);
    var gone := Next(taken, limits, Detach(s));
    ReachNext(taken, limits, Detach(s));
    var full := FilledUp(gone, limits, s);
    var closed := Next(full, limits, Close(s, None));
    ReachNext(full, limits, Close(s, None));
    end := Next(closed, limits, AsrResult(None));
    ReachNext(closed, limits, AsrResult(None));
  }
}
