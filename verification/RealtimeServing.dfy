/** When a stream in the registry can become idle: the loops that are left still serve its queued work. */
module RealtimeServing {
  import opened Wrappers
  import opened RealtimeQueue
  import opened RealtimeCoordinator
  import opened RealtimeAccounting
  import opened RealtimeEvents
  import opened RealtimeClosing

  /** The stream stays open; otherwise as when it is left to the workers, its readers and the broker. */
  predicate Serving(op: Op, s: SessionId) {
    Benign(op, s) && !(op.Close? && op.session == s)
  }

  ghost predicate Reaches(start: System, limits: Limits, s: SessionId, sys: System) {
    exists ops :: (forall op :: op in ops ==> Serving(op, s)) && Run(start, limits, ops) == sys
  }

  lemma ReachesItself(start: System, limits: Limits, s: SessionId)
    ensures Reaches(start, limits, s, start)
  {
    assert Run(start, limits, []) == start;
  }

  lemma ReachesNext(start: System, limits: Limits, s: SessionId, sys: System, op: Op)
    requires Reaches(start, limits, s, sys) && Serving(op, s)
    ensures Reaches(start, limits, s, Next(sys, limits, op))
  {
    var ops :| (forall op :: op in ops ==> Serving(op, s)) && Run(start, limits, ops) == sys;
    RunPlusOne(start, limits, ops, op);
    assert forall o :: o in ops + [op] ==> Serving(o, s);
  }

  /** A stream in the registry with a reader, and known to the broker if there is one. */
  ghost predicate Served(sys: System, limits: Limits, s: SessionId) {
    && s in sys.streams && s in sys.registered && !EmitRaises(sys, limits, s)
    && sys.streams[s].readers > 0 && sys.streams[s].waiting <= limits.events
  }

  // ---------- the recognition loop ----------

  /** A reader makes room if there is none. */
  lemma MakeRoom(start: System, limits: Limits, s: SessionId, sys: System) returns (roomy: System)
    requires Reaches(start, limits, s, sys) && Served(sys, limits, s)
    ensures Reaches(start, limits, s, roomy) && Served(roomy, limits, s) && HasRoom(roomy.streams[s], limits)
    ensures roomy == sys.(streams := roomy.streams)
  {
    roomy := sys;
    if !HasRoom(sys.streams[s], limits) {
      roomy := Next(sys, limits, ReadEvent(s));
      ReachesNext(start, limits, s, sys, ReadEvent(s));
    }
  }

  lemma TellAll(start: System, limits: Limits, s: SessionId, sys: System) returns (end: System)
    requires Reaches(start, limits, s, sys) && Served(sys, limits, s)
    requires sys.asr.AsrTelling? && sys.asr.job.session == s
    ensures Reaches(start, limits, s, end) && Served(end, limits, s)
    ensures end == sys.(streams := end.streams, asr := AsrSettled(sys.asr.job))
    decreases sys.asr.events
  {
    var roomy := MakeRoom(start, limits, s, sys);
    var told := Next(roomy, limits, AsrTell);
    ReachesNext(start, limits, s, roomy, AsrTell);
    assert told == EventPut(roomy, s).(asr := told.asr);
    if sys.asr.events > 1 {
      end := TellAll(start, limits, s, told);
    } else {
      end := told;
    }
  }

  lemma SettleAsr(start: System, limits: Limits, s: SessionId, sys: System) returns (end: System)
    requires Reaches(start, limits, s, sys) && Served(sys, limits, s)
    requires sys.asr.AsrSettled? && sys.asr.job.session == s
    ensures Reaches(start, limits, s, end) && Served(end, limits, s)
    ensures end == sys.(streams := end.streams, asr := AsrWaiting)
  {
    end := Next(sys, limits, AsrDone);
    ReachesNext(start, limits, s, sys, AsrDone);
  }

  /** A job of the stream itself: a partial that comes back, or a final that fails. */
  lemma ServeOwnAsr(start: System, limits: Limits, s: SessionId, sys: System, q: AsrQueue, job: AsrJob)
      returns (end: System)
    requires Reaches(start, limits, s, sys) && Served(sys, limits, s)
    requires sys.asr.AsrWaiting? && GetAsr(sys.asrQueue) == (q, Job(job)) && job.session == s
    ensures Reaches(start, limits, s, end) && Served(end, limits, s)
    ensures end == sys.(streams := end.streams, asrQueue := q, asr := AsrWaiting)
  {
    var taken := Next(sys, limits, TakeAsr);
    ReachesNext(start, limits, s, sys, TakeAsr);
    var result := if job.mode.Partial? then Some("") else None;
    var heard := Next(taken, limits, AsrResult(result));
    ReachesNext(start, limits, s, taken, AsrResult(result));
    if heard.asr.AsrTelling? {
      heard := TellAll(start, limits, s, heard);
    }
    end := SettleAsr(start, limits, s, heard);
  }

  /** A job of another stream: that stream closes, and the worker skips the job. */
  lemma SkipOtherAsr(start: System, limits: Limits, s: SessionId, sys: System, q: AsrQueue, job: AsrJob)
      returns (end: System)
    requires Reaches(start, limits, s, sys) && Served(sys, limits, s)
    requires sys.asr.AsrWaiting? && GetAsr(sys.asrQueue) == (q, Job(job)) && job.session != s
    ensures Reaches(start, limits, s, end) && Served(end, limits, s)
    ensures end == sys.(streams := end.streams, registered := end.registered, asrQueue := q)
  {
    var closed := Next(sys, limits, Close(job.session, None));
    ReachesNext(start, limits, s, sys, Close(job.session, None));
    assert closed == sys.(streams := closed.streams, registered := sys.registered - {job.session});
    end := Next(closed, limits, TakeAsr);
    ReachesNext(start, limits, s, closed, TakeAsr);
  }

  lemma {:induction false} ServeAsrQueue(start: System, limits: Limits, s: SessionId, sys: System)
      returns (end: System)
    requires Reaches(start, limits, s, sys) && Served(sys, limits, s) && sys.asr.AsrWaiting?
    ensures Reaches(start, limits, s, end) && Served(end, limits, s) && end.asr.AsrWaiting?
    ensures end.asrQueue.finals == [] && end.asrQueue.partials == []
    ensures end.textQueue == sys.textQueue && end.text == sys.text
    decreases |sys.asrQueue.finals| + |sys.asrQueue.partials|
  {
    match GetAsr(sys.asrQueue)
    case (q, Job(job)) =>
      var next;
      if job.session == s {
        next := ServeOwnAsr(start, limits, s, sys, q, job);
      } else {
        next := SkipOtherAsr(start, limits, s, sys, q, job);
      }
      end := ServeAsrQueue(start, limits, s, next);
    case (_, _) => end := sys;
  }

  // ---------- the text loop ----------

  lemma TellAllTexts(start: System, limits: Limits, s: SessionId, sys: System) returns (end: System)
    requires Reaches(start, limits, s, sys) && Served(sys, limits, s)
    requires sys.text.TextTelling? && sys.text.job.session == s
    ensures Reaches(start, limits, s, end) && Served(end, limits, s)
    ensures end == sys.(streams := end.streams, text := TextSettled(sys.text.job))
    decreases sys.text.events
  {
    var roomy := MakeRoom(start, limits, s, sys);
    var told := Next(roomy, limits, TextTell);
    ReachesNext(start, limits, s, roomy, TextTell);
    assert told == EventPut(roomy, s).(text := told.text);
    if sys.text.events > 1 {
      end := TellAllTexts(start, limits, s, told);
    } else {
      end := told;
    }
  }

  lemma SettleText(start: System, limits: Limits, s: SessionId, sys: System) returns (end: System)
    requires Reaches(start, limits, s, sys) && Served(sys, limits, s)
    requires sys.text.TextSettled? && sys.text.job.session == s
    ensures Reaches(start, limits, s, end) && Served(end, limits, s)
    ensures end == sys.(streams := end.streams, text := TextWaiting)
  {
    end := Next(sys, limits, TextDone);
    ReachesNext(start, limits, s, sys, TextDone);
  }

  /** A question that continues, or a correction that fails. */
  lemma ServeOwnText(start: System, limits: Limits, s: SessionId, sys: System, q: TextQueue, job: TextJob)
      returns (end: System)
    requires Reaches(start, limits, s, sys) && Served(sys, limits, s)
    requires sys.text.TextWaiting? && GetText(sys.textQueue) == (q, Job(job)) && job.session == s
    ensures Reaches(start, limits, s, end) && Served(end, limits, s)
    ensures end == sys.(streams := end.streams, textQueue := q, text := TextWaiting)
  {
    var taken := Next(sys, limits, TakeText);
    ReachesNext(start, limits, s, sys, TakeText);
    assert taken == sys.(textQueue := q, text := Inferring(job));
    var outcome := if job.mode.Endpoint? then Continues(false) else RevisionFailed;
    var answered := Next(taken, limits, TextResult(outcome));
    ReachesNext(start, limits, s, taken, TextResult(outcome));
    assert answered == taken.(text := if job.mode.Endpoint? then TextSettled(job) else TextTelling(job, 2));
    if answered.text.TextTelling? {
      answered := TellAllTexts(start, limits, s, answered);
    }
    end := SettleText(start, limits, s, answered);
  }

  lemma SkipOtherText(start: System, limits: Limits, s: SessionId, sys: System, q: TextQueue, job: TextJob)
      returns (end: System)
    requires Reaches(start, limits, s, sys) && Served(sys, limits, s)
    requires sys.text.TextWaiting? && GetText(sys.textQueue) == (q, Job(job)) && job.session != s
    ensures Reaches(start, limits, s, end) && Served(end, limits, s)
    ensures end == sys.(streams := end.streams, registered := end.registered, textQueue := q)
  {
    var closed := Next(sys, limits, Close(job.session, None));
    ReachesNext(start, limits, s, sys, Close(job.session, None));
    assert closed == sys.(streams := closed.streams, registered := sys.registered - {job.session});
    end := Next(closed, limits, TakeText);
    ReachesNext(start, limits, s, closed, TakeText);
  }

  lemma {:induction false} ServeTextQueue(start: System, limits: Limits, s: SessionId, sys: System)
      returns (end: System)
    requires Reaches(start, limits, s, sys) && Served(sys, limits, s) && sys.text.TextWaiting?
    ensures Reaches(start, limits, s, end) && Served(end, limits, s) && end.text.TextWaiting?
    ensures end.textQueue.endpoints == [] && end.textQueue.corrections == []
    ensures end.asrQueue == sys.asrQueue && end.asr == sys.asr
    decreases |sys.textQueue.endpoints| + |sys.textQueue.corrections|
  {
    match GetText(sys.textQueue)
    case (q, Job(job)) =>
      var next;
      if job.session == s {
        next := ServeOwnText(start, limits, s, sys, q, job);
      } else {
        next := SkipOtherText(start, limits, s, sys, q, job);
      }
      end := ServeTextQueue(start, limits, s, next);
    case (_, _) => end := sys;
  }

  // ---------- both ----------

  /** No worker is at a job: each loop waits for one, or has ended. */
  predicate BetweenJobs(sys: System) {
    (sys.asr.AsrWaiting? || sys.asr.AsrStopped?) && (sys.text.TextWaiting? || sys.text.TextStopped?)
  }

  ghost predicate CanBeServed(sys: System, limits: Limits, s: SessionId) {
    exists end :: Reaches(sys, limits, s, end) && s in end.streams && end.streams[s].idle
  }

  lemma QueuesServed(sys: System, limits: Limits, s: SessionId) returns (end: System)
    requires s in sys.streams && s in sys.registered && !EmitRaises(sys, limits, s) && Fits(sys, limits)
    requires BetweenJobs(sys) && !Abandoned(sys, limits, s)
    ensures Reaches(sys, limits, s, end) && s in end.streams && s in end.registered
    ensures BetweenJobs(end) && Queued(end, s) == 0
  {
    ReachesItself(sys, limits, s);
    end := Next(sys, limits, Attach(s));
    ReachesNext(sys, limits, s, sys, Attach(s));
    assert end.asrQueue == sys.asrQueue && end.textQueue == sys.textQueue && end.asr == sys.asr && end.text == sys.text;
    if end.asr.AsrWaiting? {
      end := ServeAsrQueue(sys, limits, s, end);
      assert AsrSessions(end.asrQueue.finals) == [] && AsrSessions(end.asrQueue.partials) == [];
    }
    assert AsrQueued(end.asrQueue, s) == 0;
    if end.text.TextWaiting? {
      end := ServeTextQueue(sys, limits, s, end);
      assert TextSessions(end.textQueue.endpoints) == [] && TextSessions(end.textQueue.corrections) == [];
    }
    assert TextsQueued(end.textQueue, s) == 0;
  }

  /**
   While no worker is at a job, a stream in the registry that the broker knows can become idle exactly
   when no loop that has ended still has work of it queued.
   */
  lemma RegisteredStreamDrainsIff(sys: System, limits: Limits, s: SessionId)
    requires Accounts(sys) && Fits(sys, limits) && s in sys.registered && !EmitRaises(sys, limits, s)
    requires BetweenJobs(sys)
    ensures CanBeServed(sys, limits, s) <==> !Abandoned(sys, limits, s)
  {
    assert Exact(sys, s);
    if Abandoned(sys, limits, s) {
      forall end | Reaches(sys, limits, s, end)
        ensures !(s in end.streams && end.streams[s].idle)
      {
        var ops :| (forall op :: op in ops ==> Serving(op, s)) && Run(sys, limits, ops) == end;
        AbandonedStreamIsNeverIdle(sys, limits, ops, s);
      }
    } else {
      var end := QueuesServed(sys, limits, s);
      var ops :| (forall op :: op in ops ==> Serving(op, s)) && Run(sys, limits, ops) == end;
      RunKeepsAccounts(sys, limits, ops);
      assert Exact(end, s);
    }
  }
}
