/** Turns, subscriptions and reads of the session broker, told from the calls made. */
module SessionTurns {
  import opened Wrappers
  import opened SessionBroker
  import opened SessionRuns

  // ---------- one turn at a time ----------

  /** Whether a turn of this session is in progress after the call, given whether one was before it. */
  function OpenAfter(w: World, op: Op, id: SessionId, open: bool): bool {
    if op == Beginning(id) && id in w.b.sessions then true
    else if op == Ending(id) then false
    else open
  }

  function OpenAfterAll(l: Limits, w: World, ops: seq<Op>, id: SessionId, open: bool): bool
    decreases |ops|
  {
    if ops == [] then open
    else OpenAfterAll(l, Step(l, w, ops[0]), ops[1..], id, OpenAfter(w, ops[0], id, open))
  }

  lemma StepKeepsTurns(l: Limits, w: World, op: Op, id: SessionId)
    ensures id in Step(l, w, op).b.activeTurns <==> OpenAfter(w, op, id, id in w.b.activeTurns)
  {
  }

  /** In every run a turn is in progress exactly when the session's last such call began one. */
  lemma {:induction false} TurnsAreBegunAndEnded(l: Limits, w: World, ops: seq<Op>, id: SessionId)
    ensures id in Run(l, w, ops).b.activeTurns <==> OpenAfterAll(l, w, ops, id, id in w.b.activeTurns)
    decreases |ops|
  {
    if ops != [] {
      StepKeepsTurns(l, w, ops[0], id);
      TurnsAreBegunAndEnded(l, Step(l, w, ops[0]), ops[1..], id);
    }
  }

  /** After every run a turn is refused exactly for an unknown session, and for one whose turn has not ended. */
  lemma TurnRefusedIff(l: Limits, w: World, ops: seq<Op>, id: SessionId)
    ensures var now := Run(l, w, ops);
            var r := BeginTurn(now.b, id).1;
            && (r == Failure(SessionNotFound) <==> id !in now.b.sessions)
            && (r == Failure(TurnInProgress)
                <==> id in now.b.sessions && OpenAfterAll(l, w, ops, id, id in w.b.activeTurns))
  {
    TurnsAreBegunAndEnded(l, w, ops, id);
  }

  // ---------- streams ----------

  /** A known session can always be subscribed to; the new stream starts with its retained history and nothing live. */
  lemma SubscriptionStartsWithHistory(l: Limits, w: World, id: SessionId)
    requires Agrees(l, w)
    ensures var (b', r) := Subscribe(w.b, id);
            && (r.Success? <==> id in w.b.sessions)
            && (r.Success? ==>
                  && r.value !in w.b.streams && id in b'.subscribers && r.value in b'.subscribers[id]
                  && b'.streams == w.b.streams[r.value := Stream(id, w.b.sessions[id].events, [])])
            && (r.Failure? ==> r.error == SessionNotFound && b' == w.b)
  {
  }

  /** What a stream has still to yield. */
  function Unread(s: Stream): seq<Event> {
    s.history + s.queue
  }

  /** A read waits exactly when nothing is unread; otherwise it yields the first unread event and leaves the others. */
  lemma ReadYieldsTheNext(b: Broker, k: StreamId)
    requires k in b.streams
    ensures var (b', e) := Read(b, k);
            && (e.None? <==> Unread(b.streams[k]) == [])
            && k in b'.streams && b'.streams == b.streams[k := b'.streams[k]]
            && Unread(b.streams[k]) == (if e.Some? then [e.value] else []) + Unread(b'.streams[k])
            && b' == b.(streams := b'.streams)
  {
    var s := b.streams[k];
    if s.history != [] {
      assert s.history == [s.history[0]] + s.history[1..];
    } else if s.queue != [] {
      assert s.queue == [s.queue[0]] + s.queue[1..];
    }
  }
}
