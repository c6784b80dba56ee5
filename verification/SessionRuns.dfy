/** What histories and event streams show of the full event log, over every run of the broker. */
module SessionRuns {
  import opened SessionBroker

  // ---------- one session's log ----------

  ghost predicate Numbered(log: seq<Event>) {
    forall i :: 0 <= i < |log| ==> log[i].sequence == i + 1
  }

  /** Where the retained history of an `n` event log starts. */
  function HistoryStart(maxEvents: int, n: nat): (start: nat)
    ensures start <= n
  {
    if maxEvents <= 0 then n else if n <= maxEvents then 0 else n - maxEvents
  }

  /** Where the queue of a reader that has read up to `floor` starts. */
  function QueueStart(queueSize: int, floor: nat, n: nat): (start: nat)
    requires floor <= n
    ensures floor <= start <= n
  {
    if queueSize <= 0 || n - floor <= queueSize then floor else n - queueSize
  }

  lemma TrimKeepsNewest(maxEvents: int, log: seq<Event>, e: Event)
    ensures Trimmed(maxEvents, log[HistoryStart(maxEvents, |log|)..] + [e])
            == (log + [e])[HistoryStart(maxEvents, |log| + 1)..]
  {
  }

  lemma DeliveryKeepsNewest(queueSize: int, log: seq<Event>, floor: nat, e: Event)
    requires floor <= |log|
    ensures Delivered(queueSize, log[QueueStart(queueSize, floor, |log|)..], e)
            == (log + [e])[QueueStart(queueSize, floor, |log| + 1)..]
  {
  }

  // ---------- one subscriber ----------

  /** What a subscriber has read, where it joined the log, and how often its queue was full. */
  datatype Reader = Reader(session: SessionId, joined: nat, got: seq<Event>, dropped: nat)

  function Floor(r: Reader): nat {
    if r.got == [] || r.got[|r.got| - 1].sequence < r.joined then r.joined
    else r.got[|r.got| - 1].sequence
  }

  /** The position in the log of the first event this reader was ever offered. */
  function Start(l: Limits, r: Reader): nat {
    HistoryStart(l.maxEvents, r.joined)
  }

  ghost predicate FromLog(log: seq<Event>, start: nat, s: seq<Event>) {
    && (forall i :: 0 <= i < |s| ==> start < s[i].sequence <= |log| && s[i] == log[s[i].sequence - 1])
    && (forall i, j :: 0 <= i < j < |s| ==> s[i].sequence < s[j].sequence)
  }

  /**
   The reader has its whole snapshot before anything live, its queue is the newest unread
   part of the log, and reads, waiting and dropped events add up to the log since its start.
   */
  ghost predicate Follows(l: Limits, log: seq<Event>, r: Reader, s: Stream) {
    && Start(l, r) <= r.joined <= |log|
    && FromLog(log, Start(l, r), r.got)
    && (s.history != [] ==> Floor(r) == r.joined && r.got + s.history == log[Start(l, r)..r.joined])
    && Floor(r) <= |log|
    && s.queue == log[QueueStart(l.queueSize, Floor(r), |log|)..]
    && |r.got| + |s.history| + |s.queue| + r.dropped == |log| - Start(l, r)
  }

  predicate Overflows(l: Limits, r: Reader, n: nat) {
    0 < l.queueSize && Floor(r) <= n && l.queueSize <= n - Floor(r)
  }

  lemma JoinFollows(l: Limits, log: seq<Event>, id: SessionId)
    ensures Follows(l, log, Reader(id, |log|, [], 0), Stream(id, log[HistoryStart(l.maxEvents, |log|)..], []))
  {
  }

  lemma LogGrows(log: seq<Event>, start: nat, s: seq<Event>, e: Event)
    requires FromLog(log, start, s)
    ensures FromLog(log + [e], start, s)
  {
  }

  lemma ReadsGrow(log: seq<Event>, start: nat, s: seq<Event>, i: nat)
    requires Numbered(log) && FromLog(log, start, s) && start <= i < |log|
    requires s != [] ==> s[|s| - 1].sequence <= i
    ensures FromLog(log, start, s + [log[i]])
  {
    forall j | 0 <= j < |s|
      ensures s[j].sequence <= i
    {
      assert j < |s| - 1 ==> s[j].sequence < s[|s| - 1].sequence;
    }
  }

  lemma EmitFollows(l: Limits, log: seq<Event>, r: Reader, s: Stream, e: Event)
    requires Follows(l, log, r, s)
    ensures var dropped := if Overflows(l, r, |log|) then r.dropped + 1 else r.dropped;
            Follows(l, log + [e], r.(dropped := dropped), s.(queue := Delivered(l.queueSize, s.queue, e)))
  {
    var r' := r.(dropped := if Overflows(l, r, |log|) then r.dropped + 1 else r.dropped);
    LogGrows(log, Start(l, r), r.got, e);
    DeliveryKeepsNewest(l.queueSize, log, Floor(r), e);
    assert Floor(r') == Floor(r);
    assert (log + [e])[Start(l, r)..r.joined] == log[Start(l, r)..r.joined];
  }

  lemma SnapshotAt(log: seq<Event>, start: nat, joined: nat, got: seq<Event>, history: seq<Event>)
    requires start <= joined <= |log| && got + history == log[start..joined] && history != []
    ensures start + |got| < joined && history[0] == log[start + |got|]
    ensures got != [] ==> got[|got| - 1] == log[start + |got| - 1]
  {
    var snapshot, n := got + history, |got|;
    assert snapshot[n] == history[0];
    assert n > 0 ==> snapshot[n - 1] == got[n - 1];
  }

  lemma HistoryReadFollows(l: Limits, log: seq<Event>, r: Reader, s: Stream)
    requires Numbered(log) && Follows(l, log, r, s) && s.history != []
    ensures Follows(l, log, r.(got := r.got + [s.history[0]]), s.(history := s.history[1..]))
  {
    var e, start := s.history[0], Start(l, r);
    var r' := r.(got := r.got + [e]);
    assert r'.got + s.history[1..] == r.got + s.history;
    SnapshotAt(log, start, r.joined, r.got, s.history);
    ReadsGrow(log, start, r.got, start + |r.got|);
    assert Floor(r') == r.joined;
  }

  lemma QueueReadFollows(l: Limits, log: seq<Event>, r: Reader, s: Stream)
    requires Numbered(log) && Follows(l, log, r, s) && s.history == [] && s.queue != []
    ensures Follows(l, log, r.(got := r.got + [s.queue[0]]), s.(queue := s.queue[1..]))
  {
    var e := s.queue[0];
    var r' := r.(got := r.got + [e]);
    var start := QueueStart(l.queueSize, Floor(r), |log|);
    assert e == log[start];
    ReadsGrow(log, Start(l, r), r.got, start);
    assert Floor(r') == start + 1;
    assert s.queue[1..] == log[start + 1..];
    assert QueueStart(l.queueSize, Floor(r'), |log|) == start + 1;
  }

  // ---------- what a subscriber is shown ----------

  lemma SliceFromLog(log: seq<Event>, lo: nat, hi: nat)
    requires Numbered(log) && lo <= hi <= |log|
    ensures FromLog(log, lo, log[lo..hi])
    ensures lo < hi ==> log[lo..hi][hi - lo - 1].sequence == hi
  {
  }

  lemma InOrderTogether(log: seq<Event>, start: nat, from: nat, a: seq<Event>, b: seq<Event>)
    requires FromLog(log, start, a) && FromLog(log, from, b) && start <= from
    requires a != [] ==> a[|a| - 1].sequence <= from
    ensures FromLog(log, start, a + b)
  {
    forall i | 0 <= i < |a|
      ensures a[i].sequence <= from
    {
      assert i < |a| - 1 ==> a[i].sequence < a[|a| - 1].sequence;
    }
  }

  lemma SeenInOrder(l: Limits, log: seq<Event>, r: Reader, s: Stream)
    requires Numbered(log) && Follows(l, log, r, s)
    ensures var seen := r.got + s.history;
            && FromLog(log, Start(l, r), seen)
            && (seen != [] ==> seen[|seen| - 1].sequence <= Floor(r))
  {
    if s.history != [] {
      SliceFromLog(log, Start(l, r), r.joined);
    } else {
      assert r.got + s.history == r.got;
    }
  }

  lemma WaitingInOrder(l: Limits, log: seq<Event>, r: Reader, s: Stream)
    requires Numbered(log) && Follows(l, log, r, s)
    ensures FromLog(log, QueueStart(l.queueSize, Floor(r), |log|), s.queue)
  {
    var from := QueueStart(l.queueSize, Floor(r), |log|);
    SliceFromLog(log, from, |log|);
    assert s.queue == log[from..|log|];
  }

  /** Everything the subscriber has read or will read next comes from the log, in increasing order, ending at the
      newest event. */
  lemma {:induction false} ShownInOrder(l: Limits, log: seq<Event>, r: Reader, s: Stream)
    requires Numbered(log) && Follows(l, log, r, s)
    ensures FromLog(log, Start(l, r), r.got + s.history + s.queue)
  {
    SeenInOrder(l, log, r, s);
    WaitingInOrder(l, log, r, s);
    InOrderTogether(log, Start(l, r), QueueStart(l.queueSize, Floor(r), |log|), r.got + s.history, s.queue);
  }

  /** A live read continues right after the last one exactly when the unread events fit the queue. */
  lemma NextReadSkipsOnlyOverflow(l: Limits, log: seq<Event>, r: Reader, s: Stream)
    requires Numbered(log) && Follows(l, log, r, s) && s.history == [] && s.queue != []
    ensures s.queue[0].sequence > Floor(r)
    ensures s.queue[|s.queue| - 1] == log[|log| - 1]
    ensures s.queue[0].sequence == Floor(r) + 1 <==> l.queueSize <= 0 || |log| - Floor(r) <= l.queueSize
  {
  }

  lemma {:induction false} RoomBelow(log: seq<Event>, start: nat, s: seq<Event>, i: nat)
    requires FromLog(log, start, s) && i < |s|
    ensures start + 1 + i <= s[i].sequence
  {
    if i > 0 {
      RoomBelow(log, start, s, i - 1);
    }
  }

  lemma {:induction false} RoomAbove(log: seq<Event>, start: nat, s: seq<Event>, i: nat)
    requires FromLog(log, start, s) && i < |s|
    ensures s[i].sequence <= |log| - (|s| - 1 - i)
    decreases |s| - i
  {
    if i < |s| - 1 {
      RoomAbove(log, start, s, i + 1);
    }
  }

  lemma FullCountIsWhole(log: seq<Event>, start: nat, s: seq<Event>)
    requires FromLog(log, start, s) && start <= |log|
    ensures |s| <= |log| - start
    ensures |s| == |log| - start ==> s == log[start..]
  {
    if s != [] {
      RoomBelow(log, start, s, |s| - 1);
    }
    forall i | 0 <= i < |s|
      ensures start + 1 + i <= s[i].sequence <= |log| - (|s| - 1 - i)
    {
      RoomBelow(log, start, s, i);
      RoomAbove(log, start, s, i);
    }
  }

  /** Nothing between the start and the end of the log is missing exactly when no event was dropped. */
  lemma CompleteIffNothingDropped(l: Limits, log: seq<Event>, r: Reader, s: Stream)
    requires Numbered(log) && Follows(l, log, r, s)
    ensures r.got + s.history + s.queue == log[Start(l, r)..] <==> r.dropped == 0
  {
    ShownInOrder(l, log, r, s);
    FullCountIsWhole(log, Start(l, r), r.got + s.history + s.queue);
  }

  // ---------- runs of the whole broker ----------

  /** The broker beside everything ever emitted per session and everything each open stream has read. */
  datatype World = World(b: Broker, logs: map<SessionId, seq<Event>>, readers: map<StreamId, Reader>)

  datatype Op =
    | Creating
    | Beginning(id: SessionId)
    | Ending(id: SessionId)
    | Emitting(id: SessionId, kind: string)
    | Subscribing(id: SessionId)
    | Reading(k: StreamId)
    | Closing(k: StreamId)

  function Offered(l: Limits, readers: map<StreamId, Reader>, id: SessionId, n: nat): map<StreamId, Reader> {
    map k | k in readers ::
      if readers[k].session == id && Overflows(l, readers[k], n) then readers[k].(dropped := readers[k].dropped + 1)
      else readers[k]
  }

  function LogOf(w: World, id: SessionId): seq<Event> {
    if id in w.logs then w.logs[id] else []
  }

  function Step(l: Limits, w: World, op: Op): World {
    match op
    case Creating =>
      (match Create(l, w.b)
       case (b, Success(id)) => w.(b := b, logs := w.logs[id := [Event(1, "session.created")]])
       case (b, Failure(_)) => w.(b := b))
    case Beginning(id) => w.(b := BeginTurn(w.b, id).0)
    case Ending(id) => w.(b := EndTurn(w.b, id))
    case Emitting(id, kind) =>
      (match Emit(l, w.b, id, kind)
       case (b, Success(e)) =>
         World(b, w.logs[id := LogOf(w, id) + [e]], Offered(l, w.readers, id, |LogOf(w, id)|))
       case (b, Failure(_)) => w.(b := b))
    case Subscribing(id) =>
      (match Subscribe(w.b, id)
       case (b, Success(k)) => w.(b := b, readers := w.readers[k := Reader(id, |LogOf(w, id)|, [], 0)])
       case (b, Failure(_)) => w.(b := b))
    case Reading(k) =>
      (match Read(w.b, k)
       case (b, Some(e)) =>
         w.(b := b, readers := if k in w.readers then w.readers[k := w.readers[k].(got := w.readers[k].got + [e])]
           else w.readers)
       case (b, None) => w.(b := b))
    case Closing(k) => w.(b := Unsubscribe(w.b, k), readers := w.readers - {k})
  }

  function Run(l: Limits, w: World, ops: seq<Op>): World
    decreases |ops|
  {
    if ops == [] then w else Run(l, Step(l, w, ops[0]), ops[1..])
  }

  /** Every session retains exactly the newest `maxEvents` events of its log. */
  ghost predicate Histories(l: Limits, sessions: map<SessionId, Session>, logs: map<SessionId, seq<Event>>) {
    && (forall id :: id in logs ==> Numbered(logs[id]))
    && (forall id :: id in sessions ==>
          id in logs && sessions[id] == Session(logs[id][HistoryStart(l.maxEvents, |logs[id]|)..], |logs[id]|))
  }

  ghost predicate ReadingOk(l: Limits, streams: map<StreamId, Stream>, readers: map<StreamId, Reader>,
                            logs: map<SessionId, seq<Event>>, k: StreamId)
  {
    && (k in streams <==> k in readers)
    && (k in streams ==>
          && streams[k].session == readers[k].session && readers[k].session in logs
          && Follows(l, logs[readers[k].session], readers[k], streams[k]))
  }

  /** Every open stream follows the log of its session. */
  ghost predicate Readings(l: Limits, streams: map<StreamId, Stream>, readers: map<StreamId, Reader>,
                           logs: map<SessionId, seq<Event>>) {
    forall k :: ReadingOk(l, streams, readers, logs, k)
  }

  ghost predicate Agrees(l: Limits, w: World) {
    WellFormed(l, w.b) && Histories(l, w.b.sessions, w.logs) && Readings(l, w.b.streams, w.readers, w.logs)
  }

  lemma SubscribersAreStreams(subscribers: map<SessionId, set<StreamId>>, streams: map<StreamId, Stream>,
                              nextStream: nat, id: SessionId)
    requires Linked(subscribers, streams, nextStream) && id in subscribers
    ensures forall k :: k in streams ==> (k in subscribers[id] <==> streams[k].session == id)
  {
  }

  lemma EmitReading(l: Limits, logs: map<SessionId, seq<Event>>, id: SessionId, e: Event,
                    r: Reader, s: Stream, r': Reader, s': Stream)
    requires r.session in logs && id in logs && Follows(l, logs[r.session], r, s)
    requires r' == if r.session == id && Overflows(l, r, |logs[id]|) then r.(dropped := r.dropped + 1) else r
    requires s' == if r.session == id then s.(queue := Delivered(l.queueSize, s.queue, e)) else s
    ensures Follows(l, logs[id := logs[id] + [e]][r'.session], r', s')
  {
    if r.session == id {
      EmitFollows(l, logs[id], r, s, e);
    }
  }

  lemma EmitReadings(l: Limits, streams: map<StreamId, Stream>, to: set<StreamId>, readers: map<StreamId, Reader>,
                     logs: map<SessionId, seq<Event>>, id: SessionId, e: Event)
    requires forall k :: k in streams ==> (k in to <==> streams[k].session == id)
    requires Readings(l, streams, readers, logs) && id in logs
    ensures Readings(l, FannedOut(l, streams, to, e), Offered(l, readers, id, |logs[id]|), logs[id := logs[id] + [e]])
  {
    var streams' := FannedOut(l, streams, to, e);
    var readers', logs' := Offered(l, readers, id, |logs[id]|), logs[id := logs[id] + [e]];
    forall k
      ensures ReadingOk(l, streams', readers', logs', k)
    {
      assert ReadingOk(l, streams, readers, logs, k);
      if k in streams {
        EmitReading(l, logs, id, e, readers[k], streams[k], readers'[k], streams'[k]);
      }
    }
  }

  lemma EmitHistories(l: Limits, sessions: map<SessionId, Session>, logs: map<SessionId, seq<Event>>, id: SessionId,
                      e: Event)
    requires Histories(l, sessions, logs) && id in sessions && e.sequence == sessions[id].sequence + 1
    ensures Histories(l, sessions[id := Session(Trimmed(l.maxEvents, sessions[id].events + [e]), e.sequence)],
                      logs[id := logs[id] + [e]])
  {
    TrimKeepsNewest(l.maxEvents, logs[id], e);
  }

  lemma EmitAgrees(l: Limits, w: World, id: SessionId, kind: string)
    requires Agrees(l, w)
    ensures Agrees(l, Step(l, w, Emitting(id, kind)))
  {
    EmitKeeps(l, w.b, id, kind);
    if id in w.b.sessions {
      var e := Event(w.b.sessions[id].sequence + 1, kind);
      EmitHistories(l, w.b.sessions, w.logs, id, e);
      SubscribersAreStreams(w.b.subscribers, w.b.streams, w.b.nextStream, id);
      EmitReadings(l, w.b.streams, w.b.subscribers[id], w.readers, w.logs, id, e);
    }
  }

  lemma AdmitHistories(l: Limits, sessions: map<SessionId, Session>, logs: map<SessionId, seq<Event>>, id: SessionId)
    requires Histories(l, sessions, logs)
    ensures Histories(l, sessions[id := Session([], 0)], logs[id := []])
  {
  }

  lemma AdmitReadings(l: Limits, subscribers: map<SessionId, set<StreamId>>, streams: map<StreamId, Stream>,
                      nextStream: nat, readers: map<StreamId, Reader>, logs: map<SessionId, seq<Event>>,
                      id: SessionId)
    requires Readings(l, streams, readers, logs) && Linked(subscribers, streams, nextStream) && id !in subscribers
    ensures Readings(l, streams, readers, logs[id := []])
    ensures Offered(l, readers, id, 0) == readers
  {
    var logs' := logs[id := []];
    forall k
      ensures ReadingOk(l, streams, readers, logs', k)
      ensures k in readers ==> readers[k].session != id
    {
      assert ReadingOk(l, streams, readers, logs, k);
      assert k in streams ==> streams[k].session in subscribers;
    }
  }

  lemma AdmitAgrees(l: Limits, w: World)
    requires Agrees(l, w) && |w.b.order| < l.maxSessions
    ensures Agrees(l, World(Admitted(w.b), w.logs[w.b.nextSession := []], w.readers))
    ensures Offered(l, w.readers, w.b.nextSession, 0) == w.readers
  {
    AdmitKeeps(l, w.b);
    WithNext(w.b.order, w.b.sessions.Keys, w.b.nextSession);
    AdmitHistories(l, w.b.sessions, w.logs, w.b.nextSession);
    AdmitReadings(l, w.b.subscribers, w.b.streams, w.b.nextStream, w.readers, w.logs, w.b.nextSession);
  }

  lemma FirstEmit(l: Limits, b: Broker, logs: map<SessionId, seq<Event>>, readers: map<StreamId, Reader>, id: SessionId)
    requires id in b.sessions && id in b.subscribers && b.sessions[id] == Session([], 0)
    requires Offered(l, readers, id, 0) == readers
    ensures Step(l, World(b, logs[id := []], readers), Emitting(id, "session.created"))
            == World(Emit(l, b, id, "session.created").0, logs[id := [Event(1, "session.created")]], readers)
  {
    assert [] + [Event(1, "session.created")] == [Event(1, "session.created")];
    assert logs[id := []][id := [Event(1, "session.created")]] == logs[id := [Event(1, "session.created")]];
  }

  lemma CreatedAgrees(l: Limits, id: SessionId, b: Broker, logs: map<SessionId, seq<Event>>,
                      readers: map<StreamId, Reader>)
    returns (w: World)
    requires Agrees(l, World(b, logs[id := []], readers))
    requires id in b.sessions && b.sessions[id] == Session([], 0) && Offered(l, readers, id, 0) == readers
    ensures Agrees(l, w)
    ensures w == World(Emit(l, b, id, "session.created").0, logs[id := [Event(1, "session.created")]], readers)
  {
    w := Step(l, World(b, logs[id := []], readers), Emitting(id, "session.created"));
    EmitAgrees(l, World(b, logs[id := []], readers), id, "session.created");
    FirstEmit(l, b, logs, readers, id);
  }

  lemma CreateWithRoomAgrees(l: Limits, w: World)
    requires Agrees(l, w) && |w.b.order| < l.maxSessions
    ensures var id := w.b.nextSession;
            Agrees(l, World(Emit(l, Admitted(w.b), id, "session.created").0,
              w.logs[id := [Event(1, "session.created")]], w.readers))
  {
    AdmitAgrees(l, w);
    var w' := CreatedAgrees(l, w.b.nextSession, Admitted(w.b), w.logs, w.readers);
  }

  lemma CreateAgrees(l: Limits, w: World)
    requires Agrees(l, w)
    ensures Agrees(l, Step(l, w, Creating))
  {
    var i := FirstIdle(w.b, w.b.order);
    if |w.b.order| < l.maxSessions {
      CreateWithRoomAgrees(l, w);
    } else if i < |w.b.order| {
      EvictKeeps(l, w.b, i);
      CreateWithRoomAgrees(l, w.(b := Evicted(w.b, i)));
    }
  }

  lemma SubscribeReadings(l: Limits, streams: map<StreamId, Stream>, readers: map<StreamId, Reader>,
                          logs: map<SessionId, seq<Event>>, k: StreamId, r: Reader, s: Stream)
    requires Readings(l, streams, readers, logs)
    requires r.session == s.session && r.session in logs && Follows(l, logs[r.session], r, s)
    ensures Readings(l, streams[k := s], readers[k := r], logs)
  {
    var streams', readers' := streams[k := s], readers[k := r];
    forall j
      ensures ReadingOk(l, streams', readers', logs, j)
    {
      assert ReadingOk(l, streams, readers, logs, j);
    }
  }

  lemma SubscribeAgrees(l: Limits, w: World, id: SessionId)
    requires Agrees(l, w)
    ensures Agrees(l, Step(l, w, Subscribing(id)))
  {
    if id in w.b.sessions {
      var s := Stream(id, w.b.sessions[id].events, []);
      LinkedAfterOpen(w.b.subscribers, w.b.streams, w.b.nextStream, s);
      JoinFollows(l, w.logs[id], id);
      SubscribeReadings(l, w.b.streams, w.readers, w.logs, w.b.nextStream, Reader(id, |w.logs[id]|, [], 0), s);
    }
  }

  lemma ReadFollows(l: Limits, log: seq<Event>, r: Reader, s: Stream)
    requires Numbered(log) && Follows(l, log, r, s) && Advance(s).1.Some?
    ensures Follows(l, log, r.(got := r.got + [Advance(s).1.value]), Advance(s).0)
    ensures Advance(s).0.session == s.session
  {
    if s.history != [] {
      HistoryReadFollows(l, log, r, s);
    } else {
      QueueReadFollows(l, log, r, s);
    }
  }

  lemma LinkedAfterRead(subscribers: map<SessionId, set<StreamId>>, streams: map<StreamId, Stream>, nextStream: nat,
                        k: StreamId, s: Stream)
    requires Linked(subscribers, streams, nextStream) && k in streams && s.session == streams[k].session
    ensures Linked(subscribers, streams[k := s], nextStream)
  {
  }

  lemma ReadAgrees(l: Limits, w: World, k: StreamId)
    requires Agrees(l, w)
    ensures Agrees(l, Step(l, w, Reading(k)))
  {
    assert ReadingOk(l, w.b.streams, w.readers, w.logs, k);
    if k in w.b.streams {
      var s, r := w.b.streams[k], w.readers[k];
      var (s', e) := Advance(s);
      LinkedAfterRead(w.b.subscribers, w.b.streams, w.b.nextStream, k, s');
      if e.Some? {
        ReadFollows(l, w.logs[s.session], r, s);
        SubscribeReadings(l, w.b.streams, w.readers, w.logs, k, r.(got := r.got + [e.value]), s');
      } else {
        assert w.b.streams[k := s'] == w.b.streams;
      }
    }
  }

  lemma CloseReadings(l: Limits, streams: map<StreamId, Stream>, readers: map<StreamId, Reader>,
                      logs: map<SessionId, seq<Event>>, k: StreamId)
    requires Readings(l, streams, readers, logs)
    ensures Readings(l, streams - {k}, readers - {k}, logs)
  {
    var streams', readers' := streams - {k}, readers - {k};
    forall j
      ensures ReadingOk(l, streams', readers', logs, j)
    {
      assert ReadingOk(l, streams, readers, logs, j);
    }
  }

  lemma CloseAgrees(l: Limits, w: World, k: StreamId)
    requires Agrees(l, w)
    ensures Agrees(l, Step(l, w, Closing(k)))
  {
    assert ReadingOk(l, w.b.streams, w.readers, w.logs, k);
    if k in w.b.streams {
      LinkedAfterClose(w.b.subscribers, w.b.streams, w.b.nextStream, k);
      CloseReadings(l, w.b.streams, w.readers, w.logs, k);
    } else {
      assert w.readers - {k} == w.readers;
    }
  }

  lemma StepAgrees(l: Limits, w: World, op: Op)
    requires Agrees(l, w)
    ensures Agrees(l, Step(l, w, op))
  {
    match op
    case Creating => CreateAgrees(l, w);
    case Beginning(id) =>
    case Ending(id) =>
    case Emitting(id, kind) => EmitAgrees(l, w, id, kind);
    case Subscribing(id) => SubscribeAgrees(l, w, id);
    case Reading(k) => ReadAgrees(l, w, k);
    case Closing(k) => CloseAgrees(l, w, k);
  }

  lemma {:induction false} RunAgrees(l: Limits, w: World, ops: seq<Op>)
    requires Agrees(l, w)
    ensures Agrees(l, Run(l, w, ops))
    decreases |ops|
  {
    if ops != [] {
      StepAgrees(l, w, ops[0]);
      RunAgrees(l, Step(l, w, ops[0]), ops[1..]);
    }
  }

  /** What any run of a new broker retains and shows. */
  lemma EveryRun(l: Limits, ops: seq<Op>)
    returns (w: World)
    ensures w == Run(l, World(Broker([], map[], map[], map[], {}, 0, 0), map[], map[]), ops)
    ensures |w.b.order| <= (if l.maxSessions < 0 then 0 else l.maxSessions)
    ensures Histories(l, w.b.sessions, w.logs)
    ensures forall k :: k in w.b.streams ==>
              && k in w.readers && w.readers[k].session in w.logs
              && var r, s, log := w.readers[k], w.b.streams[k], w.logs[w.readers[k].session];
                 && Start(l, r) <= |log|
                 && FromLog(log, Start(l, r), r.got + s.history + s.queue)
                 && (r.got + s.history + s.queue == log[Start(l, r)..] <==> r.dropped == 0)
  {
    var empty := World(Broker([], map[], map[], map[], {}, 0, 0), map[], map[]);
    w := Run(l, empty, ops);
    RunAgrees(l, empty, ops);
    forall k | k in w.b.streams
      ensures k in w.readers && w.readers[k].session in w.logs
      ensures var r, s, log := w.readers[k], w.b.streams[k], w.logs[w.readers[k].session];
              && Start(l, r) <= |log|
              && FromLog(log, Start(l, r), r.got + s.history + s.queue)
              && (r.got + s.history + s.queue == log[Start(l, r)..] <==> r.dropped == 0)
    {
      assert ReadingOk(l, w.b.streams, w.readers, w.logs, k);
      ShownInOrder(l, w.logs[w.readers[k].session], w.readers[k], w.b.streams[k]);
      CompleteIffNothingDropped(l, w.logs[w.readers[k].session], w.readers[k], w.b.streams[k]);
    }
  }

  lemma CreateKeepsBusy(l: Limits, b: Broker, id: SessionId)
    requires id in b.sessions && !Idle(b, id)
    ensures id in Create(l, b).0.sessions
  {
  }

  /** No operation removes a session that has a turn in progress or an open stream. */
  lemma BusySessionsStay(l: Limits, w: World, op: Op, id: SessionId)
    requires id in w.b.sessions && !Idle(w.b, id)
    ensures id in Step(l, w, op).b.sessions
  {
    match op
    case Creating => CreateKeepsBusy(l, w.b, id);
    case Beginning(_) =>
    case Ending(_) =>
    case Emitting(_, _) =>
    case Subscribing(_) =>
    case Reading(_) =>
    case Closing(_) =>
  }

  /** Creation is refused exactly when the broker is full of busy sessions; otherwise it costs at most the oldest
      idle one. */
  lemma CreateEvictsOldestIdle(l: Limits, w: World)
    requires Agrees(l, w)
    ensures var (b', r) := Create(l, w.b);
            && (r.Failure? <==> |w.b.order| >= l.maxSessions && forall id :: id in w.b.order ==> !Idle(w.b, id))
            && (r.Failure? ==> b' == w.b)
            && (r.Success? && |w.b.order| < l.maxSessions ==> b'.order == w.b.order + [r.value])
            && (r.Success? && |w.b.order| >= l.maxSessions ==>
                  exists i :: 0 <= i < |w.b.order| && Idle(w.b, w.b.order[i])
                    && (forall j :: 0 <= j < i ==> !Idle(w.b, w.b.order[j]))
                    && b'.order == w.b.order[..i] + w.b.order[i + 1..] + [r.value])
  {
    var i := FirstIdle(w.b, w.b.order);
    assert (forall id :: id in w.b.order ==> !Idle(w.b, id)) <==> i == |w.b.order|;
  }
}
