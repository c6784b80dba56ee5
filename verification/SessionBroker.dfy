/** In-memory sessions with a bounded event history and bounded, drop-oldest subscriber queues. */
module SessionBroker {
  import opened Wrappers

  type SessionId = nat
  type StreamId = nat

  datatype Event = Event(sequence: nat, kind: string)

  datatype Session = Session(events: seq<Event>, sequence: nat)

  /** An event stream: the history it still has to yield, then its live queue. */
  datatype Stream = Stream(session: SessionId, history: seq<Event>, queue: seq<Event>)

  datatype BrokerError = CapacityReached | SessionNotFound | TurnInProgress

  /** `queueSize` of zero or less is an unbounded queue. */
  datatype Limits = Limits(maxSessions: int, maxEvents: int, queueSize: int)

  /** `order` lists the sessions oldest first; ids come from two counters. */
  datatype Broker = Broker(
    order: seq<SessionId>,
    sessions: map<SessionId, Session>,
    subscribers: map<SessionId, set<StreamId>>,
    streams: map<StreamId, Stream>,
    activeTurns: set<SessionId>,
    nextSession: nat,
    nextStream: nat)

  // ---------- operations as functions ----------

  predicate Idle(b: Broker, id: SessionId) {
    id !in b.activeTurns && (id in b.subscribers ==> b.subscribers[id] == {})
  }

  /** The position of the oldest idle session, or the end when none is idle. */
  function FirstIdle(b: Broker, order: seq<SessionId>): (i: nat)
    ensures i <= |order|
    ensures i < |order| ==> Idle(b, order[i])
    ensures forall j :: 0 <= j < i ==> !Idle(b, order[j])
  {
    if order == [] || Idle(b, order[0]) then 0 else 1 + FirstIdle(b, order[1..])
  }

  /** Deleting the front of the history once it is longer than `maxEvents`. */
  function Trimmed(maxEvents: int, events: seq<Event>): seq<Event> {
    if |events| <= maxEvents then events
    else events[if maxEvents < 0 then |events| else |events| - maxEvents..]
  }

  function Delivered(queueSize: int, queue: seq<Event>, e: Event): seq<Event> {
    (if 0 < queueSize <= |queue| then queue[1..] else queue) + [e]
  }

  function FannedOut(l: Limits, streams: map<StreamId, Stream>, to: set<StreamId>, e: Event): map<StreamId, Stream> {
    map k | k in streams ::
      if k in to then streams[k].(queue := Delivered(l.queueSize, streams[k].queue, e)) else streams[k]
  }

  function Emit(l: Limits, b: Broker, id: SessionId, kind: string): (Broker, Result<Event, BrokerError>)
  {
    if id !in b.sessions || id !in b.subscribers then (b, Failure(SessionNotFound))
    else
      var s := b.sessions[id];
      var e := Event(s.sequence + 1, kind);
      (b.(sessions := b.sessions[id := Session(Trimmed(l.maxEvents, s.events + [e]), s.sequence + 1)],
          streams := FannedOut(l, b.streams, b.subscribers[id], e)),
       Success(e))
  }

  function Evicted(b: Broker, i: nat): Broker
    requires i < |b.order|
  {
    b.(order := b.order[..i] + b.order[i + 1..],
       sessions := b.sessions - {b.order[i]},
       subscribers := b.subscribers - {b.order[i]})
  }

  function Admitted(b: Broker): Broker {
    b.(order := b.order + [b.nextSession],
       sessions := b.sessions[b.nextSession := Session([], 0)],
       subscribers := b.subscribers[b.nextSession := {}],
       nextSession := b.nextSession + 1)
  }

  function Create(l: Limits, b: Broker): (Broker, Result<SessionId, BrokerError>) {
    var i := FirstIdle(b, b.order);
    if |b.order| < l.maxSessions then (Emit(l, Admitted(b), b.nextSession, "session.created").0, Success(b.nextSession))
    else if i == |b.order| then (b, Failure(CapacityReached))
    else (Emit(l, Admitted(Evicted(b, i)), b.nextSession, "session.created").0, Success(b.nextSession))
  }

  function BeginTurn(b: Broker, id: SessionId): (Broker, Result<(), BrokerError>) {
    if id !in b.sessions then (b, Failure(SessionNotFound))
    else if id in b.activeTurns then (b, Failure(TurnInProgress))
    else (b.(activeTurns := b.activeTurns + {id}), Success(()))
  }

  function EndTurn(b: Broker, id: SessionId): Broker {
    b.(activeTurns := b.activeTurns - {id})
  }

  function Subscribe(b: Broker, id: SessionId): (Broker, Result<StreamId, BrokerError>) {
    if id !in b.sessions || id !in b.subscribers then (b, Failure(SessionNotFound))
    else
      (b.(subscribers := b.subscribers[id := b.subscribers[id] + {b.nextStream}],
          streams := b.streams[b.nextStream := Stream(id, b.sessions[id].events, [])],
          nextStream := b.nextStream + 1),
       Success(b.nextStream))
  }

  /** The next event of a stream; `None` when the reader would wait. */
  function Advance(s: Stream): (Stream, Option<Event>) {
    if s.history != [] then (s.(history := s.history[1..]), Some(s.history[0]))
    else if s.queue != [] then (s.(queue := s.queue[1..]), Some(s.queue[0]))
    else (s, None)
  }

  function Read(b: Broker, k: StreamId): (Broker, Option<Event>) {
    if k !in b.streams then (b, None)
    else (b.(streams := b.streams[k := Advance(b.streams[k]).0]), Advance(b.streams[k]).1)
  }

  function Unsubscribe(b: Broker, k: StreamId): Broker {
    if k !in b.streams then b
    else
      var id := b.streams[k].session;
      b.(subscribers := if id in b.subscribers then b.subscribers[id := b.subscribers[id] - {k}] else b.subscribers,
         streams := b.streams - {k})
  }

  // ---------- the broker object ----------

  /** The insertion order lists the known sessions, each once. */
  ghost predicate Ordered(order: seq<SessionId>, known: set<SessionId>, nextSession: nat) {
    && (forall i, j :: 0 <= i < j < |order| ==> order[i] != order[j])
    && (forall i :: 0 <= i < |order| ==> order[i] in known && order[i] < nextSession)
    && (forall id :: id in known ==> id in order)
  }

  /** The subscriber sets hold exactly the open streams, each under its own session. */
  ghost predicate Linked(subscribers: map<SessionId, set<StreamId>>, streams: map<StreamId, Stream>, nextStream: nat) {
    && (forall k :: k in streams ==>
          k < nextStream && streams[k].session in subscribers && k in subscribers[streams[k].session])
    && (forall id, k :: id in subscribers && k in subscribers[id] ==> k in streams && streams[k].session == id)
  }

  ghost predicate WellFormed(l: Limits, b: Broker) {
    && |b.order| <= (if l.maxSessions < 0 then 0 else l.maxSessions)
    && b.sessions.Keys == b.subscribers.Keys
    && b.activeTurns <= b.sessions.Keys
    && Ordered(b.order, b.sessions.Keys, b.nextSession)
    && Linked(b.subscribers, b.streams, b.nextStream)
  }

  class SessionBroker {
    const limits: Limits
    var order: seq<SessionId>
    var sessions: map<SessionId, Session>
    var subscribers: map<SessionId, set<StreamId>>
    var streams: map<StreamId, Stream>
    var activeTurns: set<SessionId>
    var nextSession: nat
    var nextStream: nat

    function View(): Broker
      reads this
    {
      Broker(order, sessions, subscribers, streams, activeTurns, nextSession, nextStream)
    }

    ghost predicate Valid()
      reads this
    {
      WellFormed(limits, View())
    }

    constructor (limits: Limits)
      ensures this.limits == limits
      ensures Valid() && View() == Broker([], map[], map[], map[], {}, 0, 0)
    {
      this.limits := limits;
      order, sessions, subscribers, streams := [], map[], map[], map[];
      activeTurns, nextSession, nextStream := {}, 0, 0;
    }

    method FindRemovable() returns (i: nat)
      requires forall id :: id in order ==> id in subscribers
      ensures i == FirstIdle(View(), order)
    {
      i := 0;
      while i < |order| && !(order[i] !in activeTurns && subscribers[order[i]] == {})
        invariant 0 <= i <= |order|
        invariant FirstIdle(View(), order) == i + FirstIdle(View(), order[i..])
      {
        assert order[i..][1..] == order[i + 1..];
        i := i + 1;
      }
    }

    method RemoveSession(i: nat)
      requires i < |order|
      modifies this
      ensures View() == Evicted(old(View()), i)
    {
      var removable := order[i];
      order := order[..i] + order[i + 1..];
      sessions := sessions - {removable};
      subscribers := subscribers - {removable};
    }

    method AddSession() returns (id: SessionId)
      modifies this
      ensures id == old(nextSession)
      ensures View() == Admitted(old(View()))
    {
      id := nextSession;
      order := order + [id];
      sessions := sessions[id := Session([], 0)];
      subscribers := subscribers[id := {}];
      nextSession := nextSession + 1;
    }

    method CreateSession() returns (r: Result<SessionId, BrokerError>)
      requires Valid()
      modifies this
      ensures Valid()
      ensures (View(), r) == Create(limits, old(View()))
    {
      ghost var room := View();
      if |order| >= limits.maxSessions {
        var i := FindRemovable();
        if i == |order| {
          return Failure(CapacityReached);
        }
        EvictKeeps(limits, room, i);
        RemoveSession(i);
        room := View();
      }
      AdmitKeeps(limits, room);
      var id := AddSession();
      var emitted := Publish(id, "session.created");
      r := Success(id);
    }

    /** Hands the event to every subscriber queue in turn. */
    method FanOut(to: set<StreamId>, event: Event)
      requires to <= streams.Keys
      modifies this`streams
      ensures streams == FannedOut(limits, old(streams), to, event)
    {
      var waiting := to;
      while waiting != {}
        invariant waiting <= to
        invariant streams == FannedOut(limits, old(streams), to - waiting, event)
        decreases |waiting|
      {
        var k :| k in waiting;
        var queue := streams[k].queue;
        if 0 < limits.queueSize <= |queue| {
          queue := queue[1..];
        }
        streams := streams[k := streams[k].(queue := queue + [event])];
        waiting := waiting - {k};
      }
      assert to - {} == to;
    }

    method Publish(id: SessionId, kind: string) returns (r: Result<Event, BrokerError>)
      requires Valid()
      modifies this
      ensures Valid()
      ensures (View(), r) == Emit(limits, old(View()), id, kind)
    {
      ghost var before := View();
      if id !in sessions {
        return Failure(SessionNotFound);
      }
      SubscribersAreOpen(limits, before, id);
      var sequence := sessions[id].sequence + 1;
      var event := Event(sequence, kind);
      sessions := sessions[id := Session(Trimmed(limits.maxEvents, sessions[id].events + [event]), sequence)];
      FanOut(subscribers[id], event);
      r := Success(event);
      assert (View(), r) == Emit(limits, before, id, kind);
      EmitKeeps(limits, before, id, kind);
    }

    method AdmitTurn(id: SessionId) returns (r: Result<(), BrokerError>)
      requires Valid()
      modifies this`activeTurns
      ensures Valid()
      ensures (View(), r) == BeginTurn(old(View()), id)
    {
      if id !in sessions {
        return Failure(SessionNotFound);
      }
      if id in activeTurns {
        return Failure(TurnInProgress);
      }
      activeTurns := activeTurns + {id};
      r := Success(());
    }

    method LeaveTurn(id: SessionId)
      requires Valid()
      modifies this`activeTurns
      ensures Valid()
      ensures View() == EndTurn(old(View()), id)
    {
      activeTurns := activeTurns - {id};
    }

    method OpenStream(id: SessionId) returns (r: Result<StreamId, BrokerError>)
      requires Valid()
      modifies this
      ensures Valid()
      ensures (View(), r) == Subscribe(old(View()), id)
    {
      if id !in sessions {
        return Failure(SessionNotFound);
      }
      SubscribeKeeps(limits, View(), id);
      var k := nextStream;
      streams := streams[k := Stream(id, sessions[id].events, [])];
      subscribers := subscribers[id := subscribers[id] + {k}];
      nextStream := nextStream + 1;
      r := Success(k);
    }

    method ReadStream(k: StreamId) returns (e: Option<Event>)
      requires Valid()
      modifies this`streams
      ensures Valid()
      ensures (View(), e) == Read(old(View()), k)
    {
      if k !in streams {
        return None;
      }
      var s := streams[k];
      if s.history != [] {
        e := Some(s.history[0]);
        streams := streams[k := s.(history := s.history[1..])];
      } else if s.queue != [] {
        e := Some(s.queue[0]);
        streams := streams[k := s.(queue := s.queue[1..])];
      } else {
        e := None;
        assert streams == streams[k := s];
      }
    }

    method CloseStream(k: StreamId)
      requires Valid()
      modifies this
      ensures Valid()
      ensures View() == Unsubscribe(old(View()), k)
    {
      if k in streams {
        var id := streams[k].session;
        LinkedAfterClose(subscribers, streams, nextStream, k);
        subscribers := subscribers[id := subscribers[id] - {k}];
        streams := streams - {k};
      }
    }
  }

  // ---------- well-formedness over every operation ----------

  lemma WithoutOne(order: seq<SessionId>, known: set<SessionId>, nextSession: nat, i: nat)
    requires Ordered(order, known, nextSession) && i < |order|
    ensures Ordered(order[..i] + order[i + 1..], known - {order[i]}, nextSession)
  {
    var rest := order[..i] + order[i + 1..];
    forall id | id in known && id != order[i]
      ensures id in rest
    {
      var n :| 0 <= n < |order| && order[n] == id;
      assert rest[if n < i then n else n - 1] == id;
    }
  }

  lemma WithNext(order: seq<SessionId>, known: set<SessionId>, nextSession: nat)
    requires Ordered(order, known, nextSession)
    ensures nextSession !in known
    ensures Ordered(order + [nextSession], known + {nextSession}, nextSession + 1)
  {
    var longer := order + [nextSession];
    assert longer[|order|] == nextSession;
    forall id | id in known
      ensures id in longer
    {
      var n :| 0 <= n < |order| && order[n] == id;
      assert longer[n] == id;
    }
  }

  lemma LinkedWithout(subscribers: map<SessionId, set<StreamId>>, streams: map<StreamId, Stream>, nextStream: nat,
                      id: SessionId)
    requires Linked(subscribers, streams, nextStream)
    requires id in subscribers && subscribers[id] == {}
    ensures Linked(subscribers - {id}, streams, nextStream)
  {
  }

  lemma LinkedWith(subscribers: map<SessionId, set<StreamId>>, streams: map<StreamId, Stream>, nextStream: nat,
                   id: SessionId)
    requires Linked(subscribers, streams, nextStream) && id !in subscribers
    ensures Linked(subscribers[id := {}], streams, nextStream)
  {
  }

  lemma LinkedAfterFan(l: Limits, subscribers: map<SessionId, set<StreamId>>, streams: map<StreamId, Stream>,
                       nextStream: nat, id: SessionId, e: Event)
    requires Linked(subscribers, streams, nextStream) && id in subscribers
    ensures Linked(subscribers, FannedOut(l, streams, subscribers[id], e), nextStream)
  {
  }

  lemma LinkedAfterOpen(subscribers: map<SessionId, set<StreamId>>, streams: map<StreamId, Stream>, nextStream: nat,
                        s: Stream)
    requires Linked(subscribers, streams, nextStream) && s.session in subscribers
    ensures Linked(subscribers[s.session := subscribers[s.session] + {nextStream}], streams[nextStream := s],
                   nextStream + 1)
  {
    var id := s.session;
    var subscribers' := subscribers[id := subscribers[id] + {nextStream}];
    var streams' := streams[nextStream := s];
    forall j, k | j in subscribers' && k in subscribers'[j]
      ensures k in streams' && streams'[k].session == j
    {
      assert (j == id && k == nextStream) || k in subscribers[j];
    }
  }

  lemma LinkedAfterClose(subscribers: map<SessionId, set<StreamId>>, streams: map<StreamId, Stream>, nextStream: nat,
                         k: StreamId)
    requires Linked(subscribers, streams, nextStream) && k in streams
    ensures var id := streams[k].session;
            Linked(subscribers[id := subscribers[id] - {k}], streams - {k}, nextStream)
  {
    var id := streams[k].session;
    var subscribers' := subscribers[id := subscribers[id] - {k}];
    forall j, m | j in subscribers' && m in subscribers'[j]
      ensures m in streams - {k} && (streams - {k})[m].session == j
    {
      assert m in subscribers[j];
    }
  }

  lemma SubscribeKeeps(l: Limits, b: Broker, id: SessionId)
    requires WellFormed(l, b) && id in b.sessions
    ensures WellFormed(l, Subscribe(b, id).0)
  {
    LinkedAfterOpen(b.subscribers, b.streams, b.nextStream, Stream(id, b.sessions[id].events, []));
    assert Subscribe(b, id).0.subscribers.Keys == b.subscribers.Keys;
  }

  lemma EvictKeeps(l: Limits, b: Broker, i: nat)
    requires WellFormed(l, b) && i < |b.order| && Idle(b, b.order[i])
    ensures WellFormed(l, Evicted(b, i)) && |Evicted(b, i).order| == |b.order| - 1
  {
    var b' := Evicted(b, i);
    WithoutOne(b.order, b.sessions.Keys, b.nextSession, i);
    LinkedWithout(b.subscribers, b.streams, b.nextStream, b.order[i]);
    assert b'.sessions.Keys == b.sessions.Keys - {b.order[i]};
    assert b'.subscribers.Keys == b.subscribers.Keys - {b.order[i]};
  }

  lemma AdmitKeeps(l: Limits, b: Broker)
    requires WellFormed(l, b) && |b.order| < l.maxSessions
    ensures WellFormed(l, Admitted(b)) && b.nextSession in Admitted(b).sessions
  {
    var b' := Admitted(b);
    WithNext(b.order, b.sessions.Keys, b.nextSession);
    LinkedWith(b.subscribers, b.streams, b.nextStream, b.nextSession);
    assert b'.sessions.Keys == b.sessions.Keys + {b.nextSession};
    assert b'.subscribers.Keys == b.subscribers.Keys + {b.nextSession};
  }

  lemma SubscribersAreOpen(l: Limits, b: Broker, id: SessionId)
    requires WellFormed(l, b) && id in b.sessions
    ensures id in b.subscribers && b.subscribers[id] <= b.streams.Keys
  {
  }

  lemma EmitKeeps(l: Limits, b: Broker, id: SessionId, kind: string)
    requires WellFormed(l, b)
    ensures WellFormed(l, Emit(l, b, id, kind).0)
    ensures Emit(l, b, id, kind).1.Success? <==> id in b.sessions
  {
    if id in b.sessions {
      var b' := Emit(l, b, id, kind).0;
      LinkedAfterFan(l, b.subscribers, b.streams, b.nextStream, id, Event(b.sessions[id].sequence + 1, kind));
      assert b'.sessions.Keys == b.sessions.Keys;
    }
  }

  lemma CreateKeeps(l: Limits, b: Broker)
    requires WellFormed(l, b)
    ensures WellFormed(l, Create(l, b).0)
  {
    var i := FirstIdle(b, b.order);
    if |b.order| < l.maxSessions {
      AdmitKeeps(l, b);
      EmitKeeps(l, Admitted(b), b.nextSession, "session.created");
    } else if i < |b.order| {
      EvictKeeps(l, b, i);
      AdmitKeeps(l, Evicted(b, i));
      EmitKeeps(l, Admitted(Evicted(b, i)), b.nextSession, "session.created");
    }
  }
}
