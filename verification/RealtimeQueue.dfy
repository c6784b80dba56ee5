/** The bounded priority schedulers of realtime inference work. */
module RealtimeQueue {
  import opened Wrappers

  type SessionId = string
  type UtteranceId = nat

  datatype AsrMode = Partial | Final

  datatype AsrJob = AsrJob(session: SessionId, utterance: UtteranceId, generation: nat, mode: AsrMode, pcm: seq<nat>) {
    function Key(): (SessionId, UtteranceId) {
      (session, utterance)
    }
  }

  datatype TextMode = Endpoint | Correction

  datatype TextJob = TextJob(session: SessionId, utterance: UtteranceId, mode: TextMode, previousText: string,
                             currentText: string)

  datatype QueueError = WrongMode | QueueClosed | QueueFull

  /** `MustWait` is a call that would suspend until work arrives. */
  datatype Served<+J> = Job(job: J) | MustWait | Drained

  // ---------- queues as values ----------

  /** `partials` lists the slots of the ordered dictionary, oldest first, one per utterance. */
  datatype AsrQueue = AsrQueue(finals: seq<AsrJob>, partials: seq<AsrJob>, closed: bool)

  /** The place of an utterance's slot, or the end when it has none. */
  function SlotOf(partials: seq<AsrJob>, key: (SessionId, UtteranceId)): (i: nat)
    ensures i <= |partials|
    ensures i < |partials| ==> partials[i].Key() == key
    ensures forall j :: 0 <= j < i ==> partials[j].Key() != key
  {
    if partials == [] || partials[0].Key() == key then 0 else 1 + SlotOf(partials[1..], key)
  }

  predicate HasSlot(partials: seq<AsrJob>, key: (SessionId, UtteranceId)) {
    SlotOf(partials, key) < |partials|
  }

  /** Assigning to an ordered dictionary: an existing key keeps its place, a new one goes last. */
  function Stored(partials: seq<AsrJob>, job: AsrJob): seq<AsrJob> {
    var i := SlotOf(partials, job.Key());
    if i < |partials| then partials[i := job] else partials + [job]
  }

  function PutFinal(q: AsrQueue, maxFinals: nat, job: AsrJob): Result<AsrQueue, QueueError> {
    if !job.mode.Final? then Failure(WrongMode)
    else if q.closed then Failure(QueueClosed)
    else if |q.finals| >= maxFinals then Failure(QueueFull)
    else Success(q.(finals := q.finals + [job]))
  }

  /** Also reports whether the queue became deeper. */
  function PutPartial(q: AsrQueue, maxPartials: nat, job: AsrJob): Result<(AsrQueue, bool), QueueError> {
    var inserted := !HasSlot(q.partials, job.Key());
    if !job.mode.Partial? then Failure(WrongMode)
    else if q.closed then Failure(QueueClosed)
    else if inserted && |q.partials| >= maxPartials then Failure(QueueFull)
    else Success((q.(partials := Stored(q.partials, job)), inserted))
  }

  /** An accepted partial is stored, and is reported as inserted when its utterance had no slot. */
  predicate PartialPut(q: AsrQueue, job: AsrJob, r: Result<(AsrQueue, bool), QueueError>) {
    r.Success? ==> r.value == (q.(partials := Stored(q.partials, job)), !HasSlot(q.partials, job.Key()))
  }

  lemma PutPartialStores(q: AsrQueue, maxPartials: nat, job: AsrJob)
    ensures PartialPut(q, job, PutPartial(q, maxPartials, job))
  {
  }

  function GetAsr(q: AsrQueue): (AsrQueue, Served<AsrJob>) {
    if q.finals != [] then (q.(finals := q.finals[1..]), Job(q.finals[0]))
    else if q.partials != [] then (q.(partials := q.partials[1..]), Job(q.partials[0]))
    else (q, if q.closed then Drained else MustWait)
  }

  datatype TextQueue = TextQueue(endpoints: seq<TextJob>, corrections: seq<TextJob>, closed: bool)

  function PutText(q: TextQueue, maxEach: nat, lane: TextMode, job: TextJob): Result<TextQueue, QueueError> {
    if job.mode != lane then Failure(WrongMode)
    else if q.closed then Failure(QueueClosed)
    else if |if lane.Endpoint? then q.endpoints else q.corrections| >= maxEach then Failure(QueueFull)
    else if lane.Endpoint? then Success(q.(endpoints := q.endpoints + [job]))
    else Success(q.(corrections := q.corrections + [job]))
  }

  function GetText(q: TextQueue): (TextQueue, Served<TextJob>) {
    if q.endpoints != [] then (q.(endpoints := q.endpoints[1..]), Job(q.endpoints[0]))
    else if q.corrections != [] then (q.(corrections := q.corrections[1..]), Job(q.corrections[0]))
    else (q, if q.closed then Drained else MustWait)
  }

  // ---------- what is accepted, and what a taker finds ----------

  /** A final is refused for no other reason than its mode, a closed queue or a full lane, named in that order. */
  lemma FinalAcceptedIff(q: AsrQueue, maxFinals: nat, job: AsrJob)
    ensures var r := PutFinal(q, maxFinals, job);
            && (r.Success? <==> job.mode == Final && !q.closed && |q.finals| < maxFinals)
            && (r == Failure(WrongMode) <==> job.mode == Partial)
            && (r == Failure(QueueClosed) <==> job.mode == Final && q.closed)
            && (r.Success? ==> r.value == AsrQueue(q.finals + [job], q.partials, q.closed))
  {
  }

  /** A partial of an utterance that already waits is never refused as too many. */
  lemma PartialAcceptedIff(q: AsrQueue, maxPartials: nat, job: AsrJob)
    ensures var r := PutPartial(q, maxPartials, job);
            var waits := exists i :: 0 <= i < |q.partials| && q.partials[i].Key() == job.Key();
            && (r.Success? <==> job.mode == Partial && !q.closed && (waits || |q.partials| < maxPartials))
            && (r == Failure(WrongMode) <==> job.mode == Final)
            && (r == Failure(QueueClosed) <==> job.mode == Partial && q.closed)
            && (r.Success? ==> r.value.1 == !waits && r.value.0.finals == q.finals && r.value.0.closed == q.closed)
  {
    var i := SlotOf(q.partials, job.Key());
    assert i < |q.partials| ==> q.partials[i].Key() == job.Key();
  }

  lemma TextAcceptedIff(q: TextQueue, maxEach: nat, lane: TextMode, job: TextJob)
    ensures var r := PutText(q, maxEach, lane, job);
            var waiting := if lane == Endpoint then |q.endpoints| else |q.corrections|;
            && (r.Success? <==> job.mode == lane && !q.closed && waiting < maxEach)
            && (r == Failure(WrongMode) <==> job.mode != lane)
            && (r == Failure(QueueClosed) <==> job.mode == lane && q.closed)
            && (r.Success? && lane == Endpoint ==> r.value == TextQueue(q.endpoints + [job], q.corrections, q.closed))
            && (r.Success? && lane == Correction ==> r.value == TextQueue(q.endpoints, q.corrections + [job], q.closed))
  {
  }

  /** A taker waits at an empty open queue, ends at an empty closed one, and otherwise gets a lane's head. */
  lemma TakerFinds(q: AsrQueue, t: TextQueue)
    ensures GetAsr(q).1 == MustWait <==> q.finals == [] && q.partials == [] && !q.closed
    ensures GetAsr(q).1 == Drained <==> q.finals == [] && q.partials == [] && q.closed
    ensures q.finals != [] ==> GetAsr(q) == (AsrQueue(q.finals[1..], q.partials, q.closed), Job(q.finals[0]))
    ensures q.finals == [] && q.partials != [] ==>
              GetAsr(q) == (AsrQueue([], q.partials[1..], q.closed), Job(q.partials[0]))
    ensures GetText(t).1 == MustWait <==> t.endpoints == [] && t.corrections == [] && !t.closed
    ensures GetText(t).1 == Drained <==> t.endpoints == [] && t.corrections == [] && t.closed
    ensures t.endpoints != [] ==>
              GetText(t) == (TextQueue(t.endpoints[1..], t.corrections, t.closed), Job(t.endpoints[0]))
    ensures t.endpoints == [] && t.corrections != [] ==>
              GetText(t) == (TextQueue([], t.corrections[1..], t.closed), Job(t.corrections[0]))
  {
  }

  // ---------- one slot per utterance ----------

  ghost predicate OneSlotEach(partials: seq<AsrJob>) {
    forall i, j :: 0 <= i < j < |partials| ==> partials[i].Key() != partials[j].Key()
  }

  function KeysOf(partials: seq<AsrJob>): seq<(SessionId, UtteranceId)> {
    seq(|partials|, i requires 0 <= i < |partials| => partials[i].Key())
  }

  /** The newest job takes its utterance's slot, at the slot's original place; all other slots stay. */
  lemma StoredReplacesInPlace(partials: seq<AsrJob>, job: AsrJob)
    requires OneSlotEach(partials)
    ensures OneSlotEach(Stored(partials, job))
    ensures KeysOf(Stored(partials, job))
            == KeysOf(partials) + (if HasSlot(partials, job.Key()) then [] else [job.Key()])
    ensures forall i :: 0 <= i < |partials| ==>
              Stored(partials, job)[i] == if partials[i].Key() == job.Key() then job else partials[i]
    ensures job in Stored(partials, job)
  {
    var i := SlotOf(partials, job.Key());
    assert Stored(partials, job)[i] == job;
  }

  // ---------- the schedulers ----------

  class ASRScheduler {
    const maxFinals: nat
    const maxPartials: nat
    var finals: seq<AsrJob>
    var partials: seq<AsrJob>
    var closed: bool

    function View(): AsrQueue
      reads this
    {
      AsrQueue(finals, partials, closed)
    }

    /** Depths within bounds, one slot per utterance, and each lane holds its own kind of job. */
    ghost predicate Valid()
      reads this
    {
      WellFormed(View(), maxFinals, maxPartials)
    }

    constructor (maxFinals: nat, maxPartials: nat)
      ensures Valid() && View() == AsrQueue([], [], false)
      ensures this.maxFinals == maxFinals && this.maxPartials == maxPartials
    {
      this.maxFinals, this.maxPartials := maxFinals, maxPartials;
      finals, partials, closed := [], [], false;
    }

    method EnqueueFinal(job: AsrJob) returns (r: Result<(), QueueError>)
      requires Valid()
      modifies this
      ensures Valid()
      ensures match PutFinal(old(View()), maxFinals, job)
              case Failure(e) => r == Failure(e) && View() == old(View())
              case Success(q) => r == Success(()) && View() == q
    {
      if !job.mode.Final? {
        return Failure(WrongMode);
      }
      if closed {
        return Failure(QueueClosed);
      }
      if |finals| >= maxFinals {
        return Failure(QueueFull);
      }
      finals := finals + [job];
      return Success(());
    }

    method EnqueuePartial(job: AsrJob) returns (r: Result<bool, QueueError>)
      requires Valid()
      modifies this
      ensures Valid()
      ensures match PutPartial(old(View()), maxPartials, job)
              case Failure(e) => r == Failure(e) && View() == old(View())
              case Success((q, inserted)) => r == Success(inserted) && View() == q
    {
      if !job.mode.Partial? {
        return Failure(WrongMode);
      }
      if closed {
        return Failure(QueueClosed);
      }
      var inserted := !HasSlot(partials, job.Key());
      if inserted && |partials| >= maxPartials {
        return Failure(QueueFull);
      }
      StoredReplacesInPlace(partials, job);
      partials := Stored(partials, job);
      return Success(inserted);
    }

    method Dequeue() returns (r: Served<AsrJob>)
      requires Valid()
      modifies this
      ensures Valid()
      ensures (View(), r) == GetAsr(old(View()))
    {
      if finals != [] {
        r := Job(finals[0]);
        finals := finals[1..];
      } else if partials != [] {
        r := Job(partials[0]);
        partials := partials[1..];
      } else {
        r := if closed then Drained else MustWait;
      }
    }

    method Close()
      requires Valid()
      modifies this
      ensures Valid() && View() == old(View()).(closed := true)
    {
      closed := true;
    }
  }

  class TextScheduler {
    const maxEndpoints: nat
    const maxCorrections: nat
    var endpoints: seq<TextJob>
    var corrections: seq<TextJob>
    var closed: bool

    function View(): TextQueue
      reads this
    {
      TextQueue(endpoints, corrections, closed)
    }

    constructor (maxEndpoints: nat, maxCorrections: nat)
      ensures View() == TextQueue([], [], false)
      ensures this.maxEndpoints == maxEndpoints && this.maxCorrections == maxCorrections
    {
      this.maxEndpoints, this.maxCorrections := maxEndpoints, maxCorrections;
      endpoints, corrections, closed := [], [], false;
    }

    method EnqueueEndpoint(job: TextJob) returns (r: Result<(), QueueError>)
      modifies this
      ensures match PutText(old(View()), maxEndpoints, Endpoint, job)
              case Failure(e) => r == Failure(e) && View() == old(View())
              case Success(q) => r == Success(()) && View() == q
    {
      if !job.mode.Endpoint? {
        return Failure(WrongMode);
      }
      if closed {
        return Failure(QueueClosed);
      }
      if |endpoints| >= maxEndpoints {
        return Failure(QueueFull);
      }
      endpoints := endpoints + [job];
      return Success(());
    }

    method EnqueueCorrection(job: TextJob) returns (r: Result<(), QueueError>)
      modifies this
      ensures match PutText(old(View()), maxCorrections, Correction, job)
              case Failure(e) => r == Failure(e) && View() == old(View())
              case Success(q) => r == Success(()) && View() == q
    {
      if !job.mode.Correction? {
        return Failure(WrongMode);
      }
      if closed {
        return Failure(QueueClosed);
      }
      if |corrections| >= maxCorrections {
        return Failure(QueueFull);
      }
      corrections := corrections + [job];
      return Success(());
    }

    method Dequeue() returns (r: Served<TextJob>)
      modifies this
      ensures (View(), r) == GetText(old(View()))
    {
      if endpoints != [] {
        r := Job(endpoints[0]);
        endpoints := endpoints[1..];
      } else if corrections != [] {
        r := Job(corrections[0]);
        corrections := corrections[1..];
      } else {
        r := if closed then Drained else MustWait;
      }
    }

    method Close()
      modifies this
      ensures View() == old(View()).(closed := true)
    {
      closed := true;
    }
  }

  // ---------- runs ----------

  ghost predicate WellFormed(q: AsrQueue, maxFinals: nat, maxPartials: nat) {
    && |q.finals| <= maxFinals && |q.partials| <= maxPartials
    && OneSlotEach(q.partials)
    && (forall j :: j in q.finals ==> j.mode.Final?)
    && (forall j :: j in q.partials ==> j.mode.Partial?)
  }

  datatype AsrOp = OfferFinal(job: AsrJob) | OfferPartial(job: AsrJob) | Take | CloseQueue

  /** A queue with everything it accepted and delivered so far, in order. */
  datatype AsrRun = AsrRun(q: AsrQueue, accepted: seq<AsrJob>, delivered: seq<AsrJob>)

  function Serve(r: AsrRun, maxFinals: nat, maxPartials: nat, op: AsrOp): AsrRun {
    match op
    case OfferFinal(job) =>
      (match PutFinal(r.q, maxFinals, job)
       case Failure(_) => r
       case Success(q) => r.(q := q, accepted := r.accepted + [job]))
    case OfferPartial(job) =>
      (match PutPartial(r.q, maxPartials, job)
       case Failure(_) => r
       case Success((q, _)) => r.(q := q, accepted := r.accepted + [job]))
    case Take =>
      (match GetAsr(r.q)
       case (q, Job(job)) => r.(q := q, delivered := r.delivered + [job])
       case (q, _) => r)
    case CloseQueue => r.(q := r.q.(closed := true))
  }

  function ServeAll(r: AsrRun, maxFinals: nat, maxPartials: nat, ops: seq<AsrOp>): AsrRun
    decreases |ops|
  {
    if ops == [] then r else ServeAll(Serve(r, maxFinals, maxPartials, ops[0]), maxFinals, maxPartials, ops[1..])
  }

  function FinalJobs(jobs: seq<AsrJob>): seq<AsrJob> {
    if jobs == [] then []
    else FinalJobs(jobs[..|jobs| - 1]) + (if jobs[|jobs| - 1].mode.Final? then [jobs[|jobs| - 1]] else [])
  }

  /** The last partial of an utterance in a list of jobs. */
  function NewestPartial(jobs: seq<AsrJob>, key: (SessionId, UtteranceId)): Option<AsrJob> {
    if jobs == [] then None
    else
      var last := jobs[|jobs| - 1];
      if last.mode.Partial? && last.Key() == key then Some(last) else NewestPartial(jobs[..|jobs| - 1], key)
  }

  lemma JobsPlusOne(jobs: seq<AsrJob>, job: AsrJob)
    ensures FinalJobs(jobs + [job]) == FinalJobs(jobs) + (if job.mode.Final? then [job] else [])
    ensures forall key :: NewestPartial(jobs + [job], key)
                          == if job.mode.Partial? && job.Key() == key then Some(job) else NewestPartial(jobs, key)
  {
    assert (jobs + [job])[..|jobs|] == jobs;
  }

  /** Finals are conserved in order, and every slot holds the newest partial accepted for it. */
  ghost predicate Conserved(r: AsrRun) {
    && FinalJobs(r.accepted) == FinalJobs(r.delivered) + r.q.finals
    && (forall j :: j in r.q.partials ==> NewestPartial(r.accepted, j.Key()) == Some(j))
  }

  lemma OfferPartialKeeps(r: AsrRun, maxFinals: nat, maxPartials: nat, job: AsrJob)
    requires WellFormed(r.q, maxFinals, maxPartials) && Conserved(r)
    ensures WellFormed(Serve(r, maxFinals, maxPartials, OfferPartial(job)).q, maxFinals, maxPartials)
    ensures Conserved(Serve(r, maxFinals, maxPartials, OfferPartial(job)))
  {
    var stored := Stored(r.q.partials, job);
    JobsPlusOne(r.accepted, job);
    StoredReplacesInPlace(r.q.partials, job);
    forall j | j in stored
      ensures j == job || (j in r.q.partials && j.Key() != job.Key())
    {
      var i :| 0 <= i < |stored| && stored[i] == j;
      assert i == |r.q.partials| ==> j == job;
    }
  }

  lemma TakeFinalKeeps(r: AsrRun, maxFinals: nat, maxPartials: nat)
    requires WellFormed(r.q, maxFinals, maxPartials) && Conserved(r) && r.q.finals != []
    ensures var r' := r.(q := r.q.(finals := r.q.finals[1..]), delivered := r.delivered + [r.q.finals[0]]);
            WellFormed(r'.q, maxFinals, maxPartials) && Conserved(r')
  {
    var job := r.q.finals[0];
    assert job in r.q.finals;
    JobsPlusOne(r.delivered, job);
    assert FinalJobs(r.delivered) + r.q.finals == FinalJobs(r.delivered) + [job] + r.q.finals[1..];
  }

  lemma TakePartialKeeps(r: AsrRun, maxFinals: nat, maxPartials: nat)
    requires WellFormed(r.q, maxFinals, maxPartials) && Conserved(r) && r.q.partials != []
    ensures var r' := r.(q := r.q.(partials := r.q.partials[1..]), delivered := r.delivered + [r.q.partials[0]]);
            WellFormed(r'.q, maxFinals, maxPartials) && Conserved(r')
  {
    assert r.q.partials[0] in r.q.partials;
    JobsPlusOne(r.delivered, r.q.partials[0]);
  }

  lemma TakeKeeps(r: AsrRun, maxFinals: nat, maxPartials: nat)
    requires WellFormed(r.q, maxFinals, maxPartials) && Conserved(r)
    ensures WellFormed(Serve(r, maxFinals, maxPartials, Take).q, maxFinals, maxPartials)
    ensures Conserved(Serve(r, maxFinals, maxPartials, Take))
  {
    if r.q.finals != [] {
      TakeFinalKeeps(r, maxFinals, maxPartials);
    } else if r.q.partials != [] {
      TakePartialKeeps(r, maxFinals, maxPartials);
    }
  }

  lemma ServeKeeps(r: AsrRun, maxFinals: nat, maxPartials: nat, op: AsrOp)
    requires WellFormed(r.q, maxFinals, maxPartials) && Conserved(r)
    ensures WellFormed(Serve(r, maxFinals, maxPartials, op).q, maxFinals, maxPartials)
    ensures Conserved(Serve(r, maxFinals, maxPartials, op))
  {
    match op
    case OfferFinal(job) => JobsPlusOne(r.accepted, job);
    case OfferPartial(job) => OfferPartialKeeps(r, maxFinals, maxPartials, job);
    case Take => TakeKeeps(r, maxFinals, maxPartials);
    case CloseQueue =>
  }

  /** In every run: finals delivered followed by finals queued are the finals accepted, in order. */
  lemma {:induction false} RunConserves(r: AsrRun, maxFinals: nat, maxPartials: nat, ops: seq<AsrOp>)
    requires WellFormed(r.q, maxFinals, maxPartials) && Conserved(r)
    ensures WellFormed(ServeAll(r, maxFinals, maxPartials, ops).q, maxFinals, maxPartials)
    ensures Conserved(ServeAll(r, maxFinals, maxPartials, ops))
    decreases |ops|
  {
    if ops != [] {
      ServeKeeps(r, maxFinals, maxPartials, ops[0]);
      RunConserves(Serve(r, maxFinals, maxPartials, ops[0]), maxFinals, maxPartials, ops[1..]);
    }
  }

  /** A partial is delivered only when no final waits, and it is then the oldest slot. */
  lemma FinalsGoFirst(r: AsrRun, maxFinals: nat, maxPartials: nat)
    requires WellFormed(r.q, maxFinals, maxPartials)
    ensures var r' := Serve(r, maxFinals, maxPartials, Take);
            r'.delivered != r.delivered && r'.delivered[|r.delivered|].mode.Partial? ==>
              r.q.finals == [] && r.q.partials != [] && r'.delivered == r.delivered + [r.q.partials[0]]
  {
    if r.q.finals != [] {
      assert r.q.finals[0] in r.q.finals;
    }
  }

  /** What a closed queue still delivers, until it reports that it is drained. */
  function Drain(q: AsrQueue): seq<AsrJob>
    decreases |q.finals| + |q.partials|
  {
    match GetAsr(q)
    case (q', Job(job)) => [job] + Drain(q')
    case (_, _) => []
  }

  lemma {:induction false} CloseDrainsTheRest(q: AsrQueue)
    ensures Drain(q) == q.finals + q.partials
    ensures q.closed ==> forall n, job :: PutFinal(q, n, job).Failure? && PutPartial(q, n, job).Failure?
    decreases |q.finals| + |q.partials|
  {
    match GetAsr(q)
    case (q', Job(job)) => CloseDrainsTheRest(q');
    case (_, _) =>
  }

  // ---------- runs of the text queue ----------

  datatype TextOp = OfferText(lane: TextMode, job: TextJob) | TakeNext | CloseText

  datatype TextRun = TextRun(q: TextQueue, accepted: seq<TextJob>, delivered: seq<TextJob>)

  function ServeText(r: TextRun, maxEndpoints: nat, maxCorrections: nat, op: TextOp): TextRun {
    match op
    case OfferText(lane, job) =>
      (match PutText(r.q, if lane.Endpoint? then maxEndpoints else maxCorrections, lane, job)
       case Failure(_) => r
       case Success(q) => r.(q := q, accepted := r.accepted + [job]))
    case TakeNext =>
      (match GetText(r.q)
       case (q, Job(job)) => r.(q := q, delivered := r.delivered + [job])
       case (q, _) => r)
    case CloseText => r.(q := r.q.(closed := true))
  }

  function ServeTexts(r: TextRun, maxEndpoints: nat, maxCorrections: nat, ops: seq<TextOp>): TextRun
    decreases |ops|
  {
    if ops == [] then r
    else
      ServeTexts(ServeText(r, maxEndpoints, maxCorrections, ops[0]), maxEndpoints, maxCorrections, ops[1..])
  }

  /** The jobs of one lane, in order. */
  function InLane(jobs: seq<TextJob>, lane: TextMode): seq<TextJob> {
    if jobs == [] then []
    else InLane(jobs[..|jobs| - 1], lane) + (if jobs[|jobs| - 1].mode == lane then [jobs[|jobs| - 1]] else [])
  }

  lemma LanePlusOne(jobs: seq<TextJob>, job: TextJob, lane: TextMode)
    ensures InLane(jobs + [job], lane) == InLane(jobs, lane) + (if job.mode == lane then [job] else [])
  {
    assert (jobs + [job])[..|jobs|] == jobs;
  }

  ghost predicate TextConserved(r: TextRun) {
    && (forall i :: 0 <= i < |r.q.endpoints| ==> r.q.endpoints[i].mode.Endpoint?)
    && (forall i :: 0 <= i < |r.q.corrections| ==> r.q.corrections[i].mode.Correction?)
    && InLane(r.accepted, Endpoint) == InLane(r.delivered, Endpoint) + r.q.endpoints
    && InLane(r.accepted, Correction) == InLane(r.delivered, Correction) + r.q.corrections
  }

  lemma OfferTextKeeps(r: TextRun, maxEndpoints: nat, maxCorrections: nat, lane: TextMode, job: TextJob)
    requires TextConserved(r)
    ensures TextConserved(ServeText(r, maxEndpoints, maxCorrections, OfferText(lane, job)))
  {
    LanePlusOne(r.accepted, job, Endpoint);
    LanePlusOne(r.accepted, job, Correction);
  }

  /** The head of a lane moves from its queue to the delivered jobs. */
  lemma HeadDelivered(delivered: seq<TextJob>, waiting: seq<TextJob>, lane: TextMode)
    requires waiting != [] && waiting[0].mode == lane
    ensures InLane(delivered, lane) + waiting == InLane(delivered + [waiting[0]], lane) + waiting[1..]
  {
    LanePlusOne(delivered, waiting[0], lane);
    assert waiting == [waiting[0]] + waiting[1..];
  }

  lemma TakeEndpointKeeps(r: TextRun)
    requires TextConserved(r) && r.q.endpoints != []
    ensures TextConserved(r.(q := r.q.(endpoints := r.q.endpoints[1..]), delivered := r.delivered + [r.q.endpoints[0]]))
  {
    HeadDelivered(r.delivered, r.q.endpoints, Endpoint);
    LanePlusOne(r.delivered, r.q.endpoints[0], Correction);
  }

  lemma TakeCorrectionKeeps(r: TextRun)
    requires TextConserved(r) && r.q.corrections != []
    ensures TextConserved(r.(q := r.q.(corrections := r.q.corrections[1..]),
                                delivered := r.delivered + [r.q.corrections[0]]))
  {
    HeadDelivered(r.delivered, r.q.corrections, Correction);
    LanePlusOne(r.delivered, r.q.corrections[0], Endpoint);
  }

  lemma ServeTextKeeps(r: TextRun, maxEndpoints: nat, maxCorrections: nat, op: TextOp)
    requires TextConserved(r)
    ensures TextConserved(ServeText(r, maxEndpoints, maxCorrections, op))
  {
    match op
    case OfferText(lane, job) => OfferTextKeeps(r, maxEndpoints, maxCorrections, lane, job);
    case TakeNext =>
      if r.q.endpoints != [] {
        TakeEndpointKeeps(r);
      } else if r.q.corrections != [] {
        TakeCorrectionKeeps(r);
      }
    case CloseText =>
  }

  /** In every run, each lane delivers what it accepted, in order, and a correction only while no endpoint question
      waits. */
  lemma {:induction false} TextRunConserves(r: TextRun, maxEndpoints: nat, maxCorrections: nat, ops: seq<TextOp>)
    requires TextConserved(r)
    ensures var end := ServeTexts(r, maxEndpoints, maxCorrections, ops);
            && TextConserved(end)
            && (forall q: TextQueue, job: TextJob ::
                  GetText(end.q) == (q, Job(job)) && job.mode.Correction? ==> end.q.endpoints == [])
    decreases |ops|
  {
    if ops != [] {
      ServeTextKeeps(r, maxEndpoints, maxCorrections, ops[0]);
      TextRunConserves(ServeText(r, maxEndpoints, maxCorrections, ops[0]), maxEndpoints, maxCorrections, ops[1..]);
    }
  }
}
