/**
 The realtime coordinator as a step system: any number of streams, two shared
 queues and two worker loops, interleaved at every point where the program
 can suspend. One `Op` is what runs between two suspensions.
 */
module RealtimeCoordinator {
  import opened Wrappers
  import opened RealtimeQueue
  import Ledger = TranscriptLedger

  /** How far a stream's `stop` has come; `StopFailed` is a stop that raised before it could wait. */
  datatype StopPhase = Running | Stopping | Stopped | StopFailed

  /**
   A stream's bookkeeping. `waiting` events are in its event queue, `owed` are clients' events that
   wait for room there, and `readers` is how many senders take from it.
   `offered` and `dropped` record what the model proves about: the partial generations given to the
   ledger, and the queued jobs that a worker skipped because the stream was no longer registered.
   */
  datatype Stream = Stream(
    pending: int,
    idle: bool,
    generation: nat,
    latest: map<UtteranceId, nat>,
    rows: Ledger.Rows,
    stop: StopPhase,
    waiting: nat,
    owed: nat,
    readers: nat,
    offered: seq<(UtteranceId, nat)>,
    dropped: nat
  )

  const NEW_STREAM := Stream(0, true, 0, map[], [], Running, 0, 0, 0, [], 0)

  function WorkQueued(st: Stream): Stream {
    st.(pending := st.pending + 1, idle := false)
  }

  function WorkDone(st: Stream): Stream {
    var pending := if st.pending - 1 > 0 then st.pending - 1 else 0;
    st.(pending := pending, idle := st.idle || pending == 0)
  }

  /**
   The ASR loop: a job is in flight from its removal from the queue to `work_done`.
   `AsrTelling` still has that many events to give to the client and the session broker.
   `FinalAccepted` has its text in the ledger and the final event to give;
   `FinalTold` has given it, and announces the correction to the client and queues it next.
   */
  datatype AsrWorker =
    | AsrWaiting
    | Transcribing(job: AsrJob)
    | AsrTelling(job: AsrJob, events: nat)
    | FinalAccepted(job: AsrJob, text: string)
    | FinalTold(job: AsrJob, text: string, previousText: string)
    | AsrSettled(job: AsrJob)
    | AsrStopped

  /** `TextNoting` has one event to give that is for the client alone. */
  datatype TextWorker =
    | TextWaiting
    | Inferring(job: TextJob)
    | TextNoting(job: TextJob)
    | TextTelling(job: TextJob, events: nat)
    | TextSettled(job: TextJob)
    | TextStopped

  /** `known` holds the sessions the session broker still knows. */
  datatype System = System(
    streams: map<SessionId, Stream>,
    registered: set<SessionId>,
    known: set<SessionId>,
    asrQueue: AsrQueue,
    textQueue: TextQueue,
    asr: AsrWorker,
    text: TextWorker
  )

  type Positive = n: nat | n > 0 witness 1

  /**
   The capacities of the queues; `events` is that of each stream's event queue.
   `broker` says whether the coordinator reports to a session broker at all.
   */
  datatype Limits = Limits(finals: nat, partials: nat, texts: nat, events: Positive, broker: bool)

  const START := System(map[], {}, {}, AsrQueue([], [], false), TextQueue([], [], false), AsrWaiting, TextWaiting)

  /**
   What the text worker learns. A completed endpoint finishes the utterance with this audio; one that
   continues may be granted an extension.
   */
  datatype TextOutcome =
    | Revised(previousText: string, currentText: string)
    | RevisionFailed
    | Completes(utterance: UtteranceId, pcm: seq<nat>)
    | Continues(extended: bool)

  /**
   `speech` is the utterance in progress, with its audio. `Say` is any event that a client's operation
   gives for itself. `Deliver` and `GiveUp` end the wait of an event for room.
   */
  datatype Op =
    | Admit(session: SessionId)
    | Evict(session: SessionId)
    | Open(session: SessionId)
    | Stop(session: SessionId, speech: Option<(UtteranceId, seq<nat>)>)
    | Close(session: SessionId, speech: Option<(UtteranceId, seq<nat>)>)
    | FinalizeLedger(session: SessionId)
    | Restart(session: SessionId)
    | QueuePartial(session: SessionId, utterance: UtteranceId, pcm: seq<nat>)
    | QueueFinal(session: SessionId, utterance: UtteranceId, pcm: seq<nat>)
    | QueueEndpoint(session: SessionId, utterance: UtteranceId)
    | Say(session: SessionId)
    | Deliver(session: SessionId)
    | GiveUp(session: SessionId)
    | Attach(session: SessionId)
    | Detach(session: SessionId)
    | ReadEvent(session: SessionId)
    | TakeAsr
    | AsrResult(result: Option<string>)
    | AsrTell
    | QueueCorrection
    | AsrDone
    | TakeText
    | TextResult(outcome: TextOutcome)
    | TextTell
    | TextDone
    | CloseQueues

  function Put(sys: System, session: SessionId, st: Stream): System {
    sys.(streams := sys.streams[session := st])
  }

  /** Giving an event to the broker raises when the broker has evicted the session. */
  predicate EmitRaises(sys: System, limits: Limits, session: SessionId) {
    limits.broker && session !in sys.known
  }

  // ---------- the event queue of a stream ----------

  predicate HasRoom(st: Stream, limits: Limits) {
    st.waiting < limits.events
  }

  function EventPut(sys: System, session: SessionId): System
    requires session in sys.streams
  {
    Put(sys, session, sys.streams[session].(waiting := sys.streams[session].waiting + 1))
  }

  /** A client's event goes into the queue, or the client waits until there is room. */
  function Said(sys: System, limits: Limits, session: SessionId): System
    requires session in sys.streams
  {
    var st := sys.streams[session];
    if HasRoom(st, limits) then EventPut(sys, session) else Put(sys, session, st.(owed := st.owed + 1))
  }

  /** The stream after a step of its event queue; a new reader finds the stream through the registry. */
  function EventStep(st: Stream, limits: Limits, registered: bool, op: Op): Stream {
    match op
    case Deliver(_) =>
      if st.owed > 0 && HasRoom(st, limits) then st.(owed := st.owed - 1, waiting := st.waiting + 1) else st
    case GiveUp(_) => if st.owed > 0 then st.(owed := st.owed - 1) else st
    case Attach(_) => if registered then st.(readers := st.readers + 1) else st
    case Detach(_) => if st.readers > 0 then st.(readers := st.readers - 1) else st
    case ReadEvent(_) => if st.readers > 0 && st.waiting > 0 then st.(waiting := st.waiting - 1) else st
    case _ => st
  }

  function EventsStepped(sys: System, limits: Limits, op: Op): System
    requires op.Deliver? || op.GiveUp? || op.Attach? || op.Detach? || op.ReadEvent?
  {
    var s := op.session;
    if s in sys.streams then Put(sys, s, EventStep(sys.streams[s], limits, s in sys.registered, op)) else sys
  }

  // ---------- queueing work ----------

  /** The stream after it numbered a new partial. */
  function Numbered(st: Stream, utterance: UtteranceId): Stream {
    st.(generation := st.generation + 1, latest := st.latest[utterance := st.generation + 1])
  }

  /** A refused partial still uses up its number; one that replaced a slot adds no work. */
  function PartialOutcome(sys: System, session: SessionId, st: Stream,
                          r: Result<(AsrQueue, bool), QueueError>): System {
    match r
    case Failure(_) => Put(sys, session, st)
    case Success((q, inserted)) => Put(sys.(asrQueue := q), session, if inserted then WorkQueued(st) else st)
  }

  function PartialQueued(sys: System, limits: Limits, session: SessionId, utterance: UtteranceId, pcm: seq<nat>): System
    requires session in sys.streams
  {
    var st := Numbered(sys.streams[session], utterance);
    var job := AsrJob(session, utterance, st.generation, Partial, pcm);
    PartialOutcome(sys, session, st, PutPartial(sys.asrQueue, limits.partials, job))
  }

  function FinalOffer(sys: System, limits: Limits, session: SessionId, utterance: UtteranceId,
                      pcm: seq<nat>): Result<AsrQueue, QueueError> {
    PutFinal(sys.asrQueue, limits.finals, AsrJob(session, utterance, 1, Final, pcm))
  }

  function FinalQueued(sys: System, limits: Limits, session: SessionId, utterance: UtteranceId, pcm: seq<nat>): System
    requires session in sys.streams
  {
    match FinalOffer(sys, limits, session, utterance, pcm)
    case Failure(_) => sys
    case Success(q) => Put(sys.(asrQueue := q), session, WorkQueued(sys.streams[session]))
  }

  function TextQueued(sys: System, limits: Limits, lane: TextMode, job: TextJob): System
    requires job.session in sys.streams
  {
    match PutText(sys.textQueue, limits.texts, lane, job)
    case Failure(_) => sys
    case Success(q) => Put(sys.(textQueue := q), job.session, WorkQueued(sys.streams[job.session]))
  }

  // ---------- the operations of a client ----------

  /** An open queue is followed by one event: that the job is queued, or the warning that the queue is full. */
  function PartialOffered(sys: System, limits: Limits, session: SessionId, utterance: UtteranceId, pcm: seq<nat>)
      : System
    requires session in sys.streams
  {
    var sys' := PartialQueued(sys, limits, session, utterance, pcm);
    if sys.asrQueue.closed then sys' else Said(sys', limits, session)
  }

  function FinalOffered(sys: System, limits: Limits, session: SessionId, utterance: UtteranceId, pcm: seq<nat>)
      : System
    requires session in sys.streams
  {
    var sys' := FinalQueued(sys, limits, session, utterance, pcm);
    if sys.asrQueue.closed then sys' else Said(sys', limits, session)
  }

  /** The question whether an utterance is complete shows what the ledger has of it, if anything. */
  function Question(rows: Ledger.Rows, session: SessionId, utterance: UtteranceId): TextJob {
    TextJob(session, utterance, Endpoint, "",
            if rows != [] && Ledger.Last(rows).id == utterance then Ledger.Last(rows).text else "")
  }

  /** White space as Python's `str.strip` understands it. */
  predicate IsSpace(c: char) {
    var n := c as int;
    || 9 <= n <= 13 || 28 <= n <= 32 || n == 0x85 || n == 0xA0 || n == 0x1680 || 0x2000 <= n <= 0x200A
    || n == 0x2028 || n == 0x2029 || n == 0x202F || n == 0x205F || n == 0x3000
  }

  predicate Blank(text: string) {
    forall i :: 0 <= i < |text| ==> IsSpace(text[i])
  }

  /** Only a full text queue is reported. */
  function EndpointOffered(sys: System, limits: Limits, job: TextJob): System
    requires job.session in sys.streams
  {
    if PutText(sys.textQueue, limits.texts, Endpoint, job) == Failure(QueueFull) then Said(sys, limits, job.session)
    else TextQueued(sys, limits, Endpoint, job)
  }

  // ---------- closing a stream ----------

  /** Whether the stop of a stream raises while it queues the utterance in progress. */
  predicate StopRaises(sys: System, limits: Limits, session: SessionId, speech: Option<(UtteranceId, seq<nat>)>) {
    speech.Some?
    && match FinalOffer(sys, limits, session, speech.value.0, speech.value.1)
       case Failure(e) => e != QueueFull || EmitRaises(sys, limits, session)
       case Success(_) => false
  }

  /** The first part of `stop`: a running stream queues the utterance in progress and starts to wait. */
  function StopBegun(sys: System, limits: Limits, session: SessionId, speech: Option<(UtteranceId, seq<nat>)>): System
    requires session in sys.streams
  {
    if !sys.streams[session].stop.Running? then sys
    else
      var phase := if StopRaises(sys, limits, session, speech) then StopFailed else Stopping;
      var stopping := Put(sys, session, sys.streams[session].(stop := phase));
      if speech.Some? then FinalOffered(stopping, limits, session, speech.value.0, speech.value.1) else stopping
  }

  /** `close_stream` takes the stream out of the registry before it stops it. */
  function Closed(sys: System, limits: Limits, session: SessionId, speech: Option<(UtteranceId, seq<nat>)>): System {
    var gone := sys.(registered := sys.registered - {session});
    if session in sys.registered && session in sys.streams then StopBegun(gone, limits, session, speech) else gone
  }

  /**
   The last part of `stop`, some time after the stream was idle; new work may have come since.
   It says that the stream stopped, and owes the mark that ends the events.
   */
  function LedgerFinalized(sys: System, limits: Limits, session: SessionId): System
    requires session in sys.streams
  {
    var st := sys.streams[session];
    if st.stop.Stopping? then
      Said(Put(sys, session, st.(rows := Ledger.Finalized(st.rows), stop := Stopped, owed := st.owed + 1)),
           limits, session)
    else sys
  }

  function Restarted(sys: System, limits: Limits, session: SessionId): System
    requires session in sys.streams
  {
    var st := sys.streams[session];
    if st.stop.Stopped? then Said(Put(sys, session, st.(stop := Running)), limits, session) else sys
  }

  // ---------- the recognition worker ----------

  /**
   A worker skips a job whose stream is no longer registered, without finishing its work.
   A closed and empty queue ends its loop.
   */
  function AsrTaken(sys: System): System {
    match GetAsr(sys.asrQueue)
    case (q, Job(job)) =>
      if job.session in sys.registered then sys.(asrQueue := q, asr := Transcribing(job))
      else if job.session in sys.streams then
        var st := sys.streams[job.session];
        Put(sys.(asrQueue := q), job.session, st.(dropped := st.dropped + 1))
      else sys.(asrQueue := q)
    case (_, MustWait) => sys
    case (_, Drained) => sys.(asr := AsrStopped)
  }

  /** An exception finishes the job's work and ends the loop. */
  function AsrRaised(sys: System, session: SessionId): System
    requires session in sys.streams
  {
    Put(sys.(asr := AsrStopped), session, WorkDone(sys.streams[session]))
  }

  /** Only the newest generation of a partial is offered to the ledger. */
  predicate IsNewest(st: Stream, job: AsrJob) {
    job.utterance in st.latest && st.latest[job.utterance] == job.generation
  }

  function PartialAccepted(st: Stream, job: AsrJob, text: string): Stream {
    if IsNewest(st, job) then
      st.(rows := Ledger.Step(st.rows, Ledger.PartialText(job.utterance, text)),
          offered := st.offered + [(job.utterance, job.generation)])
    else st
  }

  /** An accepted partial has its event to give; a stale one is settled at once. */
  function AfterPartial(st: Stream, job: AsrJob, text: string): AsrWorker {
    if IsNewest(st, job) && Ledger.AcceptPartial(st.rows, job.utterance, text).Success? then AsrTelling(job, 1)
    else AsrSettled(job)
  }

  /** `None` is a failed transcription; a failed final also completes its utterance. A stale final raises. */
  function AsrResultAccepted(sys: System, job: AsrJob, result: Option<string>): System
    requires job.session in sys.streams
  {
    var st := sys.streams[job.session];
    if result.None? then sys.(asr := AsrTelling(job, if job.mode.Final? then 2 else 1))
    else if job.mode.Partial? then
      Put(sys.(asr := AfterPartial(st, job, result.value)), job.session, PartialAccepted(st, job, result.value))
    else match Ledger.AcceptFinal(st.rows, job.utterance, result.value)
      case Failure(_) => AsrRaised(sys, job.session)
      case Success(rows) => Put(sys.(asr := FinalAccepted(job, result.value)), job.session, st.(rows := rows))
  }

  /** The text of the row before the last, which a correction may rewrite too. */
  function PreviousText(rows: Ledger.Rows): string {
    if |rows| > 1 then rows[|rows| - 2].text else ""
  }

  /** The worker has put its next event, and gives it to the broker. */
  function AsrTold(sys: System, limits: Limits): System
    requires (sys.asr.AsrTelling? || sys.asr.FinalAccepted?) && sys.asr.job.session in sys.streams
  {
    match sys.asr
    case AsrTelling(job, events) =>
      if EmitRaises(sys, limits, job.session) then AsrRaised(sys, job.session)
      else sys.(asr := if events > 1 then AsrTelling(job, events - 1) else AsrSettled(job))
    case FinalAccepted(job, text) =>
      if EmitRaises(sys, limits, job.session) then AsrRaised(sys, job.session)
      else sys.(asr := FinalTold(job, text, PreviousText(sys.streams[job.session].rows)))
  }

  /** The recognition worker has an event to put, and there is room for it. */
  predicate AsrMayTell(sys: System, limits: Limits) {
    && (sys.asr.AsrTelling? || sys.asr.FinalAccepted? || sys.asr.FinalTold?)
    && sys.asr.job.session in sys.streams && HasRoom(sys.streams[sys.asr.job.session], limits)
  }

  predicate TextMayTell(sys: System, limits: Limits) {
    && (sys.text.TextTelling? || sys.text.TextNoting?)
    && sys.text.job.session in sys.streams && HasRoom(sys.streams[sys.text.job.session], limits)
  }

  /**
   The announced correction is queued. A full text queue leaves a warning and a completion to tell;
   a closed one raises.
   */
  function CorrectionQueued(sys: System, limits: Limits): System
    requires sys.asr.FinalTold? && sys.asr.job.session in sys.streams
  {
    var asrJob := sys.asr.job;
    var job := TextJob(asrJob.session, asrJob.utterance, Correction, sys.asr.previousText, sys.asr.text);
    match PutText(sys.textQueue, limits.texts, Correction, job)
    case Failure(QueueFull) => sys.(asr := AsrTelling(asrJob, 2))
    case Failure(_) => AsrRaised(sys, asrJob.session)
    case Success(_) => TextQueued(sys.(asr := AsrSettled(asrJob)), limits, Correction, job)
  }

  // ---------- the text worker ----------

  function TextTaken(sys: System): System {
    match GetText(sys.textQueue)
    case (q, Job(job)) =>
      if job.session in sys.registered then sys.(textQueue := q, text := Inferring(job))
      else if job.session in sys.streams then
        var st := sys.streams[job.session];
        Put(sys.(textQueue := q), job.session, st.(dropped := st.dropped + 1))
      else sys.(textQueue := q)
    case (_, MustWait) => sys
    case (_, Drained) => sys.(text := TextStopped)
  }

  function TextRaised(sys: System, session: SessionId): System
    requires session in sys.streams
  {
    Put(sys.(text := TextStopped), session, WorkDone(sys.streams[session]))
  }

  /** An endpoint answer may finish the utterance, and then queues its final; about a blank text it never does. */
  function EndpointAnswered(sys: System, limits: Limits, job: TextJob, outcome: TextOutcome): System
    requires job.session in sys.streams
  {
    if !outcome.Completes? || Blank(job.currentText) then
      sys.(text := if outcome == Continues(true) then TextNoting(job) else TextSettled(job))
    else match FinalOffer(sys, limits, job.session, outcome.utterance, outcome.pcm)
      case Failure(QueueFull) => sys.(text := TextTelling(job, 1))
      case Failure(_) => TextRaised(sys, job.session)
      case Success(_) =>
        FinalQueued(sys.(text := TextNoting(job)), limits, job.session, outcome.utterance, outcome.pcm)
  }

  /** A stale revision is dropped without a word; any other answer to a correction has two events to give. */
  function RevisionAnswered(sys: System, job: TextJob, outcome: TextOutcome): System
    requires job.session in sys.streams
  {
    var st := sys.streams[job.session];
    if !outcome.Revised? then sys.(text := TextTelling(job, 2))
    else match Ledger.ApplyRevision(st.rows, job.utterance, outcome.previousText, outcome.currentText)
      case Failure(_) => sys.(text := TextSettled(job))
      case Success(rows) => Put(sys.(text := TextTelling(job, 2)), job.session, st.(rows := rows))
  }

  /** The worker has put its next event; what the client alone is told does not reach the broker. */
  function TextTold(sys: System, limits: Limits): System
    requires (sys.text.TextTelling? || sys.text.TextNoting?) && sys.text.job.session in sys.streams
  {
    match sys.text
    case TextNoting(job) => sys.(text := TextSettled(job))
    case TextTelling(job, events) =>
      if EmitRaises(sys, limits, job.session) then TextRaised(sys, job.session)
      else sys.(text := if events > 1 then TextTelling(job, events - 1) else TextSettled(job))
  }

  // ---------- the steps ----------

  /** One atomic step; an op whose time has not come changes nothing. */
  function Next(sys: System, limits: Limits, op: Op): System {
    match op
    case Admit(session) => sys.(known := sys.known + {session})
    case Evict(session) => sys.(known := sys.known - {session})
    case Open(session) =>
      if session in sys.streams then sys
      else Put(sys.(registered := sys.registered + {session}), session, NEW_STREAM)
    case Stop(session, speech) =>
      if session in sys.streams then StopBegun(sys, limits, session, speech) else sys
    case Close(session, speech) => Closed(sys, limits, session, speech)
    case FinalizeLedger(session) =>
      if session in sys.streams then LedgerFinalized(sys, limits, session) else sys
    case Restart(session) =>
      if session in sys.streams then Restarted(sys, limits, session) else sys
    case QueuePartial(session, utterance, pcm) =>
      if session in sys.streams then PartialOffered(sys, limits, session, utterance, pcm) else sys
    case QueueFinal(session, utterance, pcm) =>
      if session in sys.streams then FinalOffered(sys, limits, session, utterance, pcm) else sys
    case QueueEndpoint(session, utterance) =>
      if session in sys.streams then
        EndpointOffered(sys, limits, Question(sys.streams[session].rows, session, utterance))
      else sys
    case Say(session) => if session in sys.streams then Said(sys, limits, session) else sys
    case Deliver(_) | GiveUp(_) | Attach(_) | Detach(_) | ReadEvent(_) => EventsStepped(sys, limits, op)
    case TakeAsr => if sys.asr.AsrWaiting? then AsrTaken(sys) else sys
    case AsrResult(result) =>
      if sys.asr.Transcribing? && sys.asr.job.session in sys.streams
      then AsrResultAccepted(sys, sys.asr.job, result) else sys
    case AsrTell =>
      if AsrMayTell(sys, limits) && !sys.asr.FinalTold? then AsrTold(EventPut(sys, sys.asr.job.session), limits)
      else sys
    case QueueCorrection =>
      if AsrMayTell(sys, limits) && sys.asr.FinalTold? then
        CorrectionQueued(EventPut(sys, sys.asr.job.session), limits)
      else sys
    case AsrDone =>
      if sys.asr.AsrSettled? && sys.asr.job.session in sys.streams then
        Put(sys.(asr := AsrWaiting), sys.asr.job.session, WorkDone(sys.streams[sys.asr.job.session]))
      else sys
    case TakeText => if sys.text.TextWaiting? then TextTaken(sys) else sys
    case TextResult(outcome) =>
      if sys.text.Inferring? && sys.text.job.session in sys.streams then
        if sys.text.job.mode.Endpoint? then EndpointAnswered(sys, limits, sys.text.job, outcome)
        else RevisionAnswered(sys, sys.text.job, outcome)
      else sys
    case TextTell =>
      if TextMayTell(sys, limits) then TextTold(EventPut(sys, sys.text.job.session), limits) else sys
    case TextDone =>
      if sys.text.TextSettled? && sys.text.job.session in sys.streams then
        Put(sys.(text := TextWaiting), sys.text.job.session, WorkDone(sys.streams[sys.text.job.session]))
      else sys
    case CloseQueues =>
      sys.(asrQueue := sys.asrQueue.(closed := true), textQueue := sys.textQueue.(closed := true))
  }

  function Run(sys: System, limits: Limits, ops: seq<Op>): System
    decreases |ops|
  {
    if ops == [] then sys else Run(Next(sys, limits, ops[0]), limits, ops[1..])
  }

  // ---------- the stream's own counters ----------

  /** The fields of a stream that account for outstanding work. */
  class RealtimeStream {
    var pending: int
    var idle: bool
    var generation: nat
    var latest: map<UtteranceId, nat>

    constructor ()
      ensures pending == NEW_STREAM.pending && idle == NEW_STREAM.idle
      ensures generation == NEW_STREAM.generation && latest == NEW_STREAM.latest
    {
      pending, idle, generation, latest := 0, true, 0, map[];
    }

    /** This object's fields in place of those of a stream value. */
    function View(st: Stream): Stream
      reads this
    {
      st.(pending := pending, idle := idle, generation := generation, latest := latest)
    }

    method NoteQueued(ghost st: Stream)
      modifies this
      ensures View(st) == WorkQueued(old(View(st)))
    {
      pending := pending + 1;
      idle := false;
    }

    method NoteDone(ghost st: Stream)
      modifies this
      ensures View(st) == WorkDone(old(View(st)))
    {
      pending := if pending - 1 > 0 then pending - 1 else 0;
      if pending == 0 {
        idle := true;
      }
    }

    method NextPartial(utterance: UtteranceId) returns (number: nat)
      modifies this
      ensures number == old(generation) + 1 && generation == number
      ensures latest == old(latest)[utterance := number]
      ensures pending == old(pending) && idle == old(idle)
    {
      generation := generation + 1;
      number := generation;
      latest := latest[utterance := number];
    }
  }
}
