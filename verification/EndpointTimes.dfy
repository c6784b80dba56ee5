/** When the detector acts, and with what, told from the frames heard instead of its counters. */
module EndpointTimes {
  import opened Blocks
  import opened EndpointDetector
  import opened EndpointRuns
  import opened EndpointSlices

  // ---------- runs of silence and of speech ----------

  /** How many of the last frames are all unvoiced. */
  function Quiet(voiced: seq<bool>): nat {
    if voiced == [] || voiced[|voiced| - 1] then 0 else 1 + Quiet(voiced[..|voiced| - 1])
  }

  /** How many of the last frames are all voiced. */
  function Loud(voiced: seq<bool>): nat {
    if voiced == [] || !voiced[|voiced| - 1] then 0 else 1 + Loud(voiced[..|voiced| - 1])
  }

  /** The quiet run is the longest one at the end. */
  lemma {:induction false} QuietIsLongest(voiced: seq<bool>)
    ensures Quiet(voiced) <= |voiced|
    ensures forall i :: |voiced| - Quiet(voiced) <= i < |voiced| ==> !voiced[i]
    ensures Quiet(voiced) < |voiced| ==> voiced[|voiced| - Quiet(voiced) - 1]
  {
    if voiced != [] && !voiced[|voiced| - 1] {
      QuietIsLongest(voiced[..|voiced| - 1]);
    }
  }

  lemma {:induction false} LoudIsRun(voiced: seq<bool>, base: nat, streak: nat)
    requires VoicedRun(voiced, base, streak)
    ensures Loud(voiced[base..]) == streak
    decreases streak
  {
    if streak > 0 {
      var front := voiced[..|voiced| - 1];
      assert front[base..] == voiced[base..][..|voiced[base..]| - 1];
      LoudIsRun(front, base, streak - 1);
    }
  }

  // ---------- the answer, from what was heard ----------

  /** The newest frames since the last boundary, as many as the pre-roll keeps. */
  function Newest(frames: seq<Frame>, base: nat, limit: nat): seq<Frame>
    requires base <= |frames|
  {
    if |frames| - base > limit then frames[|frames| - limit..] else frames[base..]
  }

  /** What a frame brings about outside an utterance: nothing, or one that starts with the newest frames. */
  function AnswerBefore(c: Config, r: Run, frame: Frame, voiced: bool): seq<Action>
    requires c.Valid() && |r.voiced| == |r.frames| && r.base <= |r.frames|
  {
    var audio := Newest(r.frames + [frame], r.base, c.FramesFor(c.preRollMs));
    if Loud((r.voiced + [voiced])[r.base..]) * c.frameMs < c.minSpeechMs then []
    else
      [Action(SpeechStarted, r.d.nextId, Flatten(audio), 0)]
      + if |audio| * c.frameMs >= c.maxUtteranceMs then [Action(UtteranceFinal, r.d.nextId, Flatten(audio), 0)] else []
  }

  /**
   What a frame brings about inside an utterance. A candidate opens at the frame with which the quiet
   run reaches the endpoint, and a voiced frame cancels it; the utterance ends at the frame with which
   the quiet run reaches the hard endpoint or the utterance its longest duration.
   */
  function AnswerWithin(c: Config, r: Run, id: nat, frame: Frame, voiced: bool): seq<Action>
    requires c.Valid() && r.start <= |r.frames|
  {
    var audio := r.frames[r.start..] + [frame];
    var before, silence := Quiet(r.voiced) * c.frameMs, Quiet(r.voiced + [voiced]) * c.frameMs;
    (if before < c.endpointMs <= silence then [Action(EndpointCandidate, id, Flatten(audio), silence)]
     else if voiced && before >= c.endpointMs then [Action(EndpointCancelled, id, Flatten(audio), 0)]
     else [])
    + if silence >= c.hardEndpointMs || |audio| * c.frameMs >= c.maxUtteranceMs
      then [Action(UtteranceFinal, id, Flatten(audio), silence)]
      else []
  }

  function Answer(c: Config, r: Run, op: Op): seq<Action>
    requires c.Valid() && |r.voiced| == |r.frames| && r.base <= |r.frames| && r.start <= |r.frames|
  {
    match op
    case Hear(frame, voiced) =>
      if r.d.id.None? then AnswerBefore(c, r, frame, voiced) else AnswerWithin(c, r, r.d.id.value, frame, voiced)
    case Finalize =>
      var silence := Quiet(r.voiced) * c.frameMs;
      if r.d.id.Some? && silence >= c.endpointMs
      then [Action(UtteranceFinal, r.d.id.value, Flatten(r.frames[r.start..]), silence)]
      else []
    case _ => []
  }

  // ---------- the timers measure what they are named for ----------

  /** Inside an utterance the silence is the quiet run, and an extension is only noted while a candidate is open. */
  ghost predicate Measured(c: Config, r: Run) {
    Kept(c, r) && r.start <= |r.frames| && Timely(c, r.d, r.voiced)
  }

  predicate Timely(c: Config, d: Detector, voiced: seq<bool>) {
    && (d.id.Some? ==> d.silenceMs == Quiet(voiced) * c.frameMs)
    && (d.extended ==> d.candidate)
  }

  lemma QuietGrows(voiced: seq<bool>, v: bool)
    ensures Quiet(voiced + [v]) == if v then 0 else Quiet(voiced) + 1
  {
    assert (voiced + [v])[..|voiced|] == voiced;
  }

  lemma LoudGrows(voiced: seq<bool>, base: nat, v: bool)
    requires base <= |voiced|
    ensures Loud((voiced + [v])[base..]) == if v then Loud(voiced[base..]) + 1 else 0
  {
    assert (voiced + [v])[base..] == voiced[base..] + [v];
    assert (voiced[base..] + [v])[..|voiced| - base] == voiced[base..];
  }

  lemma WithinAnswers(c: Config, r: Run, frame: Frame, voiced: bool)
    requires c.Valid() && Measured(c, r) && r.d.id.Some?
    ensures Accept(c, r.d, frame, voiced).1 == AnswerWithin(c, r, r.d.id.value, frame, voiced)
  {
    QuietGrows(r.voiced, voiced);
    var n := Quiet(r.voiced);
    assert (n + 1) * c.frameMs == n * c.frameMs + c.frameMs;
    OneMoreFrame(c, |r.d.pcm|);
    assert |r.d.pcm + [frame]| == |r.d.pcm| + 1;
  }

  lemma BeforeAnswers(c: Config, r: Run, frame: Frame, voiced: bool)
    requires c.Valid() && Measured(c, r) && r.d.id.None?
    ensures Accept(c, r.d, frame, voiced).1 == AnswerBefore(c, r, frame, voiced)
  {
    LoudGrows(r.voiced, r.base, voiced);
    LoudIsRun(r.voiced, r.base, r.streak);
    OneMoreFrame(c, r.streak);
    var limit := c.FramesFor(c.preRollMs);
    assert PreRollAfter(c, r.d, frame) == Newest(r.frames + [frame], r.base, limit);
  }

  /** In every such state, each call answers exactly what the frames heard call for. */
  lemma StepAnswers(c: Config, r: Run, op: Op)
    requires c.Valid() && Measured(c, r)
    ensures Step(c, r.d, op).1 == Answer(c, r, op)
  {
    match op
    case Hear(frame, voiced) =>
      if r.d.id.Some? {
        WithinAnswers(c, r, frame, voiced);
      } else {
        BeforeAnswers(c, r, frame, voiced);
      }
    case _ =>
  }

  lemma HearKeepsMeasured(c: Config, r: Run, frame: Frame, voiced: bool)
    requires c.Valid() && Measured(c, r)
    ensures Measured(c, Advance(c, r, Hear(frame, voiced)))
  {
    AdvanceKeeps(c, r, Hear(frame, voiced));
    HearRecords(c, r, frame, voiced);
    HearIsTimely(c, r.d, r.voiced, frame, voiced);
  }

  lemma HearIsTimely(c: Config, d: Detector, heard: seq<bool>, frame: Frame, voiced: bool)
    requires c.Valid() && Timed(c, d) && Timely(c, d, heard)
    ensures Timely(c, Accept(c, d, frame, voiced).0, heard + [voiced])
  {
    AcceptTimes(c, d, frame, voiced);
    QuietGrows(heard, voiced);
    var n := Quiet(heard);
    assert (n + 1) * c.frameMs == n * c.frameMs + c.frameMs;
  }

  lemma HearRecords(c: Config, r: Run, frame: Frame, voiced: bool)
    requires c.Valid() && r.start <= |r.frames|
    ensures var r' := Advance(c, r, Hear(frame, voiced));
            && r'.d == Accept(c, r.d, frame, voiced).0 && r'.voiced == r.voiced + [voiced]
            && r'.start <= |r'.frames|
  {
  }

  /** What one frame does to the silence and to the extension. */
  lemma AcceptTimes(c: Config, d: Detector, frame: Frame, voiced: bool)
    requires c.Valid() && Timed(c, d) && (d.extended ==> d.candidate)
    ensures var d' := Accept(c, d, frame, voiced).0;
            && (d'.id.Some? && d.id.Some? ==> d'.silenceMs == if voiced then 0 else d.silenceMs + c.frameMs)
            && (d'.id.Some? && d.id.None? ==> voiced && d'.silenceMs == 0)
            && (d'.extended ==> d'.candidate)
  {
  }

  lemma AdvanceKeepsMeasured(c: Config, r: Run, op: Op)
    requires c.Valid() && Measured(c, r)
    ensures Measured(c, Advance(c, r, op))
  {
    if op.Hear? {
      HearKeepsMeasured(c, r, op.frame, op.voiced);
    } else {
      AdvanceKeeps(c, r, op);
    }
  }

  lemma {:induction false} AdvanceAllMeasured(c: Config, r: Run, ops: seq<Op>)
    requires c.Valid() && Measured(c, r)
    ensures Measured(c, AdvanceAll(c, r, ops))
    decreases |ops|
  {
    if ops != [] {
      AdvanceKeepsMeasured(c, r, ops[0]);
      AdvanceAllMeasured(c, Advance(c, r, ops[0]), ops[1..]);
    }
  }

  /** After every run, the silence is the quiet run, and the next answer follows from the frames heard. */
  lemma EveryAnswerFollows(c: Config, firstId: nat, ops: seq<Op>, op: Op)
    requires c.Valid()
    ensures var r := AdvanceAll(c, Start(firstId), ops);
            && Measured(c, r) && r.d == RunDetector(c, Fresh(firstId), ops)
            && r.frames == FramesIn(ops) && r.voiced == VoicedIn(ops)
            && Step(c, r.d, op).1 == Answer(c, r, op)
  {
    AdvanceAllMeasured(c, Start(firstId), ops);
    AdvanceAllHears(c, Start(firstId), ops);
    StepAnswers(c, AdvanceAll(c, Start(firstId), ops), op);
  }
}
