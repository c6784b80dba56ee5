/** Every final utterance is a contiguous slice of the frames heard, in order and without overlap. */
module EndpointSlices {
  import opened Blocks
  import opened EndpointDetector
  import opened EndpointRuns

  /**
   The frames `start..end` of the input. `base` is the end of the previous slice
   or the last reset; `trigger` is the frame that started the utterance, and
   `final` the action that ended it.
   */
  datatype Slice = Slice(base: nat, start: nat, trigger: nat, end: nat, final: Action)

  /** A detector, everything it has heard, and the slice behind each final action. */
  datatype Run = Run(
    d: Detector,
    frames: seq<Frame>,
    voiced: seq<bool>,
    base: nat,
    streak: nat,
    start: nat,
    trigger: nat,
    slices: seq<Slice>
  ) {
    /** The current utterance ends after `frames`. */
    function Ended(d': Detector, frames': seq<Frame>, voiced': seq<bool>, start': nat, trigger': nat,
                   final: Action): Run {
      Run(d', frames', voiced', |frames'|, 0, start', trigger',
          slices + [Slice(base, start', trigger', |frames'|, final)])
    }
  }

  predicate Ends(acts: seq<Action>) {
    acts != [] && IsFinal(acts[|acts| - 1])
  }

  function PreRollAfter(c: Config, d: Detector, frame: Frame): seq<Frame>
    requires c.Valid()
  {
    Pushed(d.preRoll, c.FramesFor(c.preRollMs), frame)
  }

  /** The run after one more frame, to which the detector answered with `d'` and `acts`. */
  function Heard(c: Config, r: Run, frame: Frame, voiced: bool, d': Detector, acts: seq<Action>): (r': Run)
    requires c.Valid()
  {
    var frames', voiced' := r.frames + [frame], r.voiced + [voiced];
    if r.d.id.Some? then
      if Ends(acts) then r.Ended(d', frames', voiced', r.start, r.trigger, acts[|acts| - 1])
      else r.(d := d', frames := frames', voiced := voiced')
    else
      var streak' := if voiced then r.streak + 1 else 0;
      var kept := |PreRollAfter(c, r.d, frame)|;
      var start' := if kept <= |frames'| then |frames'| - kept else 0;
      if acts == [] then r.(d := d', frames := frames', voiced := voiced', streak := streak')
      else if Ends(acts) then r.Ended(d', frames', voiced', start', |r.frames|, acts[|acts| - 1])
      else r.(d := d', frames := frames', voiced := voiced', streak := streak', start := start', trigger := |r.frames|)
  }

  function Advance(c: Config, r: Run, op: Op): Run
    requires c.Valid()
  {
    var (d', acts) := Step(c, r.d, op);
    match op
    case Hear(frame, voiced) => Heard(c, r, frame, voiced, d', acts)
    case Extend => r.(d := d')
    case Finalize => if Ends(acts) then r.Ended(d', r.frames, r.voiced, r.start, r.trigger, acts[|acts| - 1]) else r
    case Reset => r.(d := d', base := |r.frames|, streak := 0)
  }

  function AdvanceAll(c: Config, r: Run, ops: seq<Op>): Run
    requires c.Valid()
    decreases |ops|
  {
    if ops == [] then r else AdvanceAll(c, Advance(c, r, ops[0]), ops[1..])
  }

  function Start(firstId: nat): Run {
    Run(Fresh(firstId), [], [], 0, 0, 0, 0, [])
  }

  // ---------- what is kept ----------

  function MaxOf(a: int, b: int): int {
    if a >= b then a else b
  }

  /** The last `streak` frames are voiced, and the one before them, if it counts, is not. */
  ghost predicate VoicedRun(voiced: seq<bool>, base: nat, streak: nat) {
    && base + streak <= |voiced|
    && (forall i :: |voiced| - streak <= i < |voiced| ==> voiced[i])
    && (base + streak < |voiced| ==> !voiced[|voiced| - streak - 1])
  }

  /** The frame at `trigger` completes the first voiced run of the minimum length since `base`. */
  ghost predicate Triggered(c: Config, voiced: seq<bool>, base: nat, start: nat, trigger: nat)
    requires c.Valid()
  {
    && trigger < |voiced|
    && VoicedRun(voiced[..trigger + 1], base, c.FramesFor(c.minSpeechMs))
    && start == MaxOf(base, trigger + 1 - c.FramesFor(c.preRollMs))
  }

  /** No utterance lasts a frame longer than both the length limit and the pre-roll. */
  ghost predicate ShortEnough(c: Config, count: int) {
    count * c.frameMs < MaxOf(c.maxUtteranceMs, c.preRollMs) + c.frameMs
  }

  ghost predicate SliceOk(c: Config, frames: seq<Frame>, voiced: seq<bool>, s: Slice)
    requires c.Valid()
  {
    && s.base <= s.start <= s.end <= |frames| && s.trigger < s.end
    && Triggered(c, voiced, s.base, s.start, s.trigger)
    && s.final.kind == UtteranceFinal
    && s.final.pcm == Flatten(frames[s.start..s.end])
    && ShortEnough(c, s.end - s.start)
  }

  ghost predicate InOrder(slices: seq<Slice>, base: nat) {
    && (forall i :: 0 < i < |slices| ==> slices[i - 1].end <= slices[i].base)
    && (slices != [] ==> slices[|slices| - 1].end <= base)
  }

  ghost predicate SlicesOk(c: Config, frames: seq<Frame>, voiced: seq<bool>, slices: seq<Slice>)
    requires c.Valid()
  {
    forall i :: 0 <= i < |slices| ==> SliceOk(c, frames, voiced, slices[i])
  }

  /** Between utterances: the pre-roll holds the newest frames since `base`. */
  ghost predicate Waiting(c: Config, r: Run)
    requires c.Valid()
  {
    && r.d.pcm == [] && r.base <= |r.frames|
    && VoicedRun(r.voiced, r.base, r.streak)
    && r.d.speechMs == r.streak * c.frameMs < c.minSpeechMs
    && r.d.preRoll == r.frames[MaxOf(r.base, |r.frames| - c.FramesFor(c.preRollMs))..]
  }

  /** Inside an utterance: every frame since `start` has been collected. */
  ghost predicate Talking(c: Config, r: Run)
    requires c.Valid()
  {
    && r.d.preRoll == []
    && r.base <= r.start <= |r.frames|
    && r.d.pcm == r.frames[r.start..]
    && |r.d.pcm| * c.frameMs < c.maxUtteranceMs
    && Triggered(c, r.voiced, r.base, r.start, r.trigger)
  }

  ghost predicate Kept(c: Config, r: Run) {
    && c.Valid()
    && Timed(c, r.d)
    && |r.voiced| == |r.frames| && r.base <= |r.frames|
    && (if r.d.id.None? then Waiting(c, r) else Talking(c, r))
    && SlicesOk(c, r.frames, r.voiced, r.slices) && InOrder(r.slices, r.base)
  }

  // ---------- one step of the detector, in the terms used here ----------

  ghost predicate AnswersActive(d: Detector, frame: Frame, d': Detector, acts: seq<Action>) {
    && d'.preRoll == d.preRoll
    && (if Ends(acts) then d'.id.None? && d'.pcm == [] && d'.speechMs == 0
                           && acts[|acts| - 1].pcm == Flatten(d.pcm + [frame])
        else d'.id == d.id && d'.pcm == d.pcm + [frame])
  }

  lemma ActiveStep(c: Config, d: Detector, frame: Frame, voiced: bool)
    requires c.Valid() && d.id.Some?
    ensures var (d', acts) := Accept(c, d, frame, voiced); AnswersActive(d, frame, d', acts)
  {
  }

  ghost predicate AnswersPreRoll(c: Config, d: Detector, speechMs: int, kept: seq<Frame>, d': Detector,
                                 acts: seq<Action>) {
    && (acts == [] <==> speechMs < c.minSpeechMs)
    && (acts == [] ==> d' == d.(preRoll := kept, speechMs := speechMs))
    && (acts != [] ==> d'.preRoll == [])
    && (Ends(acts) ==> d'.id.None? && d'.pcm == [] && d'.speechMs == 0 && acts[|acts| - 1].pcm == Flatten(kept))
    && (acts != [] && !Ends(acts) ==> d'.id.Some? && d'.pcm == kept)
  }

  lemma PreRollStep(c: Config, d: Detector, frame: Frame, voiced: bool)
    requires c.Valid() && d.id.None?
    ensures var (d', acts) := Accept(c, d, frame, voiced);
            AnswersPreRoll(c, d, if voiced then d.speechMs + c.frameMs else 0, PreRollAfter(c, d, frame), d', acts)
  {
  }

  // ---------- arithmetic of whole frames ----------

  lemma FramesForIsCeiling(c: Config, ms: nat, n: nat)
    requires c.frameMs > 0
    ensures (n * c.frameMs >= ms && (n == 0 || (n - 1) * c.frameMs < ms)) <==> n == c.FramesFor(ms)
  {
    CeilingIsExact(c.frameMs, ms, n);
  }

  lemma CeilingIsExact(f: nat, ms: nat, n: nat)
    requires f > 0
    ensures (n * f >= ms && (n == 0 || (n - 1) * f < ms)) <==> n == (ms + f - 1) / f
  {
    var q := (ms + f - 1) / f;
    var rem := (ms + f - 1) % f;
    assert q * f + rem == ms + f - 1;
    if n < q {
      assert n * f <= (q - 1) * f;
    }
    if n > q {
      assert (n - 1) * f >= q * f;
    }
    if q > 0 {
      assert (q - 1) * f == q * f - f;
    }
  }

  /** A pre-roll never lasts a whole frame longer than configured. */
  lemma PreRollIsShort(c: Config, count: nat)
    requires c.Valid() && count <= c.FramesFor(c.preRollMs)
    ensures ShortEnough(c, count)
  {
    var limit := c.FramesFor(c.preRollMs);
    FramesForIsCeiling(c, c.preRollMs, limit);
    assert count * c.frameMs <= limit * c.frameMs;
    if limit > 0 {
      assert limit * c.frameMs == (limit - 1) * c.frameMs + c.frameMs;
    }
  }

  // ---------- the invariant ----------

  lemma LaterInputKeepsSlice(c: Config, frames: seq<Frame>, voiced: seq<bool>, frame: Frame, v: bool, s: Slice)
    requires c.Valid() && |frames| == |voiced| && SliceOk(c, frames, voiced, s)
    ensures SliceOk(c, frames + [frame], voiced + [v], s)
  {
    assert (frames + [frame])[s.start..s.end] == frames[s.start..s.end];
    assert (voiced + [v])[..s.trigger + 1] == voiced[..s.trigger + 1];
  }

  lemma LaterInputKeepsSlices(c: Config, frames: seq<Frame>, voiced: seq<bool>, frame: Frame, v: bool,
                              slices: seq<Slice>)
    requires c.Valid() && |frames| == |voiced| && SlicesOk(c, frames, voiced, slices)
    ensures SlicesOk(c, frames + [frame], voiced + [v], slices)
  {
    forall i | 0 <= i < |slices|
      ensures SliceOk(c, frames + [frame], voiced + [v], slices[i])
    {
      LaterInputKeepsSlice(c, frames, voiced, frame, v, slices[i]);
    }
  }

  lemma PushedIsNewest(frames: seq<Frame>, base: nat, limit: nat, frame: Frame)
    requires base <= |frames|
    ensures Pushed(frames[MaxOf(base, |frames| - limit)..], limit, frame)
            == (frames + [frame])[MaxOf(base, |frames| + 1 - limit)..]
  {
  }

  lemma VoicedRunNext(voiced: seq<bool>, base: nat, streak: nat, v: bool)
    requires VoicedRun(voiced, base, streak)
    ensures VoicedRun(voiced + [v], base, if v then streak + 1 else 0)
  {
  }

  lemma TriggeredIsFirst(c: Config, voiced: seq<bool>, v: bool, base: nat, streak: nat)
    requires c.Valid() && VoicedRun(voiced, base, streak)
    requires streak * c.frameMs < c.minSpeechMs
    requires v && streak * c.frameMs + c.frameMs >= c.minSpeechMs
    ensures Triggered(c, voiced + [v], base, MaxOf(base, |voiced| + 1 - c.FramesFor(c.preRollMs)), |voiced|)
  {
    VoicedRunNext(voiced, base, streak, v);
    OneMoreFrame(c, streak);
    FramesForIsCeiling(c, c.minSpeechMs, streak + 1);
    assert (voiced + [v])[..|voiced| + 1] == voiced + [v];
  }

  /** Facts shared by the three outcomes of a frame heard between utterances. */
  lemma PreRollSlides(c: Config, r: Run, frame: Frame, v: bool)
    requires Kept(c, r) && r.d.id.None?
    ensures PreRollAfter(c, r.d, frame)
            == (r.frames + [frame])[MaxOf(r.base, |r.frames| + 1 - c.FramesFor(c.preRollMs))..]
    ensures VoicedRun(r.voiced + [v], r.base, if v then r.streak + 1 else 0)
    ensures (if v then r.d.speechMs + c.frameMs else 0) == (if v then r.streak + 1 else 0) * c.frameMs
  {
    PushedIsNewest(r.frames, r.base, c.FramesFor(c.preRollMs), frame);
    VoicedRunNext(r.voiced, r.base, r.streak, v);
    OneMoreFrame(c, r.streak);
  }

  lemma HearSilence(c: Config, r: Run, frame: Frame, v: bool, d': Detector)
    requires Kept(c, r) && r.d.id.None? && Timed(c, d')
    requires AnswersPreRoll(c, r.d, if v then r.d.speechMs + c.frameMs else 0, PreRollAfter(c, r.d, frame), d', [])
    ensures Kept(c, Heard(c, r, frame, v, d', []))
  {
    PreRollSlides(c, r, frame, v);
    LaterInputKeepsSlices(c, r.frames, r.voiced, frame, v, r.slices);
  }

  /** The slice of the pre-roll that a triggering frame leaves behind. */
  lemma TriggerSlice(c: Config, r: Run, frame: Frame, v: bool)
    requires Kept(c, r) && r.d.id.None?
    requires (if v then r.d.speechMs + c.frameMs else 0) >= c.minSpeechMs
    ensures var frames', kept := r.frames + [frame], PreRollAfter(c, r.d, frame);
            var start := |frames'| - |kept|;
            && r.base <= start && frames'[start..] == kept && frames'[start..|frames'|] == kept
            && Triggered(c, r.voiced + [v], r.base, start, |r.frames|)
            && ShortEnough(c, |kept|)
  {
    PreRollSlides(c, r, frame, v);
    TriggeredIsFirst(c, r.voiced, v, r.base, r.streak);
    PreRollIsShort(c, |PreRollAfter(c, r.d, frame)|);
  }

  lemma HearTrigger(c: Config, r: Run, frame: Frame, v: bool, d': Detector, acts: seq<Action>)
    requires Kept(c, r) && r.d.id.None? && Timed(c, d') && acts != [] && !Ends(acts)
    requires AnswersPreRoll(c, r.d, if v then r.d.speechMs + c.frameMs else 0, PreRollAfter(c, r.d, frame), d', acts)
    ensures Kept(c, Heard(c, r, frame, v, d', acts))
  {
    TriggerSlice(c, r, frame, v);
    LaterInputKeepsSlices(c, r.frames, r.voiced, frame, v, r.slices);
  }

  lemma OneMoreSlice(c: Config, frames: seq<Frame>, voiced: seq<bool>, slices: seq<Slice>, s: Slice)
    requires c.Valid() && SlicesOk(c, frames, voiced, slices) && SliceOk(c, frames, voiced, s)
    requires InOrder(slices, s.base)
    ensures SlicesOk(c, frames, voiced, slices + [s]) && InOrder(slices + [s], s.end)
  {
  }

  lemma HearTriggerAndEnd(c: Config, r: Run, frame: Frame, v: bool, d': Detector, acts: seq<Action>)
    requires Kept(c, r) && r.d.id.None? && Timed(c, d') && Ends(acts)
    requires AnswersPreRoll(c, r.d, if v then r.d.speechMs + c.frameMs else 0, PreRollAfter(c, r.d, frame), d', acts)
    ensures Kept(c, Heard(c, r, frame, v, d', acts))
  {
    var frames', voiced' := r.frames + [frame], r.voiced + [v];
    var start := |frames'| - |PreRollAfter(c, r.d, frame)|;
    TriggerSlice(c, r, frame, v);
    LaterInputKeepsSlices(c, r.frames, r.voiced, frame, v, r.slices);
    OneMoreSlice(c, frames', voiced', r.slices, Slice(r.base, start, |r.frames|, |frames'|, acts[|acts| - 1]));
  }

  /** What a frame heard inside an utterance adds to it. */
  lemma TalkingGrows(c: Config, r: Run, frame: Frame, v: bool)
    requires Kept(c, r) && r.d.id.Some?
    ensures var frames' := r.frames + [frame];
            && frames'[r.start..] == r.d.pcm + [frame] && frames'[r.start..|frames'|] == r.d.pcm + [frame]
            && Triggered(c, r.voiced + [v], r.base, r.start, r.trigger)
            && ShortEnough(c, |r.d.pcm| + 1)
  {
    OneMoreFrame(c, |r.d.pcm|);
    assert (r.voiced + [v])[..r.trigger + 1] == r.voiced[..r.trigger + 1];
  }

  lemma HearWhileTalking(c: Config, r: Run, frame: Frame, v: bool, d': Detector, acts: seq<Action>)
    requires Kept(c, r) && r.d.id.Some? && Timed(c, d') && !Ends(acts)
    requires AnswersActive(r.d, frame, d', acts)
    ensures Kept(c, Heard(c, r, frame, v, d', acts))
  {
    TalkingGrows(c, r, frame, v);
    LaterInputKeepsSlices(c, r.frames, r.voiced, frame, v, r.slices);
  }

  lemma HearTheEnd(c: Config, r: Run, frame: Frame, v: bool, d': Detector, acts: seq<Action>)
    requires Kept(c, r) && r.d.id.Some? && Timed(c, d') && Ends(acts)
    requires AnswersActive(r.d, frame, d', acts)
    ensures Kept(c, Heard(c, r, frame, v, d', acts))
  {
    var frames', voiced' := r.frames + [frame], r.voiced + [v];
    TalkingGrows(c, r, frame, v);
    LaterInputKeepsSlices(c, r.frames, r.voiced, frame, v, r.slices);
    OneMoreSlice(c, frames', voiced', r.slices, Slice(r.base, r.start, r.trigger, |frames'|, acts[|acts| - 1]));
  }

  lemma HearKeeps(c: Config, r: Run, frame: Frame, v: bool)
    requires Kept(c, r)
    ensures Kept(c, Advance(c, r, Hear(frame, v)))
  {
    var (d', acts) := Accept(c, r.d, frame, v);
    StepKeepsTimed(c, r.d, Hear(frame, v));
    if r.d.id.None? {
      PreRollStep(c, r.d, frame, v);
      if acts == [] {
        HearSilence(c, r, frame, v, d');
      } else if Ends(acts) {
        HearTriggerAndEnd(c, r, frame, v, d', acts);
      } else {
        HearTrigger(c, r, frame, v, d', acts);
      }
    } else {
      ActiveStep(c, r.d, frame, v);
      if Ends(acts) {
        HearTheEnd(c, r, frame, v, d', acts);
      } else {
        HearWhileTalking(c, r, frame, v, d', acts);
      }
    }
  }

  lemma FinalizeKeeps(c: Config, r: Run)
    requires Kept(c, r)
    ensures Kept(c, Advance(c, r, Finalize))
  {
    if r.d.candidate {
      assert r.frames[r.start..] == r.frames[r.start..|r.frames|];
      assert SliceOk(c, r.frames, r.voiced, Slice(r.base, r.start, r.trigger, |r.frames|, r.d.Act(UtteranceFinal)));
    }
  }

  lemma AdvanceKeeps(c: Config, r: Run, op: Op)
    requires Kept(c, r)
    ensures Kept(c, Advance(c, r, op))
  {
    match op
    case Hear(frame, v) => HearKeeps(c, r, frame, v);
    case Extend =>
    case Finalize => FinalizeKeeps(c, r);
    case Reset =>
  }

  lemma {:induction false} AdvanceAllKeeps(c: Config, r: Run, ops: seq<Op>)
    requires Kept(c, r)
    ensures Kept(c, AdvanceAll(c, r, ops))
    decreases |ops|
  {
    if ops != [] {
      AdvanceKeeps(c, r, ops[0]);
      AdvanceAllKeeps(c, Advance(c, r, ops[0]), ops[1..]);
    }
  }

  // ---------- the slices are those of the detector's own log ----------

  function FinalsIn(log: seq<Action>): seq<Action> {
    if log == [] then []
    else (if IsFinal(log[0]) then [log[0]] else []) + FinalsIn(log[1..])
  }

  function FinalsOf(slices: seq<Slice>): seq<Action> {
    seq(|slices|, i requires 0 <= i < |slices| => slices[i].final)
  }

  function FrameOf(op: Op): seq<Frame> {
    if op.Hear? then [op.frame] else []
  }

  function VoicedOf(op: Op): seq<bool> {
    if op.Hear? then [op.voiced] else []
  }

  function FramesIn(ops: seq<Op>): seq<Frame> {
    if ops == [] then [] else FrameOf(ops[0]) + FramesIn(ops[1..])
  }

  function VoicedIn(ops: seq<Op>): seq<bool> {
    if ops == [] then [] else VoicedOf(ops[0]) + VoicedIn(ops[1..])
  }

  lemma {:induction false} FinalsAppend(a: seq<Action>, b: seq<Action>)
    ensures FinalsIn(a + b) == FinalsIn(a) + FinalsIn(b)
  {
    if a == [] {
      assert a + b == b;
    } else {
      var first := if IsFinal(a[0]) then [a[0]] else [];
      FinalsAppend(a[1..], b);
      assert (a + b)[1..] == a[1..] + b && (a + b)[0] == a[0];
      assert first + (FinalsIn(a[1..]) + FinalsIn(b)) == first + FinalsIn(a[1..]) + FinalsIn(b);
    }
  }

  /** A step takes at most two actions, and only the last can be final. */
  lemma StepIsShort(c: Config, d: Detector, op: Op)
    requires c.Valid()
    ensures var acts := Step(c, d, op).1; |acts| <= 2 && (|acts| == 2 ==> !IsFinal(acts[0]))
  {
  }

  lemma FinalsOfStep(acts: seq<Action>)
    requires |acts| <= 2 && (|acts| == 2 ==> !IsFinal(acts[0]))
    ensures FinalsIn(acts) == if Ends(acts) then [acts[|acts| - 1]] else []
  {
    if |acts| == 2 {
      assert acts[1..][1..] == [] && acts[1..][0] == acts[1];
    }
  }

  lemma AdvanceRecords(c: Config, r: Run, op: Op)
    requires c.Valid()
    ensures Advance(c, r, op).d == Step(c, r.d, op).0
    ensures Advance(c, r, op).frames == r.frames + FrameOf(op)
    ensures Advance(c, r, op).voiced == r.voiced + VoicedOf(op)
    ensures FinalsOf(Advance(c, r, op).slices) == FinalsOf(r.slices) + FinalsIn(Step(c, r.d, op).1)
  {
    StepIsShort(c, r.d, op);
    FinalsOfStep(Step(c, r.d, op).1);
  }

  lemma {:induction false} AdvanceAllHears(c: Config, r: Run, ops: seq<Op>)
    requires c.Valid()
    ensures AdvanceAll(c, r, ops).d == RunDetector(c, r.d, ops)
    ensures AdvanceAll(c, r, ops).frames == r.frames + FramesIn(ops)
    ensures AdvanceAll(c, r, ops).voiced == r.voiced + VoicedIn(ops)
    decreases |ops|
  {
    if ops != [] {
      var r' := Advance(c, r, ops[0]);
      AdvanceRecords(c, r, ops[0]);
      AdvanceAllHears(c, r', ops[1..]);
    }
  }

  /** The first step of a run, named so that the steps after it can be followed on their own. */
  lemma FirstRecords(c: Config, r: Run, ops: seq<Op>) returns (r': Run, acts: seq<Action>)
    requires c.Valid() && ops != []
    ensures AdvanceAll(c, r, ops) == AdvanceAll(c, r', ops[1..])
    ensures RunLog(c, r.d, ops) == acts + RunLog(c, r'.d, ops[1..])
    ensures FinalsOf(r'.slices) == FinalsOf(r.slices) + FinalsIn(acts)
  {
    r', acts := Advance(c, r, ops[0]), Step(c, r.d, ops[0]).1;
    AdvanceRecords(c, r, ops[0]);
  }

  lemma {:induction false} AdvanceAllRecords(c: Config, r: Run, ops: seq<Op>)
    requires c.Valid()
    ensures FinalsOf(AdvanceAll(c, r, ops).slices) == FinalsOf(r.slices) + FinalsIn(RunLog(c, r.d, ops))
    decreases |ops|
  {
    if ops != [] {
      var r', acts := FirstRecords(c, r, ops);
      AdvanceAllRecords(c, r', ops[1..]);
      FinalsAppend(acts, RunLog(c, r'.d, ops[1..]));
    }
  }

  // ---------- main results ----------

  /** The final actions of `log` are, in order, these slices of the input. */
  ghost predicate FinalsAreSlices(c: Config, frames: seq<Frame>, voiced: seq<bool>, log: seq<Action>,
                                  slices: seq<Slice>)
    requires c.Valid()
  {
    && FinalsIn(log) == FinalsOf(slices)
    && SlicesOk(c, frames, voiced, slices)
    && (forall i :: 0 < i < |slices| ==> slices[i - 1].end <= slices[i].start)
  }

  /**
   Over any run the finals are in-order, pairwise disjoint, contiguous slices
   of the frames heard, each shorter than the limit plus one frame.
   */
  lemma EveryFinalIsASlice(c: Config, firstId: nat, ops: seq<Op>) returns (slices: seq<Slice>)
    requires c.Valid()
    ensures FinalsAreSlices(c, FramesIn(ops), VoicedIn(ops), RunLog(c, Fresh(firstId), ops), slices)
  {
    var r := AdvanceAll(c, Start(firstId), ops);
    AdvanceAllKeeps(c, Start(firstId), ops);
    AdvanceAllHears(c, Start(firstId), ops);
    AdvanceAllRecords(c, Start(firstId), ops);
    assert FinalsOf([]) == [];
    assert r.frames == FramesIn(ops) && r.voiced == VoicedIn(ops);
    slices := r.slices;
  }

  /** A slice holds the whole voiced run that triggered it exactly when the pre-roll is long enough. */
  lemma SliceHoldsTriggeringRun(c: Config, frames: seq<Frame>, voiced: seq<bool>, s: Slice)
    requires c.Valid() && |frames| == |voiced| && SliceOk(c, frames, voiced, s)
    ensures s.start <= s.trigger + 1 - c.FramesFor(c.minSpeechMs)
            <==> c.FramesFor(c.preRollMs) >= c.FramesFor(c.minSpeechMs)
    ensures c.preRollMs >= c.minSpeechMs ==> s.start <= s.trigger + 1 - c.FramesFor(c.minSpeechMs)
  {
    if c.preRollMs >= c.minSpeechMs {
      FramesForGrows(c, c.minSpeechMs, c.preRollMs);
    }
  }

  lemma FramesForGrows(c: Config, a: nat, b: nat)
    requires c.Valid() && a <= b
    ensures c.FramesFor(a) <= c.FramesFor(b)
  {
    var n: int, m: int := c.FramesFor(a), c.FramesFor(b);
    FramesForIsCeiling(c, a, n);
    FramesForIsCeiling(c, b, m);
    ProductsAgree(m, n - 1, c.frameMs);
  }

  lemma ProductsAgree(x: int, y: int, f: nat)
    ensures x <= y ==> x * f <= y * f
  {
  }
}
