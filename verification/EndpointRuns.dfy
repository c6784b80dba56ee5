/** What every run of the detector keeps: timing, slices of the input, and the shape of the action log. */
module EndpointRuns {
  import opened Wrappers
  import opened Blocks
  import opened EndpointDetector

  datatype Op = Hear(frame: Frame, voiced: bool) | Extend | Finalize | Reset

  function Step(c: Config, d: Detector, op: Op): (Detector, seq<Action>)
    requires c.Valid()
  {
    match op
    case Hear(frame, voiced) => Accept(c, d, frame, voiced)
    case Extend => (d.(extended := d.extended || d.candidate), [])
    case Finalize => if d.candidate && d.id.Some? then Finish(d, []) else (d, [])
    case Reset => (Fresh(d.nextId), [])
  }

  function RunDetector(c: Config, d: Detector, ops: seq<Op>): Detector
    requires c.Valid()
    decreases |ops|
  {
    if ops == [] then d else RunDetector(c, Step(c, d, ops[0]).0, ops[1..])
  }

  /** All actions of a run, in order. */
  function RunLog(c: Config, d: Detector, ops: seq<Op>): seq<Action>
    requires c.Valid()
    decreases |ops|
  {
    if ops == [] then [] else Step(c, d, ops[0]).1 + RunLog(c, Step(c, d, ops[0]).0, ops[1..])
  }

  // ---------- timing ----------

  /** The timers, between two calls. */
  ghost predicate Timed(c: Config, d: Detector) {
    && c.Valid() && 0 <= d.speechMs && |d.preRoll| <= c.FramesFor(c.preRollMs)
    && (d.id.Some? ==>
          && (d.candidate <==> d.silenceMs >= c.endpointMs)
          && 0 <= d.silenceMs < c.hardEndpointMs
          && d.durationMs == |d.pcm| * c.frameMs < c.maxUtteranceMs)
    && (d.id.None? ==>
          && !d.candidate && d.pcm == [] && d.durationMs == 0 && d.silenceMs == 0
          && d.speechMs < c.minSpeechMs)
  }

  lemma OneMoreFrame(c: Config, n: nat)
    ensures (n + 1) * c.frameMs == n * c.frameMs + c.frameMs
  {
  }

  lemma StepKeepsTimed(c: Config, d: Detector, op: Op)
    requires c.Valid() && Timed(c, d)
    ensures Timed(c, Step(c, d, op).0)
  {
    OneMoreFrame(c, |d.pcm|);
  }

  lemma {:induction false} RunKeepsTimed(c: Config, d: Detector, ops: seq<Op>)
    requires c.Valid() && Timed(c, d)
    ensures Timed(c, RunDetector(c, d, ops))
    decreases |ops|
  {
    if ops != [] {
      StepKeepsTimed(c, d, ops[0]);
      RunKeepsTimed(c, Step(c, d, ops[0]).0, ops[1..]);
    }
  }

  /** From the start, every run leaves the timers consistent. */
  lemma TimersAgree(c: Config, firstId: nat, ops: seq<Op>)
    requires c.Valid()
    ensures Timed(c, RunDetector(c, Fresh(firstId), ops))
  {
    RunKeepsTimed(c, Fresh(firstId), ops);
  }

  // ---------- an endpoint extension is invisible ----------

  function WithoutExtend(ops: seq<Op>): seq<Op> {
    if ops == [] then []
    else (if ops[0].Extend? then [] else [ops[0]]) + WithoutExtend(ops[1..])
  }

  /** Equal up to the flag that records an extension. */
  predicate AgreeButExtended(d: Detector, d': Detector) {
    d' == d.(extended := d'.extended)
  }

  lemma StepIgnoresExtended(c: Config, d: Detector, d': Detector, op: Op)
    requires c.Valid() && AgreeButExtended(d, d')
    ensures Step(c, d, op).1 == Step(c, d', op).1
    ensures AgreeButExtended(Step(c, d, op).0, Step(c, d', op).0)
  {
    if op.Hear? && d.id.Some? {
      assert d.(pcm := d.pcm + [op.frame], extended := d'.extended) == d'.(pcm := d'.pcm + [op.frame]);
    }
  }

  /** Granting extensions changes no action of any run. */
  lemma {:induction false} ExtensionsChangeNothing(c: Config, d: Detector, d': Detector, ops: seq<Op>)
    requires c.Valid() && AgreeButExtended(d, d')
    ensures RunLog(c, d, ops) == RunLog(c, d', WithoutExtend(ops))
    decreases |ops|
  {
    if ops != [] {
      var next := Step(c, d, ops[0]);
      if ops[0].Extend? {
        ExtensionsChangeNothing(c, next.0, d', ops[1..]);
        assert WithoutExtend(ops) == WithoutExtend(ops[1..]);
      } else {
        StepIgnoresExtended(c, d, d', ops[0]);
        ExtensionsChangeNothing(c, next.0, Step(c, d', ops[0]).0, ops[1..]);
        var shorter := WithoutExtend(ops);
        assert shorter[0] == ops[0] && shorter[1..] == WithoutExtend(ops[1..]);
      }
    }
  }

  // ---------- the shape of the action log ----------

  predicate IsFinal(a: Action) {
    a.kind == UtteranceFinal
  }

  function Front<T>(s: seq<T>): seq<T>
    requires s != []
  {
    s[..|s| - 1]
  }

  /** The log cut after every final action: the finished pieces. */
  function Finished(log: seq<Action>): seq<seq<Action>> {
    if log == [] then []
    else if IsFinal(log[|log| - 1]) then Finished(Front(log)) + [Unfinished(Front(log)) + [log[|log| - 1]]]
    else Finished(Front(log))
  }

  /** The actions after the last final one. */
  function Unfinished(log: seq<Action>): seq<Action> {
    if log == [] || IsFinal(log[|log| - 1]) then []
    else Unfinished(Front(log)) + [log[|log| - 1]]
  }

  lemma {:induction false} CutLosesNothing(log: seq<Action>)
    ensures Flatten(Finished(log)) + Unfinished(log) == log
  {
    if log != [] {
      var front, last := Front(log), log[|log| - 1];
      CutLosesNothing(front);
      FlattenPlusOne(Finished(front), Unfinished(front) + [last]);
      assert log == Flatten(Finished(front)) + Unfinished(front) + [last];
    }
  }

  /** started (candidate cancelled)* candidate?, all of one utterance. */
  ghost predicate OpenTrace(t: seq<Action>, id: nat) {
    && (forall i :: 0 <= i < |t| ==> t[i].id == id)
    && (t != [] ==> t[0].kind == SpeechStarted)
    && (forall i :: 0 < i < |t| ==>
          t[i].kind == if t[i - 1].kind == EndpointCandidate then EndpointCancelled else EndpointCandidate)
  }

  /** started (candidate cancelled)* candidate? final. */
  ghost predicate WholeTrace(t: seq<Action>, id: nat) {
    && |t| >= 2
    && OpenTrace(Front(t), id)
    && IsFinal(t[|t| - 1]) && t[|t| - 1].id == id
  }

  /** The part of the detector that the action log determines. */
  datatype Phase = Phase(id: Option<nat>, candidate: bool, nextId: nat)

  function PhaseOf(d: Detector): Phase {
    Phase(d.id, d.candidate, d.nextId)
  }

  /** The actions that may come next. */
  predicate Allowed(p: Phase, a: Action) {
    match a.kind
    case SpeechStarted => p.id.None? && a.id == p.nextId
    case EndpointCandidate => p.id == Some(a.id) && !p.candidate
    case EndpointCancelled => p.id == Some(a.id) && p.candidate
    case UtteranceFinal => p.id == Some(a.id)
  }

  function After(p: Phase, a: Action): Phase {
    match a.kind
    case SpeechStarted => Phase(Some(p.nextId), false, p.nextId + 1)
    case EndpointCandidate => p.(candidate := true)
    case EndpointCancelled => p.(candidate := false)
    case UtteranceFinal => p.(id := None, candidate := false)
  }

  /** The pieces of the log of a detector whose first utterance id is `firstId`. */
  ghost predicate TracedPieces(p: Phase, finished: seq<seq<Action>>, open: seq<Action>, firstId: nat) {
    && (forall i :: 0 <= i < |finished| ==> WholeTrace(finished[i], firstId + i))
    && p.nextId == firstId + |finished| + (if p.id.Some? then 1 else 0)
    && (p.id.None? ==> open == [] && !p.candidate)
    && (p.id.Some? ==>
          && p.id.value + 1 == p.nextId && open != []
          && OpenTrace(open, p.id.value)
          && (p.candidate <==> open[|open| - 1].kind == EndpointCandidate))
  }

  ghost predicate Traced(p: Phase, log: seq<Action>, firstId: nat) {
    TracedPieces(p, Finished(log), Unfinished(log), firstId)
  }

  lemma ActionKeepsPieces(p: Phase, a: Action, finished: seq<seq<Action>>, open: seq<Action>, firstId: nat)
    requires TracedPieces(p, finished, open, firstId) && Allowed(p, a)
    ensures if IsFinal(a) then TracedPieces(After(p, a), finished + [open + [a]], [], firstId)
            else TracedPieces(After(p, a), finished, open + [a], firstId)
  {
    assert Front(open + [a]) == open;
  }

  lemma LogPlusOne(log: seq<Action>, a: Action)
    ensures Finished(log + [a]) == Finished(log) + (if IsFinal(a) then [Unfinished(log) + [a]] else [])
    ensures Unfinished(log + [a]) == if IsFinal(a) then [] else Unfinished(log) + [a]
  {
    assert Front(log + [a]) == log;
  }

  lemma ActionKeepsTraced(p: Phase, a: Action, log: seq<Action>, firstId: nat)
    requires Traced(p, log, firstId) && Allowed(p, a)
    ensures Traced(After(p, a), log + [a], firstId)
  {
    LogPlusOne(log, a);
    ActionKeepsPieces(p, a, Finished(log), Unfinished(log), firstId);
  }

  /** Allowed actions lead from one phase to the other. */
  predicate Follows(p: Phase, acts: seq<Action>, p': Phase)
    decreases |acts|
  {
    if acts == [] then p' == p
    else Allowed(p, acts[0]) && Follows(After(p, acts[0]), acts[1..], p')
  }

  lemma {:induction false} FollowsThen(p: Phase, a: seq<Action>, p1: Phase, b: seq<Action>, p2: Phase)
    requires Follows(p, a, p1) && Follows(p1, b, p2)
    ensures Follows(p, a + b, p2)
    decreases |a|
  {
    if a == [] {
      assert a + b == b;
    } else {
      assert (a + b)[1..] == a[1..] + b;
      FollowsThen(After(p, a[0]), a[1..], p1, b, p2);
    }
  }

  predicate Coherent(d: Detector) {
    d.candidate ==> d.id.Some?
  }

  lemma StepFollows(c: Config, d: Detector, op: Op)
    requires c.Valid() && Coherent(d) && !op.Reset?
    ensures Coherent(Step(c, d, op).0)
    ensures Follows(PhaseOf(d), Step(c, d, op).1, PhaseOf(Step(c, d, op).0))
  {
  }

  lemma {:induction false} RunFollows(c: Config, d: Detector, ops: seq<Op>)
    requires c.Valid() && Coherent(d) && Reset !in ops
    ensures Follows(PhaseOf(d), RunLog(c, d, ops), PhaseOf(RunDetector(c, d, ops)))
    decreases |ops|
  {
    if ops != [] {
      var (d', acts) := Step(c, d, ops[0]);
      StepFollows(c, d, ops[0]);
      RunFollows(c, d', ops[1..]);
      FollowsThen(PhaseOf(d), acts, PhaseOf(d'), RunLog(c, d', ops[1..]), PhaseOf(RunDetector(c, d', ops[1..])));
    }
  }

  lemma {:induction false} FollowsKeepsTraced(p: Phase, acts: seq<Action>, p': Phase, log: seq<Action>, firstId: nat)
    requires Traced(p, log, firstId) && Follows(p, acts, p')
    ensures Traced(p', log + acts, firstId)
    decreases |acts|
  {
    if acts == [] {
      assert log + acts == log;
    } else {
      ActionKeepsTraced(p, acts[0], log, firstId);
      FollowsKeepsTraced(After(p, acts[0]), acts[1..], p', log + [acts[0]], firstId);
      assert log + acts == log + [acts[0]] + acts[1..];
    }
  }

  /** A list of whole utterance traces, each with its own id, followed by an unfinished one. */
  ghost predicate WellTraced(log: seq<Action>, firstId: nat) {
    && Flatten(Finished(log)) + Unfinished(log) == log
    && (forall i :: 0 <= i < |Finished(log)| ==> WholeTrace(Finished(log)[i], firstId + i))
    && OpenTrace(Unfinished(log), firstId + |Finished(log)|)
  }

  lemma TracedIsWellTraced(p: Phase, log: seq<Action>, firstId: nat)
    requires Traced(p, log, firstId)
    ensures WellTraced(log, firstId)
  {
    CutLosesNothing(log);
  }

  /** Between resets the action log is a list of whole utterance traces and an unfinished one. */
  lemma EveryUtteranceTraceIsWhole(c: Config, firstId: nat, ops: seq<Op>)
    requires c.Valid() && Reset !in ops
    ensures WellTraced(RunLog(c, Fresh(firstId), ops), firstId)
  {
    var start, end, log := Fresh(firstId), RunDetector(c, Fresh(firstId), ops), RunLog(c, Fresh(firstId), ops);
    RunFollows(c, start, ops);
    FollowsKeepsTraced(PhaseOf(start), log, PhaseOf(end), [], firstId);
    assert [] + log == log;
    TracedIsWellTraced(PhaseOf(end), log, firstId);
  }
}
