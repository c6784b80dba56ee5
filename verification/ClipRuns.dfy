/** What the avatar shows over a run: whole loops, and switches only on the shared frame. */
module ClipRuns {
  import opened Wrappers
  import opened ClipScheduler

  datatype Op =
    | Selecting(state: AvatarState)
    | Offering(state: AvatarState, available: bool)
    | Pausing
    | Resuming
    | Restarting
    | Stepping
    | Advancing(timestamp: real)
    | Jumping(frame: FrameId, loopComplete: bool)

  /** The player, the frames it has moved to, and the latest selection of an available state since the last boundary
      or restart. */
  datatype World = World(p: Player, shown: seq<FrameId>, wanted: Option<AvatarState>)

  /** Whether this operation moves to another frame of the loop. */
  predicate Moves(m: Manifest, p: Player, op: Op)
    requires Playable(m)
  {
    (op.Stepping? && !p.paused) || (op.Advancing? && Due(m, p, op.timestamp))
  }

  /** Whether this operation ends a loop. */
  predicate Ends(m: Manifest, p: Player, op: Op)
    requires Playable(m)
  {
    (Moves(m, p, op) && p.frameIndex + 2 >= |Frames(m, p.playing)|)
    || (op.Jumping? && op.loopComplete && Jumped(m, p, op.frame, true).Success?)
  }

  function PlayerAfter(m: Manifest, p: Player, op: Op): (p': Player)
    requires Playable(m) && InClip(m, p)
    ensures InClip(m, p')
  {
    match op
    case Selecting(s) => Selected(p, s).0
    case Offering(s, available) => p.(unavailable := if available then p.unavailable - {s} else p.unavailable + {s})
    case Pausing => p.(paused := true)
    case Resuming => p.(paused := false, lastAdvanceAt := None)
    case Restarting => p.(frameIndex := 0, lastAdvanceAt := None, pending := None)
    case Stepping => Stepped(m, p).0
    case Advancing(t) => Advanced(m, p, t).0
    case Jumping(frame, loopComplete) =>
      match Jumped(m, p, frame, loopComplete)
      case Success(p') => p'
      case Failure(_) => p
  }

  /** The frame handed to the renderer, for the operations that return one. */
  function Output(m: Manifest, p: Player, op: Op): Option<FrameId>
    requires Playable(m) && InClip(m, p)
  {
    match op
    case Stepping => Some(Stepped(m, p).1)
    case Advancing(t) => Some(Advanced(m, p, t).1)
    case _ => None
  }

  function WantedAfter(m: Manifest, w: World, op: Op): Option<AvatarState>
    requires Playable(m)
  {
    if Ends(m, w.p, op) || op.Restarting? then None
    else if op.Selecting? && op.state !in w.p.unavailable then Some(op.state)
    else w.wanted
  }

  function After(m: Manifest, w: World, op: Op): (w': World)
    requires Playable(m) && InClip(m, w.p)
    ensures InClip(m, w'.p)
  {
    World(PlayerAfter(m, w.p, op),
          if Moves(m, w.p, op) then w.shown + [Output(m, w.p, op).value] else w.shown,
          WantedAfter(m, w, op))
  }

  function Run(m: Manifest, w: World, ops: seq<Op>): (w': World)
    requires Playable(m) && InClip(m, w.p)
    ensures InClip(m, w'.p)
    decreases |ops|
  {
    if ops == [] then w else Run(m, After(m, w, ops[0]), ops[1..])
  }

  function Fresh(initial: AvatarState): World {
    World(Player(initial, None, {}, 0, false, None, []), [], None)
  }

  // ---------- whole loops ----------

  /** The states whose loops were completed, in order. */
  function Completed(events: seq<AvatarEvent>): seq<AvatarState> {
    if events == [] then []
    else
      var e := events[|events| - 1];
      Completed(events[..|events| - 1]) + if e.LoopCompleted? then [e.state] else []
  }

  /** Their loops, each from the frame after the shared one to the shared one again. */
  function Loops(m: Manifest, states: seq<AvatarState>): seq<FrameId>
    requires Playable(m)
  {
    if states == [] then []
    else Loops(m, states[..|states| - 1]) + Frames(m, states[|states| - 1])[1..]
  }

  /** What was shown: the completed loops, then the current loop up to the current frame. */
  ghost predicate Uncut(m: Manifest, p: Player, shown: seq<FrameId>)
    requires Playable(m)
  {
    && p.frameIndex + 1 < |Frames(m, p.playing)|
    && shown == Loops(m, Completed(p.emitted)) + Frames(m, p.playing)[1..p.frameIndex + 1]
  }

  lemma CompletedPlusOne(events: seq<AvatarEvent>, e: AvatarEvent)
    ensures Completed(events + [e]) == Completed(events) + if e.LoopCompleted? then [e.state] else []
  {
    assert (events + [e])[..|events|] == events;
  }

  lemma LoopsPlusOne(m: Manifest, states: seq<AvatarState>, s: AvatarState)
    requires Playable(m)
    ensures Loops(m, states + [s]) == Loops(m, states) + Frames(m, s)[1..]
  {
    assert (states + [s])[..|states|] == states;
  }

  lemma LoopEndKeepsUncut(m: Manifest, loops: seq<FrameId>, events: seq<AvatarEvent>, s: AvatarState, i: nat)
    requires Playable(m) && loops == Loops(m, Completed(events)) && i + 2 == |Frames(m, s)|
    ensures loops + Frames(m, s)[1..i + 1] + [Frames(m, s)[i + 1]] == Loops(m, Completed(events + [LoopCompleted(s)]))
  {
    var frames := Frames(m, s);
    CompletedPlusOne(events, LoopCompleted(s));
    LoopsPlusOne(m, Completed(events), s);
    assert frames[1..i + 1] + [frames[i + 1]] == frames[1..];
    assert loops + frames[1..i + 1] + [frames[i + 1]] == loops + (frames[1..i + 1] + [frames[i + 1]]);
  }

  lemma {:induction false} MoveKeepsUncut(m: Manifest, p: Player, shown: seq<FrameId>)
    requires Playable(m) && Uncut(m, p, shown) && !p.paused
    ensures Uncut(m, Stepped(m, p).0, shown + [Stepped(m, p).1])
  {
    var frames, i := Frames(m, p.playing), p.frameIndex;
    var (p', frame) := Stepped(m, p);
    var loops := Loops(m, Completed(p.emitted));
    if i + 2 == |frames| {
      LoopEndKeepsUncut(m, loops, p.emitted, p.playing, i);
      assert Frames(m, p'.playing)[1..1] == [];
    } else {
      assert frames[1..i + 1] + [frames[i + 1]] == frames[1..i + 2];
      assert loops + frames[1..i + 1] + [frames[i + 1]] == loops + (frames[1..i + 1] + [frames[i + 1]]);
    }
  }

  lemma SelectKeepsUncut(m: Manifest, p: Player, shown: seq<FrameId>, s: AvatarState)
    requires Playable(m) && Uncut(m, p, shown)
    ensures Uncut(m, Selected(p, s).0, shown)
  {
    CompletedPlusOne(p.emitted, StateSelected(s));
    assert Completed(p.emitted) + [] == Completed(p.emitted);
  }

  lemma OpKeepsUncut(m: Manifest, w: World, op: Op)
    requires Playable(m) && InClip(m, w.p) && Uncut(m, w.p, w.shown) && !op.Restarting? && !op.Jumping?
    ensures Uncut(m, After(m, w, op).p, After(m, w, op).shown)
  {
    match op
    case Selecting(s) => SelectKeepsUncut(m, w.p, w.shown, s);
    case Stepping =>
      if !w.p.paused {
        MoveKeepsUncut(m, w.p, w.shown);
      }
    case Advancing(t) =>
      if Due(m, w.p, t) {
        MoveKeepsUncut(m, w.p.(lastAdvanceAt := Some(t)), w.shown);
      }
    case _ =>
  }

  /** Without restarts and jumps, every run shows whole loops and then the beginning of one; pausing, timing and
      selecting cut nothing. */
  lemma {:induction false} LoopsAreNeverCut(m: Manifest, w: World, ops: seq<Op>)
    requires Playable(m) && InClip(m, w.p) && Uncut(m, w.p, w.shown)
    requires forall op :: op in ops ==> !op.Restarting? && !op.Jumping?
    ensures Uncut(m, Run(m, w, ops).p, Run(m, w, ops).shown)
    decreases |ops|
  {
    if ops != [] {
      assert ops[0] in ops && forall op :: op in ops[1..] ==> op in ops;
      OpKeepsUncut(m, w, ops[0]);
      LoopsAreNeverCut(m, After(m, w, ops[0]), ops[1..]);
    }
  }

  /** A new player that is only stepped, ticked, paused and selected on, from any initial state. */
  lemma NewPlayerShowsWholeLoops(m: Manifest, initial: AvatarState, ops: seq<Op>)
    requires Playable(m) && forall op :: op in ops ==> !op.Restarting? && !op.Jumping?
    ensures InClip(m, Fresh(initial).p)
    ensures var w := Run(m, Fresh(initial), ops);
            && w.p.frameIndex + 1 < |Frames(m, w.p.playing)|
            && w.shown == Loops(m, Completed(w.p.emitted)) + Frames(m, w.p.playing)[1..w.p.frameIndex + 1]
            && Chosen(w)
  {
    assert Frames(m, initial)[1..1] == [];
    LoopsAreNeverCut(m, Fresh(initial), ops);
    EveryRunIsChosen(m, Fresh(initial), ops);
  }

  /** A tick that does not move repeats the frame last shown, or the shared frame before anything was. */
  lemma {:induction false} IdleTicksRepeat(m: Manifest, w: World, op: Op)
    requires Playable(m) && Shared(m) && InClip(m, w.p) && Uncut(m, w.p, w.shown)
    requires (op.Stepping? || op.Advancing?) && !Moves(m, w.p, op)
    ensures Output(m, w.p, op) == Some(if w.shown == [] then m.transition else w.shown[|w.shown| - 1])
  {
    var frames, i := Frames(m, w.p.playing), w.p.frameIndex;
    var done := Completed(w.p.emitted);
    if i > 0 {
      assert w.shown[|w.shown| - 1] == frames[1..i + 1][i - 1];
    } else if done != [] {
      var last := Frames(m, done[|done| - 1]);
      assert w.shown == Loops(m, done[..|done| - 1]) + last[1..];
      assert w.shown[|w.shown| - 1] == last[1..][|last| - 2] == last[|last| - 1];
    }
  }

  // ---------- switches ----------

  /** What is pending is the latest available selection, unless that is what already plays. */
  ghost predicate Chosen(w: World) {
    w.p.pending == if w.wanted == Some(w.p.playing) then None else w.wanted
  }

  lemma OpKeepsChosen(m: Manifest, w: World, op: Op)
    requires Playable(m) && InClip(m, w.p) && Chosen(w)
    ensures Chosen(After(m, w, op))
  {
  }

  /** The state changes only where a loop ends, on the shared frame, and then to the latest available selection. */
  lemma SwitchesOnTheSharedFrame(m: Manifest, w: World, op: Op)
    requires Playable(m) && Shared(m) && InClip(m, w.p) && Chosen(w)
    ensures var w' := After(m, w, op);
            && Chosen(w')
            && (w'.p.playing != w.p.playing <==> Ends(m, w.p, op) && w.wanted.Some? && w.wanted.value != w.p.playing)
            && (Ends(m, w.p, op) ==>
                  && w'.p.playing == (if w.wanted.Some? then w.wanted.value else w.p.playing)
                  && w'.p.frameIndex == 0 && Displayed(m, w'.p) == m.transition
                  && (op.Jumping? || Output(m, w.p, op) == Some(m.transition)))
  {
    OpKeepsChosen(m, w, op);
  }

  lemma {:induction false} EveryRunIsChosen(m: Manifest, w: World, ops: seq<Op>)
    requires Playable(m) && InClip(m, w.p) && Chosen(w)
    ensures Chosen(Run(m, w, ops))
    decreases |ops|
  {
    if ops != [] {
      OpKeepsChosen(m, w, ops[0]);
      EveryRunIsChosen(m, After(m, w, ops[0]), ops[1..]);
    }
  }

  /** Under a shared-frame manifest the index stays before the closing frame, restarts and jumps included. */
  lemma {:induction false} IndexStaysInsideTheLoop(m: Manifest, w: World, ops: seq<Op>)
    requires Playable(m) && Shared(m) && InClip(m, w.p) && w.p.frameIndex + 1 < |Frames(m, w.p.playing)|
    ensures var p := Run(m, w, ops).p; p.frameIndex + 1 < |Frames(m, p.playing)|
    decreases |ops|
  {
    if ops != [] {
      var w' := After(m, w, ops[0]);
      assert w'.p.frameIndex + 1 < |Frames(m, w'.p.playing)|;
      IndexStaysInsideTheLoop(m, w', ops[1..]);
    }
  }

  function Steps(m: Manifest, p: Player, n: nat): (p': Player)
    requires Playable(m) && InClip(m, p)
    ensures InClip(m, p')
    decreases n
  {
    if n == 0 then p else Steps(m, Stepped(m, p).0, n - 1)
  }

  /** A pending selection plays after exactly the steps left in the current loop, and not before. */
  lemma {:induction false} SelectionPlaysAtTheNextBoundary(m: Manifest, p: Player, s: AvatarState, n: nat)
    requires Playable(m) && p.frameIndex + 1 < |Frames(m, p.playing)| && !p.paused
    requires p.pending == Some(s) && s != p.playing && n <= |Frames(m, p.playing)| - 1 - p.frameIndex
    ensures Steps(m, p, n).playing == if n == |Frames(m, p.playing)| - 1 - p.frameIndex then s else p.playing
    decreases n
  {
    if n > 0 && p.frameIndex + 2 < |Frames(m, p.playing)| {
      SelectionPlaysAtTheNextBoundary(m, Stepped(m, p).0, s, n - 1);
    }
  }

  /** Selecting the playing state cancels what is pending exactly when the playing state is available. */
  lemma ReselectingCancels(p: Player)
    ensures var (p', accepted) := Selected(p, p.playing);
            && !accepted && p' == p.(pending := p'.pending)
            && (p'.pending == None <==> p.pending == None || p.playing !in p.unavailable)
  {
  }

  /** Withdrawing a state does not withdraw its selection: it still plays at the next boundary. */
  lemma WithdrawnSelectionStillPlays(m: Manifest, w: World, s: AvatarState)
    requires Playable(m) && InClip(m, w.p) && w.p.pending == Some(s)
    ensures var p := PlayerAfter(m, w.p, Offering(s, false));
            p.pending == Some(s) && s in p.unavailable && AtBoundary(p).playing == s
  {
  }
}
