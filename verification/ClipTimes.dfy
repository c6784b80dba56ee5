/** When the avatar's clips move, what a jump reaches, and which events are announced. */
module ClipTimes {
  import opened Wrappers
  import opened ClipScheduler
  import opened ClipRuns

  // ---------- display ticks ----------

  /** Milliseconds that one frame of the playing clip lasts. */
  function Interval(m: Manifest, p: Player): real
    requires Playable(m)
  {
    1000.0 / m.clips[p.playing].fps
  }

  /** The tick took the player to another frame, or through the end of its loop. */
  predicate HasMoved(p: Player, p': Player) {
    p'.frameIndex != p.frameIndex || p'.emitted != p.emitted
  }

  /** The player and its clock without the frame and what a loop's end changes. */
  predicate OnlyTheClock(p: Player, p': Player) {
    p' == p.(lastAdvanceAt := p'.lastAdvanceAt)
  }

  /**
   A tick moves exactly when the player is not paused, its clock runs and a whole frame interval has
   passed; it then sets the clock. The first tick only starts the clock, and any other changes nothing.
   */
  lemma TickMovesIff(m: Manifest, p: Player, t: real)
    requires Playable(m) && InClip(m, p) && p.frameIndex + 1 < |Frames(m, p.playing)|
    ensures var (p', frame) := Advanced(m, p, t);
            && (HasMoved(p, p')
                <==> !p.paused && p.lastAdvanceAt.Some? && t >= p.lastAdvanceAt.value + Interval(m, p))
            && (HasMoved(p, p') ==> p'.lastAdvanceAt == Some(t))
            && (!HasMoved(p, p') ==>
                  && OnlyTheClock(p, p') && frame == Displayed(m, p)
                  && p'.lastAdvanceAt == if !p.paused && p.lastAdvanceAt.None? then Some(t) else p.lastAdvanceAt)
            && InClip(m, p') && (Shared(m) ==> p'.frameIndex + 1 < |Frames(m, p'.playing)|)
  {
    var e := LoopCompleted(p.playing);
    assert |p.emitted + [e]| == |p.emitted| + 1;
  }

  /** The move of a tick: when it happened, and how long a frame then lasted. */
  datatype Move = Move(time: real, interval: real)

  function MovesOf(m: Manifest, p: Player, ticks: seq<real>): seq<Move>
    requires Playable(m) && InClip(m, p)
    decreases |ticks|
  {
    if ticks == [] then []
    else
      var p' := PlayerAfter(m, p, Advancing(ticks[0]));
      (if HasMoved(p, p') then [Move(ticks[0], Interval(m, p))] else []) + MovesOf(m, p', ticks[1..])
  }

  ghost predicate Spaced(moves: seq<Move>, since: Option<real>) {
    && (moves != [] && since.Some? ==> moves[0].time >= since.value + moves[0].interval)
    && forall i :: 0 < i < |moves| ==> moves[i].time >= moves[i - 1].time + moves[i].interval
  }

  lemma SpacedAfter(first: Move, later: seq<Move>, since: Option<real>)
    requires Spaced(later, Some(first.time)) && (since.Some? ==> first.time >= since.value + first.interval)
    ensures Spaced([first] + later, since)
  {
    var all := [first] + later;
    forall i | 0 < i < |all|
      ensures all[i].time >= all[i - 1].time + all[i].interval
    {
      assert all[i] == later[i - 1];
    }
  }

  /** However often the display ticks, two moves, and the clock's start and the first, are at least a frame apart. */
  lemma {:induction false} MovesAreSpaced(m: Manifest, p: Player, ticks: seq<real>)
    requires Playable(m) && Shared(m) && InClip(m, p) && p.frameIndex + 1 < |Frames(m, p.playing)|
    ensures Spaced(MovesOf(m, p, ticks), p.lastAdvanceAt)
    decreases |ticks|
  {
    if ticks != [] {
      var p' := PlayerAfter(m, p, Advancing(ticks[0]));
      TickMovesIff(m, p, ticks[0]);
      MovesAreSpaced(m, p', ticks[1..]);
      if HasMoved(p, p') {
        SpacedAfter(Move(ticks[0], Interval(m, p)), MovesOf(m, p', ticks[1..]), p.lastAdvanceAt);
      } else {
        assert [] + MovesOf(m, p', ticks[1..]) == MovesOf(m, p', ticks[1..]);
      }
    }
  }

  // ---------- jumps ----------

  /** A jump inside the loop lands on the first place of the frame, and fails exactly when the clip lacks it. */
  lemma JumpLandsOnTheFrame(m: Manifest, p: Player, frame: FrameId)
    requires Playable(m)
    ensures var frames, r := Frames(m, p.playing), Jumped(m, p, frame, false);
            && (r.Success? <==> frame in frames)
            && (r.Failure? ==> r.error == NotInClip)
            && (r.Success? ==>
                  && r.value == p.(frameIndex := r.value.frameIndex)
                  && r.value.frameIndex < |frames| && frames[r.value.frameIndex] == frame
                  && frame !in frames[..r.value.frameIndex])
  {
  }

  /** A jump over the loop's end needs the clip's last frame to be the one named, and to be the shared one. */
  lemma JumpEndsTheLoop(m: Manifest, p: Player, frame: FrameId)
    requires Playable(m)
    ensures var frames, r := Frames(m, p.playing), Jumped(m, p, frame, true);
            && (r == Failure(NotInClip) <==> frame != frames[|frames| - 1])
            && (r == Failure(LoopEndsElsewhere) <==> frame == frames[|frames| - 1] && frame != m.transition)
            && (r.Success? ==>
                  && r.value.frameIndex == 0 && r.value.pending == None
                  && r.value.playing == (if p.pending.Some? then p.pending.value else p.playing)
                  && r.value.emitted == p.emitted + [LoopCompleted(p.playing)])
  {
  }

  // ---------- announcements ----------

  /** A selection is announced and becomes pending exactly when it names another state that is available. */
  lemma SelectionIsAnnounced(p: Player, s: AvatarState)
    ensures var (p', accepted) := Selected(p, s);
            && (accepted <==> s !in p.unavailable && s != p.playing)
            && p'.emitted == p.emitted + (if accepted then [StateSelected(s)] else [])
            && (accepted ==> p'.pending == Some(s))
            && p' == p.(pending := p'.pending, emitted := p'.emitted)
  {
  }

  /** What a run announces: its accepted selections and its completed loops. */
  function Announced(m: Manifest, p: Player, op: Op): seq<AvatarEvent>
    requires Playable(m)
  {
    if op.Selecting? && op.state !in p.unavailable && op.state != p.playing then [StateSelected(op.state)]
    else if Ends(m, p, op) then [LoopCompleted(p.playing)]
    else []
  }

  function AllAnnounced(m: Manifest, w: World, ops: seq<Op>): seq<AvatarEvent>
    requires Playable(m) && InClip(m, w.p)
    decreases |ops|
  {
    if ops == [] then [] else Announced(m, w.p, ops[0]) + AllAnnounced(m, After(m, w, ops[0]), ops[1..])
  }

  lemma OpAnnounces(m: Manifest, w: World, op: Op)
    requires Playable(m) && InClip(m, w.p)
    ensures After(m, w, op).p.emitted == w.p.emitted + Announced(m, w.p, op)
  {
  }

  /** In every run the events are exactly the accepted selections and the completed loops, in order. */
  lemma {:induction false} RunAnnounces(m: Manifest, w: World, ops: seq<Op>)
    requires Playable(m) && InClip(m, w.p)
    ensures Run(m, w, ops).p.emitted == w.p.emitted + AllAnnounced(m, w, ops)
    decreases |ops|
  {
    if ops != [] {
      OpAnnounces(m, w, ops[0]);
      RunAnnounces(m, After(m, w, ops[0]), ops[1..]);
      assert w.p.emitted + Announced(m, w.p, ops[0]) + AllAnnounced(m, After(m, w, ops[0]), ops[1..])
             == w.p.emitted + (Announced(m, w.p, ops[0]) + AllAnnounced(m, After(m, w, ops[0]), ops[1..]));
    }
  }
}
