/** The avatar's clip scheduler: looping clips that share one transition frame. */
module ClipScheduler {
  import opened Wrappers

  datatype AvatarState = Idle | Listening | Thinking | Speaking | Happy | Error

  type FrameId = string

  datatype Clip = Clip(frames: seq<FrameId>, fps: real)

  datatype Manifest = Manifest(transition: FrameId, clips: map<AvatarState, Clip>)

  datatype AvatarEvent = StateSelected(state: AvatarState) | LoopCompleted(state: AvatarState)

  datatype JumpError = NotInClip | LoopEndsElsewhere

  /** A clip for every state, each with at least three frames and a positive frame rate. */
  predicate Playable(m: Manifest) {
    forall s: AvatarState :: s in m.clips && |m.clips[s].frames| >= 3 && 0.0 < m.clips[s].fps
  }

  /** Every clip starts and ends on the shared transition frame. */
  predicate Shared(m: Manifest) {
    forall s :: s in m.clips && m.clips[s].frames != [] ==>
      m.clips[s].frames[0] == m.transition && m.clips[s].frames[|m.clips[s].frames| - 1] == m.transition
  }

  datatype Player = Player(
    playing: AvatarState,
    pending: Option<AvatarState>,
    unavailable: set<AvatarState>,
    frameIndex: nat,
    paused: bool,
    lastAdvanceAt: Option<real>,
    emitted: seq<AvatarEvent>)

  // ---------- operations as functions ----------

  function Frames(m: Manifest, s: AvatarState): (f: seq<FrameId>)
    requires Playable(m)
    ensures |f| >= 3
  {
    m.clips[s].frames
  }

  predicate InClip(m: Manifest, p: Player)
    requires Playable(m)
  {
    p.frameIndex < |Frames(m, p.playing)|
  }

  function Displayed(m: Manifest, p: Player): FrameId
    requires Playable(m) && InClip(m, p)
  {
    Frames(m, p.playing)[p.frameIndex]
  }

  function Selected(p: Player, s: AvatarState): (Player, bool) {
    if s in p.unavailable then (p, false)
    else if s == p.playing then (p.(pending := None), false)
    else (p.(pending := Some(s), emitted := p.emitted + [StateSelected(s)]), true)
  }

  function AtBoundary(p: Player): Player {
    p.(emitted := p.emitted + [LoopCompleted(p.playing)],
       playing := if p.pending.Some? then p.pending.value else p.playing,
       pending := None)
  }

  function Stepped(m: Manifest, p: Player): (Player, FrameId)
    requires Playable(m) && InClip(m, p)
  {
    var frames := Frames(m, p.playing);
    if p.paused then (p, Displayed(m, p))
    else if p.frameIndex + 1 >= |frames| - 1 then (AtBoundary(p).(frameIndex := 0), frames[|frames| - 1])
    else (p.(frameIndex := p.frameIndex + 1), frames[p.frameIndex + 1])
  }

  /** Whether a display tick at this time moves to the next frame. */
  predicate Due(m: Manifest, p: Player, timestamp: real)
    requires Playable(m)
  {
    !p.paused && p.lastAdvanceAt.Some? && timestamp - p.lastAdvanceAt.value >= 1000.0 / m.clips[p.playing].fps
  }

  function Advanced(m: Manifest, p: Player, timestamp: real): (Player, FrameId)
    requires Playable(m) && InClip(m, p)
  {
    if p.paused then (p, Displayed(m, p))
    else if p.lastAdvanceAt.None? then (p.(lastAdvanceAt := Some(timestamp)), Displayed(m, p))
    else if !Due(m, p, timestamp) then (p, Displayed(m, p))
    else Stepped(m, p.(lastAdvanceAt := Some(timestamp)))
  }

  /** The first position of a frame, or the length when it is absent. */
  function IndexOf(frames: seq<FrameId>, frame: FrameId): (i: nat)
    ensures i <= |frames|
    ensures i < |frames| ==> frames[i] == frame
    ensures forall j :: 0 <= j < i ==> frames[j] != frame
  {
    if frames == [] || frames[0] == frame then 0 else 1 + IndexOf(frames[1..], frame)
  }

  function Jumped(m: Manifest, p: Player, frame: FrameId, loopComplete: bool): Result<Player, JumpError>
    requires Playable(m)
  {
    var frames := Frames(m, p.playing);
    var i := if loopComplete then |frames| - 1 else IndexOf(frames, frame);
    if i == |frames| || frames[i] != frame then Failure(NotInClip)
    else if loopComplete && frame != m.transition then Failure(LoopEndsElsewhere)
    else if loopComplete then Success(AtBoundary(p).(frameIndex := 0))
    else Success(p.(frameIndex := i))
  }

  // ---------- the controllers ----------

  class EventBus {
    var emitted: seq<AvatarEvent>

    constructor ()
      ensures emitted == []
    {
      emitted := [];
    }

    method Emit(e: AvatarEvent)
      modifies this
      ensures emitted == old(emitted) + [e]
    {
      emitted := emitted + [e];
    }
  }

  class AvatarStateMachine {
    var playing: AvatarState
    var pending: Option<AvatarState>

    constructor (initial: AvatarState)
      ensures playing == initial && pending == None
    {
      playing, pending := initial, None;
    }

    method Select(s: AvatarState) returns (changed: bool)
      modifies this`pending
      ensures changed <==> s != playing
      ensures pending == if s == playing then None else Some(s)
    {
      if s == playing {
        pending := None;
        return false;
      }
      pending := Some(s);
      changed := true;
    }

    method CompleteLoop() returns (switched: bool)
      modifies this
      ensures pending == None && (switched <==> old(pending).Some?)
      ensures playing == if old(pending).Some? then old(pending).value else old(playing)
    {
      if pending.None? {
        return false;
      }
      playing := pending.value;
      pending := None;
      switched := true;
    }

    method ClearPending()
      modifies this`pending
      ensures pending == None
    {
      pending := None;
    }
  }

  class StateTransitionController {
    const machine: AvatarStateMachine
    const events: EventBus
    var unavailable: set<AvatarState>

    constructor (machine: AvatarStateMachine, events: EventBus)
      ensures this.machine == machine && this.events == events && unavailable == {}
    {
      this.machine, this.events, unavailable := machine, events, {};
    }

    method Select(s: AvatarState) returns (selected: bool)
      modifies machine`pending, events
      ensures selected <==> s !in unavailable && s != machine.playing
      ensures machine.pending == if s in unavailable then old(machine.pending)
                                 else if s == machine.playing then None
                                 else Some(s)
      ensures events.emitted == if selected then old(events.emitted) + [StateSelected(s)] else old(events.emitted)
    {
      if s in unavailable {
        return false;
      }
      selected := machine.Select(s);
      if selected {
        events.Emit(StateSelected(s));
      }
    }

    method OnLoopBoundary() returns (switched: bool)
      modifies machine, events
      ensures machine.pending == None && (switched <==> old(machine.pending).Some?)
      ensures machine.playing == if old(machine.pending).Some? then old(machine.pending).value else old(machine.playing)
      ensures events.emitted == old(events.emitted) + [LoopCompleted(old(machine.playing))]
    {
      events.Emit(LoopCompleted(machine.playing));
      switched := machine.CompleteLoop();
    }

    method SetAvailable(s: AvatarState, available: bool)
      modifies this`unavailable
      ensures unavailable == if available then old(unavailable) - {s} else old(unavailable) + {s}
    {
      if available {
        unavailable := unavailable - {s};
      } else {
        unavailable := unavailable + {s};
      }
    }
  }

  class ClipScheduler {
    const manifest: Manifest
    const events: EventBus
    const machine: AvatarStateMachine
    const transitions: StateTransitionController
    var frameIndex: nat
    var paused: bool
    var lastAdvanceAt: Option<real>

    ghost function View(): Player
      reads this, machine, transitions, events
    {
      Player(machine.playing, machine.pending, transitions.unavailable, frameIndex, paused, lastAdvanceAt,
        events.emitted)
    }

    ghost predicate Valid()
      reads this, machine, transitions, events
    {
      && transitions.machine == machine && transitions.events == events
      && Playable(manifest) && InClip(manifest, View())
    }

    constructor (manifest: Manifest, initial: AvatarState)
      requires Playable(manifest)
      ensures Valid() && this.manifest == manifest && fresh(machine) && fresh(transitions) && fresh(events)
      ensures View() == Player(initial, None, {}, 0, false, None, [])
    {
      this.manifest := manifest;
      var machine := new AvatarStateMachine(initial);
      var events := new EventBus();
      this.machine, this.events := machine, events;
      transitions := new StateTransitionController(machine, events);
      frameIndex, paused, lastAdvanceAt := 0, false, None;
    }

    method Select(s: AvatarState) returns (selected: bool)
      requires Valid()
      modifies machine`pending, events
      ensures Valid()
      ensures (View(), selected) == Selected(old(View()), s)
    {
      selected := transitions.Select(s);
    }

    method SetStateAvailable(s: AvatarState, available: bool)
      requires Valid()
      modifies transitions`unavailable
      ensures Valid()
      ensures View() == old(View()).(unavailable := if available then old(View()).unavailable - {s}
                                                    else old(View()).unavailable + {s})
    {
      transitions.SetAvailable(s, available);
    }

    method Pause()
      requires Valid()
      modifies this`paused
      ensures Valid() && View() == old(View()).(paused := true)
    {
      paused := true;
    }

    method Resume()
      requires Valid()
      modifies this`paused, this`lastAdvanceAt
      ensures Valid() && View() == old(View()).(paused := false, lastAdvanceAt := None)
    {
      paused := false;
      lastAdvanceAt := None;
    }

    method Restart()
      requires Valid()
      modifies this`frameIndex, this`lastAdvanceAt, machine`pending
      ensures Valid() && View() == old(View()).(frameIndex := 0, lastAdvanceAt := None, pending := None)
    {
      frameIndex := 0;
      lastAdvanceAt := None;
      machine.ClearPending();
    }

    method Step() returns (frame: FrameId)
      requires Valid()
      modifies this`frameIndex, machine, events
      ensures Valid()
      ensures (View(), frame) == Stepped(manifest, old(View()))
    {
      var frames := manifest.clips[machine.playing].frames;
      if paused {
        return frames[frameIndex];
      }
      frameIndex := frameIndex + 1;
      if frameIndex >= |frames| - 1 {
        frame := frames[|frames| - 1];
        var switched := transitions.OnLoopBoundary();
        frameIndex := 0;
        return;
      }
      frame := frames[frameIndex];
    }

    method Advance(timestamp: real) returns (frame: FrameId)
      requires Valid()
      modifies this`frameIndex, this`lastAdvanceAt, machine, events
      ensures Valid()
      ensures (View(), frame) == Advanced(manifest, old(View()), timestamp)
    {
      var clip := manifest.clips[machine.playing];
      if paused {
        return clip.frames[frameIndex];
      }
      if lastAdvanceAt.None? {
        lastAdvanceAt := Some(timestamp);
        return clip.frames[frameIndex];
      }
      var interval := 1000.0 / clip.fps;
      if timestamp - lastAdvanceAt.value < interval {
        return clip.frames[frameIndex];
      }
      lastAdvanceAt := Some(timestamp);
      frame := Step();
    }

    method AdvanceToFrame(frame: FrameId, loopComplete: bool) returns (r: Result<(), JumpError>)
      requires Valid()
      modifies this`frameIndex, machine, events
      ensures Valid()
      ensures match Jumped(manifest, old(View()), frame, loopComplete)
              case Success(p) => r == Success(()) && View() == p
              case Failure(e) => r == Failure(e) && View() == old(View())
    {
      var frames := manifest.clips[machine.playing].frames;
      var index := if loopComplete then |frames| - 1 else IndexOf(frames, frame);
      if index == |frames| || frames[index] != frame {
        return Failure(NotInClip);
      }
      if loopComplete && frame != manifest.transition {
        return Failure(LoopEndsElsewhere);
      }
      if loopComplete {
        var switched := transitions.OnLoopBoundary();
        frameIndex := 0;
      } else {
        frameIndex := index;
      }
      r := Success(());
    }
  }
}
