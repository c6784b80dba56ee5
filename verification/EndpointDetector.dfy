/** The state machine that turns voice-activity frames into utterances. */
module EndpointDetector {
  import opened Wrappers
  import opened Blocks

  type Byte = n: nat | n < 256
  type Frame = seq<Byte>

  datatype Config = Config(
    frameMs: int,
    preRollMs: int,
    minSpeechMs: int,
    endpointMs: int,
    hardEndpointMs: int,
    maxUtteranceMs: int
  ) {
    /** What the configuration's own validation accepts. */
    predicate Valid() {
      && frameMs > 0 && preRollMs >= 0 && minSpeechMs > 0
      && 0 < endpointMs < hardEndpointMs
      && maxUtteranceMs > 0
    }

    /** Milliseconds in whole frames, rounded up. */
    function FramesFor(ms: nat): nat
      requires frameMs > 0
    {
      (ms + frameMs - 1) / frameMs
    }
  }

  datatype Kind = SpeechStarted | EndpointCandidate | EndpointCancelled | UtteranceFinal

  datatype Action = Action(kind: Kind, id: nat, pcm: seq<Byte>, silenceMs: int)

  /** The detector's fields. Utterance ids come from a counter. */
  datatype Detector = Detector(
    preRoll: seq<Frame>,
    speechMs: int,
    id: Option<nat>,
    pcm: seq<Frame>,
    durationMs: int,
    silenceMs: int,
    candidate: bool,
    extended: bool,
    nextId: nat
  ) {
    function Act(kind: Kind): Action
      requires id.Some?
    {
      Action(kind, id.value, Flatten(pcm), silenceMs)
    }

    function Idle(): Detector {
      this.(speechMs := 0, id := None, pcm := [], durationMs := 0, silenceMs := 0, candidate := false,
        extended := false)
    }
  }

  function Fresh(nextId: nat): Detector {
    Detector([], 0, None, [], 0, 0, false, false, nextId)
  }

  /** A bounded queue that drops its oldest entry. */
  function Pushed(queue: seq<Frame>, limit: nat, frame: Frame): seq<Frame> {
    var longer := queue + [frame];
    if |longer| > limit then longer[|longer| - limit..] else longer
  }

  function Finish(d: Detector, before: seq<Action>): (Detector, seq<Action>)
    requires d.id.Some?
  {
    (d.Idle(), before + [d.Act(UtteranceFinal)])
  }

  function FinishIfLong(c: Config, d: Detector, before: seq<Action>): (Detector, seq<Action>)
    requires d.id.Some?
  {
    if d.durationMs >= c.maxUtteranceMs then Finish(d, before) else (d, before)
  }

  function AcceptPreRoll(c: Config, d: Detector, frame: Frame, voiced: bool): (Detector, seq<Action>)
    requires c.Valid()
  {
    var d1 := d.(preRoll := Pushed(d.preRoll, c.FramesFor(c.preRollMs), frame),
                 speechMs := if voiced then d.speechMs + c.frameMs else 0);
    if d1.speechMs < c.minSpeechMs then (d1, [])
    else
      var d2 := d1.(id := Some(d.nextId), nextId := d.nextId + 1, pcm := d1.preRoll, preRoll := [],
                    durationMs := |d1.preRoll| * c.frameMs, silenceMs := 0, candidate := false, extended := false);
      FinishIfLong(c, d2, [d2.Act(SpeechStarted)])
  }

  function AcceptActive(c: Config, d: Detector, frame: Frame, voiced: bool): (Detector, seq<Action>)
    requires c.Valid() && d.id.Some?
  {
    var d1 := d.(pcm := d.pcm + [frame], durationMs := d.durationMs + c.frameMs);
    if voiced then
      var d2 := d1.(silenceMs := 0);
      if d2.candidate then
        var d3 := d2.(candidate := false, extended := false);
        FinishIfLong(c, d3, [d3.Act(EndpointCancelled)])
      else FinishIfLong(c, d2, [])
    else
      var d2 := d1.(silenceMs := d1.silenceMs + c.frameMs);
      var opens := !d2.candidate && d2.silenceMs >= c.endpointMs;
      var d3 := if opens then d2.(candidate := true) else d2;
      var actions := if opens then [d3.Act(EndpointCandidate)] else [];
      if d3.candidate && d3.silenceMs >= c.hardEndpointMs then Finish(d3, actions)
      else FinishIfLong(c, d3, actions)
  }

  function Accept(c: Config, d: Detector, frame: Frame, voiced: bool): (Detector, seq<Action>)
    requires c.Valid()
  {
    if d.id.None? then AcceptPreRoll(c, d, frame, voiced) else AcceptActive(c, d, frame, voiced)
  }

  // ---------- the class ----------

  class UtteranceDetector {
    const config: Config
    const preRollFrames: nat
    var preRoll: seq<Frame>
    var speechMs: int
    var id: Option<nat>
    var pcm: seq<Frame>
    var durationMs: int
    var silenceMs: int
    var candidate: bool
    var extended: bool
    var nextId: nat

    function View(): Detector
      reads this
    {
      Detector(preRoll, speechMs, id, pcm, durationMs, silenceMs, candidate, extended, nextId)
    }

    ghost predicate Valid() {
      config.Valid() && preRollFrames == config.FramesFor(config.preRollMs)
    }

    constructor (config: Config, firstId: nat)
      requires config.Valid()
      ensures Valid() && this.config == config && View() == Fresh(firstId)
    {
      this.config := config;
      preRollFrames := config.FramesFor(config.preRollMs);
      preRoll, speechMs, id, pcm := [], 0, None, [];
      durationMs, silenceMs, candidate, extended, nextId := 0, 0, false, false, firstId;
    }

    method AcceptFrame(frame: Frame, voiced: bool) returns (actions: seq<Action>)
      requires Valid()
      modifies this
      ensures (View(), actions) == Accept(config, old(View()), frame, voiced)
    {
      if id.None? {
        actions := AcceptBeforeSpeech(frame, voiced);
        return;
      }
      pcm := pcm + [frame];
      durationMs := durationMs + config.frameMs;
      actions := [];
      if voiced {
        silenceMs := 0;
        if candidate {
          candidate := false;
          extended := false;
          actions := [View().Act(EndpointCancelled)];
        }
      } else {
        silenceMs := silenceMs + config.frameMs;
        if !candidate && silenceMs >= config.endpointMs {
          candidate := true;
          actions := [View().Act(EndpointCandidate)];
        }
        if candidate && silenceMs >= config.hardEndpointMs {
          var final := FinishUtterance();
          actions := actions + [final];
          return;
        }
      }
      if durationMs >= config.maxUtteranceMs {
        var final := FinishUtterance();
        actions := actions + [final];
      }
    }

    method AcceptBeforeSpeech(frame: Frame, voiced: bool) returns (actions: seq<Action>)
      requires Valid() && id.None?
      modifies this
      ensures (View(), actions) == AcceptPreRoll(config, old(View()), frame, voiced)
    {
      preRoll := preRoll + [frame];
      if |preRoll| > preRollFrames {
        preRoll := preRoll[|preRoll| - preRollFrames..];
      }
      if voiced {
        speechMs := speechMs + config.frameMs;
      } else {
        speechMs := 0;
      }
      if speechMs < config.minSpeechMs {
        return [];
      }
      id, nextId := Some(nextId), nextId + 1;
      pcm := preRoll;
      durationMs := |pcm| * config.frameMs;
      silenceMs, candidate, extended := 0, false, false;
      preRoll := [];
      actions := [View().Act(SpeechStarted)];
      if durationMs >= config.maxUtteranceMs {
        var final := FinishUtterance();
        actions := actions + [final];
      }
    }

    method ExtendEndpoint() returns (granted: bool)
      modifies this
      ensures granted == old(candidate)
      ensures View() == old(View()).(extended := old(extended) || granted)
    {
      if !candidate {
        return false;
      }
      extended := true;
      return true;
    }

    method FinalizeCandidate() returns (action: Option<Action>)
      requires candidate ==> id.Some?
      modifies this
      ensures !old(candidate) ==> action == None && View() == old(View())
      ensures old(candidate) ==> action == Some(old(View()).Act(UtteranceFinal)) && View() == old(View()).Idle()
    {
      if !candidate {
        return None;
      }
      var final := FinishUtterance();
      return Some(final);
    }

    method Reset()
      modifies this
      ensures View() == Fresh(old(nextId))
    {
      preRoll := [];
      ClearActive();
    }

    method FinishUtterance() returns (action: Action)
      requires id.Some?
      modifies this
      ensures action == old(View()).Act(UtteranceFinal) && View() == old(View()).Idle()
    {
      action := View().Act(UtteranceFinal);
      ClearActive();
    }

    method ClearActive()
      modifies this
      ensures View() == old(View()).Idle()
    {
      speechMs, id, pcm := 0, None, [];
      durationMs, silenceMs, candidate, extended := 0, 0, false, false;
    }
  }
}
