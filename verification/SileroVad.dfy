/** The voice-activity adapter that feeds a stateful model 512-sample windows. */
module SileroVad {
  import opened Wrappers
  import opened Blocks

  const WINDOW := 512

  /** A recurrent model: state and window in, state and voice probability out. */
  type Model<!M> = (M, seq<real>) -> (M, real)

  datatype VadError = MissingVadModel

  /** The model's state after a list of windows. */
  function StateAfter<M>(model: Model<M>, state: M, windows: seq<seq<real>>): M {
    if windows == [] then state
    else StateAfter(model, model(state, windows[0]).0, windows[1..])
  }

  /** The probability of the last window, or zero when there is none. */
  function LastProbability<M>(model: Model<M>, state: M, windows: seq<seq<real>>): real {
    if windows == [] then 0.0
    else
      var front := windows[..|windows| - 1];
      model(StateAfter(model, state, front), windows[|windows| - 1]).1
  }

  lemma {:induction false} StateAfterAppend<M>(model: Model<M>, state: M, a: seq<seq<real>>, b: seq<seq<real>>)
    ensures StateAfter(model, state, a + b) == StateAfter(model, StateAfter(model, state, a), b)
    decreases |a|
  {
    if a == [] {
      assert a + b == b;
    } else {
      assert (a + b)[1..] == a[1..] + b;
      StateAfterAppend(model, model(state, a[0]).0, a[1..], b);
    }
  }

  lemma NextWindow<M>(model: Model<M>, state: M, windows: seq<seq<real>>, window: seq<real>)
    ensures var result := model(StateAfter(model, state, windows), window);
            && StateAfter(model, state, windows + [window]) == result.0
            && LastProbability(model, state, windows + [window]) == result.1
  {
    StateAfterAppend(model, state, windows, [window]);
    assert (windows + [window])[..|windows|] == windows && [window][1..] == [];
  }

  function Decoded(payload: seq<int>): seq<real> {
    seq(|payload|, i requires 0 <= i < |payload| => payload[i] as real / 32768.0)
  }

  /** Decoding scales 16-bit samples to the range from minus one, which only the lowest reaches, to below one. */
  lemma DecodedFillsTheRange(payload: seq<int>, i: nat)
    requires i < |payload| && -32768 <= payload[i] <= 32767
    ensures |Decoded(payload)| == |payload|
    ensures -1.0 <= Decoded(payload)[i] < 1.0 && Decoded(payload)[i] * 32768.0 == payload[i] as real
    ensures Decoded(payload)[i] == -1.0 <==> payload[i] == -32768
  {
  }

  class SileroFrameVAD<M(!new)> {
    const initial: M
    const model: Option<Model<M>>
    var buffer: seq<real>
    var state: M

    ghost predicate Valid()
      reads this
    {
      |buffer| < WINDOW
    }

    constructor (model: Option<Model<M>>, initial: M)
      ensures Valid() && buffer == [] && state == initial
      ensures this.model == model && this.initial == initial
    {
      this.model, this.initial := model, initial;
      buffer, state := [], initial;
    }

    method Score(payload: seq<int>) returns (r: Result<real, VadError>)
      requires Valid()
      modifies this
      ensures Valid()
      ensures model.None? ==> r == Failure(MissingVadModel) && buffer == old(buffer) && state == old(state)
      ensures model.Some? ==>
        var windows := Chunks(old(buffer) + Decoded(payload), WINDOW);
        && r == Success(LastProbability(model.value, old(state), windows))
        && state == StateAfter(model.value, old(state), windows)
        && buffer == Remainder(old(buffer) + Decoded(payload), WINDOW)
    {
      if model.None? {
        return Failure(MissingVadModel);
      }
      buffer := buffer + Decoded(payload);
      var probability := 0.0;
      ghost var whole := buffer;
      ghost var windows: seq<seq<real>> := [];
      while |buffer| >= WINDOW
        invariant windows + Chunks(buffer, WINDOW) == Chunks(whole, WINDOW)
        invariant Remainder(buffer, WINDOW) == Remainder(whole, WINDOW)
        invariant state == StateAfter(model.value, old(state), windows)
        invariant probability == LastProbability(model.value, old(state), windows)
        decreases |buffer|
      {
        var window := buffer[..WINDOW];
        buffer := buffer[WINDOW..];
        NextWindow(model.value, old(state), windows, window);
        var result := model.value(state, window);
        state, probability := result.0, result.1;
        windows := windows + [window];
      }
      assert windows == Chunks(whole, WINDOW);
      r := Success(probability);
    }

    method Reset()
      modifies this
      ensures Valid() && buffer == [] && state == initial
    {
      buffer, state := [], initial;
    }
  }

  // ---------- runs of frames ----------

  /** The model's state after every call of a run that starts with `buffer`. */
  function RunState<M>(model: Model<M>, state: M, buffer: seq<real>, calls: seq<seq<real>>): M
    decreases |calls|
  {
    if calls == [] then state
    else RunState(model, StateAfter(model, state, Chunks(buffer + calls[0], WINDOW)),
                  Remainder(buffer + calls[0], WINDOW), calls[1..])
  }

  /** The model meets the windows of the whole stream, however the stream was framed. */
  lemma {:induction false} ModelSeesTheStream<M>(model: Model<M>, state: M, buffer: seq<real>, calls: seq<seq<real>>)
    requires |buffer| < WINDOW
    ensures RunState(model, state, buffer, calls) == StateAfter(model, state, Chunks(buffer + Flatten(calls), WINDOW))
    decreases |calls|
  {
    if calls == [] {
      assert buffer + Flatten(calls) == buffer;
    } else {
      var now, later := buffer + calls[0], Flatten(calls[1..]);
      assert buffer + Flatten(calls) == now + later;
      ChunksRebuild(now, WINDOW);
      ChunksAppend(now, later, WINDOW);
      StateAfterAppend(model, state, Chunks(now, WINDOW), Chunks(Remainder(now, WINDOW) + later, WINDOW));
      ModelSeesTheStream(model, StateAfter(model, state, Chunks(now, WINDOW)), Remainder(now, WINDOW), calls[1..]);
    }
  }

  const FRAME := 320

  /** A 20 ms frame completes a window, and only one, exactly when the buffer holds at least 192 samples. */
  lemma FrameCompletesWindowIff(buffer: seq<real>, frame: seq<real>)
    requires |buffer| < WINDOW && |frame| == FRAME
    ensures Chunks(buffer + frame, WINDOW) != [] <==> |buffer| >= WINDOW - FRAME
    ensures |Chunks(buffer + frame, WINDOW)| <= 1
    ensures |Remainder(buffer + frame, WINDOW)| == (|buffer| + FRAME) % WINDOW
  {
    var all := buffer + frame;
    if |buffer| >= WINDOW - FRAME {
      assert |all[WINDOW..]| < WINDOW;
      assert |Remainder(all, WINDOW)| == |all| - WINDOW;
    }
  }

  /** What the buffer holds after a run of 20 ms frames. */
  lemma {:induction false} BufferAfterFrames(buffer: seq<real>, frames: seq<seq<real>>)
    requires |buffer| < WINDOW && forall i :: 0 <= i < |frames| ==> |frames[i]| == FRAME
    ensures |Buffered(buffer, frames, WINDOW)| == (|buffer| + FRAME * |frames|) % WINDOW
    decreases |frames|
  {
    if frames != [] {
      FrameCompletesWindowIff(buffer, frames[0]);
      var rest := Remainder(buffer + frames[0], WINDOW);
      BufferAfterFrames(rest, frames[1..]);
      SumsAgree(|buffer|, |frames|);
    }
  }

  lemma SumsAgree(b: nat, n: nat)
    requires n > 0
    ensures ((b + FRAME) % WINDOW + FRAME * (n - 1)) % WINDOW == (b + FRAME * n) % WINDOW
  {
    var q := (b + FRAME) / WINDOW;
    var r := (b + FRAME) % WINDOW + FRAME * (n - 1);
    assert b + FRAME * n == q * WINDOW + r;
    ModuloAddsWholes(q, r);
  }

  lemma {:induction false} ModuloAddsWholes(q: nat, r: nat)
    ensures (q * WINDOW + r) % WINDOW == r % WINDOW
  {
    if q > 0 {
      ModuloAddsWholes(q - 1, r);
      assert q * WINDOW + r == ((q - 1) * WINDOW + r) + WINDOW;
    }
  }

  /** In a stream of 20 ms frames, the frame after `before` is scored by the model exactly when 320 times its index
      leaves at least 192. */
  lemma FrameIsScoredIff(before: seq<seq<real>>, frame: seq<real>)
    requires |frame| == FRAME && forall i :: 0 <= i < |before| ==> |before[i]| == FRAME
    ensures Chunks(Buffered([], before, WINDOW) + frame, WINDOW) != [] <==> FRAME * |before| % WINDOW >= WINDOW - FRAME
  {
    BufferAfterFrames([], before);
    FrameCompletesWindowIff(Buffered([], before, WINDOW), frame);
  }

  /** A frame that completes no window scores zero whatever the model says. */
  lemma UnscoredFrameIsSilent<M>(model: Model<M>, state: M, before: seq<seq<real>>, frame: seq<real>)
    requires |frame| == FRAME && forall i :: 0 <= i < |before| ==> |before[i]| == FRAME
    requires FRAME * |before| % WINDOW < WINDOW - FRAME
    ensures LastProbability(model, state, Chunks(Buffered([], before, WINDOW) + frame, WINDOW)) == 0.0
  {
    FrameIsScoredIff(before, frame);
  }

  /** So of any three consecutive frames, from any buffer, one scores zero whatever the model says. */
  lemma ThreeShortFramesLeaveAGap<M>(model: Model<M>, buffer: seq<real>, a: seq<real>, b: seq<real>, c: seq<real>,
                                     s0: M, s1: M, s2: M)
    requires |buffer| < WINDOW && |a| == |b| == |c| == FRAME
    ensures var ab := Remainder(buffer + a, WINDOW);
            var bc := Remainder(ab + b, WINDOW);
            || LastProbability(model, s0, Chunks(buffer + a, WINDOW)) == 0.0
            || LastProbability(model, s1, Chunks(ab + b, WINDOW)) == 0.0
            || LastProbability(model, s2, Chunks(bc + c, WINDOW)) == 0.0
  {
    var ab := Remainder(buffer + a, WINDOW);
    FrameCompletesWindowIff(buffer, a);
    FrameCompletesWindowIff(ab, b);
    FrameCompletesWindowIff(Remainder(ab + b, WINDOW), c);
  }
}
