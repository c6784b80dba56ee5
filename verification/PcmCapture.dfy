/** The audio worklet that cuts microphone input into 20 ms chunks of 320 PCM samples. */
module PcmCapture {
  import opened Wrappers
  import opened Blocks

  datatype Message = Envelope(peaks: seq<real>) | Pcm(samples: seq<int>)

  function Abs(x: real): real {
    if x < 0.0 then -x else x
  }

  function MaxReal(x: real, y: real): real {
    if x >= y then x else y
  }

  function Clamp(x: real): real {
    if x < -1.0 then -1.0 else if x > 1.0 then 1.0 else x
  }

  /** Rounding toward zero. */
  function Truncate(x: real): int {
    if x < 0.0 then -((-x).Floor) else x.Floor
  }

  /** Storing a number in a 16-bit integer array: truncate, then wrap. */
  function ToInt16(x: real): int {
    (Truncate(x) + 32768) % 65536 - 32768
  }

  function Quantise(sample: real): int {
    ToInt16(if sample < 0.0 then sample * 32768.0 else sample * 32767.0)
  }

  /** The source sample behind output sample `index` of 320. */
  function SourceIndex(index: nat, length: nat): nat
    requires length > 0
  {
    var scaled := index * length / 320;
    if scaled < length - 1 then scaled else length - 1
  }

  /** Clamped samples never wrap: the 16-bit value is the truncated product, within range. */
  lemma QuantiseNeverWraps(sample: real)
    requires -1.0 <= sample <= 1.0
    ensures Quantise(sample) == Truncate(if sample < 0.0 then sample * 32768.0 else sample * 32767.0)
    ensures -32768 <= Quantise(sample) <= 32767
    ensures sample <= 0.0 ==> Quantise(sample) <= 0
    ensures sample >= 0.0 ==> Quantise(sample) >= 0
  {
    var product := if sample < 0.0 then sample * 32768.0 else sample * 32767.0;
    assert -32768.0 <= product <= 32767.0;
    var t := Truncate(product);
    assert -32768 <= t <= 32767;
  }

  /** Clamping moves a sample to the nearest value between minus one and one, and only when it lies outside. */
  lemma ClampIsNearest(x: real, y: real)
    requires -1.0 <= y <= 1.0
    ensures -1.0 <= Clamp(x) <= 1.0 && Abs(x - Clamp(x)) <= Abs(x - y)
    ensures Clamp(x) == x <==> -1.0 <= x <= 1.0
  {
  }

  /** The amplitude is the distance from zero. */
  lemma AbsIsAmplitude(x: real)
    ensures Abs(x) >= 0.0 && Abs(-x) == Abs(x) && -Abs(x) <= x <= Abs(x)
    ensures Abs(x) == x || Abs(x) == -x
  {
  }

  /** Truncation drops the fraction, whatever the sign. */
  lemma TruncateDropsTheFraction(x: real)
    ensures Truncate(-x) == -Truncate(x)
    ensures x >= 0.0 ==> 0 <= Truncate(x) && Truncate(x) as real <= x < Truncate(x) as real + 1.0
  {
  }

  /** Output sample `index` takes the source sample at its own place in the chunk, which is never past the end. */
  lemma SourceIsInPlace(index: nat, length: nat)
    requires index < 320 && length > 0
    ensures var s := SourceIndex(index, length); s < length && 320 * s <= index * length < 320 * (s + 1)
  {
    var q := index * length / 320;
    assert index * length < 320 * length;
    assert 320 * q <= index * length < 320 * (q + 1);
    assert q < length;
  }

  // ---------- one chunk ----------

  function Resampled(chunk: seq<real>, index: nat): real
    requires chunk != []
  {
    Clamp(chunk[SourceIndex(index, |chunk|)])
  }

  function Amplitudes(chunk: seq<real>): (amplitudes: seq<real>)
    requires chunk != []
    ensures |amplitudes| == 320
  {
    seq(320, i requires 0 <= i < 320 => Abs(Resampled(chunk, i)))
  }

  /** The loudest of the ten amplitudes of a bucket. */
  ghost predicate IsPeak(amplitudes: seq<real>, bucket: nat, peak: real)
    requires |amplitudes| == 320 && bucket < 32
  {
    var ten := amplitudes[10 * bucket..10 * bucket + 10];
    peak in ten && forall a :: a in ten ==> a <= peak
  }

  /** The envelope and the samples posted for one chunk. */
  ghost predicate Encodes(chunk: seq<real>, envelope: Message, pcm: Message)
    requires chunk != []
  {
    && envelope.Envelope? && |envelope.peaks| == 32
    && (forall b: nat :: b < 32 ==> IsPeak(Amplitudes(chunk), b, envelope.peaks[b]))
    && pcm.Pcm? && |pcm.samples| == 320
    && (forall i: nat :: i < 320 ==> pcm.samples[i] == Quantise(Resampled(chunk, i)))
  }

  /** One bucket after the first `n` samples; an untouched bucket still holds zero. */
  ghost predicate BucketSoFar(amplitudes: seq<real>, b: nat, peak: real, n: nat)
    requires |amplitudes| == 320 && b < 32
  {
    && (forall i :: 10 * b <= i < 10 * b + 10 && i < n ==> amplitudes[i] <= peak)
    && (if n <= 10 * b then peak == 0.0 else peak in amplitudes[10 * b..10 * b + 10])
  }

  ghost predicate PeaksSoFar(amplitudes: seq<real>, envelope: seq<real>, n: nat)
    requires |amplitudes| == 320 && |envelope| == 32
  {
    forall b: nat :: b < 32 ==> BucketSoFar(amplitudes, b, envelope[b], n)
  }

  lemma BucketNext(amplitudes: seq<real>, b: nat, peak: real, n: nat)
    requires |amplitudes| == 320 && b < 32 && 10 * b <= n < 10 * b + 10 && amplitudes[n] >= 0.0
    requires BucketSoFar(amplitudes, b, peak, n)
    ensures BucketSoFar(amplitudes, b, MaxReal(peak, amplitudes[n]), n + 1)
  {
    assert amplitudes[10 * b..10 * b + 10][n - 10 * b] == amplitudes[n];
  }

  lemma BucketStays(amplitudes: seq<real>, b: nat, peak: real, n: nat)
    requires |amplitudes| == 320 && b < 32 && (n < 10 * b || 10 * b + 10 <= n)
    requires BucketSoFar(amplitudes, b, peak, n)
    ensures BucketSoFar(amplitudes, b, peak, n + 1)
  {
  }

  lemma PeaksNext(amplitudes: seq<real>, envelope: seq<real>, n: nat, c: nat)
    requires |amplitudes| == 320 && |envelope| == 32 && n < 320 && amplitudes[n] >= 0.0
    requires c < 32 && 10 * c <= n < 10 * c + 10
    requires PeaksSoFar(amplitudes, envelope, n)
    ensures PeaksSoFar(amplitudes, envelope[c := MaxReal(envelope[c], amplitudes[n])], n + 1)
  {
    var envelope' := envelope[c := MaxReal(envelope[c], amplitudes[n])];
    forall b: nat | b < 32
      ensures BucketSoFar(amplitudes, b, envelope'[b], n + 1)
    {
      if b == c {
        BucketNext(amplitudes, c, envelope[c], n);
      } else {
        BucketStays(amplitudes, b, envelope[b], n);
      }
    }
  }

  lemma PeaksDone(amplitudes: seq<real>, envelope: seq<real>)
    requires |amplitudes| == 320 && |envelope| == 32 && PeaksSoFar(amplitudes, envelope, 320)
    ensures forall b: nat :: b < 32 ==> IsPeak(amplitudes, b, envelope[b])
  {
    forall b: nat | b < 32
      ensures IsPeak(amplitudes, b, envelope[b])
    {
      assert BucketSoFar(amplitudes, b, envelope[b], 320);
      var ten := amplitudes[10 * b..10 * b + 10];
      forall k | 0 <= k < 10
        ensures ten[k] <= envelope[b]
      {
        assert ten[k] == amplitudes[10 * b + k];
      }
    }
  }

  ghost predicate SampledSoFar(chunk: seq<real>, samples: seq<int>, n: nat)
    requires chunk != []
  {
    |samples| == 320 && forall i: nat :: i < n && i < 320 ==> samples[i] == Quantise(Resampled(chunk, i))
  }

  lemma SampledNext(chunk: seq<real>, samples: seq<int>, n: nat)
    requires chunk != [] && n < 320 && SampledSoFar(chunk, samples, n)
    ensures SampledSoFar(chunk, samples[n := Quantise(Resampled(chunk, n))], n + 1)
  {
  }

  method Encode(chunk: seq<real>) returns (envelope: Message, pcm: Message)
    requires chunk != []
    ensures Encodes(chunk, envelope, pcm)
  {
    var samples := new int[320](i => 0);
    var peaks := new real[32](i => 0.0);
    ghost var amplitudes := Amplitudes(chunk);
    assert PeaksSoFar(amplitudes, peaks[..], 0);
    for index := 0 to 320
      invariant SampledSoFar(chunk, samples[..], index)
      invariant PeaksSoFar(amplitudes, peaks[..], index)
    {
      var sample := Resampled(chunk, index);
      assert amplitudes[index] == Abs(sample);
      var bucket := if index / 10 < 31 then index / 10 else 31;
      PeaksNext(amplitudes, peaks[..], index, bucket);
      SampledNext(chunk, samples[..], index);
      RecordSample(samples, peaks, index, bucket, sample);
    }
    PeaksDone(amplitudes, peaks[..]);
    envelope, pcm := Envelope(peaks[..]), Pcm(samples[..]);
  }

  method RecordSample(samples: array<int>, peaks: array<real>, index: nat, bucket: nat, sample: real)
    requires index < samples.Length && bucket < peaks.Length
    modifies samples, peaks
    ensures samples[..] == old(samples[..])[index := Quantise(sample)]
    ensures peaks[..] == old(peaks[..])[bucket := MaxReal(old(peaks[bucket]), Abs(sample))]
  {
    samples[index] := Quantise(sample);
    peaks[bucket] := MaxReal(peaks[bucket], Abs(sample));
  }

  // ---------- the processor ----------

  /** One envelope and one PCM message per chunk, in order. */
  ghost predicate PostedFor(messages: seq<Message>, chunks: seq<seq<real>>) {
    && |messages| == 2 * |chunks|
    && forall i: nat :: i < |chunks| ==> chunks[i] != [] && Encodes(chunks[i], messages[2 * i], messages[2 * i + 1])
  }

  class PcmCaptureProcessor {
    const sampleRate: nat
    var buffer: seq<real>

    /** 20 ms of source samples, rounded to the nearest whole number. */
    function SourceSamples(): (n: nat)
      ensures -25 < 50 * n - sampleRate <= 25
    {
      (sampleRate + 25) / 50
    }

    ghost predicate Valid()
      reads this
    {
      SourceSamples() > 0 && |buffer| < SourceSamples()
    }

    constructor (rate: nat)
      requires rate >= 25
      ensures Valid() && sampleRate == rate && buffer == []
    {
      sampleRate := rate;
      buffer := [];
    }

    /** `None` is a missing channel; it and an empty channel change nothing. */
    method Process(input: Option<seq<real>>) returns (messages: seq<Message>)
      requires Valid()
      modifies this
      ensures Valid()
      ensures var samples := if input.Some? then input.value else [];
              && buffer == Remainder(old(buffer) + samples, SourceSamples())
              && PostedFor(messages, Chunks(old(buffer) + samples, SourceSamples()))
    {
      messages := [];
      if input.None? || input.value == [] {
        assert old(buffer) + [] == buffer;
        return;
      }
      buffer := buffer + input.value;
      ghost var whole, n := buffer, SourceSamples();
      ghost var chunks: seq<seq<real>> := [];
      while |buffer| >= SourceSamples()
        invariant chunks + Chunks(buffer, n) == Chunks(whole, n)
        invariant Remainder(buffer, n) == Remainder(whole, n)
        invariant PostedFor(messages, chunks)
        decreases |buffer|
      {
        var chunk := buffer[..SourceSamples()];
        buffer := buffer[SourceSamples()..];
        var envelope, pcm := Encode(chunk);
        messages := messages + [envelope, pcm];
        chunks := chunks + [chunk];
      }
      assert chunks == Chunks(whole, n);
    }
  }
}
