/** `SoundRenderer::RenderAmplitudesToFrequencyWithConstantTimeSteps`
    (src/SoundRenderer.cpp:109-197): turns one channel's distance histogram
    into one channel of an interleaved stereo buffer.  Bucket `i` owns an
    integer window of frames; in it the tone has a constant, clipped
    amplitude computed from the bucket's count. */
module Synthesizer {
  import opened Defaults
  import opened Numerics
  import opened Channels

  /** The 60-phon equal-loudness contour (src/SoundRenderer.cpp:20-54):
      frequency in Hz and sound-pressure level in dB SPL. */
  const EQUAL_LOUDNESS_N: nat := 31
  const EQUAL_LOUDNESS_NOMINAL: real := 60.01
  const EQUAL_LOUDNESS_FREQUENCY: seq<real> := [
    20.0, 25.0, 31.5, 40.0, 50.0, 63.0, 80.0, 100.0, 125.0, 160.0,
    200.0, 250.0, 315.0, 400.0, 500.0, 630.0, 800.0, 1000.0, 1250.0, 1600.0,
    2000.0, 2500.0, 3150.0, 4000.0, 5000.0, 6300.0, 8000.0, 10000.0, 12500.0, 16000.0,
    20000.0]
  const EQUAL_LOUDNESS_SPL: seq<real> := [
    109.51, 104.23, 99.08, 94.18, 89.96, 85.94, 82.05, 78.65, 75.56, 72.47,
    69.86, 67.53, 65.39, 63.45, 62.05, 60.81, 59.89, 60.01, 62.15, 63.19,
    59.96, 57.26, 56.42, 57.57, 60.89, 66.36, 71.66, 73.16, 68.63, 68.43,
    104.92]

  /** The arguments of one call, other than the histogram and the buffers. */
  datatype SynthParams = SynthParams(
    divisor: nat,          // loudness_max_expected_value
    maxTime: real,         // loudness_max_time, in seconds
    soundN: nat,           // sound_n_samples, in stereo frames
    channel: nat,          // sound_channel
    baseFrequency: real,
    maxAmplitude: int,
    setNotAdd: bool,
    doublingTime: real,    // frequency_doubling_time, in seconds
    background: real)      // background_amplitude

  /** A zero divisor is left out (its floating-point result is infinite);
      a negative end time or a channel other than 0 and 1 would index
      outside the buffer. */
  predicate ValidParams(p: SynthParams) {
    0 < p.divisor && 0.0 <= p.maxTime && p.channel < 2 && 0 < p.maxAmplitude
  }

  // ---------------------------------------------------------------------
  // Frame windows

  lemma NonNegQuotient(a: real, b: real, c: real)
    requires 0.0 <= a && 0.0 <= b && 0.0 < c
    ensures 0.0 <= a * b / c
  {
    assert 0.0 <= a * b;
  }

  /** `i * SAMPLE_RATE * loudness_max_time / loudness_n_steps`, in seconds times frames per second. */
  function BoundaryTime(i: nat, n: nat, maxTime: real): (x: real)
    requires 0 < n && 0.0 <= maxTime
    ensures 0.0 <= x
  {
    NonNegQuotient((i * SAMPLE_RATE) as real, maxTime, n as real);
    (i * SAMPLE_RATE) as real * maxTime / n as real
  }

  /** `(unsigned int)(i * SAMPLE_RATE * loudness_max_time / loudness_n_steps)`:
      the first frame of bucket `i`, and the unclamped end of bucket `i - 1`. */
  function FrameBoundary(i: nat, n: nat, maxTime: real): nat
    requires 0 < n && 0.0 <= maxTime
  {
    Trunc(BoundaryTime(i, n, maxTime))
  }

  lemma DivMonotone(u: real, v: real, c: real)
    requires u <= v && 0.0 < c
    ensures u / c <= v / c
  {
    assert (v - u) / c >= 0.0;
    assert v / c - u / c == (v - u) / c;
  }

  lemma MulMonotone(u: real, v: real, c: real)
    requires u <= v && 0.0 <= c
    ensures u * c <= v * c
  {
    assert (v - u) * c >= 0.0;
  }

  lemma {:induction false} FrameBoundaryMonotone(i: nat, i': nat, n: nat, maxTime: real)
    requires 0 < n && 0.0 <= maxTime && i <= i'
    ensures FrameBoundary(i, n, maxTime) <= FrameBoundary(i', n, maxTime)
  {
    var a := (i * SAMPLE_RATE) as real;
    var a' := (i' * SAMPLE_RATE) as real;
    MulMonotone(a, a', maxTime);
    DivMonotone(a * maxTime, a' * maxTime, n as real);
    assert BoundaryTime(i, n, maxTime) <= BoundaryTime(i', n, maxTime);
  }

  lemma CancelFactor(c: real, y: real)
    requires 0.0 < c
    ensures c * y / c == y
  {
  }

  /** The first window starts at frame 0 and the last one ends at
      `(unsigned)(SAMPLE_RATE * loudness_max_time)`. */
  lemma {:induction false} FrameBoundaryEnds(n: nat, maxTime: real)
    requires 0 < n && 0.0 <= maxTime
    ensures FrameBoundary(0, n, maxTime) == 0
    ensures FrameBoundary(n, n, maxTime) == Trunc(SAMPLE_RATE as real * maxTime)
  {
    var y := SAMPLE_RATE as real * maxTime;
    assert (n * SAMPLE_RATE) as real * maxTime == n as real * y;
    CancelFactor(n as real, y);
    assert BoundaryTime(n, n, maxTime) == y;
  }

  /** The frames bucket `i` writes: `[sound_j0, sound_j1)`. */
  function WindowStart(i: nat, n: nat, p: SynthParams): nat
    requires 0 < n && 0.0 <= p.maxTime
  {
    FrameBoundary(i, n, p.maxTime)
  }

  function WindowEnd(i: nat, n: nat, p: SynthParams): nat
    requires 0 < n && 0.0 <= p.maxTime
  {
    var j1 := FrameBoundary(i + 1, n, p.maxTime);
    if j1 < p.soundN then j1 else p.soundN
  }

  /** Windows of distinct buckets are disjoint, in bucket order, and
      consecutive: each window starts where the previous one would end before
      clamping; every window lies below `sound_n_samples`. */
  lemma {:induction false} WindowsDisjoint(i: nat, i': nat, n: nat, p: SynthParams)
    requires 0 < n && 0.0 <= p.maxTime && i < i'
    ensures WindowEnd(i, n, p) <= WindowStart(i', n, p)
    ensures WindowEnd(i, n, p) <= p.soundN
    ensures i' == i + 1 && WindowStart(i', n, p) < p.soundN ==> WindowEnd(i, n, p) == WindowStart(i', n, p)
  {
    FrameBoundaryMonotone(i + 1, i', n, p.maxTime);
  }

  /** The number of frames of the channel the call writes, counted from 0. */
  function Covered(n: nat, p: SynthParams): nat
    requires 0.0 <= p.maxTime
  {
    if n == 0 then 0
    else
      var e := FrameBoundary(n, n, p.maxTime);
      if e < p.soundN then e else p.soundN
  }

  /** The frames written by the first `i` buckets. */
  function Done(i: nat, n: nat, p: SynthParams): nat
    requires 0.0 <= p.maxTime
  {
    if n == 0 then 0
    else
      var e := FrameBoundary(i, n, p.maxTime);
      if e < p.soundN then e else p.soundN
  }

  lemma {:induction false} DoneMonotone(i: nat, i': nat, n: nat, p: SynthParams)
    requires 0.0 <= p.maxTime && i <= i' <= n
    ensures Done(i, n, p) <= Done(i', n, p) <= Covered(n, p)
  {
    if 0 < n {
      FrameBoundaryMonotone(i, i', n, p.maxTime);
      FrameBoundaryMonotone(i', n, n, p.maxTime);
    }
  }

  /** No frame is written before the first bucket, and the last one ends the
      covered range. */
  lemma DoneEnds(n: nat, p: SynthParams)
    requires 0.0 <= p.maxTime
    ensures Done(0, n, p) == 0 && Done(n, n, p) == Covered(n, p)
  {
    if 0 < n {
      FrameBoundaryEnds(n, p.maxTime);
    }
  }

  function FindBucket(f: nat, i: nat, n: nat, maxTime: real): (b: nat)
    requires 0 < n && 0.0 <= maxTime && i < n
    requires FrameBoundary(i, n, maxTime) <= f < FrameBoundary(n, n, maxTime)
    ensures i <= b < n
    ensures FrameBoundary(b, n, maxTime) <= f < FrameBoundary(b + 1, n, maxTime)
    decreases n - i
  {
    if f < FrameBoundary(i + 1, n, maxTime) then i else FindBucket(f, i + 1, n, maxTime)
  }

  /** The bucket whose window holds frame `f`. */
  function BucketOf(f: nat, n: nat, maxTime: real): (b: nat)
    requires 0 < n && 0.0 <= maxTime && f < FrameBoundary(n, n, maxTime)
    ensures b < n
    ensures FrameBoundary(b, n, maxTime) <= f < FrameBoundary(b + 1, n, maxTime)
  {
    FrameBoundaryEnds(n, maxTime);
    FindBucket(f, 0, n, maxTime)
  }

  /** A frame lies in exactly one window: the one `BucketOf` names. */
  lemma {:induction false} BucketOfUnique(f: nat, i: nat, n: nat, maxTime: real)
    requires 0 < n && 0.0 <= maxTime && i < n
    requires FrameBoundary(i, n, maxTime) <= f < FrameBoundary(i + 1, n, maxTime)
    ensures f < FrameBoundary(n, n, maxTime)
    ensures BucketOf(f, n, maxTime) == i
  {
    FrameBoundaryMonotone(i + 1, n, n, maxTime);
    var b := BucketOf(f, n, maxTime);
    if b < i {
      FrameBoundaryMonotone(b + 1, i, n, maxTime);
    } else if b > i {
      FrameBoundaryMonotone(i + 1, b, n, maxTime);
    }
  }

  // ---------------------------------------------------------------------
  // Amplitude

  /** `loudness_values[i] / loudness_max_expected_value + background_amplitude`. */
  function Loudness(count: nat, p: SynthParams): real
    requires 0 < p.divisor
  {
    count as real / p.divisor as real + p.background
  }

  /** The clipped amplitude of a bucket with `count` points
      (src/SoundRenderer.cpp:172-183).  A negative loudness (possible only
      with a negative background amplitude) makes `pow` return NaN, the
      comparison with `max_amplitude` is then false and the clip selects
      `max_amplitude`. */
  function Amplitude(m: MathLib, count: nat, p: SynthParams): (a: int)
    requires LogsPositive(m) && PowSigned(m) && ValidParams(p)
    ensures 0 <= a <= p.maxAmplitude
    ensures Loudness(count, p) < 0.0 ==> a == p.maxAmplitude
  {
    var loudness := Loudness(count, p);
    if loudness < 0.0 then p.maxAmplitude
    else
      var kL := m.log(10.0) / (2.0 * m.log(2.0));
      var kA0L0 := p.maxAmplitude as real / m.pow(1.0, kL);
      var amplitudeF := kA0L0 * m.pow(loudness, kL);
      assert 0.0 <= amplitudeF by {
        assert 0.0 < kA0L0 && 0.0 <= m.pow(loudness, kL);
      }
      if amplitudeF < p.maxAmplitude as real then Trunc(amplitudeF) else p.maxAmplitude
  }

  // ---------------------------------------------------------------------
  // Samples

  /** `f_phase`, chosen once per call: an exponential chirp
      when the doubling time is positive, a linear phase otherwise. */
  function PhaseFunction(m: MathLib, p: SynthParams): real -> real
    requires LogsPositive(m)
  {
    if 0.0 < p.doublingTime then
      (t: real) => p.baseFrequency * p.doublingTime / m.log(2.0) * (m.exp(m.log(2.0) * t / p.doublingTime) - 1.0)
    else
      (t: real) => p.baseFrequency * t
  }

  /** `sin(2*M_PI*f_phase(t))` at the time `t` of frame `f`; it depends on
      the absolute frame index only. */
  function Tone(m: MathLib, p: SynthParams, f: nat): real
    requires LogsPositive(m)
  {
    var t := f as real / SAMPLE_RATE as real;
    m.sin(2.0 * PI * PhaseFunction(m, p)(t))
  }

  lemma ScaledSineBound(a: real, x: real)
    requires 0.0 <= a && -1.0 <= x <= 1.0
    ensures -a <= a * x <= a
  {
    assert 0.0 <= a * (1.0 - x) && 0.0 <= a * (1.0 + x);
  }

  /** `this_amplitude * sin(2*M_PI*phase)`: the tone of frame `f` scaled by
      the bucket amplitude, never larger in magnitude than the amplitude. */
  function ToneSample(m: MathLib, p: SynthParams, amplitude: nat, f: nat): real
    requires LogsPositive(m)
  {
    amplitude as real * Tone(m, p, f)
  }

  /** A tone sample never exceeds its amplitude in magnitude. */
  lemma ToneSampleBound(m: MathLib, p: SynthParams, amplitude: nat, f: nat)
    requires LogsPositive(m) && SineBounded(m)
    ensures -(amplitude as real) <= ToneSample(m, p, amplitude, f) <= amplitude as real
  {
    var a, x := amplitude as real, Tone(m, p, f);
    assert -1.0 <= x <= 1.0;
    ScaledSineBound(a, x);
    assert ToneSample(m, p, amplitude, f) == a * x;
  }

  // ---------------------------------------------------------------------
  // The whole call, as a function of the old buffer contents

  /** The signed value the call computes for frame `f` of the channel: the
      tone of the frame scaled by the amplitude of the bucket owning it. */
  function FrameSample(m: MathLib, p: SynthParams, loudness: seq<nat>, f: nat): real
    requires LogsPositive(m) && PowSigned(m) && ValidParams(p) && f < Covered(|loudness|, p)
  {
    ToneSample(m, p, Amplitude(m, loudness[BucketOf(f, |loudness|, p.maxTime)], p), f)
  }

  function FrameSamples(m: MathLib, p: SynthParams, loudness: seq<nat>): (v: seq<real>)
    requires LogsPositive(m) && PowSigned(m) && ValidParams(p)
    ensures |v| == Covered(|loudness|, p)
  {
    seq(Covered(|loudness|, p), f requires 0 <= f < Covered(|loudness|, p) => FrameSample(m, p, loudness, f))
  }

  /** The buffer after the call: the covered frames of the channel, in
      increasing order, replaced by (or added to) their frame samples. */
  function Synthesized(m: MathLib, p: SynthParams, loudness: seq<nat>, s: seq<int>): (r: seq<int>)
    requires LogsPositive(m) && PowSigned(m) && ValidParams(p) && 2 * p.soundN <= |s|
    ensures |r| == |s|
  {
    Painted(s, p.channel, p.setNotAdd, FrameSamples(m, p, loudness), 0, Covered(|loudness|, p))
  }

  /** What one bucket's step of the outer loop relies on: bucket `i`'s window
      `[sound_j0, sound_j1)` continues the frames written so far, and every
      frame in it takes bucket `i`'s amplitude. */
  lemma {:induction false} WindowFacts(m: MathLib, p: SynthParams, loudness: seq<nat>, i: nat)
    requires LogsPositive(m) && PowSigned(m) && ValidParams(p) && i < |loudness|
    ensures WindowEnd(i, |loudness|, p) == Done(i + 1, |loudness|, p) <= Covered(|loudness|, p)
    ensures WindowStart(i, |loudness|, p) < WindowEnd(i, |loudness|, p) ==> WindowStart(i, |loudness|, p) == Done(i, |loudness|, p)
    ensures WindowStart(i, |loudness|, p) >= WindowEnd(i, |loudness|, p) ==> Done(i, |loudness|, p) == Done(i + 1, |loudness|, p)
    ensures forall f :: WindowStart(i, |loudness|, p) <= f < WindowEnd(i, |loudness|, p) ==>
      FrameSamples(m, p, loudness)[f] == ToneSample(m, p, Amplitude(m, loudness[i], p), f)
  {
    var n := |loudness|;
    DoneMonotone(i, i + 1, n, p);
    forall f | WindowStart(i, n, p) <= f < WindowEnd(i, n, p)
      ensures FrameSamples(m, p, loudness)[f] == ToneSample(m, p, Amplitude(m, loudness[i], p), f)
    {
      BucketOfUnique(f, i, n, p.maxTime);
    }
  }

  /** What the call records in `amplitude_values` (when it is not NULL):
      `amplitude_values[2*i+channel] = this_amplitude / max_amplitude` for
      the first `i` buckets. */
  function TraceUpTo(m: MathLib, p: SynthParams, loudness: seq<nat>, t: seq<real>, i: nat): (r: seq<real>)
    requires LogsPositive(m) && PowSigned(m) && ValidParams(p) && i <= |loudness| && 2 * |loudness| <= |t|
    ensures |r| == |t|
  {
    if i == 0 then t
    else
      TraceUpTo(m, p, loudness, t, i - 1)[2 * (i - 1) + p.channel :=
        Amplitude(m, loudness[i - 1], p) as real / p.maxAmplitude as real]
  }

  function AmplitudeTrace(m: MathLib, p: SynthParams, loudness: seq<nat>, t: seq<real>): (r: seq<real>)
    requires LogsPositive(m) && PowSigned(m) && ValidParams(p) && 2 * |loudness| <= |t|
    ensures |r| == |t|
  {
    TraceUpTo(m, p, loudness, t, |loudness|)
  }

  /** Entry `2*i + channel` of the trace holds bucket `i`'s relative
      amplitude; every other entry keeps its old value. */
  lemma {:induction false} TraceUpToAt(m: MathLib, p: SynthParams, loudness: seq<nat>, t: seq<real>, i: nat, k: nat)
    requires LogsPositive(m) && PowSigned(m) && ValidParams(p) && i <= |loudness| && 2 * |loudness| <= |t| && k < |t|
    ensures k % 2 == p.channel && k / 2 < i ==>
      TraceUpTo(m, p, loudness, t, i)[k] == Amplitude(m, loudness[k / 2], p) as real / p.maxAmplitude as real
    ensures !(k % 2 == p.channel && k / 2 < i) ==> TraceUpTo(m, p, loudness, t, i)[k] == t[k]
  {
    if i > 0 {
      TraceUpToAt(m, p, loudness, t, i - 1, k);
    }
  }

  // ---------------------------------------------------------------------
  // Properties of the specification

  /** Only samples of parity `channel` inside the covered frames change:
      the other channel and everything from `2*sound_n_samples` on stay as
      they were.  Each written sample is bounded by its bucket's amplitude
      (overwrite), or by that amplitude plus the old magnitude (add), and the
      amplitude never exceeds `max_amplitude`. */
  lemma {:induction false} SynthesizedFrame(m: MathLib, p: SynthParams, loudness: seq<nat>, s: seq<int>, k: nat)
    requires LogsPositive(m) && PowSigned(m) && SineBounded(m) && ValidParams(p) && 2 * p.soundN <= |s| && k < |s|
    ensures k % 2 != p.channel ==> Synthesized(m, p, loudness, s)[k] == s[k]
    ensures 2 * p.soundN <= k ==> Synthesized(m, p, loudness, s)[k] == s[k]
    ensures p.setNotAdd && k % 2 == p.channel && k / 2 < Covered(|loudness|, p)
      ==> Abs(Synthesized(m, p, loudness, s)[k]) <= p.maxAmplitude
    ensures !p.setNotAdd
      ==> Abs(Synthesized(m, p, loudness, s)[k]) <= p.maxAmplitude + Abs(s[k])
  {
    var d := Covered(|loudness|, p);
    PaintedAt(s, p.channel, p.setNotAdd, FrameSamples(m, p, loudness), 0, d, k);
    if k % 2 == p.channel && k / 2 < d {
      var b := BucketOf(k / 2, |loudness|, p.maxTime);
      var a := Amplitude(m, loudness[b], p);
      assert FrameSamples(m, p, loudness)[k / 2] == ToneSample(m, p, a, k / 2);
      ToneSampleBound(m, p, a, k / 2);
      MixBound(ToneSample(m, p, a, k / 2), a, s[k], p.setNotAdd);
    }
  }

  /** Frame `f` of bucket `i`'s window carries bucket `i`'s tone. */
  lemma {:induction false} SynthesizedWindow(m: MathLib, p: SynthParams, loudness: seq<nat>, s: seq<int>, i: nat, f: nat)
    requires LogsPositive(m) && PowSigned(m) && ValidParams(p) && 2 * p.soundN <= |s| && i < |loudness|
    requires WindowStart(i, |loudness|, p) <= f < WindowEnd(i, |loudness|, p)
    ensures Synthesized(m, p, loudness, s)[2 * f + p.channel]
         == Mix(ToneSample(m, p, Amplitude(m, loudness[i], p), f), s[2 * f + p.channel], p.setNotAdd)
  {
    WindowFacts(m, p, loudness, i);
    var v := FrameSamples(m, p, loudness);
    var k := 2 * f + p.channel;
    assert k / 2 == f;
    assert v[f] == ToneSample(m, p, Amplitude(m, loudness[i], p), f);
    PaintedAt(s, p.channel, p.setNotAdd, v, 0, |v|, k);
  }

  /** Overwriting makes the new buffer independent of the old contents of
      the channel's covered frames. */
  lemma {:induction false} OverwriteForgets(m: MathLib, p: SynthParams, loudness: seq<nat>, s: seq<int>, s': seq<int>, k: nat)
    requires LogsPositive(m) && PowSigned(m) && ValidParams(p) && p.setNotAdd && 2 * p.soundN <= |s| == |s'| && k < |s|
    requires k % 2 == p.channel && k / 2 < Covered(|loudness|, p)
    ensures Synthesized(m, p, loudness, s)[k] == Synthesized(m, p, loudness, s')[k]
  {
    var v := FrameSamples(m, p, loudness);
    PaintedAt(s, p.channel, p.setNotAdd, v, 0, Covered(|loudness|, p), k);
    PaintedAt(s', p.channel, p.setNotAdd, v, 0, Covered(|loudness|, p), k);
  }

  /** Each sample of the new buffer depends only on the same sample of the
      old buffer. */
  lemma {:induction false} SynthesizedLocal(m: MathLib, p: SynthParams, loudness: seq<nat>, s: seq<int>, s': seq<int>, k: nat)
    requires LogsPositive(m) && PowSigned(m) && ValidParams(p) && 2 * p.soundN <= |s| == |s'| && k < |s|
    requires s[k] == s'[k]
    ensures Synthesized(m, p, loudness, s)[k] == Synthesized(m, p, loudness, s')[k]
  {
    var v := FrameSamples(m, p, loudness);
    PaintedAt(s, p.channel, p.setNotAdd, v, 0, Covered(|loudness|, p), k);
    PaintedAt(s', p.channel, p.setNotAdd, v, 0, Covered(|loudness|, p), k);
  }

  lemma RatioInUnit(a: int, b: int)
    requires 0 <= a <= b && 0 < b
    ensures 0.0 <= a as real / b as real <= 1.0
  {
    var x := a as real / b as real;
    assert x * b as real == a as real;
  }

  /** The recorded amplitudes lie in [0, 1]. */
  lemma {:induction false} TraceInUnitRange(m: MathLib, p: SynthParams, loudness: seq<nat>, t: seq<real>, k: nat)
    requires LogsPositive(m) && PowSigned(m) && ValidParams(p) && 2 * |loudness| <= |t| && k < |t|
    requires k % 2 == p.channel && k / 2 < |loudness|
    ensures 0.0 <= AmplitudeTrace(m, p, loudness, t)[k] <= 1.0
  {
    TraceUpToAt(m, p, loudness, t, |loudness|, k);
    RatioInUnit(Amplitude(m, loudness[k / 2], p), p.maxAmplitude);
  }

  // ---------------------------------------------------------------------
  // Equal-loudness correction (computed, never applied)

  /** Mean frequency of bucket `i`'s segment when the frequency doubles every
      `doublingTime` seconds. */
  function AverageFrequency(m: MathLib, p: SynthParams, i: nat, n: nat): real
    requires 0 < n && 0.0 < p.doublingTime
  {
    var avgT := (i as real + 0.5) * p.maxTime / n as real;
    p.baseFrequency * m.exp(m.log(2.0) * avgT / p.doublingTime)
  }

  /** The table search of src/SoundRenderer.cpp:159-160 as written: it may
      stop at the last entry, `equal_loudness_N - 1`. */
  function ScanAsWritten(freq: real, iFreq: nat): (r: nat)
    requires iFreq < EQUAL_LOUDNESS_N
    ensures iFreq <= r < EQUAL_LOUDNESS_N
    decreases EQUAL_LOUDNESS_N - iFreq
  {
    if iFreq < EQUAL_LOUDNESS_N - 1 && EQUAL_LOUDNESS_FREQUENCY[iFreq + 1] < freq
    then ScanAsWritten(freq, iFreq + 1)
    else iFreq
  }

  /** The same search stopping one entry earlier, so that the bracketing
      pair `i_freq, i_freq + 1` always exists. */
  function ScanCorrected(freq: real, iFreq: nat): (r: nat)
    requires iFreq <= EQUAL_LOUDNESS_N - 2
    ensures iFreq <= r <= EQUAL_LOUDNESS_N - 2
    decreases EQUAL_LOUDNESS_N - iFreq
  {
    if iFreq < EQUAL_LOUDNESS_N - 2 && EQUAL_LOUDNESS_FREQUENCY[iFreq + 1] < freq
    then ScanCorrected(freq, iFreq + 1)
    else iFreq
  }

  /** Above the last tabulated frequency (20 kHz) the search as written ends
      on the last entry, and line 162 then reads
      `equal_loudness_data[i_freq + 1]`, one past the end of the table. */
  lemma {:induction false} ScanOverrunsTable(freq: real, iFreq: nat)
    requires 20000.0 < freq && iFreq < EQUAL_LOUDNESS_N
    ensures ScanAsWritten(freq, iFreq) + 1 == |EQUAL_LOUDNESS_FREQUENCY|
    decreases EQUAL_LOUDNESS_N - iFreq
  {
    assert EQUAL_LOUDNESS_FREQUENCY[EQUAL_LOUDNESS_N - 1] == 20000.0;
    assert forall j :: 0 <= j < EQUAL_LOUDNESS_N ==> EQUAL_LOUDNESS_FREQUENCY[j] <= 20000.0;
    if iFreq < EQUAL_LOUDNESS_N - 1 {
      ScanOverrunsTable(freq, iFreq + 1);
    }
  }

  /** Up to 20 kHz the corrected search finds the same entry as the search
      as written. */
  lemma {:induction false} ScanCorrectedAgrees(freq: real, iFreq: nat)
    requires freq <= 20000.0 && iFreq <= EQUAL_LOUDNESS_N - 2
    ensures ScanCorrected(freq, iFreq) == ScanAsWritten(freq, iFreq)
    ensures ScanCorrected(freq, iFreq) + 1 < |EQUAL_LOUDNESS_FREQUENCY|
    decreases EQUAL_LOUDNESS_N - iFreq
  {
    if iFreq < EQUAL_LOUDNESS_N - 2 && EQUAL_LOUDNESS_FREQUENCY[iFreq + 1] < freq {
      ScanCorrectedAgrees(freq, iFreq + 1);
    } else {
      assert EQUAL_LOUDNESS_FREQUENCY[EQUAL_LOUDNESS_N - 1] == 20000.0;
    }
  }

  predicate TableIncreasing() {
    forall j :: 0 <= j < EQUAL_LOUDNESS_N - 1 ==> EQUAL_LOUDNESS_FREQUENCY[j] < EQUAL_LOUDNESS_FREQUENCY[j + 1]
  }

  /** The correction factor of src/SoundRenderer.cpp:162-168, with the
      interpolation weights as written. */
  function EqualLoudnessCorrection(m: MathLib, freq: real, iFreq: nat): real
    requires iFreq <= EQUAL_LOUDNESS_N - 2
  {
    var f0 := EQUAL_LOUDNESS_FREQUENCY[iFreq];
    var f1 := EQUAL_LOUDNESS_FREQUENCY[iFreq + 1];
    var dFreq := f1 - f0;
    var kI := if dFreq == 0.0 then 0.0 else (freq - f0) / dFreq;
    var kIp1 := 1.0 - kI;
    var avgLoudness := EQUAL_LOUDNESS_SPL[iFreq] * kI + EQUAL_LOUDNESS_SPL[iFreq + 1] * kIp1;
    m.exp((avgLoudness - EQUAL_LOUDNESS_NOMINAL) / 20.0)
  }

  // ---------------------------------------------------------------------
  // The procedure

  /** The table search of src/SoundRenderer.cpp:159-160, resumed from the
      previous bucket's `i_freq` and stopping at the last bracketing pair. */
  method SearchEqualLoudness(freq: real, start: nat) returns (iFreq: nat)
    requires start <= EQUAL_LOUDNESS_N - 2
    ensures iFreq == ScanCorrected(freq, start)
    ensures start <= iFreq <= EQUAL_LOUDNESS_N - 2
  {
    iFreq := start;
    while iFreq < EQUAL_LOUDNESS_N - 2 && EQUAL_LOUDNESS_FREQUENCY[iFreq + 1] < freq
      invariant start <= iFreq <= EQUAL_LOUDNESS_N - 2
      invariant ScanCorrected(freq, iFreq) == ScanCorrected(freq, start)
      decreases EQUAL_LOUDNESS_N - iFreq
    {
      iFreq := iFreq + 1;
    }
  }

  /** One iteration of the outer loop of src/SoundRenderer.cpp:146-194:
      bucket `i` advances the equal-loudness search, records its amplitude
      and writes its window of the channel (the inner loop, lines 185-193).
      `d` counts the frames of the channel written so far. */
  method RenderBucket(m: MathLib, p: SynthParams, loudness: seq<nat>, i: nat,
                      sound: array<int>, amplitudeValues: array?<real>, iFreq: nat,
                      ghost v: seq<real>, ghost s0: seq<int>, ghost t0: seq<real>, ghost d: nat)
    returns (iFreq': nat, ghost d': nat)
    requires LogsPositive(m) && PowSigned(m) && ValidParams(p) && i < |loudness|
    requires 2 * p.soundN <= sound.Length == |s0|
    requires amplitudeValues != null ==> 2 * |loudness| <= amplitudeValues.Length == |t0|
    requires v == FrameSamples(m, p, loudness) && iFreq <= EQUAL_LOUDNESS_N - 2
    requires d == Done(i, |loudness|, p) && d <= |v|
    requires sound[..] == Painted(s0, p.channel, p.setNotAdd, v, 0, d)
    requires amplitudeValues != null ==> amplitudeValues[..] == TraceUpTo(m, p, loudness, t0, i)
    modifies sound, amplitudeValues
    ensures iFreq' <= EQUAL_LOUDNESS_N - 2
    ensures d' == Done(i + 1, |loudness|, p) && d' <= |v|
    ensures sound[..] == Painted(s0, p.channel, p.setNotAdd, v, 0, d')
    ensures amplitudeValues != null ==> amplitudeValues[..] == TraceUpTo(m, p, loudness, t0, i + 1)
  {
    var n := |loudness|;
    var j0 := WindowStart(i, n, p);
    var j1 := WindowEnd(i, n, p);
    WindowFacts(m, p, loudness, i);
    d' := j1;
    iFreq' := iFreq;
    if 0.0 < p.doublingTime {
      // The correction factor is computed and then not used.
      var avgFreq := AverageFrequency(m, p, i, n);
      iFreq' := SearchEqualLoudness(avgFreq, iFreq);
      var correction := EqualLoudnessCorrection(m, avgFreq, iFreq');
    }
    var amplitude: nat := Amplitude(m, loudness[i], p);
    if amplitudeValues != null {
      amplitudeValues[2 * i + p.channel] := amplitude as real / p.maxAmplitude as real;
    }
    if j0 < j1 {
      PaintWindow(sound, p.channel, p.setNotAdd, (f: nat) => ToneSample(m, p, amplitude, f), j0, j1, v, s0, 0);
    }
  }

  method RenderAmplitudesToFrequencyWithConstantTimeSteps(
    m: MathLib, p: SynthParams, loudness: seq<nat>,
    sound: array<int>, amplitudeValues: array?<real>)
    requires LogsPositive(m) && PowSigned(m) && ValidParams(p)
    requires 2 * p.soundN <= sound.Length
    requires amplitudeValues != null ==> 2 * |loudness| <= amplitudeValues.Length
    modifies sound, amplitudeValues
    ensures sound[..] == Synthesized(m, p, loudness, old(sound[..]))
    ensures amplitudeValues != null ==>
      amplitudeValues[..] == AmplitudeTrace(m, p, loudness, old(amplitudeValues[..]))
  {
    var n := |loudness|;
    ghost var v := FrameSamples(m, p, loudness);
    ghost var s0 := sound[..];
    ghost var t0 := if amplitudeValues != null then amplitudeValues[..] else [];
    ghost var d: nat := 0;
    DoneEnds(n, p);
    var i := 0;
    var iFreq: nat := 0;
    while i < n
      invariant 0 <= i <= n
      invariant iFreq <= EQUAL_LOUDNESS_N - 2
      invariant d == Done(i, n, p) && d <= |v|
      invariant sound[..] == Painted(s0, p.channel, p.setNotAdd, v, 0, d)
      invariant amplitudeValues != null ==> amplitudeValues[..] == TraceUpTo(m, p, loudness, t0, i)
    {
      iFreq, d := RenderBucket(m, p, loudness, i, sound, amplitudeValues, iFreq, v, s0, t0, d);
      i := i + 1;
    }
  }
}
