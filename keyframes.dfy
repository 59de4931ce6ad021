/** `SoundRenderer::RenderAmplitudesToFrequency` (src/SoundRenderer.cpp:60-107):
    renders a piecewise-linear amplitude envelope, given as keyframes
    `(amplitude_times[i], amplitude_values[i])`, as a sine tone of constant
    frequency into one channel of an interleaved stereo buffer.  Segment `i`
    runs from keyframe `i` to keyframe `i + 1`. */
module Keyframes {
  import opened Defaults
  import opened Numerics
  import opened Channels

  /** The arguments of one call other than the keyframes and the buffer. */
  datatype KeyParams = KeyParams(
    soundN: nat,           // sound_n_samples, in stereo frames
    channel: nat,          // sound_channel
    baseFrequency: real,
    baseAmplitude: int,
    setNotAdd: bool)

  /** One segment of the envelope: from amplitude `a0` at time `t0` to
      amplitude `a1` at time `t1` (seconds). */
  datatype Segment = Segment(t0: real, a0: real, t1: real, a1: real)

  /** Keyframe times must not be negative: `sound_n0` would be a negative
      index. */
  predicate ValidSegment(seg: Segment) {
    0.0 <= seg.t0 && 0.0 <= seg.t1
  }

  /** `sound_n0 = t0*SAMPLE_RATE`: the first frame of the segment. */
  function FirstFrame(seg: Segment): nat
    requires ValidSegment(seg)
  {
    Trunc(seg.t0 * SAMPLE_RATE as real)
  }

  /** The frame after the last one written: `sound_n1 = t1*SAMPLE_RATE`,
      clamped to `sound_n_samples` (the clamp of `sound_i1`). */
  function EndFrame(seg: Segment, soundN: nat): (e: nat)
    requires ValidSegment(seg)
    ensures e <= soundN
  {
    var n1 := Trunc(seg.t1 * SAMPLE_RATE as real);
    if n1 > soundN then soundN else n1
  }

  /** `da = diff_a / diff_t * dt`, the amplitude step per frame.  A segment of
      zero duration writes nothing (`SegmentLength`), so the value chosen for
      its undefined slope is never used. */
  function Slope(seg: Segment): real {
    if seg.t1 == seg.t0 then 0.0
    else (seg.a1 - seg.a0) / (seg.t1 - seg.t0) * (1.0 / SAMPLE_RATE as real)
  }

  /** The running amplitude after `k` steps of `a += da` from `a0`. */
  function RampFrom(a0: real, da: real, k: int): real {
    a0 + k as real * da
  }

  lemma RampFromStep(a0: real, da: real, k: int)
    ensures RampFrom(a0, da, k + 1) == RampFrom(a0, da, k) + da
  {
    assert (k as real + 1.0) * da == k as real * da + da;
  }

  /** The running amplitude `a` at frame `f`: `a0` at the first frame, then
      one `da` more per frame. */
  function Ramp(seg: Segment, f: int): real
    requires ValidSegment(seg)
  {
    RampFrom(seg.a0, Slope(seg), f - FirstFrame(seg))
  }

  /** `sin(2*M_PI*base_frequency*(j - sound_channel)/SAMPLE_RATE/2.)` for the
      sample `j = 2*f + sound_channel`: it depends on the absolute frame `f`
      only, not on the segment being written. */
  function KeyTone(m: MathLib, kp: KeyParams, f: int): real {
    m.sin(2.0 * PI * kp.baseFrequency * (2 * f) as real / SAMPLE_RATE as real / 2.0)
  }

  /** `base_amplitude * a * sin(...)`: the sample of frame `f` at amplitude `a`. */
  function ToneAt(m: MathLib, kp: KeyParams, a: real, f: int): real {
    kp.baseAmplitude as real * a * KeyTone(m, kp, f)
  }

  /** The sample of frame `f` in the segment. */
  function KeySample(m: MathLib, kp: KeyParams, seg: Segment, f: int): real
    requires ValidSegment(seg)
  {
    ToneAt(m, kp, Ramp(seg, f), f)
  }

  function KeySamples(m: MathLib, kp: KeyParams, seg: Segment, n: nat): (v: seq<real>)
    requires ValidSegment(seg)
    ensures |v| == n
  {
    seq(n, f => KeySample(m, kp, seg, f))
  }

  /** The buffer after one segment has been rendered into `s`. */
  function RenderSegment(m: MathLib, kp: KeyParams, seg: Segment, s: seq<int>): (r: seq<int>)
    requires ValidSegment(seg) && kp.channel < 2 && 2 * kp.soundN <= |s|
    ensures |r| == |s|
  {
    var lo := FirstFrame(seg);
    var hi := EndFrame(seg, kp.soundN);
    if lo < hi then Painted(s, kp.channel, kp.setNotAdd, KeySamples(m, kp, seg, hi), lo, hi) else s
  }

  /** Segment `i` of the keyframe lists. */
  function SegmentOf(times: seq<real>, values: seq<real>, i: nat): Segment
    requires |times| == |values| && i + 1 < |times|
  {
    Segment(times[i], values[i], times[i + 1], values[i + 1])
  }

  /** What the source requires of its keyframes: as many times as values, at
      least one keyframe (with none, `amplitude_n_steps - 1` wraps around to
      the largest unsigned value), and no negative time. */
  predicate ValidKeyframes(times: seq<real>, values: seq<real>) {
    && |times| == |values| && 1 <= |times|
    && forall i :: 0 <= i < |times| ==> 0.0 <= times[i]
  }

  /** The buffer after the first `i` segments have been rendered, in order. */
  function RenderedUpTo(m: MathLib, kp: KeyParams, times: seq<real>, values: seq<real>, s: seq<int>, i: nat): (r: seq<int>)
    requires ValidKeyframes(times, values) && i < |times|
    requires kp.channel < 2 && 2 * kp.soundN <= |s|
    ensures |r| == |s|
  {
    if i == 0 then s
    else RenderSegment(m, kp, SegmentOf(times, values, i - 1), RenderedUpTo(m, kp, times, values, s, i - 1))
  }

  /** The buffer after the call: every segment rendered. */
  function Rendered(m: MathLib, kp: KeyParams, times: seq<real>, values: seq<real>, s: seq<int>): (r: seq<int>)
    requires ValidKeyframes(times, values) && kp.channel < 2 && 2 * kp.soundN <= |s|
    ensures |r| == |s|
  {
    RenderedUpTo(m, kp, times, values, s, |times| - 1)
  }

  /** Keyframe times in non-decreasing order. */
  predicate Sorted(times: seq<real>) {
    forall i, j :: 0 <= i <= j < |times| ==> times[i] <= times[j]
  }

  /** A segment whose end time is not after its start time writes nothing. */
  lemma SegmentNotForward(m: MathLib, kp: KeyParams, seg: Segment, s: seq<int>)
    requires ValidSegment(seg) && kp.channel < 2 && 2 * kp.soundN <= |s|
    requires seg.t1 <= seg.t0
    ensures EndFrame(seg, kp.soundN) <= FirstFrame(seg)
    ensures RenderSegment(m, kp, seg, s) == s
  {
    TruncMonotone(seg.t1 * SAMPLE_RATE as real, seg.t0 * SAMPLE_RATE as real);
  }

  /** Sample by sample: a sample of the channel whose frame lies in
      `[FirstFrame, EndFrame)` holds that frame's tone (mixed with its old
      value); every other sample keeps its old value. */
  lemma RenderSegmentAt(m: MathLib, kp: KeyParams, seg: Segment, s: seq<int>, k: nat)
    requires ValidSegment(seg) && kp.channel < 2 && 2 * kp.soundN <= |s| && k < |s|
    ensures k % 2 == kp.channel && FirstFrame(seg) <= k / 2 < EndFrame(seg, kp.soundN) ==>
              RenderSegment(m, kp, seg, s)[k] == Mix(KeySample(m, kp, seg, k / 2), s[k], kp.setNotAdd)
    ensures !(k % 2 == kp.channel && FirstFrame(seg) <= k / 2 < EndFrame(seg, kp.soundN)) ==>
              RenderSegment(m, kp, seg, s)[k] == s[k]
  {
    var lo := FirstFrame(seg);
    var hi := EndFrame(seg, kp.soundN);
    if lo < hi {
      PaintedAt(s, kp.channel, kp.setNotAdd, KeySamples(m, kp, seg, hi), lo, hi, k);
    }
  }

  /** Every write lands in channel `sound_channel` and below
      `2*sound_n_samples`, whatever the keyframes. */
  lemma {:induction false} RenderedOutside(m: MathLib, kp: KeyParams, times: seq<real>, values: seq<real>, s: seq<int>, i: nat, k: nat)
    requires ValidKeyframes(times, values) && i < |times|
    requires kp.channel < 2 && 2 * kp.soundN <= |s| && k < |s|
    requires k % 2 != kp.channel || 2 * kp.soundN <= k
    ensures RenderedUpTo(m, kp, times, values, s, i)[k] == s[k]
  {
    if i > 0 {
      RenderedOutside(m, kp, times, values, s, i - 1, k);
      RenderSegmentAt(m, kp, SegmentOf(times, values, i - 1), RenderedUpTo(m, kp, times, values, s, i - 1), k);
    }
  }

  /** With sorted keyframes, the first `n` segments leave every frame from
      keyframe `n` on untouched. */
  lemma {:induction false} UntouchedFromKeyframe(m: MathLib, kp: KeyParams, times: seq<real>, values: seq<real>, s: seq<int>, n: nat, k: nat)
    requires ValidKeyframes(times, values) && Sorted(times) && n < |times|
    requires kp.channel < 2 && 2 * kp.soundN <= |s| && k < |s|
    requires Trunc(times[n] * SAMPLE_RATE as real) <= k / 2
    ensures RenderedUpTo(m, kp, times, values, s, n)[k] == s[k]
  {
    if n > 0 {
      TruncMonotone(times[n - 1] * SAMPLE_RATE as real, times[n] * SAMPLE_RATE as real);
      UntouchedFromKeyframe(m, kp, times, values, s, n - 1, k);
      RenderSegmentAt(m, kp, SegmentOf(times, values, n - 1), RenderedUpTo(m, kp, times, values, s, n - 1), k);
    }
  }

  /** With sorted keyframes, the segments from `i` on leave every frame before
      keyframe `i` untouched. */
  lemma {:induction false} UntouchedBeforeKeyframe(m: MathLib, kp: KeyParams, times: seq<real>, values: seq<real>, s: seq<int>, i: nat, n: nat, k: nat)
    requires ValidKeyframes(times, values) && Sorted(times) && i <= n < |times|
    requires kp.channel < 2 && 2 * kp.soundN <= |s| && k < |s|
    requires k / 2 < Trunc(times[i] * SAMPLE_RATE as real)
    ensures RenderedUpTo(m, kp, times, values, s, n)[k] == RenderedUpTo(m, kp, times, values, s, i)[k]
    decreases n - i
  {
    if i < n {
      UntouchedBeforeKeyframe(m, kp, times, values, s, i, n - 1, k);
      TruncMonotone(times[i] * SAMPLE_RATE as real, times[n - 1] * SAMPLE_RATE as real);
      RenderSegmentAt(m, kp, SegmentOf(times, values, n - 1), RenderedUpTo(m, kp, times, values, s, n - 1), k);
    }
  }

  /** With sorted keyframes the segments' frame ranges do not overlap, so the
      result does not depend on the order in which segments are rendered: a
      frame of segment `i` holds segment `i`'s tone mixed with the sample the
      buffer held before the call. */
  lemma RenderedAt(m: MathLib, kp: KeyParams, times: seq<real>, values: seq<real>, s: seq<int>, i: nat, f: nat)
    requires ValidKeyframes(times, values) && Sorted(times) && i + 1 < |times|
    requires kp.channel < 2 && 2 * kp.soundN <= |s|
    requires FirstFrame(SegmentOf(times, values, i)) <= f < EndFrame(SegmentOf(times, values, i), kp.soundN)
    ensures Rendered(m, kp, times, values, s)[2 * f + kp.channel]
         == Mix(KeySample(m, kp, SegmentOf(times, values, i), f), s[2 * f + kp.channel], kp.setNotAdd)
  {
    var seg := SegmentOf(times, values, i);
    var k := 2 * f + kp.channel;
    assert k / 2 == f && k % 2 == kp.channel;
    UntouchedBeforeKeyframe(m, kp, times, values, s, i + 1, |times| - 1, k);
    RenderSegmentAt(m, kp, seg, RenderedUpTo(m, kp, times, values, s, i), k);
    UntouchedFromKeyframe(m, kp, times, values, s, i, k);
  }

  /** The sample loop of one segment: `for (j = i0; j < i1; j += 2, a += da)
      sound_values[j] = base_amplitude * a * sin(...)` (or `+=`), where the
      samples of channel `sound_channel` below `i1` are those of frames
      `[lo, hi)`. */
  method RampWindow(m: MathLib, kp: KeyParams, a0: real, da: real, i0: nat, i1: nat, sound: array<int>,
                    ghost v: seq<real>, ghost lo: nat, ghost hi: nat)
    requires kp.channel < 2 && lo < hi <= |v| && 2 * hi <= sound.Length
    requires i0 == 2 * lo + kp.channel && 2 * (hi - 1) + kp.channel < i1 <= 2 * hi + kp.channel
    requires forall f :: lo <= f < hi ==> v[f] == ToneAt(m, kp, RampFrom(a0, da, f - lo), f)
    modifies sound
    ensures sound[..] == Painted(old(sound[..]), kp.channel, kp.setNotAdd, v, lo, hi)
  {
    ghost var s0 := sound[..];
    var a := a0;
    var j := i0;
    ghost var f := lo;
    while j < i1
      invariant j == 2 * f + kp.channel && lo <= f <= hi
      invariant a == RampFrom(a0, da, f - lo)
      invariant sound[..] == Painted(s0, kp.channel, kp.setNotAdd, v, lo, f)
    {
      PaintedNext(s0, kp.channel, kp.setNotAdd, v, lo, f);
      RampFromStep(a0, da, f - lo);
      assert (j - kp.channel) / 2 == f;
      var value := ToneAt(m, kp, a, (j - kp.channel) / 2);
      assert value == v[f];
      sound[j] := Mix(value, sound[j], kp.setNotAdd);
      j := j + 2;
      a := a + da;
      f := f + 1;
    }
  }

  /** One iteration of the segment loop: the samples of frames
      `[sound_n0, sound_n1)`, clamped to the buffer, each written with the
      running amplitude `a`, which grows by `da` per frame. */
  method RenderSegmentInto(m: MathLib, kp: KeyParams, t0: real, t1: real, a0: real, a1: real, sound: array<int>)
    requires ValidSegment(Segment(t0, a0, t1, a1)) && kp.channel < 2 && 2 * kp.soundN <= sound.Length
    modifies sound
    ensures sound[..] == RenderSegment(m, kp, Segment(t0, a0, t1, a1), old(sound[..]))
  {
    ghost var seg := Segment(t0, a0, t1, a1);
    var diffT := t1 - t0;
    var diffA := a1 - a0;
    // a zero-length segment divides by zero in the source; it writes nothing
    var da := if diffT == 0.0 then 0.0 else diffA / diffT * (1.0 / SAMPLE_RATE as real);
    var n0: nat := Trunc(t0 * SAMPLE_RATE as real);
    var n1: nat := Trunc(t1 * SAMPLE_RATE as real);
    var i0 := 2 * n0 + kp.channel;
    var i1 := if n1 > kp.soundN then 2 * kp.soundN else 2 * n1 + kp.channel;
    ghost var hi := EndFrame(seg, kp.soundN);
    assert n0 == FirstFrame(seg) && da == Slope(seg);
    // the loop's first test, split off so that the loop can assume a non-empty window
    if i0 < i1 {
      ghost var v := KeySamples(m, kp, seg, hi);
      assert forall f :: n0 <= f < hi ==> v[f] == ToneAt(m, kp, RampFrom(a0, da, f - n0), f);
      RampWindow(m, kp, a0, da, i0, i1, sound, v, n0, hi);
    }
  }

  /** `RenderAmplitudesToFrequency`: renders segment `i` for every `i <
      amplitude_n_steps - 1`, in order. */
  method RenderAmplitudesToFrequency(m: MathLib, kp: KeyParams, times: seq<real>, values: seq<real>, sound: array<int>)
    requires ValidKeyframes(times, values) && kp.channel < 2 && 2 * kp.soundN <= sound.Length
    modifies sound
    ensures sound[..] == Rendered(m, kp, times, values, old(sound[..]))
  {
    ghost var s0 := sound[..];
    var i := 0;
    while i < |times| - 1
      invariant 0 <= i <= |times| - 1
      invariant sound[..] == RenderedUpTo(m, kp, times, values, s0, i)
    {
      RenderSegmentInto(m, kp, times[i], times[i + 1], values[i], values[i + 1], sound);
      i := i + 1;
    }
  }
}
