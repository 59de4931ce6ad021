/** `SimpleDepthRenderer` (src/SoundRenderer.h:65-125,
    src/SoundRenderer.cpp:256-353, 455-534): one binning pass per ear builds
    a distance histogram of the point cloud in per-worker counter rows,
    merges the rows into row 0, and hands row 0 to the constant-step
    synthesizer, which writes one channel of the stereo buffer.

    The OpenMP region is read sequentially: worker `w` handles the points
    `[bounds[w], bounds[w+1])` of an arbitrary split (see `Histogram.IsSplit`)
    and runs its zeroing and counting loops to completion before the next
    worker starts.  Each worker touches only its own row, so the order does
    not change the result. */
module DepthRenderer {
  import opened Defaults
  import opened Numerics
  import opened Histogram
  import opened Synthesizer

  // ---------------------------------------------------------------------
  // The row pointer table of the constructor (src/SoundRenderer.cpp:289-293)

  /** The stores made by `for (i = 1; i < num_counters*2; ++i) counters[i] =
      &counters[0][max_counter*i]`: the table index and the row's offset
      into the shared buffer of `num_counters*max_counter*2` counters. */
  function RowPointerStores(numCounters: nat, maxCounter: nat): (st: seq<(nat, nat)>)
    ensures |st| == if numCounters == 0 then 0 else 2 * numCounters - 1
    ensures forall k :: 0 <= k < |st| ==> st[k].0 == k + 1
  {
    if numCounters == 0 then []
    else seq(2 * numCounters - 1, k requires 0 <= k < 2 * numCounters - 1 => (k + 1, maxCounter * (k + 1)))
  }

  /** Every store lands inside a table of `tableSize` entries. */
  predicate StoresFit(st: seq<(nat, nat)>, tableSize: nat) {
    forall k :: 0 <= k < |st| ==> st[k].0 < tableSize
  }

  /** As written, the table is allocated with `num_counters` entries
      (`new unsigned int * [num_counters]`), and the loop's last store,
      at index `2*num_counters - 1`, lies outside it for every
      `num_counters >= 1`, the single-threaded build included. */
  lemma RowTableOverrunsAsWritten(numCounters: nat, maxCounter: nat)
    requires 1 <= numCounters
    ensures !StoresFit(RowPointerStores(numCounters, maxCounter), numCounters)
  {
    var st := RowPointerStores(numCounters, maxCounter);
    assert st[|st| - 1].0 == 2 * numCounters - 1 >= numCounters;
  }

  lemma MulMonotoneNat(a: nat, b: nat, c: nat)
    requires a <= b
    ensures c * a <= c * b
  {
  }

  /** With the table sized `2*num_counters`, as the rows the renderer uses
      require, every store fits, and every row of `max_counter` counters
      starting at the stored offset lies inside the shared buffer. */
  lemma RowTableFitsCorrected(numCounters: nat, maxCounter: nat)
    ensures StoresFit(RowPointerStores(numCounters, maxCounter), 2 * numCounters)
    ensures forall k :: 0 <= k < |RowPointerStores(numCounters, maxCounter)| ==>
      RowPointerStores(numCounters, maxCounter)[k].1 + maxCounter <= numCounters * maxCounter * 2
  {
    var st := RowPointerStores(numCounters, maxCounter);
    forall k | 0 <= k < |st|
      ensures st[k].1 + maxCounter <= numCounters * maxCounter * 2
    {
      MulMonotoneNat(k + 2, 2 * numCounters, maxCounter);
      assert st[k].1 + maxCounter == maxCounter * (k + 2);
      assert maxCounter * (2 * numCounters) == numCounters * maxCounter * 2;
    }
  }

  // ---------------------------------------------------------------------
  // The amplitude divider (src/SoundRenderer.cpp:515)

  /** `(unsigned int)((n_vertices / 25.0) / (0.1/step_distance) * 10)`: the
      average number of points per bucket when a quarter of the points lies
      within 10 cm, times ten.  It is never negative. */
  function AmpDiv(nPoints: nat, stepDistance: real): (d: nat)
    requires 0.0 < stepDistance
  {
    var perBucket := 0.1 / stepDistance;
    var x := nPoints as real / 25.0 / perBucket * 10.0;
    assert 0.0 <= x by {
      assert 0.0 < perBucket;
      assert 0.0 <= nPoints as real / 25.0;
      assert 0.0 <= nPoints as real / 25.0 / perBucket;
    }
    Trunc(x)
  }

  /** The divider is four counts per point per metre of bucket width,
      rounded down. */
  lemma AmpDivIsFourPerMetre(nPoints: nat, stepDistance: real)
    requires 0.0 < stepDistance
    ensures AmpDiv(nPoints, stepDistance) == Trunc(4.0 * nPoints as real * stepDistance)
  {
    var perBucket := 0.1 / stepDistance;
    var y := nPoints as real / 25.0;
    assert perBucket * stepDistance == 0.1;
    assert y / perBucket == y * stepDistance / 0.1;
    assert y / perBucket * 10.0 == 4.0 * nPoints as real * stepDistance;
  }

  /** `lower_distance > 0. ? audio_A/2 : audio_A` (line 521). */
  function PassAmplitude(lowerDistance: real): (a: int)
    ensures 0 < a && (0.0 < lowerDistance ==> 2 * a <= INT16_MAX)
  {
    if 0.0 < lowerDistance then AUDIO_A / 2 else AUDIO_A
  }

  class SimpleDepthRenderer {
    const maxDistance: real
    const stepDistance: real
    const speedOfSound: real
    const baseFrequency: real
    const freqDoublingLength: real
    const backgroundAmplitude: real
    const stereoDistance: real
    const lowerDistance: real
    const lowerFrequency: real
    const lowerFreqDoublingLength: real
    const lowerAmplitude: real
    const saveLoudness: bool
    /** Counters go from 0 to `maxCounter - 1`. */
    const maxCounter: nat
    /** The number of worker threads (`omp_get_max_threads()`, 1 without OpenMP). */
    const numCounters: nat
    const loudnessN: nat
    /** The `2*num_counters` rows of `max_counter` unsigned counters. */
    const counters: array2<nat>
    /** Interleaved per-bucket loudness and relative amplitude of both channels. */
    const loudnessData: array<real>
    const amplitudesData: array<real>

    /** A positive bucket width, a non-negative range and a positive speed
        of sound keep `max_distance/step_distance` and the synthesizer's
        times finite and non-negative. */
    predicate Valid() {
      && 0.0 < stepDistance && 0.0 <= maxDistance && 0.0 < speedOfSound
      && 1 <= numCounters
      && counters.Length0 == 2 * numCounters && counters.Length1 == maxCounter
      && loudnessN == maxCounter
      && loudnessData.Length == 2 * loudnessN && amplitudesData.Length == 2 * loudnessN
      && loudnessData != amplitudesData
    }

    /** The constructor, with the number of threads as a parameter and the
        row table sized `2*num_counters` (see `RowTableFitsCorrected`). */
    constructor (maxDistance: real, stepDistance: real, speedOfSound: real,
                 baseFrequency: real, baseFrequencyDoublingLength: real, backgroundAmplitude: real,
                 stereoDistance: real, lowerDistance: real, lowerFrequency: real,
                 lowerFrequencyDoublingLength: real, lowerAmplitude: real, saveLoudness: bool,
                 maxThreads: nat)
      requires 0.0 < stepDistance && 0.0 <= maxDistance && 0.0 < speedOfSound && 1 <= maxThreads
      ensures Valid()
      ensures this.maxDistance == maxDistance && this.stepDistance == stepDistance
      ensures this.speedOfSound == speedOfSound && this.baseFrequency == baseFrequency
      ensures this.freqDoublingLength == baseFrequencyDoublingLength
      ensures this.backgroundAmplitude == backgroundAmplitude && this.stereoDistance == stereoDistance
      ensures this.lowerDistance == lowerDistance && this.lowerFrequency == lowerFrequency
      ensures this.lowerFreqDoublingLength == lowerFrequencyDoublingLength
      ensures this.lowerAmplitude == lowerAmplitude && this.saveLoudness == saveLoudness
      ensures maxCounter == Trunc(maxDistance / stepDistance) && loudnessN == maxCounter
      ensures numCounters == maxThreads
      ensures fresh(counters) && fresh(loudnessData) && fresh(amplitudesData)
    {
      this.maxDistance := maxDistance;
      this.stepDistance := stepDistance;
      this.speedOfSound := speedOfSound;
      this.baseFrequency := baseFrequency;
      this.freqDoublingLength := baseFrequencyDoublingLength;
      this.backgroundAmplitude := backgroundAmplitude;
      this.stereoDistance := stereoDistance;
      this.lowerDistance := lowerDistance;
      this.lowerFrequency := lowerFrequency;
      this.lowerFreqDoublingLength := lowerFrequencyDoublingLength;
      this.lowerAmplitude := lowerAmplitude;
      this.saveLoudness := saveLoudness;
      var mc: nat := Trunc(maxDistance / stepDistance);
      maxCounter := mc;
      numCounters := maxThreads;
      loudnessN := mc;
      counters := new nat[2 * maxThreads, mc];
      loudnessData := new real[2 * mc];
      amplitudesData := new real[2 * mc];
    }

    // -------------------------------------------------------------------
    // Specification

    /** The synthesizer arguments of one `RenderDistanceToSound` call
        (lines 517-526): the histogram is normalised by `amp_div`, the end
        time is `max_distance / speed_of_sound`, and the amplitude is halved
        when lower passes will add to the buffer. */
    function PassParams(nPoints: nat, soundN: nat, channel: nat, setNotAdd: bool,
                        frequency: real, doublingLength: real, background: real): (p: SynthParams)
      requires Valid() && 0 < AmpDiv(nPoints, stepDistance) && channel < 2
      ensures ValidParams(p) && p.setNotAdd == setNotAdd && p.channel == channel && p.soundN == soundN
    {
      SynthParams(AmpDiv(nPoints, stepDistance), maxDistance / speedOfSound, soundN, channel,
        frequency, PassAmplitude(lowerDistance), setNotAdd, doublingLength / speedOfSound, background)
    }

    /** The two overwriting passes (lines 311-329). */
    function UpperPass(nPoints: nat, soundN: nat, channel: nat): (p: SynthParams)
      requires Valid() && 0 < AmpDiv(nPoints, stepDistance) && channel < 2
      ensures ValidParams(p) && p.setNotAdd && p.channel == channel && p.soundN == soundN
    {
      PassParams(nPoints, soundN, channel, true, baseFrequency, freqDoublingLength, backgroundAmplitude)
    }

    /** The two accumulating lower passes (lines 335-351). */
    function LowerPass(nPoints: nat, soundN: nat, channel: nat): (p: SynthParams)
      requires Valid() && 0 < AmpDiv(nPoints, stepDistance) && channel < 2
      ensures ValidParams(p) && !p.setNotAdd && p.channel == channel && p.soundN == soundN
    {
      PassParams(nPoints, soundN, channel, false, lowerFrequency, lowerFreqDoublingLength, lowerAmplitude)
    }

    /** The stereo buffer after the two overwriting passes: the left ear
        writes channel 0, then the right ear channel 1. */
    function UpperSound(m: MathLib, points: seq<Point>, soundN: nat, s: seq<int>): (r: seq<int>)
      requires Valid() && LogsPositive(m) && PowSigned(m)
      requires 0 < AmpDiv(|points|, stepDistance) && 2 * soundN <= |s|
      ensures |r| == |s|
    {
      var n := |points|;
      var s1 := Synthesized(m, UpperPass(n, soundN, 0), DistanceHistogram(points, LeftEar, maxCounter), s);
      Synthesized(m, UpperPass(n, soundN, 1), DistanceHistogram(points, RightEar, maxCounter), s1)
    }

    /** The stereo buffer after `RenderPointcloudToSound`: left and right
        ears overwrite channels 0 and 1, then, only when `lower_distance > 0`,
        the lower ears add to them. */
    function PointcloudSound(m: MathLib, points: seq<Point>, soundN: nat, s: seq<int>): (r: seq<int>)
      requires Valid() && LogsPositive(m) && PowSigned(m)
      requires 0 < AmpDiv(|points|, stepDistance) && 2 * soundN <= |s|
      ensures |r| == |s|
    {
      var n := |points|;
      var s2 := UpperSound(m, points, soundN, s);
      if 0.0 < lowerDistance then
        var s3 := Synthesized(m, LowerPass(n, soundN, 0), DistanceHistogram(points, LowerLeftEar, maxCounter), s2);
        Synthesized(m, LowerPass(n, soundN, 1), DistanceHistogram(points, LowerRightEar, maxCounter), s3)
      else s2
    }

    /** The number of leading frames of each channel the passes write. */
    function CoveredFrames(nPoints: nat, soundN: nat): nat
      requires Valid() && 0 < AmpDiv(nPoints, stepDistance)
    {
      Covered(maxCounter, UpperPass(nPoints, soundN, 0))
    }

    // -------------------------------------------------------------------
    // Properties of the specification

    /** Nothing from `2*sound_n` on changes. */
    lemma PointcloudBeyondBuffer(m: MathLib, points: seq<Point>, soundN: nat, s: seq<int>, k: nat)
      requires Valid() && LogsPositive(m) && PowSigned(m) && SineBounded(m)
      requires 0 < AmpDiv(|points|, stepDistance) && 2 * soundN <= k < |s|
      ensures PointcloudSound(m, points, soundN, s)[k] == s[k]
    {
      var n := |points|;
      var s1 := Synthesized(m, UpperPass(n, soundN, 0), DistanceHistogram(points, LeftEar, maxCounter), s);
      var s2 := UpperSound(m, points, soundN, s);
      SynthesizedFrame(m, UpperPass(n, soundN, 0), DistanceHistogram(points, LeftEar, maxCounter), s, k);
      SynthesizedFrame(m, UpperPass(n, soundN, 1), DistanceHistogram(points, RightEar, maxCounter), s1, k);
      if 0.0 < lowerDistance {
        var s3 := Synthesized(m, LowerPass(n, soundN, 0), DistanceHistogram(points, LowerLeftEar, maxCounter), s2);
        SynthesizedFrame(m, LowerPass(n, soundN, 0), DistanceHistogram(points, LowerLeftEar, maxCounter), s2, k);
        SynthesizedFrame(m, LowerPass(n, soundN, 1), DistanceHistogram(points, LowerRightEar, maxCounter), s3, k);
      }
    }

    /** After the overwriting passes, a written sample is at most the pass
        amplitude in magnitude. */
    lemma UpperSoundBound(m: MathLib, points: seq<Point>, soundN: nat, s: seq<int>, k: nat)
      requires Valid() && LogsPositive(m) && PowSigned(m) && SineBounded(m)
      requires 0 < AmpDiv(|points|, stepDistance) && 2 * soundN <= |s| && k < |s|
      requires k / 2 < CoveredFrames(|points|, soundN)
      ensures Abs(UpperSound(m, points, soundN, s)[k]) <= PassAmplitude(lowerDistance)
    {
      var n := |points|;
      var p0 := UpperPass(n, soundN, 0);
      var p1 := UpperPass(n, soundN, 1);
      var hL := DistanceHistogram(points, LeftEar, maxCounter);
      var hR := DistanceHistogram(points, RightEar, maxCounter);
      var s1 := Synthesized(m, p0, hL, s);
      assert Covered(maxCounter, p1) == Covered(maxCounter, p0);
      SynthesizedFrame(m, p0, hL, s, k);
      SynthesizedFrame(m, p1, hR, s1, k);
    }

    /** Every written sample fits in `audio_t`: an overwritten sample is at
        most `audio_A` in magnitude, or, with lower passes, at most
        `audio_A/2` from the upper pass plus `audio_A/2` from the lower one. */
    lemma PointcloudFitsInt16(m: MathLib, points: seq<Point>, soundN: nat, s: seq<int>, k: nat)
      requires Valid() && LogsPositive(m) && PowSigned(m) && SineBounded(m)
      requires 0 < AmpDiv(|points|, stepDistance) && 2 * soundN <= |s| && k < |s|
      requires k / 2 < CoveredFrames(|points|, soundN)
      ensures 0.0 < lowerDistance ==> Abs(PointcloudSound(m, points, soundN, s)[k]) <= 2 * (AUDIO_A / 2)
      ensures InInt16(PointcloudSound(m, points, soundN, s)[k])
    {
      var n := |points|;
      var s2 := UpperSound(m, points, soundN, s);
      UpperSoundBound(m, points, soundN, s, k);
      if 0.0 < lowerDistance {
        var s3 := Synthesized(m, LowerPass(n, soundN, 0), DistanceHistogram(points, LowerLeftEar, maxCounter), s2);
        SynthesizedFrame(m, LowerPass(n, soundN, 0), DistanceHistogram(points, LowerLeftEar, maxCounter), s2, k);
        SynthesizedFrame(m, LowerPass(n, soundN, 1), DistanceHistogram(points, LowerRightEar, maxCounter), s3, k);
      }
    }

    /** The upper passes overwrite: the samples they write do not depend on
        what the buffer held before the call. */
    lemma PointcloudForgetsOldSignal(m: MathLib, points: seq<Point>, soundN: nat, s: seq<int>, s': seq<int>, k: nat)
      requires Valid() && LogsPositive(m) && PowSigned(m) && SineBounded(m)
      requires 0 < AmpDiv(|points|, stepDistance) && 2 * soundN <= |s| == |s'| && k < |s|
      requires k / 2 < CoveredFrames(|points|, soundN)
      ensures PointcloudSound(m, points, soundN, s)[k] == PointcloudSound(m, points, soundN, s')[k]
    {
      var n := |points|;
      var hL := DistanceHistogram(points, LeftEar, maxCounter);
      var hR := DistanceHistogram(points, RightEar, maxCounter);
      var p0 := UpperPass(n, soundN, 0);
      var p1 := UpperPass(n, soundN, 1);
      var s1 := Synthesized(m, p0, hL, s);
      var s1' := Synthesized(m, p0, hL, s');
      var s2 := Synthesized(m, p1, hR, s1);
      var s2' := Synthesized(m, p1, hR, s1');
      forall i | 0 <= i < |s| && i / 2 < CoveredFrames(n, soundN)
        ensures s2[i] == s2'[i]
      {
        if i % 2 == 0 {
          OverwriteForgets(m, p0, hL, s, s', i);
          SynthesizedFrame(m, p1, hR, s1, i);
          SynthesizedFrame(m, p1, hR, s1', i);
        } else {
          SynthesizedFrame(m, p0, hL, s, i);
          SynthesizedFrame(m, p0, hL, s', i);
          OverwriteForgets(m, p1, hR, s1, s1', i);
        }
      }
      if 0.0 < lowerDistance {
        var q0 := LowerPass(n, soundN, 0);
        var q1 := LowerPass(n, soundN, 1);
        var hLL := DistanceHistogram(points, LowerLeftEar, maxCounter);
        var hLR := DistanceHistogram(points, LowerRightEar, maxCounter);
        var s3 := Synthesized(m, q0, hLL, s2);
        var s3' := Synthesized(m, q0, hLL, s2');
        SynthesizedLocal(m, q0, hLL, s2, s2', k);
        SynthesizedLocal(m, q1, hLR, s3, s3', k);
      }
    }

    // -------------------------------------------------------------------
    // The binning pass (lines 468-511), one small loop per method

    /** `for (i = 0; i < max_counter; ++i) my_counter[i] = 0` on the row of worker `w`. */
    method ZeroRow(w: nat)
      requires Valid() && w < counters.Length0
      modifies counters
      ensures forall j :: 0 <= j < maxCounter ==> counters[w, j] == 0
      ensures forall r, j :: 0 <= r < counters.Length0 && r != w && 0 <= j < maxCounter ==>
        counters[r, j] == old(counters[r, j])
    {
      var i := 0;
      while i < maxCounter
        invariant 0 <= i <= maxCounter
        invariant forall j :: 0 <= j < i ==> counters[w, j] == 0
        invariant forall r, j :: 0 <= r < counters.Length0 && r != w && 0 <= j < maxCounter ==>
          counters[r, j] == old(counters[r, j])
      {
        counters[w, i] := 0;
        i := i + 1;
      }
    }

    /** Worker `w`'s share of the `omp for` loop: points `[lo, hi)`, skipping
        invalid points and buckets from `max_counter` on. */
    method CountRange(points: seq<Point>, ear: Ear, w: nat, lo: nat, hi: nat)
      requires Valid() && w < counters.Length0 && lo <= hi <= |points|
      requires forall j :: 0 <= j < maxCounter ==> counters[w, j] == 0
      modifies counters
      ensures forall j :: 0 <= j < maxCounter ==> counters[w, j] == Count(points[lo..hi], ear, j)
      ensures forall r, j :: 0 <= r < counters.Length0 && r != w && 0 <= j < maxCounter ==>
        counters[r, j] == old(counters[r, j])
    {
      assert points[lo..lo] == [];
      var i := lo;
      while i < hi
        invariant lo <= i <= hi
        invariant forall j :: 0 <= j < maxCounter ==> counters[w, j] == Count(points[lo..i], ear, j)
        invariant forall r, j :: 0 <= r < counters.Length0 && r != w && 0 <= j < maxCounter ==>
          counters[r, j] == old(counters[r, j])
      {
        var p := points[i];
        assert points[lo..i + 1][..i - lo] == points[lo..i];
        assert points[lo..i + 1][i - lo] == p;
        if p.valid {
          var bin := Bin(p, ear);
          if bin < maxCounter {
            counters[w, bin] := counters[w, bin] + 1;
          }
        }
        i := i + 1;
      }
    }

    /** One row of the merge: `counters[0][j] += counters[i][j]; counters[i][j] = 0`. */
    method MergeRow(i: nat)
      requires Valid() && 0 < i < counters.Length0
      modifies counters
      ensures forall j :: 0 <= j < maxCounter ==>
        counters[0, j] == old(counters[0, j]) + old(counters[i, j]) && counters[i, j] == 0
      ensures forall r, j :: 0 <= r < counters.Length0 && r != 0 && r != i && 0 <= j < maxCounter ==>
        counters[r, j] == old(counters[r, j])
    {
      var j := 0;
      while j < maxCounter
        invariant 0 <= j <= maxCounter
        invariant forall l :: 0 <= l < j ==>
          counters[0, l] == old(counters[0, l]) + old(counters[i, l]) && counters[i, l] == 0
        invariant forall l :: j <= l < maxCounter ==>
          counters[0, l] == old(counters[0, l]) && counters[i, l] == old(counters[i, l])
        invariant forall r, l :: 0 <= r < counters.Length0 && r != 0 && r != i && 0 <= l < maxCounter ==>
          counters[r, l] == old(counters[r, l])
      {
        counters[0, j] := counters[0, j] + counters[i, j];
        counters[i, j] := 0;
        j := j + 1;
      }
    }

    /** The parallel region (lines 468-500): each used worker zeroes its
        row and counts its share of the points. */
    method CountShares(points: seq<Point>, ear: Ear, bounds: seq<nat>)
      requires Valid() && IsSplit(bounds, |points|) && |bounds| - 1 <= numCounters
      modifies counters
      ensures forall r, j :: 0 <= r < |bounds| - 1 && 0 <= j < maxCounter ==>
        counters[r, j] == Count(points[bounds[r]..bounds[r + 1]], ear, j)
      ensures forall r, j :: |bounds| - 1 <= r < counters.Length0 && 0 <= j < maxCounter ==>
        counters[r, j] == old(counters[r, j])
    {
      var used := |bounds| - 1;
      var w := 0;
      while w < used
        invariant 0 <= w <= used
        invariant forall r, j :: 0 <= r < w && 0 <= j < maxCounter ==>
          counters[r, j] == Count(points[bounds[r]..bounds[r + 1]], ear, j)
        invariant forall r, j :: w <= r < counters.Length0 && 0 <= j < maxCounter ==>
          counters[r, j] == old(counters[r, j])
      {
        assert bounds[w] <= bounds[w + 1] <= bounds[|bounds| - 1];
        ZeroRow(w);
        CountRange(points, ear, w, bounds[w], bounds[w + 1]);
        w := w + 1;
      }
    }

    /** The merge (lines 503-511): rows `1 .. num_used_counters-1` are added
        into row 0 and zeroed. */
    method MergeShares(points: seq<Point>, ear: Ear, bounds: seq<nat>)
      requires Valid() && IsSplit(bounds, |points|) && |bounds| - 1 <= numCounters
      requires forall r, j :: 0 <= r < |bounds| - 1 && 0 <= j < maxCounter ==>
        counters[r, j] == Count(points[bounds[r]..bounds[r + 1]], ear, j)
      modifies counters
      ensures forall j :: 0 <= j < maxCounter ==> counters[0, j] == WorkerSum(points, bounds, ear, j, |bounds| - 1)
      ensures forall r, j :: 0 < r < |bounds| - 1 && 0 <= j < maxCounter ==> counters[r, j] == 0
      ensures forall r, j :: |bounds| - 1 <= r < counters.Length0 && 0 <= j < maxCounter ==>
        counters[r, j] == old(counters[r, j])
    {
      var used := |bounds| - 1;
      var i := 1;
      while i < used
        invariant 1 <= i <= used
        invariant forall j :: 0 <= j < maxCounter ==> counters[0, j] == WorkerSum(points, bounds, ear, j, i)
        invariant forall r, j :: 0 < r < i && 0 <= j < maxCounter ==> counters[r, j] == 0
        invariant forall r, j :: i <= r < used && 0 <= j < maxCounter ==>
          counters[r, j] == Count(points[bounds[r]..bounds[r + 1]], ear, j)
        invariant forall r, j :: used <= r < counters.Length0 && 0 <= j < maxCounter ==>
          counters[r, j] == old(counters[r, j])
      {
        MergeRow(i);
        i := i + 1;
      }
    }

    /** The whole binning pass: row 0 ends up holding the histogram of a
        single sequential scan, whatever the split and whatever the rows
        held before, the other used rows are zero, and the unused rows are
        untouched. */
    method CountPoints(points: seq<Point>, ear: Ear, bounds: seq<nat>)
      requires Valid() && IsSplit(bounds, |points|) && |bounds| - 1 <= numCounters
      modifies counters
      ensures forall j :: 0 <= j < maxCounter ==> counters[0, j] == Count(points, ear, j)
      ensures forall r, j :: 0 < r < |bounds| - 1 && 0 <= j < maxCounter ==> counters[r, j] == 0
      ensures forall r, j :: |bounds| - 1 <= r < counters.Length0 && 0 <= j < maxCounter ==>
        counters[r, j] == old(counters[r, j])
    {
      CountShares(points, ear, bounds);
      MergeShares(points, ear, bounds);
      forall j | 0 <= j < maxCounter
        ensures counters[0, j] == Count(points, ear, j)
      {
        MergeIsSequentialScan(points, bounds, ear, j);
      }
    }

    /** `loudness_data[2*i+channel] = (float)counters[0][i]/amp_div` (lines 528-533). */
    method RecordLoudness(channel: nat, ampDiv: nat)
      requires Valid() && channel < 2 && 0 < ampDiv
      modifies loudnessData
      ensures forall k :: 0 <= k < loudnessData.Length ==>
        loudnessData[k] == if k % 2 == channel then counters[0, k / 2] as real / ampDiv as real
                           else old(loudnessData[k])
    {
      var i := 0;
      while i < loudnessN
        invariant 0 <= i <= loudnessN
        invariant forall k :: 0 <= k < loudnessData.Length ==>
          loudnessData[k] == if k % 2 == channel && k / 2 < i then counters[0, k / 2] as real / ampDiv as real
                             else old(loudnessData[k])
      {
        loudnessData[2 * i + channel] := counters[0, i] as real / ampDiv as real;
        i := i + 1;
      }
    }

    /** One pass (lines 455-534): bin the points into a fresh histogram for
        the ear, render it into `channel`, and, for an overwriting pass with
        `save_loudness`, record the relative amplitudes and the normalised
        counts. */
    method RenderDistanceToSound(m: MathLib, ear: Ear, points: seq<Point>, bounds: seq<nat>,
                                 channel: nat, sound: array<int>, soundN: nat, setNotAdd: bool,
                                 frequency: real, doublingLength: real, background: real)
      requires Valid() && LogsPositive(m) && PowSigned(m)
      requires IsSplit(bounds, |points|) && |bounds| - 1 <= numCounters
      requires channel < 2 && 2 * soundN <= sound.Length && 0 < AmpDiv(|points|, stepDistance)
      modifies counters, sound, loudnessData, amplitudesData
      ensures forall j :: 0 <= j < maxCounter ==> counters[0, j] == Count(points, ear, j)
      ensures forall r, j :: 0 < r < |bounds| - 1 && 0 <= j < maxCounter ==> counters[r, j] == 0
      ensures forall r, j :: |bounds| - 1 <= r < counters.Length0 && 0 <= j < maxCounter ==>
        counters[r, j] == old(counters[r, j])
      ensures sound[..] == Synthesized(m, PassParams(|points|, soundN, channel, setNotAdd, frequency, doublingLength, background),
                                       DistanceHistogram(points, ear, maxCounter), old(sound[..]))
      ensures setNotAdd && saveLoudness ==>
        amplitudesData[..] == AmplitudeTrace(m, PassParams(|points|, soundN, channel, setNotAdd, frequency, doublingLength, background),
                                             DistanceHistogram(points, ear, maxCounter), old(amplitudesData[..]))
      ensures !(setNotAdd && saveLoudness) ==> amplitudesData[..] == old(amplitudesData[..])
      ensures forall k :: 0 <= k < loudnessData.Length ==>
        loudnessData[k] == if setNotAdd && saveLoudness && k % 2 == channel
                           then Count(points, ear, k / 2) as real / AmpDiv(|points|, stepDistance) as real
                           else old(loudnessData[k])
    {
      CountPoints(points, ear, bounds);
      var h := seq(maxCounter, j requires 0 <= j < maxCounter reads counters => counters[0, j]);
      assert h == DistanceHistogram(points, ear, maxCounter);
      var ampDiv := AmpDiv(|points|, stepDistance);
      var p := PassParams(|points|, soundN, channel, setNotAdd, frequency, doublingLength, background);
      RenderAmplitudesToFrequencyWithConstantTimeSteps(m, p, h, sound, if setNotAdd && saveLoudness then amplitudesData else null);
      if setNotAdd && saveLoudness {
        RecordLoudness(channel, ampDiv);
      }
    }

    /** Lines 306-353: the left and right ears overwrite channels 0 and 1;
        only when `lower_distance > 0` do the lower ears add to them.  Only
        the overwriting passes record loudness, so the records are those of
        the left and right ears. */
    method RenderPointcloudToSound(m: MathLib, points: seq<Point>, bounds: seq<nat>, sound: array<int>, soundN: nat)
      requires Valid() && LogsPositive(m) && PowSigned(m)
      requires IsSplit(bounds, |points|) && |bounds| - 1 <= numCounters
      requires 2 * soundN <= sound.Length && 0 < AmpDiv(|points|, stepDistance)
      modifies counters, sound, loudnessData, amplitudesData
      ensures sound[..] == PointcloudSound(m, points, soundN, old(sound[..]))
      ensures forall j :: 0 <= j < maxCounter ==>
        counters[0, j] == Count(points, if 0.0 < lowerDistance then LowerRightEar else RightEar, j)
      ensures saveLoudness ==>
        amplitudesData[..] == AmplitudeTrace(m, UpperPass(|points|, soundN, 1), DistanceHistogram(points, RightEar, maxCounter),
                                AmplitudeTrace(m, UpperPass(|points|, soundN, 0), DistanceHistogram(points, LeftEar, maxCounter),
                                  old(amplitudesData[..])))
      ensures !saveLoudness ==> amplitudesData[..] == old(amplitudesData[..])
      ensures forall k :: 0 <= k < loudnessData.Length ==>
        loudnessData[k] == if saveLoudness
                           then Count(points, if k % 2 == 0 then LeftEar else RightEar, k / 2) as real
                                / AmpDiv(|points|, stepDistance) as real
                           else old(loudnessData[k])
    {
      RenderDistanceToSound(m, LeftEar, points, bounds, 0, sound, soundN, true,
                            baseFrequency, freqDoublingLength, backgroundAmplitude);
      RenderDistanceToSound(m, RightEar, points, bounds, 1, sound, soundN, true,
                            baseFrequency, freqDoublingLength, backgroundAmplitude);
      if 0.0 < lowerDistance {
        RenderDistanceToSound(m, LowerLeftEar, points, bounds, 0, sound, soundN, false,
                              lowerFrequency, lowerFreqDoublingLength, lowerAmplitude);
        RenderDistanceToSound(m, LowerRightEar, points, bounds, 1, sound, soundN, false,
                              lowerFrequency, lowerFreqDoublingLength, lowerAmplitude);
      }
    }
  }
}
