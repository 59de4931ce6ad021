/** The distance histogram of one binning pass of `SimpleDepthRenderer`
    (src/SoundRenderer.cpp:481-511), as specification functions.

    A point of the cloud is abstracted to what the pass uses of it: whether
    its depth passes the `z < 0.0001` validity test, and, for each of the four
    ear positions the renderer listens from, the bucket number
    `(unsigned int)(sqrt(dx*dx+dy*dy+dz*dz)/step_distance)`, computed outside
    the model. */
module Histogram {

  /** The four ear positions used by `RenderPointcloudToSound`:
      x = -stereo/2 or +stereo/2, and y = 0 or y = -lower_distance. */
  datatype Ear = LeftEar | RightEar | LowerLeftEar | LowerRightEar

  datatype Point = Point(
    valid: bool,
    leftBin: nat,
    rightBin: nat,
    lowerLeftBin: nat,
    lowerRightBin: nat)

  function Bin(p: Point, ear: Ear): nat {
    match ear
    case LeftEar => p.leftBin
    case RightEar => p.rightBin
    case LowerLeftEar => p.lowerLeftBin
    case LowerRightEar => p.lowerRightBin
  }

  /** Whether the pass increments bucket `j` for point `p`. */
  predicate Hits(p: Point, ear: Ear, j: nat) {
    p.valid && Bin(p, ear) == j
  }

  /** Number of points of `ps` that fall into bucket `j`: the reference,
      single sequential scan. */
  function Count(ps: seq<Point>, ear: Ear, j: nat): (c: nat)
    ensures c <= |ps|
  {
    if ps == [] then 0
    else Count(ps[..|ps| - 1], ear, j) + (if Hits(ps[|ps| - 1], ear, j) then 1 else 0)
  }

  /** The histogram of bucket counts, `max_counter` buckets long. */
  function DistanceHistogram(ps: seq<Point>, ear: Ear, maxCounter: nat): (h: seq<nat>)
    ensures |h| == maxCounter
    ensures forall j :: 0 <= j < maxCounter ==> h[j] == Count(ps, ear, j)
  {
    seq(maxCounter, j requires 0 <= j < maxCounter => Count(ps, ear, j))
  }

  /** Number of points that are valid and whose bucket is below `maxCounter`,
      i.e. the points that some bucket counts. */
  function CountedPoints(ps: seq<Point>, ear: Ear, maxCounter: nat): (c: nat)
    ensures c <= |ps|
  {
    if ps == [] then 0
    else
      var p := ps[|ps| - 1];
      CountedPoints(ps[..|ps| - 1], ear, maxCounter)
        + (if p.valid && Bin(p, ear) < maxCounter then 1 else 0)
  }

  function SumBuckets(h: seq<nat>): nat {
    if h == [] then 0 else SumBuckets(h[..|h| - 1]) + h[|h| - 1]
  }

  lemma {:induction false} CountAppend(a: seq<Point>, b: seq<Point>, ear: Ear, j: nat)
    ensures Count(a + b, ear, j) == Count(a, ear, j) + Count(b, ear, j)
    decreases |b|
  {
    if b == [] {
      assert a + b == a;
    } else {
      var b' := b[..|b| - 1];
      assert (a + b)[..|a + b| - 1] == a + b';
      assert (a + b)[|a + b| - 1] == b[|b| - 1];
      CountAppend(a, b', ear, j);
    }
  }

  /** Summing the indicator "bucket of p is j" over the first m buckets
      gives 1 exactly when p is counted by some bucket below m. */
  lemma {:induction false} IndicatorSum(p: Point, ear: Ear, m: nat)
    ensures SumBuckets(seq(m, j requires 0 <= j < m => if Hits(p, ear, j) then 1 else 0))
         == (if p.valid && Bin(p, ear) < m then 1 else 0)
  {
    var s := seq(m, j requires 0 <= j < m => if Hits(p, ear, j) then 1 else 0);
    if m > 0 {
      var s' := seq(m - 1, j requires 0 <= j < m - 1 => if Hits(p, ear, j) then 1 else 0);
      assert s[..m - 1] == s';
      IndicatorSum(p, ear, m - 1);
    }
  }

  lemma {:induction false} SumBucketsAdd(x: seq<nat>, y: seq<nat>, z: seq<nat>)
    requires |x| == |y| == |z|
    requires forall j :: 0 <= j < |z| ==> z[j] == x[j] + y[j]
    ensures SumBuckets(z) == SumBuckets(x) + SumBuckets(y)
    decreases |z|
  {
    if z != [] {
      var n := |z| - 1;
      SumBucketsAdd(x[..n], y[..n], z[..n]);
    }
  }

  lemma {:induction false} SumBucketsZero(h: seq<nat>)
    requires forall j :: 0 <= j < |h| ==> h[j] == 0
    ensures SumBuckets(h) == 0
    decreases |h|
  {
    if h != [] {
      SumBucketsZero(h[..|h| - 1]);
    }
  }

  /** The total over all buckets is the number of valid points whose bucket
      is below `max_counter`, which is at most the number of points. */
  lemma {:induction false} HistogramTotal(ps: seq<Point>, ear: Ear, maxCounter: nat)
    ensures SumBuckets(DistanceHistogram(ps, ear, maxCounter)) == CountedPoints(ps, ear, maxCounter)
    ensures SumBuckets(DistanceHistogram(ps, ear, maxCounter)) <= |ps|
    decreases |ps|
  {
    if ps == [] {
      SumBucketsZero(DistanceHistogram(ps, ear, maxCounter));
    } else {
      var ps' := ps[..|ps| - 1];
      var p := ps[|ps| - 1];
      HistogramTotal(ps', ear, maxCounter);
      var ind := seq(maxCounter, j requires 0 <= j < maxCounter => if Hits(p, ear, j) then 1 else 0);
      IndicatorSum(p, ear, maxCounter);
      forall j | 0 <= j < maxCounter
        ensures DistanceHistogram(ps, ear, maxCounter)[j] == DistanceHistogram(ps', ear, maxCounter)[j] + ind[j]
      {
        assert ps[..|ps| - 1] == ps';
      }
      SumBucketsAdd(DistanceHistogram(ps', ear, maxCounter), ind, DistanceHistogram(ps, ear, maxCounter));
      assert SumBuckets(ind) == (if p.valid && Bin(p, ear) < maxCounter then 1 else 0);
      assert CountedPoints(ps, ear, maxCounter) == CountedPoints(ps', ear, maxCounter)
        + (if p.valid && Bin(p, ear) < maxCounter then 1 else 0);
    }
  }

  /** A split of the point range `[0, n)` among `|bounds| - 1` workers:
      worker `w` scans `[bounds[w], bounds[w+1])`. */
  predicate IsSplit(bounds: seq<nat>, n: nat) {
    && 2 <= |bounds|
    && bounds[0] == 0
    && bounds[|bounds| - 1] == n
    && forall w, w' :: 0 <= w <= w' < |bounds| ==> bounds[w] <= bounds[w']
  }

  /** Sum, over the first `w` workers, of their private counts for bucket `j`. */
  function WorkerSum(ps: seq<Point>, bounds: seq<nat>, ear: Ear, j: nat, w: nat): nat
    requires IsSplit(bounds, |ps|) && w < |bounds|
  {
    if w == 0 then 0
    else WorkerSum(ps, bounds, ear, j, w - 1) + Count(ps[bounds[w - 1]..bounds[w]], ear, j)
  }

  /** Summing the workers' counts over any split gives the count of the
      points they scanned together. */
  lemma {:induction false} WorkerSumPrefix(ps: seq<Point>, bounds: seq<nat>, ear: Ear, j: nat, w: nat)
    requires IsSplit(bounds, |ps|) && w < |bounds|
    ensures bounds[w] <= |ps|
    ensures WorkerSum(ps, bounds, ear, j, w) == Count(ps[..bounds[w]], ear, j)
  {
    if w == 0 {
      assert ps[..bounds[0]] == [];
    } else {
      WorkerSumPrefix(ps, bounds, ear, j, w - 1);
      assert ps[..bounds[w]] == ps[..bounds[w - 1]] + ps[bounds[w - 1]..bounds[w]];
      CountAppend(ps[..bounds[w - 1]], ps[bounds[w - 1]..bounds[w]], ear, j);
    }
  }

  /** The merged histogram does not depend on how the points were split
      among the workers: it is the single sequential scan. */
  lemma MergeIsSequentialScan(ps: seq<Point>, bounds: seq<nat>, ear: Ear, j: nat)
    requires IsSplit(bounds, |ps|)
    ensures WorkerSum(ps, bounds, ear, j, |bounds| - 1) == Count(ps, ear, j)
  {
    WorkerSumPrefix(ps, bounds, ear, j, |bounds| - 1);
    assert ps[..bounds[|bounds| - 1]] == ps;
  }
}
