/** Writing one channel of an interleaved stereo buffer of `audio_t` samples:
    frame `f` of channel `c` is the sample at index `2*f + c`.  Both
    synthesizers write a run of consecutive frames of one channel, each frame
    either overwritten or added to (see `Mix`). */
module Channels {
  import opened Defaults

  /** The buffer `s` after frames `lo .. hi-1` of channel `ch` have been
      written, in increasing order, with the values `v[f]`. */
  function Painted(s: seq<int>, ch: nat, setNotAdd: bool, v: seq<real>, lo: nat, hi: nat): (r: seq<int>)
    requires ch < 2 && lo <= hi <= |v| && 2 * hi <= |s|
    ensures |r| == |s|
    decreases hi - lo
  {
    if hi == lo then s
    else
      var j := 2 * (hi - 1) + ch;
      Painted(s, ch, setNotAdd, v, lo, hi - 1)[j := Mix(v[hi - 1], s[j], setNotAdd)]
  }

  /** Sample by sample: a sample of channel `ch` whose frame lies in
      `[lo, hi)` holds its frame's value mixed with its old value, and every
      other sample keeps its old value. */
  lemma {:induction false} PaintedAt(s: seq<int>, ch: nat, setNotAdd: bool, v: seq<real>, lo: nat, hi: nat, k: nat)
    requires ch < 2 && lo <= hi <= |v| && 2 * hi <= |s| && k < |s|
    ensures k % 2 == ch && lo <= k / 2 < hi ==> Painted(s, ch, setNotAdd, v, lo, hi)[k] == Mix(v[k / 2], s[k], setNotAdd)
    ensures !(k % 2 == ch && lo <= k / 2 < hi) ==> Painted(s, ch, setNotAdd, v, lo, hi)[k] == s[k]
    decreases hi - lo
  {
    if hi > lo {
      PaintedAt(s, ch, setNotAdd, v, lo, hi - 1, k);
    }
  }

  /** One more frame: the sample of frame `hi` is mixed with the value it
      still holds. */
  lemma PaintedNext(s: seq<int>, ch: nat, setNotAdd: bool, v: seq<real>, lo: nat, hi: nat)
    requires ch < 2 && lo <= hi < |v| && 2 * (hi + 1) <= |s|
    ensures Painted(s, ch, setNotAdd, v, lo, hi + 1)
      == Painted(s, ch, setNotAdd, v, lo, hi)[2 * hi + ch := Mix(v[hi], Painted(s, ch, setNotAdd, v, lo, hi)[2 * hi + ch], setNotAdd)]
  {
    PaintedAt(s, ch, setNotAdd, v, lo, hi, 2 * hi + ch);
  }

  /** Writing `[lo, mid)` and then `[mid, hi)` is writing `[lo, hi)`: the
      windows of consecutive buckets compose. */
  lemma {:induction false} PaintedSplit(s: seq<int>, ch: nat, setNotAdd: bool, v: seq<real>, lo: nat, mid: nat, hi: nat)
    requires ch < 2 && lo <= mid <= hi <= |v| && 2 * hi <= |s|
    ensures Painted(Painted(s, ch, setNotAdd, v, lo, mid), ch, setNotAdd, v, mid, hi)
         == Painted(s, ch, setNotAdd, v, lo, hi)
  {
    var a := Painted(Painted(s, ch, setNotAdd, v, lo, mid), ch, setNotAdd, v, mid, hi);
    var b := Painted(s, ch, setNotAdd, v, lo, hi);
    forall k | 0 <= k < |s|
      ensures a[k] == b[k]
    {
      PaintedAt(s, ch, setNotAdd, v, lo, mid, k);
      PaintedAt(Painted(s, ch, setNotAdd, v, lo, mid), ch, setNotAdd, v, mid, hi, k);
      PaintedAt(s, ch, setNotAdd, v, lo, hi, k);
    }
  }

  /** Only the values of the frames written matter. */
  lemma {:induction false} PaintedAgrees(s: seq<int>, ch: nat, setNotAdd: bool, v: seq<real>, v': seq<real>, lo: nat, hi: nat)
    requires ch < 2 && lo <= hi <= |v| && hi <= |v'| && 2 * hi <= |s|
    requires forall f :: lo <= f < hi ==> v[f] == v'[f]
    ensures Painted(s, ch, setNotAdd, v, lo, hi) == Painted(s, ch, setNotAdd, v', lo, hi)
    decreases hi - lo
  {
    if hi > lo {
      PaintedAgrees(s, ch, setNotAdd, v, v', lo, hi - 1);
    }
  }

  /** The sample loop both synthesizers share: `for (j = 2*lo + ch; j <
      2*hi + ch; j += 2) sound_values[j] = sample((j - ch)/2) + k_add *
      sound_values[j]`, with `sample` the frame's signed value. */
  method PaintWindow(sound: array<int>, ch: nat, setNotAdd: bool, sample: nat -> real, lo: nat, hi: nat,
                     ghost v: seq<real>, ghost s0: seq<int>, ghost start: nat)
    requires ch < 2 && start <= lo <= hi <= |v| && 2 * hi <= sound.Length == |s0|
    requires forall f :: lo <= f < hi ==> v[f] == sample(f)
    requires sound[..] == Painted(s0, ch, setNotAdd, v, start, lo)
    modifies sound
    ensures sound[..] == Painted(s0, ch, setNotAdd, v, start, hi)
  {
    var j := 2 * lo + ch;
    ghost var f := lo;
    while j < 2 * hi + ch
      invariant j == 2 * f + ch && lo <= f <= hi
      invariant sound[..] == Painted(s0, ch, setNotAdd, v, start, f)
    {
      PaintedNext(s0, ch, setNotAdd, v, start, f);
      sound[j] := Mix(sample((j - ch) / 2), sound[j], setNotAdd);
      j := j + 2;
      f := f + 1;
    }
  }
}
