/** Constants shared by the renderer and the playback controller (src/Defaults.h),
    and the numeric conventions of the C++ code: truncating float-to-integer
    conversion and the fixed-width integer ranges that matter. */
module Defaults {

  /** Audio sample rate in frames per second. */
  const SAMPLE_RATE: nat := 44100

  /** Full-scale amplitude of an `audio_t` (int16) sample. */
  const AUDIO_A: int := 32767

  const INT16_MIN: int := -32768
  const INT16_MAX: int := 32767

  /** Number of values of an `unsigned int` (32 bits) and of an `unsigned long` (64 bits). */
  const UINT32_MODULUS: nat := 0x1_0000_0000
  const UINT64_MODULUS: nat := 0x1_0000_0000_0000_0000

  const INT64_MIN: int := -0x8000_0000_0000_0000
  const INT64_MAX: int := 0x7FFF_FFFF_FFFF_FFFF

  predicate InInt16(x: int) { INT16_MIN <= x <= INT16_MAX }

  predicate InInt64(x: int) { INT64_MIN <= x <= INT64_MAX }

  function Abs(x: int): (r: nat)
    ensures r == x || r == -x
  {
    if x < 0 then -x else x
  }

  /** Conversion of a floating-point value to an integer type, which in C++
      truncates toward zero.  (Out-of-range conversions are undefined in C++
      and are not modelled: the result here is the unbounded integer.) */
  function Trunc(x: real): (r: int)
    ensures 0.0 <= x ==> 0 <= r && r as real <= x < r as real + 1.0
    ensures x < 0.0 ==> r <= 0 && r as real - 1.0 < x <= r as real
  {
    if 0.0 <= x then x.Floor else -((-x).Floor)
  }

  lemma {:induction false} TruncAbsBound(x: real, bound: nat)
    requires -(bound as real) <= x <= bound as real
    ensures Abs(Trunc(x)) <= bound
  {
    if 0.0 <= x {
      assert Trunc(x) as real <= x;
    } else {
      assert x <= Trunc(x) as real;
    }
  }

  /** Truncation of non-negative values is monotone. */
  lemma {:induction false} TruncMonotone(x: real, y: real)
    requires 0.0 <= x <= y
    ensures Trunc(x) <= Trunc(y)
  {
    assert Trunc(x) as real <= x <= y < Trunc(y) as real + 1.0;
  }

  /** Adding a non-negative float to an integer and truncating, as `u += x`
      does on an unsigned counter, adds the floor of the float. */
  lemma {:induction false} TruncShift(u: nat, x: real)
    requires 0.0 <= x
    ensures Trunc(u as real + x) == u + x.Floor
  {
    var f := x.Floor;
    assert f as real <= x < f as real + 1.0;
    var g := (u as real + x).Floor;
    assert g as real <= u as real + x < g as real + 1.0;
    assert g == u + f;
  }

  /** Storing a computed sample into an `audio_t` slot, either overwriting it
      (`x = v`) or adding to it (`x = v + k_add * x`, `x += v`): the sum is
      formed in floating point and truncated. */
  function Mix(value: real, old_: int, setNotAdd: bool): int {
    Trunc(value + (if setNotAdd then 0 else old_) as real)
  }

  lemma {:induction false} MixBound(value: real, bound: nat, old_: int, setNotAdd: bool)
    requires -(bound as real) <= value <= bound as real
    ensures setNotAdd ==> Abs(Mix(value, old_, setNotAdd)) <= bound
    ensures !setNotAdd ==> Abs(Mix(value, old_, setNotAdd)) <= bound + Abs(old_)
  {
    var o := if setNotAdd then 0 else old_;
    TruncAbsBound(value + o as real, bound + Abs(o));
  }
}
