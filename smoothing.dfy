/** Gaussian smoothing of a sequence of unsigned amplitudes
    (src/SoundRenderer.cpp:199-252): `GenerateSmootingKernel` fills an
    odd-length kernel with a normalised Gaussian, and
    `ApplyKernelSmoothingToAmplitudes` convolves the amplitudes with it,
    leaving out the taps that fall outside the sequence and rounding every
    tap separately. */
module Smoothing {
  import opened Defaults
  import opened Numerics

  // ---------------------------------------------------------------------
  // Kernel generation

  function Product(a: real, b: real): real {
    a * b
  }

  lemma ProductPositive(a: real, b: real)
    requires (0.0 < a && 0.0 < b) || (a < 0.0 && b < 0.0)
    ensures 0.0 < Product(a, b)
  {
  }

  /** `sigma*sigma`. */
  function Square(x: real): real {
    x * x
  }

  lemma SquarePositive(x: real)
    requires x != 0.0
    ensures 0.0 < Square(x)
  {
    ProductPositive(x, x);
  }

  /** The variance term `2*M_PI*sigma*sigma` under the square root of `k1`. */
  function GaussVariance(sigma: real): real {
    2.0 * PI * Square(sigma)
  }

  lemma GaussVariancePositive(sigma: real)
    requires sigma != 0.0
    ensures 0.0 < GaussVariance(sigma)
  {
    SquarePositive(sigma);
  }

  /** `k1 = 1.0/sqrt(2*M_PI*sigma*sigma)`. */
  function GaussScale(m: MathLib, sigma: real): (k1: real)
    requires SqrtPositive(m) && sigma != 0.0
    ensures 0.0 < k1
  {
    GaussVariancePositive(sigma);
    1.0 / m.sqrt(GaussVariance(sigma))
  }

  /** `k2 = -1.0 / (2*sigma*sigma)`. */
  function GaussExponent(sigma: real): real
    requires sigma != 0.0
  {
    SquarePositive(sigma);
    -1.0 / (2.0 * Square(sigma))
  }

  /** `i*i` for the offset `i = j - kernel_n/2` of entry `j` from the centre. */
  function OffsetSquared(n: nat, j: int): int {
    (j - n / 2) * (j - n / 2)
  }

  /** Entries at the same distance from the centre have the same offset
      square. */
  lemma OffsetSquaredSymmetric(n: nat, j: int)
    requires n % 2 == 1
    ensures OffsetSquared(n, j) == OffsetSquared(n, n - 1 - j)
  {
    var i := j - n / 2;
    assert n - 1 - j - n / 2 == -i;
    assert (-i) * (-i) == i * i;
  }

  /** `k1*exp(k2*i*i)` for the offset square `i*i`. */
  function GaussTap(m: MathLib, k1: real, k2: real, offsetSquared: int): real {
    k1 * m.exp(k2 * offsetSquared as real)
  }

  lemma GaussTapPositive(m: MathLib, k1: real, k2: real, offsetSquared: int)
    requires ExpPositive(m) && 0.0 < k1
    ensures 0.0 < GaussTap(m, k1, k2, offsetSquared)
  {
    ProductPositive(k1, m.exp(k2 * offsetSquared as real));
  }

  /** The kernel before normalisation: entry `j` is `k1*exp(k2*i*i)` with
      `i = j - kernel_n/2`. */
  function RawKernel(m: MathLib, sigma: real, n: nat): (r: seq<real>)
    requires SqrtPositive(m) && sigma != 0.0
    ensures |r| == n
  {
    var k1 := GaussScale(m, sigma);
    var k2 := GaussExponent(sigma);
    seq(n, j => GaussTap(m, k1, k2, OffsetSquared(n, j)))
  }

  /** The sum of a sequence, accumulated from the front. */
  function Sum(s: seq<real>): real {
    if |s| == 0 then 0.0 else Sum(s[..|s| - 1]) + s[|s| - 1]
  }

  /** Every entry of `s` multiplied by `c`. */
  function Scaled(s: seq<real>, c: real): (r: seq<real>)
    ensures |r| == |s|
  {
    seq(|s|, i requires 0 <= i < |s| => s[i] * c)
  }

  /** The kernel `GenerateSmootingKernel` produces: the raw kernel multiplied
      by `k_sum = 1.0/kernel_sum`. */
  function Kernel(m: MathLib, sigma: real, n: nat): (r: seq<real>)
    requires SqrtPositive(m) && ExpPositive(m) && sigma != 0.0 && n % 2 == 1
    ensures |r| == n
  {
    RawKernelPositive(m, sigma, n);
    SumPositive(RawKernel(m, sigma, n));
    Scaled(RawKernel(m, sigma, n), 1.0 / Sum(RawKernel(m, sigma, n)))
  }

  lemma RawKernelPositive(m: MathLib, sigma: real, n: nat)
    requires SqrtPositive(m) && ExpPositive(m) && sigma != 0.0
    ensures forall j :: 0 <= j < n ==> 0.0 < RawKernel(m, sigma, n)[j]
  {
    forall j | 0 <= j < n
      ensures 0.0 < RawKernel(m, sigma, n)[j]
    {
      GaussTapPositive(m, GaussScale(m, sigma), GaussExponent(sigma), OffsetSquared(n, j));
    }
  }

  lemma {:induction false} SumPositive(s: seq<real>)
    requires 0 < |s| && forall i :: 0 <= i < |s| ==> 0.0 < s[i]
    ensures 0.0 < Sum(s)
  {
    if |s| > 1 {
      SumPositive(s[..|s| - 1]);
    }
  }

  lemma {:induction false} SumScaled(s: seq<real>, c: real)
    ensures Sum(Scaled(s, c)) == Sum(s) * c
  {
    if |s| > 0 {
      var t := s[..|s| - 1];
      forall i | 0 <= i < |t|
        ensures Scaled(s, c)[i] == Scaled(t, c)[i]
      {
      }
      assert Scaled(s, c)[..|s| - 1] == Scaled(t, c);
      SumScaled(t, c);
    }
  }

  /** Every kernel entry is positive. */
  lemma KernelPositive(m: MathLib, sigma: real, n: nat, j: nat)
    requires SqrtPositive(m) && ExpPositive(m) && sigma != 0.0 && n % 2 == 1 && j < n
    ensures 0.0 < Kernel(m, sigma, n)[j]
  {
    RawKernelPositive(m, sigma, n);
    SumPositive(RawKernel(m, sigma, n));
    var r := RawKernel(m, sigma, n);
    assert Kernel(m, sigma, n)[j] == r[j] * (1.0 / Sum(r));
    assert 0.0 < 1.0 / Sum(r);
  }

  /** The kernel is symmetric about its centre. */
  lemma KernelSymmetric(m: MathLib, sigma: real, n: nat, j: nat)
    requires SqrtPositive(m) && ExpPositive(m) && sigma != 0.0 && n % 2 == 1 && j < n
    ensures Kernel(m, sigma, n)[j] == Kernel(m, sigma, n)[n - 1 - j]
  {
    OffsetSquaredSymmetric(n, j);
    assert RawKernel(m, sigma, n)[j] == RawKernel(m, sigma, n)[n - 1 - j];
  }

  /** The kernel sums to one. */
  lemma KernelSumsToOne(m: MathLib, sigma: real, n: nat)
    requires SqrtPositive(m) && ExpPositive(m) && sigma != 0.0 && n % 2 == 1
    ensures Sum(Kernel(m, sigma, n)) == 1.0
  {
    var r := RawKernel(m, sigma, n);
    RawKernelPositive(m, sigma, n);
    SumPositive(r);
    SumScaled(r, 1.0 / Sum(r));
  }

  /** The first loop of `GenerateSmootingKernel`: entry `j` gets
      `k1*exp(k2*i*i)` and is added to `kernel_sum`. */
  method FillRawKernel(m: MathLib, sigma: real, kernel: array<real>, n: nat) returns (kernelSum: real)
    requires SqrtPositive(m) && sigma != 0.0 && n % 2 == 1 && n <= kernel.Length
    modifies kernel
    ensures kernel[..n] == RawKernel(m, sigma, n)
    ensures kernel[n..] == old(kernel[n..])
    ensures kernelSum == Sum(RawKernel(m, sigma, n))
  {
    ghost var raw := RawKernel(m, sigma, n);
    var h := n / 2;
    var k1 := GaussScale(m, sigma);
    var k2 := GaussExponent(sigma);
    kernelSum := 0.0;
    var j := 0;
    while j < n
      invariant 0 <= j <= n
      invariant kernel[..j] == raw[..j]
      invariant kernel[n..] == old(kernel[n..])
      invariant kernelSum == Sum(raw[..j])
    {
      var i := j - h;
      assert i * i == OffsetSquared(n, j);
      kernel[j] := GaussTap(m, k1, k2, i * i);
      assert kernel[j] == raw[j];
      assert raw[..j + 1][..j] == raw[..j];
      kernelSum := kernelSum + kernel[j];
      j := j + 1;
    }
    assert raw[..n] == raw;
  }

  /** The second loop: every entry multiplied by `k_sum`. */
  method ScaleKernel(kernel: array<real>, n: nat, kSum: real, ghost raw: seq<real>)
    requires n <= kernel.Length && |raw| == n && kernel[..n] == raw
    modifies kernel
    ensures kernel[..n] == Scaled(raw, kSum)
    ensures kernel[n..] == old(kernel[n..])
  {
    var k := 0;
    while k < n
      invariant 0 <= k <= n
      invariant kernel[..k] == Scaled(raw, kSum)[..k]
      invariant kernel[k..n] == raw[k..n]
      invariant kernel[n..] == old(kernel[n..])
    {
      assert kernel[k] == raw[k];
      kernel[k] := kernel[k] * kSum;
      assert kernel[k] == Scaled(raw, kSum)[k];
      k := k + 1;
    }
  }

  /** `GenerateSmootingKernel`: fills `kernel_values[0 .. kernel_n-1]` with
      the normalised Gaussian. */
  method GenerateSmootingKernel(m: MathLib, sigma: real, kernel: array<real>, n: nat)
    requires SqrtPositive(m) && ExpPositive(m) && sigma != 0.0 && n % 2 == 1 && n <= kernel.Length
    modifies kernel
    ensures kernel[..n] == Kernel(m, sigma, n)
    ensures kernel[n..] == old(kernel[n..])
  {
    var kernelSum := FillRawKernel(m, sigma, kernel, n);
    RawKernelPositive(m, sigma, n);
    SumPositive(RawKernel(m, sigma, n));
    var kSum := 1.0 / kernelSum;
    ScaleKernel(kernel, n, kSum, RawKernel(m, sigma, n));
  }

  // ---------------------------------------------------------------------
  // Smoothing

  lemma ProductNonNegative(a: real, b: real)
    requires 0.0 <= a && 0.0 <= b
    ensures 0.0 <= Product(a, b)
  {
  }

  lemma ProductMonotone(a: real, b: real, b': real)
    requires 0.0 <= a && b <= b'
    ensures Product(a, b) <= Product(a, b')
  {
  }

  /** `j_start`: the first input that output `i` reads, with `h =
      kernel_n/2`. */
  function WindowStart(i: nat, h: nat): nat {
    if i > h then i - h else 0
  }

  /** `j_end`: the last input that output `i` reads, for `n` inputs. */
  function WindowEnd(i: nat, h: nat, n: nat): nat
    requires 0 < n
  {
    if n - 1 > i + h then i + h else n - 1
  }

  /** Output `i` reads the inputs `max(0, i-h) .. min(n-1, i+h)`, all of
      them inside the input, with kernel indices `j - i + h` inside the
      kernel; away from the ends it uses all `2*h + 1` kernel entries. */
  lemma WindowBounds(i: nat, h: nat, n: nat, j: int)
    requires i < n
    ensures WindowStart(i, h) <= i <= WindowEnd(i, h, n) < n
    ensures WindowStart(i, h) <= j <= WindowEnd(i, h, n) ==> 0 <= j < n && 0 <= j - i + h <= 2 * h
    ensures WindowStart(i, h) == (if i < h then 0 else i - h)
    ensures WindowEnd(i, h, n) == (if i + h < n then i + h else n - 1)
  {
  }

  /** One tap, `out += (kernel_values[k] * in[j]) + 0.5`: the sum is formed
      in floating point and converted back to an integer. */
  function Tap(acc: int, w: real, x: nat): int {
    Trunc(acc as real + (Product(w, x as real) + 0.5))
  }

  predicate ValidKernel(kernel: seq<real>) {
    |kernel| % 2 == 1
  }

  /** Output `i` after the taps `j_start .. j-1`. */
  function Accumulated(kernel: seq<real>, input: seq<nat>, i: nat, j: nat): int
    requires ValidKernel(kernel) && i < |input|
    requires WindowStart(i, |kernel| / 2) <= j <= WindowEnd(i, |kernel| / 2, |input|) + 1
    decreases j
  {
    var h := |kernel| / 2;
    if j == WindowStart(i, h) then 0
    else Tap(Accumulated(kernel, input, i, j - 1), kernel[j - 1 - i + h], input[j - 1])
  }

  /** `amplitude_values_out[i]`. */
  function Smoothed(kernel: seq<real>, input: seq<nat>, i: nat): int
    requires ValidKernel(kernel) && i < |input|
  {
    Accumulated(kernel, input, i, WindowEnd(i, |kernel| / 2, |input|) + 1)
  }

  /** The reference: the sum, over the taps `j_start .. j-1`, of each
      product rounded to the nearest integer (halves up). */
  function RoundedTaps(kernel: seq<real>, input: seq<nat>, i: nat, j: nat): int
    requires ValidKernel(kernel) && i < |input|
    requires WindowStart(i, |kernel| / 2) <= j <= WindowEnd(i, |kernel| / 2, |input|) + 1
    decreases j
  {
    var h := |kernel| / 2;
    if j == WindowStart(i, h) then 0
    else RoundedTaps(kernel, input, i, j - 1) + (Product(kernel[j - 1 - i + h], input[j - 1] as real) + 0.5).Floor
  }

  predicate NonNegative(kernel: seq<real>) {
    forall k :: 0 <= k < |kernel| ==> 0.0 <= kernel[k]
  }

  /** With a non-negative kernel every tap adds its own rounded product: the
      rounding is per tap, not of the final sum. */
  lemma {:induction false} AccumulatedIsRoundedTaps(kernel: seq<real>, input: seq<nat>, i: nat, j: nat)
    requires ValidKernel(kernel) && NonNegative(kernel) && i < |input|
    requires WindowStart(i, |kernel| / 2) <= j <= WindowEnd(i, |kernel| / 2, |input|) + 1
    ensures Accumulated(kernel, input, i, j) == RoundedTaps(kernel, input, i, j)
    ensures 0 <= Accumulated(kernel, input, i, j)
    decreases j
  {
    var h := |kernel| / 2;
    if j > WindowStart(i, h) {
      AccumulatedIsRoundedTaps(kernel, input, i, j - 1);
      var w := kernel[j - 1 - i + h];
      var x := input[j - 1] as real;
      ProductNonNegative(w, x);
      TruncShift(Accumulated(kernel, input, i, j - 1), Product(w, x) + 0.5);
    }
  }

  /** Output `i` depends only on the inputs in its window. */
  lemma {:induction false} AccumulatedLocal(kernel: seq<real>, input: seq<nat>, input': seq<nat>, i: nat, j: nat)
    requires ValidKernel(kernel) && i < |input| == |input'|
    requires WindowStart(i, |kernel| / 2) <= j <= WindowEnd(i, |kernel| / 2, |input|) + 1
    requires forall j' :: WindowStart(i, |kernel| / 2) <= j' < j ==> input[j'] == input'[j']
    ensures Accumulated(kernel, input, i, j) == Accumulated(kernel, input', i, j)
    decreases j
  {
    if j > WindowStart(i, |kernel| / 2) {
      AccumulatedLocal(kernel, input, input', i, j - 1);
    }
  }

  lemma SmoothedLocal(kernel: seq<real>, input: seq<nat>, input': seq<nat>, i: nat)
    requires ValidKernel(kernel) && i < |input| == |input'|
    requires forall j :: WindowStart(i, |kernel| / 2) <= j <= WindowEnd(i, |kernel| / 2, |input|) ==> input[j] == input'[j]
    ensures Smoothed(kernel, input, i) == Smoothed(kernel, input', i)
  {
    AccumulatedLocal(kernel, input, input', i, WindowEnd(i, |kernel| / 2, |input|) + 1);
  }

  /** Silence stays silence: with all inputs zero every tap adds
      `floor(0.5) = 0`, whatever the kernel. */
  lemma {:induction false} AccumulatedOfZero(kernel: seq<real>, input: seq<nat>, i: nat, j: nat)
    requires ValidKernel(kernel) && i < |input|
    requires WindowStart(i, |kernel| / 2) <= j <= WindowEnd(i, |kernel| / 2, |input|) + 1
    requires forall j' :: 0 <= j' < |input| ==> input[j'] == 0
    ensures Accumulated(kernel, input, i, j) == 0
    decreases j
  {
    if j > WindowStart(i, |kernel| / 2) {
      AccumulatedOfZero(kernel, input, i, j - 1);
      assert Product(kernel[j - 1 - i + |kernel| / 2], input[j - 1] as real) == 0.0;
    }
  }

  lemma SmoothedOfZero(kernel: seq<real>, input: seq<nat>, i: nat)
    requires ValidKernel(kernel) && i < |input|
    requires forall j :: 0 <= j < |input| ==> input[j] == 0
    ensures Smoothed(kernel, input, i) == 0
  {
    AccumulatedOfZero(kernel, input, i, WindowEnd(i, |kernel| / 2, |input|) + 1);
  }

  /** With a non-negative kernel, larger inputs give larger outputs. */
  lemma {:induction false} RoundedTapsMonotone(kernel: seq<real>, input: seq<nat>, input': seq<nat>, i: nat, j: nat)
    requires ValidKernel(kernel) && NonNegative(kernel) && i < |input| == |input'|
    requires WindowStart(i, |kernel| / 2) <= j <= WindowEnd(i, |kernel| / 2, |input|) + 1
    requires forall j' :: 0 <= j' < |input| ==> input[j'] <= input'[j']
    ensures RoundedTaps(kernel, input, i, j) <= RoundedTaps(kernel, input', i, j)
    decreases j
  {
    var h := |kernel| / 2;
    if j > WindowStart(i, h) {
      RoundedTapsMonotone(kernel, input, input', i, j - 1);
      var w := kernel[j - 1 - i + h];
      ProductMonotone(w, input[j - 1] as real, input'[j - 1] as real);
    }
  }

  lemma SmoothedMonotone(kernel: seq<real>, input: seq<nat>, input': seq<nat>, i: nat)
    requires ValidKernel(kernel) && NonNegative(kernel) && i < |input| == |input'|
    requires forall j :: 0 <= j < |input| ==> input[j] <= input'[j]
    ensures Smoothed(kernel, input, i) <= Smoothed(kernel, input', i)
  {
    var e := WindowEnd(i, |kernel| / 2, |input|) + 1;
    AccumulatedIsRoundedTaps(kernel, input, i, e);
    AccumulatedIsRoundedTaps(kernel, input', i, e);
    RoundedTapsMonotone(kernel, input, input', i, e);
  }

  /** The body of the outer loop of `ApplyKernelSmoothingToAmplitudes`:
      output `i` is cleared and then accumulates its taps.  (The source
      computes `k = j - (i - kernel_n_2)` in unsigned arithmetic; the
      wrap-around of `i - kernel_n_2` cancels, so `k` is `j - i + h`.) */
  method SmoothOne(input: seq<nat>, output: array<int>, kernel: seq<real>, i: nat)
    requires ValidKernel(kernel) && i < |input| <= output.Length
    modifies output
    ensures output[..] == old(output[..])[i := Smoothed(kernel, input, i)]
  {
    var h := |kernel| / 2;
    output[i] := 0;
    var jStart := if i > h then i - h else 0;
    var jEnd := if |input| - 1 > i + h then i + h else |input| - 1;
    var j := jStart;
    while j <= jEnd
      invariant jStart <= j <= jEnd + 1
      invariant output[..] == old(output[..])[i := Accumulated(kernel, input, i, j)]
    {
      var k := j - (i - h);
      output[i] := Trunc(output[i] as real + (Product(kernel[k], input[j] as real) + 0.5));
      j := j + 1;
    }
  }

  /** `ApplyKernelSmoothingToAmplitudes`: every output is the smoothed value
      of its window; the outputs are independent of each other (the source
      computes them in parallel). */
  method ApplyKernelSmoothingToAmplitudes(input: seq<nat>, output: array<int>, kernel: seq<real>)
    requires ValidKernel(kernel) && |input| <= output.Length
    modifies output
    ensures forall i :: 0 <= i < |input| ==> output[i] == Smoothed(kernel, input, i)
    ensures output[|input|..] == old(output[|input|..])
  {
    var i := 0;
    while i < |input|
      invariant 0 <= i <= |input|
      invariant forall i' :: 0 <= i' < i ==> output[i'] == Smoothed(kernel, input, i')
      invariant output[i..] == old(output[i..])
    {
      SmoothOne(input, output, kernel, i);
      i := i + 1;
    }
  }
}
