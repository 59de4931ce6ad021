# sonic-sight: a Dafny model of the depth-to-sound core

sonic-sight turns what a depth camera sees into stereo sound. Every frame:

1. The point cloud is binned per ear into a histogram of distances.
2. Each bucket becomes a time segment of a tone. Near buckets come first, and the segment's loudness follows the bucket's count.
3. The playback controller starts the rendered signal. It skips the part that is already late relative to a start cue.

This project models that core in Dafny and proves properties of the model:

* **`SimpleDepthRenderer` (module `DepthRenderer`).**
  * The constructor.
  * The binning pass with per-worker counter rows and their merge.
  * The amplitude divider.
  * The four passes of `RenderPointcloudToSound`.
* **The constant-step synthesizer (`Synthesizer`).** This covers the bucket windows and the loudness-to-amplitude law. It also covers the frequency sweep, the equal-loudness table search and the amplitude trace.
* **The keyframe renderer (`Keyframes`).** It renders piecewise-linear amplitude envelopes.
* **Gaussian kernel generation and kernel smoothing (`Smoothing`).**
* **The playback controller (`SoundControl`).** This covers the skip count, the buffer capacities and sizes, and `PlayStartNow` / `PlaySound`.
* **The parameter file (`ParameterFile`).** This covers the `.inf` writer of `render-to-sound`, the animation script's `read_parameters_file`, the round trip between the two, and the script's companion-file-name rule `mdrfn`.

Shared modules:

* `Defaults` holds the sample rate, the full-scale amplitude, fixed-width ranges, and truncating float-to-integer conversion.
* `Numerics` holds `sin`, `exp`, `log`, `pow` and `sqrt` as a record of function values. Each property of these functions that a proof uses is a separate predicate.
* `Channels` is the update of one channel of an interleaved stereo buffer. The synthesizer and the keyframe renderer share it.
* `Histogram` holds the counting specification.

Modelling conventions:

* A `float` or `double` becomes a `real`.
* A conversion to an integer type is `Defaults.Trunc`, which truncates toward zero.
* `x = v + k_add*x` and `x += v` on an `audio_t` are `Defaults.Mix`: the sum is formed in floating point, then truncated.
* Methods that update arrays in place are proved against specification functions of the arrays' contents:
  * `Synthesizer.Synthesized` and `Keyframes.Rendered`;
  * `Smoothing.Kernel` and `Smoothing.Smoothed`;
  * `DepthRenderer.SimpleDepthRenderer.PointcloudSound`;
  * `ParameterFile.Parsed` and `ParameterFile.InfText`.
* The properties the source promises are lemmas about those functions.

## Model

| member | source | states |
|---|---|---|
| Defaults.Trunc | src/SoundRenderer.cpp:496 | a float-to-integer conversion truncates toward zero: for `x >= 0` the result `r` satisfies `r <= x < r+1`, and for negative `x` it satisfies `r-1 < x <= r` |
| Defaults.TruncShift | src/SoundRenderer.cpp:249 | `u += x` on an unsigned counter forms `u + x` in floating point and truncates; for `x >= 0`, this adds exactly `floor(x)` |
| Defaults.MixBound | src/SoundRenderer.cpp:192-193 | a stored sample whose value lies within `±bound` is within `±bound` when it overwrites, and within `±(bound + abs(old))` when it adds |
| DepthRenderer.RowTableOverrunsAsWritten | src/SoundRenderer.cpp:290-293 | for every `num_counters >= 1`, with the table allocated with `num_counters` entries, some store of the row-pointer loop lies outside the table |
| DepthRenderer.RowTableFitsCorrected | src/SoundRenderer.cpp:290-293 | a table of `2*num_counters` entries holds every store, and every row at a stored offset lies inside the shared buffer of `num_counters*max_counter*2` counters |
| DepthRenderer.AmpDivIsFourPerMetre | src/SoundRenderer.cpp:515 | `amp_div = (n/25)/(0.1/step)*10` equals `trunc(4 * n * step)` |
| DepthRenderer.PassAmplitude | src/SoundRenderer.cpp:521 | the pass amplitude is positive, and it is halved when lower passes will add to the buffer, so two passes together still fit in `audio_t` |
| DepthRenderer.SimpleDepthRenderer.constructor | src/SoundRenderer.cpp:256-296 | every parameter is stored; `max_counter = trunc(max_distance/step_distance)`; there are `2*num_counters` counter rows of `max_counter` counters each; both loudness arrays have `2*max_counter` entries |
| DepthRenderer.SimpleDepthRenderer.ZeroRow | src/SoundRenderer.cpp:481-483 | the worker's row becomes all zero; no other row changes |
| DepthRenderer.SimpleDepthRenderer.CountRange | src/SoundRenderer.cpp:486-499 | starting from a zero row, the worker's row holds, for each bucket, the number of valid points of its share whose bin is that bucket; no other row changes |
| DepthRenderer.SimpleDepthRenderer.MergeRow | src/SoundRenderer.cpp:506-510 | row 0 gains row `i` bucket by bucket, and row `i` becomes zero; other rows are unchanged |
| DepthRenderer.SimpleDepthRenderer.CountShares | src/SoundRenderer.cpp:468-500 | every used worker's row holds the count of its own share; the unused rows are unchanged |
| DepthRenderer.SimpleDepthRenderer.MergeShares | src/SoundRenderer.cpp:502-511 | row 0 holds the sum of the used workers' counts; the other used rows are zero; the unused rows are unchanged |
| DepthRenderer.SimpleDepthRenderer.CountPoints | src/SoundRenderer.cpp:467-511 | after the binning pass, row 0 holds the histogram of a single sequential scan, whatever the split of the points among workers and whatever the rows held before |
| DepthRenderer.SimpleDepthRenderer.RecordLoudness | src/SoundRenderer.cpp:528-533 | entry `2*i+channel` of `loudness_data` becomes `counters[0][i]/amp_div`; the other channel's entries are unchanged |
| DepthRenderer.SimpleDepthRenderer.RenderDistanceToSound | src/SoundRenderer.cpp:455-534 | row 0 holds the ear's histogram. The channel is synthesised from that histogram with the pass's divider, end time, amplitude and sweep. Only an overwriting pass with `save_loudness` records the amplitude trace and the counts divided by `amp_div`; otherwise both arrays are unchanged. |
| DepthRenderer.SimpleDepthRenderer.RenderPointcloudToSound | src/SoundRenderer.cpp:306-353 | the buffer is the left ear overwriting channel 0, then the right ear overwriting channel 1, then (only if `lower_distance > 0`) the lower ears adding to them; with `save_loudness`, the records are those of the left and right ears |
| DepthRenderer.SimpleDepthRenderer.PointcloudBeyondBuffer | src/SoundRenderer.cpp:306-353 | no sample at or past `2*sound_n` changes |
| DepthRenderer.SimpleDepthRenderer.UpperSoundBound | src/SoundRenderer.cpp:311-328 | after the two overwriting passes, every written sample is at most the pass amplitude in magnitude |
| DepthRenderer.SimpleDepthRenderer.PointcloudFitsInt16 | src/SoundRenderer.cpp:306-353 | every written sample fits in `audio_t`; with lower passes it is at most `2*(audio_A/2)` in magnitude |
| DepthRenderer.SimpleDepthRenderer.PointcloudForgetsOldSignal | src/SoundRenderer.cpp:306-353 | within the written frames, the result does not depend on what the buffer held before |
| Histogram.HistogramTotal | src/SoundRenderer.cpp:486-499 | the buckets sum to the number of valid points whose bin is below `max_counter`, hence to at most the number of points |
| Histogram.MergeIsSequentialScan | src/SoundRenderer.cpp:502-511 | for any split of the points among workers, the sum of the workers' counts for a bucket is the count a single scan gives |
| Synthesizer.FrameBoundaryMonotone | src/SoundRenderer.cpp:149-150 | `i*SAMPLE_RATE*max_time/n`, truncated, does not decrease with `i` |
| Synthesizer.FrameBoundaryEnds | src/SoundRenderer.cpp:149-150 | the first window starts at frame 0, and the last one ends at `trunc(SAMPLE_RATE*max_time)` |
| Synthesizer.WindowsDisjoint | src/SoundRenderer.cpp:149-151 | windows of distinct buckets are disjoint and in bucket order; each lies within `sound_n`; consecutive windows meet unless clamped |
| Synthesizer.BucketOfUnique | src/SoundRenderer.cpp:149-151 | a frame lies in the window of exactly one bucket |
| Synthesizer.Amplitude | src/SoundRenderer.cpp:172-183 | the clipped amplitude lies in `[0, max_amplitude]`; a negative loudness gives `max_amplitude` |
| Synthesizer.ToneSampleBound | src/SoundRenderer.cpp:188-193 | a sample `amplitude*sin(2*pi*phase(t))` lies within `±amplitude` |
| Synthesizer.SynthesizedFrame | src/SoundRenderer.cpp:185-194 | Samples of the other channel and samples past `2*sound_n` are unchanged. An overwritten sample is at most `max_amplitude` in magnitude. An added-to sample is at most `max_amplitude + abs(old)` in magnitude. |
| Synthesizer.SynthesizedWindow | src/SoundRenderer.cpp:188-193 | frame `f` of bucket `i`'s window carries bucket `i`'s tone at bucket `i`'s amplitude, overwritten or added |
| Synthesizer.OverwriteForgets | src/SoundRenderer.cpp:192-193 | an overwriting call makes the written samples independent of the old buffer |
| Synthesizer.SynthesizedLocal | src/SoundRenderer.cpp:192-193 | each new sample depends only on the same old sample |
| Synthesizer.TraceUpToAt | src/SoundRenderer.cpp:185-186 | entry `2*i+channel` of the trace holds bucket `i`'s amplitude over `max_amplitude`; the other entries are unchanged |
| Synthesizer.TraceInUnitRange | src/SoundRenderer.cpp:185-186 | every recorded relative amplitude lies in `[0, 1]` |
| Synthesizer.ScanOverrunsTable | src/SoundRenderer.cpp:159-162 | above 20 kHz, the equal-loudness search as written stops at the last table entry, so the bracketing read one entry further is past the end of the table |
| Synthesizer.ScanCorrectedAgrees | src/SoundRenderer.cpp:159-160 | up to 20 kHz, the search stopping at `N-2` finds the same entry as the search as written, and the bracketing entry exists |
| Synthesizer.SearchEqualLoudness | src/SoundRenderer.cpp:159-160 | the loop resumes from the previous bucket's index and ends where the corrected search ends, inside the table |
| Synthesizer.RenderBucket | src/SoundRenderer.cpp:146-195 | one outer iteration extends the written prefix of the channel through bucket `i`'s window, and records bucket `i` in the trace |
| Synthesizer.RenderAmplitudesToFrequencyWithConstantTimeSteps | src/SoundRenderer.cpp:109-197 | the buffer becomes the synthesised one, and the amplitude array, when given, becomes the amplitude trace |
| Channels.PaintWindow | src/SoundRenderer.cpp:188-194 | the inner sample loop writes frames `[lo, hi)` of one channel, in order, from the per-frame values |
| Keyframes.SegmentNotForward | src/SoundRenderer.cpp:87-91 | a segment whose end time is not after its start time writes nothing |
| Keyframes.RenderSegmentAt | src/SoundRenderer.cpp:96-105 | a segment writes exactly the samples of its channel whose frame lies in `[t0*SAMPLE_RATE, min(t1*SAMPLE_RATE, sound_n))`, with the running amplitude, overwritten or added |
| Keyframes.RenderedOutside | src/SoundRenderer.cpp:89-105 | no segment writes the other channel or past `2*sound_n` |
| Keyframes.UntouchedFromKeyframe | src/SoundRenderer.cpp:74-106 | with sorted keyframes, the first `n` segments leave every frame from keyframe `n` on untouched |
| Keyframes.UntouchedBeforeKeyframe | src/SoundRenderer.cpp:74-106 | with sorted keyframes, segments from `i` on leave every frame before keyframe `i` untouched |
| Keyframes.RenderedAt | src/SoundRenderer.cpp:74-106 | with sorted keyframes, a frame in segment `i` carries that segment's ramp `a0 + k*da`, scaled by `base_amplitude` and the tone |
| Keyframes.RampWindow | src/SoundRenderer.cpp:98-104 | the `j += 2, a += da` loop writes one channel's frames `[lo, hi)` with amplitude `a0 + k*da` at step `k` |
| Keyframes.RenderSegmentInto | src/SoundRenderer.cpp:76-105 | one segment iteration leaves the buffer as the segment specification says |
| Keyframes.RenderAmplitudesToFrequency | src/SoundRenderer.cpp:60-107 | the buffer becomes every segment rendered in order |
| Smoothing.GaussScale | src/SoundRenderer.cpp:207 | `k1 = 1/sqrt(2*pi*sigma^2)` is positive for every `sigma != 0` |
| Smoothing.OffsetSquaredSymmetric | src/SoundRenderer.cpp:212-214 | entries at the same distance from the centre have the same squared offset |
| Smoothing.KernelPositive | src/SoundRenderer.cpp:207-220 | every kernel entry is positive |
| Smoothing.KernelSymmetric | src/SoundRenderer.cpp:210-216 | the kernel is symmetric about its centre |
| Smoothing.KernelSumsToOne | src/SoundRenderer.cpp:209-220 | the normalised kernel sums to one |
| Smoothing.FillRawKernel | src/SoundRenderer.cpp:209-216 | the first loop stores the raw Gaussian taps and returns their sum; entries past `kernel_n` are unchanged |
| Smoothing.ScaleKernel | src/SoundRenderer.cpp:218-220 | the second loop multiplies each of the first `kernel_n` entries by `k_sum` |
| Smoothing.GenerateSmootingKernel | src/SoundRenderer.cpp:199-221 | the array's first `kernel_n` entries become the normalised kernel, and the rest is unchanged |
| Smoothing.WindowBounds | src/SoundRenderer.cpp:241-248 | output `i` reads the inputs `max(0,i-h) .. min(n-1,i+h)`, all in range, with kernel index `j-i+h` in `[0, 2h]` |
| Smoothing.AccumulatedIsRoundedTaps | src/SoundRenderer.cpp:243-250 | with a non-negative kernel, `out += w*x + 0.5` adds each product rounded to the nearest integer: the output is the sum of the rounded taps |
| Smoothing.SmoothedLocal | src/SoundRenderer.cpp:241-250 | an output depends only on the inputs in its window |
| Smoothing.SmoothedOfZero | src/SoundRenderer.cpp:236-250 | silence stays silence |
| Smoothing.SmoothedMonotone | src/SoundRenderer.cpp:243-250 | with a non-negative kernel, larger inputs give larger outputs |
| Smoothing.SmoothOne | src/SoundRenderer.cpp:238-250 | one outer iteration sets output `i` to its smoothed value and nothing else |
| Smoothing.ApplyKernelSmoothingToAmplitudes | src/SoundRenderer.cpp:224-252 | every output is its smoothed value; entries past `n` are unchanged |
| SoundControl.SkipSamples | src/SoundController.cpp:51-53 | the skip fits in 32 bits, and is 0 without compensation |
| SoundControl.SkipIsElapsedFrames | src/SoundController.cpp:46-53 | for a non-negative elapsed time short enough for 32 bits, the skip is the elapsed time in frames, rounded down |
| SoundControl.SkipAfterFiftyMilliseconds | src/SoundController.cpp:51-53 | 50 ms after the cue, 2205 frames are skipped |
| SoundControl.SkipMonotone | src/SoundController.cpp:51-53 | within that range, the skip grows with the elapsed time |
| SoundControl.SkipOfBackwardStep | src/SoundController.cpp:46-53 | on an LP64 build (64-bit `long` and `unsigned long`), a clock that steps back by 1 µs gives a skip of 4154504685 frames, past the default render capacity, so nothing is played |
| SoundControl.CopyOverrunsAsWritten | src/SoundController.cpp:120-121 | with `channels*max_samples` bytes allocated, every copy with `n > max/2` that the capacity assert allows overruns the buffer |
| SoundControl.CopyFitsCorrected | src/SoundController.cpp:120-121 | with `sizeof(audio_t)` bytes per sample, every copy the assert allows fits |
| SoundControl.CopyFrames | src/SoundController.cpp:57-59 | the `memmove` makes the destination's first `2*count` samples those of the source from frame `from`; the rest is unchanged |
| SoundControl.SoundController.constructor | src/SoundController.cpp:15-26 | the capacities are stored (by default ten and twenty seconds of frames), and the two distinct buffers are allocated |
| SoundControl.SoundController.PlayStartNow | src/SoundController.cpp:68-76 | the cue is copied into the start buffer; the start time becomes `now`; the start buffer is submitted; the render buffer is unchanged |
| SoundControl.SoundController.PlaySound | src/SoundController.cpp:37-66 | The skip is computed from the time since the cue. When it is below `n`, the render buffer receives frames `skip .. n-1` and is submitted; otherwise nothing changes. The start time and the start buffer are unchanged. |
| ParameterFile.StripTrimmed | scripts/create-rendeing-animation.py:188 | `strip()` leaves neither end whitespace |
| ParameterFile.StripPadded | scripts/create-rendeing-animation.py:188 | whitespace around a trimmed string is exactly what `strip()` removes |
| ParameterFile.StripIdempotent | scripts/create-rendeing-animation.py:190 | `strip()` is idempotent |
| ParameterFile.SplitLength | scripts/create-rendeing-animation.py:188 | `split("=")` gives one more piece than there are `=` |
| ParameterFile.SplitOne | scripts/create-rendeing-animation.py:188-189 | a string with one `=` splits into the text before it and the text after it |
| ParameterFile.ReadLinesConcat | scripts/create-rendeing-animation.py:187 | `readlines()` loses nothing: the lines concatenate to the text |
| ParameterFile.ReadLinesShape | scripts/create-rendeing-animation.py:187 | every line is non-empty, with a newline only at its end; every line but the last ends with one |
| ParameterFile.ReadLinesAppend | scripts/create-rendeing-animation.py:187 | text that ends a line can be read in two parts |
| ParameterFile.LineEntryRule | scripts/create-rendeing-animation.py:188-190 | a line yields an entry if and only if its stripped text holds exactly one `=`; the key and value stored are stripped |
| ParameterFile.ReadParametersFile | scripts/create-rendeing-animation.py:184-191 | the loop returns the dictionary of the file's lines in order |
| ParameterFile.ParsedKeys | scripts/create-rendeing-animation.py:187-190 | a key is present if and only if some line has an entry for it |
| ParameterFile.ParsedLastWins | scripts/create-rendeing-animation.py:187-190 | the value stored is that of the key's last line |
| ParameterFile.ParsedStripped | scripts/create-rendeing-animation.py:190 | every stored key and value is stripped |
| ParameterFile.ParsedSnoc | scripts/create-rendeing-animation.py:187-190 | one more line either leaves the dictionary unchanged (no entry) or updates one key |
| ParameterFile.IgnoredLine | scripts/create-rendeing-animation.py:189 | a line without an entry can be dropped without changing the dictionary |
| ParameterFile.WriteInfFile | src/render-to-sound.cpp:437-447 | the writer produces the title, each argument followed by a space (an option starting a new line), a line end, and the two `key = value` lines |
| ParameterFile.InfRoundTrip | src/render-to-sound.cpp:445-447 | whatever the arguments, reading the file back gives `max_distance` and `step_distance` with the values written |
| ParameterFile.OptionRoundTrip | src/render-to-sound.cpp:438-443 | an option `--key=value` after the program name is read back as `--key -> value` |
| ParameterFile.ReplaceNoMatch | scripts/create-rendeing-animation.py:245 | a name without `.dat` is left alone by `replace` |
| ParameterFile.ReplaceDatSuffix | scripts/create-rendeing-animation.py:245 | `<base>.dat`, with no other `.dat` in it, becomes `<base><ext>` |
| ParameterFile.MdrfnSibling | scripts/create-rendeing-animation.py:241-245 | without an explicit name, the companion of `<base>.dat` is `<base><extension>` |
| ParameterFile.MdrfnExplicit | scripts/create-rendeing-animation.py:242-243 | an explicit name is returned unchanged |

## Left out

- **Floating point.**
  - `float` and `double` arithmetic is exact `real` arithmetic. Rounding, overflow to infinity and NaN are not modelled.
  - `sin`, `exp`, `log`, `pow` and `sqrt` are uninterpreted. The proofs use only the properties they state: `sin` in `[-1, 1]`, positive `exp`, positive `log 2` and `log 10`, the sign of `pow`, and positive `sqrt`.
- OpenMP is read sequentially, with each worker's share given by an arbitrary split of the points (`Histogram.IsSplit`). Workers touch only their own rows, and the synthesizer's and smoother's iterations write disjoint samples, so the order does not matter. Scheduling and data races are out of scope.
- The point cloud is abstracted to what the binning pass uses. Each point carries its validity (`z >= 0.0001`) and its bin for each ear. The distance `sqrt(dx*dx+dy*dy+dz*dz)/step_distance` is computed outside the model.
- **Integer widths.**
  - Counters and indices are unbounded, so the 32-bit counter overflow is not modelled.
  - The unsigned 32-bit products `i * SAMPLE_RATE` and `(i+1) * SAMPLE_RATE` of the synthesizer's window bounds (src/SoundRenderer.cpp:149-150) are unbounded in the model. They wrap once `loudness_n_steps` (that is, `max_counter`) exceeds 97391 buckets. Past that, `FrameBoundaryMonotone`, `WindowsDisjoint` and `BucketOfUnique` no longer describe the source. The default configuration uses 800 buckets.
  - A float-to-`audio_t` conversion of an out-of-range value is undefined in C++ and is not modelled. `PointcloudFitsInt16` shows the renderer's samples stay in range.
- DepthRenderer.SimpleDepthRenderer.RenderDistanceToSound: requires `amp_div > 0`. With fewer than `1/(4*step_distance)` points, the source divides by a zero `amp_div` in floating point.
- DepthRenderer.SimpleDepthRenderer.constructor:
  - It requires `step_distance > 0`, `max_distance >= 0`, a positive speed of sound and at least one thread, which keeps `max_counter` and the synthesizer's times finite and non-negative.
  - The thread count is a parameter in place of `omp_get_max_threads()`.
  - The row table is sized `2*num_counters`; see Findings.
- `RenderPointcloudToSoundDelayIsAngle`, the destructor and the debug writes of `render-to-sound` are not part of this model.
- The equal-loudness correction factor is computed, and then never applied to the amplitude. The model does the same: `EqualLoudnessCorrection` is evaluated and discarded. Its table search is modelled with the corrected bound; see Findings.
- `background_amp` of the synthesizer is computed and never used, and is left out.
- Console output (`std::cout`, `cerr`) is left out, along with the "milisec late" message, which uses the frame time stamp.
- Smoothing.GenerateSmootingKernel: requires `sigma != 0`. With `sigma == 0`, the source divides by zero in floating point.
- Smoothing: the model follows the code, which adds `0.5` to each tap, so each product is rounded separately. Rounding the whole sum once to the nearest integer would give a different result. `AccumulatedIsRoundedTaps` states the per-tap rounding.
- Keyframes.RenderAmplitudesToFrequency:
  - It requires keyframe times that are not negative, since a negative time gives a negative index.
  - It requires at least one keyframe, since with none, `amplitude_n_steps - 1` wraps around.
  - A zero-length segment divides by zero in the source. It writes no sample, so the model gives it slope 0.
- **Sound controller.**
  - SDL (`initAudio`, `playSoundFromMemory`, the mixer) is not modelled; what is handed to the mixer is recorded in `submitted`.
  - The clock is a parameter `now`, in microseconds.
  - The buffers are sized with `sizeof(audio_t)` per sample; see Findings.
- SoundControl.SkipSamples and SkipOfBackwardStep: the skip is modelled for an LP64 build, with a 64-bit signed `long` product converted to a 64-bit `unsigned long` before the division by `1000000ul`. On a 32-bit build (such as a 32-bit Raspberry Pi system), `microseconds::rep` is `long long` and `1000000ul` is a 32-bit `unsigned long`. The division is then signed and truncates toward zero. A non-negative elapsed time gives the same skip as in the model, as `SkipIsElapsedFrames` states. A negative one (a clock stepping back) gives a skip of 0, so the whole render plays, where the model gives 4154504685 frames and plays nothing.
- SoundControl.SoundController.PlaySound: requires the product `SAMPLE_RATE * elapsed_microseconds` to fit in a signed 64-bit `long`. Past that, the source's signed overflow is undefined.
- SoundControl.SoundController.PlayStartNow and PlaySound: require `n < max` and `2*n <= |signal|`, as the source's asserts and its caller do. A failing assert (which aborts) is not modelled.
- **File I/O.**
  - Opening and closing files and the file's name, with the local time in it, are outside the model.
  - On reading, Python's universal-newline translation of `\r\n` and `\r` is not modelled: the text is read as written, with `\n` line ends.
- ParameterFile.InfRoundTrip: the two values are the texts the stream printed. They are required to be plain tokens: non-empty, with no whitespace, `=` or newline. How `operator<<` formats a `float` is not modelled.
- ParameterFile.OptionRoundTrip: covers one option after the program name, which must be free of `=` and newlines. Other option lines (several options, values containing `=`, arguments with newlines) are not characterised.

## Findings

| source | as written | input that shows it | evidently intended | confidence | as-written member | corrected member |
|---|---|---|---|---|---|---|
| src/SoundRenderer.cpp:290-293 | the row-pointer table is allocated with `num_counters` entries, but the loop stores `counters[i]` for `i` up to `2*num_counters - 1` | `num_counters = 1` (no OpenMP): the loop stores `counters[1]` into a one-entry table | a table of `2*num_counters` entries, one per row of the shared buffer | high, not executed | DepthRenderer.RowTableOverrunsAsWritten | DepthRenderer.RowTableFitsCorrected |
| src/SoundController.cpp:120-121 | the buffer holds `channels * max_samples` bytes, but copies move `n * sizeof(audio_t) * 2` bytes | default render capacity 882000 frames and `n_samples = 500000`: the `memmove` copies 2000000 bytes into 1764000 | `channels * sizeof(audio_t) * max_samples` bytes | high, not executed | SoundControl.CopyOverrunsAsWritten | SoundControl.CopyFitsCorrected |
| src/SoundRenderer.cpp:159-162 | the search may stop at `i_freq = equal_loudness_N - 1`, and line 162 then reads `equal_loudness_data[i_freq + 1]`, one past the table | a frequency sweep whose mean segment frequency exceeds 20000 Hz | stop the search at `equal_loudness_N - 2`, so that the bracketing pair exists | high, not executed | Synthesizer.ScanOverrunsTable | Synthesizer.ScanCorrectedAgrees |
