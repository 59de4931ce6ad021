/** `SoundController` (src/SoundController.h, src/SoundController.cpp):
    two audio buffers handed to the SDL mixer, a start cue played at once and
    a rendered signal played with the part that is already late skipped.

    The clock is a parameter: `now` is `high_resolution_clock::now()` in
    microseconds, and `sound_start` is kept in the same unit.  The SDL
    mixer is not modelled; what the controller hands to it is recorded in
    `submitted`. */
module SoundControl {
  import opened Defaults

  /** `max_start_sound_samples` and `max_render_sound_samples` by default
      (src/SoundController.h:14-15): ten and twenty seconds of stereo frames. */
  const DEFAULT_START_CAPACITY: nat := SAMPLE_RATE * 10
  const DEFAULT_RENDER_CAPACITY: nat := SAMPLE_RATE * 20

  /** `sizeof(audio_t)` and the channel count of both buffers. */
  const SAMPLE_BYTES: nat := 2
  const CHANNELS: nat := 2

  /** Microseconds per second (`1000000ul`). */
  const MICROS: nat := 1000000

  /** A buffer handed to `playSoundFromMemory`. */
  datatype Submission = StartAudio | RenderAudio

  // ---------------------------------------------------------------------
  // The skip count (src/SoundController.cpp:46-53)

  /** `compensate ? SAMPLE_RATE * skip_microseconds.count() / 1000000ul : 0`.
      The product is a signed 64-bit `long`; dividing by an `unsigned long`
      converts it to unsigned 64 bits first, and the quotient is stored in
      an `unsigned int`. */
  function SkipSamples(elapsedMicros: int, compensate: bool): (skip: nat)
    requires compensate ==> InInt64(SAMPLE_RATE * elapsedMicros)
    ensures skip < UINT32_MODULUS
    ensures !compensate ==> skip == 0
  {
    if compensate then (SAMPLE_RATE * elapsedMicros) % UINT64_MODULUS / MICROS % UINT32_MODULUS
    else 0
  }

  /** For elapsed times that are not negative and short enough for the
      quotient to fit in 32 bits (over 27 hours), the skip is the elapsed
      time in frames, rounded down: multiply first, then divide. */
  lemma {:induction false} SkipIsElapsedFrames(elapsedMicros: int)
    requires 0 <= elapsedMicros && SAMPLE_RATE * elapsedMicros < MICROS * UINT32_MODULUS
    ensures SkipSamples(elapsedMicros, true) == SAMPLE_RATE * elapsedMicros / MICROS
    ensures SkipSamples(elapsedMicros, true) * MICROS <= SAMPLE_RATE * elapsedMicros
    ensures SAMPLE_RATE * elapsedMicros < (SkipSamples(elapsedMicros, true) + 1) * MICROS
  {
    var x := SAMPLE_RATE * elapsedMicros;
    assert x < UINT64_MODULUS;
    assert x % UINT64_MODULUS == x;
    assert x / MICROS < UINT32_MODULUS;
  }

  /** 50 ms after the start cue, 2205 frames are skipped. */
  lemma SkipAfterFiftyMilliseconds()
    ensures SkipSamples(50000, true) == 2205
  {
    SkipIsElapsedFrames(50000);
  }

  /** Within the 32-bit range, the skip grows with the elapsed time. */
  lemma {:induction false} SkipMonotone(e: int, e': int)
    requires 0 <= e <= e' && SAMPLE_RATE * e' < MICROS * UINT32_MODULUS
    ensures SkipSamples(e, true) <= SkipSamples(e', true)
  {
    assert SAMPLE_RATE * e <= SAMPLE_RATE * e';
    SkipIsElapsedFrames(e);
    SkipIsElapsedFrames(e');
  }

  /** A clock that steps back by one microsecond makes the product negative;
      where `long` and `unsigned long` are 64 bits wide, its unsigned
      conversion yields a skip of over four billion frames, more than the
      default render capacity. */
  lemma SkipOfBackwardStep()
    ensures SkipSamples(-1, true) == 4154504685
    ensures SkipSamples(-1, true) >= DEFAULT_RENDER_CAPACITY
  {
    assert (SAMPLE_RATE * -1) % UINT64_MODULUS == UINT64_MODULUS - 44100;
  }

  // ---------------------------------------------------------------------
  // Buffer sizes (src/SoundController.cpp:78-134 against lines 57-59, 73)

  /** Bytes a copy of `n` stereo frames moves: `n * sizeof(audio_t) * 2`. */
  function CopiedBytes(n: nat): nat {
    n * SAMPLE_BYTES * CHANNELS
  }

  /** As written, `AllocateMemoryForAudio(max_samples)` allocates
      `as.channels * max_samples` bytes, two per frame. */
  function AllocatedBytesAsWritten(maxSamples: nat): nat {
    CHANNELS * maxSamples
  }

  /** A copy the capacity asserts allow (`n < max`) overruns the buffer as
      allocated as soon as `n` exceeds half the capacity. */
  lemma {:induction false} CopyOverrunsAsWritten(maxSamples: nat, n: nat)
    requires maxSamples / 2 < n < maxSamples
    ensures AllocatedBytesAsWritten(maxSamples) < CopiedBytes(n)
  {
    assert maxSamples < 2 * n;
  }

  /** Sized with `sizeof(audio_t)` per sample, the buffer holds every copy
      the asserts allow. */
  function AllocatedBytes(maxSamples: nat): nat {
    CHANNELS * SAMPLE_BYTES * maxSamples
  }

  lemma {:induction false} CopyFitsCorrected(maxSamples: nat, n: nat)
    requires n < maxSamples
    ensures CopiedBytes(n) < AllocatedBytes(maxSamples)
  {
    assert CopiedBytes(n) == 4 * n;
    assert AllocatedBytes(maxSamples) == 4 * maxSamples;
  }

  /** `memmove(dst, &src[2*from], count * sizeof(audio_t) * 2)` on buffers of
      `audio_t` samples: the first `2*count` samples of `dst` become those of
      `src` from frame `from` on, and the rest of `dst` is unchanged. */
  method CopyFrames(dst: array<int>, src: seq<int>, from: nat, count: nat)
    requires 2 * (from + count) <= |src| && 2 * count <= dst.Length
    modifies dst
    ensures dst[..] == src[2 * from .. 2 * (from + count)] + old(dst[2 * count..])
  {
    forall i | 0 <= i < 2 * count {
      dst[i] := src[2 * from + i];
    }
    assert dst[..] == dst[..2 * count] + dst[2 * count..];
  }

  class SoundController {
    const maxStartSoundSamples: nat
    const maxRenderSoundSamples: nat
    /** Time of the last `PlayStartNow`, in microseconds. */
    var soundStart: int
    /** `start_audio->bufferTrue` and `render_audio->bufferTrue`, in samples,
        sized as `AllocatedBytes` gives. */
    const startBuffer: array<int>
    const renderBuffer: array<int>
    /** The buffers handed to the mixer so far, oldest first. */
    var submitted: seq<Submission>

    predicate Valid()
      reads this
    {
      && startBuffer.Length == CHANNELS * maxStartSoundSamples
      && renderBuffer.Length == CHANNELS * maxRenderSoundSamples
      && startBuffer != renderBuffer
    }

    /** The default `sound_start` is the clock's epoch. */
    constructor (maxStartSoundSamples: nat := DEFAULT_START_CAPACITY,
                 maxRenderSoundSamples: nat := DEFAULT_RENDER_CAPACITY)
      ensures Valid()
      ensures this.maxStartSoundSamples == maxStartSoundSamples
      ensures this.maxRenderSoundSamples == maxRenderSoundSamples
      ensures soundStart == 0 && submitted == []
      ensures fresh(startBuffer) && fresh(renderBuffer)
    {
      this.maxStartSoundSamples := maxStartSoundSamples;
      this.maxRenderSoundSamples := maxRenderSoundSamples;
      soundStart := 0;
      startBuffer := new int[CHANNELS * maxStartSoundSamples];
      renderBuffer := new int[CHANNELS * maxRenderSoundSamples];
      submitted := [];
    }

    /** Lines 68-76: copy the cue, stamp the time (whatever `n` is, even
        zero) and play the start buffer. */
    method PlayStartNow(n: nat, signal: seq<int>, now: int)
      requires Valid() && n < maxStartSoundSamples && 2 * n <= |signal|
      modifies this, startBuffer
      ensures Valid()
      ensures startBuffer[..] == signal[..2 * n] + old(startBuffer[2 * n..])
      ensures soundStart == now
      ensures submitted == old(submitted) + [StartAudio]
      ensures renderBuffer[..] == old(renderBuffer[..])
    {
      CopyFrames(startBuffer, signal, 0, n);
      soundStart := now;
      submitted := submitted + [StartAudio];
    }

    /** Lines 37-66: skip the frames already late since the start cue and
        play the rest, or nothing when the whole signal is late.  The frame
        timestamp only feeds a log message; the skip count, which the
        source logs, is returned. */
    method PlaySound(frameTs: int, n: nat, signal: seq<int>, compensate: bool, now: int)
      returns (skip: nat)
      requires Valid() && n < maxRenderSoundSamples && 2 * n <= |signal|
      requires compensate ==> InInt64(SAMPLE_RATE * (now - soundStart))
      modifies this`submitted, renderBuffer
      ensures skip == SkipSamples(now - soundStart, compensate)
      ensures skip < n ==> renderBuffer[..] == signal[2 * skip .. 2 * n] + old(renderBuffer[2 * (n - skip)..])
      ensures skip < n ==> submitted == old(submitted) + [RenderAudio]
      ensures n <= skip ==> renderBuffer[..] == old(renderBuffer[..]) && submitted == old(submitted)
      ensures soundStart == old(soundStart) && startBuffer[..] == old(startBuffer[..])
    {
      skip := SkipSamples(now - soundStart, compensate);
      if skip < n {
        CopyFrames(renderBuffer, signal, skip, n - skip);
        submitted := submitted + [RenderAudio];
      }
    }
  }
}
