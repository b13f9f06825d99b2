# playmod: the sample-stepping and buffering core, in Dafny

This project models the integer core of playmod, a ProTracker-style MOD player
written in Rust. It has four parts.

- **The channel mixer of the library** (`src/lib.rs`): `SampleState`, the
  per-channel cursor, and `ChannelState::mix_sample_for_tick`, which steps the
  cursor through a sample once per output sample. The cursor is an 8-bit
  fraction with carry into a `u16` byte offset. The loop wraps at the end of
  the sample, then inside the loop region, and stops early for one-shot
  samples. It adds volume-scaled values into a shared `i16` tick buffer.
  Modules `Cursor` and `Mixer`.
- **The single-sample player** (`src/bin/playsample.rs`): `play_tick`, an
  earlier form of the same loop that appends full-volume values to a queue
  with its own wrap policy, the sample-number checks of `main`, and the `Note`
  period table. Modules `PlaySample` and `Notes`.
- **The older circular-copy player** (`src/main.rs`): `ChannelBuffer`, which
  copies each tick's stretch of sample bytes into a 600-byte buffer. It wraps
  at the sample length and keeps current/last fallbacks for the period and
  the sample number. Module `ChannelBuffers`.
- **The output queue** (`src/hosted.rs`): `Sink::push_samples` and
  `write_data`, which fills interleaved frames from the front of the queue,
  writes silence on underrun, and drains exactly what it used. Module
  `Hosted`.

`Base` holds the Rust integer semantics the model spells out. `ModFile` holds
the decoder's sample and channel records, which are inputs here.

Integer arithmetic follows a release build. `u16` and `i16` operations wrap
(`Wrap16`, `WrapI16`). `/` on `i16` rounds toward zero (`TruncDiv`). `as i8`
reinterprets the bits (`AsI8`). Where the source would panic on an index, a
slice, an `unwrap` or a `% 0`, the model has a precondition that states
exactly when the panic does not happen: `Mixer.MixSafe`,
`PlaySample.PlaySafe`, `ChannelBuffers.CopyInBounds` and
`ChannelBuffer.UpdateSafe`. Lemmas then give simple conditions on a
well-formed sample and step under which those preconditions hold.

The pitch inputs are given as integers, because the source derives them in
`f32`:
- `Step(rate, frac)` is `inc_rate` and `inc_rate_frac`;
- `hostSamplesPerTick` is `host_samples_per_tick`;
- `samplesThisTick` is `samples_this_tick`.

Points where the code does less than a reader might expect:
- Once looped, the library's cursor does not stay in the loop region for
  every step size. `Mixer.CursorStaysInRegion` proves that it stays there under
  `Mixer.StepFits`, a sufficient condition on the step, not a necessary one.
  `Mixer.LongStepLeavesLoop` exhibits a longer step that leaves the region,
  and also the data, so some bound on the step is needed.
- `ChannelBuffer::update` wraps at `length`, which counts 16-bit words. It
  does not wrap at `length * 2`, the byte size of the data. So the
  circular copy only ever reads the first half of a well-formed sample's bytes
  (`ChannelBuffers.WindowIsCircular` states the copy modulo `length`).
- `update` keeps the old offset when a row changes the sample number without
  giving a period. If the old offset lies past the new sample's length, the
  copy wraps a `u16` difference and panics. `ChannelBuffer.UpdateSafe`
  excludes that case instead of assuming it away.

## Model

| member | source | states |
|---|---|---|
| `Cursor.NewSampleState` | src/lib.rs:104-110 | a fresh cursor has not looped and is at offset 0, fraction 0 |
| `Cursor.Advance` | src/lib.rs:173-176 | the fraction becomes `(frac + inc_frac) mod 256`; the offset gains `inc_rate` plus the carry, mod 2^16; `looped_yet` is untouched |
| `Cursor.AdvanceIsFixedPointAdd` | src/lib.rs:173-176 | one step adds the 16.8 fixed-point increment to the 16.8 position, modulo 2^24 |
| `Base.OverflowingAdd8` | src/lib.rs:173 | `u8::overflowing_add`: the wrapped sum plus 256 when it carried is the true sum |
| `Base.AsI8` | src/lib.rs:188 | `as i8` gives a value in -128..127 congruent to the byte mod 256 |
| `Base.TruncDiv` | src/lib.rs:188 | signed `/` rounds toward zero: the remainder has the dividend's sign and is smaller than the divisor |
| `Base.Wrap16` | src/lib.rs:176 | release-build `u16` arithmetic: the result is in 0..65535, congruent to the true value modulo 2^16, and equal to it when it is in range |
| `Base.WrapI16` | src/lib.rs:189 | release-build `i16` arithmetic: the result is in -32768..32767, congruent to the true value modulo 2^16, and equal to it when it is in range |
| `Base.Option.UnwrapOr` | src/lib.rs:188 | `Option::unwrap_or`: the contained value when there is one, else the default |
| `Mixer.ResolveLoop` | src/lib.rs:178-185 | first wrap: past the end and not looped, the cursor sets `looped_yet` and lands at the repeat start plus the overshoot; repeat wrap: looped and past the loop end, it moves back by one loop length; otherwise unchanged; `looped_yet` never clears |
| `Mixer.StepCursor` | src/lib.rs:173-185 | one iteration's cursor update: the advance, then the loop resolution |
| `Mixer.Halted` | src/lib.rs:169-171 | the early exit: the sample has `repeat_length <= 2` and the cursor has looped |
| `Mixer.SampleEnd` | src/lib.rs:178 | `sample.length * 2` in wrapping `u16` arithmetic, the end of the sample in bytes; src/bin/playsample.rs:189-191 uses the same product |
| `Mixer.RepeatStart` | src/lib.rs:181 | `sample.repeat_start * 2` in wrapping `u16` arithmetic, the start of the loop region; src/bin/playsample.rs:191 uses the same product |
| `Mixer.RepeatLength` | src/lib.rs:184 | `sample.repeat_length * 2` in wrapping `u16` arithmetic, the length of the loop region |
| `Mixer.RepeatEnd` | src/lib.rs:182 | `repeat_start * 2 + repeat_length * 2` in wrapping `u16` arithmetic, the end of the loop region; src/bin/playsample.rs:194-195 uses the same sum |
| `Mixer.MixSafe` | src/lib.rs:168-189 | holds exactly when every iteration the loop reaches before it stops or halts indexes inside the truncated buffer and reads `sample.data` at an offset inside it |
| `Mixer.ProductBounds` | src/lib.rs:188 | volume (a `u8`) times a signed byte stays within the `i16` range |
| `Mixer.Contribution` | src/lib.rs:188-189 | the value added lies in -4080..4080; volume 0 adds nothing; volume 64 adds the signed byte times 8 |
| `Mixer.MixFrom` | src/lib.rs:168-190 | the mixing loop keeps the buffer's length and never clears `looped_yet` |
| `Mixer.Truncate` | src/lib.rs:166 | `Vec::truncate`: the first `min(len, n)` entries, unchanged |
| `Mixer.HaltedPersists` | src/lib.rs:169-171 | once a one-shot sample has looped it stays halted after any number of steps |
| `Mixer.LoopedYetMonotone` | src/lib.rs:178-181 | `looped_yet` stays true over any number of steps |
| `Mixer.MixPointwise` | src/lib.rs:168-190 | mixing from index `i` changes only indices in `[i, n)`: entry `j` there gains exactly the channel's delta for that index, added with i16 wrap, whatever the buffer held; entries outside keep their value |
| `Mixer.MixInside` | src/lib.rs:168-190 | at an index the tick reaches, mixing from the start adds exactly the channel's delta for that index, with i16 wrap |
| `Mixer.MixAdds` | src/lib.rs:188-189 | mixing a channel into any buffer adds, entry by entry with i16 wrap, what the channel produces mixed into silence |
| `Mixer.MixSuperposition` | src/lib.rs:188-189 | mixing two channels into a zeroed buffer gives, at every index, the i16-wrapping sum of each channel mixed alone |
| `Mixer.MixLeavesHaltedIndices` | src/lib.rs:169-171 | entries from the index where the loop stops onward are unchanged |
| `Mixer.HaltedIsSilent` | src/lib.rs:169-171 | a halted channel changes neither the buffer nor its cursor |
| `Mixer.NewCursorInRegion` | src/lib.rs:104-110 | a fresh cursor starts inside every well-formed sample's region |
| `Mixer.StepStaysInRegion` | src/lib.rs:173-185 | for a well-formed sample and a fitting step (`StepFits`), one iteration keeps a cursor that is in its region there, and a step the loop takes lands inside the data |
| `Mixer.CursorStaysInRegion` | src/lib.rs:173-185 | the wrap invariant: for a well-formed sample and a fitting step (`StepFits`), from a cursor in its region (a fresh cursor is), the cursor stays in its region after any number of steps; once looped, a sample with `repeat_length > 2` stays in `[repeat_start*2, repeat_start*2 + repeat_length*2)` |
| `Mixer.LongStepLeavesLoop` | src/lib.rs:173-188 | one example that `StepFits` excludes: an 8-byte sample looping over bytes 2 to 7, where a 20-byte step takes a fresh cursor to 14, past the loop and the data, so the first iteration would index out of bounds |
| `Mixer.MixSafeWhenWellFormed` | src/lib.rs:188-189 | a well-formed sample, a fitting step, a cursor in its region and a buffer of at least `n` entries never make the loop index out of bounds |
| `Mixer.MixFromInRegion` | src/lib.rs:168-185 | with a well-formed sample and a fitting step, the cursor a tick leaves is in the region again, so the next tick is safe too |
| `Mixer.MixFromHalts` | src/lib.rs:168-171 | a channel that halts at an index the tick reaches is still halted when the tick ends, so every later tick leaves it silent |
| `Mixer.MixedLength` | src/lib.rs:166-168 | with `len(buf) >= host_samples_per_tick` the mixed buffer has exactly `host_samples_per_tick` entries |
| `Mixer.ChannelState.constructor` | src/lib.rs:122-129 | a fresh cursor, no sample number, period 0, no volume override |
| `Mixer.ChannelState.NewSample` | src/lib.rs:131-135 | resets the cursor, sets the sample number, clears the volume override, keeps the period |
| `Mixer.ChannelState.SetVolume` | src/lib.rs:137-139 | sets the volume override and changes nothing else |
| `Mixer.ChannelState.SetPeriod` | src/lib.rs:141-143 | sets the period and changes nothing else |
| `Mixer.ChannelState.SampleNum` | src/lib.rs:145-147 | returns the stored sample number |
| `Mixer.ChannelState.CurrentVoice` | src/lib.rs:188 | the channel mixes with its volume override when set, else with the sample's volume |
| `Mixer.MixIteration` | src/lib.rs:173-189 | one iteration as written (carry add, first wrap or repeat wrap, scaled read) yields the specified cursor step and the channel's contribution at the new cursor |
| `Mixer.ChannelState.MixSampleForTick` | src/lib.rs:149-191 | the new cursor and buffer are those of the mixing loop run on the truncated buffer from the old cursor, with the channel's volume override or else the sample's volume; the result has `min(len(buf), host_samples_per_tick)` entries; with a well-formed sample and a fitting step, a cursor in its region stays in it |
| `PlaySample.CheckSample` | src/bin/playsample.rs:119-127 | a sample number outside 1..=31 is refused; an in-range number selects `sample_info[n-1]`, which is refused exactly when its length is 0 and returned otherwise |
| `PlaySample.PlayAdvance` | src/bin/playsample.rs:179-186 | the branching carry form of the advance is the library's advance |
| `PlaySample.PlayResolve` | src/bin/playsample.rs:188-197 | before looping, or always when `repeat_length <= 2`, reaching the end sets `looped_yet` and wraps to the repeat start plus the overshoot; once looped with a real loop, reaching the loop end subtracts the whole `repeat_start*2 + repeat_length*2` |
| `PlaySample.PlayStep` | src/bin/playsample.rs:179-197 | one iteration's cursor update: the fraction moves on modulo 256 and `looped_yet` is never cleared |
| `PlaySample.PlayValue` | src/bin/playsample.rs:199-200 | each value is the signed byte times 8, in -1024..1016, with no volume scaling |
| `PlaySample.PlayRun` | src/bin/playsample.rs:178-201 | `k` iterations produce exactly `k` values |
| `PlaySample.PlaySafe` | src/bin/playsample.rs:178-199 | holds exactly when each of the `k` iterations reads `sample.data` at an offset inside it |
| `PlaySample.PlayIteration` | src/bin/playsample.rs:179-200 | one iteration's new cursor is the specified step and its value is the byte there times 8 |
| `PlaySample.PlayLoop` | src/bin/playsample.rs:178-201 | `n` iterations leave the cursor where the run ends and append the run's values, in order, behind the old queue |
| `PlaySample.PlayRunFirst` | src/bin/playsample.rs:178-201 | the first iteration's value leads a run, followed by the run from the cursor one step on |
| `PlaySample.PlayTick` | src/bin/playsample.rs:172-204 | proceeds exactly when the queue holds at most 1000 values; then it appends exactly `host_samples_per_tick` values to the back, leaving earlier entries unchanged; otherwise nothing changes |
| `PlaySample.PlayRunAt` | src/bin/playsample.rs:178-201 | the `j`-th value pushed is read at the cursor after `j + 1` iterations |
| `PlaySample.PlayRunEnd` | src/bin/playsample.rs:178-201 | a run of `k` iterations leaves the cursor where `k` steps take it |
| `PlaySample.PlayStepStaysInRegion` | src/bin/playsample.rs:188-199 | for a well-formed sample and a fitting step (`StepFits`), one iteration keeps a cursor that is in this policy's region there, and inside the data |
| `PlaySample.CursorInRegionAfter` | src/bin/playsample.rs:188-197 | for a well-formed sample and a fitting step (`StepFits`), from a cursor in its region (a fresh cursor is), the region is kept over any number of iterations |
| `PlaySample.PlaySafeWhenWellFormed` | src/bin/playsample.rs:199 | for a well-formed sample and a fitting step (`StepFits`), from a cursor in its region (a fresh cursor is), no number of iterations makes `play_tick` index outside the data |
| `PlaySample.OneShotKeepsPlaying` | src/bin/playsample.rs:188-192 | a well-formed one-shot sample with a fitting step (`StepFits`), from a fresh cursor, keeps re-wrapping and never stops, reading inside the sample after any number of steps |
| `PlaySample.PlayStepAgreesWithMixer` | src/bin/playsample.rs:179-197 | before the first wrap, or for a loop starting at 0, a `play_tick` step equals a library step |
| `PlaySample.PlayValueIsFullVolume` | src/bin/playsample.rs:199-200 | the pushed value is the library's contribution at volume 64 |
| `PlaySample.LoopingSample` | src/bin/playsample.rs:193-196 | the counterexample's sample is well formed with a loop that starts after byte 0 |
| `PlaySample.RepeatWrapLeavesLoop` | src/bin/playsample.rs:193-196 | for a reachable cursor, the repeat wrap as written lands below the loop start, where the library's lands inside the loop |
| `Notes.Note.Period` | src/bin/playsample.rs:29-102 | each note's discriminant is its Amiga period, between 113 and 856 |
| `Notes.FromIndexOfIndex` | src/bin/playsample.rs:29-102 | every note is found again from its position in declaration order |
| `Notes.NextPeriodSmaller` | src/bin/playsample.rs:29-102 | each note's period exceeds the next note's |
| `Notes.PeriodsDecrease` | src/bin/playsample.rs:29-102 | periods strictly decrease in declaration order |
| `Notes.TableEnds` | src/bin/playsample.rs:29-102 | `C1` is 856 and the only largest period; `B3` is 113 and the only smallest |
| `ChannelBuffers.StartOffset` | src/main.rs:43-48 | a nonzero period restarts the copy at offset 0; otherwise the old offset is kept |
| `ChannelBuffers.Window` | src/main.rs:74-91 | the bytes copied always number exactly `samples_this_tick` |
| `ChannelBuffers.NextOffset` | src/main.rs:93-94 | the new offset lies inside the sample, and is `(off + n) mod s_len` when the u16 sum does not wrap |
| `ChannelBuffers.CopyInBounds` | src/main.rs:74-94 | holds exactly when the `split_at`, both `copy_from_slice` calls (matching lengths, ranges inside both slices) and the final `% s_len` of the copy do not panic, with the `u16` sums and differences wrapped |
| `ChannelBuffers.WindowIsCircular` | src/main.rs:74-90 | byte `k` copied is `s_data[(off + k) mod s_len]` when the offset is inside the sample and the sum does not wrap: the copy is the circular stretch of the sample |
| `ChannelBuffers.CopyInBoundsWhenSmall` | src/main.rs:74-94 | `0 < s_len < 0x8000`, `n <= s_len`, `n <= 600`, `off < s_len` and data of at least `s_len` bytes make every slice and the `%` of `update` safe |
| `ChannelBuffers.ChannelBuffer.constructor` | src/main.rs:29-39 | 600 zero bytes, offset 0, all options `None`, `first_iter` false |
| `ChannelBuffers.ChannelBuffer.Period` | src/main.rs:105-108 | the current period, else the last one; one of them must be set |
| `ChannelBuffers.ChannelBuffer.Sample` | src/main.rs:110-112 | the current sample number, else the last one; one of them must be set |
| `ChannelBuffers.ChannelBuffer.NextSample` | src/main.rs:50-54 | the sample number `update` uses after taking in the row: the row's nonzero number, else the last one |
| `ChannelBuffers.ChannelBuffer.UpdateSafe` | src/main.rs:63-112 | holds exactly when `update` does not panic: `period()` and `sample()` can unwrap, the sample is in the table at `sample() - 1`, and the copy and the `%` are in bounds from the offset the row leaves |
| `ChannelBuffers.ChannelBuffer.CopyFromSlice` | src/main.rs:83-90 | `copy_from_slice` puts the source range into the buffer range and changes no other byte |
| `ChannelBuffers.ChannelBuffer.CopyStretch` | src/main.rs:74-91 | the front `n` bytes of the buffer become the window and the rest is unchanged |
| `ChannelBuffers.ChannelBuffer.SetCurrent` | src/main.rs:43-54 | the row's nonzero period and sample number become current, zero ones clear them; a nonzero period resets the offset; the fallbacks are untouched |
| `ChannelBuffers.ChannelBuffer.Remember` | src/main.rs:96-102 | each current value that is set becomes the fallback; nothing else changes |
| `ChannelBuffers.ChannelBuffer.Update` | src/main.rs:41-103 | sets or clears the current period and sample from the row; a nonzero period resets the offset; copies the window of `sinfo[sample() - 1]`; advances the offset modulo `s_len`; updates the fallbacks only from set current values; `period()` and `sample()` become the most recent nonzero ones |
| `ChannelBuffers.PeriodIsLastPeriod` | src/main.rs:96-108 | between updates `period()` is the last nonzero period |
| `ChannelBuffers.SampleIsLastSample` | src/main.rs:100-112 | between updates `sample()` is the last nonzero sample number |
| `Hosted.FrameCount` | src/hosted.rs:55 | `chunks_mut` yields `ceil(len / channels)` frames |
| `Hosted.FrameCountUnique` | src/hosted.rs:55 | the ceiling is the only frame count covering the output with a non-empty last frame |
| `Hosted.FrameValue` | src/hosted.rs:56-66 | frame `f` plays `queue[f]` while the queue lasts and 0 after |
| `Hosted.FrameValueAfterPush` | src/hosted.rs:32-34 | after a push, frames play the old queue, then the pushed buffer in order, then silence |
| `Hosted.FillFrame` | src/hosted.rs:68-71 | every slot of one frame gets the same value and no other slot changes |
| `Hosted.Sink.constructor` | src/hosted.rs:13-14 | the queue starts empty |
| `Hosted.Sink.PushSamples` | src/hosted.rs:22-38 | appends all of `buf`, in order, exactly when the queue holds at most 1000 values, however long it then gets; otherwise nothing changes |
| `Hosted.Sink.WriteData` | src/hosted.rs:41-76 | output slot `j` gets the queue's value for frame `j / channels`, or 0 past its end; exactly `min(frames, len)` values are removed from the front and the rest keep their order |

## Left out

- Floating-point pitch conversion: `freq`, `inc_rate`, `inc_rate_frac`,
  `host_samples_per_tick`, `freq()` and `samples_this_tick()` are `f32`
  computations. Their integer results are parameters.
- Debug-build overflow panics: the model follows release-build wrapping for
  `u16`/`i16` arithmetic.
- Console output: the `println!` of `play_tick` (src/bin/playsample.rs:170)
  and of `ChannelBuffer::update` (src/main.rs:73) only print diagnostics and
  change no state.
- The audio device, `run`, `Sink::new`, `Sink::start` and the
  `cpal::Sample::from` conversion are foreign calls. Output elements are `i16`
  and the conversion is the identity.
- The global mutex-guarded queue, its locking, and the sleep or spin between
  retries are concurrency. Each operation runs as one step with the lock
  held. When the queue is over its mark, the attempt reports that it did not
  proceed.
- `PlaySample.PlayTick`: takes the cursor and the queue as values and returns
  them, instead of a `&mut` cursor and a global queue. It models one attempt
  of the `'wait` loop, not the waiting.
- `Hosted.Sink.PushSamples`: models one attempt for the same reason.
- `Mixer.ChannelState.MixSampleForTick`: takes `buf` as a value and returns
  the new buffer, instead of changing a `Vec` in place. No other reference to
  it exists during the call.
- The driver loops of `main` in src/main.rs and src/bin/playsample.rs, the
  per-tick push of `ChannelBuffer` bytes into the queue, and argument parsing,
  file I/O and the external module decoder. Sample records are inputs.
- The `write_data` copies in src/main.rs and src/bin/playsample.rs are
  identical to the one in src/hosted.rs. They are modelled once, as
  `Hosted.Sink.WriteData`.
- `Note` parsing from its command-line names is argument parsing. Only the
  period table is modelled.
- Row effects (volume, pattern break, speed, jumps) do not appear in the
  modelled code.

## Findings

| source | as written | input that shows it | evidently intended | confidence | as-written member | corrected member |
|---|---|---|---|---|---|---|
| src/bin/playsample.rs:194-195 | once looped, reaching the loop end subtracts `repeat_start*2 + repeat_length*2`, which sends the cursor below the loop start whenever the overshoot past the loop end is less than `repeat_start*2` | a sample of 4 words looping over words 1 to 3 (bytes 2 to 7), `inc_rate` 3, `inc_rate_frac` 0: the cursor goes 3, 6, wraps to 3, 6, then 9 becomes 1 | subtract one loop length, `repeat_length*2`, as src/lib.rs:184 does; `Mixer.CursorStaysInRegion` proves that this keeps the cursor in the loop region | medium, not executed | `PlaySample.RepeatWrapLeavesLoop` | `Mixer.ResolveLoop` |
