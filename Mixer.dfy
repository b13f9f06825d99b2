/** The channel mixer of src/lib.rs: `ChannelState` and its
    `mix_sample_for_tick`, which steps a channel's cursor through its sample
    once per output sample and adds the volume-scaled sample values into a
    shared tick buffer. */
module Mixer {
  import opened Base
  import opened ModFile
  import opened Cursor

  /** What stays fixed for one channel during one tick: its sample, its
      effective volume (the channel's override, else the sample's own) and
      its step. */
  datatype Voice = Voice(sample: SampleInfo, volume: uint8, step: Step)

  /** The cursor and the tick buffer after mixing. */
  datatype MixResult = MixResult(state: SampleState, buf: seq<int16>)

  /** `sample.length * 2`, the end of the sample in bytes. */
  function SampleEnd(s: SampleInfo): uint16 {
    Wrap16(s.length * 2)
  }

  /** `sample.repeat_start * 2`, the start of the loop region in bytes. */
  function RepeatStart(s: SampleInfo): uint16 {
    Wrap16(s.repeatStart * 2)
  }

  /** `sample.repeat_length * 2`, the length of the loop region in bytes. */
  function RepeatLength(s: SampleInfo): uint16 {
    Wrap16(s.repeatLength * 2)
  }

  /** `sample.repeat_start * 2 + sample.repeat_length * 2`, the end of the
      loop region. */
  function RepeatEnd(s: SampleInfo): uint16 {
    Wrap16(RepeatStart(s) + RepeatLength(s))
  }

  /** Loop resolution after an advance. Past the end of a sample that has
      not looped yet, the cursor jumps to the loop start keeping its
      overshoot; past the end of the loop region of a sample that has, it
      moves back by one loop length. */
  function ResolveLoop(st: SampleState, s: SampleInfo): (r: SampleState)
    ensures r.sampleFrac == st.sampleFrac
    ensures st.loopedYet ==> r.loopedYet
    ensures !st.loopedYet && st.sampleOffset >= SampleEnd(s) ==>
      r.loopedYet && (r.sampleOffset - RepeatStart(s) - (st.sampleOffset - SampleEnd(s))) % 0x1_0000 == 0
    ensures st.loopedYet && st.sampleOffset >= RepeatEnd(s) ==>
      (st.sampleOffset - r.sampleOffset - RepeatLength(s)) % 0x1_0000 == 0
    ensures (if st.loopedYet then st.sampleOffset < RepeatEnd(s) else st.sampleOffset < SampleEnd(s)) ==>
      r == st
  {
    if st.sampleOffset >= SampleEnd(s) && !st.loopedYet then
      st.(loopedYet := true, sampleOffset := Wrap16(RepeatStart(s) + (st.sampleOffset - SampleEnd(s))))
    else if st.loopedYet && st.sampleOffset >= RepeatEnd(s) then
      st.(sampleOffset := Wrap16(st.sampleOffset - RepeatLength(s)))
    else
      st
  }

  /** One iteration's cursor update: advance, then resolve the loop. The
      fraction moves on modulo 256 whatever the loop does, and `looped_yet`
      is never cleared. */
  function StepCursor(st: SampleState, v: Voice): SampleState {
    ResolveLoop(Advance(st, v.step), v.sample)
  }

  /** The loop's early exit: a sample without a real loop region
      (`repeat_length <= 2`) that has played through once. */
  predicate Halted(st: SampleState, s: SampleInfo) {
    s.repeatLength <= 2 && st.loopedYet
  }

  /** `data[i]`, with 0 outside the data; the method reads the data only
      where `MixSafe` says the index is in range. */
  function ByteAt(data: seq<uint8>, i: nat): uint8 {
    if i < |data| then data[i] else 0
  }

  /** `0 <= v <= 255` and `-128 <= b <= 127` bound the i16 product, which
      therefore never wraps. */
  lemma ProductBounds(v: uint8, b: int)
    requires -0x80 <= b < 0x80
    ensures -32640 <= v * b <= 32385
  {
    if b >= 0 {
      assert v * b <= 255 * b;
    } else {
      assert v * b >= 255 * b;
    }
  }

  /** The value a channel adds at the cursor: the signed sample scaled by
      volume/64, rounded toward zero, then shifted left by 3. */
  function Contribution(st: SampleState, v: Voice): (r: int16)
    ensures -4080 <= r <= 4080
    ensures v.volume == 0 ==> r == 0
    ensures v.volume == 64 ==> r == AsI8(ByteAt(v.sample.data, st.sampleOffset)) * 8
  {
    var b := AsI8(ByteAt(v.sample.data, st.sampleOffset));
    ProductBounds(v.volume, b);
    var scaled := TruncDiv(v.volume * b, 64);
    assert -510 <= scaled <= 510;
    WrapI16(scaled * 8)
  }

  /** The mixing loop from output index `i` up to `n`, as a function: stop
      at `n`, at the end of the (already truncated) buffer, or when halted;
      otherwise step the cursor and add the contribution with i16
      wrap-around. */
  function MixFrom(v: Voice, n: nat, st: SampleState, buf: seq<int16>, i: nat): (r: MixResult)
    ensures |r.buf| == |buf|
    ensures st.loopedYet ==> r.state.loopedYet
    decreases n - i
  {
    if i >= n || i >= |buf| || Halted(st, v.sample) then
      MixResult(st, buf)
    else
      var st' := StepCursor(st, v);
      MixFrom(v, n, st', buf[i := WrapI16(buf[i] + Contribution(st', v))], i + 1)
  }

  /** The source does not panic from output index `i` on: every index the
      loop reaches is inside the buffer and every cursor it reads is inside
      the sample data. */
  predicate MixSafe(v: Voice, n: nat, st: SampleState, bufLen: nat, i: nat)
    decreases n - i
  {
    i >= n || Halted(st, v.sample) ||
      (i < bufLen && StepCursor(st, v).sampleOffset < |v.sample.data|
       && MixSafe(v, n, StepCursor(st, v), bufLen, i + 1))
  }

  /** The cursor after `k` loop iterations, ignoring the early exit. */
  function CursorAfter(v: Voice, st: SampleState, k: nat): SampleState
    decreases k
  {
    if k == 0 then st else CursorAfter(v, StepCursor(st, v), k - 1)
  }

  /** What a channel adds at the `k`-th output index of its tick: nothing
      once halted, else the contribution at the cursor after `k + 1` steps. */
  function Delta(v: Voice, st: SampleState, k: nat): int16 {
    if Halted(CursorAfter(v, st, k), v.sample) then 0 else Contribution(CursorAfter(v, st, k + 1), v)
  }

  /** The buffer `buf[..n]` (`Vec::truncate`). */
  function Truncate(buf: seq<int16>, n: nat): (r: seq<int16>)
    ensures |r| == Min(|buf|, n)
    ensures forall j :: 0 <= j < |r| ==> r[j] == buf[j]
  {
    if |buf| <= n then buf else buf[..n]
  }

  /** A zeroed tick buffer. */
  function Silence(len: nat): (s: seq<int16>)
    ensures |s| == len && forall j :: 0 <= j < len ==> s[j] == 0
  {
    seq(len, _ => 0)
  }

  /** Once halted, a cursor stays halted: nothing in the loop clears
      `looped_yet`. */
  lemma {:induction false} HaltedPersists(v: Voice, st: SampleState, k: nat)
    requires Halted(st, v.sample)
    ensures Halted(CursorAfter(v, st, k), v.sample)
  {
    LoopedYetMonotone(v, st, k);
  }

  /** `looped_yet` never goes back from true to false, over any number of
      steps. */
  lemma {:induction false} LoopedYetMonotone(v: Voice, st: SampleState, k: nat)
    requires st.loopedYet
    ensures CursorAfter(v, st, k).loopedYet
    decreases k
  {
    if k > 0 {
      LoopedYetMonotone(v, StepCursor(st, v), k - 1);
    }
  }

  /** Shifting the tick by one step: the `k+1`-th delta from `st` is the
      `k`-th delta from the cursor one step on. */
  lemma DeltaShift(v: Voice, st: SampleState, k: nat)
    ensures Delta(v, st, k + 1) == Delta(v, StepCursor(st, v), k)
  {
    assert CursorAfter(v, st, k + 1) == CursorAfter(v, StepCursor(st, v), k);
    assert CursorAfter(v, st, k + 2) == CursorAfter(v, StepCursor(st, v), k + 1);
  }

  /** The first delta of a running channel is the contribution after its
      first step. */
  lemma DeltaFirst(v: Voice, st: SampleState)
    requires !Halted(st, v.sample)
    ensures Delta(v, st, 0) == Contribution(StepCursor(st, v), v)
  {
    assert CursorAfter(v, st, 1) == CursorAfter(v, StepCursor(st, v), 0);
  }

  /** Mixing is additive and index-wise: outside `[i, n)` entry `j` of the
      buffer is unchanged, and inside it the entry gains exactly the
      channel's `Delta` for that index, whatever the buffer held before. */
  lemma {:induction false} MixPointwise(v: Voice, n: nat, st: SampleState, buf: seq<int16>, i: nat, j: nat)
    requires j < |buf|
    ensures MixFrom(v, n, st, buf, i).buf[j] == if i <= j < n then WrapI16(buf[j] + Delta(v, st, j - i)) else buf[j]
    decreases n - i
  {
    var out := MixFrom(v, n, st, buf, i).buf;
    if i >= n || i >= |buf| {
      assert out == buf;
    } else if Halted(st, v.sample) {
      assert out == buf;
      if i <= j < n {
        HaltedPersists(v, st, j - i);
        assert Delta(v, st, j - i) == 0;
      }
    } else {
      var st' := StepCursor(st, v);
      var buf' := buf[i := WrapI16(buf[i] + Contribution(st', v))];
      assert out == MixFrom(v, n, st', buf', i + 1).buf;
      MixPointwise(v, n, st', buf', i + 1, j);
      if i < j < n {
        var k := j - (i + 1);
        assert j - i == k + 1;
        DeltaShift(v, st, k);
        assert buf'[j] == buf[j];
      } else if j == i {
        DeltaFirst(v, st);
        assert out[j] == buf'[j];
      } else {
        assert out[j] == buf[j];
      }
    }
  }

  /** `MixPointwise` for an index the tick reaches, mixing from the
      start. */
  lemma MixInside(v: Voice, n: nat, st: SampleState, buf: seq<int16>, j: nat)
    requires j < n && j < |buf|
    ensures MixFrom(v, n, st, buf, 0).buf[j] == WrapI16(buf[j] + Delta(v, st, j))
  {
    MixPointwise(v, n, st, buf, 0, j);
  }

  /** Mixing a channel into a buffer adds, entry by entry with i16 wrap,
      what the same channel produces mixed into silence. */
  lemma MixAdds(v: Voice, n: nat, st: SampleState, buf: seq<int16>, len: nat, j: nat)
    requires |buf| == len && j < len
    ensures MixFrom(v, n, st, buf, 0).buf[j]
         == WrapI16(buf[j] as int + MixFrom(v, n, st, Silence(len), 0).buf[j])
  {
    if j < n {
      var d := Delta(v, st, j);
      var alone := MixFrom(v, n, st, Silence(len), 0).buf[j];
      MixInside(v, n, st, buf, j);
      MixInside(v, n, st, Silence(len), j);
      assert Silence(len)[j] as int + d == d;
      assert alone == d;
    } else {
      MixPointwise(v, n, st, buf, 0, j);
      MixPointwise(v, n, st, Silence(len), 0, j);
      assert Silence(len)[j] == 0;
    }
  }

  /** Superposition: mixing a second channel into the buffer the first one
      was mixed into gives, at every index `j`, the (i16 wrapping) sum of
      what each channel produces mixed alone into silence. */
  lemma MixSuperposition(a: Voice, sa: SampleState, b: Voice, sb: SampleState, n: nat, len: nat, j: nat)
    requires j < len
    ensures |MixFrom(b, n, sb, MixFrom(a, n, sa, Silence(len), 0).buf, 0).buf| == len
    ensures MixFrom(b, n, sb, MixFrom(a, n, sa, Silence(len), 0).buf, 0).buf[j]
         == WrapI16(MixFrom(a, n, sa, Silence(len), 0).buf[j] as int + MixFrom(b, n, sb, Silence(len), 0).buf[j])
  {
    var aloneA := MixFrom(a, n, sa, Silence(len), 0).buf;
    MixAdds(b, n, sb, aloneA, len, j);
    assert MixFrom(b, n, sb, aloneA, 0).buf[j] == WrapI16(aloneA[j] as int + MixFrom(b, n, sb, Silence(len), 0).buf[j]);
  }

  /** The early exit leaves the rest of the tick alone: the entry at every
      index the loop reaches already halted is unchanged. */
  lemma MixLeavesHaltedIndices(v: Voice, n: nat, st: SampleState, buf: seq<int16>, j: nat)
    requires j < n && j < |buf|
    requires Halted(CursorAfter(v, st, j), v.sample)
    ensures MixFrom(v, n, st, buf, 0).buf[j] == buf[j]
  {
    MixPointwise(v, n, st, buf, 0, j);
  }

  /** A halted channel contributes nothing to this tick or to any later
      one, until a new sample resets its cursor: mixing changes neither
      the buffer nor the cursor. */
  lemma HaltedIsSilent(v: Voice, n: nat, st: SampleState, buf: seq<int16>)
    requires Halted(st, v.sample)
    ensures MixFrom(v, n, st, buf, 0) == MixResult(st, buf)
  {
  }

  /** Where the cursor of a well-formed sample stays: before the first
      wrap inside the sample; after it, when the sample has a real loop,
      inside the loop region. */
  predicate InRegion(st: SampleState, s: SampleInfo) {
    if !st.loopedYet then st.sampleOffset < 2 * s.length
    else s.repeatLength > 2 ==>
      2 * s.repeatStart <= st.sampleOffset < 2 * s.repeatStart + 2 * s.repeatLength
  }

  /** A step no longer than the loop region, small enough that the
      cursor never passes the u16 range. */
  predicate StepFits(s: SampleInfo, step: Step) {
    var d := step.rate + 1;
    && 2 * s.repeatStart + d <= 2 * s.length
    && 2 * s.length + d <= 0x1_0000
    && (s.repeatLength > 2 ==> d <= 2 * s.repeatLength)
  }

  /** A fresh cursor (`SampleState::new`, set by `new_sample`) is at
      position 0, which lies in the region of every well-formed sample. */
  lemma NewCursorInRegion(s: SampleInfo)
    requires WellFormed(s)
    ensures Fixed(NewSampleState()) == 0 && InRegion(NewSampleState(), s)
  {
  }

  /** One step keeps the cursor in its region, and a step the loop
      actually takes lands inside the sample data. */
  lemma StepStaysInRegion(v: Voice, st: SampleState)
    requires WellFormed(v.sample) && StepFits(v.sample, v.step) && InRegion(st, v.sample)
    ensures InRegion(StepCursor(st, v), v.sample)
    ensures !Halted(st, v.sample) ==> StepCursor(st, v).sampleOffset < |v.sample.data|
  {
    var s := v.sample;
    var a := Advance(st, v.step);
    assert SampleEnd(s) == 2 * s.length;
    assert RepeatStart(s) == 2 * s.repeatStart;
    assert RepeatLength(s) == 2 * s.repeatLength;
    assert RepeatEnd(s) == 2 * s.repeatStart + 2 * s.repeatLength;
    if !Halted(st, s) {
      assert a.sampleOffset <= st.sampleOffset + v.step.rate + 1;
      assert a.sampleOffset >= st.sampleOffset + v.step.rate;
    }
  }

  /** The wrap invariant after any number of steps: once looped, a sample
      with a real loop stays inside `[repeat_start*2, repeat_start*2 +
      repeat_length*2)`. */
  lemma {:induction false} CursorStaysInRegion(v: Voice, st: SampleState, k: nat)
    requires WellFormed(v.sample) && StepFits(v.sample, v.step) && InRegion(st, v.sample)
    ensures InRegion(CursorAfter(v, st, k), v.sample)
    decreases k
  {
    if k > 0 {
      StepStaysInRegion(v, st);
      CursorStaysInRegion(v, StepCursor(st, v), k - 1);
    }
  }

  /** The region invariant needs the step to fit: moving 20 bytes per
      output sample through an 8-byte sample that loops over bytes 2 to 7,
      a fresh cursor moves to 20 and the first wrap leaves it at 14, past
      the loop and past the data, on the first iteration of a tick. */
  lemma LongStepLeavesLoop()
    ensures var s := SampleInfo(4, 1, 3, 64, seq(8, _ => 0));
      var v := Voice(s, 64, Step(20, 0));
      && WellFormed(s) && InRegion(NewSampleState(), s) && !StepFits(s, v.step)
      && StepCursor(NewSampleState(), v) == SampleState(true, 14, 0)
      && !InRegion(StepCursor(NewSampleState(), v), s)
      && !MixSafe(v, 1, NewSampleState(), 1, 0)
  {
    var s := SampleInfo(4, 1, 3, 64, seq(8, _ => 0));
    var v := Voice(s, 64, Step(20, 0));
    assert Advance(NewSampleState(), v.step) == SampleState(false, 20, 0);
    assert StepCursor(NewSampleState(), v) == SampleState(true, 14, 0);
  }

  /** The region invariant across ticks: the cursor a tick leaves is in
      the region again, so `MixSafeWhenWellFormed` applies to the next
      tick too. */
  lemma {:induction false} MixFromInRegion(v: Voice, n: nat, st: SampleState, buf: seq<int16>, i: nat)
    requires WellFormed(v.sample) && StepFits(v.sample, v.step) && InRegion(st, v.sample)
    ensures InRegion(MixFrom(v, n, st, buf, i).state, v.sample)
    decreases n - i
  {
    if !(i >= n || i >= |buf| || Halted(st, v.sample)) {
      var st' := StepCursor(st, v);
      StepStaysInRegion(v, st);
      MixFromInRegion(v, n, st', buf[i := WrapI16(buf[i] + Contribution(st', v))], i + 1);
    }
  }

  /** A channel that halts at an index the tick reaches is still halted
      when the tick ends, so by `HaltedIsSilent` every later tick leaves
      it silent too. */
  lemma {:induction false} MixFromHalts(v: Voice, n: nat, st: SampleState, buf: seq<int16>, i: nat, j: nat)
    requires i <= j < n && j < |buf|
    requires Halted(CursorAfter(v, st, j - i), v.sample)
    ensures Halted(MixFrom(v, n, st, buf, i).state, v.sample)
    decreases n - i
  {
    if !Halted(st, v.sample) {
      var st' := StepCursor(st, v);
      assert j != i;
      var k := j - (i + 1);
      assert j - i == k + 1;
      assert CursorAfter(v, st, k + 1) == CursorAfter(v, st', k);
      MixFromHalts(v, n, st', buf[i := WrapI16(buf[i] + Contribution(st', v))], i + 1, j);
    }
  }

  /** A well-formed sample with a fitting step, a cursor in its region and
      a buffer of at least `n` entries never makes the loop panic. */
  lemma {:induction false} MixSafeWhenWellFormed(v: Voice, n: nat, st: SampleState, bufLen: nat, i: nat)
    requires WellFormed(v.sample) && StepFits(v.sample, v.step) && InRegion(st, v.sample) && n <= bufLen
    ensures MixSafe(v, n, st, bufLen, i)
    decreases n - i
  {
    if i < n && !Halted(st, v.sample) {
      StepStaysInRegion(v, st);
      MixSafeWhenWellFormed(v, n, StepCursor(st, v), bufLen, i + 1);
    }
  }

  /** With a buffer of at least `host_samples_per_tick` entries, the mixed
      buffer has exactly that many. */
  lemma MixedLength(v: Voice, n: nat, st: SampleState, buf: seq<int16>)
    requires |buf| >= n
    ensures |MixFrom(v, n, st, Truncate(buf, n), 0).buf| == n
  {
  }

  /** One iteration of the mixing loop as the source writes it: advance
      the cursor with the u8 carry, resolve the loop, then read the byte
      under the cursor and scale it. */
  method MixIteration(cur: SampleState, sample: SampleInfo, vol: uint8, step: Step)
    returns (next: SampleState, value: int16)
    requires StepCursor(cur, Voice(sample, vol, step)).sampleOffset < |sample.data|
    ensures next == StepCursor(cur, Voice(sample, vol, step))
    ensures value == Contribution(next, Voice(sample, vol, step))
  {
    var (newFrac, carry) := OverflowingAdd8(cur.sampleFrac, step.frac);
    next := cur.(sampleFrac := newFrac);
    next := next.(sampleOffset := Wrap16(next.sampleOffset + Wrap16(step.rate + if carry then 1 else 0)));
    assert next == Advance(cur, step);
    ghost var advanced := next;
    if next.sampleOffset >= Wrap16(sample.length * 2) && !next.loopedYet {
      next := next.(loopedYet := true,
                    sampleOffset := Wrap16(Wrap16(sample.repeatStart * 2) + (next.sampleOffset - Wrap16(sample.length * 2))));
    } else if next.loopedYet
      && next.sampleOffset >= Wrap16(Wrap16(sample.repeatStart * 2) + Wrap16(sample.repeatLength * 2))
    {
      next := next.(sampleOffset := Wrap16(next.sampleOffset - Wrap16(sample.repeatLength * 2)));
    }
    assert next == ResolveLoop(advanced, sample);
    var b := AsI8(sample.data[next.sampleOffset]);
    ProductBounds(vol, b);
    var currSampleVal := TruncDiv(vol * b, 64);
    value := WrapI16(currSampleVal * 8);
  }

  /** One playback channel. */
  class ChannelState {
    var state: SampleState
    var num: Option<nonZeroU8>
    var period: uint16
    var volume: Option<uint8>

    /** `ChannelState::new` */
    constructor ()
      ensures state == NewSampleState() && num == None && period == 0 && volume == None
    {
      state := NewSampleState();
      num := None;
      period := 0;
      volume := None;
    }

    /** Trigger a new sample: fresh cursor, the new sample number, no
        volume override; the period is kept. */
    method NewSample(n: nonZeroU8)
      modifies this
      ensures state == NewSampleState() && num == Some(n) && volume == None
      ensures period == old(period)
    {
      state := NewSampleState();
      num := Some(n);
      volume := None;
    }

    /** Override the sample's volume; any `u8` is accepted. */
    method SetVolume(vol: uint8)
      modifies this`volume
      ensures volume == Some(vol)
    {
      volume := Some(vol);
    }

    method SetPeriod(p: uint16)
      modifies this`period
      ensures period == p
    {
      period := p;
    }

    function SampleNum(): (r: Option<nonZeroU8>)
      reads this
      ensures r == num
    {
      num
    }

    /** The voice this channel mixes with `sample` and `step`: the volume
        override if set, else the sample's volume. */
    function CurrentVoice(sample: SampleInfo, step: Step): (r: Voice)
      reads this
      ensures r.sample == sample && r.step == step
      ensures volume.Some? ==> r.volume == volume.value
      ensures volume.None? ==> r.volume == sample.volume
    {
      Voice(sample, volume.UnwrapOr(sample.volume), step)
    }

    /** `mix_sample_for_tick`: truncate `buf` to `hostSamplesPerTick`
        entries and add this channel's output into it, stepping the
        cursor. */
    method MixSampleForTick(buf: seq<int16>, sample: SampleInfo, step: Step, hostSamplesPerTick: uint16)
      returns (out: seq<int16>)
      requires MixSafe(CurrentVoice(sample, step), hostSamplesPerTick, state, Min(|buf|, hostSamplesPerTick), 0)
      modifies this`state
      ensures var r := MixFrom(CurrentVoice(sample, step), hostSamplesPerTick, old(state), Truncate(buf, hostSamplesPerTick), 0);
        state == r.state && out == r.buf
      ensures |out| == Min(|buf|, hostSamplesPerTick)
      ensures WellFormed(sample) && StepFits(sample, step) && InRegion(old(state), sample) ==> InRegion(state, sample)
    {
      var n := hostSamplesPerTick;
      var b: seq<int16> := Truncate(buf, n);
      ghost var voice := CurrentVoice(sample, step);
      assert voice.sample == sample && voice.step == step;
      ghost var b0, st0 := b, state;
      var vol := volume.UnwrapOr(sample.volume);
      var cur := state;
      var i := 0;
      while i < n
        invariant 0 <= i <= n
        invariant |b| == |b0|
        invariant MixFrom(voice, n, cur, b, i) == MixFrom(voice, n, st0, b0, 0)
        invariant MixSafe(voice, n, cur, |b|, i)
      {
        if sample.repeatLength <= 2 && cur.loopedYet {
          break;
        }
        assert voice == Voice(sample, vol, step);
        ghost var before, bBefore := cur, b;
        var value;
        cur, value := MixIteration(cur, sample, vol, step);
        b := b[i := WrapI16(b[i] as int + value)];
        assert MixFrom(voice, n, before, bBefore, i) == MixFrom(voice, n, cur, b, i + 1);
        i := i + 1;
      }
      if WellFormed(sample) && StepFits(sample, step) && InRegion(st0, sample) {
        MixFromInRegion(voice, n, st0, b0, 0);
      }
      state := cur;
      out := b;
    }
  }
}
