/** The single-sample player of src/bin/playsample.rs: the validation of the
    sample number in `main`, and `play_tick`, an earlier form of the stepping
    loop of src/lib.rs that plays one sample at full volume and appends every
    value to a queue. Its loop policy differs from the library's: a sample
    without a real loop is re-wrapped to its repeat start instead of
    stopping, and the wrap inside the loop region subtracts the whole of
    `repeat_start*2 + repeat_length*2`. */
module PlaySample {
  import opened Base
  import opened ModFile
  import opened Cursor
  import Mixer

  /** The reasons `main` refuses the sample number it was given. */
  datatype SampleError = SampleNumberOutOfRange | SampleUnimplemented

  /** Sample selection in `main`: a number outside 1..=31 is refused, the
      sample is looked up 1-based, and one of length 0 is refused. The
      requires assumes that the decoder's table holds at least `sampleNo`
      entries for an in-range number; `main` would panic otherwise. */
  function CheckSample(sampleNo: uint8, infos: seq<SampleInfo>): (r: Result<SampleInfo, SampleError>)
    requires 1 <= sampleNo <= 31 ==> sampleNo <= |infos|
    ensures r == Err(SampleNumberOutOfRange) <==> !(1 <= sampleNo <= 31)
    ensures r == Err(SampleUnimplemented) <==> 1 <= sampleNo <= 31 && infos[sampleNo - 1].length == 0
    ensures r.Ok? <==> 1 <= sampleNo <= 31 && infos[sampleNo - 1].length != 0
    ensures r.Ok? ==> r.value == infos[sampleNo - 1] && r.value.length > 0
  {
    if sampleNo < 1 || sampleNo > 31 then
      Err(SampleNumberOutOfRange)
    else
      var sample := infos[sampleNo - 1];
      if sample.length == 0 then Err(SampleUnimplemented) else Ok(sample)
  }

  /** The advance as `play_tick` writes it, branching on the carry; it is
      the library's advance. */
  function PlayAdvance(st: SampleState, step: Step): (r: SampleState)
    ensures r == Advance(st, step)
  {
    var (newFrac, carry) := OverflowingAdd8(st.sampleFrac, step.frac);
    var st' := st.(sampleFrac := newFrac);
    if carry then
      st'.(sampleOffset := Wrap16(st'.sampleOffset + Wrap16(step.rate + 1)))
    else
      st'.(sampleOffset := Wrap16(st'.sampleOffset + step.rate))
  }

  /** Loop resolution as `play_tick` writes it. Before the first wrap, or
      always for a sample without a real loop, reaching the end jumps to
      the repeat start keeping the overshoot. Once looped with a real loop,
      reaching the end of the loop region subtracts the loop END (start
      plus length), not the loop length. */
  function PlayResolve(st: SampleState, s: SampleInfo): (r: SampleState)
    ensures r.sampleFrac == st.sampleFrac
    ensures st.loopedYet ==> r.loopedYet
    ensures (!st.loopedYet || s.repeatLength <= 2) && st.sampleOffset >= Mixer.SampleEnd(s) ==>
      r.loopedYet
      && (r.sampleOffset - Mixer.RepeatStart(s) - (st.sampleOffset - Mixer.SampleEnd(s))) % 0x1_0000 == 0
    ensures st.loopedYet && s.repeatLength > 2 && st.sampleOffset >= Mixer.RepeatEnd(s) ==>
      r.sampleOffset == st.sampleOffset - Mixer.RepeatEnd(s)
    ensures (if st.loopedYet && s.repeatLength > 2 then st.sampleOffset < Mixer.RepeatEnd(s)
             else st.sampleOffset < Mixer.SampleEnd(s)) ==>
      r == st
  {
    if !st.loopedYet || s.repeatLength <= 2 then
      if st.sampleOffset >= Mixer.SampleEnd(s) then
        st.(loopedYet := true,
            sampleOffset := Wrap16(Mixer.RepeatStart(s) + (st.sampleOffset - Mixer.SampleEnd(s))))
      else
        st
    else if st.sampleOffset >= Mixer.RepeatEnd(s) then
      st.(sampleOffset := Wrap16(st.sampleOffset - Mixer.RepeatEnd(s)))
    else
      st
  }

  /** One iteration's cursor update: advance, then resolve the loop. The
      fraction moves on modulo 256 and `looped_yet` is never cleared. */
  function PlayStep(st: SampleState, s: SampleInfo, step: Step): (r: SampleState)
    ensures r.sampleFrac == (st.sampleFrac + step.frac) % 0x100
    ensures st.loopedYet ==> r.loopedYet
  {
    PlayResolve(PlayAdvance(st, step), s)
  }

  /** The value pushed at the cursor: the signed sample byte shifted left
      by 3, with no volume scaling; the shift never overflows an i16. */
  function PlayValue(st: SampleState, s: SampleInfo): (r: int16)
    ensures -1024 <= r <= 1016
    ensures r == AsI8(Mixer.ByteAt(s.data, st.sampleOffset)) * 8
  {
    WrapI16(AsI8(Mixer.ByteAt(s.data, st.sampleOffset)) * 8)
  }

  /** The cursor after `k` iterations. */
  function PlayCursor(st: SampleState, s: SampleInfo, step: Step, k: nat): SampleState
    decreases k
  {
    if k == 0 then st else PlayCursor(PlayStep(st, s, step), s, step, k - 1)
  }

  /** `k` iterations of the loop: the final cursor and the values pushed,
      in order. */
  function PlayRun(st: SampleState, s: SampleInfo, step: Step, k: nat): (r: (SampleState, seq<int16>))
    ensures |r.1| == k
    decreases k
  {
    if k == 0 then
      (st, [])
    else
      var st' := PlayStep(st, s, step);
      var rest := PlayRun(st', s, step, k - 1);
      (rest.0, [PlayValue(st', s)] + rest.1)
  }

  /** The first iteration of a run: its value leads the run's values,
      and the rest is the run from the cursor one step on. */
  lemma PlayRunFirst(st: SampleState, s: SampleInfo, step: Step, k: nat)
    requires k > 0
    ensures var rest := PlayRun(PlayStep(st, s, step), s, step, k - 1);
      PlayRun(st, s, step, k) == (rest.0, [PlayValue(PlayStep(st, s, step), s)] + rest.1)
  {
  }

  /** `k` iterations read only inside the sample data (the indexing does
      not panic). */
  predicate PlaySafe(st: SampleState, s: SampleInfo, step: Step, k: nat)
    decreases k
  {
    k == 0 ||
      (PlayStep(st, s, step).sampleOffset < |s.data| && PlaySafe(PlayStep(st, s, step), s, step, k - 1))
  }

  /** One iteration of the loop in `play_tick`: advance the cursor, resolve
      the loop, and read the value to push. */
  method PlayIteration(cur: SampleState, sample: SampleInfo, step: Step) returns (next: SampleState, value: int16)
    requires PlayStep(cur, sample, step).sampleOffset < |sample.data|
    ensures next == PlayStep(cur, sample, step)
    ensures value == AsI8(sample.data[next.sampleOffset]) * 8
  {
    next := cur;
    var (newFrac, carry) := OverflowingAdd8(next.sampleFrac, step.frac);
    next := next.(sampleFrac := newFrac);
    if carry {
      next := next.(sampleOffset := Wrap16(next.sampleOffset + Wrap16(step.rate + 1)));
    } else {
      next := next.(sampleOffset := Wrap16(next.sampleOffset + step.rate));
    }
    assert next == PlayAdvance(cur, step);
    ghost var advanced := next;
    if !next.loopedYet || sample.repeatLength <= 2 {
      if next.sampleOffset >= Wrap16(sample.length * 2) {
        next := next.(loopedYet := true,
                      sampleOffset := Wrap16(Wrap16(sample.repeatStart * 2) + (next.sampleOffset - Wrap16(sample.length * 2))));
      }
    } else {
      if next.sampleOffset >= Wrap16(Wrap16(sample.repeatStart * 2) + Wrap16(sample.repeatLength * 2)) {
        next := next.(sampleOffset := Wrap16(next.sampleOffset - Wrap16(Wrap16(sample.repeatStart * 2) + Wrap16(sample.repeatLength * 2))));
      }
    }
    assert next == PlayResolve(advanced, sample);
    var currSampleVal := AsI8(sample.data[next.sampleOffset]);
    value := WrapI16(currSampleVal * 8);
  }

  /** The loop of `play_tick`: `n` iterations, each appending one value to
      the back of the queue. */
  method PlayLoop(state: SampleState, sample: SampleInfo, step: Step, n: nat, queue: seq<int16>)
    returns (cur: SampleState, q: seq<int16>)
    requires PlaySafe(state, sample, step, n)
    ensures var r := PlayRun(state, sample, step, n);
      cur == r.0 && q == queue + r.1
  {
    ghost var whole := PlayRun(state, sample, step, n);
    cur := state;
    q := queue;
    var i: nat := 0;
    while i < n
      invariant 0 <= i <= n
      invariant PlaySafe(cur, sample, step, n - i)
      invariant PlayRun(cur, sample, step, n - i).0 == whole.0
      invariant q + PlayRun(cur, sample, step, n - i).1 == queue + whole.1
    {
      ghost var before := cur;
      var value;
      cur, value := PlayIteration(cur, sample, step);
      ghost var rest := PlayRun(cur, sample, step, n - i - 1);
      PlayRunFirst(before, sample, step, n - i);
      q := q + [value];
      i := i + 1;
    }
  }

  /** One attempt of `play_tick` on the shared queue. When the queue holds
      more than 1000 values the source releases the lock and tries again;
      this attempt then reports that it did not proceed and changes
      nothing. Otherwise it runs `hostSamplesPerTick` iterations of the
      loop. */
  method PlayTick(state: SampleState, sample: SampleInfo, step: Step, hostSamplesPerTick: uint16,
                  queue: seq<int16>)
    returns (state': SampleState, queue': seq<int16>, proceeded: bool)
    requires |queue| <= HighWaterMark ==> PlaySafe(state, sample, step, hostSamplesPerTick)
    ensures proceeded <==> |queue| <= HighWaterMark
    ensures proceeded ==>
      var r := PlayRun(state, sample, step, hostSamplesPerTick);
      state' == r.0 && queue' == queue + r.1
    ensures !proceeded ==> state' == state && queue' == queue
  {
    if |queue| > HighWaterMark {
      return state, queue, false;
    }
    state', queue' := PlayLoop(state, sample, step, hostSamplesPerTick, queue);
    proceeded := true;
  }

  /** The values of a run, one by one: the `j`-th is read at the cursor
      after `j + 1` iterations. */
  lemma {:induction false} PlayRunAt(st: SampleState, s: SampleInfo, step: Step, k: nat, j: nat)
    requires j < k
    ensures PlayRun(st, s, step, k).1[j] == PlayValue(PlayCursor(st, s, step, j + 1), s)
    decreases k
  {
    var st' := PlayStep(st, s, step);
    if j > 0 {
      PlayRunAt(st', s, step, k - 1, j - 1);
    }
  }

  /** A run of `k` iterations ends at the cursor after `k`. */
  lemma {:induction false} PlayRunEnd(st: SampleState, s: SampleInfo, step: Step, k: nat)
    ensures PlayRun(st, s, step, k).0 == PlayCursor(st, s, step, k)
    decreases k
  {
    if k > 0 {
      PlayRunEnd(PlayStep(st, s, step), s, step, k - 1);
    }
  }

  /** Where the cursor of a well-formed sample stays under this policy:
      inside the whole sample, except once looped with a real loop, when
      it stays below the end of the loop region. */
  predicate PlayRegion(st: SampleState, s: SampleInfo) {
    if !st.loopedYet || s.repeatLength <= 2 then st.sampleOffset < 2 * s.length
    else st.sampleOffset < 2 * s.repeatStart + 2 * s.repeatLength
  }

  /** One iteration keeps the cursor in its region and inside the data. */
  lemma PlayStepStaysInRegion(st: SampleState, s: SampleInfo, step: Step)
    requires WellFormed(s) && Mixer.StepFits(s, step) && PlayRegion(st, s)
    ensures PlayRegion(PlayStep(st, s, step), s)
    ensures PlayStep(st, s, step).sampleOffset < |s.data|
  {
    var a := PlayAdvance(st, step);
    assert Mixer.SampleEnd(s) == 2 * s.length;
    assert Mixer.RepeatStart(s) == 2 * s.repeatStart;
    assert Mixer.RepeatEnd(s) == 2 * s.repeatStart + 2 * s.repeatLength;
    assert st.sampleOffset + step.rate <= a.sampleOffset <= st.sampleOffset + step.rate + 1;
  }

  /** With a well-formed sample and a fitting step, no number of
      iterations makes `play_tick` read outside the sample data. */
  lemma {:induction false} PlaySafeWhenWellFormed(st: SampleState, s: SampleInfo, step: Step, k: nat)
    requires WellFormed(s) && Mixer.StepFits(s, step) && PlayRegion(st, s)
    ensures PlaySafe(st, s, step, k)
    decreases k
  {
    if k > 0 {
      PlayStepStaysInRegion(st, s, step);
      PlaySafeWhenWellFormed(PlayStep(st, s, step), s, step, k - 1);
    }
  }

  /** A one-shot sample never falls silent here: however many iterations,
      a well-formed one keeps producing values from inside its data, where
      the library's loop stops. */
  lemma OneShotKeepsPlaying(s: SampleInfo, step: Step, k: nat)
    requires WellFormed(s) && Mixer.StepFits(s, step) && s.repeatLength <= 2
    ensures PlaySafe(NewSampleState(), s, step, k)
    ensures PlayCursor(NewSampleState(), s, step, k).sampleOffset < 2 * s.length
  {
    PlaySafeWhenWellFormed(NewSampleState(), s, step, k);
    CursorInRegionAfter(NewSampleState(), s, step, k);
  }

  /** The region is kept over any number of iterations. */
  lemma {:induction false} CursorInRegionAfter(st: SampleState, s: SampleInfo, step: Step, k: nat)
    requires WellFormed(s) && Mixer.StepFits(s, step) && PlayRegion(st, s)
    ensures PlayRegion(PlayCursor(st, s, step, k), s)
    decreases k
  {
    if k > 0 {
      PlayStepStaysInRegion(st, s, step);
      CursorInRegionAfter(PlayStep(st, s, step), s, step, k - 1);
    }
  }

  /** Where the two policies agree: before the first wrap, and for a loop
      that starts at the beginning of the sample, a step of `play_tick` is
      a step of the library's mixer. */
  lemma PlayStepAgreesWithMixer(st: SampleState, s: SampleInfo, step: Step, volume: uint8)
    requires !st.loopedYet || (s.repeatLength > 2 && s.repeatStart == 0)
    ensures PlayStep(st, s, step) == Mixer.StepCursor(st, Mixer.Voice(s, volume, step))
  {
    var a := Advance(st, step);
    if a.loopedYet {
      assert Mixer.RepeatEnd(s) == Mixer.RepeatLength(s);
    }
  }

  /** The value pushed is the library's contribution at full volume (64). */
  lemma PlayValueIsFullVolume(st: SampleState, s: SampleInfo, step: Step)
    ensures PlayValue(st, s) == Mixer.Contribution(st, Mixer.Voice(s, 64, step))
  {
  }

  /** The sample of the counterexample: 4 words long, looping over words
      1 to 3 (bytes 2 to 7). */
  function LoopingSample(): (s: SampleInfo)
    ensures WellFormed(s) && s.repeatLength > 2 && s.repeatStart > 0
  {
    SampleInfo(4, 1, 3, 64, seq(8, _ => 0))
  }

  /** The repeat wrap as written sends the cursor out of the loop region.
      Stepping 3 bytes per output sample through `LoopingSample`: offsets
      3, 6, then past the end to 2 + 1 = 3 (looped), 6, then 9, which is
      past the loop end 8; `play_tick` moves it to 9 - 8 = 1, below the loop
      start 2, where the library moves it back one loop length to 3. */
  lemma RepeatWrapLeavesLoop()
    ensures var s, step := LoopingSample(), Step(3, 0);
      && Mixer.StepFits(s, step)
      && PlayCursor(NewSampleState(), s, step, 5) == SampleState(true, 1, 0)
      && !Mixer.InRegion(PlayCursor(NewSampleState(), s, step, 5), s)
      && Mixer.CursorAfter(Mixer.Voice(s, 64, step), NewSampleState(), 5) == SampleState(true, 3, 0)
      && Mixer.InRegion(Mixer.CursorAfter(Mixer.Voice(s, 64, step), NewSampleState(), 5), s)
  {
    var s, step := LoopingSample(), Step(3, 0);
    var v := Mixer.Voice(s, 64, step);
    var c0, c1, c2, c3, c4 := NewSampleState(), SampleState(false, 3, 0), SampleState(false, 6, 0),
                              SampleState(true, 3, 0), SampleState(true, 6, 0);
    assert PlayStep(c0, s, step) == c1;
    assert PlayStep(c1, s, step) == c2;
    assert PlayStep(c2, s, step) == c3;
    assert PlayStep(c3, s, step) == c4;
    assert PlayStep(c4, s, step) == SampleState(true, 1, 0);
    assert PlayCursor(c4, s, step, 1) == SampleState(true, 1, 0);
    assert PlayCursor(c3, s, step, 2) == SampleState(true, 1, 0);
    assert PlayCursor(c2, s, step, 3) == SampleState(true, 1, 0);
    assert PlayCursor(c1, s, step, 4) == SampleState(true, 1, 0);
    assert Mixer.StepCursor(c0, v) == c1;
    assert Mixer.StepCursor(c1, v) == c2;
    assert Mixer.StepCursor(c2, v) == c3;
    assert Mixer.StepCursor(c3, v) == c4;
    assert Mixer.StepCursor(c4, v) == c3;
    assert Mixer.CursorAfter(v, c4, 1) == c3;
    assert Mixer.CursorAfter(v, c3, 2) == c3;
    assert Mixer.CursorAfter(v, c2, 3) == c3;
    assert Mixer.CursorAfter(v, c1, 4) == c3;
  }
}
