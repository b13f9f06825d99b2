/** The per-channel playback cursor (`SampleState` in src/lib.rs, and the
    struct of the same name and fields in src/bin/playsample.rs) and its
    fixed-point advance, which both mixers share. */
module Cursor {
  import opened Base

  /** `sampleOffset` is a byte index into the sample data and `sampleFrac`
      the fractional part of the position, in 1/256 of a byte. */
  datatype SampleState = SampleState(loopedYet: bool, sampleOffset: uint16, sampleFrac: uint8)

  /** The per-output-sample increment in 16.8 fixed point: `inc_rate` and
      `inc_rate_frac`. The source derives both from the period and the host
      sample rate in floating point; here they are given. */
  datatype Step = Step(rate: uint16, frac: uint8)

  /** `SampleState::new` */
  function NewSampleState(): (s: SampleState)
    ensures !s.loopedYet && s.sampleOffset == 0 && s.sampleFrac == 0
  {
    SampleState(false, 0, 0)
  }

  /** The cursor position as one 16.8 fixed-point number. */
  function Fixed(st: SampleState): (x: nat)
    ensures x < 0x100_0000
  {
    st.sampleOffset * 0x100 + st.sampleFrac
  }

  /** One advance: add the fraction with carry, then add the integer rate
      and the carry to the offset, both in wrapping u16 arithmetic. */
  function Advance(st: SampleState, step: Step): (r: SampleState)
    ensures r.loopedYet == st.loopedYet
    ensures r.sampleFrac == (st.sampleFrac + step.frac) % 0x100
    ensures r.sampleOffset
         == (st.sampleOffset + step.rate + (if st.sampleFrac + step.frac >= 0x100 then 1 else 0)) % 0x1_0000
  {
    var (newFrac, carry) := OverflowingAdd8(st.sampleFrac, step.frac);
    st.(sampleFrac := newFrac,
        sampleOffset := Wrap16(st.sampleOffset + Wrap16(step.rate + (if carry then 1 else 0))))
  }

  /** A step adds the increment to the cursor's 16.8 fixed-point position,
      modulo 2^24: the fraction wraps at 256 and its carry moves the offset
      on by one. */
  lemma AdvanceIsFixedPointAdd(st: SampleState, step: Step)
    ensures Fixed(Advance(st, step)) == (Fixed(st) + step.rate * 0x100 + step.frac) % 0x100_0000
  {
    var r := Advance(st, step);
    var c := if st.sampleFrac + step.frac >= 0x100 then 1 else 0;
    var y := st.sampleOffset + step.rate + c;
    var z := r.sampleFrac;
    assert z == st.sampleFrac + step.frac - 0x100 * c;
    var q := y / 0x1_0000;
    assert y == q * 0x1_0000 + r.sampleOffset;
    calc {
      Fixed(st) + step.rate * 0x100 + step.frac;
      y * 0x100 + z;
      q * 0x100_0000 + (r.sampleOffset * 0x100 + z);
    }
    assert (q * 0x100_0000 + (r.sampleOffset * 0x100 + z)) % 0x100_0000 == r.sampleOffset * 0x100 + z;
  }
}
