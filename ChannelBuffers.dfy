/** The older player of src/main.rs: a `ChannelBuffer` per channel, which on
    every tick copies the next stretch of its sample's bytes into a fixed
    600-byte buffer, wrapping circularly at the sample's length. The stretch
    length (`samples_this_tick`, derived from the period in floating point)
    is given. */
module ChannelBuffers {
  import opened Base
  import opened ModFile

  /** `vec![0; 600]`: the size of a channel's byte buffer. */
  const BufferSize: nat := 600

  /** Where this tick's copy starts: a new period restarts the sample. */
  function StartOffset(channel: Channel, currOffset: uint16): (off: uint16)
    ensures channel.period != 0 ==> off == 0
    ensures channel.period == 0 ==> off == currOffset
  {
    if channel.period != 0 then 0 else currOffset
  }

  /** The slicing and `%` of `update` do not panic, for a copy of `n` bytes
      from offset `off` of a sample `sLen` long whose data holds `dataLen`
      bytes: `split_at`, the two `copy_from_slice` (whose lengths must match
      and whose ranges must lie inside both slices) and the final
      `% s_len`. The sums and differences are u16 and wrap. */
  predicate CopyInBounds(off: uint16, n: uint16, sLen: uint16, dataLen: nat) {
    && sLen != 0
    && if Wrap16(off + n) >= sLen then
         var toEnd := Wrap16(sLen - off);
         var rem := Wrap16(n - toEnd);
         && off <= dataLen
         && toEnd <= BufferSize && toEnd <= dataLen - off
         && toEnd + rem <= BufferSize && rem <= off
       else
         n <= BufferSize && off + n <= dataLen
  }

  /** The bytes `update` copies to the front of the buffer: from `off` to
      the end of the sample and then on from its start when the stretch
      reaches the end, else the stretch itself. It is always `n` bytes
      long. */
  function Window(sData: seq<uint8>, off: uint16, n: uint16, sLen: uint16): (w: seq<uint8>)
    requires CopyInBounds(off, n, sLen, |sData|)
    ensures |w| == n
  {
    if Wrap16(off + n) >= sLen then
      var toEnd := Wrap16(sLen - off);
      var rem := Wrap16(n - toEnd);
      sData[off..off + toEnd] + sData[..rem]
    else
      sData[off..off + n]
  }

  /** `(curr_offset + samples_this_tick) % s_len`, with the u16 sum
      wrapping: always an offset inside the sample, and the plain circular
      advance when the sum does not wrap. */
  function NextOffset(off: uint16, n: uint16, sLen: uint16): (r: uint16)
    requires sLen != 0
    ensures r < sLen
    ensures off + n < 0x1_0000 ==> r == (off + n) % sLen
  {
    Wrap16(off + n) % sLen
  }

  /** `x mod m` for `x < 2m`: at most one subtraction. */
  lemma ModBelowTwice(x: int, m: int)
    requires 0 < m && 0 <= x < 2 * m
    ensures x % m == if x < m then x else x - m
  {
    if x >= m {
      assert x == m + (x - m);
    }
  }

  /** Copy correctness: with the offset inside the sample and no u16
      wrap, byte `k` of the window is the sample's byte at `(off + k)`
      modulo the sample length, so the window is the circular stretch of
      the sample. */
  lemma WindowIsCircular(sData: seq<uint8>, off: uint16, n: uint16, sLen: uint16, k: nat)
    requires CopyInBounds(off, n, sLen, |sData|)
    requires off <= sLen && off + n < 0x1_0000 && k < n
    ensures (off + k) % sLen < |sData| && Window(sData, off, n, sLen)[k] == sData[(off + k) % sLen]
  {
    ModBelowTwice(off + k, sLen);
    if off + n >= sLen {
      var toEnd := sLen - off;
      assert Wrap16(sLen - off) == toEnd;
      assert Wrap16(n - toEnd) == n - toEnd;
      if k >= toEnd {
        assert (off + k) % sLen == k - toEnd;
      }
    }
  }

  /** The conditions on the sample under which `update` never panics: a
      non-empty sample shorter than one u16's half, an offset inside it, and
      a stretch no longer than the sample or the buffer. */
  lemma CopyInBoundsWhenSmall(off: uint16, n: uint16, sLen: uint16, dataLen: nat)
    requires 0 < sLen < 0x8000 && sLen <= dataLen
    requires off < sLen && n <= sLen && n <= BufferSize
    ensures CopyInBounds(off, n, sLen, dataLen)
  {
    if off + n >= sLen {
      assert Wrap16(sLen - off) == sLen - off;
      assert Wrap16(n - (sLen - off)) == n - (sLen - off);
    }
  }

  class ChannelBuffer {
    var data: array<uint8>
    var currOffset: uint16
    var currSample: Option<uint8>
    var currPeriod: Option<uint16>
    var lastSample: Option<uint8>
    var lastPeriod: Option<uint16>
    var firstIter: bool

    /** The buffer has its 600 bytes; sample numbers and periods are only
        ever stored when nonzero; after every update the fallbacks hold the
        current values whenever those are set. */
    ghost predicate Valid()
      reads this
    {
      && data.Length == BufferSize
      && (lastSample.Some? ==> lastSample.value != 0)
      && (lastPeriod.Some? ==> lastPeriod.value != 0)
      && (currSample.Some? ==> lastSample == currSample)
      && (currPeriod.Some? ==> lastPeriod == currPeriod)
    }

    /** `ChannelBuffer::new` */
    constructor ()
      ensures Valid() && fresh(data)
      ensures data[..] == seq(BufferSize, _ => 0)
      ensures currOffset == 0 && currSample == None && currPeriod == None
      ensures lastSample == None && lastPeriod == None && !firstIter
    {
      data := new uint8[BufferSize](_ => 0);
      currOffset := 0;
      currSample := None;
      currPeriod := None;
      lastSample := None;
      lastPeriod := None;
      firstIter := false;
    }

    /** `period()`: the current period, else the last one (the source
        unwraps, so one of them must be set). */
    function Period(): (p: uint16)
      reads this
      requires currPeriod.Some? || lastPeriod.Some?
      ensures currPeriod.Some? ==> p == currPeriod.value
      ensures currPeriod.None? ==> p == lastPeriod.value
    {
      if currPeriod.Some? then currPeriod.value else lastPeriod.value
    }

    /** `sample()`: the current sample number, else the last one. */
    function Sample(): (n: uint8)
      reads this
      requires currSample.Some? || lastSample.Some?
      ensures currSample.Some? ==> n == currSample.value
      ensures currSample.None? ==> n == lastSample.value
    {
      if currSample.Some? then currSample.value else lastSample.value
    }

    /** The sample number `update` will use for `channel`: the row's, else
        the last one. */
    function NextSample(channel: Channel): uint8
      reads this
      requires channel.sampleNumber != 0 || lastSample.Some?
    {
      if channel.sampleNumber != 0 then channel.sampleNumber else lastSample.value
    }

    /** `update` does not panic: a period and a sample number are known
        (the row's or the last ones), the sample is in the table (looked
        up 1-based), and the copy and the `%` are in bounds. */
    predicate UpdateSafe(channel: Channel, sinfo: seq<SampleInfo>, samplesThisTick: uint16)
      reads this
    {
      && (channel.period != 0 || lastPeriod.Some?)
      && (channel.sampleNumber != 0 || lastSample.Some?)
      && 1 <= NextSample(channel) <= |sinfo|
      && var s := sinfo[NextSample(channel) - 1];
         CopyInBounds(StartOffset(channel, currOffset), samplesThisTick, s.length, |s.data|)
    }

    /** `data[at..at + len].copy_from_slice(&src[from..from + len])`: the
        other bytes of the buffer are untouched. */
    method CopyFromSlice(at: nat, src: seq<uint8>, from: nat, len: nat)
      requires at + len <= data.Length && from + len <= |src|
      modifies data
      ensures data[at..at + len] == src[from..from + len]
      ensures forall k :: 0 <= k < data.Length && !(at <= k < at + len) ==> data[k] == old(data[k])
    {
      forall k | at <= k < at + len {
        data[k] := src[from + k - at];
      }
    }

    /** The copy of `update`: the stretch of `n` sample bytes from `off` into
        the front of the buffer, in two `copy_from_slice` calls when it
        reaches the end of the sample. The rest of the buffer keeps its old
        bytes. */
    method CopyStretch(sData: seq<uint8>, off: uint16, n: uint16, sLen: uint16)
      requires data.Length == BufferSize && CopyInBounds(off, n, sLen, |sData|)
      modifies data
      ensures data[..n] == Window(sData, off, n, sLen)
      ensures data[n..] == old(data[n..])
    {
      if Wrap16(off + n) >= sLen {
        var toEnd := Wrap16(sLen - off);
        var remaining := Wrap16(n - toEnd);
        assert toEnd + remaining == n;
        CopyFromSlice(0, sData, off, toEnd);
        ghost var first := data[..toEnd];
        CopyFromSlice(toEnd, sData, 0, remaining);
        assert data[..toEnd] == first;
        assert data[..n] == data[..toEnd] + data[toEnd..n];
      } else {
        CopyFromSlice(0, sData, off, n);
      }
      assert data[n..] == old(data[n..]);
    }

    /** The first half of `update`: take the row's period and sample
        number as the current ones, or clear them; a nonzero period
        restarts the sample. */
    method SetCurrent(channel: Channel)
      modifies this
      ensures currPeriod == (if channel.period != 0 then Some(channel.period) else None)
      ensures currSample == (if channel.sampleNumber != 0 then Some(channel.sampleNumber) else None)
      ensures currOffset == StartOffset(channel, old(currOffset))
      ensures data == old(data) && lastSample == old(lastSample) && lastPeriod == old(lastPeriod)
      ensures firstIter == old(firstIter)
    {
      if channel.period != 0 {
        currPeriod := Some(channel.period);
        currOffset := 0;
      } else {
        currPeriod := None;
      }
      if channel.sampleNumber != 0 {
        currSample := Some(channel.sampleNumber);
      } else {
        currSample := None;
      }
    }

    /** The end of `update`: the current values that are set become the
        fallbacks. */
    method Remember()
      modifies this
      ensures lastPeriod == (if currPeriod.Some? then currPeriod else old(lastPeriod))
      ensures lastSample == (if currSample.Some? then currSample else old(lastSample))
      ensures data == old(data) && currOffset == old(currOffset) && firstIter == old(firstIter)
      ensures currPeriod == old(currPeriod) && currSample == old(currSample)
    {
      if currPeriod.Some? {
        lastPeriod := currPeriod;
      }
      if currSample.Some? {
        lastSample := currSample;
      }
    }

    /** `ChannelBuffer::update` for one row's `channel`, with
        `samplesThisTick` the tick's stretch length. */
    method Update(channel: Channel, sinfo: seq<SampleInfo>, samplesThisTick: uint16)
      requires Valid() && UpdateSafe(channel, sinfo, samplesThisTick)
      modifies this, data
      ensures Valid() && data == old(data) && firstIter == old(firstIter)
      ensures currPeriod == (if channel.period != 0 then Some(channel.period) else None)
      ensures currSample == (if channel.sampleNumber != 0 then Some(channel.sampleNumber) else None)
      ensures lastPeriod == (if channel.period != 0 then Some(channel.period) else old(lastPeriod))
      ensures lastSample == (if channel.sampleNumber != 0 then Some(channel.sampleNumber) else old(lastSample))
      ensures Period() == (if channel.period != 0 then channel.period else old(lastPeriod).value)
      ensures Sample() == old(NextSample(channel))
      ensures var s := sinfo[old(NextSample(channel)) - 1];
              var off := StartOffset(channel, old(currOffset));
              && data[..samplesThisTick] == Window(s.data, off, samplesThisTick, s.length)
              && data[samplesThisTick..] == old(data[samplesThisTick..])
              && currOffset == NextOffset(off, samplesThisTick, s.length)
    {
      ghost var chosen := NextSample(channel);
      SetCurrent(channel);
      assert Sample() == chosen;
      var sLen := sinfo[Sample() - 1].length;
      var sData := sinfo[Sample() - 1].data;
      var n := samplesThisTick;
      CopyStretch(sData, currOffset, n, sLen);
      currOffset := Wrap16(currOffset + n);
      currOffset := currOffset % sLen;
      Remember();
    }
  }

  /** Under the invariant the current value, when set, is also the last
      one, so `period()` is the most recent nonzero period. */
  lemma PeriodIsLastPeriod(b: ChannelBuffer)
    requires b.Valid() && b.lastPeriod.Some?
    ensures b.Period() == b.lastPeriod.value
  {
  }

  /** Likewise `sample()` is the most recent nonzero sample number. */
  lemma SampleIsLastSample(b: ChannelBuffer)
    requires b.Valid() && b.lastSample.Some?
    ensures b.Sample() == b.lastSample.value && b.Sample() != 0
  {
  }
}
