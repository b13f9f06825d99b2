/** The output side of src/hosted.rs: the `Sink` that producers push tick
    buffers into, and `write_data`, the audio callback that drains the
    shared queue into interleaved output frames. The queue is the global
    `VecDeque<i16>` behind a mutex; here it is a field of the sink, and each
    operation runs with the lock held. */
module Hosted {
  import opened Base

  /** `chunks_mut(channels)` yields this many frames: the length divided
      by the channel count, rounded up (the last frame may be short). */
  function FrameCount(len: nat, channels: nat): (frames: nat)
    requires channels > 0
    ensures frames * channels >= len
    ensures frames == 0 || (frames - 1) * channels < len
  {
    (len + channels - 1) / channels
  }

  /** The ceiling is the only count with both bounds. */
  lemma FrameCountUnique(len: nat, channels: nat, f: nat)
    requires channels > 0
    requires f * channels >= len && (f == 0 || (f - 1) * channels < len)
    ensures f == FrameCount(len, channels)
  {
    var r := FrameCount(len, channels);
    if f < r {
      MulStep(f, r, channels);
    }
    if r < f {
      MulStep(r, f, channels);
    }
  }

  /** An output index lies in frame `f` exactly when it is among that
      frame's `channels` slots. */
  lemma DivInFrame(j: nat, f: nat, channels: nat)
    requires channels > 0 && f * channels <= j < f * channels + channels
    ensures j / channels == f
  {
    var q := j / channels;
    assert j == q * channels + j % channels;
    if q < f {
      MulStep(q, f, channels);
    }
    if f < q {
      MulStep(f, q, channels);
    }
  }

  /** A larger factor gives a product at least one more `c` larger. */
  lemma MulStep(a: int, b: int, c: int)
    requires c > 0 && a < b
    ensures a * c + c <= b * c
  {
    assert (b - a - 1) * c >= 0;
    assert b * c - a * c - c == (b - a - 1) * c;
  }

  /** What frame `f` plays from queue `q`: its `f`-th value, or silence
      once the queue has run dry. */
  function FrameValue(q: seq<int16>, f: nat): (v: int16)
    ensures f < |q| ==> v == q[f]
    ensures f >= |q| ==> v == 0
  {
    if f < |q| then q[f] else 0
  }

  /** FIFO order across a push: frames play the old queue first, then the
      pushed buffer, then silence. */
  lemma FrameValueAfterPush(q: seq<int16>, buf: seq<int16>, f: nat)
    ensures FrameValue(q + buf, f)
         == if f < |q| then q[f] else if f < |q| + |buf| then buf[f - |q|] else 0
  {
  }

  /** One frame of `write_data`: every slot of `output[start..end]` gets
      `value`; the other slots keep theirs. */
  method FillFrame(output: array<int16>, start: nat, end: nat, value: int16)
    requires start <= end <= output.Length
    modifies output
    ensures forall i :: start <= i < end ==> output[i] == value
    ensures forall i :: 0 <= i < output.Length && !(start <= i < end) ==> output[i] == old(output[i])
  {
    var j := start;
    while j < end
      invariant start <= j <= end
      invariant forall i :: start <= i < j ==> output[i] == value
      invariant forall i :: 0 <= i < output.Length && !(start <= i < j) ==> output[i] == old(output[i])
    {
      output[j] := value;
      j := j + 1;
    }
  }

  class Sink {
    var queue: seq<int16>

    /** A sink with an empty queue (`Sink::new`, without the stream). */
    constructor ()
      ensures queue == []
    {
      queue := [];
    }

    /** One attempt of `push_samples`: when the queue holds more than 1000
        values the source drops the lock, sleeps and tries again, and this
        attempt reports that nothing was pushed; otherwise it appends all
        of `buf`, in order, however long the queue then gets. */
    method PushSamples(buf: seq<int16>) returns (pushed: bool)
      modifies this
      ensures pushed <==> |old(queue)| <= HighWaterMark
      ensures queue == if pushed then old(queue) + buf else old(queue)
    {
      if |queue| > HighWaterMark {
        return false;
      }
      var i := 0;
      while i < |buf|
        invariant 0 <= i <= |buf|
        invariant queue == old(queue) + buf[..i]
      {
        queue := queue + [buf[i]];
        i := i + 1;
      }
      assert buf[..|buf|] == buf;
      return true;
    }

    /** `write_data`: fill `output` frame by frame, `channels` slots per
        frame, every slot of a frame getting the same value, taken from
        the front of the queue while it lasts and 0 after; then remove
        exactly the values used. `chunks_mut` panics on 0 channels. */
    method WriteData(output: array<int16>, channels: nat)
      requires channels > 0
      modifies this, output
      ensures forall j :: 0 <= j < output.Length ==> output[j] == FrameValue(old(queue), j / channels)
      ensures queue == old(queue)[Min(FrameCount(output.Length, channels), |old(queue)|)..]
    {
      ghost var q := queue;
      var count := 0;
      var start := 0;
      ghost var f: nat := 0;
      while start < output.Length
        invariant start <= output.Length
        invariant start < output.Length ==> start == f * channels
        invariant start == output.Length ==> f * channels >= output.Length
        invariant f == 0 || f * channels < output.Length + channels
        invariant count == Min(f, |q|) && queue == q
        invariant forall j :: 0 <= j < start ==> output[j] == FrameValue(q, j / channels)
        decreases output.Length - start
      {
        var raw: int16;
        if count < |queue| {
          raw := queue[count];
          count := count + 1;
        } else {
          raw := 0;
        }
        var end := Min(start + channels, output.Length);
        FillFrame(output, start, end, raw);
        forall i | start <= i < end
          ensures output[i] == FrameValue(q, i / channels)
        {
          DivInFrame(i, f, channels);
        }
        assert (f + 1) * channels == f * channels + channels;
        start := end;
        f := f + 1;
      }
      assert f == 0 || (f - 1) * channels == f * channels - channels;
      FrameCountUnique(output.Length, channels, f);
      queue := queue[count..];
    }
  }
}
