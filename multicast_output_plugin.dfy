/** The multicast audio output: accepts one fixed PCM format, counts the bytes
    it is given into frames of 1024 bytes, and triggers the pacer once per
    completed frame. The audio bytes themselves are never looked at, so the
    chunk is represented by its size alone. */
module MulticastOutputPlugin {
  import opened SoundSender

  /** The sample formats of the audio engine. */
  datatype SampleFormat = UNDEFINED | S8 | S16 | S24_P32 | S32 | FLOAT | DSD

  datatype AudioFormat = AudioFormat(format: SampleFormat, channels: nat, sampleRate: nat)

  const MulticastFormat: SampleFormat := S16
  const BytesPerSample: nat := 2
  const Channels: nat := 2
  const SampleRate: nat := 48000
  const BlockSize: nat := 256

  /** Bytes in one frame: 2 channels of 256 samples of 2 bytes. */
  const FrameBytes: nat := Channels * BlockSize * BytesPerSample

  /** The pacer period an opened output uses, in nanoseconds. */
  const OutputPeriod: int := Billion * BlockSize / SampleRate

  /** Largest value of the platform's 64-bit `size_t`. */
  const SizeMax: nat := 0xFFFF_FFFF_FFFF_FFFF

  /** Number of values of a 32-bit `unsigned`. */
  const UintRange: nat := 0x1_0000_0000

  /** Whether `Open` accepts the format: exactly S16, stereo, 48 kHz. */
  predicate Supported(f: AudioFormat)
    ensures Supported(f) <==> f == AudioFormat(S16, 2, 48000)
  {
    f.format == MulticastFormat && f.channels == Channels && f.sampleRate == SampleRate
  }

  /** The outcome of one `Play` call: bytes reported consumed, the new count
      of buffered bytes, and whether a frame was completed (and the pacer triggered). */
  datatype Outcome = Outcome(consumed: nat, incomplete: nat, triggered: bool)

  /** What `Play(size)` does when `incomplete` bytes are already counted. */
  function PlayResult(incomplete: nat, size: nat): (r: Outcome)
    requires incomplete < FrameBytes
    ensures r.incomplete < FrameBytes
    ensures r.consumed <= size
    ensures size > 0 ==> r.consumed >= 1
    ensures !r.triggered <==> size + incomplete < FrameBytes
    ensures !r.triggered ==> r.consumed == size && r.incomplete == incomplete + size
    ensures r.triggered ==> r.incomplete == 0 && r.consumed + incomplete == FrameBytes
    ensures incomplete + r.consumed == r.incomplete + (if r.triggered then FrameBytes else 0)
  {
    if size + incomplete < FrameBytes then Outcome(size, incomplete + size, false)
    else Outcome(FrameBytes - incomplete, 0, true)
  }

  /** The outcomes of `Play` called with each size of `sizes` in turn. */
  function Trace(incomplete: nat, sizes: seq<nat>): (r: seq<Outcome>)
    requires incomplete < FrameBytes
    ensures |r| == |sizes|
    decreases |sizes|
  {
    if sizes == [] then []
    else
      var o := PlayResult(incomplete, sizes[0]);
      [o] + Trace(o.incomplete, sizes[1..])
  }

  /** Buffered bytes after a trace, when `incomplete` were buffered before it. */
  function FinalIncomplete(incomplete: nat, trace: seq<Outcome>): nat
  {
    if trace == [] then incomplete else trace[|trace| - 1].incomplete
  }

  function SumConsumed(trace: seq<Outcome>): nat
  {
    if trace == [] then 0 else SumConsumed(trace[..|trace| - 1]) + trace[|trace| - 1].consumed
  }

  function Triggers(trace: seq<Outcome>): nat
  {
    if trace == [] then 0
    else Triggers(trace[..|trace| - 1]) + (if trace[|trace| - 1].triggered then 1 else 0)
  }

  /** The times, among `nows`, of the calls that completed a frame. */
  function TriggerTimes(trace: seq<Outcome>, nows: seq<int>): (r: seq<int>)
    requires |trace| == |nows|
    ensures |r| == Triggers(trace)
    decreases |trace|
  {
    if trace == [] then []
    else
      TriggerTimes(trace[..|trace| - 1], nows[..|nows| - 1])
        + (if trace[|trace| - 1].triggered then [nows[|nows| - 1]] else [])
  }

  lemma {:induction false} TraceSnoc(incomplete: nat, sizes: seq<nat>, size: nat)
    requires incomplete < FrameBytes
    ensures FinalIncomplete(incomplete, Trace(incomplete, sizes)) < FrameBytes
    ensures Trace(incomplete, sizes + [size])
              == Trace(incomplete, sizes) + [PlayResult(FinalIncomplete(incomplete, Trace(incomplete, sizes)), size)]
    decreases |sizes|
  {
    if sizes != [] {
      var o := PlayResult(incomplete, sizes[0]);
      assert (sizes + [size])[1..] == sizes[1..] + [size];
      TraceSnoc(o.incomplete, sizes[1..], size);
      var rest := Trace(o.incomplete, sizes[1..]);
      assert FinalIncomplete(incomplete, Trace(incomplete, sizes)) == FinalIncomplete(o.incomplete, rest);
    }
  }

  /** Byte conservation: over any sequence of `Play` calls, the bytes reported
      consumed, together with those buffered before, are exactly the completed
      frames plus those buffered after. */
  lemma {:induction false} Conservation(incomplete: nat, sizes: seq<nat>)
    requires incomplete < FrameBytes
    ensures incomplete + SumConsumed(Trace(incomplete, sizes))
              == FrameBytes * Triggers(Trace(incomplete, sizes)) + FinalIncomplete(incomplete, Trace(incomplete, sizes))
    decreases |sizes|
  {
    if sizes != [] {
      var init := sizes[..|sizes| - 1];
      var size := sizes[|sizes| - 1];
      assert sizes == init + [size];
      Conservation(incomplete, init);
      TraceSnoc(incomplete, init, size);
      var t := Trace(incomplete, init);
      var t' := Trace(incomplete, sizes);
      assert t'[..|t'| - 1] == t;
    }
  }

  /** What `Delay` returns for a pacer sleep time: whole milliseconds,
      converted to a 32-bit `unsigned`. */
  function DelayOf(sleeptime: int): (d: nat)
    requires sleeptime >= 0
    ensures d < UintRange
    ensures sleeptime < 1000000 ==> d == 0
    ensures sleeptime / 1000000 < UintRange ==> d * 1000000 <= sleeptime < (d + 1) * 1000000
  {
    (sleeptime / 1000000) % UintRange
  }

  class MulticastOutput {
    var pacer: Pacer?
    var incompleteDataBytes: nat

    /** Bytes reported consumed by all `Play` calls so far. */
    ghost var played: nat
    /** Frames completed (pacer triggers) by all `Play` calls so far. */
    ghost var frames: nat

    ghost predicate Valid()
      reads this
    {
      incompleteDataBytes < FrameBytes && played == FrameBytes * frames + incompleteDataBytes
    }

    constructor ()
      ensures Valid()
      ensures pacer == null && incompleteDataBytes == 0 && played == 0 && frames == 0
    {
      pacer := null;
      incompleteDataBytes := 0;
      played, frames := 0, 0;
    }

    /** Accepts only the supported format; then starts a fresh pacer. On
        rejection nothing changes. */
    method Open(f: AudioFormat) returns (ok: bool)
      requires Valid()
      modifies this
      ensures Valid()
      ensures ok <==> Supported(f)
      ensures ok ==> pacer != null && fresh(pacer)
      ensures ok ==> pacer.period == 5333333 && pacer.duetimeslot == 2666666 && pacer.lastTriggerTime == 0
      ensures !ok ==> pacer == old(pacer)
      ensures incompleteDataBytes == old(incompleteDataBytes) && played == old(played) && frames == old(frames)
    {
      if f.format != MulticastFormat {
        return false;
      }
      if f.channels != Channels {
        return false;
      }
      if f.sampleRate != SampleRate {
        return false;
      }
      var period := OutputPeriod;
      pacer := new Pacer(period, TruncDiv(period, 2));
      return true;
    }

    /** Drops the pacer; the byte count is left as it is. */
    method Close()
      requires Valid()
      modifies this
      ensures Valid()
      ensures pacer == null
      ensures incompleteDataBytes == old(incompleteDataBytes) && played == old(played) && frames == old(frames)
    {
      pacer := null;
    }

    /** Milliseconds the caller should wait before the next frame is due. */
    function Delay(now: int): (d: nat)
      requires pacer != null
      reads this, pacer
      ensures d < UintRange
      ensures pacer.GetState(now) != WAITING ==> d == 0
      ensures pacer.GetSleeptime(now) / 1000000 < UintRange ==> d == pacer.GetSleeptime(now) / 1000000
      ensures now >= pacer.lastTriggerTime && 0 <= pacer.period < 1000000 * UintRange ==>
                d == pacer.GetSleeptime(now) / 1000000 && d * 1000000 <= pacer.period
    {
      var sleep := pacer.GetSleeptime(now);
      assert now >= pacer.lastTriggerTime && 0 <= pacer.period ==> sleep <= pacer.period;
      DelayOf(sleep)
    }

    /** Counts `size` bytes towards the current frame; when the frame is
        complete, reports only the bytes that filled it and triggers the pacer once. */
    method Play(size: nat, now: int) returns (n: nat)
      requires Valid()
      requires size <= SizeMax - incompleteDataBytes
      requires size + incompleteDataBytes >= FrameBytes ==> pacer != null
      modifies this, pacer
      ensures Valid()
      ensures pacer == old(pacer)
      ensures n == PlayResult(old(incompleteDataBytes), size).consumed
      ensures incompleteDataBytes == PlayResult(old(incompleteDataBytes), size).incomplete
      ensures played == old(played) + n
      ensures !PlayResult(old(incompleteDataBytes), size).triggered ==>
                frames == old(frames) && (pacer != null ==> unchanged(pacer))
      ensures PlayResult(old(incompleteDataBytes), size).triggered ==>
                frames == old(frames) + 1 &&
                pacer.lastTriggerTime == TriggeredAt(old(pacer.period), old(pacer.duetimeslot), old(pacer.lastTriggerTime), now) &&
                pacer.period == old(pacer.period) && pacer.duetimeslot == old(pacer.duetimeslot)
    {
      if size + incompleteDataBytes < FrameBytes {
        incompleteDataBytes := incompleteDataBytes + size;
        played := played + size;
        return size;
      }
      var oldIncomplete := incompleteDataBytes;
      incompleteDataBytes := 0;
      pacer.Trigger(now);
      n := FrameBytes - oldIncomplete;
      played, frames := played + n, frames + 1;
    }

    /** Does nothing: the byte count and the pacer are kept. */
    method Cancel()
      ensures unchanged(this) && (pacer != null ==> unchanged(pacer))
    {
    }
  }

  /** Feeds the output the chunk sizes `sizes` in turn, the call for `sizes[i]`
      made at time `nows[i]`, as the audio engine does, and collects what each
      `Play` call reports consumed. */
  method PlayAll(o: MulticastOutput, sizes: seq<nat>, nows: seq<int>) returns (results: seq<nat>)
    requires o.Valid() && o.pacer != null
    requires |nows| == |sizes|
    requires forall i :: 0 <= i < |sizes| ==> sizes[i] <= SizeMax - FrameBytes
    modifies o, o.pacer
    ensures o.Valid() && o.pacer == old(o.pacer)
    ensures |results| == |sizes|
    ensures forall i :: 0 <= i < |sizes| ==> results[i] == Trace(old(o.incompleteDataBytes), sizes)[i].consumed
    ensures o.incompleteDataBytes == FinalIncomplete(old(o.incompleteDataBytes), Trace(old(o.incompleteDataBytes), sizes))
    ensures o.played == old(o.played) + SumConsumed(Trace(old(o.incompleteDataBytes), sizes))
    ensures o.frames == old(o.frames) + Triggers(Trace(old(o.incompleteDataBytes), sizes))
    ensures o.pacer.period == old(o.pacer.period) && o.pacer.duetimeslot == old(o.pacer.duetimeslot)
    ensures o.pacer.lastTriggerTime
              == Schedule(o.pacer.period, o.pacer.duetimeslot, old(o.pacer.lastTriggerTime),
                          TriggerTimes(Trace(old(o.incompleteDataBytes), sizes), nows))
    ensures Triggers(Trace(old(o.incompleteDataBytes), sizes)) == 0 ==>
              o.pacer.lastTriggerTime == old(o.pacer.lastTriggerTime)
  {
    ghost var start := o.incompleteDataBytes;
    ghost var p := o.pacer;
    ghost var t0 := p.lastTriggerTime;
    results := [];
    var i := 0;
    while i < |sizes|
      invariant 0 <= i <= |sizes|
      invariant o.Valid() && o.pacer == p
      invariant |results| == i
      invariant forall k :: 0 <= k < i ==> results[k] == Trace(start, sizes[..i])[k].consumed
      invariant o.incompleteDataBytes == FinalIncomplete(start, Trace(start, sizes[..i]))
      invariant o.played == old(o.played) + SumConsumed(Trace(start, sizes[..i]))
      invariant o.frames == old(o.frames) + Triggers(Trace(start, sizes[..i]))
      invariant p.period == old(p.period) && p.duetimeslot == old(p.duetimeslot)
      invariant p.lastTriggerTime == Schedule(p.period, p.duetimeslot, t0, TriggerTimes(Trace(start, sizes[..i]), nows[..i]))
    {
      TraceSnoc(start, sizes[..i], sizes[i]);
      ghost var before := Trace(start, sizes[..i]);
      ghost var after := Trace(start, sizes[..i + 1]);
      assert sizes[..i + 1] == sizes[..i] + [sizes[i]];
      assert after[..i] == before;
      assert nows[..i + 1][..i] == nows[..i];
      var n := o.Play(sizes[i], nows[i]);
      results := results + [n];
      ghost var times := TriggerTimes(before, nows[..i]);
      if after[i].triggered {
        assert TriggerTimes(after, nows[..i + 1]) == times + [nows[i]];
        assert (times + [nows[i]])[..|times|] == times;
      } else {
        assert TriggerTimes(after, nows[..i + 1]) == times;
      }
      i := i + 1;
    }
    assert sizes[..i] == sizes;
    assert nows[..i] == nows;
  }

  /** A successful `Open` picks period 5333333 ns and slot 2666666 ns: the
      slot is passed explicitly, so the 1 ms default is not applied. */
  lemma OpenConstants()
    ensures OutputPeriod == 5333333
    ensures FrameBytes == 1024
    ensures InitialSlot(OutputPeriod, TruncDiv(OutputPeriod, 2)) == 2666666
  {
  }
}
