/**
 * The older host session with the probe. Its streaming loop works a burst at a time:
 * it reads the whole burst of interleaved ADC bytes, then the status byte, and only
 * after `Streaming` pushes the burst: `burst` copies of each DAC channel's level, and
 * to ADC stream `i` the bytes at `i, i + k, i + 2k, ...` of the burst, where `k` is the
 * number of ADC streams. DAC waveform tables are uploaded but not replayed.
 */
module LegacyProbe {
  import opened Bytes
  import opened Results
  import opened Protocol
  import opened Transport
  import opened StreamSetup
  import opened Arith
  import Dac
  import Probe

  const DACBufferSize: nat := 256
  const DACStreams: nat := 2

  /** `n` copies of `v`. */
  function Repeat(v: int, n: nat): (s: seq<int>)
    ensures |s| == n && forall j :: 0 <= j < n ==> s[j] == v
  {
    seq(n, _ => v)
  }

  /** A DAC stream's values after `bursts` accepted bursts of `burst` samples: its level, `burst` times per burst. */
  function Held(level: int, bursts: nat, burst: nat): seq<int> {
    if bursts == 0 then [] else Held(level, bursts - 1, burst) + Repeat(level, burst)
  }

  /** Every accepted burst adds exactly `burst` copies of the level, and nothing else. */
  lemma {:induction false} HeldValues(level: int, bursts: nat, burst: nat)
    ensures |Held(level, bursts, burst)| == bursts * burst
    ensures forall j :: 0 <= j < |Held(level, bursts, burst)| ==> Held(level, bursts, burst)[j] == level
  {
    if bursts > 0 {
      HeldValues(level, bursts - 1, burst);
      assert (bursts - 1) * burst + burst == bursts * burst;
    }
  }

  /** The bytes at `n, n + k, n + 2k, ...` of a burst: the inner `n += k` loop of ADC stream `n mod k`. */
  function Stride(buffer: seq<Byte>, k: nat, n: nat): seq<int>
    requires k > 0
    decreases |buffer| - n
  {
    if n >= |buffer| then [] else [buffer[n] as int] + Stride(buffer, k, n + k)
  }

  /** A burst cut into frames of `k` bytes, one byte per ADC channel. */
  function Chunks(buffer: seq<Byte>, k: nat): (frames: seq<seq<Byte>>)
    requires k > 0 && |buffer| % k == 0
    ensures |frames| * k == |buffer|
    ensures forall j :: 0 <= j < |frames| ==> |frames[j]| == k
    decreases |buffer|
  {
    if buffer == [] then []
    else
      DivisibleStep(|buffer|, k);
      var frames := [buffer[..k]] + Chunks(buffer[k..], k);
      assert |frames| * k == k + |Chunks(buffer[k..], k)| * k;
      frames
  }

  /** Skipping a whole frame of `k` bytes: striding over `f + rest` from `n >= k` is striding over `rest` from `n - k`. */
  lemma {:induction false} StrideShift(f: seq<Byte>, rest: seq<Byte>, k: nat, n: nat)
    requires k > 0 && |f| == k && n >= k
    ensures Stride(f + rest, k, n) == Stride(rest, k, n - k)
    decreases |f + rest| - n
  {
    if n < |f + rest| {
      StrideShift(f, rest, k, n + k);
    }
  }

  /**
   * The stride de-interleave of a burst gives ADC stream `i` byte `i` of every frame, in
   * order: exactly what the current engine pushes frame by frame.
   */
  lemma {:induction false} StrideIsColumn(buffer: seq<Byte>, k: nat, i: nat)
    requires k > 0 && |buffer| % k == 0 && i < k
    ensures Stride(buffer, k, i) == Probe.Column(Chunks(buffer, k), i)
    decreases |buffer|
  {
    if buffer != [] {
      assert |buffer| >= k by {
        var m := |Chunks(buffer, k)|;
        assert m * k == |buffer|;
        if m > 0 { MulAtLeast(k, m); }
      }
      var f, rest := buffer[..k], buffer[k..];
      assert buffer == f + rest;
      assert |rest| % k == 0 by { ModUnique(|rest|, k, |Chunks(buffer, k)| - 1, 0); }
      StrideShift(f, rest, k, i + k);
      StrideIsColumn(rest, k, i);
      assert Chunks(buffer, k) == [f] + Chunks(rest, k);
    }
  }

  /** A burst of `burst` frames gives every ADC stream exactly `burst` values. */
  lemma StrideCount(buffer: seq<Byte>, k: nat, i: nat, burst: nat)
    requires k > 0 && |buffer| == burst * k && i < k
    ensures |buffer| % k == 0
    ensures |Stride(buffer, k, i)| == burst
  {
    ModUnique(|buffer|, k, burst, 0);
    StrideIsColumn(buffer, k, i);
    ModUnique(|buffer|, k, |Chunks(buffer, k)|, 0);
  }

  /** ADC stream `i`'s values after the accepted bursts. */
  function Strides(done: seq<seq<Byte>>, k: nat, i: nat): seq<int>
    requires k > 0
  {
    if done == [] then [] else Strides(done[..|done| - 1], k, i) + Stride(done[|done| - 1], k, i)
  }

  /** Every accepted burst of `burst` frames adds `burst` values to each ADC stream. */
  lemma {:induction false} StridesCount(done: seq<seq<Byte>>, k: nat, i: nat, burst: nat)
    requires k > 0 && i < k && forall j :: 0 <= j < |done| ==> |done[j]| == burst * k
    ensures |Strides(done, k, i)| == |done| * burst
  {
    if done != [] {
      StridesCount(done[..|done| - 1], k, i, burst);
      StrideCount(done[|done| - 1], k, i, burst);
      assert (|done| - 1) * burst + burst == |done| * burst;
    }
  }

  /** What the probe sends for the accepted bursts: each burst's bytes, then `Streaming`. */
  ghost function Wire(done: seq<seq<Byte>>): seq<Byte> {
    if done == [] then [] else Wire(done[..|done| - 1]) + done[|done| - 1] + [ResponseCode(Streaming)]
  }

  /** Reading a burst and its status from a port without empty deliveries takes them off the front of the stream. */
  lemma BurstConsumes(rx: Rx, n: nat, buffer: seq<Byte>, status: Byte, rx': Rx)
    requires NoEmpty(rx) && Fill(rx, n, []).0 == Ok(buffer) && (Ok(status), rx') == StatusStep(Fill(rx, n, []).1)
    ensures NoEmpty(rx') && Flatten(rx) == buffer + [status] + Flatten(rx')
  {
    var rx1 := Fill(rx, n, []).1;
    FillConsumes(rx, n);
    StatusConsumes(rx1);
    Glue(Flatten(rx), buffer, Flatten(rx1), status, Flatten(rx'));
  }

  lemma Glue(all: seq<Byte>, front: seq<Byte>, rest: seq<Byte>, b: Byte, tail: seq<Byte>)
    requires all == front + rest && rest == [b] + tail
    ensures all == front + [b] + tail
  {
  }

  /** Accepting a burst adds its bytes and `Streaming` to the wire. */
  lemma WireAppend(done: seq<seq<Byte>>, buffer: seq<Byte>)
    ensures Wire(done + [buffer]) == Wire(done) + buffer + [ResponseCode(Streaming)]
  {
    assert (done + [buffer])[..|done|] == done;
  }

  lemma Assoc<T>(a: seq<T>, b: seq<T>, c: seq<T>, d: seq<T>)
    ensures a + ((b + c) + d) == ((a + b) + c) + d
  {
  }

  /** A burst and its status taken off the front of the stream follow the accepted bursts on the wire. */
  lemma WireStep(rx0: Rx, done: seq<seq<Byte>>, rx: Rx, buffer: seq<Byte>, status: Byte, rx': Rx)
    requires Flatten(rx0) == [ResponseCode(Ack)] + Wire(done) + Flatten(rx)
    requires Flatten(rx) == buffer + [status] + Flatten(rx')
    ensures Flatten(rx0) == [ResponseCode(Ack)] + Wire(done) + buffer + [status] + Flatten(rx')
    ensures status == ResponseCode(Streaming) ==> Flatten(rx0) == [ResponseCode(Ack)] + Wire(done + [buffer]) + Flatten(rx')
  {
    Assoc([ResponseCode(Ack)] + Wire(done), buffer, [status], Flatten(rx'));
    if status == ResponseCode(Streaming) {
      WireAppend(done, buffer);
      Assoc([ResponseCode(Ack)], Wire(done), buffer, [status]);
    }
  }

  /** The streaming loop's variables: the values pushed so far, the stop flag and the pass count. */
  datatype Run = Run(dacOut: seq<seq<int>>, adcOut: seq<seq<int>>, cancelled: bool, iterations: nat)

  /** The older host connection: it remembers only the DAC levels. */
  class ProbeConnection {
    const port: Port
    var currentDacValues: seq<Byte>

    ghost predicate Valid()
      reads this
    {
      |currentDacValues| == DACStreams
    }

    /** Two DAC channels at level 0. */
    constructor (port: Port)
      ensures Valid() && this.port == port && currentDacValues == [0, 0]
    {
      this.port := port;
      currentDacValues := [0, 0];
    }

    /** Uploads a 256-entry waveform table for DAC `index`; the host keeps no copy. */
    method EnableDACBuffer(index: Byte, prescaler: Byte, buffer: seq<Byte>) returns (o: Outcome)
      modifies port
      ensures port.isOpen == old(port.isOpen)
      ensures |buffer| != DACBufferSize || index >= DACStreams ==>
        o == Fail(InvalidOperation) && port.tx == old(port.tx) && port.rx == old(port.rx)
      ensures |buffer| == DACBufferSize && index < DACStreams ==>
        port.tx == old(port.tx) + [CommandCode(SetDAC0Buffer) + index, prescaler] + buffer
        && (o, port.rx) == ExpectStep(old(port.rx), ResponseCode(Ack))
    {
      if |buffer| != DACBufferSize {
        return Fail(InvalidOperation);
      }
      if index == 0 {
        port.Write([CommandCode(SetDAC0Buffer)]);
      } else if index == 1 {
        port.Write([CommandCode(SetDAC1Buffer)]);
      } else {
        return Fail(InvalidOperation);
      }
      port.Write([prescaler]);
      port.Write(buffer);
      o := ExpectByte(port, ResponseCode(Ack));
    }

    /** Switches DAC `index` back to its level and expects an acknowledgement. */
    method DisableDACBuffer(index: Byte) returns (o: Outcome)
      modifies port
      ensures port.isOpen == old(port.isOpen)
      ensures index >= DACStreams ==> o == Fail(InvalidOperation) && port.tx == old(port.tx) && port.rx == old(port.rx)
      ensures index < DACStreams ==>
        port.tx == old(port.tx) + [CommandCode(DisableDAC0Buffer) + index]
        && (o, port.rx) == ExpectStep(old(port.rx), ResponseCode(Ack))
    {
      if index == 0 {
        port.Write([CommandCode(DisableDAC0Buffer)]);
      } else if index == 1 {
        port.Write([CommandCode(DisableDAC1Buffer)]);
      } else {
        return Fail(InvalidOperation);
      }
      o := ExpectByte(port, ResponseCode(Ack));
    }

    /**
     * Sets DAC `index` to the voltage of `level`: an index of 2 or more is rejected before
     * anything changes; otherwise the level is recorded and the byte the voltage converts
     * to (scaled by 256, as the current connection does) is sent.
     */
    method SetDAC(index: nat, level: Byte, overflow: Byte) returns (o: Outcome)
      requires Valid()
      modifies this, port
      ensures Valid() && port.isOpen == old(port.isOpen) && port.rx == old(port.rx)
      ensures index >= DACStreams ==>
        o == Fail(InvalidOperation) && currentDacValues == old(currentDacValues) && port.tx == old(port.tx)
      ensures index < DACStreams ==>
        o == Pass && currentDacValues == old(currentDacValues)[index := level]
        && port.tx == old(port.tx) + [CommandCode(SetDAC0) + index, Dac.SentCode(level, overflow)]
    {
      if index >= DACStreams {
        return Fail(InvalidOperation);
      }
      currentDacValues := currentDacValues[index := level];
      port.Write([CommandCode(SetDAC0) + index, Dac.SentCode(level, overflow)]);
      return Pass;
    }

    /**
     * The DAC half of delivering a burst: `burst` copies of each channel's level. A third
     * DAC stream has no level: the index fails after the first two streams got theirs.
     */
    method PushDacBurst(dacCount: nat, burst: nat, dacOut: seq<seq<int>>) returns (ok: bool, dacOut': seq<seq<int>>)
      requires Valid() && |dacOut| == dacCount
      ensures ok <==> dacCount <= DACStreams
      ensures |dacOut'| == dacCount
      ensures forall d :: 0 <= d < dacCount ==>
        dacOut'[d] == if d < DACStreams then dacOut[d] + Repeat(currentDacValues[d], burst) else dacOut[d]
    {
      dacOut' := dacOut;
      for d := 0 to dacCount
        invariant d <= DACStreams && |dacOut'| == dacCount
        invariant forall e :: 0 <= e < d ==> dacOut'[e] == dacOut[e] + Repeat(currentDacValues[e], burst)
        invariant forall e :: d <= e < dacCount ==> dacOut'[e] == dacOut[e]
      {
        if d >= DACStreams {
          return false, dacOut';
        }
        var level := currentDacValues[d] as int;
        var out := dacOut'[d];
        for n := 0 to burst
          invariant out == dacOut[d] + Repeat(level, n)
        {
          assert Repeat(level, n) + [level] == Repeat(level, n + 1);
          out := out + [level];
        }
        dacOut' := dacOut'[d := out];
      }
      return true, dacOut';
    }

    /** The ADC half of delivering a burst: ADC stream `i` gets the bytes at `i, i + k, i + 2k, ...`. */
    static method PushAdcBurst(adcOut: seq<seq<int>>, buffer: seq<Byte>) returns (adcOut': seq<seq<int>>)
      ensures |adcOut'| == |adcOut|
      ensures forall i :: 0 <= i < |adcOut| ==> adcOut'[i] == adcOut[i] + Stride(buffer, |adcOut|, i)
    {
      var k := |adcOut|;
      adcOut' := adcOut;
      for i := 0 to k
        invariant |adcOut'| == k
        invariant forall j :: 0 <= j < i ==> adcOut'[j] == adcOut[j] + Stride(buffer, k, j)
        invariant forall j :: i <= j < k ==> adcOut'[j] == adcOut[j]
      {
        var out := adcOut'[i];
        var n := i;
        while n < |buffer|
          invariant out + Stride(buffer, k, n) == adcOut[i] + Stride(buffer, k, i)
          decreases |buffer| - n
        {
          assert Stride(buffer, k, n) == [buffer[n] as int] + Stride(buffer, k, n + k);
          out := out + [buffer[n] as int];
          n := n + k;
        }
        adcOut' := adcOut'[i := out];
      }
    }

    /** The streams after pushing the accepted bursts `done`, each of `burst` frames of `adcCount` bytes. */
    ghost predicate Delivered(dacCount: nat, adcCount: nat, burst: nat, dacOut: seq<seq<int>>, adcOut: seq<seq<int>>,
                              done: seq<seq<Byte>>)
      reads this
      requires Valid()
    {
      |dacOut| == dacCount && |adcOut| == adcCount
      && (forall d :: 0 <= d < dacCount && d < DACStreams ==> dacOut[d] == Held(currentDacValues[d], |done|, burst))
      && (forall d :: DACStreams <= d < dacCount ==> dacOut[d] == [])
      && (forall j :: 0 <= j < |done| ==> |done[j]| == burst * adcCount)
      && (forall i :: 0 <= i < adcCount ==> adcOut[i] == Strides(done, adcCount, i))
    }

    /** Pushing one more accepted burst extends every stream by that burst's values. */
    lemma DeliverBurst(dacCount: nat, adcCount: nat, burst: nat, dacOut: seq<seq<int>>, adcOut: seq<seq<int>>,
                       done: seq<seq<Byte>>, buffer: seq<Byte>, dacOut': seq<seq<int>>, adcOut': seq<seq<int>>)
      requires Valid() && Delivered(dacCount, adcCount, burst, dacOut, adcOut, done)
      requires dacCount <= DACStreams && |buffer| == burst * adcCount
      requires |dacOut'| == dacCount && |adcOut'| == adcCount
      requires forall d :: 0 <= d < dacCount ==> dacOut'[d] == dacOut[d] + Repeat(currentDacValues[d], burst)
      requires forall i :: 0 <= i < adcCount ==> adcOut'[i] == adcOut[i] + Stride(buffer, adcCount, i)
      ensures Delivered(dacCount, adcCount, burst, dacOut', adcOut', done + [buffer])
    {
      var done' := done + [buffer];
      assert done'[..|done|] == done;
    }

    /**
     * The loop's state after `|done|` passes, each of which accepted a burst: every DAC
     * stream holds its level `burst` times per burst, every ADC stream its stride of
     * every burst; `start` is what was sent before the loop and `rx0` what the port held
     * before the acknowledgement.
     */
    ghost predicate Running(dacCount: nat, adcCount: nat, burst: nat, cancel: seq<bool>, start: seq<Byte>, rx0: Rx,
                            r: Run, done: seq<seq<Byte>>, tx: seq<Byte>, rx: Rx)
      reads this
      requires Valid()
    {
      (dacCount > DACStreams ==> done == [])
      && Delivered(dacCount, adcCount, burst, r.dacOut, r.adcOut, done)
      && r.iterations == |done|
      && r.cancelled == CancelSeen(cancel, |done|)
      && tx == Sent(start, r.cancelled)
      && (NoEmpty(rx0) ==> NoEmpty(rx) && Flatten(rx0) == [ResponseCode(Ack)] + Wire(done) + Flatten(rx))
    }

    /**
     * What holds when the loop ends with outcome `o`. `final` is the status byte that
     * ended it, if one did, and `last` the burst read before that status, which is never
     * pushed. A third DAC stream fails the first accepted burst after the first two DAC
     * streams got their values and before any ADC stream got its stride.
     */
    ghost predicate Ended(o: Outcome, dacCount: nat, adcCount: nat, burst: nat, cancel: seq<bool>, start: seq<Byte>, rx0: Rx,
                          dacOut: seq<seq<int>>, adcOut: seq<seq<int>>, iterations: nat,
                          done: seq<seq<Byte>>, final: Option<Byte>, last: seq<Byte>, tx: seq<Byte>, rx: Rx)
      reads this
      requires Valid()
    {
      tx == Sent(start, CancelSeen(cancel, iterations))
      && |done| <= iterations <= |done| + 1
      && (o == Fail(IndexOutOfRange(DACStreams)) <==> dacCount > DACStreams && done != [])
      && (dacCount > DACStreams ==> |done| <= 1)
      && |dacOut| == dacCount && |adcOut| == adcCount
      && (forall d :: 0 <= d < dacCount && d < DACStreams ==> dacOut[d] == Held(currentDacValues[d], |done|, burst))
      && (forall d :: DACStreams <= d < dacCount ==> dacOut[d] == [])
      && (forall j :: 0 <= j < |done| ==> |done[j]| == burst * adcCount)
      && (forall i :: 0 <= i < adcCount ==>
            adcOut[i] == Strides(if o == Fail(IndexOutOfRange(DACStreams)) then [] else done, adcCount, i))
      && (final.Some? ==> iterations == |done| + 1 && Dispatch(final.value) == Stop(o))
      && (o == Pass ==> final == Some(ResponseCode(Finish)) && |last| == burst * adcCount)
      && (o == Pass && NoEmpty(rx0) ==>
            Flatten(rx0) == [ResponseCode(Ack)] + Wire(done) + last + [ResponseCode(Finish)] + Flatten(rx))
    }

    /**
     * The first part of a pass: send the stop command the first time cancellation is
     * seen, then read the burst of `burst * adcCount` bytes and the status byte after it.
     */
    method Fetch(adcCount: nat, burst: nat, cancel: seq<bool>, ghost start: seq<Byte>, r: Run)
      returns (got: Result<(seq<Byte>, Byte)>, r': Run)
      requires port.tx == Sent(start, r.cancelled)
      modifies port
      ensures port.isOpen == old(port.isOpen) && Weight(port.rx) <= Weight(old(port.rx))
      ensures r' == r.(cancelled := r.cancelled || CancelledAt(cancel, r.iterations), iterations := r.iterations + 1)
      ensures port.tx == Sent(start, r'.cancelled)
      ensures got.Err? ==> got.error.Timeout?
      ensures got.Ok? ==>
        Fill(old(port.rx), burst * adcCount, []).0 == Ok(got.value.0)
        && (Ok(got.value.1), port.rx) == StatusStep(Fill(old(port.rx), burst * adcCount, []).1)
        && |got.value.0| == burst * adcCount && Weight(port.rx) < Weight(old(port.rx))
        && (NoEmpty(old(port.rx)) ==> NoEmpty(port.rx) && Flatten(old(port.rx)) == got.value.0 + [got.value.1] + Flatten(port.rx))
    {
      r' := r.(iterations := r.iterations + 1);
      if CancelledAt(cancel, r.iterations) && !r.cancelled {
        port.Write([CommandCode(StopStream)]);
        r' := r'.(cancelled := true);
      }
      ghost var rx := port.rx;
      var buffer := ReadExactly(port, burst * adcCount);
      if buffer.Err? {
        return Err(buffer.error), r';
      }
      var status := ReadByte(port);
      if status.Err? {
        return Err(status.error), r';
      }
      if NoEmpty(rx) {
        BurstConsumes(rx, burst * adcCount, buffer.value, status.value, port.rx);
      }
      got := Ok((buffer.value, status.value));
    }

    /** A pass whose burst or status cannot be read ends the stream with that error. */
    lemma Lost(e: Error, dacCount: nat, adcCount: nat, burst: nat, cancel: seq<bool>, start: seq<Byte>, rx0: Rx,
               r: Run, done: seq<seq<Byte>>, rx: Rx, r': Run, rx': Rx)
      requires Valid() && Running(dacCount, adcCount, burst, cancel, start, rx0, r, done, Sent(start, r.cancelled), rx)
      requires e.Timeout?
      requires r' == r.(cancelled := r.cancelled || CancelledAt(cancel, r.iterations), iterations := r.iterations + 1)
      ensures Ended(Fail(e), dacCount, adcCount, burst, cancel, start, rx0, r'.dacOut, r'.adcOut, r'.iterations,
                    done, None, [], Sent(start, r'.cancelled), rx')
    {
    }

    /** A burst followed by a status other than `Streaming` ends the stream as the status says, without pushing the burst. */
    lemma Stopped(dacCount: nat, adcCount: nat, burst: nat, cancel: seq<bool>, start: seq<Byte>, rx0: Rx,
                  r: Run, done: seq<seq<Byte>>, rx: Rx, r': Run, buffer: seq<Byte>, status: Byte, rx': Rx)
      requires Valid() && Running(dacCount, adcCount, burst, cancel, start, rx0, r, done, Sent(start, r.cancelled), rx)
      requires r' == r.(cancelled := r.cancelled || CancelledAt(cancel, r.iterations), iterations := r.iterations + 1)
      requires |buffer| == burst * adcCount
      requires NoEmpty(rx) ==> NoEmpty(rx') && Flatten(rx) == buffer + [status] + Flatten(rx')
      requires Dispatch(status).Stop?
      ensures Ended(Dispatch(status).outcome, dacCount, adcCount, burst, cancel, start, rx0, r'.dacOut, r'.adcOut, r'.iterations,
                    done, Some(status), buffer, Sent(start, r'.cancelled), rx')
    {
      var o := Dispatch(status).outcome;
      assert o != Fail(IndexOutOfRange(DACStreams));
      if o == Pass && NoEmpty(rx0) {
        WireStep(rx0, done, rx, buffer, status, rx');
      }
    }

    /** A burst followed by `Streaming` is accepted: pushing it keeps the loop running. */
    lemma Accepted(dacCount: nat, adcCount: nat, burst: nat, cancel: seq<bool>, start: seq<Byte>, rx0: Rx,
                   r: Run, done: seq<seq<Byte>>, rx: Rx, r': Run, buffer: seq<Byte>, rx': Rx)
      requires Valid() && Running(dacCount, adcCount, burst, cancel, start, rx0, r, done, Sent(start, r.cancelled), rx)
      requires dacCount <= DACStreams
      requires |buffer| == burst * adcCount
      requires NoEmpty(rx) ==> NoEmpty(rx') && Flatten(rx) == buffer + [ResponseCode(Streaming)] + Flatten(rx')
      requires r'.cancelled == (r.cancelled || CancelledAt(cancel, r.iterations)) && r'.iterations == r.iterations + 1
      requires |r'.dacOut| == dacCount && |r'.adcOut| == adcCount
      requires forall d :: 0 <= d < dacCount ==> r'.dacOut[d] == r.dacOut[d] + Repeat(currentDacValues[d], burst)
      requires forall i :: 0 <= i < adcCount ==> r'.adcOut[i] == r.adcOut[i] + Stride(buffer, adcCount, i)
      ensures Running(dacCount, adcCount, burst, cancel, start, rx0, r', done + [buffer], Sent(start, r'.cancelled), rx')
    {
      var done' := done + [buffer];
      DeliverBurst(dacCount, adcCount, burst, r.dacOut, r.adcOut, done, buffer, r'.dacOut, r'.adcOut);
      assert done'[..|done|] == done;
      if NoEmpty(rx0) {
        WireStep(rx0, done, rx, buffer, ResponseCode(Streaming), rx');
      }
    }

    /** With a third DAC stream, the first accepted burst fails on its index: the stream ends before any ADC push. */
    lemma Overflowed(dacCount: nat, adcCount: nat, burst: nat, cancel: seq<bool>, start: seq<Byte>, rx0: Rx,
                     r: Run, done: seq<seq<Byte>>, rx: Rx, r': Run, buffer: seq<Byte>, rx': Rx)
      requires Valid() && Running(dacCount, adcCount, burst, cancel, start, rx0, r, done, Sent(start, r.cancelled), rx)
      requires dacCount > DACStreams && |buffer| == burst * adcCount
      requires r'.cancelled == (r.cancelled || CancelledAt(cancel, r.iterations)) && r'.iterations == r.iterations + 1
      requires r'.adcOut == r.adcOut && |r'.dacOut| == dacCount
      requires forall d :: 0 <= d < dacCount ==>
        r'.dacOut[d] == if d < DACStreams then r.dacOut[d] + Repeat(currentDacValues[d], burst) else r.dacOut[d]
      ensures Ended(Fail(IndexOutOfRange(DACStreams)), dacCount, adcCount, burst, cancel, start, rx0, r'.dacOut, r'.adcOut,
                    r'.iterations, done + [buffer], None, [], Sent(start, r'.cancelled), rx')
    {
      assert Held(currentDacValues[0], 1, burst) == Repeat(currentDacValues[0], burst);
      assert Held(currentDacValues[1], 1, burst) == Repeat(currentDacValues[1], burst);
    }

    /** The second part of a pass after `Streaming`: push the burst to every stream. */
    method Deliver(dacCount: nat, adcCount: nat, burst: nat, cancel: seq<bool>, ghost start: seq<Byte>, ghost rx0: Rx,
                   r: Run, ghost done: seq<seq<Byte>>, ghost rx: Rx, fetched: Run, buffer: seq<Byte>, ghost rx': Rx)
      returns (stop: Option<Outcome>, r': Run)
      requires Valid() && Running(dacCount, adcCount, burst, cancel, start, rx0, r, done, Sent(start, r.cancelled), rx)
      requires fetched == r.(cancelled := r.cancelled || CancelledAt(cancel, r.iterations), iterations := r.iterations + 1)
      requires |buffer| == burst * adcCount
      requires NoEmpty(rx) ==> NoEmpty(rx') && Flatten(rx) == buffer + [ResponseCode(Streaming)] + Flatten(rx')
      ensures r'.cancelled == fetched.cancelled && r'.iterations == fetched.iterations
      ensures stop.None? ==>
        Running(dacCount, adcCount, burst, cancel, start, rx0, r', done + [buffer], Sent(start, r'.cancelled), rx')
      ensures stop.Some? ==>
        Ended(stop.value, dacCount, adcCount, burst, cancel, start, rx0, r'.dacOut, r'.adcOut, r'.iterations,
              done + [buffer], None, [], Sent(start, r'.cancelled), rx')
    {
      var ok, dacOut := PushDacBurst(dacCount, burst, fetched.dacOut);
      if !ok {
        r' := fetched.(dacOut := dacOut);
        Overflowed(dacCount, adcCount, burst, cancel, start, rx0, r, done, rx, r', buffer, rx');
        return Some(Fail(IndexOutOfRange(DACStreams))), r';
      }
      var adcOut := PushAdcBurst(fetched.adcOut, buffer);
      r' := fetched.(dacOut := dacOut, adcOut := adcOut);
      Accepted(dacCount, adcCount, burst, cancel, start, rx0, r, done, rx, r', buffer, rx');
      return None, r';
    }

    /** One pass of the loop; `stop` is the stream's outcome when the loop ends here. */
    method Step(dacCount: nat, adcCount: nat, burst: nat, cancel: seq<bool>, ghost start: seq<Byte>, ghost rx0: Rx,
                r: Run, ghost done: seq<seq<Byte>>)
      returns (stop: Option<Outcome>, r': Run, ghost done': seq<seq<Byte>>, ghost final: Option<Byte>, ghost last: seq<Byte>)
      requires Valid() && Running(dacCount, adcCount, burst, cancel, start, rx0, r, done, port.tx, port.rx)
      modifies port
      ensures port.isOpen == old(port.isOpen)
      ensures stop.None? ==>
        Running(dacCount, adcCount, burst, cancel, start, rx0, r', done', port.tx, port.rx) && Weight(port.rx) < Weight(old(port.rx))
      ensures stop.Some? ==>
        Ended(stop.value, dacCount, adcCount, burst, cancel, start, rx0, r'.dacOut, r'.adcOut, r'.iterations,
              done', final, last, port.tx, port.rx)
    {
      done', final, last := done, None, [];
      ghost var rx := port.rx;
      var got;
      got, r' := Fetch(adcCount, burst, cancel, start, r);
      if got.Err? {
        Lost(got.error, dacCount, adcCount, burst, cancel, start, rx0, r, done, rx, r', port.rx);
        return Some(Fail(got.error)), r', done', final, last;
      }
      var (buffer, status) := got.value;
      match Dispatch(status)
      case Stop(outcome) =>
        Stopped(dacCount, adcCount, burst, cancel, start, rx0, r, done, rx, r', buffer, status, port.rx);
        return Some(outcome), r', done', Some(status), buffer;
      case Continue =>
        stop, r' := Deliver(dacCount, adcCount, burst, cancel, start, rx0, r, done, rx, r', buffer, port.rx);
        return stop, r', done + [buffer], final, last;
    }

    /** The streaming loop: passes until one ends the stream. */
    method Stream(dacCount: nat, adcCount: nat, burst: nat, cancel: seq<bool>, ghost start: seq<Byte>, ghost rx0: Rx,
                  r: Run, ghost done: seq<seq<Byte>>)
      returns (o: Outcome, r': Run, ghost done': seq<seq<Byte>>, ghost final: Option<Byte>, ghost last: seq<Byte>)
      requires Valid() && Running(dacCount, adcCount, burst, cancel, start, rx0, r, done, port.tx, port.rx)
      modifies port
      ensures port.isOpen == old(port.isOpen)
      ensures Ended(o, dacCount, adcCount, burst, cancel, start, rx0, r'.dacOut, r'.adcOut, r'.iterations,
                    done', final, last, port.tx, port.rx)
    {
      r', done' := r, done;
      var stop: Option<Outcome>;
      while true
        invariant port.isOpen == old(port.isOpen)
        invariant Running(dacCount, adcCount, burst, cancel, start, rx0, r', done', port.tx, port.rx)
        decreases Weight(port.rx)
      {
        stop, r', done', final, last := Step(dacCount, adcCount, burst, cancel, start, rx0, r', done');
        if stop.Some? {
          break;
        }
      }
      o := stop.value;
    }

    /** After the acknowledgement and before the first pass: empty streams, no burst accepted, nothing more sent. */
    lemma Begins(dacCount: nat, adcCount: nat, burst: nat, cancel: seq<bool>, start: seq<Byte>, rx0: Rx, rx: Rx,
                 dacOut: seq<seq<int>>, adcOut: seq<seq<int>>)
      requires Valid() && ExpectStep(rx0, ResponseCode(Ack)) == (Pass, rx)
      requires |dacOut| == dacCount && forall d :: 0 <= d < dacCount ==> dacOut[d] == []
      requires |adcOut| == adcCount && forall i :: 0 <= i < adcCount ==> adcOut[i] == []
      ensures Running(dacCount, adcCount, burst, cancel, start, rx0, Run(dacOut, adcOut, false, 0), [], start, rx)
    {
      if NoEmpty(rx0) {
        ExpectConsumes(rx0, ResponseCode(Ack));
      }
    }

    /**
     * `StartStream`: send the start frame (no DAC or potentiometer reset), expect the
     * acknowledgement, then receive bursts until a status other than `Streaming`.
     * `cancel` reports, per pass, whether cancellation was requested; `done` holds the
     * accepted bursts, `final` the status that ended the stream and `last` the burst
     * read before it.
     */
    method StartStream(samplesPerSecond: int, dacCount: nat, adcCount: nat, cancel: seq<bool>)
      returns (o: Outcome, dacOut: seq<seq<int>>, adcOut: seq<seq<int>>, iterations: nat,
               ghost done: seq<seq<Byte>>, ghost final: Option<Byte>, ghost last: seq<Byte>)
      requires Valid()
      modifies port
      ensures port.isOpen == old(port.isOpen)
      ensures samplesPerSecond == 0 ==>
        o == Fail(DivideByZero) && port.tx == old(port.tx) && port.rx == old(port.rx) && iterations == 0
      ensures iterations > 0 ==> ExpectStep(old(port.rx), ResponseCode(Ack)).0 == Pass
      ensures samplesPerSecond != 0 ==>
        Ended(o, dacCount, adcCount, BurstSize(samplesPerSecond), cancel,
              old(port.tx) + StartFrame(samplesPerSecond, adcCount), old(port.rx),
              dacOut, adcOut, iterations, done, final, last, port.tx, port.rx)
    {
      dacOut := seq(dacCount, _ => []);
      adcOut := seq(adcCount, _ => []);
      iterations, done, final, last := 0, [], None, [];
      if samplesPerSecond == 0 {
        return Fail(DivideByZero), dacOut, adcOut, iterations, done, final, last;
      }
      var burst := BurstSize(samplesPerSecond);
      Probe.WriteStartFrame(port, samplesPerSecond, adcCount);
      ghost var start := port.tx;
      ghost var rx0 := port.rx;
      var ack := ExpectByte(port, ResponseCode(Ack));
      if ack.Fail? {
        return ack, dacOut, adcOut, iterations, done, final, last;
      }
      Begins(dacCount, adcCount, burst, cancel, start, rx0, port.rx, dacOut, adcOut);
      var r := Run(dacOut, adcOut, false, 0);
      o, r, done, final, last := Stream(dacCount, adcCount, burst, cancel, start, old(port.rx), r, done);
      return o, r.dacOut, r.adcOut, r.iterations, done, final, last;
    }
  }
}
