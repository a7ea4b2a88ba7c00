/**
 * The current host session with the probe: DAC level, waveform and potentiometer
 * commands, and the streaming loop that reads one frame of ADC bytes per sample and
 * pushes one value per sample into every DAC, potentiometer and ADC stream.
 * Pushed values are the raw integers the host normalises before display: DAC codes and
 * waveform entries, potentiometer steps and ADC bytes.
 */
module Probe {
  import opened Bytes
  import opened Results
  import opened Protocol
  import opened Transport
  import opened StreamSetup
  import opened Arith
  import Dac

  const DACBufferSize: nat := 256
  const MaxDACStreams: nat := 2
  const PotiMax: nat := 256

  /** The table entry played at sample `k` when each entry is held for `prescaler` samples: the position counter over one period, divided by the prescaler. */
  function WaveIndex(k: nat, prescaler: nat): (i: nat)
    requires prescaler > 0
    ensures i < DACBufferSize
  {
    var period := DACBufferSize * prescaler;
    DivBelow(k % period, prescaler, DACBufferSize);
    (k % period) / prescaler
  }

  /** Sample `k` plays entry `(k / prescaler) mod 256`: every entry is held for `prescaler` samples and the table repeats. */
  lemma WaveIndexIsHeldEntry(k: nat, prescaler: nat)
    requires prescaler > 0
    ensures WaveIndex(k, prescaler) == (k / prescaler) % DACBufferSize
  {
    var p := prescaler;
    var q, r := k / p, k % p;
    var a, b := q / 256, q % 256;
    assert k == p * q + r;
    assert q == 256 * a + b;
    assert p * q == (256 * p) * a + p * b;
    MulMono(p, b, 255);
    ModUnique(k, 256 * p, a, p * b + r);
    ModUnique(p * b + r, p, b, r);
  }

  /** The values one DAC stream receives during a stream: the waveform table replayed from entry 0, or the channel's level when no table is set. */
  ghost predicate DacTrace(out: seq<int>, buffer: Option<seq<Byte>>, prescaler: nat, level: int)
    requires buffer.Some? ==> |buffer.value| == DACBufferSize
  {
    match buffer
    case None => forall k :: 0 <= k < |out| ==> out[k] == level
    case Some(table) =>
      if prescaler == 0 then out == []
      else forall k :: 0 <= k < |out| ==> out[k] == table[WaveIndex(k, prescaler)]
  }

  /**
   * One more sample of a table-driven DAC: the entry at position `pos` extends the trace,
   * and the position counter steps on, wrapping after a whole table period.
   */
  lemma TableStep(out: seq<int>, table: seq<Byte>, p: nat, level: int, pos: nat)
    requires |table| == DACBufferSize && p > 0 && pos == |out| % (DACBufferSize * p)
    requires DacTrace(out, Some(table), p, level)
    ensures pos / p < DACBufferSize
    ensures (if pos + 1 == DACBufferSize * p then 0 else pos + 1) == (|out| + 1) % (DACBufferSize * p)
    ensures DacTrace(out + [table[pos / p] as int], Some(table), p, level)
  {
    DivBelow(pos, p, DACBufferSize);
    ModStep(|out|, DACBufferSize * p);
    assert table[pos / p] == table[WaveIndex(|out|, p)];
  }

  /** One more sample of a DAC without a table repeats its level. */
  lemma LevelStep(out: seq<int>, p: nat, level: int)
    requires DacTrace(out, None, p, level)
    ensures DacTrace(out + [level], None, p, level)
  {
  }

  /** The `SetDAC(n, 0)` frames `StartStream` sends for the first `count` DAC streams. */
  function DacResets(count: nat): (f: seq<Byte>)
    requires count <= MaxDACStreams
    ensures |f| == 2 * count
    ensures forall n :: 0 <= n < count ==> f[2 * n] == CommandCode(SetDAC0) + n && f[2 * n + 1] == 0
  {
    if count == 0 then [] else DacResets(count - 1) + [CommandCode(SetDAC0) + (count - 1), 0]
  }

  /** The `SetPoti0(0)` frame. */
  function PotiReset(): (f: seq<Byte>)
    ensures |f| == 3 && f[0] == SetPoti0Command && WordValue(f[1], f[2]) == 0
  {
    [SetPoti0Command] + Word(0)
  }

  /** A burst the host completed: the frames read and the status byte that followed them. */
  datatype Burst = Burst(frames: seq<seq<Byte>>, status: Byte)

  /** The frames of a series of bursts, in order. */
  ghost function Frames(done: seq<Burst>): seq<seq<Byte>> {
    if done == [] then [] else Frames(done[..|done| - 1]) + done[|done| - 1].frames
  }

  /** The bytes of a series of frames, in order. */
  ghost function Concat(frames: seq<seq<Byte>>): seq<Byte> {
    if frames == [] then [] else Concat(frames[..|frames| - 1]) + frames[|frames| - 1]
  }

  /** The bytes the probe sends for a series of bursts: each burst's frames, then its status byte. */
  ghost function Wire(done: seq<Burst>): seq<Byte> {
    if done == [] then []
    else
      var b := done[|done| - 1];
      Wire(done[..|done| - 1]) + Concat(b.frames) + [b.status]
  }

  /** Sends the start frame: the command, the channel count, the sample delay and the burst size. */
  method WriteStartFrame(port: Port, samplesPerSecond: int, adcCount: nat)
    requires samplesPerSecond != 0
    modifies port
    ensures port.tx == old(port.tx) + StartFrame(samplesPerSecond, adcCount)
    ensures port.rx == old(port.rx) && port.isOpen == old(port.isOpen)
  {
    port.Write([CommandCode(Command.StartStream)]);
    port.Write([ToByte(adcCount)]);
    WriteDWord(port, StreamDelay(samplesPerSecond));
    WriteWord(port, BurstSize(samplesPerSecond));
  }

  /** Every completed burst has `burstSize` frames and carried the status `Streaming`. */
  ghost predicate StreamingBursts(burstSize: nat, done: seq<Burst>) {
    forall j :: 0 <= j < |done| ==> |done[j].frames| == burstSize && done[j].status == ResponseCode(Streaming)
  }

  /**
   * The bursts when the loop ends with outcome `o`: the burst in progress may be complete
   * when its status byte could not be read, every status but the last is `Streaming`, and
   * a last status that is not `Streaming` is the one that ended the stream.
   */
  ghost predicate Closed(o: Outcome, burstSize: nat, bursts: nat, done: seq<Burst>, current: seq<seq<Byte>>) {
    (forall j :: 0 <= j < |done| ==> |done[j].frames| == burstSize)
    && |current| <= burstSize
    && bursts == |done| + (if |current| == burstSize then 1 else 0)
    && (forall j :: 0 <= j < |done| - 1 ==> done[j].status == ResponseCode(Streaming))
    && (|done| > 0 && done[|done| - 1].status != ResponseCode(Streaming) ==>
          current == [] && Dispatch(done[|done| - 1].status) == Stop(o))
    && (o == Pass ==> current == [] && |done| > 0 && done[|done| - 1].status == ResponseCode(Finish))
  }

  /** What the host has read after the acknowledgement, the completed bursts and the frames of the burst in progress. */
  ghost function Received(done: seq<Burst>, current: seq<seq<Byte>>): seq<Byte> {
    [ResponseCode(Ack)] + Wire(done) + Concat(current)
  }

  /** Closing a burst moves the frames in progress into the completed bursts; its status byte follows them. */
  lemma CloseBurst(done: seq<Burst>, current: seq<seq<Byte>>, status: Byte)
    ensures Frames(done + [Burst(current, status)]) + [] == Frames(done) + current
    ensures Received(done + [Burst(current, status)], []) == Received(done, current) + [status]
    ensures Received(done + [Burst(current, status)], []) == [ResponseCode(Ack)] + Wire(done + [Burst(current, status)])
  {
    var done' := done + [Burst(current, status)];
    assert done'[..|done|] == done && done'[|done|] == Burst(current, status);
    assert Frames(done') == Frames(done) + current;
    var w := Wire(done) + Concat(current);
    assert Wire(done') == w + [status];
    assert Received(done', []) == [ResponseCode(Ack)] + (w + [status]) by {
      assert Concat([]) == [];
    }
    assert Received(done, current) == [ResponseCode(Ack)] + w;
  }

  /** A frame read within a burst is the next piece of the wire after what was read before it. */
  lemma FrameOnWire(rx0: Rx, done: seq<Burst>, current: seq<seq<Byte>>, rx: Rx, frame: seq<Byte>, rx': Rx)
    requires Flatten(rx0) == Received(done, current) + Flatten(rx)
    requires Flatten(rx) == frame + Flatten(rx')
    ensures Flatten(rx0) == Received(done, current + [frame]) + Flatten(rx')
  {
    var current' := current + [frame];
    assert current'[..|current|] == current;
    assert Concat(current') == Concat(current) + frame;
    Regroup([ResponseCode(Ack)] + Wire(done), Concat(current), frame, Flatten(rx'));
  }

  /** The status byte read at the end of a burst is the byte that follows the burst's frames on the wire. */
  lemma StatusOnWire(rx0: Rx, done: seq<Burst>, current: seq<seq<Byte>>, rx: Rx)
    requires NoEmpty(rx) && StatusStep(rx).0.Ok?
    requires Flatten(rx0) == Received(done, current) + Flatten(rx)
    ensures NoEmpty(StatusStep(rx).1)
    ensures Flatten(rx0) == Received(done + [Burst(current, StatusStep(rx).0.value)], []) + Flatten(StatusStep(rx).1)
  {
    var (r, rest) := StatusStep(rx);
    StatusConsumes(rx);
    CloseBurst(done, current, r.value);
  }

  /** Bursts of `size` frames each hold `size` frames per burst in total. */
  lemma {:induction false} WholeBursts(done: seq<Burst>, size: nat)
    requires forall j :: 0 <= j < |done| ==> |done[j].frames| == size
    ensures |Frames(done)| == |done| * size
  {
    if done != [] {
      var init := done[..|done| - 1];
      WholeBursts(init, size);
      assert |Frames(done)| == |init| * size + size;
      assert |init| * size + size == (|init| + 1) * size;
    }
  }

  /** Moving a piece from the tail of a concatenation into its middle. */
  lemma Regroup<T>(head: seq<T>, middle: seq<T>, piece: seq<T>, tail: seq<T>)
    ensures head + middle + (piece + tail) == head + (middle + piece) + tail
  {
  }

  /** Channel `i` of every frame: what ADC stream `i` receives. */
  function Column(frames: seq<seq<Byte>>, i: nat): (c: seq<int>)
    requires forall k :: 0 <= k < |frames| ==> i < |frames[k]|
    ensures |c| == |frames| && forall k :: 0 <= k < |frames| ==> c[k] == frames[k][i]
  {
    seq(|frames|, k requires 0 <= k < |frames| => frames[k][i])
  }

  /** The ADC loop of one sample: byte `i` of the frame is pushed to ADC stream `i`. */
  method PushAdcSamples(adcOut: seq<seq<int>>, ghost samples: seq<seq<Byte>>, frame: seq<Byte>) returns (adcOut': seq<seq<int>>)
    requires |frame| == |adcOut|
    requires forall k :: 0 <= k < |samples| ==> |samples[k]| == |adcOut|
    requires forall i :: 0 <= i < |adcOut| ==> adcOut[i] == Column(samples, i)
    ensures |adcOut'| == |adcOut|
    ensures forall i :: 0 <= i < |adcOut| ==> adcOut'[i] == Column(samples + [frame], i)
  {
    ghost var samples' := samples + [frame];
    adcOut' := adcOut;
    for i := 0 to |adcOut|
      invariant |adcOut'| == |adcOut|
      invariant forall j :: 0 <= j < i ==> adcOut'[j] == Column(samples', j)
      invariant forall j :: i <= j < |adcOut| ==> adcOut'[j] == adcOut[j]
    {
      assert Column(samples, i) + [frame[i]] == Column(samples', i);
      adcOut' := adcOut'[i := adcOut'[i] + [frame[i]]];
    }
  }

  /** The streaming loop's variables: the DAC waveform positions, the values pushed so far, and its counters. */
  datatype Loop = Loop(dacPos: seq<nat>, dacOut: seq<seq<int>>, potiOut: seq<int>, adcOut: seq<seq<int>>,
                       samplesRead: nat, cancelled: bool, bursts: nat, iterations: nat)

  /** The host's connection to the probe; `port` is the serial link it owns. */
  class ProbeConnection {
    const port: Port
    var currentDacValues: seq<Byte>
    var currentPotiValue: UShort
    var dacBuffers: seq<Option<seq<Byte>>>
    var dacPrescaler: seq<Byte>

    ghost predicate Valid()
      reads this
    {
      |currentDacValues| == MaxDACStreams && |dacBuffers| == MaxDACStreams && |dacPrescaler| == MaxDACStreams
      && currentPotiValue <= PotiMax
      && forall i :: 0 <= i < MaxDACStreams && dacBuffers[i].Some? ==> |dacBuffers[i].value| == DACBufferSize
    }

    /** Two DAC channels at level 0 without waveform tables, and the potentiometer at 0. */
    constructor (port: Port)
      ensures Valid() && this.port == port
      ensures currentDacValues == [0, 0] && currentPotiValue == 0
      ensures dacBuffers == [None, None] && dacPrescaler == [0, 0]
    {
      this.port := port;
      currentDacValues := [0, 0];
      currentPotiValue := 0;
      dacBuffers := [None, None];
      dacPrescaler := [0, 0];
    }

    /** Uploads a 256-entry waveform table for DAC `index`, recording it before the probe acknowledges. */
    method EnableDACBuffer(index: Byte, prescaler: Byte, buffer: seq<Byte>) returns (o: Outcome)
      requires Valid()
      modifies this, port
      ensures Valid() && port.isOpen == old(port.isOpen)
      ensures currentDacValues == old(currentDacValues) && currentPotiValue == old(currentPotiValue)
      ensures |buffer| != DACBufferSize || index >= MaxDACStreams ==>
        o == Fail(InvalidOperation) && dacBuffers == old(dacBuffers) && dacPrescaler == old(dacPrescaler)
        && port.tx == old(port.tx) && port.rx == old(port.rx)
      ensures |buffer| == DACBufferSize && index < MaxDACStreams ==>
        port.tx == old(port.tx) + [CommandCode(SetDAC0Buffer) + index, prescaler] + buffer
        && dacBuffers == old(dacBuffers)[index := Some(buffer)]
        && dacPrescaler == old(dacPrescaler)[index := prescaler]
        && (o, port.rx) == ExpectStep(old(port.rx), ResponseCode(Ack))
    {
      if |buffer| != DACBufferSize {
        return Fail(InvalidOperation);
      }
      if index == 0 {
        port.Write([CommandCode(SetDAC0Buffer)]);
      } else if index == 1 {
        port.Write([CommandCode(SetDAC1Buffer)]);
      } else {
        return Fail(InvalidOperation);
      }
      dacBuffers := dacBuffers[index := Some(buffer)];
      dacPrescaler := dacPrescaler[index := prescaler];
      port.Write([prescaler]);
      port.Write(buffer);
      o := ExpectByte(port, ResponseCode(Ack));
    }

    /** Switches DAC `index` back to its level: forgets the table and prescaler, then expects an acknowledgement. */
    method DisableDACBuffer(index: Byte) returns (o: Outcome)
      requires Valid()
      modifies this, port
      ensures Valid() && port.isOpen == old(port.isOpen)
      ensures currentDacValues == old(currentDacValues) && currentPotiValue == old(currentPotiValue)
      ensures index >= MaxDACStreams ==>
        o == Fail(InvalidOperation) && dacBuffers == old(dacBuffers) && dacPrescaler == old(dacPrescaler)
        && port.tx == old(port.tx) && port.rx == old(port.rx)
      ensures index < MaxDACStreams ==>
        port.tx == old(port.tx) + [CommandCode(DisableDAC0Buffer) + index]
        && dacBuffers == old(dacBuffers)[index := None]
        && dacPrescaler == old(dacPrescaler)[index := 0]
        && (o, port.rx) == ExpectStep(old(port.rx), ResponseCode(Ack))
    {
      if index == 0 {
        port.Write([CommandCode(DisableDAC0Buffer)]);
      } else if index == 1 {
        port.Write([CommandCode(DisableDAC1Buffer)]);
      } else {
        return Fail(InvalidOperation);
      }
      dacBuffers := dacBuffers[index := None];
      dacPrescaler := dacPrescaler[index := 0];
      o := ExpectByte(port, ResponseCode(Ack));
    }

    /**
     * Sets DAC `index` to the voltage of `level`: rejected for an index of 2 or more before
     * anything is sent; otherwise the level is recorded and the byte the voltage converts
     * to is sent (`overflow` is what the unspecified full-scale conversion gives).
     */
    method SetDAC(index: nat, level: Byte, overflow: Byte) returns (o: Outcome)
      requires Valid()
      modifies this, port
      ensures Valid() && port.isOpen == old(port.isOpen) && port.rx == old(port.rx)
      ensures dacBuffers == old(dacBuffers) && dacPrescaler == old(dacPrescaler) && currentPotiValue == old(currentPotiValue)
      ensures index >= MaxDACStreams ==>
        o == Fail(InvalidOperation) && currentDacValues == old(currentDacValues) && port.tx == old(port.tx)
      ensures index < MaxDACStreams ==>
        o == Pass && currentDacValues == old(currentDacValues)[index := level]
        && port.tx == old(port.tx) + [CommandCode(SetDAC0) + index, Dac.SentCode(level, overflow)]
    {
      if index >= |dacBuffers| {
        return Fail(InvalidOperation);
      }
      currentDacValues := currentDacValues[index := level];
      port.Write([CommandCode(SetDAC0) + index, Dac.SentCode(level, overflow)]);
      return Pass;
    }

    /** Sets the potentiometer, clamping the value to 256, and records the clamped value. */
    method SetPoti0(value: UShort)
      requires Valid()
      modifies this, port
      ensures Valid() && port.isOpen == old(port.isOpen) && port.rx == old(port.rx)
      ensures dacBuffers == old(dacBuffers) && dacPrescaler == old(dacPrescaler) && currentDacValues == old(currentDacValues)
      ensures currentPotiValue == if value > PotiMax then PotiMax else value
      ensures port.tx == old(port.tx) + [SetPoti0Command] + Word(currentPotiValue)
    {
      var v := value;
      if v > PotiMax {
        v := PotiMax;
      }
      port.Write([SetPoti0Command]);
      WriteWord(port, v);
      currentPotiValue := v;
    }

    method Dispose()
      modifies port
      ensures !port.isOpen && port.rx == old(port.rx) && port.tx == old(port.tx)
    {
      port.Close();
    }

    /** Whether DAC stream `d` has received exactly the values of its configuration. */
    ghost predicate Traced(d: nat, out: seq<int>)
      reads this
      requires Valid() && d < MaxDACStreams
    {
      DacTrace(out, dacBuffers[d], dacPrescaler[d], currentDacValues[d])
    }

    /** The waveform position counter of DAC stream `d` after `samples` samples. */
    ghost function Position(d: nat, samples: nat): nat
      reads this
      requires Valid() && d < MaxDACStreams
    {
      if dacBuffers[d].Some? && dacPrescaler[d] > 0 then samples % (DACBufferSize * dacPrescaler[d]) else 0
    }

    /** Sets the first `dacCount` DAC levels and the potentiometer to 0; more than two DACs fail at the third. */
    method ResetOutputs(dacCount: nat) returns (o: Outcome)
      requires Valid()
      modifies this, port
      ensures Valid() && port.isOpen == old(port.isOpen) && port.rx == old(port.rx)
      ensures dacBuffers == old(dacBuffers) && dacPrescaler == old(dacPrescaler)
      ensures dacCount > MaxDACStreams ==>
        o == Fail(InvalidOperation) && port.tx == old(port.tx) + DacResets(MaxDACStreams)
      ensures dacCount <= MaxDACStreams ==>
        o == Pass && port.tx == old(port.tx) + DacResets(dacCount) + PotiReset()
        && currentPotiValue == 0 && forall d :: 0 <= d < dacCount ==> currentDacValues[d] == 0
    {
      var n := 0;
      while n < dacCount
        invariant n <= dacCount && n <= MaxDACStreams
        invariant Valid() && port.isOpen == old(port.isOpen) && port.rx == old(port.rx)
        invariant dacBuffers == old(dacBuffers) && dacPrescaler == old(dacPrescaler)
        invariant port.tx == old(port.tx) + DacResets(n)
        invariant forall d :: 0 <= d < n ==> currentDacValues[d] == 0
      {
        var r := SetDAC(n, 0, 0);
        if r.Fail? {
          return r;
        }
        n := n + 1;
      }
      SetPoti0(0);
      return Pass;
    }

    /** Resets the DAC levels and the potentiometer, sends the start frame and expects an acknowledgement. */
    method Prepare(samplesPerSecond: int, dacCount: nat, adcCount: nat) returns (o: Outcome)
      requires Valid() && samplesPerSecond != 0
      modifies this, port
      ensures Valid() && port.isOpen == old(port.isOpen)
      ensures dacBuffers == old(dacBuffers) && dacPrescaler == old(dacPrescaler)
      ensures dacCount > MaxDACStreams ==>
        o == Fail(InvalidOperation) && port.tx == old(port.tx) + DacResets(MaxDACStreams) && port.rx == old(port.rx)
      ensures dacCount <= MaxDACStreams ==>
        port.tx == old(port.tx) + DacResets(dacCount) + PotiReset() + StartFrame(samplesPerSecond, adcCount)
        && (o, port.rx) == ExpectStep(old(port.rx), ResponseCode(Ack))
        && currentPotiValue == 0 && forall d :: 0 <= d < dacCount ==> currentDacValues[d] == 0
    {
      o := ResetOutputs(dacCount);
      if o.Fail? {
        return;
      }
      ghost var reset := port.tx;
      ghost var rx := port.rx;
      WriteStartFrame(port, samplesPerSecond, adcCount);
      assert port.tx == reset + StartFrame(samplesPerSecond, adcCount);
      o := ExpectByte(port, ResponseCode(Ack));
      assert rx == old(port.rx);
    }

    /** One DAC's sample: its table entry (advancing its position) or its level; a table with prescaler 0 fails. */
    method PushDacSample(d: nat, pos: nat, out: seq<int>, ghost samples: nat) returns (ok: bool, pos': nat, out': seq<int>)
      requires Valid() && d < MaxDACStreams
      requires |out| == samples && pos == Position(d, samples) && Traced(d, out)
      ensures ok <==> !(dacBuffers[d].Some? && dacPrescaler[d] == 0)
      ensures !ok ==> samples == 0
      ensures ok ==> |out'| == samples + 1 && pos' == Position(d, samples + 1) && Traced(d, out')
    {
      match dacBuffers[d]
      case Some(table) =>
        var p := dacPrescaler[d];
        if p == 0 {
          return false, pos, out;
        }
        TableStep(out, table, p, currentDacValues[d] as int, pos);
        var value := table[pos / p];
        pos' := if pos + 1 == DACBufferSize * p then 0 else pos + 1;
        return true, pos', out + [value as int];
      case None =>
        LevelStep(out, dacPrescaler[d], currentDacValues[d] as int);
        return true, pos, out + [currentDacValues[d] as int];
    }

    /** The DAC loop of one sample: each stream gets its table entry (advancing its position) or its level. */
    method PushDacSamples(dacCount: nat, pos: seq<nat>, dacOut: seq<seq<int>>, ghost samples: nat)
      returns (ok: bool, pos': seq<nat>, dacOut': seq<seq<int>>)
      requires Valid() && dacCount <= MaxDACStreams && |pos| == dacCount && |dacOut| == dacCount
      requires forall d :: 0 <= d < dacCount ==>
        |dacOut[d]| == samples && pos[d] == Position(d, samples) && Traced(d, dacOut[d])
      ensures |pos'| == dacCount && |dacOut'| == dacCount
      ensures forall d :: 0 <= d < dacCount ==> Traced(d, dacOut'[d])
      ensures ok ==> forall d :: 0 <= d < dacCount ==>
        |dacOut'[d]| == samples + 1 && pos'[d] == Position(d, samples + 1)
      ensures !ok ==> samples == 0 && exists d :: 0 <= d < dacCount && dacBuffers[d].Some? && dacPrescaler[d] == 0
    {
      pos' := pos;
      dacOut' := dacOut;
      for d := 0 to dacCount
        invariant |pos'| == dacCount && |dacOut'| == dacCount
        invariant forall e :: 0 <= e < d ==>
          |dacOut'[e]| == samples + 1 && pos'[e] == Position(e, samples + 1) && Traced(e, dacOut'[e])
        invariant forall e :: d <= e < dacCount ==> dacOut'[e] == dacOut[e] && pos'[e] == pos[e]
      {
        var stepped, next, out := PushDacSample(d, pos'[d], dacOut'[d], samples);
        if !stepped {
          return false, pos', dacOut';
        }
        pos' := pos'[d := next];
        dacOut' := dacOut'[d := out];
      }
      return true, pos', dacOut';
    }

    /** What the streaming loop has pushed after taking `samples`: one value per stream per sample. */
    ghost predicate Pushed(dacCount: nat, adcCount: nat, samples: seq<seq<Byte>>,
                           dacOut: seq<seq<int>>, potiOut: seq<int>, adcOut: seq<seq<int>>)
      reads this
      requires Valid()
    {
      dacCount <= MaxDACStreams
      && |dacOut| == dacCount && |adcOut| == adcCount
      && |potiOut| == |samples|
      && (forall k :: 0 <= k < |samples| ==> |samples[k]| == adcCount)
      && (forall i :: 0 <= i < adcCount ==> adcOut[i] == Column(samples, i))
      && (forall k :: 0 <= k < |potiOut| ==> potiOut[k] == currentPotiValue)
      && (forall d :: 0 <= d < dacCount ==> |dacOut[d]| == |samples| && Traced(d, dacOut[d]))
    }

    /** The waveform positions of the first `dacCount` DAC streams after `samples` samples. */
    ghost predicate Positioned(dacCount: nat, samples: nat, dacPos: seq<nat>)
      reads this
      requires Valid() && dacCount <= MaxDACStreams
    {
      |dacPos| == dacCount && forall d :: 0 <= d < dacCount ==> dacPos[d] == Position(d, samples)
    }

    /** One sample of the streaming loop after the cancellation check: read a frame, then push to every stream. */
    method Sample(dacCount: nat, adcCount: nat, ghost samples: seq<seq<Byte>>,
                  dacPos: seq<nat>, dacOut: seq<seq<int>>, potiOut: seq<int>, adcOut: seq<seq<int>>)
      returns (o: Outcome, frame: seq<Byte>, dacPos': seq<nat>, dacOut': seq<seq<int>>, potiOut': seq<int>, adcOut': seq<seq<int>>)
      requires Valid() && Pushed(dacCount, adcCount, samples, dacOut, potiOut, adcOut)
      requires Positioned(dacCount, |samples|, dacPos)
      modifies port
      ensures port.tx == old(port.tx) && port.isOpen == old(port.isOpen)
      ensures Weight(port.rx) <= Weight(old(port.rx))
      ensures o == Pass ==>
        Pushed(dacCount, adcCount, samples + [frame], dacOut', potiOut', adcOut')
        && Positioned(dacCount, |samples| + 1, dacPos')
        && (NoEmpty(old(port.rx)) ==> NoEmpty(port.rx) && Flatten(old(port.rx)) == frame + Flatten(port.rx))
      ensures o.Fail? ==>
        potiOut' == potiOut && adcOut' == adcOut && |dacOut'| == dacCount
        && (forall d :: 0 <= d < dacCount ==> Traced(d, dacOut'[d]))
        && (o != Fail(DivideByZero) ==> dacOut' == dacOut && dacPos' == dacPos)
        && (o == Fail(DivideByZero) ==>
              samples == [] && exists d :: 0 <= d < dacCount && d < MaxDACStreams && dacBuffers[d].Some? && dacPrescaler[d] == 0)
    {
      potiOut', adcOut', dacPos', dacOut', frame := potiOut, adcOut, dacPos, dacOut, [];
      ghost var rxBefore := port.rx;
      var buffer := ReadExactly(port, adcCount);
      if buffer.Err? {
        return Fail(buffer.error), frame, dacPos', dacOut', potiOut', adcOut';
      }
      frame := buffer.value;
      if NoEmpty(rxBefore) {
        FillConsumes(rxBefore, adcCount);
      }
      var ok;
      ok, dacPos', dacOut' := PushDacSamples(dacCount, dacPos, dacOut, |samples|);
      if !ok {
        return Fail(DivideByZero), frame, dacPos', dacOut', potiOut', adcOut';
      }
      potiOut' := potiOut + [currentPotiValue as int];
      adcOut' := PushAdcSamples(adcOut, samples, frame);
      return Pass, frame, dacPos', dacOut', potiOut', adcOut';
    }

    /**
     * The streaming loop's state after `l.iterations` passes: `done` holds the completed
     * bursts, all with status `Streaming`, and `current` the frames of the burst in
     * progress; every stream has one value per frame read; `start` is what was sent
     * before the loop, `rx0` what the port held before the acknowledgement, and `tx` and
     * `rx` are the port's write log and pending input now.
     */
    ghost predicate Running(dacCount: nat, adcCount: nat, burstSize: nat, cancel: seq<bool>, start: seq<Byte>, rx0: Rx,
                            l: Loop, done: seq<Burst>, current: seq<seq<Byte>>, tx: seq<Byte>, rx: Rx)
      reads this
      requires Valid()
    {
      var samples := Frames(done) + current;
      Pushed(dacCount, adcCount, samples, l.dacOut, l.potiOut, l.adcOut)
      && Positioned(dacCount, |samples|, l.dacPos)
      && 0 < burstSize && l.samplesRead == |current| <= burstSize
      && StreamingBursts(burstSize, done)
      && l.bursts == |done| && l.iterations == |samples|
      && l.cancelled == CancelSeen(cancel, l.iterations)
      && tx == Sent(start, l.cancelled)
      && (NoEmpty(rx0) ==> NoEmpty(rx) && Flatten(rx0) == Received(done, current) + Flatten(rx))
    }

    /**
     * The streams after the loop ends with outcome `o`: one value per frame read, except
     * when a waveform without prescaler failed the very first sample, with some DAC
     * values pushed.
     */
    ghost predicate Output(o: Outcome, dacCount: nat, adcCount: nat, samples: seq<seq<Byte>>,
                           dacOut: seq<seq<int>>, potiOut: seq<int>, adcOut: seq<seq<int>>)
      reads this
      requires Valid()
    {
      (o != Fail(DivideByZero) ==> Pushed(dacCount, adcCount, samples, dacOut, potiOut, adcOut))
      && (o == Fail(DivideByZero) ==>
            samples == [] && potiOut == [] && dacCount <= MaxDACStreams
            && |dacOut| == dacCount && |adcOut| == adcCount
            && (forall i :: 0 <= i < adcCount ==> adcOut[i] == [])
            && (forall d :: 0 <= d < dacCount ==> Traced(d, dacOut[d]))
            && exists d :: 0 <= d < dacCount && dacBuffers[d].Some? && dacPrescaler[d] == 0)
    }

    /**
     * What holds when the streaming loop ends with outcome `o`. The last pass may have
     * failed before pushing (one more iteration than samples), and the bursts are as
     * `Closed` says.
     */
    ghost predicate Ended(o: Outcome, dacCount: nat, adcCount: nat, burstSize: nat, cancel: seq<bool>, start: seq<Byte>, rx0: Rx,
                          dacOut: seq<seq<int>>, potiOut: seq<int>, adcOut: seq<seq<int>>, bursts: nat, iterations: nat,
                          done: seq<Burst>, current: seq<seq<Byte>>, tx: seq<Byte>, rx: Rx)
      reads this
      requires Valid()
    {
      var samples := Frames(done) + current;
      tx == Sent(start, CancelSeen(cancel, iterations))
      && |samples| <= iterations <= |samples| + 1
      && Output(o, dacCount, adcCount, samples, dacOut, potiOut, adcOut)
      && Closed(o, burstSize, bursts, done, current)
      && (o == Pass ==> iterations == |potiOut|)
      && (o == Pass && NoEmpty(rx0) ==> Flatten(rx0) == [ResponseCode(Ack)] + Wire(done) + Flatten(rx))
    }

    /** A stream that finishes has read whole bursts only: `burstSize` samples per stream for every burst. */
    lemma FinishedWhole(dacCount: nat, adcCount: nat, burstSize: nat, cancel: seq<bool>, start: seq<Byte>, rx0: Rx,
                        dacOut: seq<seq<int>>, potiOut: seq<int>, adcOut: seq<seq<int>>, bursts: nat, iterations: nat,
                        done: seq<Burst>, current: seq<seq<Byte>>, tx: seq<Byte>, rx: Rx)
      requires Valid()
      requires Ended(Pass, dacCount, adcCount, burstSize, cancel, start, rx0, dacOut, potiOut, adcOut, bursts, iterations, done, current, tx, rx)
      ensures |potiOut| == bursts * burstSize && iterations == bursts * burstSize
      ensures forall d :: 0 <= d < dacCount ==> |dacOut[d]| == bursts * burstSize
      ensures forall i :: 0 <= i < adcCount ==> |adcOut[i]| == bursts * burstSize
    {
      WholeBursts(done, burstSize);
    }

    /** A sample taken while running extends the burst in progress by its frame and keeps the loop running. */
    lemma Sampled(dacCount: nat, adcCount: nat, burstSize: nat, cancel: seq<bool>, start: seq<Byte>, rx0: Rx,
                  l: Loop, done: seq<Burst>, current: seq<seq<Byte>>, rx: Rx, l': Loop, frame: seq<Byte>, rx': Rx)
      requires Valid() && Running(dacCount, adcCount, burstSize, cancel, start, rx0, l, done, current, Sent(start, l.cancelled), rx)
      requires l.samplesRead < burstSize
      requires l'.cancelled == CancelSeen(cancel, l.iterations + 1) && l'.iterations == l.iterations + 1
      requires l'.samplesRead == l.samplesRead + 1 && l'.bursts == l.bursts
      requires Pushed(dacCount, adcCount, Frames(done) + current + [frame], l'.dacOut, l'.potiOut, l'.adcOut)
      requires Positioned(dacCount, |Frames(done) + current| + 1, l'.dacPos)
      requires NoEmpty(rx) ==> NoEmpty(rx') && Flatten(rx) == frame + Flatten(rx')
      ensures Running(dacCount, adcCount, burstSize, cancel, start, rx0, l', done, current + [frame], Sent(start, l'.cancelled), rx')
    {
      assert Frames(done) + (current + [frame]) == (Frames(done) + current) + [frame];
      if NoEmpty(rx0) {
        FrameOnWire(rx0, done, current, rx, frame, rx');
      }
    }

    /** A sample that fails while running ends the stream without extending the burst in progress. */
    lemma SampleLost(o: Outcome, dacCount: nat, adcCount: nat, burstSize: nat, cancel: seq<bool>, start: seq<Byte>, rx0: Rx,
                     l: Loop, done: seq<Burst>, current: seq<seq<Byte>>, rx: Rx, l': Loop, rx': Rx)
      requires Valid() && Running(dacCount, adcCount, burstSize, cancel, start, rx0, l, done, current, Sent(start, l.cancelled), rx)
      requires l.samplesRead < burstSize && o.Fail?
      requires l'.iterations == l.iterations + 1 && l'.bursts == l.bursts
      requires l'.potiOut == l.potiOut && l'.adcOut == l.adcOut && |l'.dacOut| == dacCount
      requires forall d :: 0 <= d < dacCount ==> Traced(d, l'.dacOut[d])
      requires o != Fail(DivideByZero) ==> l'.dacOut == l.dacOut
      requires o == Fail(DivideByZero) ==>
        Frames(done) + current == [] && exists d :: 0 <= d < dacCount && d < MaxDACStreams && dacBuffers[d].Some? && dacPrescaler[d] == 0
      ensures Ended(o, dacCount, adcCount, burstSize, cancel, start, rx0, l'.dacOut, l'.potiOut, l'.adcOut, l'.bursts, l'.iterations,
                    done, current, Sent(start, CancelSeen(cancel, l.iterations + 1)), rx')
    {
    }

    /**
     * The sampling half of one pass of the streaming loop: send the stop command the
     * first time cancellation is seen, then take one sample.
     */
    method Take(dacCount: nat, adcCount: nat, burstSize: nat, cancel: seq<bool>, ghost start: seq<Byte>, ghost rx0: Rx,
                l: Loop, ghost done: seq<Burst>, ghost current: seq<seq<Byte>>)
      returns (o: Outcome, l': Loop, ghost current': seq<seq<Byte>>)
      requires Valid() && Running(dacCount, adcCount, burstSize, cancel, start, rx0, l, done, current, port.tx, port.rx)
      requires l.samplesRead < burstSize
      modifies port
      ensures port.isOpen == old(port.isOpen) && Weight(port.rx) <= Weight(old(port.rx))
      ensures o == Pass ==>
        Running(dacCount, adcCount, burstSize, cancel, start, rx0, l', done, current', port.tx, port.rx)
        && l'.samplesRead == l.samplesRead + 1
      ensures o.Fail? ==>
        Ended(o, dacCount, adcCount, burstSize, cancel, start, rx0, l'.dacOut, l'.potiOut, l'.adcOut, l'.bursts, l'.iterations,
              done, current', port.tx, port.rx)
    {
      l', current' := l, current;
      if CancelledAt(cancel, l.iterations) && !l.cancelled {
        port.Write([CommandCode(StopStream)]);
        l' := l'.(cancelled := true);
      }
      l' := l'.(iterations := l.iterations + 1);
      assert port.tx == Sent(start, CancelSeen(cancel, l'.iterations));
      ghost var rxFrame := port.rx;
      var frame, dacPos, dacOut, potiOut, adcOut;
      o, frame, dacPos, dacOut, potiOut, adcOut :=
        Sample(dacCount, adcCount, Frames(done) + current, l.dacPos, l.dacOut, l.potiOut, l.adcOut);
      l' := l'.(dacPos := dacPos, dacOut := dacOut, potiOut := potiOut, adcOut := adcOut);
      if o.Fail? {
        SampleLost(o, dacCount, adcCount, burstSize, cancel, start, rx0, l, done, current, rxFrame, l', port.rx);
        return;
      }
      l' := l'.(samplesRead := l.samplesRead + 1);
      Sampled(dacCount, adcCount, burstSize, cancel, start, rx0, l, done, current, rxFrame, l', frame, port.rx);
      current' := current + [frame];
    }

    /** A full burst whose status byte cannot be read ends the stream with a timeout. */
    lemma StatusLost(dacCount: nat, adcCount: nat, burstSize: nat, cancel: seq<bool>, start: seq<Byte>, rx0: Rx,
                     l: Loop, done: seq<Burst>, current: seq<seq<Byte>>, tx: seq<Byte>, rx: Rx)
      requires Valid() && Running(dacCount, adcCount, burstSize, cancel, start, rx0, l, done, current, tx, rx)
      requires l.samplesRead == burstSize && rx == []
      ensures Ended(Fail(Timeout(1, 0)), dacCount, adcCount, burstSize, cancel, start, rx0, l.dacOut, l.potiOut, l.adcOut,
                    l.bursts + 1, l.iterations, done, current, tx, rx)
    {
    }

    /** A full burst followed by `Streaming` closes the burst and keeps the loop running. */
    lemma BurstContinues(dacCount: nat, adcCount: nat, burstSize: nat, cancel: seq<bool>, start: seq<Byte>, rx0: Rx,
                         l: Loop, done: seq<Burst>, current: seq<seq<Byte>>, tx: seq<Byte>, rx: Rx)
      requires Valid() && Running(dacCount, adcCount, burstSize, cancel, start, rx0, l, done, current, tx, rx)
      requires l.samplesRead == burstSize && StatusStep(rx).0 == Ok(ResponseCode(Streaming))
      ensures Running(dacCount, adcCount, burstSize, cancel, start, rx0, l.(samplesRead := 0, bursts := l.bursts + 1),
                      done + [Burst(current, ResponseCode(Streaming))], [], tx, StatusStep(rx).1)
    {
      CloseBurst(done, current, ResponseCode(Streaming));
      if NoEmpty(rx0) {
        StatusOnWire(rx0, done, current, rx);
      }
    }

    /** A full burst followed by any other status closes the burst and ends the stream as the status says. */
    lemma BurstStops(dacCount: nat, adcCount: nat, burstSize: nat, cancel: seq<bool>, start: seq<Byte>, rx0: Rx,
                     l: Loop, done: seq<Burst>, current: seq<seq<Byte>>, tx: seq<Byte>, rx: Rx)
      requires Valid() && Running(dacCount, adcCount, burstSize, cancel, start, rx0, l, done, current, tx, rx)
      requires l.samplesRead == burstSize && StatusStep(rx).0.Ok? && Dispatch(StatusStep(rx).0.value).Stop?
      ensures Ended(Dispatch(StatusStep(rx).0.value).outcome, dacCount, adcCount, burstSize, cancel, start, rx0,
                    l.dacOut, l.potiOut, l.adcOut, l.bursts + 1, l.iterations,
                    done + [Burst(current, StatusStep(rx).0.value)], [], tx, StatusStep(rx).1)
    {
      var status := StatusStep(rx).0.value;
      CloseBurst(done, current, status);
      if NoEmpty(rx0) {
        StatusOnWire(rx0, done, current, rx);
      }
      assert Dispatch(status).outcome != Fail(DivideByZero);
    }

    /**
     * The end of a burst: read the status byte and dispatch it; `stop` is the stream's
     * outcome when the loop ends here.
     */
    method EndBurst(dacCount: nat, adcCount: nat, burstSize: nat, cancel: seq<bool>, ghost start: seq<Byte>, ghost rx0: Rx,
                    l: Loop, ghost done: seq<Burst>, ghost current: seq<seq<Byte>>)
      returns (stop: Option<Outcome>, l': Loop, ghost done': seq<Burst>, ghost current': seq<seq<Byte>>)
      requires Valid() && Running(dacCount, adcCount, burstSize, cancel, start, rx0, l, done, current, port.tx, port.rx)
      requires l.samplesRead == burstSize
      modifies port
      ensures port.isOpen == old(port.isOpen) && Weight(port.rx) <= Weight(old(port.rx))
      ensures stop.None? ==>
        Running(dacCount, adcCount, burstSize, cancel, start, rx0, l', done', current', port.tx, port.rx)
        && l'.samplesRead == 0 && Weight(port.rx) < Weight(old(port.rx))
      ensures stop.Some? ==>
        Ended(stop.value, dacCount, adcCount, burstSize, cancel, start, rx0, l'.dacOut, l'.potiOut, l'.adcOut, l'.bursts, l'.iterations,
              done', current', port.tx, port.rx)
    {
      l', done', current' := l.(samplesRead := 0, bursts := l.bursts + 1), done, current;
      ghost var rxStatus := port.rx;
      var status := ReadByte(port);
      if status.Err? {
        StatusLost(dacCount, adcCount, burstSize, cancel, start, rx0, l, done, current, port.tx, rxStatus);
        return Some(Fail(status.error)), l', done', current';
      }
      done', current' := done + [Burst(current, status.value)], [];
      match Dispatch(status.value)
      case Continue =>
        BurstContinues(dacCount, adcCount, burstSize, cancel, start, rx0, l, done, current, port.tx, rxStatus);
        stop := None;
      case Stop(outcome) =>
        BurstStops(dacCount, adcCount, burstSize, cancel, start, rx0, l, done, current, port.tx, rxStatus);
        stop := Some(outcome);
    }

    /** One pass of the streaming loop; `stop` is the stream's outcome when the loop ends here. */
    method Step(dacCount: nat, adcCount: nat, burstSize: nat, cancel: seq<bool>, ghost start: seq<Byte>, ghost rx0: Rx,
                l: Loop, ghost done: seq<Burst>, ghost current: seq<seq<Byte>>)
      returns (stop: Option<Outcome>, l': Loop, ghost done': seq<Burst>, ghost current': seq<seq<Byte>>)
      requires Valid() && Running(dacCount, adcCount, burstSize, cancel, start, rx0, l, done, current, port.tx, port.rx)
      requires l.samplesRead < burstSize
      modifies port
      ensures port.isOpen == old(port.isOpen) && Weight(port.rx) <= Weight(old(port.rx))
      ensures stop.None? ==>
        Running(dacCount, adcCount, burstSize, cancel, start, rx0, l', done', current', port.tx, port.rx)
        && l'.samplesRead < burstSize
        && (Weight(port.rx) < Weight(old(port.rx)) || l'.samplesRead == l.samplesRead + 1)
      ensures stop.Some? ==>
        Ended(stop.value, dacCount, adcCount, burstSize, cancel, start, rx0, l'.dacOut, l'.potiOut, l'.adcOut, l'.bursts, l'.iterations,
              done', current', port.tx, port.rx)
    {
      var sampled;
      done' := done;
      sampled, l', current' := Take(dacCount, adcCount, burstSize, cancel, start, rx0, l, done, current);
      if sampled.Fail? {
        return Some(sampled), l', done', current';
      }
      if l'.samplesRead == burstSize {
        stop, l', done', current' := EndBurst(dacCount, adcCount, burstSize, cancel, start, rx0, l', done', current');
      } else {
        stop := None;
      }
    }

    /** The streaming loop: passes until one ends the stream. */
    method Stream(dacCount: nat, adcCount: nat, burstSize: nat, cancel: seq<bool>, ghost start: seq<Byte>, ghost rx0: Rx,
                  l: Loop, ghost done: seq<Burst>, ghost current: seq<seq<Byte>>)
      returns (o: Outcome, l': Loop, ghost done': seq<Burst>, ghost current': seq<seq<Byte>>)
      requires Valid() && Running(dacCount, adcCount, burstSize, cancel, start, rx0, l, done, current, port.tx, port.rx)
      requires l.samplesRead < burstSize
      modifies port
      ensures port.isOpen == old(port.isOpen)
      ensures Ended(o, dacCount, adcCount, burstSize, cancel, start, rx0, l'.dacOut, l'.potiOut, l'.adcOut, l'.bursts, l'.iterations,
                    done', current', port.tx, port.rx)
    {
      l', done', current' := l, done, current;
      var stop: Option<Outcome>;
      while true
        invariant port.isOpen == old(port.isOpen)
        invariant Running(dacCount, adcCount, burstSize, cancel, start, rx0, l', done', current', port.tx, port.rx)
        invariant l'.samplesRead < burstSize
        decreases Weight(port.rx), burstSize - l'.samplesRead
      {
        stop, l', done', current' := Step(dacCount, adcCount, burstSize, cancel, start, rx0, l', done', current');
        if stop.Some? {
          break;
        }
      }
      o := stop.value;
    }

    /** After the start frame: given the acknowledgement's outcome, run the streaming loop. */
    method Receive(ack: Outcome, dacCount: nat, adcCount: nat, burstSize: nat, cancel: seq<bool>, ghost start: seq<Byte>, ghost rx0: Rx)
      returns (o: Outcome, dacOut: seq<seq<int>>, potiOut: seq<int>, adcOut: seq<seq<int>>, bursts: nat,
               ghost done: seq<Burst>, ghost current: seq<seq<Byte>>, iterations: nat)
      requires Valid() && dacCount <= MaxDACStreams && 0 < burstSize
      requires port.tx == start && (ack, port.rx) == ExpectStep(rx0, ResponseCode(Ack))
      modifies port
      ensures port.isOpen == old(port.isOpen)
      ensures iterations > 0 ==> ack == Pass
      ensures Ended(o, dacCount, adcCount, burstSize, cancel, start, rx0, dacOut, potiOut, adcOut, bursts, iterations, done, current,
                    port.tx, port.rx)
    {
      dacOut := seq(dacCount, _ => []);
      adcOut := seq(adcCount, _ => []);
      potiOut, bursts, done, current, iterations := [], 0, [], [], 0;
      NothingPushed(dacCount, adcCount);
      if ack.Fail? {
        return ack, dacOut, potiOut, adcOut, bursts, done, current, iterations;
      }
      if NoEmpty(rx0) {
        ExpectConsumes(rx0, ResponseCode(Ack));
        assert Received([], []) == [ResponseCode(Ack)];
      }
      var l := Loop(seq(dacCount, _ => 0), dacOut, [], adcOut, 0, false, 0, 0);
      o, l, done, current := Stream(dacCount, adcCount, burstSize, cancel, start, rx0, l, done, current);
      return o, l.dacOut, l.potiOut, l.adcOut, l.bursts, done, current, l.iterations;
    }

    /** Before the first pass nothing has been pushed. */
    lemma NothingPushed(dacCount: nat, adcCount: nat)
      requires Valid() && dacCount <= MaxDACStreams
      ensures Pushed(dacCount, adcCount, [], seq(dacCount, _ => []), [], seq(adcCount, _ => []))
    {
      forall d | 0 <= d < dacCount
        ensures Traced(d, [])
      {
      }
    }

    /**
     * `StartStream`: resets the outputs, starts the probe and then, sample by sample, reads
     * one frame of `adcCount` bytes and pushes one value into every DAC stream, the
     * potentiometer stream and every ADC stream. After every burst it raises a burst event
     * and reads the status byte. `cancel` reports, per iteration, whether cancellation was
     * requested. `done` holds the completed bursts with their status bytes, `current` the
     * frames of the burst in progress, and `iterations` counts the loop's passes.
     */
    method StartStream(samplesPerSecond: int, dacCount: nat, adcCount: nat, cancel: seq<bool>)
      returns (o: Outcome, dacOut: seq<seq<int>>, potiOut: seq<int>, adcOut: seq<seq<int>>, bursts: nat,
               ghost done: seq<Burst>, ghost current: seq<seq<Byte>>, iterations: nat)
      requires Valid()
      modifies this, port
      ensures Valid() && port.isOpen == old(port.isOpen)
      ensures dacBuffers == old(dacBuffers) && dacPrescaler == old(dacPrescaler)
      ensures samplesPerSecond == 0 ==>
        o == Fail(DivideByZero) && port.tx == old(port.tx) && port.rx == old(port.rx) && iterations == 0 && potiOut == []
      ensures samplesPerSecond != 0 && dacCount > MaxDACStreams ==>
        o == Fail(InvalidOperation) && port.tx == old(port.tx) + DacResets(MaxDACStreams) && port.rx == old(port.rx)
        && iterations == 0 && potiOut == []
      ensures iterations > 0 ==> ExpectStep(old(port.rx), ResponseCode(Ack)).0 == Pass
      // Every stream starts from level 0 and the potentiometer from 0; the stream ends as `Ended` says.
      ensures samplesPerSecond != 0 && dacCount <= MaxDACStreams ==>
        currentPotiValue == 0 && (forall d :: 0 <= d < dacCount ==> currentDacValues[d] == 0)
        && Ended(o, dacCount, adcCount, BurstSize(samplesPerSecond), cancel,
                 old(port.tx) + DacResets(dacCount) + PotiReset() + StartFrame(samplesPerSecond, adcCount), old(port.rx),
                 dacOut, potiOut, adcOut, bursts, iterations, done, current, port.tx, port.rx)
    {
      dacOut := seq(dacCount, _ => []);
      adcOut := seq(adcCount, _ => []);
      potiOut, bursts, done, current, iterations := [], 0, [], [], 0;
      if samplesPerSecond == 0 {
        return Fail(DivideByZero), dacOut, potiOut, adcOut, bursts, done, current, iterations;
      }
      var ack := Prepare(samplesPerSecond, dacCount, adcCount);
      if dacCount > MaxDACStreams {
        return ack, dacOut, potiOut, adcOut, bursts, done, current, iterations;
      }
      o, dacOut, potiOut, adcOut, bursts, done, current, iterations :=
        Receive(ack, dacCount, adcCount, BurstSize(samplesPerSecond), cancel, port.tx, old(port.rx));
    }
  }
}
