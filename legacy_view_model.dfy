/**
 * The older main view: DAC sliders that write raw level frames while a stream runs,
 * waveform selectors, and the reset of the displayed data before each stream.
 * Its DAC frames go straight to the probe's port. The probe connection its waveform
 * selectors call (a two-argument `EnableDACBuffer`) is not part of this model, so a
 * selector change is modelled by the request it makes of that connection.
 */
module LegacyView {
  import opened Bytes
  import opened Results
  import opened Protocol
  import opened Transport
  import opened Dac
  import opened Data

  /** `StreamBufferSize`: the samples kept by every data stream. */
  const StreamBufferSize: nat := 3000
  /** The streams: DAC 0 and 1, then ADC 0 to 3. */
  const StreamCount: nat := 6
  /** The line configurations: DAC 0 and 1, then ADC 0 to 2. */
  const LineCount: nat := 5

  /** What a waveform selector asks of the probe connection. */
  datatype DacRequest = EnableBuffer(index: nat, table: seq<Byte>) | DisableBuffer(index: nat)

  /** The `SetDAC0`/`SetDAC1` opcode the slider of DAC `index` writes. */
  function SetDacCode(index: nat): (b: Byte)
    requires index < 2
    ensures b == CommandCode(SetDAC0) + index
  {
    if index == 0 then CommandCode(SetDAC0) else CommandCode(SetDAC1)
  }

  /** The frame a slider writes when `ResetViewData` moves it from `previous` to 0 during a stream. */
  function ResetFrame(index: nat, previous: int): (f: seq<Byte>)
    requires index < 2
    ensures previous == 0 ==> f == []
    ensures previous != 0 ==> f == [SetDacCode(index), 0]
  {
    if previous == 0 then [] else [SetDacCode(index), 0]
  }

  /** No two streams share an array. */
  ghost predicate Distinct(all: seq<BufferedStream<real>>)
    reads all
  {
    forall i, j :: 0 <= i < j < |all| ==> all[i].data != all[j].data
  }

  /** A stream whose array is new keeps the streams distinct when appended. */
  lemma Fresh(all: seq<BufferedStream<real>>, s: BufferedStream<real>)
    requires Distinct(all) && forall i :: 0 <= i < |all| ==> all[i].data != s.data
    ensures Distinct(all + [s])
  {
  }

  class MainViewModel {
    const port: Port
    var isConnected: bool
    var isStreamStarted: bool
    var dacValues: seq<int>
    var dacFunctions: seq<DacFunction>
    /** The current value each line configuration displays, in volts. */
    var lineValues: seq<real>
    const streams: seq<BufferedStream<real>>

    /** The arrays behind the streams, which `ResetViewData` overwrites. */
    ghost function StreamData(): set<object>
      reads this, streams
    {
      set i | 0 <= i < |streams| :: streams[i].data
    }

    ghost predicate Valid()
      reads this, streams
    {
      |dacValues| == 2 && |dacFunctions| == 2 && |lineValues| == LineCount && |streams| == StreamCount
      && (forall i :: 0 <= i < |streams| ==> streams[i].Valid())
      && Distinct(streams)
    }

    /** `new BufferedStream<double>(StreamBufferSize)` appended to the streams made so far. */
    static method AddStream(all: seq<BufferedStream<real>>) returns (all': seq<BufferedStream<real>>)
      requires Distinct(all)
      ensures |all'| == |all| + 1 && all'[..|all|] == all && Distinct(all')
      ensures all'[|all|].Valid() && all'[|all|].State() == Ring(Defaults(0.0, StreamBufferSize), 0)
    {
      var s := new BufferedStream<real>(StreamBufferSize, 0.0);
      Fresh(all, s);
      all' := all + [s];
    }

    /** The six empty streams, made one after another: DAC 0 and 1, then ADC 0 to 3. */
    static method NewStreams() returns (all: seq<BufferedStream<real>>)
      ensures |all| == StreamCount && Distinct(all)
      ensures forall i :: 0 <= i < |all| ==> all[i].Valid() && all[i].State() == Ring(Defaults(0.0, StreamBufferSize), 0)
    {
      all := [];
      while |all| < StreamCount
        invariant |all| <= StreamCount && Distinct(all)
        invariant forall i :: 0 <= i < |all| ==> all[i].Valid() && all[i].State() == Ring(Defaults(0.0, StreamBufferSize), 0)
      {
        all := AddStream(all);
      }
    }

    /** A disconnected view with six empty streams, level 0 and both DACs on `User`. */
    constructor (port: Port)
      ensures Valid() && this.port == port && !isConnected && !isStreamStarted
      ensures dacValues == [0, 0] && dacFunctions == [User, User] && lineValues == [0.0, 0.0, 0.0, 0.0, 0.0]
      ensures forall i :: 0 <= i < |streams| ==> streams[i].State() == Ring(Defaults(0.0, StreamBufferSize), 0)
    {
      var all := NewStreams();
      this.port := port;
      isConnected, isStreamStarted := false, false;
      dacValues, dacFunctions := [0, 0], [User, User];
      lineValues := [0.0, 0.0, 0.0, 0.0, 0.0];
      streams := all;
    }

    /**
     * `OnDAC0ValueChanged`/`OnDAC1ValueChanged`: ignored unless a stream is running;
     * otherwise the clamped level goes out as `[SetDAC0 + index, level]` and the DAC's
     * line shows its voltage.
     */
    method OnDacValueChanged(index: nat, newValue: int)
      requires Valid() && index < 2
      modifies this, port
      ensures Valid() && port.rx == old(port.rx) && port.isOpen == old(port.isOpen)
      ensures dacValues == old(dacValues) && dacFunctions == old(dacFunctions)
      ensures isConnected == old(isConnected) && isStreamStarted == old(isStreamStarted)
      ensures !isStreamStarted ==> port.tx == old(port.tx) && lineValues == old(lineValues)
      ensures isStreamStarted ==>
        port.tx == old(port.tx) + [SetDacCode(index), Clamp(newValue)]
        && lineValues == old(lineValues)[index := DacRawToVoltage(Clamp(newValue))]
    {
      if !isStreamStarted {
        return;
      }
      var level := Clamp(newValue);
      port.Write([SetDacCode(index), level]);
      lineValues := lineValues[index := DacRawToVoltage(level)];
    }

    /** The `DAC0Value`/`DAC1Value` setter: only a changed value reaches the handler. */
    method SetDacValue(index: nat, value: int)
      requires Valid() && index < 2
      modifies this, port
      ensures Valid() && port.rx == old(port.rx) && dacValues == old(dacValues)[index := value]
      ensures dacFunctions == old(dacFunctions)
      ensures isConnected == old(isConnected) && isStreamStarted == old(isStreamStarted)
      ensures value == old(dacValues[index]) || !isStreamStarted ==>
        port.tx == old(port.tx) && lineValues == old(lineValues)
      ensures value != old(dacValues[index]) && isStreamStarted ==>
        port.tx == old(port.tx) + [SetDacCode(index), Clamp(value)]
        && lineValues == old(lineValues)[index := DacRawToVoltage(Clamp(value))]
    {
      if value != dacValues[index] {
        dacValues := dacValues[index := value];
        OnDacValueChanged(index, value);
      }
    }

    /**
     * `OnDacFunctionChanged`: nothing while disconnected; `User` disables the DAC's table,
     * any other function uploads its 256-entry table.
     */
    method OnDacFunctionChanged(index: nat, f: DacFunction, sine: seq<Byte>) returns (r: Option<DacRequest>)
      requires index < 2
      ensures r.None? <==> !isConnected
      ensures isConnected && f == User ==> r == Some(DisableBuffer(index))
      ensures isConnected && f != User ==> r == Some(EnableBuffer(index, Table(f, sine).value))
    {
      if !isConnected {
        return None;
      }
      match f
      case User =>
        r := Some(DisableBuffer(index));
      case _ =>
        r := Some(EnableBuffer(index, Table(f, sine).value));
    }

    /** The `Dac0Function`/`Dac1Function` setter: only a changed function reaches the handler. */
    method SetDacFunction(index: nat, f: DacFunction, sine: seq<Byte>) returns (r: Option<DacRequest>)
      requires Valid() && index < 2
      modifies this
      ensures Valid() && dacFunctions == old(dacFunctions)[index := f]
      ensures dacValues == old(dacValues) && lineValues == old(lineValues) && isConnected == old(isConnected)
      ensures f == old(dacFunctions[index]) ==> r.None?
      ensures f != old(dacFunctions[index]) && isConnected && f != User ==> r == Some(EnableBuffer(index, Table(f, sine).value))
      ensures f != old(dacFunctions[index]) && isConnected && f == User ==> r == Some(DisableBuffer(index))
      ensures !isConnected ==> r.None?
    {
      r := None;
      if f != dacFunctions[index] {
        dacFunctions := dacFunctions[index := f];
        r := OnDacFunctionChanged(index, f, sine);
      }
    }

    /** Overwrites every stream's samples with 0, one stream at a time; cursors stay put. */
    method ClearStreams()
      requires Valid()
      modifies StreamData()
      ensures Valid()
      ensures forall i :: 0 <= i < |streams| ==>
        streams[i].State() == Ring(Defaults(streams[i].Default, streams[i].Size), streams[i].idx)
    {
      for n := 0 to |streams|
        invariant Valid()
        invariant forall i :: 0 <= i < n ==>
          streams[i].State() == Ring(Defaults(streams[i].Default, streams[i].Size), streams[i].idx)
      {
        streams[n].Clear();
      }
    }

    /**
     * `ResetViewData`: both sliders to 0 (which writes a level frame only for a slider
     * that moves while a stream runs), every stream cleared, every line showing 0.
     */
    method ResetViewData()
      requires Valid()
      modifies this, port, StreamData()
      ensures Valid() && port.rx == old(port.rx)
      ensures dacValues == [0, 0] && lineValues == [0.0, 0.0, 0.0, 0.0, 0.0] && dacFunctions == old(dacFunctions)
      ensures isConnected == old(isConnected) && isStreamStarted == old(isStreamStarted)
      ensures !isStreamStarted ==> port.tx == old(port.tx)
      ensures isStreamStarted ==>
        port.tx == old(port.tx) + ResetFrame(0, old(dacValues[0])) + ResetFrame(1, old(dacValues[1]))
      ensures forall i :: 0 <= i < |streams| ==>
        streams[i].State() == Ring(Defaults(streams[i].Default, streams[i].Size), streams[i].idx)
    {
      SetDacValue(0, 0);
      SetDacValue(1, 0);
      ClearStreams();
      lineValues := [0.0, 0.0, 0.0, 0.0, 0.0];
    }
  }
}
