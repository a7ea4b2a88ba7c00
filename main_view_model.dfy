/**
 * The current main view: the DAC sliders and waveform selectors as they drive the probe
 * connection, and the channel configurations it keeps for its data streams.
 */
module MainView {
  import opened Bytes
  import opened Results
  import opened Protocol
  import opened Transport
  import opened Dac
  import Probe

  /** `PrescalerDac0`: DAC 0 holds each table entry for 4 samples. */
  const PrescalerDac0: Byte := 4
  /** `PrescalerDac1`: DAC 1 holds each table entry for 2 samples. */
  const PrescalerDac1: Byte := 2
  /** `StreamBufferSize`: the samples kept by every data stream. */
  const StreamBufferSize: nat := 3000

  /** The prescaler the waveform selector of DAC `index` passes on. */
  function Prescaler(index: nat): (p: Byte)
    requires index < Probe.MaxDACStreams
    ensures p > 0 && p == if index == 0 then PrescalerDac0 else PrescalerDac1
  {
    if index == 0 then PrescalerDac0 else PrescalerDac1
  }

  /** The channel a data stream or a configuration describes. */
  datatype Channel = DacChannel(n: nat) | AdcChannel(n: nat) | PotiChannel

  /** A channel's display configuration: its channel, value range and unit (its colour is left out). */
  datatype ChannelConfig = ChannelConfig(channel: Channel, minValue: int, maxValue: int, unit: string)

  /** The data streams in the order they are registered: the DAC streams, the ADC streams, then the potentiometer. */
  function StreamLayout(dacChannels: nat, adcChannels: nat): (s: seq<Channel>)
    ensures |s| == dacChannels + adcChannels + 1
    ensures forall n :: 0 <= n < dacChannels ==> s[n] == DacChannel(n)
    ensures forall n :: 0 <= n < adcChannels ==> s[dacChannels + n] == AdcChannel(n)
    ensures s[dacChannels + adcChannels] == PotiChannel
  {
    seq(dacChannels, n requires 0 <= n => DacChannel(n)) + seq(adcChannels, n requires 0 <= n => AdcChannel(n)) + [PotiChannel]
  }

  /** `InitializeNewChannelConfigurations`: one configuration per data stream, 0–5 V for DAC and ADC, 0–10 kOhm for the potentiometer. */
  function NewChannelConfigurations(dacChannels: nat, adcChannels: nat): (c: seq<ChannelConfig>)
    ensures |c| == |StreamLayout(dacChannels, adcChannels)|
    ensures forall i :: 0 <= i < |c| ==> c[i].channel == StreamLayout(dacChannels, adcChannels)[i]
    ensures forall i :: 0 <= i < |c| ==>
      c[i] == if c[i].channel.PotiChannel? then ChannelConfig(PotiChannel, 0, 10, "kOhm") else ChannelConfig(c[i].channel, 0, 5, "V")
  {
    var layout := StreamLayout(dacChannels, adcChannels);
    seq(|layout|, i requires 0 <= i < |layout| =>
      if layout[i].PotiChannel? then ChannelConfig(PotiChannel, 0, 10, "kOhm") else ChannelConfig(layout[i], 0, 5, "V"))
  }

  /**
   * `InitializeChannels`: the stored configurations when there are exactly as many as data
   * streams, fresh ones otherwise. `None` stands for an empty setting or one that does not
   * deserialise, both of which lead to fresh configurations.
   */
  function InitialConfigurations(stored: Option<seq<ChannelConfig>>, dacChannels: nat, adcChannels: nat): (c: seq<ChannelConfig>)
    ensures |c| == |StreamLayout(dacChannels, adcChannels)|
    ensures c == stored.value <== stored.Some? && |stored.value| == dacChannels + adcChannels + 1
    ensures c == NewChannelConfigurations(dacChannels, adcChannels) <== !(stored.Some? && |stored.value| == dacChannels + adcChannels + 1)
  {
    if stored.Some? && |stored.value| == dacChannels + adcChannels + 1 then stored.value
    else NewChannelConfigurations(dacChannels, adcChannels)
  }

  /** A stored list of the wrong length is never used: fresh configurations describe the streams in order. */
  lemma MismatchedCountIsReset(stored: seq<ChannelConfig>, dacChannels: nat, adcChannels: nat)
    requires |stored| != dacChannels + adcChannels + 1
    ensures forall i :: 0 <= i < |StreamLayout(dacChannels, adcChannels)| ==>
      InitialConfigurations(Some(stored), dacChannels, adcChannels)[i].channel == StreamLayout(dacChannels, adcChannels)[i]
  {
  }

  class MainViewModel {
    const probe: Probe.ProbeConnection
    var isConnected: bool
    var dacValues: seq<int>
    var dacFunctions: seq<DacFunction>
    const configurations: seq<ChannelConfig>

    ghost predicate Valid()
      reads this, probe
    {
      probe.Valid() && |dacValues| == Probe.MaxDACStreams && |dacFunctions| == Probe.MaxDACStreams
    }

    /** A disconnected view at level 0 with both DACs on `User`, configured from the stored settings. */
    constructor (probe: Probe.ProbeConnection, stored: Option<seq<ChannelConfig>>, dacChannels: nat, adcChannels: nat)
      requires probe.Valid()
      ensures Valid() && this.probe == probe && !isConnected
      ensures dacValues == [0, 0] && dacFunctions == [User, User]
      ensures configurations == InitialConfigurations(stored, dacChannels, adcChannels)
    {
      this.probe := probe;
      isConnected := false;
      dacValues := [0, 0];
      dacFunctions := [User, User];
      configurations := InitialConfigurations(stored, dacChannels, adcChannels);
    }

    /**
     * `OnDAC0ValueChanged`/`OnDAC1ValueChanged`: the slider value is clamped to a byte,
     * turned into a voltage and handed to `SetDAC`, which records it and sends the byte
     * that voltage converts to. Below full scale that byte is the clamped level; at full
     * scale it is whatever the unspecified conversion of 256.0 gives, `overflow`.
     */
    method OnDacValueChanged(index: nat, newValue: int, overflow: Byte)
      requires Valid() && index < Probe.MaxDACStreams
      modifies probe, probe.port
      ensures Valid() && probe.port.rx == old(probe.port.rx) && probe.port.isOpen == old(probe.port.isOpen)
      ensures probe.currentDacValues == old(probe.currentDacValues)[index := Clamp(newValue)]
      ensures Clamp(newValue) < 255 ==>
        probe.port.tx == old(probe.port.tx) + [CommandCode(SetDAC0) + index, Clamp(newValue)]
      ensures Clamp(newValue) == 255 ==>
        probe.port.tx == old(probe.port.tx) + [CommandCode(SetDAC0) + index, overflow]
      ensures probe.dacBuffers == old(probe.dacBuffers) && probe.dacPrescaler == old(probe.dacPrescaler)
      ensures probe.currentPotiValue == old(probe.currentPotiValue)
    {
      var level := Clamp(newValue);
      var o := probe.SetDAC(index, level, overflow);
    }

    /** The `DAC0Value`/`DAC1Value` setter: a new value is stored and sent; the same value again sends nothing. */
    method SetDacValue(index: nat, value: int, overflow: Byte)
      requires Valid() && index < Probe.MaxDACStreams
      modifies this, probe, probe.port
      ensures Valid() && dacValues == old(dacValues)[index := value] && probe.port.rx == old(probe.port.rx)
      ensures isConnected == old(isConnected) && dacFunctions == old(dacFunctions)
      ensures probe.port.isOpen == old(probe.port.isOpen) && probe.currentPotiValue == old(probe.currentPotiValue)
      ensures probe.dacBuffers == old(probe.dacBuffers) && probe.dacPrescaler == old(probe.dacPrescaler)
      ensures value == old(dacValues[index]) ==>
        probe.port.tx == old(probe.port.tx) && probe.currentDacValues == old(probe.currentDacValues)
      ensures value != old(dacValues[index]) ==>
        probe.currentDacValues == old(probe.currentDacValues)[index := Clamp(value)]
      ensures value != old(dacValues[index]) && Clamp(value) < 255 ==>
        probe.port.tx == old(probe.port.tx) + [CommandCode(SetDAC0) + index, Clamp(value)]
      ensures value != old(dacValues[index]) && Clamp(value) == 255 ==>
        probe.port.tx == old(probe.port.tx) + [CommandCode(SetDAC0) + index, overflow]
    {
      if value != dacValues[index] {
        dacValues := dacValues[index := value];
        OnDacValueChanged(index, value, overflow);
      }
    }

    /**
     * `OnDacFunctionChanged`: nothing happens while disconnected; `User` switches the DAC
     * back to its level; any other function uploads its table with the given prescaler.
     */
    method OnDacFunctionChanged(index: nat, prescaler: Byte, f: DacFunction, sine: seq<Byte>) returns (o: Outcome)
      requires Valid() && index < Probe.MaxDACStreams
      modifies probe, probe.port
      ensures Valid() && probe.port.isOpen == old(probe.port.isOpen)
      ensures probe.currentDacValues == old(probe.currentDacValues) && probe.currentPotiValue == old(probe.currentPotiValue)
      ensures !isConnected ==>
        o == Pass && probe.port.tx == old(probe.port.tx) && probe.port.rx == old(probe.port.rx)
        && probe.dacBuffers == old(probe.dacBuffers) && probe.dacPrescaler == old(probe.dacPrescaler)
      ensures isConnected && f == User ==>
        probe.port.tx == old(probe.port.tx) + [CommandCode(DisableDAC0Buffer) + index]
        && probe.dacBuffers == old(probe.dacBuffers)[index := None]
        && probe.dacPrescaler == old(probe.dacPrescaler)[index := 0]
        && (o, probe.port.rx) == ExpectStep(old(probe.port.rx), ResponseCode(Ack))
      ensures isConnected && f != User && |Table(f, sine).value| == TableSize ==>
        probe.port.tx == old(probe.port.tx) + [CommandCode(SetDAC0Buffer) + index, prescaler] + Table(f, sine).value
        && probe.dacBuffers == old(probe.dacBuffers)[index := Table(f, sine)]
        && probe.dacPrescaler == old(probe.dacPrescaler)[index := prescaler]
        && (o, probe.port.rx) == ExpectStep(old(probe.port.rx), ResponseCode(Ack))
      ensures isConnected && f == Sine && |sine| != TableSize ==>
        o == Fail(InvalidOperation) && probe.port.tx == old(probe.port.tx) && probe.port.rx == old(probe.port.rx)
    {
      if !isConnected {
        return Pass;
      }
      match f
      case User =>
        o := probe.DisableDACBuffer(index);
      case _ =>
        o := probe.EnableDACBuffer(index, prescaler, Table(f, sine).value);
    }

    /**
     * The `Dac0Function`/`Dac1Function` setter: a changed function is stored and applied
     * with the DAC's own prescaler, 4 for DAC 0 and 2 for DAC 1.
     */
    method SetDacFunction(index: nat, f: DacFunction, sine: seq<Byte>) returns (o: Outcome)
      requires Valid() && index < Probe.MaxDACStreams
      modifies this, probe, probe.port
      ensures Valid() && dacFunctions == old(dacFunctions)[index := f]
      ensures isConnected == old(isConnected) && dacValues == old(dacValues)
      ensures probe.port.isOpen == old(probe.port.isOpen)
      ensures probe.currentDacValues == old(probe.currentDacValues) && probe.currentPotiValue == old(probe.currentPotiValue)
      ensures f == old(dacFunctions[index]) || !isConnected ==>
        o == Pass && probe.port.tx == old(probe.port.tx) && probe.port.rx == old(probe.port.rx)
        && probe.dacBuffers == old(probe.dacBuffers) && probe.dacPrescaler == old(probe.dacPrescaler)
      ensures f != old(dacFunctions[index]) && isConnected && f == User ==>
        probe.port.tx == old(probe.port.tx) + [CommandCode(DisableDAC0Buffer) + index]
        && probe.dacBuffers == old(probe.dacBuffers)[index := None]
        && probe.dacPrescaler == old(probe.dacPrescaler)[index := 0]
        && (o, probe.port.rx) == ExpectStep(old(probe.port.rx), ResponseCode(Ack))
      ensures f != old(dacFunctions[index]) && isConnected && f != User && |Table(f, sine).value| == TableSize ==>
        probe.port.tx == old(probe.port.tx) + [CommandCode(SetDAC0Buffer) + index, Prescaler(index)] + Table(f, sine).value
        && probe.dacBuffers == old(probe.dacBuffers)[index := Table(f, sine)]
        && probe.dacPrescaler == old(probe.dacPrescaler)[index := Prescaler(index)]
        && (o, probe.port.rx) == ExpectStep(old(probe.port.rx), ResponseCode(Ack))
      ensures f != old(dacFunctions[index]) && isConnected && f == Sine && |sine| != TableSize ==>
        o == Fail(InvalidOperation) && probe.port.tx == old(probe.port.tx) && probe.port.rx == old(probe.port.rx)
    {
      o := Pass;
      if f != dacFunctions[index] {
        dacFunctions := dacFunctions[index := f];
        o := OnDacFunctionChanged(index, Prescaler(index), f, sine);
      }
    }
  }
}
