/**
 * What both main views do with a DAC before it reaches the probe: the slider clamp,
 * the level/voltage conversions and the 256-entry waveform tables a DAC function
 * uploads. Voltages are exact rationals here; the host computes them in double precision.
 */
module Dac {
  import opened Bytes
  import opened Results

  /** The number of entries in a waveform table. */
  const TableSize: nat := 256
  /** The DAC reference voltage, `VRef` in the views and `DACRef` in the probe connection. */
  const VRef: real := 5.0
  /** `DACmaxValue`, the full-scale divisor the current probe connection scales voltages by. */
  const DacMaxValue: real := 256.0

  /** The waveform a DAC plays: a generated table, or `User` for the slider level. */
  datatype DacFunction = Sine | RampUp | RampDown | Triangle | User

  /** The slider's `Math.Min(Math.Max(0, v), 255)`: the byte nearest to `v`. */
  function Clamp(v: int): (c: Byte)
    ensures 0 <= v <= 255 ==> c == v
    ensures v < 0 ==> c == 0
    ensures v > 255 ==> c == 255
  {
    if v < 0 then 0 else if v > 255 then 255 else v
  }

  /** No byte is closer to `v` than its clamp, and clamping a byte leaves it alone. */
  lemma ClampIsNearest(v: int, b: Byte)
    ensures (if Clamp(v) <= v then v - Clamp(v) else Clamp(v) - v) <= (if b <= v then v - b else b - v)
    ensures Clamp(b) == b && Clamp(Clamp(v)) == Clamp(v)
  {
  }

  /** C#'s unchecked `(byte)` cast of an `int`: the low eight bits of its two's complement. */
  function ByteCast(v: int): (b: Byte)
    ensures 0 <= v < 256 ==> b == v
    ensures -256 <= v < 0 ==> b == v + 256
  {
    v % 256
  }

  /** `x => (byte)x`: entry `x` is `x`. */
  function RampUpTable(): (t: seq<Byte>)
    ensures |t| == TableSize && forall x :: 0 <= x < TableSize ==> t[x] == x
  {
    seq(TableSize, x => ByteCast(x))
  }

  /** `x => (byte)(255 - x)`: entry `x` is `255 - x`. */
  function RampDownTable(): (t: seq<Byte>)
    ensures |t| == TableSize && forall x :: 0 <= x < TableSize ==> t[x] == 255 - x
  {
    seq(TableSize, x => ByteCast(255 - x))
  }

  /**
   * `x => (byte)(x < 128 ? 2 * x : 255 - 2 * x)`. The second half is negative before the
   * cast, which wraps it to `511 - 2x`.
   */
  function TriangleTable(): (t: seq<Byte>)
    ensures |t| == TableSize
    ensures forall x :: 0 <= x < TableSize ==> t[x] == if x < 128 then 2 * x else 511 - 2 * x
  {
    seq(TableSize, x => ByteCast(if x < 128 then 2 * x else 255 - 2 * x))
  }

  /** The ramps mirror each other: entry `x` of one and of the other add up to full scale. */
  lemma RampsMirror()
    ensures forall x :: 0 <= x < TableSize ==> RampDownTable()[x] == RampUpTable()[TableSize - 1 - x]
    ensures forall x :: 0 <= x < TableSize ==> RampUpTable()[x] + RampDownTable()[x] == 255
  {
  }

  /** The triangle climbs in steps of 2 from 0 to 254, jumps to 255 and falls in steps of 2 to 1. */
  lemma TriangleRisesThenFalls()
    ensures TriangleTable()[0] == 0 && TriangleTable()[127] == 254
    ensures TriangleTable()[128] == 255 && TriangleTable()[255] == 1
    ensures forall x :: 0 <= x < 127 ==> TriangleTable()[x + 1] == TriangleTable()[x] + 2
    ensures forall x :: 128 <= x < 255 ==> TriangleTable()[x + 1] == TriangleTable()[x] - 2
  {
    var t := TriangleTable();
    forall x | 0 <= x < 127
      ensures t[x + 1] == t[x] + 2
    {
      assert t[x] == 2 * x && t[x + 1] == 2 * (x + 1);
    }
    forall x | 128 <= x < 255
      ensures t[x + 1] == t[x] - 2
    {
      assert t[x] == 511 - 2 * x && t[x + 1] == 511 - 2 * (x + 1);
    }
  }

  /**
   * The table a function change uploads, or `None` for `User`. The sine entries come from
   * `SineWave256` in floating point and are taken as given.
   */
  function Table(f: DacFunction, sine: seq<Byte>): (t: Option<seq<Byte>>)
    ensures t.None? <==> f == User
    ensures f == Sine ==> t == Some(sine)
    ensures f == RampUp ==> t == Some(RampUpTable())
    ensures f == RampDown ==> t == Some(RampDownTable())
    ensures f == Triangle ==> t == Some(TriangleTable())
  {
    match f
    case Sine => Some(sine)
    case RampUp => Some(RampUpTable())
    case RampDown => Some(RampDownTable())
    case Triangle => Some(TriangleTable())
    case User => None
  }

  /** Every generated table is exactly 256 long, so the probe's length check passes. */
  lemma TablesAreFull(f: DacFunction, sine: seq<Byte>)
    requires f != User && |sine| == TableSize
    ensures |Table(f, sine).value| == TableSize
  {
  }

  /** `DACRawToVoltage`: a level code as a voltage between 0 and `VRef`. */
  function DacRawToVoltage(code: Byte): (v: real)
    ensures 0.0 <= v <= VRef
    ensures code == 0 ==> v == 0.0
    ensures code == 255 ==> v == VRef
  {
    code as real * VRef / 255.0
  }

  /**
   * The current probe connection's `SetDAC` conversion as written: the voltage over the
   * reference, times 256, truncated toward zero. The result is handed to a `(byte)` cast.
   */
  function VoltageToCodeAsWritten(voltage: real): (code: int)
    requires 0.0 <= voltage
    ensures 0 <= code && code as real <= voltage / VRef * DacMaxValue < code as real + 1.0
  {
    (voltage / VRef * DacMaxValue).Floor
  }

  /**
   * A full-scale slider value converts to 256, one past the largest byte; every lower
   * level converts back to itself.
   */
  lemma FullScaleOverflows(c: Byte)
    ensures VoltageToCodeAsWritten(DacRawToVoltage(255)) == 256
    ensures c < 255 ==> VoltageToCodeAsWritten(DacRawToVoltage(c)) == c
  {
    assert DacRawToVoltage(255) / VRef * DacMaxValue == 256.0;
    var x := DacRawToVoltage(c) / VRef * DacMaxValue;
    assert x == c as real * 256.0 / 255.0;
    if c < 255 {
      assert c as real <= x < c as real + 1.0;
    }
  }

  /**
   * The byte `SetDAC` sends for the voltage of `level`, converted as written (scaled by
   * 256). Below full scale that is the level itself; at full scale the conversion gives
   * 256.0, whose cast to a byte C# leaves unspecified, and `overflow` stands for it.
   */
  function SentCode(level: Byte, overflow: Byte): (code: Byte)
    ensures level < 255 ==> code == level
    ensures level == 255 ==> code == overflow
  {
    FullScaleOverflows(level);
    var raw := VoltageToCodeAsWritten(DacRawToVoltage(level));
    if raw < 0x100 then raw else overflow
  }

  /** The conversion scaled by the largest code, 255, so that full scale stays a byte. */
  function VoltageToCode(voltage: real): (code: Byte)
    requires 0.0 <= voltage <= VRef
    ensures code as real <= voltage / VRef * 255.0 < code as real + 1.0
  {
    (voltage / VRef * 255.0).Floor
  }

  /** A level converted to a voltage and back is the level again. */
  lemma VoltageRoundTrip(c: Byte)
    ensures VoltageToCode(DacRawToVoltage(c)) == c
  {
    assert DacRawToVoltage(c) / VRef * 255.0 == c as real;
  }
}
