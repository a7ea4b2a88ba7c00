/**
 * What the three host streaming engines share: the sample period and burst size derived
 * from the requested rate, the start frame, the cancellation oracle and the dispatch on
 * the status byte that ends every burst.
 */
module StreamSetup {
  import opened Bytes
  import opened Results
  import opened Protocol
  import opened Arith

  function Abs(x: int): nat {
    if x < 0 then -x else x
  }

  /** C#'s `/` on `int`: the quotient rounded toward zero. */
  function TruncDiv(a: int, b: int): (q: int)
    requires b != 0
    ensures a >= 0 && b > 0 ==> q == a / b
    ensures Abs(q) == Abs(a) / Abs(b)
  {
    var m := Abs(a) / Abs(b);
    assert m >= 0 by { DivNonNegative(Abs(a), Abs(b)); }
    if (a < 0) == (b < 0) then m else -m
  }

  lemma DivNonNegative(x: nat, n: nat)
    requires n > 0
    ensures x / n >= 0
  {
  }

  /**
   * The C# division law: the remainder `a - q * b` is smaller than the divisor in
   * magnitude and, unless it is 0, has the dividend's sign.
   */
  lemma TruncDivRemainder(a: int, b: int)
    requires b != 0
    ensures var r := a - TruncDiv(a, b) * b;
      Abs(r) < Abs(b) && (r == 0 || ((r < 0) <==> (a < 0)))
  {
    var m := Abs(a) / Abs(b);
    var rem := Abs(a) % Abs(b);
    EuclidNat(Abs(a), Abs(b));
    SignedProduct(a, b, m);
    assert a - TruncDiv(a, b) * b == (if a < 0 then -rem else rem);
  }

  /** A non-zero quotient is negative exactly when the operands' signs differ. */
  lemma TruncDivSign(a: int, b: int)
    requires b != 0
    ensures var q := TruncDiv(a, b); q == 0 || ((q < 0) <==> ((a < 0) != (b < 0)))
  {
  }

  /** Division and remainder of naturals put the dividend back together. */
  lemma EuclidNat(x: nat, y: nat)
    requires y > 0
    ensures x == (x / y) * y + x % y && 0 <= x % y < y
  {
  }

  /** The truncated quotient times the divisor is the magnitudes' product, signed like the dividend. */
  lemma SignedProduct(a: int, b: int, m: nat)
    requires b != 0 && m == Abs(a) / Abs(b)
    ensures TruncDiv(a, b) * b == (if a < 0 then -(m * Abs(b)) else m * Abs(b))
  {
    var B: int := Abs(b);
    var M: int := m;
    var q := TruncDiv(a, b);
    NegateFactor(M, B);
    if a >= 0 && b > 0 {
      assert q == M && b == B;
    } else if a < 0 && b < 0 {
      assert q == M && b == -B;
    } else if a < 0 {
      assert q == -M && b == B;
    } else {
      assert q == -M && b == -B;
      NegateFactor(M, -B);
    }
  }

  lemma NegateFactor(x: int, y: int)
    ensures (-x) * y == -(x * y) && x * (-y) == -(x * y)
  {
  }

  /** C#'s unchecked cast to `uint`: the value modulo 2^32. */
  function ToUInt(x: int): (u: UInt)
    ensures 0 <= x < 0x1_0000_0000 ==> u == x
    ensures (u - x) % 0x1_0000_0000 == 0
  {
    x % 0x1_0000_0000
  }

  /** `(uint)(1000000 / samplesPerSecond)`: the sample period in microseconds. */
  function StreamDelay(samplesPerSecond: int): (d: UInt)
    requires samplesPerSecond != 0
  {
    ToUInt(TruncDiv(1000000, samplesPerSecond))
  }

  /** `(ushort)Math.Min(Math.Max(1, samplesPerSecond / 10), 300)`: samples per burst, aiming at ten bursts a second. */
  function BurstSize(samplesPerSecond: int): (b: UShort)
    ensures 1 <= b <= 300
  {
    var tenth := TruncDiv(samplesPerSecond, 10);
    if tenth < 1 then 1 else if tenth > 300 then 300 else tenth
  }

  /** For a positive rate the delay is the sample period in whole microseconds, rounded down. */
  lemma DelayIsPeriod(samplesPerSecond: int)
    requires samplesPerSecond > 0
    ensures StreamDelay(samplesPerSecond) * samplesPerSecond <= 1000000 < (StreamDelay(samplesPerSecond) + 1) * samplesPerSecond
  {
    var q := 1000000 / samplesPerSecond;
    assert 1000000 == samplesPerSecond * q + 1000000 % samplesPerSecond;
    MulMono(q, 1, samplesPerSecond);
  }

  /** A negative rate is not rejected: its negative period wraps to a delay of more than an hour. */
  lemma NegativeRateWraps(samplesPerSecond: int)
    requires -1000000 <= samplesPerSecond < 0
    ensures StreamDelay(samplesPerSecond) >= 0x1_0000_0000 - 1000000
  {
    var q := TruncDiv(1000000, samplesPerSecond);
    assert -1000000 <= q < 0 by {
      assert Abs(q) == 1000000 / Abs(samplesPerSecond);
      assert 1000000 / Abs(samplesPerSecond) >= 1;
    }
  }

  /** Between 10 and 3009 samples per second a burst is a tenth of a second; above that it is capped at 300, below at 1. */
  lemma BurstIsTenthOfSecond(samplesPerSecond: int)
    ensures 10 <= samplesPerSecond < 3010 ==> BurstSize(samplesPerSecond) == samplesPerSecond / 10
    ensures samplesPerSecond >= 3000 ==> BurstSize(samplesPerSecond) == 300
    ensures samplesPerSecond < 20 ==> BurstSize(samplesPerSecond) == 1
  {
  }

  /** The worked examples: 1000 samples per second gives bursts of 100 and a 1000 us period; 5000 gives 300 and 200 us. */
  lemma StreamParameterExamples()
    ensures BurstSize(1000) == 100 && StreamDelay(1000) == 1000
    ensures BurstSize(5000) == 300 && StreamDelay(5000) == 200
    ensures BurstSize(1) == 1 && StreamDelay(1) == 1000000
  {
  }

  /** `StartStream`, the channel count as a byte, the delay as a little-endian dword and the burst size as a little-endian word. */
  function StartFrame(samplesPerSecond: int, channels: nat): (f: seq<Byte>)
    requires samplesPerSecond != 0
    ensures |f| == 8
  {
    [CommandCode(StartStream), ToByte(channels)] + DWord(StreamDelay(samplesPerSecond)) + Word(BurstSize(samplesPerSecond))
  }

  /** The probe reading the start frame back with its byte, dword and word readers recovers the parameters. */
  lemma StartFrameDecodes(samplesPerSecond: int, channels: nat)
    requires samplesPerSecond != 0
    ensures var f := StartFrame(samplesPerSecond, channels);
      f[0] == StartStreamCommand
      && f[1] == channels % 0x100
      && DWordValue(f[2], f[3], f[4], f[5]) == StreamDelay(samplesPerSecond)
      && WordValue(f[6], f[7]) == BurstSize(samplesPerSecond)
  {
    var d := DWord(StreamDelay(samplesPerSecond));
    var w := Word(BurstSize(samplesPerSecond));
    var f := StartFrame(samplesPerSecond, channels);
    assert f[2..6] == d && f[6..8] == w;
    DWordRoundTrip(StreamDelay(samplesPerSecond));
    WordRoundTrip(BurstSize(samplesPerSecond));
  }

  /** The cancellation oracle: whether the token reports a cancellation at loop iteration `i`. */
  predicate CancelledAt(cancel: seq<bool>, i: nat) {
    i < |cancel| && cancel[i]
  }

  /** Whether any of the first `m` iterations saw a cancellation. */
  predicate CancelSeen(cancel: seq<bool>, m: nat) {
    m > 0 && (CancelSeen(cancel, m - 1) || CancelledAt(cancel, m - 1))
  }

  lemma {:induction false} CancelSeenExists(cancel: seq<bool>, m: nat)
    ensures CancelSeen(cancel, m) <==> exists i :: 0 <= i < m && CancelledAt(cancel, i)
  {
    if m > 0 {
      CancelSeenExists(cancel, m - 1);
    }
  }

  /** The write log during a streaming loop: what was sent before the loop, then the stop command once cancellation was seen. */
  function Sent(start: seq<Byte>, cancelled: bool): (tx: seq<Byte>)
    ensures |tx| == |start| + (if cancelled then 1 else 0) && tx[..|start|] == start
    ensures cancelled ==> tx[|start|] == CommandCode(StopStream)
  {
    start + (if cancelled then [CommandCode(StopStream)] else [])
  }

  /** What the engines do with a status byte read at the end of a burst. */
  datatype Verdict = Continue | Stop(outcome: Outcome)

  /** Streaming continues; Finish ends the stream normally; ErrorTooFast and any other byte end it with an error. */
  function Dispatch(status: Byte): (v: Verdict)
    ensures v == Continue <==> status == ResponseCode(Streaming)
    ensures v == Stop(Pass) <==> status == ResponseCode(Finish)
    ensures v == Stop(Fail(ThroughputExceeded)) <==> status == ResponseCode(ErrorTooFast)
    ensures v.Stop? && v.outcome.Fail? && v.outcome.error != ThroughputExceeded ==> v.outcome.error == UnexpectedStatus(status)
  {
    if status == ResponseCode(Streaming) then Continue
    else if status == ResponseCode(ErrorTooFast) then Stop(Fail(ThroughputExceeded))
    else if status == ResponseCode(Finish) then Stop(Pass)
    else Stop(Fail(UnexpectedStatus(status)))
  }
}
