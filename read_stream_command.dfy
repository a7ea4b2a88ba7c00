/**
 * The command object that runs a stream: it sends the start frame, then reads bursts
 * until the probe reports `Finish`. Byte `n` of the run goes to stream `streamIndex`,
 * which steps round-robin over the `k` streams and is carried from one burst to the
 * next. `Cancel`, called from another thread while the command runs, only raises a
 * flag; the loop turns every raised flag into one `StopStream` command and lowers it.
 */
module ReadStream {
  import opened Bytes
  import opened Results
  import opened Protocol
  import opened Transport
  import opened StreamSetup
  import opened Arith
  import LegacyProbe

  /** What stream `i` of `k` receives from `buffer` when the buffer's first byte goes to stream `start`. */
  function Dealt(buffer: seq<Byte>, k: nat, start: nat, i: nat): seq<int>
    requires k > 0
  {
    if buffer == [] then []
    else
      var n := |buffer| - 1;
      Dealt(buffer[..n], k, start, i) + (if (start + n) % k == i then [buffer[n] as int] else [])
  }

  /** `m % k == i` exactly when `m` is `i` plus a multiple of `k`. */
  lemma ResidueIff(m: nat, k: nat, i: nat)
    requires i < k
    ensures m % k == i <==> i <= m && (m - i) % k == 0
  {
    if m % k == i {
      MulMono(k, 0, m / k);
      ModUnique(m - i, k, m / k, 0);
    }
    if i <= m && (m - i) % k == 0 {
      ModUnique(m, k, (m - i) / k, i);
    }
  }

  /** A positive `d` is a multiple of `k` exactly when `d - k` is a non-negative one. */
  lemma ResidueStep(d: nat, k: nat)
    requires k > 0 && d > 0
    ensures d % k == 0 <==> d >= k && (d - k) % k == 0
  {
    if d >= k && (d - k) % k == 0 {
      ModUnique(d, k, (d - k) / k + 1, 0);
    }
    if d % k == 0 {
      DivisibleStep(d, k);
    }
  }

  /** One more byte extends stride `n` exactly when its index is `n` plus a multiple of `k`. */
  lemma {:induction false} StrideSnoc(b: seq<Byte>, x: Byte, k: nat, n: nat)
    requires k > 0
    ensures LegacyProbe.Stride(b + [x], k, n) ==
      LegacyProbe.Stride(b, k, n) + (if n <= |b| && (|b| - n) % k == 0 then [x as int] else [])
    decreases |b| - n
  {
    if n < |b| {
      StrideSnoc(b, x, k, n + k);
      ResidueStep(|b| - n, k);
      assert (b + [x])[n] == b[n];
    } else if n == |b| {
      assert LegacyProbe.Stride(b + [x], k, n + k) == [];
    }
  }

  /**
   * Dealt from stream 0, stream `i` receives the bytes at `i, i + k, i + 2k, ...`: the
   * round-robin loop distributes a burst exactly as the older engine's strided loop does.
   */
  lemma {:induction false} DealtFromZero(buffer: seq<Byte>, k: nat, i: nat)
    requires i < k
    ensures Dealt(buffer, k, 0, i) == LegacyProbe.Stride(buffer, k, i)
  {
    if buffer != [] {
      var n := |buffer| - 1;
      var b := buffer[..n];
      DealtFromZero(b, k, i);
      StrideSnoc(b, buffer[n], k, i);
      assert b + [buffer[n]] == buffer;
      ResidueIff(n, k, i);
    }
  }

  /** The stop commands sent by the first `m` passes: one for each pass that found a cancel request pending. */
  function Stops(cancel: seq<bool>, m: nat): seq<Byte> {
    if m == 0 then [] else Stops(cancel, m - 1) + (if CancelledAt(cancel, m - 1) then [CommandCode(StopStream)] else [])
  }

  /** How many of the first `m` passes found a cancel request pending. */
  function Requests(cancel: seq<bool>, m: nat): nat {
    if m == 0 then 0 else Requests(cancel, m - 1) + (if CancelledAt(cancel, m - 1) then 1 else 0)
  }

  /**
   * Every pending request yields exactly one `StopStream` byte and nothing else is sent;
   * some stop is sent exactly when the older engines would send their single one.
   */
  lemma {:induction false} StopPerRequest(cancel: seq<bool>, m: nat)
    ensures |Stops(cancel, m)| == Requests(cancel, m) <= m
    ensures forall j :: 0 <= j < |Stops(cancel, m)| ==> Stops(cancel, m)[j] == CommandCode(StopStream)
    ensures Requests(cancel, m) > 0 <==> CancelSeen(cancel, m)
  {
    if m > 0 {
      StopPerRequest(cancel, m - 1);
    }
  }

  /** What the probe sends for the passes in `done`; when `finished`, the last one ended with `Finish`. */
  ghost function Received(done: seq<seq<Byte>>, finished: bool): seq<Byte>
    requires finished ==> done != []
  {
    if finished then LegacyProbe.Wire(done[..|done| - 1]) + done[|done| - 1] + [ResponseCode(Finish)]
    else LegacyProbe.Wire(done)
  }

  /**
   * The state after the passes in `done`, each of which pushed its burst of `burst * k`
   * bytes; `start` is what was sent before the loop, `rx0` what the port held before the
   * acknowledgement and `pushed0` what the streams held before the command ran.
   */
  ghost predicate Running(k: nat, burst: nat, cancel: seq<bool>, start: seq<Byte>, rx0: Rx, pushed0: seq<seq<int>>,
                          done: seq<seq<Byte>>, finished: bool, pushed: seq<seq<int>>, tx: seq<Byte>, rx: Rx)
  {
    |pushed0| == k && |pushed| == k
    && (forall j :: 0 <= j < |done| ==> |done[j]| == burst * k)
    && (forall i :: 0 <= i < k ==> pushed[i] == pushed0[i] + LegacyProbe.Strides(done, k, i))
    && tx == start + Stops(cancel, |done|)
    && (finished ==> done != [])
    && (NoEmpty(rx0) ==> NoEmpty(rx) && Flatten(rx0) == [ResponseCode(Ack)] + Received(done, finished) + Flatten(rx))
  }

  /**
   * The state after a pass that failed, `|done| + 1` passes in: the passes in `done`
   * pushed their bursts; the failing one read `last` and the status `final` if it got
   * that far, and pushed nothing.
   */
  ghost predicate Failed(e: Error, k: nat, burst: nat, cancel: seq<bool>, start: seq<Byte>, rx0: Rx, pushed0: seq<seq<int>>,
                         done: seq<seq<Byte>>, final: Option<Byte>, last: seq<Byte>, pushed: seq<seq<int>>, tx: seq<Byte>, rx: Rx)
  {
    |pushed0| == k && |pushed| == k
    && (forall j :: 0 <= j < |done| ==> |done[j]| == burst * k)
    && (forall i :: 0 <= i < k ==> pushed[i] == pushed0[i] + LegacyProbe.Strides(done, k, i))
    && tx == start + Stops(cancel, |done| + 1)
    && (final.None? ==> e.Timeout?)
    && (final.Some? ==> Dispatch(final.value) == Stop(Fail(e)) && |last| == burst * k)
    && (final.Some? && NoEmpty(rx0) ==>
          Flatten(rx0) == [ResponseCode(Ack)] + LegacyProbe.Wire(done) + last + [final.value] + Flatten(rx))
  }

  /** A pass that found no request pending sends nothing; one that found one sends one stop. */
  lemma StopStep(cancel: seq<bool>, start: seq<Byte>, m: nat, requested: bool, tx: seq<Byte>)
    requires requested == CancelledAt(cancel, m)
    requires tx == start + Stops(cancel, m) + (if requested then [CommandCode(StopStream)] else [])
    ensures tx == start + Stops(cancel, m + 1)
  {
  }

  /** A pass that times out leaves the pushed values as they were. */
  lemma Lost(e: Error, k: nat, burst: nat, cancel: seq<bool>, start: seq<Byte>, rx0: Rx, pushed0: seq<seq<int>>,
                 done: seq<seq<Byte>>, pushed: seq<seq<int>>, rx: Rx, tx: seq<Byte>, rx': Rx)
    requires Running(k, burst, cancel, start, rx0, pushed0, done, false, pushed, start + Stops(cancel, |done|), rx)
    requires e.Timeout? && tx == start + Stops(cancel, |done| + 1)
    ensures Failed(e, k, burst, cancel, start, rx0, pushed0, done, None, [], pushed, tx, rx')
  {
  }

  /** A status other than `Streaming` or `Finish` fails the pass before its burst is pushed. */
  lemma Rejected(e: Error, k: nat, burst: nat, cancel: seq<bool>, start: seq<Byte>, rx0: Rx, pushed0: seq<seq<int>>,
                 done: seq<seq<Byte>>, pushed: seq<seq<int>>, rx: Rx, tx: seq<Byte>, buffer: seq<Byte>, status: Byte, rx': Rx)
    requires Running(k, burst, cancel, start, rx0, pushed0, done, false, pushed, start + Stops(cancel, |done|), rx)
    requires tx == start + Stops(cancel, |done| + 1)
    requires |buffer| == burst * k && Dispatch(status) == Stop(Fail(e))
    requires NoEmpty(rx) ==> NoEmpty(rx') && Flatten(rx) == buffer + [status] + Flatten(rx')
    ensures Failed(e, k, burst, cancel, start, rx0, pushed0, done, Some(status), buffer, pushed, tx, rx')
  {
    if NoEmpty(rx0) {
      LegacyProbe.WireStep(rx0, done, rx, buffer, status, rx');
    }
  }

  /** A pass ending in `Streaming` or `Finish` pushes its burst; after `Finish` the loop stops. */
  lemma Pushed(k: nat, burst: nat, cancel: seq<bool>, start: seq<Byte>, rx0: Rx, pushed0: seq<seq<int>>,
               done: seq<seq<Byte>>, pushed: seq<seq<int>>, rx: Rx, tx: seq<Byte>, buffer: seq<Byte>, status: Byte, rx': Rx,
               pushed': seq<seq<int>>)
    requires Running(k, burst, cancel, start, rx0, pushed0, done, false, pushed, start + Stops(cancel, |done|), rx)
    requires tx == start + Stops(cancel, |done| + 1)
    requires |buffer| == burst * k
    requires status == ResponseCode(Streaming) || status == ResponseCode(Finish)
    requires NoEmpty(rx) ==> NoEmpty(rx') && Flatten(rx) == buffer + [status] + Flatten(rx')
    requires |pushed'| == k && forall i :: 0 <= i < k ==> pushed'[i] == pushed[i] + Dealt(buffer, k, 0, i)
    ensures Running(k, burst, cancel, start, rx0, pushed0, done + [buffer], status == ResponseCode(Finish), pushed', tx, rx')
  {
    var done' := done + [buffer];
    assert done'[..|done|] == done;
    PushedValues(k, pushed0, done, pushed, buffer, pushed');
    if NoEmpty(rx0) {
      ReceivedStep(rx0, done, rx, buffer, status, rx');
    }
  }

  /** Pushing a burst dealt from stream 0 appends its stride to every stream. */
  lemma PushedValues(k: nat, pushed0: seq<seq<int>>, done: seq<seq<Byte>>, pushed: seq<seq<int>>, buffer: seq<Byte>,
                     pushed': seq<seq<int>>)
    requires |pushed0| == k && |pushed| == k && |pushed'| == k
    requires forall i :: 0 <= i < k ==> pushed[i] == pushed0[i] + LegacyProbe.Strides(done, k, i)
    requires forall i :: 0 <= i < k ==> pushed'[i] == pushed[i] + Dealt(buffer, k, 0, i)
    ensures forall i :: 0 <= i < k ==> pushed'[i] == pushed0[i] + LegacyProbe.Strides(done + [buffer], k, i)
  {
    var done' := done + [buffer];
    assert done'[..|done|] == done;
    forall i | 0 <= i < k
      ensures pushed'[i] == pushed0[i] + LegacyProbe.Strides(done', k, i)
    {
      DealtFromZero(buffer, k, i);
    }
  }

  /** A burst ending in `Streaming` or `Finish` extends what was received by that burst and status. */
  lemma ReceivedStep(rx0: Rx, done: seq<seq<Byte>>, rx: Rx, buffer: seq<Byte>, status: Byte, rx': Rx)
    requires Flatten(rx0) == [ResponseCode(Ack)] + LegacyProbe.Wire(done) + Flatten(rx)
    requires Flatten(rx) == buffer + [status] + Flatten(rx')
    requires status == ResponseCode(Streaming) || status == ResponseCode(Finish)
    ensures Flatten(rx0) == [ResponseCode(Ack)] + Received(done + [buffer], status == ResponseCode(Finish)) + Flatten(rx')
  {
    LegacyProbe.WireStep(rx0, done, rx, buffer, status, rx');
    var done' := done + [buffer];
    assert done'[..|done|] == done;
    if status == ResponseCode(Finish) {
      LegacyProbe.Assoc([ResponseCode(Ack)], LegacyProbe.Wire(done), buffer, [status]);
    }
  }

  /** The start of every burst finds the round-robin index back at stream 0. */
  lemma Realigned(burst: nat, k: nat)
    requires k > 0
    ensures (0 + burst * k) % k == 0
  {
    ModUnique(burst * k, k, burst, 0);
  }

  class ReadStreamCommand {
    const probe: Port
    ghost const samplesPerSecond: int
    const delayUs: UInt
    const burstSize: UShort
    /** `streams.Length`. */
    const streamCount: nat
    var isRunning: bool
    var cancelRequested: bool
    /** What the command has pushed to each of its streams. */
    var pushed: seq<seq<int>>

    ghost predicate Valid()
      reads this
    {
      samplesPerSecond != 0 && delayUs == StreamDelay(samplesPerSecond)
      && burstSize == BurstSize(samplesPerSecond) && |pushed| == streamCount
    }

    /** The sample period and the burst size from the rate; the streams start out empty. */
    constructor (probe: Port, samplesPerSecond: int, streamCount: nat)
      requires samplesPerSecond != 0
      ensures Valid() && this.probe == probe && this.samplesPerSecond == samplesPerSecond
      ensures this.streamCount == streamCount && pushed == seq(streamCount, _ => [])
      ensures !isRunning && !cancelRequested
    {
      this.probe := probe;
      this.samplesPerSecond := samplesPerSecond;
      this.streamCount := streamCount;
      delayUs := StreamDelay(samplesPerSecond);
      burstSize := BurstSize(samplesPerSecond);
      pushed := seq(streamCount, _ => []);
      isRunning, cancelRequested := false, false;
    }

    /** `new ReadStreamCommand(...)`: a rate of 0 makes the period's division throw. */
    static method Create(probe: Port, samplesPerSecond: int, streamCount: nat) returns (r: Result<ReadStreamCommand>)
      ensures r.Err? <==> samplesPerSecond == 0
      ensures r.Err? ==> r.error == DivideByZero
      ensures r.Ok? ==> fresh(r.value) && r.value.Valid() && r.value.probe == probe
      ensures r.Ok? ==> r.value.samplesPerSecond == samplesPerSecond && r.value.streamCount == streamCount
      ensures r.Ok? ==> !r.value.isRunning && !r.value.cancelRequested && r.value.pushed == seq(streamCount, _ => [])
    {
      if samplesPerSecond == 0 {
        return Err(DivideByZero);
      }
      var c := new ReadStreamCommand(probe, samplesPerSecond, streamCount);
      return Ok(c);
    }

    /** `Cancel`: refused when the command is not running; otherwise it only raises the flag. */
    method Cancel() returns (o: Outcome)
      modifies this
      ensures o == if old(isRunning) then Pass else Fail(InvalidOperation)
      ensures cancelRequested == (old(cancelRequested) || old(isRunning))
      ensures isRunning == old(isRunning) && pushed == old(pushed)
    {
      if !isRunning {
        return Fail(InvalidOperation);
      }
      cancelRequested := true;
      return Pass;
    }

    /**
     * `ValidateStreamingStatusResponse`: read the status byte; `Finish` clears the running
     * flag, `Streaming` changes nothing and any other byte fails.
     */
    method ValidateStreamingStatusResponse() returns (o: Outcome, ghost status: Byte)
      modifies this, probe
      ensures probe.tx == old(probe.tx) && probe.isOpen == old(probe.isOpen)
      ensures cancelRequested == old(cancelRequested) && pushed == old(pushed)
      ensures var (s, rx') := StatusStep(old(probe.rx));
        probe.rx == rx'
        && (s.Err? ==> o == Fail(s.error) && isRunning == old(isRunning))
        && (s.Ok? ==> (status == s.value
              && (Dispatch(status) == Continue ==> o == Pass && isRunning == old(isRunning))
              && (Dispatch(status) == Stop(Pass) ==> o == Pass && !isRunning)
              && (Dispatch(status).Stop? && Dispatch(status).outcome.Fail? ==>
                    o == Dispatch(status).outcome && isRunning == old(isRunning))))
    {
      status := 0;
      var r := ReadByte(probe);
      if r.Err? {
        return Fail(r.error), status;
      }
      var value := r.value;
      status := value;
      if value != ResponseCode(Streaming) {
        if value == ResponseCode(ErrorTooFast) {
          return Fail(ThroughputExceeded), status;
        }
        if value == ResponseCode(Finish) {
          isRunning := false;
          return Pass, status;
        }
        return Fail(UnexpectedStatus(value)), status;
      }
      return Pass, status;
    }

    /** The inner loop: byte `n` goes to the current stream, and the index steps on, wrapping to 0. */
    method Deal(buffer: seq<Byte>, streamIndex: nat) returns (next: nat)
      requires Valid() && (streamCount == 0 ==> buffer == []) && (streamCount > 0 ==> streamIndex < streamCount)
      modifies this
      ensures Valid() && isRunning == old(isRunning) && cancelRequested == old(cancelRequested)
      ensures next == if streamCount > 0 then (streamIndex + |buffer|) % streamCount else streamIndex
      ensures forall i :: 0 <= i < streamCount ==> pushed[i] == old(pushed[i]) + Dealt(buffer, streamCount, streamIndex, i)
    {
      next := streamIndex;
      if streamCount > 0 {
        ModUnique(streamIndex, streamCount, 0, streamIndex);
      }
      for n := 0 to |buffer|
        invariant Valid() && isRunning == old(isRunning) && cancelRequested == old(cancelRequested)
        invariant next == if streamCount > 0 then (streamIndex + n) % streamCount else streamIndex
        invariant forall i :: 0 <= i < streamCount ==>
          pushed[i] == old(pushed[i]) + Dealt(buffer[..n], streamCount, streamIndex, i)
      {
        assert buffer[..n + 1][..n] == buffer[..n];
        ModStep(streamIndex + n, streamCount);
        pushed := pushed[next := pushed[next] + [buffer[n] as int]];
        next := next + 1;
        if next == streamCount {
          next := 0;
        }
      }
      assert buffer[..|buffer|] == buffer;
    }

    /** The cancel check at the top of a pass: a pending request becomes one stop command. */
    method CheckCancel(cancel: seq<bool>, iteration: nat, ghost start: seq<Byte>)
      requires Valid() && isRunning && !cancelRequested && probe.tx == start + Stops(cancel, iteration)
      modifies this, probe
      ensures Valid() && isRunning && !cancelRequested && pushed == old(pushed)
      ensures probe.tx == start + Stops(cancel, iteration + 1)
      ensures probe.rx == old(probe.rx) && probe.isOpen == old(probe.isOpen)
    {
      if CancelledAt(cancel, iteration) {
        var _ := Cancel();
      }
      ghost var requested := cancelRequested;
      if cancelRequested {
        probe.Write([CommandCode(StopStream)]);
        cancelRequested := false;
      }
      StopStep(cancel, start, iteration, requested, probe.tx);
    }

    /** Reading a pass's burst and status; on success they are the next bytes of the stream. */
    method Fetch() returns (got: Result<seq<Byte>>, o: Outcome, ghost status: Byte)
      requires Valid()
      modifies this, probe
      ensures Valid() && cancelRequested == old(cancelRequested) && pushed == old(pushed)
      ensures probe.tx == old(probe.tx) && probe.isOpen == old(probe.isOpen)
      ensures Weight(probe.rx) <= Weight(old(probe.rx))
      ensures got.Err? ==> got.error.Timeout? && isRunning == old(isRunning)
      ensures got.Ok? ==>
        |got.value| == burstSize * streamCount && Weight(probe.rx) < Weight(old(probe.rx))
        && (NoEmpty(old(probe.rx)) ==> NoEmpty(probe.rx) && Flatten(old(probe.rx)) == got.value + [status] + Flatten(probe.rx))
        && (o == Pass <==> status == ResponseCode(Streaming) || status == ResponseCode(Finish))
        && (isRunning <==> old(isRunning) && status != ResponseCode(Finish))
        && (o.Fail? ==> Dispatch(status) == Stop(o))
    {
      ghost var rx := probe.rx;
      status := 0;
      got := ReadExactly(probe, burstSize * streamCount);
      if got.Err? {
        return got, Pass, status;
      }
      o, status := ValidateStreamingStatusResponse();
      if o.Fail? && o.error.Timeout? {
        return Err(o.error), o, status;
      }
      if NoEmpty(rx) {
        LegacyProbe.BurstConsumes(rx, burstSize * streamCount, got.value, status, probe.rx);
      }
    }

    /** One pass of `Execute`'s loop; `failure` is the error it throws, if any. */
    method Step(cancel: seq<bool>, iteration: nat, ghost start: seq<Byte>, ghost rx0: Rx,
                ghost pushed0: seq<seq<int>>, ghost done: seq<seq<Byte>>)
      returns (failure: Option<Error>, next: nat, ghost done': seq<seq<Byte>>, ghost final: Option<Byte>, ghost last: seq<Byte>)
      requires Valid() && isRunning && !cancelRequested && iteration == |done|
      requires Running(streamCount, burstSize, cancel, start, rx0, pushed0, done, false, pushed, probe.tx, probe.rx)
      modifies this, probe
      ensures Valid() && !cancelRequested && probe.isOpen == old(probe.isOpen) && next == 0
      ensures failure.None? ==> Weight(probe.rx) < Weight(old(probe.rx)) && |done'| == |done| + 1
      ensures failure.None? ==> Running(streamCount, burstSize, cancel, start, rx0, pushed0, done', !isRunning, pushed, probe.tx, probe.rx)
      ensures failure.Some? ==> isRunning && done' == done
      ensures failure.Some? ==> Failed(failure.value, streamCount, burstSize, cancel, start, rx0, pushed0, done, final, last, pushed, probe.tx, probe.rx)
    {
      failure, done', final, last, next := None, done, None, [], 0;
      CheckCancel(cancel, iteration, start);
      ghost var rx := probe.rx;
      var buffer, o, status := Fetch();
      if buffer.Err? {
        Lost(buffer.error, streamCount, burstSize, cancel, start, rx0, pushed0, done, pushed, rx, probe.tx, probe.rx);
        return Some(buffer.error), next, done', final, last;
      }
      if o.Fail? {
        Rejected(o.error, streamCount, burstSize, cancel, start, rx0, pushed0, done, pushed, rx, probe.tx,
                 buffer.value, status, probe.rx);
        return Some(o.error), next, done', Some(status), buffer.value;
      }
      ghost var before := pushed;
      next := Deal(buffer.value, 0);
      if streamCount > 0 {
        Realigned(burstSize, streamCount);
      }
      Pushed(streamCount, burstSize, cancel, start, rx0, pushed0, done, before, rx, probe.tx, buffer.value, status,
             probe.rx, pushed);
      done' := done + [buffer.value];
    }

    /** The start frame, then the acknowledgement. */
    method Start() returns (o: Outcome)
      requires Valid()
      modifies probe
      ensures probe.tx == old(probe.tx) + StartFrame(samplesPerSecond, streamCount)
      ensures (o, probe.rx) == ExpectStep(old(probe.rx), ResponseCode(Ack))
      ensures probe.isOpen == old(probe.isOpen)
    {
      probe.Write([CommandCode(StartStream)]);
      probe.Write([ToByte(streamCount)]);
      WriteDWord(probe, delayUs);
      WriteWord(probe, burstSize);
      o := ExpectByte(probe, ResponseCode(Ack));
    }

    /** The loop: passes while the command is running. */
    method Stream(cancel: seq<bool>, ghost start: seq<Byte>, ghost rx0: Rx)
      returns (o: Outcome, ghost done: seq<seq<Byte>>, ghost final: Option<Byte>, ghost last: seq<Byte>)
      requires Valid() && probe.tx == start
      requires NoEmpty(rx0) ==> NoEmpty(probe.rx) && Flatten(rx0) == [ResponseCode(Ack)] + Flatten(probe.rx)
      modifies this, probe
      ensures Valid() && probe.isOpen == old(probe.isOpen) && !cancelRequested
      ensures o == Pass ==> !isRunning
      ensures o == Pass ==> Running(streamCount, burstSize, cancel, start, rx0, old(pushed), done, true, pushed, probe.tx, probe.rx)
      ensures o.Fail? ==> isRunning
      ensures o.Fail? ==> Failed(o.error, streamCount, burstSize, cancel, start, rx0, old(pushed), done, final, last, pushed, probe.tx, probe.rx)
    {
      done, final, last := [], None, [];
      var streamIndex: nat := 0;
      var iteration: nat := 0;
      cancelRequested := false;
      isRunning := true;
      while isRunning
        invariant Valid() && !cancelRequested && streamIndex == 0 && iteration == |done|
        invariant probe.isOpen == old(probe.isOpen)
        invariant Running(streamCount, burstSize, cancel, start, rx0, old(pushed), done, !isRunning, pushed, probe.tx, probe.rx)
        decreases Weight(probe.rx)
      {
        var failure;
        failure, streamIndex, done, final, last := Step(cancel, iteration, start, rx0, old(pushed), done);
        if failure.Some? {
          return Fail(failure.value), done, final, last;
        }
        iteration := iteration + 1;
      }
      o := Pass;
    }

    /**
     * `Execute`: send the start frame and wait for the acknowledgement, then run passes
     * while the command is running. A failed pass leaves the running flag raised.
     */
    method Execute(cancel: seq<bool>)
      returns (o: Outcome, ghost done: seq<seq<Byte>>, ghost final: Option<Byte>, ghost last: seq<Byte>)
      requires Valid()
      modifies this, probe
      ensures Valid() && probe.isOpen == old(probe.isOpen)
      ensures var acked := ExpectStep(old(probe.rx), ResponseCode(Ack));
        var start := old(probe.tx) + StartFrame(samplesPerSecond, streamCount);
        (acked.0.Fail? ==> (o == acked.0 && probe.rx == acked.1 && probe.tx == start
           && isRunning == old(isRunning) && cancelRequested == old(cancelRequested) && pushed == old(pushed)))
        && (acked.0 == Pass && o == Pass ==> (!isRunning && !cancelRequested
              && Running(streamCount, burstSize, cancel, start, old(probe.rx), old(pushed), done, true, pushed, probe.tx, probe.rx)))
        && (acked.0 == Pass && o.Fail? ==> (isRunning && !cancelRequested
              && Failed(o.error, streamCount, burstSize, cancel, start, old(probe.rx), old(pushed), done, final, last,
                        pushed, probe.tx, probe.rx)))
    {
      done, final, last := [], None, [];
      ghost var rx0 := probe.rx;
      o := Start();
      if o.Fail? {
        return;
      }
      if NoEmpty(rx0) {
        ExpectConsumes(rx0, ResponseCode(Ack));
      }
      o, done, final, last := Stream(cancel, probe.tx, rx0);
    }
  }
}
