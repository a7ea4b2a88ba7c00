/**
 * The serial link and the host's read/write helpers on it.
 *
 * The port is modelled by what the probe will deliver and what the host has written.
 * `rx` lists the deliveries in order: each entry is the most that one read call can
 * return (bytes that arrived together); an empty entry is a read that returns no
 * byte at all. When `rx` is used up, the next read waits out the read timeout.
 */
module Transport {
  import opened Bytes
  import opened Results
  import Protocol
  import ArrayExtensions

  type Rx = seq<seq<Byte>>

  /** A measure that every consuming read decreases. */
  function Weight(rx: Rx): nat {
    if rx == [] then 0 else |rx[0]| + 1 + Weight(rx[1..])
  }

  /** All bytes still to come, in order. */
  function Flatten(rx: Rx): seq<Byte> {
    if rx == [] then [] else rx[0] + Flatten(rx[1..])
  }

  /** No delivery is empty: a port that never returns a zero-byte read. */
  predicate NoEmpty(rx: Rx) {
    forall i :: 0 <= i < |rx| ==> rx[i] != []
  }

  lemma WeightCons(c: seq<Byte>, t: Rx)
    ensures Weight([c] + t) == |c| + 1 + Weight(t)
    ensures Flatten([c] + t) == c + Flatten(t)
  {
    assert ([c] + t)[1..] == t;
  }

  datatype Delivery = Got(bytes: seq<Byte>) | TimedOut

  /** One `SerialPort.Read(buffer, offset, count)`: up to `count` bytes of the next delivery. */
  function ReadStep(rx: Rx, count: nat): (res: (Delivery, Rx))
    ensures res.0.Got? ==> |res.0.bytes| <= count
    ensures res.0.TimedOut? ==> res.1 == rx
    ensures Weight(res.1) <= Weight(rx)
    ensures res.0.Got? && count > 0 ==> Weight(res.1) < Weight(rx)
  {
    if count == 0 then (Got([]), rx)
    else if rx == [] then (TimedOut, rx)
    else if |rx[0]| <= count then (Got(rx[0]), rx[1..])
    else
      WeightCons(rx[0][count..], rx[1..]);
      (Got(rx[0][..count]), [rx[0][count..]] + rx[1..])
  }

  datatype ByteRead = Value(v: int) | ByteTimedOut

  /** One `SerialPort.ReadByte()`: the next byte, or -1 for a delivery without bytes. */
  function ReadByteStep(rx: Rx): (res: (ByteRead, Rx))
    ensures res.0.Value? ==> -1 <= res.0.v < 0x100
    ensures res.0.ByteTimedOut? <==> rx == []
    ensures res.0.Value? ==> Weight(res.1) < Weight(rx)
  {
    match ReadStep(rx, 1)
    case (TimedOut, rx') => (ByteTimedOut, rx')
    case (Got(bs), rx') => (Value(if bs == [] then -1 else bs[0]), rx')
  }

  /** `ReadAll`: whatever has accumulated, which is the next delivery (empty if none). */
  function ReadAllStep(rx: Rx): (res: (seq<Byte>, Rx))
    ensures Weight(res.1) <= Weight(rx)
  {
    if rx == [] then ([], rx) else (rx[0], rx[1..])
  }

  datatype ReadCount = Count(n: nat) | ReadTimedOut

  /** The serial port: the probe's deliveries still to come, the bytes written, and whether it is open. */
  class Port {
    var rx: Rx
    var tx: seq<Byte>
    var isOpen: bool

    constructor (incoming: Rx)
      ensures rx == incoming && tx == [] && !isOpen
    {
      rx, tx, isOpen := incoming, [], false;
    }

    method Open()
      modifies this
      ensures isOpen && rx == old(rx) && tx == old(tx)
    {
      isOpen := true;
    }

    method Close()
      modifies this
      ensures !isOpen && rx == old(rx) && tx == old(tx)
    {
      isOpen := false;
    }

    method Write(bytes: seq<Byte>)
      modifies this
      ensures tx == old(tx) + bytes && rx == old(rx) && isOpen == old(isOpen)
    {
      tx := tx + bytes;
    }

    /** Reads up to `count` bytes into `buffer[offset..]` and reports how many. */
    method Read(buffer: array<Byte>, offset: nat, count: nat) returns (r: ReadCount)
      requires offset + count <= buffer.Length
      modifies this, buffer
      ensures tx == old(tx) && isOpen == old(isOpen)
      ensures rx == ReadStep(old(rx), count).1
      ensures ReadStep(old(rx), count).0.TimedOut? ==> r.ReadTimedOut? && buffer[..] == old(buffer[..])
      ensures ReadStep(old(rx), count).0.Got? ==>
        var bs := ReadStep(old(rx), count).0.bytes;
        r == Count(|bs|) && buffer[..] == old(buffer[..offset]) + bs + old(buffer[offset + |bs|..])
    {
      var (d, rx') := ReadStep(rx, count);
      rx := rx';
      if d.TimedOut? {
        return ReadTimedOut;
      }
      var bs := d.bytes;
      forall k | 0 <= k < |bs| {
        buffer[offset + k] := bs[k];
      }
      assert buffer[..] == old(buffer[..offset]) + bs + old(buffer[offset + |bs|..]);
      return Count(|bs|);
    }

    method ReadByte() returns (r: ByteRead)
      modifies this
      ensures (r, rx) == ReadByteStep(old(rx)) && tx == old(tx) && isOpen == old(isOpen)
    {
      var (b, rx') := ReadByteStep(rx);
      r, rx := b, rx';
    }

    method ReadAll() returns (bytes: seq<Byte>)
      modifies this
      ensures (bytes, rx) == ReadAllStep(old(rx)) && tx == old(tx) && isOpen == old(isOpen)
    {
      var (bs, rx') := ReadAllStep(rx);
      bytes, rx := bs, rx';
    }
  }

  /**
   * `ReadExactly(n)` from the point where `got` bytes have been read: the do-while
   * that keeps reading while a read returns bytes and fewer than n are in.
   */
  function Fill(rx: Rx, n: nat, got: seq<Byte>): (res: (Result<seq<Byte>>, Rx))
    requires |got| <= n
    ensures res.0.Ok? ==> |res.0.value| == n && res.0.value[..|got|] == got
    ensures res.0.Err? ==> res.0.error.Timeout? && res.0.error.bytesExpected == n && |got| <= res.0.error.bytesRead < n
    ensures Weight(res.1) <= Weight(rx)
    decreases Weight(rx)
  {
    var (d, rx') := ReadStep(rx, n - |got|);
    match d
    case TimedOut => (Err(Timeout(n, |got|)), rx')
    case Got(bs) =>
      var got' := got + bs;
      if |bs| > 0 && |got'| < n then
        var res := Fill(rx', n, got');
        assert got'[..|got|] == got;
        res
      else
        (Ok(got' + Zeros(n - |got'|)), rx')
  }

  /** The next delivery holds exactly the missing bytes: one read completes the buffer. */
  lemma FillLastDelivery(c: seq<Byte>, t: Rx, n: nat, got: seq<Byte>)
    requires |got| + |c| == n && c != [] && NoEmpty(t)
    ensures Fill([c] + t, n, got) == (Ok(got + Flatten([c] + t)[..|c|]), t)
    ensures Flatten(t) == Flatten([c] + t)[|c|..]
  {
    WeightCons(c, t);
    assert ([c] + t)[1..] == t;
    assert got + c + Zeros(0) == got + c;
  }

  /** The next delivery holds more than the missing bytes: the read takes what is missing and leaves the rest. */
  lemma FillSplitDelivery(c: seq<Byte>, t: Rx, n: nat, got: seq<Byte>)
    requires |got| < n && n - |got| < |c| && NoEmpty(t)
    ensures var count := n - |got|;
      Fill([c] + t, n, got) == (Ok(got + Flatten([c] + t)[..count]), [c[count..]] + t)
      && Flatten([c[count..]] + t) == Flatten([c] + t)[count..] && NoEmpty([c[count..]] + t)
  {
    var count := n - |got|;
    var rest := [c[count..]] + t;
    WeightCons(c, t);
    WeightCons(c[count..], t);
    assert ([c] + t)[1..] == t;
    assert ReadStep([c] + t, count) == (Got(c[..count]), rest);
    assert (got + c[..count]) + Zeros(0) == got + c[..count];
    assert Flatten([c] + t)[..count] == c[..count];
    assert Flatten([c] + t)[count..] == c[count..] + Flatten(t);
    assert forall i :: 1 <= i < |rest| ==> rest[i] == t[i - 1];
  }

  /** The next delivery holds fewer than the missing bytes: the read takes all of it and the loop goes round again. */
  lemma FillWholeDelivery(c: seq<Byte>, t: Rx, n: nat, got: seq<Byte>)
    requires c != [] && |got| + |c| < n
    ensures Fill([c] + t, n, got) == Fill(t, n, got + c)
  {
    assert ([c] + t)[1..] == t;
    assert ReadStep([c] + t, n - |got|) == (Got(c), t);
  }

  /** Cutting `c + f` at `k >= |c|` cuts `f` at `k - |c|`. */
  lemma SplitAfter(got: seq<Byte>, c: seq<Byte>, f: seq<Byte>, k: nat)
    requires |c| <= k <= |c| + |f|
    ensures got + (c + f)[..k] == (got + c) + f[..k - |c|]
    ensures (c + f)[k..] == f[k - |c|..]
  {
    assert (c + f)[..k] == c + f[..k - |c|];
  }

  /**
   * With deliveries that are never empty and enough bytes, `ReadExactly` returns the next
   * `n` bytes of the stream however they are split into deliveries.
   */
  lemma {:induction false} FillChunking(rx: Rx, n: nat, got: seq<Byte>)
    requires |got| <= n && NoEmpty(rx) && n - |got| <= |Flatten(rx)|
    ensures Fill(rx, n, got).0 == Ok(got + Flatten(rx)[..n - |got|])
    ensures Flatten(Fill(rx, n, got).1) == Flatten(rx)[n - |got|..]
    ensures NoEmpty(Fill(rx, n, got).1)
    decreases Weight(rx)
  {
    var count := n - |got|;
    if count == 0 {
      assert got + Flatten(rx)[..0] == got;
    } else {
      var c, t := rx[0], rx[1..];
      assert rx == [c] + t;
      if |c| == count {
        FillLastDelivery(c, t, n, got);
      } else if |c| > count {
        FillSplitDelivery(c, t, n, got);
      } else {
        WeightCons(c, t);
        FillWholeDelivery(c, t, n, got);
        FillChunking(t, n, got + c);
        SplitAfter(got, c, Flatten(t), count);
      }
    }
  }

  /**
   * With deliveries that are never empty but too few bytes, `ReadExactly` fails with a
   * timeout that reports every byte that did arrive.
   */
  lemma {:induction false} FillTimeout(rx: Rx, n: nat, got: seq<Byte>)
    requires |got| <= n && NoEmpty(rx) && |Flatten(rx)| < n - |got|
    ensures Fill(rx, n, got).0 == Err(Timeout(n, |got| + |Flatten(rx)|))
    decreases Weight(rx)
  {
    if rx != [] {
      var c := rx[0];
      WeightCons(c, rx[1..]);
      assert rx == [c] + rx[1..];
      FillTimeout(rx[1..], n, got + c);
    }
  }

  /** A read that returns no bytes ends the loop early with a zero-filled tail. */
  lemma FillZeroRead(rest: Rx, n: nat, got: seq<Byte>)
    requires |got| < n
    ensures Fill([[]] + rest, n, got) == (Ok(got + Zeros(n - |got|)), rest)
  {
    assert ([[]] + rest)[1..] == rest;
  }

  /**
   * Delivery one byte at a time and delivery in one piece give the same result:
   * only the byte stream matters while no read comes back empty.
   */
  lemma ReadExactlyChunkingIrrelevant(rx1: Rx, rx2: Rx, n: nat)
    requires NoEmpty(rx1) && NoEmpty(rx2) && Flatten(rx1) == Flatten(rx2)
    ensures Fill(rx1, n, []).0 == Fill(rx2, n, []).0
  {
    if n <= |Flatten(rx1)| {
      FillChunking(rx1, n, []);
      FillChunking(rx2, n, []);
    } else {
      FillTimeout(rx1, n, []);
      FillTimeout(rx2, n, []);
    }
  }

  /** Reading `bs` into a buffer that holds `got` and then zeros leaves `got + bs` and then zeros. */
  lemma ReadIntoZeros(got: seq<Byte>, bs: seq<Byte>, m: nat)
    requires |bs| <= m
    ensures var before := got + Zeros(m);
      before[..|got|] + bs + before[|got| + |bs|..] == got + bs + Zeros(m - |bs|)
  {
    var before := got + Zeros(m);
    assert before[..|got|] == got;
    assert before[|got| + |bs|..] == Zeros(m - |bs|);
  }

  /** A pass of the loop in `Fill` whose read times out fails, reporting the bytes already in. */
  lemma FillTimedOut(rx: Rx, n: nat, got: seq<Byte>)
    requires |got| <= n && ReadStep(rx, n - |got|).0.TimedOut?
    ensures Fill(rx, n, got) == (Err(Timeout(n, |got|)), rx)
  {
  }

  /** A pass of the loop in `Fill` that reads some bytes and still lacks some goes round again. */
  lemma FillGoesOn(rx: Rx, n: nat, got: seq<Byte>, bs: seq<Byte>, rx': Rx)
    requires |got| <= n && ReadStep(rx, n - |got|) == (Got(bs), rx') && |bs| > 0 && |got| + |bs| < n
    ensures Fill(rx, n, got) == Fill(rx', n, got + bs)
  {
  }

  /** A pass of the loop in `Fill` that reads nothing, or the last missing bytes, ends with the zero-padded buffer. */
  lemma FillStops(rx: Rx, n: nat, got: seq<Byte>, bs: seq<Byte>, rx': Rx)
    requires |got| <= n && ReadStep(rx, n - |got|) == (Got(bs), rx') && !(|bs| > 0 && |got| + |bs| < n)
    ensures Fill(rx, n, got) == (Ok(got + bs + Zeros(n - |got| - |bs|)), rx')
  {
  }

  /**
   * One `Read` of the loop in `ReadExactly`, given the step `(d, rx')` the port takes:
   * it asks for the rest of the buffer, and the bytes that come back land right after
   * the `got` bytes already in it.
   */
  method ReadMore(port: Port, buffer: array<Byte>, totalRead: nat, ghost got: seq<Byte>, ghost d: Delivery, ghost rx': Rx)
    returns (read: ReadCount)
    requires totalRead == |got| <= buffer.Length && buffer[..] == got + Zeros(buffer.Length - totalRead)
    requires ReadStep(port.rx, buffer.Length - totalRead) == (d, rx')
    modifies port, buffer
    ensures port.tx == old(port.tx) && port.isOpen == old(port.isOpen) && port.rx == rx'
    ensures read.ReadTimedOut? <==> d.TimedOut?
    ensures d.Got? ==> read == Count(|d.bytes|) && buffer[..] == got + d.bytes + Zeros(buffer.Length - totalRead - |d.bytes|)
  {
    read := port.Read(buffer, totalRead, buffer.Length - totalRead);
    if d.Got? {
      ReadIntoZeros(got, d.bytes, buffer.Length - totalRead);
    }
  }

  /** `ReadExactly(bytes, step)`: a fresh zeroed buffer filled by successive reads. */
  method ReadExactly(port: Port, n: nat) returns (r: Result<seq<Byte>>)
    modifies port
    ensures (r, port.rx) == Fill(old(port.rx), n, [])
    ensures port.tx == old(port.tx) && port.isOpen == old(port.isOpen)
  {
    var buffer := new Byte[n];
    forall i | 0 <= i < n {
      buffer[i] := 0;
    }
    var totalRead: nat := 0;
    ghost var got: seq<Byte> := [];
    var more := true;
    while more
      invariant totalRead == |got| <= n && buffer.Length == n
      invariant buffer[..] == got + Zeros(n - totalRead)
      invariant more ==> Fill(port.rx, n, got) == Fill(old(port.rx), n, [])
      invariant !more ==> (Ok(got + Zeros(n - totalRead)), port.rx) == Fill(old(port.rx), n, [])
      invariant port.tx == old(port.tx) && port.isOpen == old(port.isOpen)
      decreases more, Weight(port.rx)
    {
      ghost var before := port.rx;
      ghost var (d, rx') := ReadStep(before, n - totalRead);
      var read := ReadMore(port, buffer, totalRead, got, d, rx');
      if read.ReadTimedOut? {
        FillTimedOut(before, n, got);
        return Err(Timeout(n, totalRead));
      }
      more := read.n > 0 && totalRead + read.n < n;
      if more {
        FillGoesOn(before, n, got, d.bytes, rx');
      } else {
        FillStops(before, n, got, d.bytes, rx');
      }
      got := got + d.bytes;
      totalRead := totalRead + read.n;
    }
    return Ok(buffer[..]);
  }

  /** Outcome of `ExpectByte`: read one byte; on a mismatch the rest of the pending input is drained for the error report. */
  function ExpectStep(rx: Rx, expected: Byte): (res: (Outcome, Rx))
    ensures res.0 == Pass <==> rx != [] && rx[0] != [] && rx[0][0] == expected
    ensures rx == [] ==> res.0 == Fail(Timeout(1, 0))
    ensures rx != [] && res.0.Fail? ==> res.0.error == UnexpectedByte(expected, if rx[0] == [] then -1 else rx[0][0])
    ensures Weight(res.1) <= Weight(rx)
  {
    match ReadByteStep(rx)
    case (ByteTimedOut, rx') => (Fail(Timeout(1, 0)), rx')
    case (Value(v), rx') =>
      if v == expected then (Pass, rx')
      else (Fail(UnexpectedByte(expected, v)), ReadAllStep(rx').1)
  }

  /** `ExpectByte(expected, step)`. */
  method ExpectByte(port: Port, expected: Byte) returns (o: Outcome)
    modifies port
    ensures (o, port.rx) == ExpectStep(old(port.rx), expected)
    ensures port.tx == old(port.tx) && port.isOpen == old(port.isOpen)
  {
    var response := port.ReadByte();
    if response.ByteTimedOut? {
      return Fail(Timeout(1, 0));
    }
    if response.v != expected {
      var _ := port.ReadAll();
      return Fail(UnexpectedByte(expected, response.v));
    }
    return Pass;
  }

  /** The private `ReadByte(step)`: `(byte)port.ReadByte()`, a timeout becoming an error. */
  function StatusStep(rx: Rx): (res: (Result<Byte>, Rx))
    ensures res.0.Ok? <==> rx != []
    ensures res.0.Err? ==> res.0.error == Timeout(1, 0) && res.1 == rx
    ensures res.0.Ok? ==> res.0.value == (if rx[0] == [] then 0xFF else rx[0][0])
    ensures res.0.Ok? ==> Weight(res.1) < Weight(rx)
  {
    match ReadByteStep(rx)
    case (ByteTimedOut, rx') => (Err(Timeout(1, 0)), rx')
    case (Value(v), rx') => (Ok(ToByte(v)), rx')
  }

  method ReadByte(port: Port) returns (r: Result<Byte>)
    modifies port
    ensures (r, port.rx) == StatusStep(old(port.rx))
    ensures port.tx == old(port.tx) && port.isOpen == old(port.isOpen)
  {
    var response := port.ReadByte();
    if response.ByteTimedOut? {
      return Err(Timeout(1, 0));
    }
    return Ok(ToByte(response.v));
  }

  /** `WriteWord`: the value's two little-endian bytes. */
  method WriteWord(port: Port, v: UShort)
    modifies port
    ensures port.tx == old(port.tx) + Word(v) && port.rx == old(port.rx) && port.isOpen == old(port.isOpen)
  {
    port.Write(Word(v));
  }

  /** `WriteDWord`: the value's four little-endian bytes. */
  method WriteDWord(port: Port, v: UInt)
    modifies port
    ensures port.tx == old(port.tx) + DWord(v) && port.rx == old(port.rx) && port.isOpen == old(port.isOpen)
  {
    port.Write(DWord(v));
  }

  /**
   * `OpenAsync`: open the port, then check that the bytes accumulated while the probe
   * booted end with the welcome bytes; otherwise close the port and fail.
   */
  method Open(port: Port) returns (o: Outcome)
    modifies port
    ensures var boot := ReadAllStep(old(port.rx)).0;
      o == (if ArrayExtensions.EndsWith(boot, Protocol.WelcomeBytes) then Pass else Fail(HandshakeFailed))
    ensures port.isOpen <==> o.Pass?
    ensures port.rx == ReadAllStep(old(port.rx)).1 && port.tx == old(port.tx)
  {
    port.Open();
    var data := port.ReadAll();
    if !ArrayExtensions.EndsWith(data, Protocol.WelcomeBytes) {
      port.Close();
      return Fail(HandshakeFailed);
    }
    return Pass;
  }

  /** A probe whose boot output ends with the welcome bytes passes the handshake, whatever came before. */
  lemma HandshakeAcceptsWelcome(noise: seq<Byte>, rest: Rx)
    ensures ReadAllStep([noise + Protocol.WelcomeBytes] + rest).0 == noise + Protocol.WelcomeBytes
    ensures ArrayExtensions.EndsWith(noise + Protocol.WelcomeBytes, Protocol.WelcomeBytes)
  {
    ArrayExtensions.EndsWithAppended(noise, Protocol.WelcomeBytes);
  }

  /** Fewer boot bytes than the eleven welcome bytes always fail the handshake. */
  lemma HandshakeRejectsShort(boot: seq<Byte>)
    requires |boot| < 11
    ensures !ArrayExtensions.EndsWith(boot, Protocol.WelcomeBytes)
  {
    Protocol.WelcomeBytesValue();
  }
  /** On a port without empty deliveries, an acknowledged `ExpectByte` consumes exactly the expected byte. */
  lemma ExpectConsumes(rx: Rx, expected: Byte)
    requires NoEmpty(rx) && ExpectStep(rx, expected).0 == Pass
    ensures Flatten(rx) == [expected] + Flatten(ExpectStep(rx, expected).1)
    ensures NoEmpty(ExpectStep(rx, expected).1)
  {
    ReadOneConsumes(rx);
  }

  /** On a port without empty deliveries, a successful status read consumes exactly the byte it returns. */
  lemma StatusConsumes(rx: Rx)
    requires NoEmpty(rx) && StatusStep(rx).0.Ok?
    ensures Flatten(rx) == [StatusStep(rx).0.value] + Flatten(StatusStep(rx).1)
    ensures NoEmpty(StatusStep(rx).1)
  {
    ReadOneConsumes(rx);
  }

  /** Reading one byte from a port without empty deliveries takes the first byte of the stream. */
  lemma ReadOneConsumes(rx: Rx)
    requires NoEmpty(rx) && rx != []
    ensures ReadStep(rx, 1).0 == Got([Flatten(rx)[0]])
    ensures Flatten(rx) == [Flatten(rx)[0]] + Flatten(ReadStep(rx, 1).1)
    ensures NoEmpty(ReadStep(rx, 1).1)
  {
    var c := rx[0];
    WeightCons(c, rx[1..]);
    assert rx == [c] + rx[1..];
    if |c| > 1 {
      WeightCons(c[1..], rx[1..]);
      assert c == [c[0]] + c[1..];
      var rest := [c[1..]] + rx[1..];
      assert forall i :: 1 <= i < |rest| ==> rest[i] == rx[i];
    }
  }

  /** On a port without empty deliveries, a successful `ReadExactly(n)` consumes exactly the `n` bytes it returns. */
  lemma FillConsumes(rx: Rx, n: nat)
    requires NoEmpty(rx) && Fill(rx, n, []).0.Ok?
    ensures Flatten(rx) == Fill(rx, n, []).0.value + Flatten(Fill(rx, n, []).1)
    ensures NoEmpty(Fill(rx, n, []).1)
  {
    if n > |Flatten(rx)| {
      FillTimeout(rx, n, []);
    }
    FillChunking(rx, n, []);
    assert [] + Flatten(rx)[..n] == Flatten(rx)[..n];
    assert Flatten(rx) == Flatten(rx)[..n] + Flatten(rx)[n..];
  }
}
