/**
 * The probe firmware's serial link to the host. The serial port's receive buffer holds
 * the bytes that have arrived and not been read; `arriving` lists what the host has
 * still to send, in the chunks in which it will come in. Each `available()` poll first
 * takes in the next chunk, so the firmware's busy-wait loops are loops that end once
 * the host has sent enough.
 */
module Upstream {
  import opened Bytes
  import opened Protocol
  import ArrayExtensions
  import Transport

  /** A prefix of `e + i` stays a prefix when more arrives after `i`. */
  lemma PrefixGrows(x: seq<Byte>, e: seq<Byte>, i: seq<Byte>, i': seq<Byte>)
    requires x <= e + i && i <= i'
    ensures x <= e + i'
  {
    assert i' == i + i'[|i|..];
    assert e + i' == (e + i) + i'[|i|..];
  }

  /** `UPSTREAM_SERIAL`, the hardware serial port the firmware talks to the host on. */
  class Serial {
    var begun: bool
    var baud: nat
    var input: seq<Byte>
    var arriving: seq<seq<Byte>>
    var output: seq<Byte>

    /** Everything the host has sent that the firmware has not read yet, in order. */
    ghost function Pending(): seq<Byte>
      reads this
    {
      input + Transport.Flatten(arriving)
    }

    /** A port before `begin`, with nothing received or sent yet. */
    constructor (arriving: seq<seq<Byte>>)
      ensures !begun && input == [] && this.arriving == arriving && output == []
      ensures Pending() == Transport.Flatten(arriving)
    {
      begun, baud, input, this.arriving, output := false, 0, [], arriving, [];
    }

    /** `available()`: the next chunk, if any, comes in; then the number of bytes waiting. */
    method Available() returns (n: nat)
      modifies this
      ensures n == |input| && Pending() == old(Pending())
      ensures |arriving| == if old(arriving) == [] then 0 else |old(arriving)| - 1
      ensures old(input) <= input
      ensures output == old(output) && begun == old(begun) && baud == old(baud)
    {
      if arriving != [] {
        var chunk := arriving[0];
        assert Transport.Flatten(arriving) == chunk + Transport.Flatten(arriving[1..]);
        input := input + chunk;
        arriving := arriving[1..];
      }
      n := |input|;
    }

    /** `read()` on a port with a byte waiting: the oldest byte. */
    method Read() returns (b: Byte)
      requires input != []
      modifies this
      ensures old(input) == [b] + input && arriving == old(arriving)
      ensures old(Pending()) == [b] + Pending()
      ensures output == old(output) && begun == old(begun) && baud == old(baud)
    {
      b := input[0];
      input := input[1..];
    }

    /** `write(b)`: one byte out. */
    method Put(b: Byte)
      modifies this
      ensures output == old(output) + [b]
      ensures input == old(input) && arriving == old(arriving) && begun == old(begun) && baud == old(baud)
    {
      output := output + [b];
    }

    /** The busy wait `while (available() < count);`, which ends once the host has sent `count` bytes. */
    method WaitFor(count: nat)
      requires |Pending()| >= count
      modifies this
      ensures |input| >= count && Pending() == old(Pending())
      ensures output == old(output) && begun == old(begun) && baud == old(baud)
    {
      var n := Available();
      while n < count
        invariant n == |input| && Pending() == old(Pending())
        invariant output == old(output) && begun == old(begun) && baud == old(baud)
        decreases |arriving|
      {
        assert arriving != [];
        n := Available();
      }
    }

    /** `print(text)`: the text's bytes out, in order; the output then ends with them. */
    method Print(text: seq<Byte>)
      modifies this
      ensures output == old(output) + text && ArrayExtensions.EndsWith(output, text)
      ensures input == old(input) && arriving == old(arriving) && begun == old(begun) && baud == old(baud)
    {
      output := output + text;
      ArrayExtensions.EndsWithAppended(old(output), text);
    }

    /** `upstream_init`: start the port and greet the host with the welcome bytes. */
    method Init(baud: nat)
      modifies this
      ensures begun && this.baud == baud
      ensures output == old(output) + WelcomeBytes
      ensures ArrayExtensions.EndsWith(output, WelcomeBytes)
      ensures input == old(input) && arriving == old(arriving)
    {
      begun, this.baud := true, baud;
      Print(WelcomeBytes);
    }

    /** `upstream_end`. */
    method End()
      modifies this
      ensures !begun && baud == old(baud)
      ensures input == old(input) && arriving == old(arriving) && output == old(output)
    {
      begun := false;
    }

    /** `upstream_readByte`: wait for a byte and take it. */
    method ReadByte() returns (b: Byte)
      requires |Pending()| >= 1
      modifies this
      ensures old(Pending()) == [b] + Pending()
      ensures output == old(output) && begun == old(begun)
    {
      WaitFor(1);
      b := Read();
    }

    /** `upstream_readDWord`: wait for four bytes and assemble them least significant first. */
    method ReadDWord() returns (v: UInt)
      requires |Pending()| >= 4
      modifies this
      ensures old(Pending()) == DWord(v) + Pending()
      ensures v == DWordValue(old(Pending())[0], old(Pending())[1], old(Pending())[2], old(Pending())[3])
      ensures output == old(output) && begun == old(begun)
    {
      WaitFor(4);
      ghost var p := Pending();
      var b0 := Read();
      var b1 := Read();
      var b2 := Read();
      var b3 := Read();
      assert p == [b0, b1, b2, b3] + Pending();
      var value: UInt := b0;
      value := (value + b1 as int * 0x100) % 0x1_0000_0000;
      value := (value + b2 as int * 0x1_0000) % 0x1_0000_0000;
      value := (value + b3 as int * 0x100_0000) % 0x1_0000_0000;
      v := value;
      ShiftsAddUp(b0, b1, b2, b3);
      assert v == DWordValue(b0, b1, b2, b3);
      DWordValueRoundTrip(b0, b1, b2, b3);
      assert p[0] == b0 && p[1] == b1 && p[2] == b2 && p[3] == b3;
    }

    /**
     * `upstream_readWord` as compiled when the right operand of `+` is evaluated first:
     * the first byte read becomes the high byte. C++ leaves the order of the two reads
     * unspecified; `rightToLeft` is the compiler's choice.
     */
    method ReadWordAsWritten(rightToLeft: bool) returns (v: UShort)
      requires |Pending()| >= 2
      modifies this
      ensures var p := old(Pending());
        v == if rightToLeft then WordValue(p[1], p[0]) else WordValue(p[0], p[1])
      ensures old(Pending())[2..] == Pending()
      ensures output == old(output) && begun == old(begun)
    {
      WaitFor(2);
      var first := Read();
      var second := Read();
      if rightToLeft {
        v := second as int + first as int * 0x100;
      } else {
        v := first as int + second as int * 0x100;
      }
    }

    /** `upstream_readWord` with the two reads in sequence: low byte, then high byte. */
    method ReadWord() returns (v: UShort)
      requires |Pending()| >= 2
      modifies this
      ensures old(Pending()) == Word(v) + Pending()
      ensures v == WordValue(old(Pending())[0], old(Pending())[1])
      ensures output == old(output) && begun == old(begun)
    {
      WaitFor(2);
      var lo := Read();
      var hi := Read();
      v := lo as int + hi as int * 0x100;
      WordValueRoundTrip(lo, hi);
    }

    /** `upstream_canReadByte`: whether a byte is waiting after a poll; a byte then reads without waiting. */
    method CanReadByte() returns (r: bool)
      modifies this
      ensures r <==> input != []
      ensures r ==> |Pending()| >= 1
      ensures Pending() == old(Pending()) && output == old(output) && begun == old(begun)
    {
      var n := Available();
      r := n > 0;
    }

    /** `upstream_write`. */
    method Write(value: Byte)
      modifies this
      ensures output == old(output) + [value] && Pending() == old(Pending())
    {
      Put(value);
    }

    /** `upstream_writeWord`: `lowByte`, then `highByte`, the host's little-endian order. */
    method WriteWord(value: UShort)
      modifies this
      ensures output == old(output) + Word(value) && Pending() == old(Pending())
      ensures WordValue(Word(value)[0], Word(value)[1]) == value
    {
      Put(value % 0x100);
      Put(value / 0x100);
      WordRoundTrip(value);
    }

    /**
     * `upstream_dump`: echo bytes while any are waiting. Everything that had arrived is
     * echoed in order, then whatever comes in before a poll finds nothing waiting.
     */
    method Dump() returns (ghost echoed: seq<Byte>)
      modifies this
      ensures output == old(output) + echoed
      ensures old(Pending()) == echoed + Pending()
      ensures old(input) <= echoed && input == []
      ensures begun == old(begun)
    {
      echoed := [];
      var n := Available();
      while n > 0
        invariant n == |input| && output == old(output) + echoed
        invariant old(Pending()) == echoed + Pending()
        invariant old(input) <= echoed + input
        invariant begun == old(begun)
        decreases |Pending()|
      {
        ghost var pending, unread := Pending(), input;
        var b := Read();
        Put(b);
        assert (echoed + [b]) + Pending() == echoed + pending;
        assert (echoed + [b]) + input == echoed + unread;
        echoed := echoed + [b];
        ghost var waiting := input;
        n := Available();
        PrefixGrows(old(input), echoed, waiting, input);
      }
    }
  }

  /** The 32-bit sums in `upstream_readDWord` never wrap: they assemble the little-endian value. */
  lemma ShiftsAddUp(b0: Byte, b1: Byte, b2: Byte, b3: Byte)
    ensures (((b0 + b1 * 0x100) % 0x1_0000_0000 + b2 * 0x1_0000) % 0x1_0000_0000 + b3 * 0x100_0000) % 0x1_0000_0000
      == DWordValue(b0, b1, b2, b3)
  {
  }

  /**
   * The evaluation order decides the result: the host's `WriteWord(1)` sends `[1, 0]`,
   * which reads back as 1 in left-to-right order and as 256 in right-to-left order.
   */
  lemma ReadWordOrderCounterexample()
    ensures Word(1) == [1, 0]
    ensures WordValue(Word(1)[0], Word(1)[1]) == 1
    ensures WordValue(Word(1)[1], Word(1)[0]) == 256
  {
  }
}
