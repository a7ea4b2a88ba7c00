/** The host's array helpers: the suffix test of the handshake and the hex dump of diagnostics. */
module ArrayExtensions {
  import opened Bytes
  import opened Arith

  /** `arr.EndsWith(exp)`: compares from the last element backwards. */
  function EndsWith<T(==)>(arr: seq<T>, exp: seq<T>): (r: bool)
    ensures r <==> |exp| <= |arr| && arr[|arr| - |exp|..] == exp
  {
    if |arr| < |exp| then false
    else
      var r := MatchesFromEnd(arr, exp, 1);
      assert r <==> arr[|arr| - |exp|..] == exp by {
        if r {
          forall i | 0 <= i < |exp| ensures arr[|arr| - |exp|..][i] == exp[i] {
            assert arr[|arr| - |exp| + i] == exp[i];
          }
        }
      }
      r
  }

  /** The loop `for n in [from, |exp|]`: do the n-th elements from the end agree? */
  function MatchesFromEnd<T(==)>(arr: seq<T>, exp: seq<T>, from: nat): (r: bool)
    requires |exp| <= |arr| && 1 <= from
    ensures r <==> forall i :: 0 <= i <= |exp| - from ==> arr[|arr| - |exp| + i] == exp[i]
    decreases |exp| + 1 - from
  {
    if from > |exp| then true
    else if arr[|arr| - from] != exp[|exp| - from] then false
    else MatchesFromEnd(arr, exp, from + 1)
  }

  /** Every sequence ends with the empty sequence. */
  lemma EndsWithEmpty<T>(arr: seq<T>)
    ensures EndsWith(arr, [])
  {
  }

  /** The handshake check: whatever precedes it, a log ending in `s` ends with `s`. */
  lemma EndsWithAppended<T>(p: seq<T>, s: seq<T>)
    ensures EndsWith(p + s, s)
  {
    assert (p + s)[|p + s| - |s|..] == s;
  }

  /** A sequence shorter than the expected suffix never ends with it. */
  lemma EndsWithTooShort<T>(arr: seq<T>, exp: seq<T>)
    requires |arr| < |exp|
    ensures !EndsWith(arr, exp)
  {
  }

  const HexDigits: string := "0123456789abcdef"

  /** `b.ToString("x2")`: the lower-case hex digit of `b / 16`, then that of `b % 16`. */
  function Hex2(b: Byte): (s: string)
    ensures |s| == 2
    ensures s[0] == HexDigits[b / 16] && s[1] == HexDigits[b % 16]
  {
    [HexDigits[b / 16], HexDigits[b % 16]]
  }

  /** What follows byte `n` of a dump: a line break after every eighth byte, else a space. */
  function Separator(n: nat, newLine: string): string {
    if n % 8 == 7 then newLine else " "
  }

  /** The dump of `arr`, built by appending one byte at a time as the loop does. */
  function DumpOf(arr: seq<Byte>, newLine: string): string {
    if arr == [] then ""
    else DumpOf(arr[..|arr| - 1], newLine) + Hex2(arr[|arr| - 1]) + Separator(|arr| - 1, newLine)
  }

  /**
   * `arr.Dump()`. `newLine` stands for `Environment.NewLine`, which `AppendLine`
   * writes and which depends on the platform.
   */
  method Dump(arr: seq<Byte>, newLine: string) returns (s: string)
    ensures s == DumpOf(arr, newLine)
  {
    var str := "";
    for n := 0 to |arr|
      invariant str == DumpOf(arr[..n], newLine)
    {
      assert arr[..n + 1][..n] == arr[..n];
      str := str + Hex2(arr[n]);
      if n < |arr| {
        if n % 8 == 7 {
          str := str + newLine;
        } else {
          str := str + " ";
        }
      }
    }
    assert arr[..|arr|] == arr;
    s := str;
  }

  /** Each byte takes two digits and one separator; every eighth separator is `newLine`. */
  lemma {:induction false} DumpLength(arr: seq<Byte>, newLine: string)
    ensures |DumpOf(arr, newLine)| == 3 * |arr| + (|newLine| - 1) * (|arr| / 8)
  {
    if arr != [] {
      var m := |arr| - 1;
      var extra := |newLine| - 1;
      var prev := |DumpOf(arr[..m], newLine)|;
      assert prev == 3 * m + extra * (m / 8) by {
        DumpLength(arr[..m], newLine);
      }
      assert |DumpOf(arr, newLine)| == prev + 2 + (if m % 8 == 7 then extra + 1 else 1);
      LengthStep(m, extra);
    }
  }

  /** Byte `m` adds two digits and a separator that is `extra` characters longer after every eighth byte. */
  lemma LengthStep(m: nat, extra: int)
    ensures 3 * (m + 1) + extra * ((m + 1) / 8) == 3 * m + extra * (m / 8) + 2 + (if m % 8 == 7 then extra + 1 else 1)
  {
    var q, r := m / 8, m % 8;
    if r == 7 {
      ModUnique(m + 1, 8, q + 1, 0);
      assert extra * (q + 1) == extra * q + extra;
    } else {
      ModUnique(m + 1, 8, q, r + 1);
    }
  }

  /** The empty array dumps to the empty string. */
  lemma DumpEmpty(newLine: string)
    ensures DumpOf([], newLine) == ""
  {
  }

  /** Value of a lower-case hex digit (0 for any other character). */
  function HexValue(c: char): (v: nat)
    ensures v < 16
  {
    if '0' <= c <= '9' then c as int - '0' as int
    else if 'a' <= c <= 'f' then c as int - 'a' as int + 10
    else 0
  }

  /** Reads a dump back: every group of three characters is two digits and a separator. */
  function Undump(s: string): (bs: seq<Byte>)
    decreases |s|
  {
    if |s| < 3 then [] else [16 * HexValue(s[0]) + HexValue(s[1])] + Undump(s[3..])
  }

  lemma HexDigitValue(d: nat)
    requires d < 16
    ensures HexValue(HexDigits[d]) == d
  {
    if d < 8 {
      if d < 4 {
        if d == 0 {} else if d == 1 {} else if d == 2 {} else {}
      } else {
        if d == 4 {} else if d == 5 {} else if d == 6 {} else {}
      }
    } else {
      if d < 12 {
        if d == 8 {} else if d == 9 {} else if d == 10 {} else {}
      } else {
        if d == 12 {} else if d == 13 {} else if d == 14 {} else {}
      }
    }
  }

  /** Reading back the two digits of `b` gives `b`. */
  lemma HexRoundTrip(b: Byte)
    ensures 16 * HexValue(Hex2(b)[0]) + HexValue(Hex2(b)[1]) == b
  {
    HexDigitValue(b / 16);
    HexDigitValue(b % 16);
  }

  lemma {:induction false} UndumpAppend(x: string, y: string)
    requires |x| % 3 == 0
    ensures Undump(x + y) == Undump(x) + Undump(y)
    decreases |x|
  {
    if |x| >= 3 {
      assert (x + y)[3..] == x[3..] + y;
      UndumpAppend(x[3..], y);
    } else {
      assert x == [];
      assert x + y == y;
    }
  }

  /** One byte's group of two digits and a one-character separator reads back as that byte. */
  lemma UndumpGroup(b: Byte, sep: string)
    requires |sep| == 1
    ensures |Hex2(b) + sep| == 3 && Undump(Hex2(b) + sep) == [b]
  {
    var t := Hex2(b) + sep;
    HexRoundTrip(b);
    assert t[0] == Hex2(b)[0] && t[1] == Hex2(b)[1];
    assert t[3..] == [];
  }

  /**
   * With a one-character line break every byte occupies exactly three characters,
   * so the dump can be read back into the bytes it was made from.
   */
  lemma {:induction false} DumpRoundTrip(arr: seq<Byte>, newLine: string)
    requires |newLine| == 1
    ensures |DumpOf(arr, newLine)| == 3 * |arr|
    ensures Undump(DumpOf(arr, newLine)) == arr
  {
    if arr != [] {
      var m := |arr| - 1;
      var prefix := DumpOf(arr[..m], newLine);
      var b := arr[m];
      var group := Hex2(b) + Separator(m, newLine);
      DumpRoundTrip(arr[..m], newLine);
      UndumpGroup(b, Separator(m, newLine));
      assert DumpOf(arr, newLine) == prefix + group;
      UndumpAppend(prefix, group);
      assert arr == arr[..m] + [b];
    }
  }
}
