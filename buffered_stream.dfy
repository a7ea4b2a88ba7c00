/**
 * The circular sample buffer: a fixed array of samples and a write cursor.
 * `Ring` is its abstract state; `BufferedStream` is the class the host uses.
 */
module Data {
  import opened Results
  import opened Arith

  /** A value of the buffer: its slots and the index the next push writes. */
  datatype Ring<T> = Ring(slots: seq<T>, cursor: nat) {
    /** The cursor is a slot index; an empty buffer keeps it at 0. */
    predicate Wf() {
      if |slots| == 0 then cursor == 0 else cursor < |slots|
    }
  }

  /** One iteration of `Push`'s loop: write at the cursor, advance it and wrap at the end. */
  function PushOne<T>(r: Ring<T>, x: T): (r': Ring<T>)
    requires r.Wf() && |r.slots| > 0
    ensures r'.Wf() && |r'.slots| == |r.slots|
  {
    Ring(r.slots[r.cursor := x], if r.cursor + 1 == |r.slots| then 0 else r.cursor + 1)
  }

  /** `Push(items)`: the items pushed one at a time, first to last. */
  function PushAll<T>(r: Ring<T>, items: seq<T>): (r': Ring<T>)
    requires r.Wf() && (items != [] ==> |r.slots| > 0)
    ensures r'.Wf() && |r'.slots| == |r.slots|
    decreases |items|
  {
    if items == [] then r else PushAll(PushOne(r, items[0]), items[1..])
  }

  /** `Last(n)`: the n most recent slots, newest first, walking back from the cursor with wrap-around. */
  function LastOf<T>(r: Ring<T>, n: nat): (s: seq<T>)
    requires r.Wf() && n <= |r.slots|
    ensures |s| == n
  {
    seq(n, k requires 0 <= k < n => r.slots[Back(r.cursor, k + 1, |r.slots|)])
  }

  /** The slot `steps` places behind `c` on a ring of `n` slots (steps <= n). */
  function Back(c: nat, steps: nat, n: nat): (p: nat)
    requires c < n && steps <= n
    ensures p < n || (steps == 0 && p == c)
  {
    if steps <= c then c - steps else c + n - steps
  }

  /** The slot `steps` places ahead of `c` on a ring of `n` slots (steps <= n). */
  function Ahead(c: nat, steps: nat, n: nat): (p: nat)
    requires c < n && steps <= n
    ensures p < n
  {
    if c + steps < n then c + steps else c + steps - n
  }

  /** How many places slot `p` lies ahead of `c` on a ring of `n` slots. */
  function Dist(c: nat, p: nat, n: nat): (d: nat)
    requires c < n && p < n
    ensures d < n
  {
    if c <= p then p - c else p + n - c
  }

  /** Pushing advances the cursor by the number of items, modulo the size, and keeps it in range. */
  lemma {:induction false} PushAllCursor<T>(r: Ring<T>, items: seq<T>)
    requires r.Wf() && |r.slots| > 0
    ensures PushAll(r, items).cursor == (r.cursor + |items|) % |r.slots|
    decreases |items|
  {
    var n := |r.slots|;
    if items == [] {
      ModUnique(r.cursor, n, 0, r.cursor);
    } else {
      var r1 := PushOne(r, items[0]);
      PushAllCursor(r1, items[1..]);
      assert r1.cursor == (r.cursor + 1) % n by {
        if r.cursor + 1 == n { ModUnique(r.cursor + 1, n, 1, 0); } else { ModUnique(r.cursor + 1, n, 0, r.cursor + 1); }
      }
      ModAdd(r.cursor + 1, |items| - 1, n);
    }
  }

  /** `Push(a + b)` is `Push(a)` followed by `Push(b)`: a multi-item push is a series of single pushes. */
  lemma {:induction false} PushAllConcat<T>(r: Ring<T>, a: seq<T>, b: seq<T>)
    requires r.Wf() && (a + b != [] ==> |r.slots| > 0)
    ensures PushAll(r, a + b) == PushAll(PushAll(r, a), b)
    decreases |a|
  {
    if a != [] {
      assert (a + b)[1..] == a[1..] + b;
      PushAllConcat(PushOne(r, a[0]), a[1..], b);
    } else {
      assert a + b == b;
    }
  }

  /**
   * After pushing at most `size` items, slot p holds the item written there if p lies
   * within |items| steps of the old cursor, and is untouched otherwise.
   */
  lemma {:induction false} PushAllSlots<T>(r: Ring<T>, items: seq<T>, p: nat)
    requires r.Wf() && 0 < |r.slots| && |items| <= |r.slots| && p < |r.slots|
    ensures var d := Dist(r.cursor, p, |r.slots|);
      PushAll(r, items).slots[p] == if d < |items| then items[d] else r.slots[p]
    decreases |items|
  {
    var n := |r.slots|;
    if items != [] {
      var m := |items| - 1;
      var front := items[..m];
      PushAllSteps(r, front, items[m]);
      assert items == front + [items[m]];
      PushAllSlots(r, front, p);
      PushAllCursorAhead(r, front);
    }
  }

  /** Fewer than a full ring of pushes moves the cursor `|items|` places ahead. */
  lemma {:induction false} PushAllCursorAhead<T>(r: Ring<T>, items: seq<T>)
    requires r.Wf() && 0 < |r.slots| && |items| <= |r.slots|
    ensures PushAll(r, items).cursor == Ahead(r.cursor, |items|, |r.slots|)
    decreases |items|
  {
    if items != [] {
      PushAllCursorAhead(PushOne(r, items[0]), items[1..]);
    }
  }

  /** Appending one item to a push is one more step. */
  lemma PushAllSteps<T>(r: Ring<T>, front: seq<T>, x: T)
    requires r.Wf() && |r.slots| > 0
    ensures PushAll(r, front + [x]) == PushOne(PushAll(r, front), x)
  {
    PushAllConcat(r, front, [x]);
    var mid := PushAll(r, front);
    assert PushAll(mid, [x]) == PushAll(PushOne(mid, x), []);
  }

  /** Walking `k + 1` places back from `m` places ahead of `c` lands `m - 1 - k` places ahead of `c`. */
  lemma DistBackAhead(c: nat, m: nat, k: nat, n: nat)
    requires c < n && 0 < m <= n && k < m
    ensures Dist(c, Back(Ahead(c, m, n), k + 1, n), n) == m - 1 - k
  {
  }

  /** Entry `k` of the last `|items|` samples after pushing `items` is the item pushed `k` places before the last. */
  lemma LastEntry<T>(r: Ring<T>, items: seq<T>, k: nat)
    requires r.Wf() && 0 < |items| <= |r.slots| && k < |items|
    ensures LastOf(PushAll(r, items), |items|)[k] == items[|items| - 1 - k]
  {
    var n, m := |r.slots|, |items|;
    var r' := PushAll(r, items);
    var c := Ahead(r.cursor, m, n);
    assert r'.cursor == c by { PushAllCursorAhead(r, items); }
    var p := Back(c, k + 1, n);
    assert r'.slots[p] == items[m - 1 - k] by {
      DistBackAhead(r.cursor, m, k, n);
      PushAllSlots(r, items, p);
    }
    assert LastOf(r', m)[k] == r'.slots[p];
  }

  /** Pushing k <= size items and reading the last k gives them back in reverse push order. */
  lemma PushThenLast<T>(r: Ring<T>, items: seq<T>)
    requires r.Wf() && |items| <= |r.slots| && (items != [] ==> |r.slots| > 0)
    ensures LastOf(PushAll(r, items), |items|) == seq(|items|, k requires 0 <= k < |items| => items[|items| - 1 - k])
  {
    var m := |items|;
    if m > 0 {
      var got := LastOf(PushAll(r, items), m);
      var want := seq(m, k requires 0 <= k < m => items[m - 1 - k]);
      forall k | 0 <= k < m
        ensures got[k] == want[k]
      {
        LastEntry(r, items, k);
      }
      assert got == want;
    }
  }

  /** `n` copies of the default value `d`: a freshly allocated or cleared buffer. */
  function Defaults<T>(d: T, n: nat): (s: seq<T>)
    ensures |s| == n && forall k :: 0 <= k < n ==> s[k] == d
  {
    seq(n, _ => d)
  }

  /** After a clear every read returns default samples, wherever the cursor stands. */
  lemma ClearedReadsDefault<T>(d: T, size: nat, cursor: nat, n: nat)
    requires Ring(Defaults(d, size), cursor).Wf() && n <= size
    ensures LastOf(Ring(Defaults(d, size), cursor), n) == Defaults(d, n)
  {
    forall k | 0 <= k < n
      ensures LastOf(Ring(Defaults(d, size), cursor), n)[k] == d
    {
      var p := Back(cursor, k + 1, size);
      assert Defaults(d, size)[p] == d;
    }
  }

  /**
   * The host's `BufferedStream<T>`. `Default` stands for `default(T)`, the value of a
   * fresh or cleared slot.
   */
  class BufferedStream<T> {
    var data: array<T>
    var idx: nat
    const Size: nat
    const Default: T

    ghost predicate Valid()
      reads this
    {
      data.Length == Size && (if Size == 0 then idx == 0 else idx < Size)
    }

    /** The buffer's abstract value. */
    function State(): (r: Ring<T>)
      reads this, data
      requires Valid()
      ensures r.Wf() && |r.slots| == Size
    {
      Ring(data[..], idx)
    }

    /** Allocates `size` default slots; `Size` reports the same number. */
    constructor (size: nat, default: T)
      ensures Valid() && fresh(data)
      ensures Size == size && data.Length == size && Default == default
      ensures State() == Ring(Defaults(default, size), 0)
    {
      data := new T[size](_ => default);
      Size := size;
      Default := default;
      idx := 0;
    }

    /** Writes each item at the cursor, advancing it and wrapping to 0 at the end. */
    method Push(items: seq<T>)
      requires Valid() && (items != [] ==> Size > 0)
      modifies this, data
      ensures Valid() && data == old(data)
      ensures State() == PushAll(old(State()), items)
    {
      ghost var start := State();
      for i := 0 to |items|
        invariant Valid() && data == old(data)
        invariant State() == PushAll(start, items[..i])
      {
        ghost var before := State();
        data[idx] := items[i];
        idx := idx + 1;
        if idx == data.Length {
          idx := 0;
        }
        assert State() == PushOne(before, items[i]) == PushAll(before, [items[i]]);
        assert items[..i + 1] == items[..i] + [items[i]];
        PushAllConcat(start, items[..i], [items[i]]);
      }
      assert items[..|items|] == items;
    }

    /** The `n` most recent samples, newest first; fails if `n` exceeds the size. */
    method Last(n: int) returns (r: Result<seq<T>>)
      requires Valid()
      ensures n > Size ==> r == Err(InvalidOperation)
      ensures n < 0 ==> r == Err(NegativeLength)
      ensures 0 <= n <= Size ==> r == Ok(LastOf(State(), n))
    {
      if n > data.Length {
        return Err(InvalidOperation);
      }
      if n < 0 {
        return Err(NegativeLength);
      }
      var result := new T[n](_ => Default);
      var i := idx;
      for k := 0 to n
        invariant Size > 0 ==> i == Back(idx, k, Size)
        invariant forall j :: 0 <= j < k ==> result[j] == LastOf(State(), n)[j]
      {
        if i == 0 {
          i := data.Length - 1;
        } else {
          i := i - 1;
        }
        result[k] := data[i];
      }
      assert result[..] == LastOf(State(), n);
      return Ok(result[..]);
    }

    /** Resets every slot to the default sample; the cursor stays where it is. */
    method Clear()
      requires Valid()
      modifies data
      ensures Valid() && State() == Ring(Defaults(Default, Size), old(idx))
    {
      for n := 0 to data.Length
        invariant forall j :: 0 <= j < n ==> data[j] == Default
      {
        data[n] := Default;
      }
      assert data[..] == Defaults(Default, Size);
    }
  }
}
