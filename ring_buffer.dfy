/**
  A fixed-capacity circular buffer read through a modular offset
  (src/ring_buffer.rs). The logical view starts at physical slot `reader`
  and wraps around the end of the backing array.
*/
module RingBuffers {
  import opened Options
  import opened Modular

  /** The reader offset after one pop: the optimised modular increment. */
  function NextReader(reader: nat, len: nat): (r: nat)
    requires reader < len
    ensures r < len
    ensures r == (reader + 1) % len
    ensures r == 0 <==> reader == len - 1
  {
    ModOnce(reader + 1, len);
    if reader + 1 == len then 0 else reader + 1
  }

  /** The reader offset after `k` pops, starting from `reader`. */
  function ReaderAfter(reader: nat, len: nat, k: nat): (r: nat)
    requires reader < len
    ensures r < len
  {
    if k == 0 then reader else NextReader(ReaderAfter(reader, len, k - 1), len)
  }

  /** The logical view of `buffer` read from physical slot `reader`. */
  function Rotated<T>(buffer: seq<T>, reader: nat): (v: seq<T>)
    requires reader <= |buffer|
    ensures |v| == |buffer|
  {
    buffer[reader..] + buffer[..reader]
  }

  /** `k` pops move the reader `k` places around the buffer. */
  lemma {:induction false} ReaderAfterIsModular(reader: nat, len: nat, k: nat)
    requires reader < len
    ensures ReaderAfter(reader, len, k) == (reader + k) % len
  {
    if k > 0 {
      ReaderAfterIsModular(reader, len, k - 1);
      var prev := (reader + k - 1) % len;
      assert ReaderAfter(reader, len, k) == (prev + 1) % len;
      ModSucc(reader + k - 1, len);
    }
  }

  /** Popping as many times as the capacity brings the reader back to where it started. */
  lemma PopCycleRestoresReader(reader: nat, len: nat)
    requires reader < len
    ensures ReaderAfter(reader, len, len) == reader
  {
    ReaderAfterIsModular(reader, len, len);
    ModUnique(reader + len, len, 1, reader);
  }

  /**
    Clearing the head slot and stepping the reader shifts the logical view by
    one and puts the cleared value at its end.
  */
  lemma PopShiftsView<T>(buffer: seq<T>, reader: nat, fill: T)
    requires reader < |buffer|
    ensures Rotated(buffer[reader := fill], NextReader(reader, |buffer|))
            == Rotated(buffer, reader)[1..] + [fill]
  {
    var cleared := buffer[reader := fill];
    var next := NextReader(reader, |buffer|);
    if next == 0 {
      assert cleared[next..] == buffer[..reader] + [fill];
      assert Rotated(buffer, reader)[1..] == buffer[..reader];
    } else {
      assert cleared[next..] == buffer[next..];
      assert cleared[..next] == buffer[..reader] + [fill];
      assert Rotated(buffer, reader)[1..] == buffer[next..] + buffer[..reader];
    }
  }

  /** The logical index `index` lives in physical slot `(reader + index) % len`. */
  lemma RotatedAt<T>(buffer: seq<T>, reader: nat, index: nat)
    requires reader < |buffer| && index < |buffer|
    ensures Rotated(buffer, reader)[index] == buffer[(reader + index) % |buffer|]
  {
    ModOnce(reader + index, |buffer|);
    if reader + index >= |buffer| {
      assert Rotated(buffer, reader)[index] == buffer[..reader][reader + index - |buffer|];
    } else {
      assert Rotated(buffer, reader)[index] == buffer[reader..][index];
    }
  }

  class RingBuffer<T> {
    /** The backing storage; it is never resized after construction. */
    var buffer: array<T>
    /** Modular offset of the logical head in `buffer`. */
    var reader: nat
    /** The value `T::default()` that fills the buffer and replaces popped elements. */
    const fill: T

    ghost predicate Valid()
      reads this
    {
      0 < buffer.Length && reader < buffer.Length
    }

    /** The logical contents, head first. */
    ghost function View(): (v: seq<T>)
      reads this, buffer
      requires Valid()
      ensures |v| == buffer.Length
    {
      Rotated(buffer[..], reader)
    }

    constructor Init(capacity: nat, fill: T)
      requires capacity > 0
      ensures Valid() && fresh(buffer)
      ensures reader == 0 && this.fill == fill
      ensures View() == seq(capacity, _ => fill)
    {
      buffer := new T[capacity](_ => fill);
      reader := 0;
      this.fill := fill;
      new;
      assert buffer[..] == seq(capacity, _ => fill);
    }

    /** `with_capacity`: panics on zero capacity, otherwise a buffer of `fill` values. */
    static method WithCapacity(capacity: nat, fill: T) returns (r: Option<RingBuffer<T>>)
      ensures r.None? <==> capacity == 0
      ensures r.Some? ==> fresh(r.value) && fresh(r.value.buffer) && r.value.Valid()
      ensures r.Some? ==> r.value.reader == 0 && r.value.fill == fill
      ensures r.Some? ==> r.value.View() == seq(capacity, _ => fill)
    {
      if capacity == 0 {
        return None;
      }
      var b := new RingBuffer.Init(capacity, fill);
      return Some(b);
    }

    /** Takes out the logical head, leaves `fill` in its slot and rotates the view. */
    method Pop() returns (elem: T)
      requires Valid()
      modifies this`reader, buffer
      ensures Valid()
      ensures elem == old(View())[0]
      ensures buffer[old(reader)] == fill
      ensures reader == NextReader(old(reader), buffer.Length)
      ensures View() == old(View())[1..] + [fill]
      ensures Len() == old(Len())
    {
      ghost var before := buffer[..];
      elem := buffer[reader];
      buffer[reader] := fill;
      assert buffer[..] == before[reader := fill];
      RotatedAt(before, reader, 0);
      PopShiftsView(before, reader, fill);
      reader := reader + 1;
      if reader == buffer.Length {
        reader := 0;
      }
    }

    /** Logical indexing: `None` past the end, otherwise the element at that position of the view. */
    function Get(index: nat): (r: Option<T>)
      reads this, buffer
      requires Valid()
      ensures r.None? <==> index >= buffer.Length
      ensures r.Some? ==> r.value == View()[index]
      ensures r.Some? ==> r.value == buffer[(reader + index) % buffer.Length]
    {
      if index < buffer.Length then
        var i := reader + index;
        if i >= buffer.Length then
          RotatedAt(buffer[..], reader, index);
          Some(buffer[i - buffer.Length])
        else
          RotatedAt(buffer[..], reader, index);
          Some(buffer[i])
      else
        None
    }

    /**
      `get_mut`: the physical slot that a mutable reference to logical index
      `index` points at; it is the slot `Get` reads.
    */
    function GetMut(index: nat): (slot: Option<nat>)
      reads this, buffer
      requires Valid()
      ensures slot.None? <==> index >= buffer.Length
      ensures slot.Some? ==> slot.value == (reader + index) % buffer.Length
      ensures slot.Some? ==> slot.value < buffer.Length && Get(index) == Some(buffer[slot.value])
    {
      if index < buffer.Length then
        var i := reader + index;
        ModOnce(i, buffer.Length);
        if i >= buffer.Length then Some(i - buffer.Length) else Some(i)
      else
        None
    }

    /** Writing `value` through `get_mut(index)`, when it is `Some`. */
    method Store(index: nat, value: T) returns (ok: bool)
      requires Valid()
      modifies buffer
      ensures Valid()
      ensures ok <==> index < buffer.Length
      ensures View() == if ok then old(View())[index := value] else old(View())
    {
      var slot := GetMut(index);
      if slot.None? {
        return false;
      }
      ghost var before := buffer[..];
      buffer[slot.value] := value;
      ok := true;
      forall i | 0 <= i < buffer.Length
        ensures View()[i] == old(View())[index := value][i]
      {
        RotatedAt(buffer[..], reader, i);
        RotatedAt(before, reader, i);
        SlotsDistinct(reader, index, i, buffer.Length);
      }
    }

    function Len(): (n: nat)
      reads this, buffer
      requires Valid()
      ensures n > 0 && n == |View()|
    {
      buffer.Length
    }
  }

  /** Two distinct logical indices resolve to two distinct physical slots. */
  lemma SlotsDistinct(reader: nat, i: nat, j: nat, len: nat)
    requires reader < len && i < len && j < len
    ensures (reader + i) % len == (reader + j) % len <==> i == j
  {
    ModOnce(reader + i, len);
    ModOnce(reader + j, len);
  }
}
