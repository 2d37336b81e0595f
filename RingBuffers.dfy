/** The ring buffer of the Sphynx core utilities: a fixed-size FIFO queue
    whose size is a power of two. */
module RingBuffers {
  import opened Bits

  /** `RingBuffer<T, buffsize>` with buffsize = 2^sizeLog: `buffer`, `head`
      (the dequeue index), `tail` (the enqueue index) and `mask`. One slot is
      always left free, so it holds at most buffsize - 1 elements. */
  class RingBuffer<T> {
    const sizeLog: nat
    const buffer: array<T>
    var head: nat
    var tail: nat
    /** The queued elements, oldest first. */
    ghost var contents: seq<T>

    /** `buffsize`: a positive power of two that fits in size_t. */
    function Capacity(): (r: nat)
      ensures r == Pow2(sizeLog) && r >= 1
    {
      Pow2(sizeLog)
    }

    /** `buffsize - 1`. */
    function Mask(): nat
    {
      Pow2(sizeLog) - 1
    }

    /** Index j of the unrolled queue, wrapped once around the buffer. */
    function Slot(j: nat): nat
    {
      if j < Capacity() then j else j - Capacity()
    }

    /** The number of queued elements: tail - head, wrapped once. */
    function Distance(): int
      reads this
    {
      if head <= tail then tail - head else tail + Capacity() - head
    }

    ghost predicate Valid()
      reads this, buffer
    {
      && sizeLog < 64
      && buffer.Length == Capacity()
      && head < Capacity() && tail < Capacity()
      && |contents| == Distance()
      && forall i :: 0 <= i < |contents| ==> contents[i] == buffer[Slot(head + i)]
    }

    /** The default-constructed buffer: every slot holds T's default value,
        head and tail are 0. */
    constructor (sizeLog: nat, init: T)
      requires sizeLog < 64
      ensures this.sizeLog == sizeLog && Valid() && contents == [] && fresh(buffer)
    {
      this.sizeLog := sizeLog;
      buffer := new T[Pow2(sizeLog)](_ => init);
      head, tail := 0, 0;
      contents := [];
    }

    /** `Clear()`: head and tail back to 0; the slots keep their values. */
    method Clear()
      requires Valid()
      modifies this
      ensures Valid() && contents == [] && head == 0 && tail == 0
    {
      head, tail := 0, 0;
      contents := [];
    }

    /** `Size()`: `(tail - head) & mask` in size_t arithmetic. */
    function Size(): (r: nat)
      requires Valid()
      reads this, buffer
      ensures r == |contents| && r < Capacity()
    {
      MaskedDifference(tail - head, sizeLog);
      SmallMod(tail - head, Capacity());
      LowBits((tail - head) % SizeModulus, sizeLog)
    }

    /** `IsFull()`: advancing the tail would meet the head. */
    function IsFull(): (r: bool)
      requires Valid()
      reads this, buffer
      ensures r <==> Size() == Capacity() - 1
    {
      NextIndex(tail) == head
    }

    /** `IsEmpty()`: head and tail coincide. */
    function IsEmpty(): (r: bool)
      requires Valid()
      reads this, buffer
      ensures r <==> Size() == 0
    {
      head == tail
    }

    /** `(i + 1) & mask` for an index below buffsize. */
    function NextIndex(i: nat): (r: nat)
      requires sizeLog < 64 && i < Capacity()
      ensures r == Slot(i + 1)
    {
      LowBitsIsMod(i + 1, sizeLog);
      SmallMod(i + 1, Capacity());
      LowBits(i + 1, sizeLog)
    }

    /** `Enqueue(element)`: refused (false, nothing changed) exactly when
        buffsize - 1 elements are queued; otherwise the element joins the
        back of the queue. */
    method Enqueue(element: T) returns (ok: bool)
      requires Valid()
      modifies this, buffer
      ensures Valid()
      ensures ok <==> old(|contents|) < Capacity() - 1
      ensures ok ==> contents == old(contents) + [element]
      ensures !ok ==> contents == old(contents) && unchanged(this) && unchanged(buffer)
    {
      var currentTail := tail;
      var nextTail := NextIndex(currentTail);
      if nextTail == head {
        return false;
      }
      // The queued elements occupy the slots from head up to, not including, tail.
      assert Slot(head + |contents|) == currentTail;
      forall i | 0 <= i < |contents|
        ensures contents[i] == buffer[Slot(head + i)] && Slot(head + i) != currentTail
      {
      }
      ghost var before := contents;
      buffer[currentTail] := element;
      tail := nextTail;
      contents := contents + [element];
      forall i | 0 <= i < |contents|
        ensures contents[i] == buffer[Slot(head + i)]
      {
        if i < |before| {
          assert contents[i] == before[i];
        } else {
          assert Slot(head + i) == currentTail;
        }
      }
      ok := true;
    }

    /** `Dequeue(element)`: false with `element` untouched when empty;
        otherwise the oldest element is handed out and leaves the queue. */
    method Dequeue(element: T) returns (ok: bool, out: T)
      requires Valid()
      modifies this
      ensures Valid()
      ensures ok <==> old(contents) != []
      ensures ok ==> out == old(contents[0]) && contents == old(contents[1..])
      ensures !ok ==> out == element && contents == old(contents) && unchanged(this)
    {
      var currentHead := head;
      if currentHead == tail {
        return false, element;
      }
      ghost var before := contents;
      out := buffer[currentHead];
      assert out == before[0];
      head := NextIndex(currentHead);
      contents := contents[1..];
      forall i | 0 <= i < |contents|
        ensures contents[i] == buffer[Slot(head + i)]
      {
        assert contents[i] == before[i + 1];
        assert Slot(head + i) == Slot(currentHead + (i + 1));
      }
      ok := true;
    }
  }

  /** A value less than d away from 0 is reduced modulo d by adding d at
      most once. */
  lemma SmallMod(x: int, d: nat)
    requires d >= 1 && 0 - d < x <= d
    ensures x % d == if x < 0 then x + d else if x == d then 0 else x
  {
    if x < 0 {
      DivModUnique(x, d, -1, x + d);
    } else if x == d {
      DivModUnique(x, d, 1, 0);
    } else {
      DivModUnique(x, d, 0, x);
    }
  }
}
