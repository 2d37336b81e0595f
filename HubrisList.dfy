/** `Hubris::List<T>`: a growable array that reports a Result code instead of
    throwing, with an explicit invalid state. Elements are values; `malloc`
    succeeding or failing is the parameter `mallocOk`. */
module HubrisList {
  import opened Bits

  /** `List<T>::Result`. */
  datatype Result = Success | OutOfMemory | OutOfRange | InvalidArgument

  datatype Option<T> = None | Some(value: T)

  /** SIZE_MAX, the largest `size_t`. */
  const SizeMax: nat := SizeModulus - 1

  /** `sizeof(T)`, which is never 0. */
  type ElementSize = n: nat | 1 <= n witness 1

  /** The contents after inserting `v` before position `pos`. */
  function Inserted<T>(s: seq<T>, pos: nat, v: T): (r: seq<T>)
    requires pos <= |s|
    ensures |r| == |s| + 1 && r[pos] == v
    ensures forall k :: 0 <= k < pos ==> r[k] == s[k]
    ensures forall k :: pos < k < |r| ==> r[k] == s[k - 1]
  {
    s[..pos] + [v] + s[pos..]
  }

  /** The contents after removing the element at `pos`. */
  function Erased<T>(s: seq<T>, pos: nat): (r: seq<T>)
    requires pos < |s|
    ensures |r| == |s| - 1
    ensures forall k :: 0 <= k < pos ==> r[k] == s[k]
    ensures forall k :: pos <= k < |r| ==> r[k] == s[k + 1]
  {
    s[..pos] + s[pos + 1..]
  }

  /** The contents after resizing to `count`, new slots holding `value`. */
  function Resized<T>(s: seq<T>, count: nat, value: T): (r: seq<T>)
    ensures |r| == count
    ensures forall k :: 0 <= k < count && k < |s| ==> r[k] == s[k]
    ensures forall k :: |s| <= k < count ==> r[k] == value
  {
    if count <= |s| then s[..count] else s + seq(count - |s|, _ => value)
  }

  /** Removing what was just inserted gives the original contents back. */
  lemma {:induction false} EraseUndoesInsert<T>(s: seq<T>, pos: nat, v: T)
    requires pos <= |s|
    ensures Erased(Inserted(s, pos, v), pos) == s
  {
    var r := Erased(Inserted(s, pos, v), pos);
    assert |r| == |s|;
    forall k | 0 <= k < |s|
      ensures r[k] == s[k]
    {
      if k >= pos {
        assert r[k] == Inserted(s, pos, v)[k + 1];
      }
    }
  }

  /** Re-inserting the erased element where it was restores the contents. */
  lemma {:induction false} InsertUndoesErase<T>(s: seq<T>, pos: nat)
    requires pos < |s|
    ensures Inserted(Erased(s, pos), pos, s[pos]) == s
  {
    var r := Inserted(Erased(s, pos), pos, s[pos]);
    assert |r| == |s|;
    forall k | 0 <= k < |s|
      ensures r[k] == s[k]
    {
      if k > pos {
        assert r[k] == Erased(s, pos)[k - 1];
      }
    }
  }

  /** Shrinking and then growing back keeps exactly the common prefix. */
  lemma ResizeKeepsPrefix<T>(s: seq<T>, count: nat, value: T)
    requires count <= |s|
    ensures Resized(Resized(s, count, value), |s|, value) == s[..count] + seq(|s| - count, _ => value)
  {
    var r := Resized(Resized(s, count, value), |s|, value);
    var t := s[..count] + seq(|s| - count, _ => value);
    assert |r| == |t|;
    forall k | 0 <= k < |s|
      ensures r[k] == t[k]
    {
      if k >= count {
        assert t[k] == seq(|s| - count, _ => value)[k - count];
      }
    }
  }

  /** The element loops of `uninitialized_copy`/`uninitialized_move` and
      of the constructing loops: `items` stored at the front of `dst`. */
  method StoreAll<T>(dst: array<T>, items: seq<T>)
    requires |items| <= dst.Length
    modifies dst
    ensures forall k :: 0 <= k < |items| ==> dst[k] == items[k]
    ensures forall k :: |items| <= k < dst.Length ==> dst[k] == old(dst[k])
  {
    var i := 0;
    while i < |items|
      invariant i <= |items|
      invariant forall k :: 0 <= k < i ==> dst[k] == items[k]
      invariant forall k :: |items| <= k < dst.Length ==> dst[k] == old(dst[k])
    {
      dst[i] := items[i];
      i := i + 1;
    }
  }

  /** The constructing loops of `resize` and `assign`: slots `from` up to
      `to` hold `value`, the others are untouched. */
  method FillRange<T>(dst: array<T>, from: nat, to: nat, value: T)
    requires from <= to <= dst.Length
    modifies dst
    ensures forall k :: from <= k < to ==> dst[k] == value
    ensures forall k :: 0 <= k < dst.Length && !(from <= k < to) ==> dst[k] == old(dst[k])
  {
    var i := from;
    while i < to
      invariant from <= i <= to
      invariant forall k :: from <= k < i ==> dst[k] == value
      invariant forall k :: 0 <= k < dst.Length && !(from <= k < i) ==> dst[k] == old(dst[k])
    {
      dst[i] := value;
      i := i + 1;
    }
  }

  /** The shifting loop of `insert`: from the end down to `pos`, each slot
      takes its left neighbour (the slot at `n` is constructed, the others
      move-assigned), opening a gap at `pos`. */
  method ShiftUp<T>(a: array<T>, pos: nat, n: nat)
    requires pos <= n < a.Length
    modifies a
    ensures forall k :: 0 <= k < pos ==> a[k] == old(a[k])
    ensures forall k :: pos < k <= n ==> a[k] == old(a[k - 1])
    ensures forall k :: n < k < a.Length ==> a[k] == old(a[k])
  {
    var i := n;
    while i > pos
      invariant pos <= i <= n
      invariant forall k :: 0 <= k <= i ==> a[k] == old(a[k])
      invariant forall k :: i < k <= n ==> a[k] == old(a[k - 1])
      invariant forall k :: n < k < a.Length ==> a[k] == old(a[k])
    {
      a[i] := a[i - 1];
      i := i - 1;
    }
  }

  /** The shifting loop of `erase`: each slot from `pos` to `n - 2` takes
      its right neighbour, closing the gap at `pos`. */
  method ShiftDown<T>(a: array<T>, pos: nat, n: nat)
    requires pos < n <= a.Length
    modifies a
    ensures forall k :: 0 <= k < pos ==> a[k] == old(a[k])
    ensures forall k :: pos <= k < n - 1 ==> a[k] == old(a[k + 1])
    ensures forall k :: n - 1 <= k < a.Length ==> a[k] == old(a[k])
  {
    var i := pos;
    while i < n - 1
      invariant pos <= i <= n - 1
      invariant forall k :: 0 <= k < pos ==> a[k] == old(a[k])
      invariant forall k :: pos <= k < i ==> a[k] == old(a[k + 1])
      invariant forall k :: i <= k < a.Length ==> a[k] == old(a[k])
    {
      a[i] := a[i + 1];
      i := i + 1;
    }
  }

  class List<T(0, ==)> {
    const elemSize: ElementSize
    var data: array<T>
    var size: nat
    var capacity: nat
    var valid: bool

    /** `max_size()`: SIZE_MAX / sizeof(T). */
    function MaxSize(): (r: nat)
      ensures r <= SizeMax
    {
      SizeMax / elemSize
    }

    /** The buffer has exactly `capacity` slots, the first `size` of which
        hold elements; an invalid list owns nothing. A successful `malloc`
        never spans the whole address space, so `capacity < SIZE_MAX` and
        `size + 1` never wraps. */
    ghost predicate Valid()
      reads this
    {
      && data.Length == capacity
      && size <= capacity
      && capacity <= MaxSize()
      && capacity < SizeMax
      && (!valid ==> size == 0 && capacity == 0)
    }

    /** The elements, in order. */
    ghost function Contents(): seq<T>
      reads this, data
      requires Valid()
    {
      data[..size]
    }

    /** Whether `allocate_memory(count)` returns a block: not for 0, not past
        `max_size()` (the multiplication-overflow test is the same bound),
        and only when `malloc` succeeds. */
    predicate Allocates(count: nat, mallocOk: bool)
      reads this
    {
      count != 0 && count <= MaxSize() && count < SizeMax && mallocOk
    }

    /** `calculate_growth(min)`: 0 when `min` is past `max_size()`; otherwise
        1.5 times the capacity, raised to `min`, or `max_size()` when 1.5
        times would not fit. */
    function CalculateGrowth(minCapacity: nat): (r: nat)
      reads this
      requires capacity <= MaxSize()
      ensures minCapacity > MaxSize() ==> r == 0
      ensures 1 <= minCapacity <= MaxSize() ==> r != 0
      ensures minCapacity <= MaxSize() ==> minCapacity <= r <= MaxSize()
      ensures minCapacity <= MaxSize() && capacity + capacity / 2 <= MaxSize() ==>
        r >= capacity + capacity / 2 && (r == minCapacity || r == capacity + capacity / 2)
      ensures minCapacity <= MaxSize() && capacity + capacity / 2 > MaxSize() ==> r == MaxSize()
    {
      if minCapacity > MaxSize() then 0
      else if capacity > MaxSize() - capacity / 2 then MaxSize()
      else
        var newCapacity := capacity + capacity / 2;
        if newCapacity < minCapacity then minCapacity else newCapacity
    }

    /** Whether a full list can grow by one: the growth is not 0 and its
        allocation succeeds. */
    predicate CanGrow(mallocOk: bool)
      reads this
      requires capacity <= MaxSize()
    {
      var c := CalculateGrowth(size + 1);
      c != 0 && Allocates(c, mallocOk)
    }

    /** `List()`: empty, valid, no buffer. */
    constructor (elemSize: ElementSize)
      ensures this.elemSize == elemSize && Valid() && valid && Contents() == [] && capacity == 0
    {
      this.elemSize := elemSize;
      data := new T[0];
      size, capacity, valid := 0, 0, true;
    }

    /** `List(count)` (with `value` the default-constructed T) and
        `List(count, value)`: `count` copies of `value` in a buffer of
        exactly `count`; invalid when that allocation fails. */
    constructor Filled(elemSize: ElementSize, count: nat, value: T, mallocOk: bool)
      requires count <= SizeMax
      ensures this.elemSize == elemSize && Valid()
      ensures valid <==> count == 0 || Allocates(count, mallocOk)
      ensures valid ==> Contents() == seq(count, _ => value) && capacity == count
      ensures fresh(data)
    {
      this.elemSize := elemSize;
      data := new T[0];
      size, capacity, valid := 0, 0, true;
      new;
      Construct(seq(count, _ => value), mallocOk);
    }

    /** `List(first, last)` over a random-access range and
        `List(initializer_list)`: a copy of `items` in a buffer of exactly
        their number. */
    constructor FromSeq(elemSize: ElementSize, items: seq<T>, mallocOk: bool)
      requires |items| <= SizeMax
      ensures this.elemSize == elemSize && Valid()
      ensures valid <==> |items| == 0 || Allocates(|items|, mallocOk)
      ensures valid ==> Contents() == items && capacity == |items|
    {
      this.elemSize := elemSize;
      data := new T[0];
      size, capacity, valid := 0, 0, true;
      new;
      Construct(items, mallocOk);
    }

    /** The copy constructor: a copy of an invalid list is invalid; otherwise
        the elements are copied into a buffer of exactly their number. */
    constructor CopyFrom(other: List<T>, mallocOk: bool)
      requires other.Valid()
      ensures elemSize == other.elemSize && Valid()
      ensures valid <==> other.valid && (other.size == 0 || Allocates(other.size, mallocOk))
      ensures valid ==> Contents() == other.Contents() && capacity == other.size
    {
      elemSize := other.elemSize;
      data := new T[0];
      size, capacity, valid := 0, 0, true;
      new;
      if !other.valid {
        valid := false;
        return;
      }
      Construct(other.data[..other.size], mallocOk);
    }

    /** The move constructor: takes the source's buffer and state, leaving
        the source empty and valid. */
    constructor MoveFrom(other: List<T>)
      requires other.Valid()
      modifies other
      ensures elemSize == other.elemSize && Valid() && other.Valid()
      ensures data == old(other.data) && size == old(other.size)
      ensures capacity == old(other.capacity) && valid == old(other.valid)
      ensures other.size == 0 && other.capacity == 0 && other.valid
    {
      elemSize := other.elemSize;
      data, size, capacity, valid := other.data, other.size, other.capacity, other.valid;
      new;
      other.data := new T[0];
      other.size, other.capacity, other.valid := 0, 0, true;
    }

    /** The common body of the filling, range and copy constructors:
        `allocate_memory(count)` and construction of each element in order;
        a failed allocation leaves the list invalid. */
    method Construct(items: seq<T>, mallocOk: bool)
      requires |items| <= SizeMax
      requires size == 0 && capacity == 0 && valid && data.Length == 0
      modifies this
      ensures Valid()
      ensures valid <==> |items| == 0 || Allocates(|items|, mallocOk)
      ensures valid ==> Contents() == items && capacity == |items|
      ensures data == old(data) || fresh(data)
    {
      if |items| == 0 {
        return;
      }
      if !Allocates(|items|, mallocOk) {
        valid := false;
        return;
      }
      var a := new T[|items|];
      StoreAll(a, items);
      data, size, capacity := a, |items|, |items|;
    }

    /** `make_invalid()`: destroys everything and marks the list invalid. */
    method MakeInvalid()
      modifies this
      ensures Valid() && !valid && size == 0 && capacity == 0
    {
      data := new T[0];
      size, capacity, valid := 0, 0, false;
    }

    /** `reallocate(n)`: 0 destroys the elements and frees the buffer; a
        failed allocation changes nothing; otherwise the elements move to a
        fresh buffer of exactly `n` slots. */
    method Reallocate(newCapacity: nat, mallocOk: bool) returns (r: Result)
      requires Valid() && valid && size <= newCapacity
      modifies this
      ensures Valid() && valid == old(valid)
      ensures newCapacity == 0 ==> r == Success && size == 0 && capacity == 0
      ensures newCapacity != 0 ==> (r == Success <==> Allocates(newCapacity, mallocOk))
      ensures newCapacity != 0 && r == Success ==>
        capacity == newCapacity && fresh(data) && Contents() == old(Contents())
      ensures r != Success ==> r == OutOfMemory && unchanged(this)
    {
      if newCapacity == 0 {
        data := new T[0];
        size, capacity := 0, 0;
        return Success;
      }
      if !Allocates(newCapacity, mallocOk) {
        return OutOfMemory;
      }
      var newData := new T[newCapacity];
      StoreAll(newData, data[..size]);
      data, capacity := newData, newCapacity;
      return Success;
    }

    /** The copy assignment as written. Self-assignment and a copy that fits
        the capacity keep the list's own validity flag: an invalid list
        assigned a valid empty list stays invalid. A larger copy goes through
        a temporary copy and swap, and a failed one leaves the list invalid. */
    method CopyAssign(other: List<T>, mallocOk: bool)
      requires Valid() && other.Valid() && elemSize == other.elemSize
      modifies this, data
      ensures Valid()
      ensures this == other ==> unchanged(this) && Contents() == old(Contents())
      ensures this != other && !old(other.valid) ==> !valid && size == 0
      ensures this != other && old(other.valid) && old(other.size) <= old(capacity) ==>
        valid == old(valid) && Contents() == old(other.Contents()) && capacity == old(capacity)
      ensures this != other && old(other.valid) && old(other.size) > old(capacity) ==>
        (valid <==> Allocates(old(other.size), mallocOk))
        && (valid ==> Contents() == old(other.Contents()) && capacity == old(other.size))
        && (!valid ==> size == 0)
    {
      if this == other {
        return;
      }
      if !other.valid {
        MakeInvalid();
        return;
      }
      if other.size <= capacity {
        CopyInPlace(other);
      } else {
        var temp := new List.CopyFrom(other, mallocOk);
        if !temp.valid {
          MakeInvalid();
          return;
        }
        Swap(temp);
      }
    }

    /** The copy assignment as intended: a copy of a valid list is valid. */
    method CopyAssignFixed(other: List<T>, mallocOk: bool)
      requires Valid() && other.Valid() && elemSize == other.elemSize
      modifies this, data
      ensures Valid()
      ensures this == other ==> unchanged(this) && Contents() == old(Contents())
      ensures this != other && !old(other.valid) ==> !valid && size == 0
      ensures this != other && old(other.valid) && old(other.size) <= old(capacity) ==>
        valid && Contents() == old(other.Contents()) && capacity == old(capacity)
      ensures this != other && old(other.valid) && old(other.size) > old(capacity) ==>
        (valid <==> Allocates(old(other.size), mallocOk))
        && (valid ==> Contents() == old(other.Contents()) && capacity == old(other.size))
        && (!valid ==> size == 0)
    {
      if this == other {
        return;
      }
      if !other.valid {
        MakeInvalid();
        return;
      }
      if other.size <= capacity {
        CopyInPlace(other);
        valid := true;
      } else {
        var temp := new List.CopyFrom(other, mallocOk);
        if !temp.valid {
          MakeInvalid();
          return;
        }
        Swap(temp);
      }
    }

    /** The storage-reusing branch of the copy assignment: copy-assign the
        common elements, construct the rest, drop the excess. */
    method CopyInPlace(other: List<T>)
      requires Valid() && other.Valid() && this != other && other.size <= capacity
      modifies this, data
      ensures Valid() && data == old(data) && capacity == old(capacity) && valid == old(valid)
      ensures Contents() == old(other.Contents())
    {
      StoreAll(data, other.data[..other.size]);
      size := other.size;
    }

    /** The move assignment: self-assignment is a no-op; otherwise the list
        takes the source's buffer and state, leaving the source empty and
        valid. */
    method MoveAssign(other: List<T>)
      requires Valid() && other.Valid() && elemSize == other.elemSize
      modifies this, other
      ensures Valid() && other.Valid()
      ensures this == other ==> unchanged(this)
      ensures this != other ==>
        && data == old(other.data) && size == old(other.size)
        && capacity == old(other.capacity) && valid == old(other.valid)
        && other.size == 0 && other.capacity == 0 && other.valid
    {
      if this == other {
        return;
      }
      data, size, capacity, valid := other.data, other.size, other.capacity, other.valid;
      other.data := new T[0];
      other.size, other.capacity, other.valid := 0, 0, true;
    }

    /** `assign(count, value)`: an invalid list refuses. A count within the
        capacity is filled in place; a larger one goes through a temporary
        `List(count, value)` and swap, and a failed allocation leaves the
        list as it was. */
    method AssignFill(count: nat, value: T, mallocOk: bool) returns (r: Result)
      requires Valid() && count <= SizeMax
      modifies this, data
      ensures Valid()
      ensures !old(valid) ==> r == InvalidArgument && unchanged(this)
      ensures old(valid) && count <= old(capacity) ==>
        r == Success && Contents() == seq(count, _ => value) && capacity == old(capacity)
      ensures old(valid) && count > old(capacity) ==>
        (r == Success <==> Allocates(count, mallocOk))
        && (r == Success ==> Contents() == seq(count, _ => value) && capacity == count)
        && (r != Success ==> r == OutOfMemory && unchanged(this) && unchanged(data))
    {
      if !valid {
        return InvalidArgument;
      }
      if count <= capacity {
        FillRange(data, 0, count, value);
        size := count;
        assert Contents() == seq(count, _ => value);
        return Success;
      }
      var temp := new List.Filled(elemSize, count, value, mallocOk);
      if !temp.valid {
        return OutOfMemory;
      }
      Swap(temp);
      return Success;
    }

    /** `assign(first, last)` and `assign(initializer_list)`: an invalid list
        refuses; otherwise a temporary copy of `items` is swapped in, and a
        failed allocation leaves the list as it was. */
    method AssignSeq(items: seq<T>, mallocOk: bool) returns (r: Result)
      requires Valid() && |items| <= SizeMax
      modifies this
      ensures Valid()
      ensures !old(valid) ==> r == InvalidArgument && unchanged(this)
      ensures old(valid) ==> (r == Success <==> |items| == 0 || Allocates(|items|, mallocOk))
      ensures r == Success ==> Contents() == items && capacity == |items|
      ensures old(valid) && r != Success ==> r == OutOfMemory && unchanged(this)
    {
      if !valid {
        return InvalidArgument;
      }
      var temp := new List.FromSeq(elemSize, items, mallocOk);
      if !temp.valid {
        return OutOfMemory;
      }
      Swap(temp);
      return Success;
    }

    /** `at(pos, out)`: InvalidArgument on an invalid list, OutOfRange past
        the end, otherwise element `pos`; `out` is left alone on failure. */
    method At(pos: nat, out: T) returns (r: Result, res: T)
      requires Valid()
      ensures !valid ==> r == InvalidArgument && res == out
      ensures valid && pos >= size ==> r == OutOfRange && res == out
      ensures r == Success <==> valid && pos < size
      ensures r == Success ==> res == Contents()[pos]
    {
      if !valid {
        return InvalidArgument, out;
      }
      if pos >= size {
        return OutOfRange, out;
      }
      return Success, data[pos];
    }

    /** `get(pos)`: the element, or null (None) when the list is invalid or
        `pos` is past the end. */
    function Get(pos: nat): (r: Option<T>)
      reads this, data
      requires Valid()
      ensures r != None <==> valid && pos < size
      ensures r != None ==> r.value == Contents()[pos]
    {
      if !valid || pos >= size then None else Some(data[pos])
    }

    /** `reserve(n)`: an invalid list refuses; a larger `n` reallocates to
        exactly `n`; a smaller one changes nothing. */
    method Reserve(newCapacity: nat, mallocOk: bool) returns (r: Result)
      requires Valid() && newCapacity <= SizeMax
      modifies this
      ensures Valid() && valid == old(valid)
      ensures !old(valid) ==> r == InvalidArgument && unchanged(this)
      ensures old(valid) && newCapacity <= old(capacity) ==> r == Success && unchanged(this)
      ensures old(valid) && newCapacity > old(capacity) ==>
        (r == Success <==> Allocates(newCapacity, mallocOk))
      ensures r == Success ==> capacity >= newCapacity && Contents() == old(Contents())
      ensures r != Success ==> unchanged(this)
    {
      if !valid {
        return InvalidArgument;
      }
      if newCapacity > capacity {
        r := Reallocate(newCapacity, mallocOk);
        return;
      }
      return Success;
    }

    /** `shrink_to_fit()`: an invalid list refuses; spare capacity is given
        back by reallocating to exactly the size. */
    method ShrinkToFit(mallocOk: bool) returns (r: Result)
      requires Valid()
      modifies this
      ensures Valid() && valid == old(valid)
      ensures !old(valid) ==> r == InvalidArgument && unchanged(this)
      ensures old(valid) && old(size) == old(capacity) ==> r == Success && unchanged(this)
      ensures old(valid) && old(size) < old(capacity) ==>
        (r == Success <==> old(size) == 0 || Allocates(old(size), mallocOk))
      ensures r == Success ==> capacity == size && Contents() == old(Contents())
      ensures r != Success ==> unchanged(this)
    {
      if !valid {
        return InvalidArgument;
      }
      if size < capacity {
        r := Reallocate(size, mallocOk);
        return;
      }
      return Success;
    }

    /** `clear()`: a valid list drops every element and keeps its buffer. */
    method Clear()
      requires Valid()
      modifies this
      ensures Valid() && capacity == old(capacity) && valid == old(valid) && data == old(data)
      ensures valid ==> size == 0
      ensures !valid ==> unchanged(this)
    {
      if valid {
        size := 0;
      }
    }

    /** The growth step shared by push and insert: a full list asks
        `calculate_growth(size + 1)` and reallocates to it. */
    method GrowIfFull(mallocOk: bool) returns (r: Result)
      requires Valid() && valid
      modifies this
      ensures Valid() && valid
      ensures r == Success <==> old(size) < old(capacity) || old(CanGrow(mallocOk))
      ensures r == Success ==> Contents() == old(Contents()) && size < capacity
      ensures r == Success && old(size) == old(capacity) ==>
        capacity == old(CalculateGrowth(size + 1)) && fresh(data)
      ensures r == Success && old(size) < old(capacity) ==> unchanged(this)
      ensures r != Success ==> r == OutOfMemory && unchanged(this)
    {
      if size == capacity {
        var newCapacity := CalculateGrowth(size + 1);
        if newCapacity == 0 {
          return OutOfMemory;
        }
        r := Reallocate(newCapacity, mallocOk);
        return;
      }
      return Success;
    }

    /** `push_back(const T&)`, `push_back(T&&)` and `emplace_back`: appends
        `value`, growing a full list first; a failed growth changes nothing. */
    method PushBack(value: T, mallocOk: bool) returns (r: Result)
      requires Valid()
      modifies this, data
      ensures Valid() && valid == old(valid)
      ensures !old(valid) ==> r == InvalidArgument
      ensures r == Success <==> old(valid) && (old(size) < old(capacity) || old(CanGrow(mallocOk)))
      ensures r == Success ==> Contents() == old(Contents()) + [value]
      ensures r == Success && old(size) < old(capacity) ==> capacity == old(capacity)
      ensures r == Success && old(size) == old(capacity) ==> capacity == old(CalculateGrowth(size + 1))
      ensures old(valid) && r != Success ==> r == OutOfMemory
      ensures r != Success ==> unchanged(this) && unchanged(data)
    {
      if !valid {
        return InvalidArgument;
      }
      r := GrowIfFull(mallocOk);
      if r != Success {
        return;
      }
      data[size] := value;
      size := size + 1;
    }

    /** `pop_back()`: OutOfRange on an empty list; otherwise drops the last
        element only. */
    method PopBack() returns (r: Result)
      requires Valid()
      modifies this
      ensures Valid() && capacity == old(capacity) && valid == old(valid) && data == old(data)
      ensures !old(valid) ==> r == InvalidArgument
      ensures old(valid) && old(size) == 0 ==> r == OutOfRange
      ensures r == Success <==> old(valid) && old(size) > 0
      ensures r == Success ==> Contents() == old(Contents())[..old(size) - 1]
      ensures r != Success ==> unchanged(this)
    {
      if !valid {
        return InvalidArgument;
      }
      if size == 0 {
        return OutOfRange;
      }
      size := size - 1;
      return Success;
    }

    /** `resize(count)` (with `value` the default-constructed T) and
        `resize(count, value)`: shrinking drops the tail; growing past the
        capacity reallocates to exactly `count` and fills the new slots
        with `value`. */
    method Resize(count: nat, value: T, mallocOk: bool) returns (r: Result)
      requires Valid() && count <= SizeMax
      modifies this, data
      ensures Valid() && valid == old(valid)
      ensures !old(valid) ==> r == InvalidArgument
      ensures r == Success <==> old(valid) && (count <= old(capacity) || Allocates(count, mallocOk))
      ensures r == Success ==> Contents() == Resized(old(Contents()), count, value)
      ensures r == Success && count <= old(capacity) ==> capacity == old(capacity)
      ensures r == Success && count > old(capacity) ==> capacity == count
      ensures old(valid) && r != Success ==> r == OutOfMemory
      ensures r != Success ==> unchanged(this) && unchanged(data)
    {
      if !valid {
        return InvalidArgument;
      }
      if count < size {
        size := count;
      } else if count > size {
        if count > capacity {
          r := Reallocate(count, mallocOk);
          if r != Success {
            return;
          }
        }
        ghost var prev := Contents();
        FillRange(data, size, count, value);
        size := count;
        assert Contents() == Resized(prev, count, value);
      }
      return Success;
    }

    /** `swap(other)`: the two lists exchange buffer, size, capacity and
        validity. */
    method Swap(other: List<T>)
      requires Valid() && other.Valid() && elemSize == other.elemSize
      modifies this, other
      ensures Valid() && other.Valid()
      ensures data == old(other.data) && other.data == old(data)
      ensures size == old(other.size) && other.size == old(size)
      ensures capacity == old(other.capacity) && other.capacity == old(capacity)
      ensures valid == old(other.valid) && other.valid == old(valid)
    {
      data, other.data := other.data, data;
      size, other.size := other.size, size;
      capacity, other.capacity := other.capacity, capacity;
      valid, other.valid := other.valid, valid;
    }

    /** `insert(pos, value)`: OutOfRange past the end; otherwise the list
        grows if full and the elements from `pos` on shift up one place. */
    method Insert(pos: nat, value: T, mallocOk: bool) returns (r: Result)
      requires Valid()
      modifies this, data
      ensures Valid() && valid == old(valid)
      ensures !old(valid) ==> r == InvalidArgument
      ensures old(valid) && pos > old(size) ==> r == OutOfRange
      ensures r == Success <==>
        old(valid) && pos <= old(size) && (old(size) < old(capacity) || old(CanGrow(mallocOk)))
      ensures r == Success ==> Contents() == Inserted(old(Contents()), pos, value)
      ensures old(valid) && pos <= old(size) && r != Success ==> r == OutOfMemory
      ensures r != Success ==> unchanged(this) && unchanged(data)
    {
      if !valid {
        return InvalidArgument;
      }
      if pos > size {
        return OutOfRange;
      }
      r := GrowIfFull(mallocOk);
      if r != Success {
        return;
      }
      ghost var prev := Contents();
      ShiftUp(data, pos, size);
      data[pos] := value;
      size := size + 1;
      assert Contents() == Inserted(prev, pos, value);
    }

    /** `erase(pos)`: OutOfRange unless `pos` is an element; otherwise the
        elements after it shift down one place and the last slot is dropped. */
    method Erase(pos: nat) returns (r: Result)
      requires Valid()
      modifies this, data
      ensures Valid() && valid == old(valid) && capacity == old(capacity)
      ensures !old(valid) ==> r == InvalidArgument
      ensures old(valid) && pos >= old(size) ==> r == OutOfRange
      ensures r == Success <==> old(valid) && pos < old(size)
      ensures r == Success ==> Contents() == Erased(old(Contents()), pos)
      ensures r != Success ==> unchanged(this) && unchanged(data)
    {
      if !valid {
        return InvalidArgument;
      }
      if pos >= size {
        return OutOfRange;
      }
      ghost var prev := Contents();
      ShiftDown(data, pos, size);
      size := size - 1;
      assert Contents() == Erased(prev, pos);
      return Success;
    }

    /** `operator==`: false when either list is invalid; otherwise equal
        sizes and equal elements, compared in order. */
    method Equal(other: List<T>) returns (r: bool)
      requires Valid() && other.Valid()
      ensures r <==> valid && other.valid && Contents() == other.Contents()
    {
      if !valid || !other.valid {
        return false;
      }
      if size != other.size {
        return false;
      }
      var i := 0;
      while i < size
        invariant i <= size
        invariant forall k :: 0 <= k < i ==> data[k] == other.data[k]
      {
        if data[i] != other.data[i] {
          assert Contents()[i] != other.Contents()[i];
          return false;
        }
        i := i + 1;
      }
      assert Contents() == other.Contents();
      return true;
    }

    /** `operator!=`: the negation of `operator==`. */
    method NotEqual(other: List<T>) returns (r: bool)
      requires Valid() && other.Valid()
      ensures r <==> !(valid && other.valid && Contents() == other.Contents())
    {
      var same := Equal(other);
      r := !same;
    }
  }

  /** An invalid list copy-assigned a valid empty list stays invalid, so the
      two compare unequal right after the assignment. */
  method InvalidSurvivesEmptyCopy() returns (target: List<int>, source: List<int>, same: bool)
    ensures source.valid && !target.valid && !same
  {
    target := new List.Filled(4, 1, 0, false);
    source := new List(4);
    target.CopyAssign(source, true);
    same := target.Equal(source);
  }

  /** With the corrected copy assignment the same two lists compare equal. */
  method FixedCopyIsEqual() returns (target: List<int>, source: List<int>, same: bool)
    ensures source.valid && target.valid && same
  {
    target := new List.Filled(4, 1, 0, false);
    source := new List(4);
    target.CopyAssignFixed(source, true);
    same := target.Equal(source);
  }
}
