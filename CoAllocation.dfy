/** The co-allocator of the Hubris ownership library: a ControlBlock and the
    payload it manages share one aligned `operator new` region, and whichever
    of the two has the stricter alignment is placed first. */
module CoAllocation {
  import opened Bits

  /** What `sizeof(T)` and `alignof(T)` report; the alignment is 2^alignLog. */
  datatype TypeLayout = TypeLayout(size: nat, alignLog: nat)
  {
    function Align(): nat { Pow2(alignLog) }

    /** Rounding this size up to the alignment does not wrap around size_t. */
    predicate NoWrap() { size + Align() <= SizeModulus }
  }

  /** ControlBlock on an LP64 target: `void* raw`, two `atomic_uint32_t`
      counters, `void* BaseLocation` and `size_t alloc_align`. */
  const ControlBlockLayout: TypeLayout := TypeLayout(32, 3)

  predicate IsMultipleOf(m: nat, a: nat)
    requires a >= 1
  {
    m % a == 0
  }

  /** padded_size<T>(): `(sizeof(T) + alignof(T) - 1) & ~(alignof(T) - 1)`
      evaluated in size_t. */
  function PaddedSize(t: TypeLayout): (r: nat)
    ensures IsMultipleOf(r, t.Align())
  {
    var x := (t.size + t.Align() - 1) % SizeModulus;
    ClearLowBitsIsRoundDown(x, t.alignLog);
    RoundDown(x, t.Align());
    ClearLowBits(x, t.alignLog)
  }

  /** padded_size is the smallest multiple of the alignment that holds the
      object, whenever the sum does not wrap. */
  lemma PaddedSizeIsRoundUp(t: TypeLayout)
    requires t.NoWrap()
    ensures IsMultipleOf(PaddedSize(t), t.Align())
    ensures t.size <= PaddedSize(t) < t.size + t.Align()
    ensures forall m: nat :: IsMultipleOf(m, t.Align()) && t.size <= m ==> PaddedSize(t) <= m
  {
    var a := t.Align();
    var x := t.size + a - 1;
    assert x % SizeModulus == x;
    ClearLowBitsIsRoundDown(x, t.alignLog);
    var p := PaddedSize(t);
    RoundDown(x, a);
    forall m: nat | IsMultipleOf(m, a) && t.size <= m
      ensures p <= m
    {
      if m < p {
        MultiplesApart(m, p, a);
      }
    }
  }

  /** Where CoAllocate_Unsafe puts each object and what it asks operator new for. */
  datatype Layout = Layout(allocAlign: nat, tOffset: nat, ctrOffset: nat, allocSize: nat)

  /** CoAllocate_Unsafe<T>()'s offset arithmetic for a control block of layout
      `c` and a payload of layout `t`, as written: when the payload goes first,
      the control block is put at the padded size of the control block rather
      than at the padded size of the payload. */
  function Place(c: TypeLayout, t: TypeLayout): (l: Layout)
    ensures l.allocAlign >= c.Align() && l.allocAlign >= t.Align()
    ensures l.allocAlign == c.Align() || l.allocAlign == t.Align()
    ensures l.tOffset == 0 || l.ctrOffset == 0
  {
    var ctrFirst := c.Align() > t.Align();
    Layout(
      allocAlign := if c.Align() < t.Align() then t.Align() else c.Align(),
      tOffset := if ctrFirst then PaddedSize(c) else 0,
      ctrOffset := if ctrFirst then 0 else PaddedSize(c),
      allocSize := if ctrFirst then PaddedSize(c) + t.size else PaddedSize(t) + c.size)
  }

  /** The intended layout: when the payload goes first, the control block
      follows it at the payload's padded size. */
  function PlaceFixed(c: TypeLayout, t: TypeLayout): (l: Layout)
    ensures l.allocAlign >= c.Align() && l.allocAlign >= t.Align()
    ensures l.allocAlign == c.Align() || l.allocAlign == t.Align()
    ensures l.tOffset == 0 || l.ctrOffset == 0
  {
    var ctrFirst := c.Align() > t.Align();
    Layout(
      allocAlign := if c.Align() < t.Align() then t.Align() else c.Align(),
      tOffset := if ctrFirst then PaddedSize(c) else 0,
      ctrOffset := if ctrFirst then 0 else PaddedSize(t),
      allocSize := if ctrFirst then PaddedSize(c) + t.size else PaddedSize(t) + c.size)
  }

  /** Both objects lie inside the region and do not overlap. */
  predicate FitsDisjoint(l: Layout, c: TypeLayout, t: TypeLayout)
  {
    && l.tOffset + t.size <= l.allocSize && l.ctrOffset + c.size <= l.allocSize
    && (l.tOffset + t.size <= l.ctrOffset || l.ctrOffset + c.size <= l.tOffset)
  }

  /** The intended layout is sound: the region's alignment serves both
      objects, each object starts at a multiple of its own alignment, the
      stricter-aligned one sits at offset 0 and the other at the first one's
      padded size, and both fit in the region without overlapping. */
  lemma PlaceIsSound(c: TypeLayout, t: TypeLayout)
    requires c.NoWrap() && t.NoWrap()
    ensures var l := PlaceFixed(c, t);
      && l.allocAlign == (if c.Align() < t.Align() then t.Align() else c.Align())
      && IsMultipleOf(l.allocAlign, c.Align()) && IsMultipleOf(l.allocAlign, t.Align())
      && IsMultipleOf(l.tOffset, t.Align()) && IsMultipleOf(l.ctrOffset, c.Align())
      && (c.Align() > t.Align() ==> l.ctrOffset == 0 && l.tOffset == PaddedSize(c))
      && (c.Align() <= t.Align() ==> l.tOffset == 0 && l.ctrOffset == PaddedSize(t))
      && FitsDisjoint(l, c, t)
  {
    PaddedSizeIsRoundUp(c);
    PaddedSizeIsRoundUp(t);
    Pow2Monotone(c.alignLog, t.alignLog);
    if c.Align() > t.Align() {
      // The payload follows the control block at a multiple of the larger alignment.
      MultipleOfSmallerPow2(PaddedSize(c), c.alignLog, t.alignLog);
      Pow2Divides(c.alignLog, t.alignLog);
    } else {
      // The control block follows the payload at a multiple of the larger alignment.
      MultipleOfSmallerPow2(PaddedSize(t), t.alignLog, c.alignLog);
      Pow2Divides(t.alignLog, c.alignLog);
    }
    Pow2Divides(c.alignLog, c.alignLog);
    Pow2Divides(t.alignLog, t.alignLog);
  }

  /** The layout as written differs from the intended one only in where the
      control block goes when the payload is placed first, and only when the
      two padded sizes differ. */
  lemma PlaceMatchesFixed(c: TypeLayout, t: TypeLayout)
    ensures Place(c, t) == PlaceFixed(c, t) <==> c.Align() > t.Align() || PaddedSize(c) == PaddedSize(t)
    ensures Place(c, t).allocAlign == PlaceFixed(c, t).allocAlign
    ensures Place(c, t).tOffset == PlaceFixed(c, t).tOffset
    ensures Place(c, t).allocSize == PlaceFixed(c, t).allocSize
  {
    if c.Align() <= t.Align() {
      assert Place(c, t).ctrOffset == PaddedSize(c);
      assert PlaceFixed(c, t).ctrOffset == PaddedSize(t);
    }
  }

  /** What the layout as written gets right and wrong. With the control block
      first both objects fit without overlapping. With the payload first the
      control block sits at its own padded size: it stays inside the region
      exactly when that is at most the payload's padded size, and it misses
      the payload exactly when the payload ends by then (or the block is
      empty). */
  lemma {:induction false} PlaceAsWritten(c: TypeLayout, t: TypeLayout)
    requires c.NoWrap() && t.NoWrap()
    ensures c.Align() > t.Align() ==> FitsDisjoint(Place(c, t), c, t)
    ensures c.Align() <= t.Align() ==>
      && (Place(c, t).ctrOffset + c.size <= Place(c, t).allocSize <==> PaddedSize(c) <= PaddedSize(t))
      && (Place(c, t).tOffset + t.size <= Place(c, t).ctrOffset || Place(c, t).ctrOffset + c.size <= Place(c, t).tOffset
          <==> t.size <= PaddedSize(c) || c.size == 0)
    ensures c.size > 0 && c.Align() <= t.Align() ==>
      (FitsDisjoint(Place(c, t), c, t) <==> t.size <= PaddedSize(c) <= PaddedSize(t))
  {
    if c.Align() > t.Align() {
      PlaceIsSound(c, t);
      PlaceMatchesFixed(c, t);
    } else {
      var pc, pt := PaddedSize(c), PaddedSize(t);
      assert Place(c, t) == Layout(t.Align(), 0, pc, pt + c.size);
      PaddedSizeIsRoundUp(t);
      PaddedSizeIsRoundUp(c);
      if c.size == 0 {
        // The only multiple of the alignment below it is 0.
        DivModUnique(pc, c.Align(), 0, pc);
      }
    }
  }

  /** As written, a payload as aligned as the control block but smaller than
      it (`Shared<std::size_t>`) leaves the block partly outside the region,
      and one larger than the block (48 bytes, 8-aligned) overlaps it. */
  lemma ControlBlockMisplaced()
    ensures var t := TypeLayout(8, 3); var l := Place(ControlBlockLayout, t);
      && l.tOffset == 0 && l.ctrOffset == 32 && l.allocSize == 40
      && l.ctrOffset + ControlBlockLayout.size > l.allocSize
      && PlaceFixed(ControlBlockLayout, t).ctrOffset == 8
    ensures var t := TypeLayout(48, 3); var l := Place(ControlBlockLayout, t);
      && l.tOffset == 0 && l.ctrOffset == 32 && l.allocSize == 80
      && l.ctrOffset < l.tOffset + t.size
      && PlaceFixed(ControlBlockLayout, t).ctrOffset == 48
  {
    assert Pow2(3) == 8 by {
      assert Pow2(0) == 1;
    }
    ClearLowBitsIsRoundDown(39, 3);
    ClearLowBitsIsRoundDown(15, 3);
    ClearLowBitsIsRoundDown(55, 3);
  }

  /** With `operator new` honouring `align_val_t{alloc_align}`, the absolute
      addresses of both objects are aligned as their types require, in the
      layout as written and in the intended one. */
  lemma AddressesAligned(base: nat, c: TypeLayout, t: TypeLayout)
    requires c.NoWrap() && t.NoWrap()
    requires IsMultipleOf(base, Place(c, t).allocAlign)
    ensures IsMultipleOf(base + Place(c, t).ctrOffset, c.Align())
    ensures IsMultipleOf(base + Place(c, t).tOffset, t.Align())
    ensures IsMultipleOf(base + PlaceFixed(c, t).ctrOffset, c.Align())
    ensures IsMultipleOf(base + PlaceFixed(c, t).tOffset, t.Align())
  {
    var l, f := Place(c, t), PlaceFixed(c, t);
    Pow2Monotone(c.alignLog, t.alignLog);
    PaddedSizeIsRoundUp(c);
    PaddedSizeIsRoundUp(t);
    if c.Align() > t.Align() {
      assert l.allocAlign == Pow2(c.alignLog);
      MultipleOfSmallerPow2(base, c.alignLog, t.alignLog);
      MultipleOfSmallerPow2(PaddedSize(c), c.alignLog, t.alignLog);
    } else {
      assert l.allocAlign == Pow2(t.alignLog);
      MultipleOfSmallerPow2(base, t.alignLog, c.alignLog);
      MultipleOfSmallerPow2(PaddedSize(t), t.alignLog, c.alignLog);
    }
    SumOfMultiples(base, l.ctrOffset, c.Align());
    SumOfMultiples(base, l.tOffset, t.Align());
    SumOfMultiples(base, f.ctrOffset, c.Align());
  }

  /** The type CoAllocate<T, Args...> constructs, as written: placement new
      builds `remove_cvref_t` of the first argument type, whatever T is. */
  function ConstructedType(t: TypeLayout, arg: TypeLayout): TypeLayout
  {
    arg
  }

  /** The type CoAllocate<T, Args...> is meant to construct: T itself. */
  function ConstructedTypeFixed(t: TypeLayout, arg: TypeLayout): TypeLayout
  {
    t
  }

  /** The constructed object ends inside the region the layout reserved. */
  predicate ObjectFits(t: TypeLayout, built: TypeLayout)
  {
    Place(ControlBlockLayout, t).tOffset + built.size <= Place(ControlBlockLayout, t).allocSize
  }

  /** As written, `Shared<int>` built from an 8-byte argument (a Weak, in
      Weak::Lock) writes 8 bytes at offset 32 of a 36-byte region. */
  lemma ConstructedTypeOverflows()
    ensures var t, arg := TypeLayout(4, 2), TypeLayout(8, 3);
      && Place(ControlBlockLayout, t).tOffset == 32
      && Place(ControlBlockLayout, t).allocSize == 36
      && !ObjectFits(t, ConstructedType(t, arg))
  {
    var t := TypeLayout(4, 2);
    assert Pow2(2) == 4 && Pow2(3) == 8;
    ClearLowBitsIsRoundDown(39, 3);
  }

  /** Constructing T itself, the object always fits and is aligned for T. */
  lemma ConstructedTypeFixedFits(t: TypeLayout, arg: TypeLayout, base: nat)
    requires t.NoWrap()
    requires IsMultipleOf(base, Place(ControlBlockLayout, t).allocAlign)
    ensures ObjectFits(t, ConstructedTypeFixed(t, arg))
    ensures IsMultipleOf(base + Place(ControlBlockLayout, t).tOffset, ConstructedTypeFixed(t, arg).Align())
  {
    assert ControlBlockLayout.NoWrap() by {
      assert Pow2(3) == 8 by {
        assert Pow2(0) == 1;
      }
    }
    PlaceIsSound(ControlBlockLayout, t);
    PlaceMatchesFixed(ControlBlockLayout, t);
    AddressesAligned(base, ControlBlockLayout, t);
  }
}
