/** `Shared<T>` and `Weak<T>` of the Hubris ownership library: a reference
    count kept in a `ControlBlock` that is co-allocated with the payload.
    Heap effects are recorded on ghost state: a payload remembers which of its
    leaves were destroyed, an allocation whether it was freed, and a control
    block which `Shared` and `Weak` objects point at it. */
module SharedOwnership {
  import opened Traversal
  import opened CoAllocation

  datatype DeleteKind = Scalar | Array

  /** The largest value of the uint32_t counters. */
  const UInt32Max: nat := 0xFFFF_FFFF

  /** An object constructed in memory, with the record of its lifetime. */
  class Payload {
    const value: Value
    /** Leaves passed to std::destroy_at so far, in order. */
    ghost var destroyed: seq<nat>
    /** The `delete` (Scalar) and `delete[]` (Array) expressions applied to
        it so far, in order. */
    ghost var deletes: seq<DeleteKind>
    /** The control block it was co-allocated with, if any. */
    ghost var home: ControlBlock?

    constructor (v: Value)
      ensures value == v && destroyed == [] && deletes == [] && home == null
    {
      value := v;
      destroyed := [];
      deletes := [];
      home := null;
    }

    ghost predicate Alive()
      reads this
    {
      destroyed == [] && deletes == []
    }
  }

  /** A region returned by aligned `operator new`. */
  class Allocation {
    const base: nat
    const size: nat
    const align: nat
    ghost var freed: bool

    constructor (base: nat, size: nat, align: nat)
      ensures this.base == base && this.size == size && this.align == align && !freed
    {
      this.base := base;
      this.size := size;
      this.align := align;
      freed := false;
    }
  }

  /** ControlBlock: `raw`, `ref_count`, `weak_count`, `BaseLocation` and
      `alloc_align`, plus the ghost sets of the handles that point at it. */
  class ControlBlock {
    var raw: Payload?
    var refCount: nat
    var weakCount: nat
    const baseLocation: Allocation
    const allocAlign: nat
    /** The address the block itself was constructed at (`ptr + CTR_offset`). */
    const address: nat
    /** The address `raw` was set to when the block was placed. */
    const rawAddress: nat
    /** The object constructed next to this block. */
    ghost const payload: Payload
    ghost var strong: set<Shared>
    ghost var weak: set<Weak>

    /** A block as CoAllocate_Unsafe leaves it: both counters start at 1. */
    constructor (alloc: Allocation, allocAlign: nat, address: nat, rawAddress: nat, p: Payload)
      ensures raw == p && payload == p && refCount == 1 && weakCount == 1
      ensures baseLocation == alloc && this.allocAlign == allocAlign
      ensures this.address == address && this.rawAddress == rawAddress
      ensures strong == {} && weak == {}
    {
      raw := p;
      payload := p;
      refCount := 1;
      weakCount := 1;
      baseLocation := alloc;
      this.allocAlign := allocAlign;
      this.address := address;
      this.rawAddress := rawAddress;
      strong := {};
      weak := {};
    }

    ghost function Repr(): set<object>
      reads this
    {
      {this, baseLocation, payload} + strong + weak
    }

    /** ref_count counts the Shared objects on the block, weak_count the Weak
        ones plus the initial slot that nothing releases. */
    ghost predicate Counted()
      reads this, baseLocation, payload, strong, weak
    {
      && refCount == |strong|
      && weakCount == |weak| + 1
      && (forall s :: s in strong ==> s.ctr == this)
      && (forall w :: w in weak ==> w.ctr == this)
    }

    /** The payload is alive while a Shared remains and has been destroyed
        leaf by leaf after; the region is not freed. */
    ghost predicate Lifetime()
      reads this, payload, baseLocation
    {
      && payload.home == this && payload.deletes == []
      && (refCount > 0 ==> raw == payload && payload.destroyed == [])
      && (refCount == 0 ==> raw == null && payload.destroyed == Traverse(payload.value))
      && !baseLocation.freed
    }

    ghost predicate Valid()
      reads this, baseLocation, payload, strong, weak
    {
      Counted() && Lifetime()
    }

    /** Bookkeeping for a swap or move: owner `x` leaves the block and `y`,
        which already points at it, takes its place. */
    ghost method HandOver(x: Shared, y: Shared)
      requires Lifetime() && refCount == |strong| && weakCount == |weak| + 1
      requires forall w :: w in weak ==> w.ctr == this
      requires forall s :: s in strong && s != x ==> s.ctr == this
      requires x in strong && y !in strong && y.ctr == this
      modifies this
      ensures Valid() && strong == old(strong) - {x} + {y}
      ensures refCount == old(refCount) && weakCount == old(weakCount)
      ensures weak == old(weak) && raw == old(raw)
    {
      SwapMember(strong, x, y);
      strong := strong - {x} + {y};
    }

    /** `ref_count.fetch_add(1)` for Shared `s`, which now points here. */
    method Acquire(ghost s: Shared)
      requires Counted() && s !in strong && s.ctr == this
      modifies this
      ensures Counted() && (old(refCount) > 0 && old(Lifetime()) ==> Valid())
      ensures refCount == old(refCount) + 1 && strong == old(strong) + {s}
      ensures weakCount == old(weakCount) && weak == old(weak) && raw == old(raw)
    {
      refCount := refCount + 1;
      strong := strong + {s};
    }
  }

  /** Block `c` lost Shared `s`: ref_count went down by one and, on the 1 -> 0
      transition only, every leaf of the payload was destroyed and `raw`
      nulled. The allocation is not freed. */
  twostate predicate DroppedStrong(c: ControlBlock, s: Shared)
    reads c, c.payload, c.baseLocation
  {
    && c.refCount == old(c.refCount) - 1
    && c.strong == old(c.strong) - {s}
    && c.weakCount == old(c.weakCount) && c.weak == old(c.weak)
    && (old(c.refCount) == 1 ==> c.raw == null && c.payload.destroyed == Traverse(c.payload.value))
    && (old(c.refCount) != 1 ==> c.raw == old(c.raw) && c.payload.destroyed == old(c.payload.destroyed))
    && !c.baseLocation.freed
  }

  /** Block `c` gained Shared `s`: ref_count went up by one, nothing else changed. */
  twostate predicate AddedStrong(c: ControlBlock, new s: Shared)
    reads c
  {
    && c.refCount == old(c.refCount) + 1
    && c.strong == old(c.strong) + {s}
    && c.weakCount == old(c.weakCount) && c.weak == old(c.weak)
    && c.raw == old(c.raw)
  }

  /** CoAllocate<T>(arg): one region from aligned `operator new` (at address
      `base`, honouring the requested alignment) holds a fresh control block
      and the payload constructed from `v`, laid out by `Place`. */
  method CoAllocate(v: Value, t: TypeLayout, base: nat) returns (c: ControlBlock)
    requires t.NoWrap()
    requires IsMultipleOf(base, Place(ControlBlockLayout, t).allocAlign)
    ensures fresh(c) && fresh(c.baseLocation) && fresh(c.payload)
    ensures c.refCount == 1 && c.weakCount == 1 && c.strong == {} && c.weak == {}
    ensures c.raw == c.payload && c.payload.value == v && c.payload.Alive() && c.payload.home == c
    ensures c.baseLocation.base == base && !c.baseLocation.freed
    ensures c.baseLocation.size == Place(ControlBlockLayout, t).allocSize
    ensures c.allocAlign == c.baseLocation.align == Place(ControlBlockLayout, t).allocAlign
    ensures c.address == base + Place(ControlBlockLayout, t).ctrOffset
    ensures c.rawAddress == base + Place(ControlBlockLayout, t).tOffset
    ensures IsMultipleOf(c.address, ControlBlockLayout.Align())
    ensures IsMultipleOf(c.rawAddress, t.Align())
  {
    var l := Place(ControlBlockLayout, t);
    AddressesAligned(base, ControlBlockLayout, t);
    var region := new Allocation(base, l.allocSize, l.allocAlign);
    var p := new Payload(v);
    c := new ControlBlock(region, l.allocAlign, base + l.ctrOffset, base + l.tOffset, p);
    p.home := c;
  }

  /** Shared<T>: a single pointer to a control block. */
  class Shared {
    var ctr: ControlBlock?

    ghost function Footprint(): set<object>
      reads this, ctr
    {
      {this} + if ctr == null then {} else ctr.Repr()
    }

    /** A live Shared is one of the block's counted owners. */
    ghost predicate Valid()
      reads this, Footprint()
    {
      ctr != null ==> this in ctr.strong && ctr.Valid()
    }

    /** `Shared()`: owns nothing. */
    constructor Empty()
      ensures ctr == null && Valid()
    {
      ctr := null;
    }

    /** The variadic constructor with one argument of T's own type: a fresh
        co-allocated block owned by this Shared alone. */
    constructor Make(v: Value, t: TypeLayout, base: nat)
      requires t.NoWrap()
      requires IsMultipleOf(base, Place(ControlBlockLayout, t).allocAlign)
      ensures Valid() && fresh(ctr) && fresh(ctr.baseLocation) && fresh(ctr.payload)
      ensures ctr.refCount == 1 && ctr.weakCount == 1 && ctr.strong == {this} && ctr.weak == {}
      ensures ctr.raw == ctr.payload && ctr.payload.value == v
      ensures ctr.baseLocation.base == base && ctr.rawAddress == base + Place(ControlBlockLayout, t).tOffset
    {
      var c := CoAllocate(v, t, base);
      ctr := c;
      new;
      c.strong := {this};
    }

    /** `Shared(ControlBlock*)`: joins an existing block (a null block leaves
        this Shared empty). */
    constructor ShareBlock(c: ControlBlock?)
      requires c != null ==> c.Valid()
      modifies c
      ensures ctr == c
      ensures c != null ==> AddedStrong(c, this)
      ensures c != null && old(c.refCount) > 0 ==> Valid()
    {
      ctr := c;
      new;
      if c != null {
        c.Acquire(this);
      }
    }

    /** `Shared(Weak<T>&& promote)`: an expired Weak yields an empty Shared and
        is left as it was; otherwise this Shared joins the block and the Weak
        is reset. A Weak without a block is dereferenced, so it is excluded. */
    constructor Promote(w: Weak)
      requires w.Valid() && w.ctr != null
      modifies w, w.ctr, w.ctr.baseLocation
      ensures old(w.ctr.refCount) == 0 ==> ctr == null && w.ctr == old(w.ctr) && unchanged(old(w.ctr))
      ensures old(w.ctr.refCount) > 0 ==>
        && ctr == old(w.ctr) && w.ctr == null && Valid()
        && ctr.refCount == old(w.ctr.refCount) + 1 && ctr.strong == old(w.ctr.strong) + {this}
        && ctr.weakCount == old(w.ctr.weakCount) - 1 && ctr.weak == old(w.ctr.weak) - {w}
        && ctr.raw == old(w.ctr.raw)
    {
      var c := w.ctr;
      var expired := w.Expired();
      ctr := if expired then null else c;
      new;
      if !expired {
        c.Acquire(this);
        w.Reset();
      }
    }

    /** The converting copy constructor template: joins `other`'s block. An
        empty `other` is dereferenced, so it is excluded. No instantiation
        selects this body (see ImplicitCopy); it is the counted copy the
        authors wrote. */
    constructor CopyFrom(other: Shared)
      requires other.Valid() && other.ctr != null
      modifies other.ctr
      ensures ctr == other.ctr && AddedStrong(ctr, this) && Valid() && other.Valid()
    {
      ctr := other.ctr;
      new;
      ctr.Acquire(this);
    }

    /** The implicitly declared copy constructor, which `Shared<T> b(a)` with
        a const `a` selects (a non-template constructor is preferred to the
        templates above): `ctr_blk` is copied member-wise and `ref_count` is
        not touched, so the new Shared holds the block without being one of
        its counted owners. */
    constructor ImplicitCopy(other: Shared)
      ensures ctr == other.ctr
      ensures ctr != null ==> this !in ctr.strong && !Valid()
    {
      ctr := other.ctr;
    }

    /** `Release()`: a no-op without a block; otherwise one owner fewer, the
        payload destroyed on the last one, and this Shared always ends empty. */
    method Release()
      requires Valid()
      modifies this, if ctr == null then {} else {ctr, ctr.payload}
      ensures ctr == null
      ensures old(ctr) != null ==> DroppedStrong(old(ctr), this) && old(ctr).Valid()
    {
      if ctr != null {
        var c := ctr;
        var prev := c.refCount;
        c.refCount := prev - 1;
        c.strong := c.strong - {this};
        if prev == 1 {
          c.payload.destroyed := Traverse(c.raw.value);
          c.raw := null;
          if c.weakCount == 0 {
            // On a counted block weak_count keeps the initial slot, so this branch is dead.
            assert false;
          }
        }
        ctr := null;
      }
    }

    /** The converting copy assignment template: self-assignment is a no-op;
        otherwise the old block is released and `cpy`'s block joined. No
        instantiation selects this body (see ImplicitCopyAssign). */
    method CopyAssign(cpy: Shared)
      requires Valid() && cpy.Valid()
      modifies this, cpy.ctr, if ctr == null then {} else {ctr, ctr.payload}
      ensures this == cpy ==> unchanged(this) && (ctr != null ==> unchanged(ctr))
      ensures this != cpy ==> ctr == cpy.ctr == old(cpy.ctr) && Valid() && cpy.Valid()
      ensures this != cpy && old(ctr) != null && old(ctr) != old(cpy.ctr) ==>
        DroppedStrong(old(ctr), this)
      ensures this != cpy && old(cpy.ctr) != null && old(cpy.ctr) != old(ctr) ==>
        AddedStrong(old(cpy.ctr), this)
      ensures this != cpy && old(cpy.ctr) != null && old(cpy.ctr) == old(ctr) ==>
        var c := old(ctr);
        c.refCount == old(c.refCount) && c.strong == old(c.strong) && c.raw == old(c.raw)
        && c.weakCount == old(c.weakCount) && c.weak == old(c.weak)
    {
      if this == cpy {
        return;
      }
      ghost var a, b := ctr, cpy.ctr;
      if a != null && a == b {
        // Both are counted owners, so releasing this one is not the last.
        TwoMembers(a.strong, this, cpy);
      }
      if b != null && a != b {
        assert this !in b.strong;
      }
      Release();
      Adopt(cpy);
    }

    /** The tail of the copy assignment: take `cpy`'s block (stopping there
        when it is empty) and count this Shared on it. */
    method Adopt(cpy: Shared)
      requires ctr == null && this != cpy && cpy.Valid()
      requires cpy.ctr != null ==> this !in cpy.ctr.strong
      modifies this, cpy.ctr
      ensures ctr == cpy.ctr && Valid() && cpy.Valid()
      ensures ctr != null ==> AddedStrong(ctr, this)
    {
      ctr := cpy.ctr;
      if ctr == null {
        return;
      }
      ctr.Acquire(this);
    }

    /** The implicitly declared copy assignment, which `b = a` selects for
        an lvalue Shared<T> `a` (it is preferred to the template above):
        `ctr_blk` is overwritten member-wise. The old block is not released,
        so it keeps a count that no Shared will give back and its payload is
        never destroyed; the new block is held by a Shared it does not count. */
    method ImplicitCopyAssign(cpy: Shared)
      modifies this, ctr
      ensures ctr == old(cpy.ctr)
      ensures old(Valid()) && old(ctr) != null && old(ctr) != ctr ==>
        var c := old(ctr);
        && c.refCount == old(c.refCount) && c.refCount == |c.strong| + 1
        && c.strong == old(c.strong) - {this} && c.raw == old(c.raw)
      ensures old(cpy.Valid()) && ctr != null && ctr != old(ctr) ==>
        this !in ctr.strong && !Valid()
      ensures ctr == old(ctr) ==> ctr == null || unchanged(ctr)
    {
      var c := ctr;
      ctr := cpy.ctr;
      if c != null && c != ctr {
        if this in c.strong {
          assert c.strong == (c.strong - {this}) + {this};
        }
        c.strong := c.strong - {this};
      }
    }

    /** The converting move assignment: self-assignment is a no-op; otherwise
        the old block is released and `mv`'s block handed over, leaving `mv`
        empty. */
    method MoveAssign(mv: Shared)
      requires Valid() && mv.Valid()
      modifies this, mv, mv.ctr, if ctr == null then {} else {ctr, ctr.payload}
      ensures this == mv ==> unchanged(this) && (ctr != null ==> unchanged(ctr))
      ensures this != mv ==> ctr == old(mv.ctr) && mv.ctr == null && Valid() && mv.Valid()
      ensures this != mv && old(ctr) != null && old(ctr) != old(mv.ctr) ==>
        DroppedStrong(old(ctr), this)
      ensures this != mv && old(mv.ctr) != null && old(mv.ctr) != old(ctr) ==>
        var b := old(mv.ctr);
        b.refCount == old(b.refCount) && b.strong == old(b.strong) - {mv} + {this}
        && b.raw == old(b.raw) && b.weak == old(b.weak)
      ensures this != mv && old(mv.ctr) != null && old(mv.ctr) == old(ctr) ==>
        var b := old(mv.ctr);
        b.refCount == old(b.refCount) - 1 && b.strong == old(b.strong) - {mv}
        && b.raw == old(b.raw) && b.weak == old(b.weak)
    {
      if this == mv {
        return;
      }
      ghost var a, b := ctr, mv.ctr;
      if a != null && a == b {
        // Both are counted owners, so releasing this one is not the last.
        TwoMembers(a.strong, this, mv);
      }
      if b != null && a != b {
        assert this !in b.strong;
      }
      ghost var owners := if a == null then {} else a.strong;
      Release();
      TakeOver(mv);
      if a != null && a == b {
        ReturnedOwner(owners, this, mv);
      }
    }

    /** The tail of the move assignment: `std::swap` with an empty Shared,
        so `mv`'s place on its block passes to this Shared. */
    method TakeOver(mv: Shared)
      requires ctr == null && this != mv && mv.Valid()
      requires mv.ctr != null ==> this !in mv.ctr.strong
      modifies this, mv, mv.ctr
      ensures ctr == old(mv.ctr) && mv.ctr == null && Valid() && mv.Valid()
      ensures old(mv.ctr) != null ==>
        var b := old(mv.ctr);
        b.refCount == old(b.refCount) && b.strong == old(b.strong) - {mv} + {this}
        && b.raw == old(b.raw) && b.weak == old(b.weak)
    {
      var c := mv.ctr;
      ctr, mv.ctr := c, null;
      if c != null {
        c.HandOver(mv, this);
      }
    }

    /** `swap`: the two Shareds exchange blocks; no count changes. */
    method Swap(rhs: Shared)
      requires Valid() && rhs.Valid()
      modifies this, rhs, ctr, rhs.ctr
      ensures ctr == old(rhs.ctr) && rhs.ctr == old(ctr)
      ensures Valid() && rhs.Valid()
      ensures old(ctr) != null ==> old(ctr).refCount == old(ctr.refCount) && old(ctr).raw == old(ctr.raw)
      ensures old(rhs.ctr) != null ==>
        old(rhs.ctr).refCount == old(rhs.ctr.refCount) && old(rhs.ctr).raw == old(rhs.ctr.raw)
    {
      var a, b := ctr, rhs.ctr;
      if a == b {
        // Both already point at the same block (or both are empty).
        return;
      }
      ctr, rhs.ctr := b, a;
      if a != null {
        a.HandOver(this, rhs);
      }
      if b != null {
        b.HandOver(rhs, this);
      }
    }

    /** `get()`: the managed object, alive, exactly when there is a block. */
    function Get(): (r: Payload?)
      reads this, ctr
      ensures ctr == null ==> r == null
      ensures Valid() ==> (r != null <==> ctr != null)
      ensures Valid() && r != null ==> r == ctr.payload && r.Alive()
    {
      if ctr != null then ctr.raw else null
    }

    /** `UseCount()`: the number of Shared objects owning the block. */
    function UseCount(): (r: nat)
      reads this, ctr
      ensures Valid() ==> r == if ctr == null then 0 else |ctr.strong|
      ensures Valid() ==> (r == 0 <==> ctr == null)
    {
      if ctr != null then ctr.refCount else 0
    }

    /** `Constructed()`: whether there is a block at all. */
    function Constructed(): (r: bool)
      reads this
      ensures Valid() ==> (r <==> UseCount() > 0)
    {
      ctr != null
    }

    /** `operator bool`: a block with a live payload; for a valid Shared this
        is the same as having a block. */
    function IsLive(): (r: bool)
      reads this, ctr
      ensures r ==> Get() != null
      ensures Valid() ==> (r <==> Constructed())
    {
      ctr != null && ctr.raw != null
    }
  }

  /** The member-wise copy of a Weak that `Lock` constructs in a new block: it
      is not a range, so Traverse sees a single leaf. */
  const WeakCopy: Value := Leaf(0)

  /** Weak<T>: a non-owning pointer to a control block. */
  class Weak {
    var ctr: ControlBlock?

    ghost function Footprint(): set<object>
      reads this, ctr
    {
      {this} + if ctr == null then {} else ctr.Repr()
    }

    ghost predicate Valid()
      reads this, Footprint()
    {
      ctr != null ==> this in ctr.weak && ctr.Valid()
    }

    /** `Weak(const Shared<T>&)`: joins the block's weak count. An empty
        Shared is dereferenced, so it is excluded. */
    constructor FromShared(s: Shared)
      requires s.Valid() && s.ctr != null
      modifies s.ctr
      ensures ctr == s.ctr && Valid() && s.Valid()
      ensures ctr.weakCount == old(s.ctr.weakCount) + 1 && ctr.weak == old(s.ctr.weak) + {this}
      ensures ctr.refCount == old(s.ctr.refCount) && ctr.strong == old(s.ctr.strong) && ctr.raw == old(s.ctr.raw)
    {
      ctr := s.ctr;
      new;
      ctr.weakCount := ctr.weakCount + 1;
      ctr.weak := ctr.weak + {this};
    }

    /** The implicitly declared copy constructor, which `Weak<T> w2 = w1`
        selects: `ctr_blk` is copied member-wise and `weak_count` is not
        touched, so the new Weak holds the block without being counted. */
    constructor ImplicitCopy(other: Weak)
      ensures ctr == other.ctr
      ensures ctr != null ==> this !in ctr.weak && !Valid()
    {
      ctr := other.ctr;
    }

    /** A counted copy of a Weak, the way `Weak(const Shared<T>&)` counts
        itself: it joins the block's weak count. */
    constructor CopyFrom(other: Weak)
      requires other.Valid()
      modifies other.ctr
      ensures ctr == other.ctr && Valid() && other.Valid()
      ensures ctr != null ==>
        && ctr.weakCount == old(other.ctr.weakCount) + 1 && ctr.weak == old(other.ctr.weak) + {this}
        && ctr.refCount == old(other.ctr.refCount) && ctr.strong == old(other.ctr.strong)
        && ctr.raw == old(other.ctr.raw)
    {
      ctr := other.ctr;
      new;
      if ctr != null {
        ctr.weakCount := ctr.weakCount + 1;
        ctr.weak := ctr.weak + {this};
      }
    }

    /** `Expired()`: there is a block and no Shared owns it any more. */
    function Expired(): (r: bool)
      reads this, ctr
      ensures Valid() ==> (r <==> ctr != null && ctr.strong == {})
    {
      ctr != null && ctr.refCount == 0
    }

    /** `Lock()` as written: `Shared<T>(*this)` selects the variadic
        constructor, so a live block is not shared; a new block is allocated
        (laid out for T) holding a copy of this Weak, and the original block's
        counts do not move. */
    method Lock(t: TypeLayout, base: nat) returns (r: Shared)
      requires Valid() && ctr != null
      requires t.NoWrap()
      requires IsMultipleOf(base, Place(ControlBlockLayout, t).allocAlign)
      ensures fresh(r) && unchanged(ctr)
      ensures ctr.refCount == 0 ==> r.ctr == null
      ensures ctr.refCount > 0 ==>
        && r.Valid() && fresh(r.ctr) && r.UseCount() == 1
        && r.ctr.payload.value == WeakCopy && r.Get() != ctr.raw
    {
      if ctr.refCount == 0 {
        r := new Shared.Empty();
        return;
      }
      r := new Shared.Make(WeakCopy, t, base);
    }

    /** `Lock()` as intended: a live block gains one more owner, which is
        returned; an expired one yields an empty Shared. */
    method LockShared() returns (r: Shared)
      requires Valid() && ctr != null
      modifies ctr
      ensures fresh(r)
      ensures old(ctr.refCount) == 0 ==> r.ctr == null && unchanged(ctr)
      ensures old(ctr.refCount) > 0 ==>
        && r.ctr == ctr && AddedStrong(ctr, r) && r.Valid() && Valid()
        && r.Get() == ctr.payload && r.UseCount() == old(ctr.refCount) + 1
    {
      if ctr.refCount == 0 {
        r := new Shared.Empty();
        return;
      }
      r := new Shared.ShareBlock(ctr);
    }

    /** `Reset()`: `weak_count.fetch_sub(1)` (wrapping at 0 like the
        uint32_t it is) and this Weak ends empty. The region is freed when the
        count drops from 1 while no Shared owns the block. On a counted block
        that never happens, since the initial weak slot remains. Touching a
        block whose region was freed is excluded. */
    method Reset()
      requires ctr != null ==> !ctr.baseLocation.freed
      modifies this, ctr, if ctr == null then {} else {ctr.baseLocation}
      ensures ctr == null
      ensures old(ctr) != null ==>
        var c := old(ctr);
        && c.weakCount == (if old(c.weakCount) == 0 then UInt32Max else old(c.weakCount) - 1)
        && c.weak == old(c.weak) - {this}
        && c.refCount == old(c.refCount) && c.strong == old(c.strong) && c.raw == old(c.raw)
        && (c.baseLocation.freed <==> old(c.weakCount) == 1 && old(c.refCount) == 0)
      ensures old(Valid()) && old(ctr) != null ==> old(ctr).Valid() && old(ctr).weakCount >= 1
    {
      if ctr != null {
        var c := ctr;
        var prev := c.weakCount;
        c.weakCount := if prev == 0 then UInt32Max else prev - 1;
        c.weak := c.weak - {this};
        if prev == 1 && c.refCount == 0 {
          c.baseLocation.freed := true;
        }
        ctr := null;
      }
    }

    /** `UseCount()`: the number of Shared objects owning the block. */
    function UseCount(): (r: nat)
      reads this, ctr
      ensures Valid() ==> r == if ctr == null then 0 else |ctr.strong|
    {
      if ctr != null then ctr.refCount else 0
    }

    /** `operator bool`: not expired and the payload still there. A Weak
        without a block is dereferenced, so it is excluded. */
    function IsLive(): (r: bool)
      requires ctr != null
      reads this, ctr
      ensures Valid() ==> (r <==> !Expired())
    {
      !Expired() && ctr.raw != null
    }
  }

  /** `Shared<T> a(v); const Shared<T>& r = a; Shared<T> b(r);` and then `a`
      released: the implicit copy is not counted, so `a` was the last owner
      the count knew of. The payload is destroyed while `b` still holds the
      block, which claims no owner and no object. */
  method ImplicitCopyOutlivesPayload(v: Value, t: TypeLayout, base: nat) returns (b: Shared)
    requires t.NoWrap()
    requires IsMultipleOf(base, Place(ControlBlockLayout, t).allocAlign)
    ensures b.Constructed() && b.UseCount() == 0 && b.Get() == null
    ensures b.ctr.payload.value == v && b.ctr.payload.destroyed == Traverse(v)
  {
    var a := new Shared.Make(v, t, base);
    b := new Shared.ImplicitCopy(a);
    a.Release();
  }

  /** The same steps with the counted copy: `b` keeps the payload alive. */
  method CountedCopyKeepsPayload(v: Value, t: TypeLayout, base: nat) returns (b: Shared)
    requires t.NoWrap()
    requires IsMultipleOf(base, Place(ControlBlockLayout, t).allocAlign)
    ensures b.Valid() && b.UseCount() == 1
    ensures b.Get() != null && b.Get().value == v && b.Get().Alive()
  {
    var a := new Shared.Make(v, t, base);
    b := new Shared.CopyFrom(a);
    a.Release();
  }

  /** One Shared, a Weak on it and two implicit copies of that Weak: after
      the Shared is released and two of the Weaks are reset, the region is
      freed while the third Weak still holds the block, so its destructor's
      `Reset` reads freed memory. */
  method ImplicitWeakCopiesOutliveRegion(v: Value, t: TypeLayout, base: nat) returns (w3: Weak)
    requires t.NoWrap()
    requires IsMultipleOf(base, Place(ControlBlockLayout, t).allocAlign)
    ensures w3.ctr != null && w3.ctr.baseLocation.freed
    ensures w3.ctr.weakCount == 0 && w3.ctr.refCount == 0
  {
    var a := new Shared.Make(v, t, base);
    var w1 := new Weak.FromShared(a);
    var w2 := new Weak.ImplicitCopy(w1);
    w3 := new Weak.ImplicitCopy(w1);
    a.Release();
    w1.Reset();
    w2.Reset();
  }

  /** The same steps with counted copies: the remaining Weak holds a block
      whose region is still there, and it reports the block expired. */
  method CountedWeakCopiesKeepRegion(v: Value, t: TypeLayout, base: nat) returns (w3: Weak)
    requires t.NoWrap()
    requires IsMultipleOf(base, Place(ControlBlockLayout, t).allocAlign)
    ensures w3.Valid() && w3.ctr != null && !w3.ctr.baseLocation.freed
    ensures w3.Expired() && w3.ctr.weakCount == 2
  {
    var a := new Shared.Make(v, t, base);
    var w1 := new Weak.FromShared(a);
    var w2 := new Weak.CopyFrom(w1);
    w3 := new Weak.CopyFrom(w1);
    a.Release();
    w1.Reset();
    w2.Reset();
  }

  /** Replacing a member of a set by a non-member keeps its size. */
  lemma SwapMember<T>(s: set<T>, x: T, y: T)
    requires x in s && y !in s
    ensures |s - {x} + {y}| == |s|
  {
    assert s - {x} + {y} == (s - {x}) + {y};
    assert |s - {x}| == |s| - 1;
  }

  /** A set holding two distinct members has at least two elements. */
  lemma TwoMembers<T>(s: set<T>, x: T, y: T)
    requires x in s && y in s && x != y
    ensures |s| >= 2
  {
    var r := s - {x};
    assert y in r;
    assert s == r + {x};
  }

  /** Taking `t` out and putting it back after removing `m` only removes `m`. */
  lemma ReturnedOwner<T>(s: set<T>, t: T, m: T)
    requires t in s && t != m
    ensures s - {t} - {m} + {t} == s - {m}
  {
  }
}
