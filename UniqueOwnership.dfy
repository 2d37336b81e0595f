/** `Handle<T>` (a sole owner of a heap object) and `Observer<T>` (a
    non-owning pointer) of the Hubris ownership library. */
module UniqueOwnership {
  import opened Traversal
  import opened CoAllocation
  import opened SharedOwnership

  /** The type traits `ToShared` dispatches on. `polymorphic` is T being a
      class with a virtual destructor, which is what lets the converting move
      assignment of Shared apply to Shared<T> itself. */
  datatype Traits = Traits(
    triviallyCopyable: bool,
    moveConstructible: bool,
    copyConstructible: bool,
    polymorphic: bool)

  /** Handle<T>: `T* raw`, deleted with `delete[]` when T is an array type. */
  class Handle {
    const isArray: bool
    var raw: Payload?

    /** A handle owns a live object or nothing. */
    ghost predicate Valid()
      reads this, raw
    {
      raw != null ==> raw.Alive()
    }

    /** `Handle()`, `Handle(nullptr)`, `Handle(T*)` and the upcasting
        `Handle(U*)`: hold `p`, which may be null. */
    constructor (isArray: bool, p: Payload?)
      ensures this.isArray == isArray && raw == p
    {
      this.isArray := isArray;
      raw := p;
    }

    /** `Handle(Handle&&)`: std::swap with the fresh null pointer takes the
        source's object and leaves the source empty. */
    constructor MoveFrom(mv: Handle)
      modifies mv
      ensures isArray == mv.isArray && raw == old(mv.raw) && mv.raw == null
    {
      isArray := mv.isArray;
      raw := null;
      new;
      raw, mv.raw := mv.raw, raw;
    }

    /** The converting `Handle(Handle<U>&&)`: `reset()` on the fresh null
        pointer deletes nothing, then the pointers are swapped. */
    constructor ConvertFrom(isArray: bool, other: Handle)
      modifies other
      ensures this.isArray == isArray && raw == old(other.raw) && other.raw == null
    {
      this.isArray := isArray;
      raw := null;
      new;
      Reset(null);
      raw, other.raw := other.raw, raw;
    }

    /** `reset(ptr)`: when `ptr` differs from the held pointer, the held
        object (if any) is deleted with the expression matching T and `ptr`
        stored; when it is the same pointer nothing happens. */
    method Reset(ptr: Payload?)
      modifies this, raw
      ensures raw == ptr
      ensures old(raw) != ptr && old(raw) != null ==>
        old(raw).deletes == old(raw.deletes) + [if isArray then Array else Scalar]
        && old(raw).destroyed == old(raw.destroyed)
      ensures ptr != null ==> unchanged(ptr)
    {
      if raw != ptr {
        if raw != null {
          // `delete nullptr` is a no-op, so only a held object is deleted.
          raw.deletes := raw.deletes + [if isArray then Array else Scalar];
        }
        raw := ptr;
      }
    }

    /** `release()`: hands the pointer out and forgets it; nothing is deleted. */
    method Release() returns (p: Payload?)
      modifies this
      ensures p == old(raw) && raw == null
    {
      p := raw;
      raw := null;
    }

    /** `operator=(Handle&&)`: self-assignment is a no-op; otherwise the held
        object is deleted and the source's pointer taken, leaving the source
        empty. */
    method MoveAssign(mv: Handle)
      requires isArray == mv.isArray
      modifies this, mv, raw
      ensures this == mv ==> raw == old(raw) && unchanged(this)
      ensures this != mv ==> raw == old(mv.raw) && mv.raw == null
      ensures this != mv && old(raw) != null ==>
        old(raw).deletes == old(raw.deletes) + [if isArray then Array else Scalar]
    {
      if this == mv {
        return;
      }
      Reset(null);
      raw, mv.raw := mv.raw, raw;
    }

    /** `swap(rhs)`: the two handles exchange pointers; nothing is deleted. */
    method Swap(rhs: Handle)
      modifies this, rhs
      ensures raw == old(rhs.raw) && rhs.raw == old(raw)
    {
      raw, rhs.raw := rhs.raw, raw;
    }

    /** `get()`: the owned pointer, handed out without giving up ownership. */
    function Get(): (r: Payload?)
      reads this
      ensures r == raw
    {
      raw
    }

    /** `operator bool`: a non-null pointer. */
    function IsSet(): (r: bool)
      reads this
      ensures r <==> Get() != null
    {
      raw != null
    }

    /** `operator!`: a null pointer. */
    function Not(): (r: bool)
      reads this
      ensures r <==> Get() == null
    {
      raw == null
    }

    /** `operator==`: the same address. */
    function Equals(rhs: Handle): (r: bool)
      reads this, rhs
      ensures r <==> Get() == rhs.Get()
    {
      raw == rhs.raw
    }

    /** `operator!=`: different addresses. */
    function NotEquals(rhs: Handle): (r: bool)
      reads this, rhs
      ensures r <==> Get() != rhs.Get()
    {
      rhs.raw != raw
    }

    /** `ToShared()` as written. A null handle gives an empty Shared. A
        trivially copyable T is copied into a fresh co-allocated block.
        Otherwise a temporary `Shared<T>(std::move(*raw))` (or the copying
        form) is built and assigned to `shared`; unless T is polymorphic
        that assignment is the implicit member-wise copy, so the temporary's
        destructor releases the only count and `shared` is left on a block
        whose payload is already destroyed. A T that is neither movable nor
        copyable gives an empty Shared. The handle always ends empty, its
        object deleted. */
    method ToShared(tr: Traits, t: TypeLayout, base: nat) returns (s: Shared)
      requires !isArray && Valid()
      requires t.NoWrap()
      requires IsMultipleOf(base, Place(ControlBlockLayout, t).allocAlign)
      modifies this, raw
      ensures fresh(s) && raw == null
      ensures old(raw) == null ==> s.ctr == null
      ensures old(raw) != null ==> old(raw).deletes == [Scalar]
      ensures old(raw) != null && (tr.triviallyCopyable || ((tr.moveConstructible || tr.copyConstructible) && tr.polymorphic)) ==>
        && s.Valid() && fresh(s.ctr) && s.UseCount() == 1
        && s.Get() == s.ctr.payload && s.ctr.payload.value == old(raw).value
      ensures old(raw) != null && !tr.triviallyCopyable && (tr.moveConstructible || tr.copyConstructible) && !tr.polymorphic ==>
        && fresh(s.ctr) && s.ctr.refCount == 0 && s.ctr.strong == {} && s !in s.ctr.strong
        && s.Get() == null && s.ctr.payload.value == old(raw).value
        && s.ctr.payload.destroyed == Traverse(old(raw).value)
      ensures old(raw) != null && !tr.triviallyCopyable && !tr.moveConstructible && !tr.copyConstructible ==>
        s.ctr == null
    {
      if raw == null {
        s := new Shared.Empty();
        return;
      }
      s := new Shared.Empty();
      if tr.triviallyCopyable {
        // CoAllocate_Unsafe<T>() and a memmove of the object's bytes.
        var c := CoAllocate(raw.value, t, base);
        s.ctr := c;
        c.strong := {s};
      } else if tr.moveConstructible || tr.copyConstructible {
        var tmp := new Shared.Make(raw.value, t, base);
        if tr.polymorphic {
          s.MoveAssign(tmp);
        } else {
          // The implicit copy assignment: the pointer is copied, no count taken.
          s.ctr := tmp.ctr;
        }
        // The temporary's destructor.
        tmp.Release();
      }
      Reset(null);
    }

    /** `ToShared()` as intended: the object is moved (or copied) into a fresh
        co-allocated block owned by the returned Shared alone, and the handle
        ends empty with its object deleted. */
    method ToSharedFixed(tr: Traits, t: TypeLayout, base: nat) returns (s: Shared)
      requires !isArray && Valid()
      requires t.NoWrap()
      requires IsMultipleOf(base, Place(ControlBlockLayout, t).allocAlign)
      modifies this, raw
      ensures fresh(s) && raw == null && s.Valid()
      ensures old(raw) == null ==> s.ctr == null
      ensures old(raw) != null ==> old(raw).deletes == [Scalar]
      ensures old(raw) != null && (tr.triviallyCopyable || tr.moveConstructible || tr.copyConstructible) ==>
        && fresh(s.ctr) && s.UseCount() == 1
        && s.Get() == s.ctr.payload && s.ctr.payload.value == old(raw).value
      ensures old(raw) != null && !tr.triviallyCopyable && !tr.moveConstructible && !tr.copyConstructible ==>
        s.ctr == null
    {
      if raw == null || !(tr.triviallyCopyable || tr.moveConstructible || tr.copyConstructible) {
        s := new Shared.Empty();
      } else {
        s := new Shared.Make(raw.value, t, base);
      }
      Reset(null);
    }
  }

  /** `operator!` agrees with `operator bool`: one is the negation of the other. */
  lemma NotIsNegation(h: Handle)
    ensures h.Not() == !h.IsSet()
  {
  }

  /** Observer<T>: a pointer that never owns, copies or deletes. */
  class Observer {
    var ptr: Payload?

    /** `Observer()`, `Observer(nullptr)`, `Observer(T*)`, `Observer(U*)`. */
    constructor (p: Payload?)
      ensures ptr == p
    {
      ptr := p;
    }

    /** The copy and converting copy constructors. */
    constructor CopyFrom(other: Observer)
      ensures ptr == other.ptr
    {
      ptr := other.Get();
    }

    /** The copy, converting and pointer assignments. */
    method Assign(p: Payload?)
      modifies this
      ensures ptr == p
    {
      ptr := p;
    }

    /** `reset(ptr)`: stores the pointer, deleting nothing. */
    method Reset(p: Payload?)
      modifies this
      ensures ptr == p
    {
      ptr := p;
    }

    /** `release()`: forgets the pointer, deleting nothing. */
    method Release()
      modifies this
      ensures ptr == null
    {
      ptr := null;
    }

    /** `get()`: the observed pointer. */
    function Get(): (r: Payload?)
      reads this
      ensures r == ptr
    {
      ptr
    }

    /** `operator bool`: a non-null pointer. */
    function IsSet(): (r: bool)
      reads this
      ensures r <==> Get() != null
    {
      ptr != null
    }

    /** `operator==`: the same address. */
    function Equals(other: Observer): (r: bool)
      reads this, other
      ensures r <==> Get() == other.Get()
    {
      ptr == other.ptr
    }
  }
}
