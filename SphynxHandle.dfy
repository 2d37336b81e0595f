/** The earlier `Handle<T>` of the Sphynx engine: the same sole-owner protocol
    as the Hubris one, always deleting with scalar `delete`. */
module SphynxHandle {
  import opened SharedOwnership

  class Handle {
    var raw: Payload?

    /** `Handle()` and `Handle(T*)`, and the explicit upcasting `Handle(U*)`. */
    constructor (p: Payload?)
      ensures raw == p
    {
      raw := p;
    }

    /** `Handle(Handle&&)`: takes the source's object, leaving it empty. */
    constructor MoveFrom(mv: Handle)
      modifies mv
      ensures raw == old(mv.raw) && mv.raw == null
    {
      raw := null;
      new;
      raw, mv.raw := mv.raw, raw;
    }

    /** The converting `Handle(Handle<U>&&)`: `reset()` of the fresh null
        pointer, then a swap. */
    constructor ConvertFrom(other: Handle)
      modifies other
      ensures raw == old(other.raw) && other.raw == null
    {
      raw := null;
      new;
      Reset(null);
      raw, other.raw := other.raw, raw;
    }

    /** `reset(ptr)`: a different pointer deletes the held object (if any)
        and is stored; the same pointer changes nothing. */
    method Reset(ptr: Payload?)
      modifies this, raw
      ensures raw == ptr
      ensures old(raw) != ptr && old(raw) != null ==>
        old(raw).deletes == old(raw.deletes) + [Scalar] && old(raw).destroyed == old(raw.destroyed)
      ensures ptr != null ==> unchanged(ptr)
    {
      if raw != ptr {
        if raw != null {
          // `delete nullptr` is a no-op.
          raw.deletes := raw.deletes + [Scalar];
        }
        raw := ptr;
      }
    }

    /** `release()`: hands the pointer out and forgets it without deleting. */
    method Release() returns (p: Payload?)
      modifies this
      ensures p == old(raw) && raw == null
    {
      p := raw;
      raw := null;
    }

    /** `operator=(Handle&&)`: a no-op on itself; otherwise deletes the held
        object and takes the source's, leaving the source empty. */
    method MoveAssign(mv: Handle)
      modifies this, mv, raw
      ensures this == mv ==> unchanged(this)
      ensures this != mv ==> raw == old(mv.raw) && mv.raw == null
      ensures this != mv && old(raw) != null ==> old(raw).deletes == old(raw.deletes) + [Scalar]
    {
      if this == mv {
        return;
      }
      Reset(null);
      raw, mv.raw := mv.raw, raw;
    }

    /** `swap(rhs)`: exchanges the pointers. */
    method Swap(rhs: Handle)
      modifies this, rhs
      ensures raw == old(rhs.raw) && rhs.raw == old(raw)
    {
      raw, rhs.raw := rhs.raw, raw;
    }

    /** `get()`: the owned pointer, handed out without giving up ownership. */
    function Get(): (r: Payload?)
      reads this
      ensures r == raw
    {
      raw
    }

    /** `operator==`: the same address. */
    function Equals(rhs: Handle): (r: bool)
      reads this, rhs
      ensures r <==> Get() == rhs.Get()
    {
      rhs.raw == raw
    }

    /** `operator!=`: different addresses. */
    function NotEquals(rhs: Handle): (r: bool)
      reads this, rhs
      ensures r <==> Get() != rhs.Get()
    {
      rhs.raw != raw
    }

    /** `operator bool`: a non-null pointer. */
    function IsSet(): (r: bool)
      reads this
      ensures r <==> Get() != null
    {
      raw != null
    }

    /** `operator!` as written: the pointer converted to bool, not negated. */
    function Not(): (r: bool)
      reads this
      ensures r <==> Get() != null
    {
      raw != null
    }

    /** `operator!` as intended: true exactly for an empty handle. */
    function NotFixed(): (r: bool)
      reads this
      ensures r <==> Get() == null
    {
      raw == null
    }
  }

  /** As written, `!h` and `bool(h)` agree on every handle, so `!h` is true
      for a handle that holds an object. */
  lemma NotAgreesWithBool(h: Handle)
    ensures h.Not() == h.IsSet()
    ensures h.Get() != null ==> h.Not()
  {
  }

  /** The corrected `operator!` is the negation of `operator bool`. */
  lemma NotFixedIsNegation(h: Handle)
    ensures h.NotFixed() == !h.IsSet()
  {
  }
}
