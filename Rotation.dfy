/** The 32-bit rotations of the Sphynx core utilities. The proofs split the
    masked count into ranges, which keeps each bit-vector query small. */
module Rotation {

  /** `CHAR_BIT * sizeof(uint32_t) - 1`: the shift count is masked to 0..31. */
  const RotMask: bv32 := 31

  /** `rotl32(n, c)`: the count is masked, and the bits shifted out on the
      left re-enter on the right through a shift by `(-c) & mask`. */
  function Rotl32(n: bv32, c: bv32): bv32
  {
    RotlMasked(n, c & RotMask)
  }

  /** The body of rotl32 once `c &= mask` has run. */
  function RotlMasked(n: bv32, c: bv32): bv32
    requires c <= RotMask
  {
    (n << c) | (n >> ((0 - c) & RotMask))
  }

  /** `rotr32(n, c)`: the mirror image of Rotl32. */
  function Rotr32(n: bv32, c: bv32): bv32
  {
    RotrMasked(n, c & RotMask)
  }

  /** The body of rotr32 once `c &= mask` has run. */
  function RotrMasked(n: bv32, c: bv32): bv32
    requires c <= RotMask
  {
    (n >> c) | (n << ((0 - c) & RotMask))
  }

  /** Bit i of n. */
  function Bit(n: bv32, i: bv32): bool
    requires i <= RotMask
  {
    (n >> i) & 1 == 1
  }

  /** The reference meaning of rotation: bit i of n lands at bit
      (i + c) mod 32 of `rotl32(n, c)`. */
  lemma RotlMovesBits(n: bv32, c: bv32, i: bv32)
    requires i <= RotMask
    ensures Bit(Rotl32(n, c), (i + c) & RotMask) == Bit(n, i)
  {
    var m := c & RotMask;
    if m <= 0 {
      MovesBitsFrom0(n, c, i);
    } else if m <= 3 {
      MovesBitsFrom1(n, c, i);
    } else if m <= 7 {
      MovesBitsFrom4(n, c, i);
    } else if m <= 11 {
      MovesBitsFrom8(n, c, i);
    } else if m <= 15 {
      MovesBitsFrom12(n, c, i);
    } else if m <= 19 {
      MovesBitsFrom16(n, c, i);
    } else if m <= 23 {
      MovesBitsFrom20(n, c, i);
    } else if m <= 27 {
      MovesBitsFrom24(n, c, i);
    } else {
      MovesBitsFrom28(n, c, i);
    }
  }

  /** RotlMovesBits for a masked count in 0..0. */
  lemma MovesBitsFrom0(n: bv32, c: bv32, i: bv32)
    requires 0 <= c & RotMask <= 0 && i <= RotMask
    ensures Bit(Rotl32(n, c), (i + c) & RotMask) == Bit(n, i)
  {
  }

  /** RotlMovesBits for a masked count in 1..3. */
  lemma MovesBitsFrom1(n: bv32, c: bv32, i: bv32)
    requires 1 <= c & RotMask <= 3 && i <= RotMask
    ensures Bit(Rotl32(n, c), (i + c) & RotMask) == Bit(n, i)
  {
  }

  /** RotlMovesBits for a masked count in 4..7. */
  lemma MovesBitsFrom4(n: bv32, c: bv32, i: bv32)
    requires 4 <= c & RotMask <= 7 && i <= RotMask
    ensures Bit(Rotl32(n, c), (i + c) & RotMask) == Bit(n, i)
  {
  }

  /** RotlMovesBits for a masked count in 8..11. */
  lemma MovesBitsFrom8(n: bv32, c: bv32, i: bv32)
    requires 8 <= c & RotMask <= 11 && i <= RotMask
    ensures Bit(Rotl32(n, c), (i + c) & RotMask) == Bit(n, i)
  {
  }

  /** RotlMovesBits for a masked count in 12..15. */
  lemma MovesBitsFrom12(n: bv32, c: bv32, i: bv32)
    requires 12 <= c & RotMask <= 15 && i <= RotMask
    ensures Bit(Rotl32(n, c), (i + c) & RotMask) == Bit(n, i)
  {
  }

  /** RotlMovesBits for a masked count in 16..19. */
  lemma MovesBitsFrom16(n: bv32, c: bv32, i: bv32)
    requires 16 <= c & RotMask <= 19 && i <= RotMask
    ensures Bit(Rotl32(n, c), (i + c) & RotMask) == Bit(n, i)
  {
  }

  /** RotlMovesBits for a masked count in 20..23. */
  lemma MovesBitsFrom20(n: bv32, c: bv32, i: bv32)
    requires 20 <= c & RotMask <= 23 && i <= RotMask
    ensures Bit(Rotl32(n, c), (i + c) & RotMask) == Bit(n, i)
  {
  }

  /** RotlMovesBits for a masked count in 24..27. */
  lemma MovesBitsFrom24(n: bv32, c: bv32, i: bv32)
    requires 24 <= c & RotMask <= 27 && i <= RotMask
    ensures Bit(Rotl32(n, c), (i + c) & RotMask) == Bit(n, i)
  {
  }

  /** RotlMovesBits for a masked count in 28..31. */
  lemma MovesBitsFrom28(n: bv32, c: bv32, i: bv32)
    requires 28 <= c & RotMask <= 31 && i <= RotMask
    ensures Bit(Rotl32(n, c), (i + c) & RotMask) == Bit(n, i)
  {
  }

  /** Rotating right by the same count undoes a left rotation. */
  lemma RotrUndoesRotl(n: bv32, c: bv32)
    ensures Rotr32(Rotl32(n, c), c) == n
  {
    var m := c & RotMask;
    if m < 8 {
      RotrUndoesRotlFrom0(n, m);
    } else if m < 16 {
      RotrUndoesRotlFrom8(n, m);
    } else if m < 24 {
      RotrUndoesRotlFrom16(n, m);
    } else {
      RotrUndoesRotlFrom24(n, m);
    }
  }

  /** RotrUndoesRotl for a masked count in 0..7. */
  lemma RotrUndoesRotlFrom0(n: bv32, c: bv32)
    requires c <= 7
    ensures RotrMasked(RotlMasked(n, c), c) == n
  {
  }

  /** RotrUndoesRotl for a masked count in 8..15. */
  lemma RotrUndoesRotlFrom8(n: bv32, c: bv32)
    requires 8 <= c <= 15
    ensures RotrMasked(RotlMasked(n, c), c) == n
  {
  }

  /** RotrUndoesRotl for a masked count in 16..23. */
  lemma RotrUndoesRotlFrom16(n: bv32, c: bv32)
    requires 16 <= c <= 23
    ensures RotrMasked(RotlMasked(n, c), c) == n
  {
  }

  /** RotrUndoesRotl for a masked count in 24..31. */
  lemma RotrUndoesRotlFrom24(n: bv32, c: bv32)
    requires 24 <= c <= 31
    ensures RotrMasked(RotlMasked(n, c), c) == n
  {
  }

  /** Rotating left by the same count undoes a right rotation. */
  lemma RotlUndoesRotr(n: bv32, c: bv32)
    ensures Rotl32(Rotr32(n, c), c) == n
  {
    var m := c & RotMask;
    if m < 8 {
      RotlUndoesRotrFrom0(n, m);
    } else if m < 16 {
      RotlUndoesRotrFrom8(n, m);
    } else if m < 24 {
      RotlUndoesRotrFrom16(n, m);
    } else {
      RotlUndoesRotrFrom24(n, m);
    }
  }

  /** RotlUndoesRotr for a masked count in 0..7. */
  lemma RotlUndoesRotrFrom0(n: bv32, c: bv32)
    requires c <= 7
    ensures RotlMasked(RotrMasked(n, c), c) == n
  {
  }

  /** RotlUndoesRotr for a masked count in 8..15. */
  lemma RotlUndoesRotrFrom8(n: bv32, c: bv32)
    requires 8 <= c <= 15
    ensures RotlMasked(RotrMasked(n, c), c) == n
  {
  }

  /** RotlUndoesRotr for a masked count in 16..23. */
  lemma RotlUndoesRotrFrom16(n: bv32, c: bv32)
    requires 16 <= c <= 23
    ensures RotlMasked(RotrMasked(n, c), c) == n
  {
  }

  /** RotlUndoesRotr for a masked count in 24..31. */
  lemma RotlUndoesRotrFrom24(n: bv32, c: bv32)
    requires 24 <= c <= 31
    ensures RotlMasked(RotrMasked(n, c), c) == n
  {
  }

  /** A rotation by 0 is the identity, and only the count modulo 32 matters. */
  lemma RotlCountModulo(n: bv32, c: bv32)
    ensures Rotl32(n, 0) == n
    ensures Rotl32(n, c) == Rotl32(n, c % 32)
  {
    assert (c % 32) & RotMask == c & RotMask;
  }
}
