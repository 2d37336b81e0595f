# Hubris / Sphynx engine core, modelled in Dafny

This project models the self-contained logic of the Hubris game engine and of
its predecessor, Sphynx. The rest of the repository is Vulkan, GLFW and GL
plumbing around it. The model covers:

- **The Hubris ownership library** (`Hubris/include/Memory.h`):
  - `padded_size` and the co-allocation layout of a `ControlBlock` and its
    payload in one aligned region, as written (the control block is misplaced
    when the payload goes first) and as intended;
  - the recursive `Traverse` that destroys a payload leaf by leaf;
  - the reference-counting state machine of `Shared<T>` and `Weak<T>` over
    the control block;
  - the sole owner `Handle<T>` and the viewer `Observer<T>`.

  Heap objects are Dafny objects. A `Payload` records the leaves destroyed
  and the `delete` expressions applied to it. An `Allocation` records whether
  it was freed. A `ControlBlock` carries its counters and ghost sets of the
  `Shared` and `Weak` objects pointing at it.
- **`Hubris::List<T>`** (`Hubris/include/List.h`): a growable array that
  reports a `Result` code instead of throwing. Its buffer is an `array`, and
  element shifting is done in place. `malloc` succeeding or failing is a
  parameter.
- **The earlier Sphynx `Handle<T>`** (`Sphynx/include/Memory.h`).
- **Sphynx core utilities** (`Sphynx/include/Core/Utils.h`): the 32-bit
  rotations, and the power-of-two `RingBuffer` as a class over an `array`
  with a ghost FIFO view.
- **The `ErrorCode` bit-flag algebra** (`Sphynx/include/Error.h`).
- **Pixel formats:**
  - the Sphynx pixel-format table and its accessors
    (`Sphynx/include/Core/Graphics/Format.h`);
  - the Hubris two-way `Format` ↔ `VkFormat` mapping
    (`Hubris/include/Core/Graphics/Vulkan/Utility.h`).
- **The resource manager's extension registry**
  (`Hubris/include/IO/ResourceManager.h`): `getline` splitting on `|`,
  whitespace trimming, the handler map, and the lookup key of `ReadFile`.
- **The swapchain choices** of `vkWindow::Create`
  (`Hubris/src/Core/Graphics/Vulkan/vkWindow.cpp`). The surface's reported
  lists and the framebuffer size are parameters.
- **The GPU scoring rule** of the Sphynx Vulkan backend
  (`Sphynx/include/Core/Graphics/Vulkan/vkBackend.h`). It includes the
  32-bit queue-family scoring pass.

Unsigned arithmetic is written out where it matters:

- `size_t` wraps modulo 2^64 in `padded_size` and `RingBuffer::Size`;
- `uint32_t` wraps modulo 2^32 in the image count, the framebuffer cast and
  the queue-family score.

## Model

| member | source | states |
|---|---|---|
| Bits.ClearLowBitsIsRoundDown | Hubris/include/Memory.h:170 | `x & ~(2^k - 1)` is x rounded down to a multiple of 2^k |
| Bits.MaskedDifference | Sphynx/include/Core/Utils.h:106 | masking a size_t difference with `2^k - 1` gives the mathematical difference modulo 2^k |
| CoAllocation.PaddedSizeIsRoundUp | Hubris/include/Memory.h:168-171 | `padded_size` is a multiple of the alignment, at least the size and less than size + alignment, and no larger than any such multiple: the least one |
| CoAllocation.PaddedSize | Hubris/include/Memory.h:168-171 | `padded_size<T>()` is a multiple of `alignof(T)` for every size, wrapped or not |
| CoAllocation.Place | Hubris/include/Memory.h:191-196 | as written: `alloc_align` is at least both alignments and is one of them, and one of `Toffset` and `CTR_offset` is 0 |
| CoAllocation.PlaceFixed | Hubris/include/Memory.h:191-196 | the intended layout, with the control block at `padded_size<T>()` when the payload goes first: the same alignment facts |
| CoAllocation.PlaceIsSound | Hubris/include/Memory.h:191-198 | the intended layout is sound: `alloc_align` is the larger alignment and serves both objects; the stricter-aligned object is at offset 0 and the other at the first one's padded size; both offsets are aligned; both objects fit in the requested size without overlapping |
| CoAllocation.PlaceMatchesFixed | Hubris/include/Memory.h:192-196 | the layout as written equals the intended one exactly when the control block goes first or the two padded sizes are equal; alignment, `Toffset` and size always agree |
| CoAllocation.PlaceAsWritten | Hubris/include/Memory.h:192-199 | as written, with the control block first both objects fit without overlapping; with the payload first the block at `padded_size<ControlBlock>()` lies inside the region exactly when that is at most `padded_size<T>()`, and misses the payload exactly when `sizeof(T)` is at most it |
| CoAllocation.ControlBlockMisplaced | Hubris/include/Memory.h:193 | as written, `Shared<std::size_t>` gets a 40-byte region with the 32-byte block at offset 32, and a 48-byte 8-aligned payload overlaps the block at offset 32; the intended offsets are 8 and 48 |
| CoAllocation.AddressesAligned | Hubris/include/Memory.h:191-203 | from a region aligned to `alloc_align`, the control block and `raw` addresses are aligned for their types, in the layout as written and in the intended one |
| CoAllocation.ConstructedTypeOverflows | Hubris/include/Memory.h:213-229 | as written, `Shared<int>` built from an 8-byte argument writes 8 bytes at offset 32 of a 36-byte region |
| CoAllocation.ConstructedTypeFixedFits | Hubris/include/Memory.h:213-229 | constructing T itself, the object always fits in the region and is aligned for T |
| Traversal.TraverseVisitsLeaves | Hubris/include/Memory.h:174-183 | Traverse applies `func` to a leaf exactly when the leaf lies somewhere in the nested ranges |
| Traversal.TraverseAllVisitsLeaves | Hubris/include/Memory.h:176-179 | the loop over a range's elements visits exactly the leaves of its elements |
| Traversal.TraverseVisitsOnce | Hubris/include/Memory.h:174-183 | with distinct leaves, every leaf is visited exactly once and nothing else is visited |
| Traversal.TraverseAllVisitsOnce | Hubris/include/Memory.h:176-179 | across elements with disjoint leaves, no leaf is visited twice |
| SharedOwnership.ControlBlock.constructor | Hubris/include/Memory.h:160-166 | a fresh block has `ref_count` 1 and `weak_count` 1 and records its region, alignment and `raw` |
| SharedOwnership.ControlBlock.Acquire | Hubris/include/Memory.h:265 | `fetch_add(1)` adds exactly one owner and changes nothing else |
| SharedOwnership.CoAllocate | Hubris/include/Memory.h:188-206 | a fresh block with both counters at 1, `BaseLocation` the region start, `alloc_align` and the region size from the layout as written, the block at start + `CTR_offset` and `raw` at start + `Toffset`, each aligned for its type, and the payload alive and constructed from the argument |
| SharedOwnership.Shared.Empty | Hubris/include/Memory.h:269 | the default Shared has no block |
| SharedOwnership.Shared.Make | Hubris/include/Memory.h:271-275 | the variadic constructor owns a fresh co-allocated block alone, holding the argument |
| SharedOwnership.Shared.ShareBlock | Hubris/include/Memory.h:261-266 | joins an existing block with one more count; a null block leaves the Shared empty |
| SharedOwnership.Shared.Promote | Hubris/include/Memory.h:277-282 | an expired Weak gives an empty Shared and is left alone; otherwise the Shared joins the block with `ref_count` + 1, and the Weak is reset |
| SharedOwnership.Shared.CopyFrom | Hubris/include/Memory.h:284-294 | the body of the converting copy template: shares the other's block with one more count. No instantiation selects it (see Left out); it is the corrected member for the implicit copy |
| SharedOwnership.Shared.ImplicitCopy | Hubris/include/Memory.h:240-250 | the implicitly declared copy constructor that `Shared<T> b(a)` selects for a const `a`: the block is shared, the count is untouched, and the copy is not a counted owner, so it is not Valid |
| SharedOwnership.Shared.Release | Hubris/include/Memory.h:343-360 | no-op without a block; otherwise `ref_count` - 1, and on the 1 → 0 transition alone every leaf of the payload is destroyed once and `raw` nulled; the free branch is dead on a counted block (every Shared is counted), so the region is not freed; this Shared always ends empty |
| SharedOwnership.Shared.CopyAssign | Hubris/include/Memory.h:296-311 | the body of the converting copy-assignment template, which no instantiation selects: self-assignment is a no-op; otherwise the old block is released and the source's block joined with one more count |
| SharedOwnership.Shared.ImplicitCopyAssign | Hubris/include/Memory.h:240-250 | the implicitly declared copy assignment that `b = a` selects: the block pointer is overwritten; the old block keeps the count of an owner that is gone (`ref_count` = owners + 1, so its payload is never destroyed), and the new block is held by an uncounted Shared |
| SharedOwnership.Shared.MoveAssign | Hubris/include/Memory.h:324-336 | self-assignment is a no-op; otherwise the old block is released, the source's block taken without a count change, and the source emptied |
| SharedOwnership.Shared.Swap | Hubris/include/Memory.h:394-403 | the two Shareds exchange blocks and no counter moves |
| SharedOwnership.Shared.Get | Hubris/include/Memory.h:362-363 | `get()` is non-null exactly when there is a block, and then it is the block's live payload |
| SharedOwnership.Shared.UseCount | Hubris/include/Memory.h:381 | the number of Shareds owning the block, 0 exactly without a block |
| SharedOwnership.Shared.Constructed | Hubris/include/Memory.h:388 | true exactly when the use count is positive |
| SharedOwnership.Shared.IsLive | Hubris/include/Memory.h:390-392 | `operator bool` is true exactly when the Shared is constructed |
| SharedOwnership.Weak.FromShared | Hubris/include/Memory.h:414-421 | joins the block: `weak_count` + 1, `ref_count` and `raw` unchanged |
| SharedOwnership.Weak.ImplicitCopy | Hubris/include/Memory.h:410-412 | the implicitly declared copy constructor that `Weak<T> w2 = w1` selects: the block is shared, `weak_count` is untouched, and the copy is not counted |
| SharedOwnership.Weak.CopyFrom | Hubris/include/Memory.h:414-421 | the corrected, counted Weak copy: `weak_count` + 1 as `Weak(const Shared<T>&)` does, and both Weaks are Valid |
| SharedOwnership.Weak.Expired | Hubris/include/Memory.h:432-434 | true exactly when there is a block and no Shared owns it |
| SharedOwnership.Weak.Lock | Hubris/include/Memory.h:427-430 | as written: an expired block gives an empty Shared; a live one gives a Shared on a fresh block holding a copy of the Weak, not the original payload, and the original block is untouched |
| SharedOwnership.Weak.LockShared | Hubris/include/Memory.h:427-430 | as intended: a live block gains one owner, and the returned Shared sees its payload with use count + 1 |
| SharedOwnership.Weak.Reset | Hubris/include/Memory.h:436-448 | `weak_count` - 1 (wrapping at 0), and the region freed exactly when the count drops from 1 with no owner left; on a counted block `weak_count` stays at least 1 and the region is not freed; the Weak ends empty |
| SharedOwnership.ImplicitCopyOutlivesPayload | Hubris/include/Memory.h:343-360 | as written: after `Shared<T> b(r)` from a const reference `r` to `a`, releasing `a` destroys the payload while `b` still holds the block, with use count 0 and `get()` null |
| SharedOwnership.CountedCopyKeepsPayload | Hubris/include/Memory.h:284-294 | with the counted copy, `b` is Valid after `a` is released, with use count 1 and the payload alive |
| SharedOwnership.ImplicitWeakCopiesOutliveRegion | Hubris/include/Memory.h:436-448 | as written: with two implicit copies of a Weak, releasing the Shared and resetting two Weaks frees the region while the third Weak still holds the block |
| SharedOwnership.CountedWeakCopiesKeepRegion | Hubris/include/Memory.h:436-448 | with counted copies, the remaining Weak is Valid, sees the block expired, and the region is not freed |
| SharedOwnership.Weak.UseCount | Hubris/include/Memory.h:450-452 | the number of Shareds owning the block |
| SharedOwnership.Weak.IsLive | Hubris/include/Memory.h:454-456 | `operator bool` is true exactly when the Weak is not expired |
| UniqueOwnership.Handle.constructor | Hubris/include/Memory.h:466-479 | the handle holds the given pointer, null included |
| UniqueOwnership.Handle.MoveFrom | Hubris/include/Memory.h:487-489 | the new handle takes the source's pointer and the source becomes null |
| UniqueOwnership.Handle.ConvertFrom | Hubris/include/Memory.h:481-485 | the body of the converting move template (which does not compile once instantiated, see Left out): takes the source's pointer, nulls the source and deletes nothing |
| UniqueOwnership.Handle.Reset | Hubris/include/Memory.h:514-523 | a different pointer deletes the held object once (`delete[]` for arrays) and is stored; the same pointer changes nothing |
| UniqueOwnership.Handle.Release | Hubris/include/Memory.h:525-527 | returns the pointer and nulls the handle without deleting |
| UniqueOwnership.Handle.MoveAssign | Hubris/include/Memory.h:494-499 | self-move is a no-op; otherwise the old object is deleted, the source's pointer taken and the source nulled |
| UniqueOwnership.Handle.Swap | Hubris/include/Memory.h:529-532 | the body of the `swap` template (which does not compile once instantiated, see Left out): the two handles exchange pointers |
| UniqueOwnership.Handle.Get | Hubris/include/Memory.h:511-512 | `get()` is the owned pointer itself; reading it leaves the handle unchanged and still the owner |
| UniqueOwnership.Handle.IsSet | Hubris/include/Memory.h:592-594 | true exactly for a non-null pointer |
| UniqueOwnership.Handle.Not | Hubris/include/Memory.h:596 | true exactly for a null pointer |
| UniqueOwnership.Handle.Equals | Hubris/include/Memory.h:582-585 | compares the stored addresses |
| UniqueOwnership.Handle.NotEquals | Hubris/include/Memory.h:587-590 | true exactly when the addresses differ |
| UniqueOwnership.Handle.ToShared | Hubris/include/Memory.h:534-550 | as written: a null handle gives an empty Shared; the handle always ends null with its object deleted once; a trivially copyable or polymorphic T gives a sole owner of the value; any other movable or copyable T leaves a Shared on a block whose payload is destroyed and whose count is 0 |
| UniqueOwnership.Handle.ToSharedFixed | Hubris/include/Memory.h:534-550 | as intended: the value moves into a fresh block owned by the result alone |
| UniqueOwnership.NotIsNegation | Hubris/include/Memory.h:592-596 | `operator!` is the negation of `operator bool` |
| UniqueOwnership.Observer.constructor | Hubris/include/Memory.h:610-616 | holds the given pointer |
| UniqueOwnership.Observer.CopyFrom | Hubris/include/Memory.h:619-623 | holds the other Observer's pointer |
| UniqueOwnership.Observer.Assign | Hubris/include/Memory.h:626-639 | every assignment stores the new pointer |
| UniqueOwnership.Observer.Reset | Hubris/include/Memory.h:642 | `reset` stores the pointer and deletes nothing |
| UniqueOwnership.Observer.Release | Hubris/include/Memory.h:643 | `release` nulls the pointer |
| UniqueOwnership.Observer.Get | Hubris/include/Memory.h:646 | `get()` is the observed pointer itself |
| UniqueOwnership.Observer.IsSet | Hubris/include/Memory.h:657 | true exactly for a non-null pointer |
| UniqueOwnership.Observer.Equals | Hubris/include/Memory.h:662-665 | compares the addresses |
| HubrisList.Inserted | Hubris/include/List.h:703-739 | the contents after `insert`: one longer, the value at `pos`, earlier elements in place and later ones one place up |
| HubrisList.Erased | Hubris/include/List.h:741-754 | the contents after `erase`: one shorter, earlier elements in place and later ones one place down |
| HubrisList.Resized | Hubris/include/List.h:647-693 | the contents after `resize`: length `count`, the common prefix kept, and the value in every new slot |
| HubrisList.EraseUndoesInsert | Hubris/include/List.h:703-754 | erasing at the position just inserted at restores the contents |
| HubrisList.InsertUndoesErase | Hubris/include/List.h:703-754 | re-inserting an erased element where it was restores the contents |
| HubrisList.ResizeKeepsPrefix | Hubris/include/List.h:647-693 | shrinking and growing back keeps exactly the common prefix, with the fill value after it |
| HubrisList.StoreAll | Hubris/include/List.h:184-206 | the copy/move loop writes the elements to the front of the destination and leaves the rest alone |
| HubrisList.FillRange | Hubris/include/List.h:424-434 | the fill loop writes the value into exactly the given range |
| HubrisList.ShiftUp | Hubris/include/List.h:716-725 | the insert loop moves every element from `pos` on one place up and keeps the rest |
| HubrisList.ShiftDown | Hubris/include/List.h:746-748 | the erase loop moves every element after `pos` one place down and keeps the rest |
| HubrisList.List.MaxSize | Hubris/include/List.h:551-553 | `max_size()` is at most SIZE_MAX |
| HubrisList.List.CalculateGrowth | Hubris/include/List.h:125-139 | 0 exactly when `min > max_size()`; otherwise between `min` and `max_size()`; it is `max(old + old/2, min)` unless that would overflow, in which case it is `max_size()` |
| HubrisList.List.constructor | Hubris/include/List.h:233 | an empty, valid list with no buffer |
| HubrisList.List.Filled | Hubris/include/List.h:235-273 | valid exactly when `count` is 0 or the allocation succeeds, and then holds `count` copies with capacity `count` |
| HubrisList.List.FromSeq | Hubris/include/List.h:276-305 | valid exactly when the range is empty or the allocation succeeds, and then holds the range with capacity equal to its length |
| HubrisList.List.Construct | Hubris/include/List.h:279-292 | the random-access range body, filling a fresh empty list |
| HubrisList.List.CopyFrom | Hubris/include/List.h:308-327 | the copy is valid exactly when the source is valid and the allocation (if needed) succeeds, and then has equal contents and capacity equal to the size |
| HubrisList.List.MoveFrom | Hubris/include/List.h:330-336 | the new list takes all four fields; the source is left empty and valid |
| HubrisList.List.MakeInvalid | Hubris/include/List.h:222-229 | invalid, empty and with no buffer |
| HubrisList.List.Reallocate | Hubris/include/List.h:142-180 | 0 frees everything; otherwise it succeeds exactly when allocation succeeds, keeps the contents and sets the capacity; a failure is `OutOfMemory` and changes nothing |
| HubrisList.List.CopyAssign | Hubris/include/List.h:350-392 | as written: self-assignment changes nothing; an invalid source invalidates; a copy within capacity keeps the target's own validity flag; a larger copy goes through a temporary |
| HubrisList.List.CopyAssignFixed | Hubris/include/List.h:350-392 | as intended: a copy of a valid source that fits is valid with the source's contents |
| HubrisList.List.CopyInPlace | Hubris/include/List.h:357-380 | reusing storage, the contents become the source's, and buffer and capacity stay |
| HubrisList.List.MoveAssign | Hubris/include/List.h:394-410 | self-move changes nothing; otherwise the target takes the source's fields and the source is left empty and valid |
| HubrisList.List.AssignFill | Hubris/include/List.h:418-448 | `InvalidArgument` on an invalid list; otherwise `count` copies of the value, in place when they fit, else through a temporary that may fail with `OutOfMemory` and change nothing |
| HubrisList.List.AssignSeq | Hubris/include/List.h:450-464 | `InvalidArgument` on an invalid list; success exactly when the temporary is built, and then the contents are the range |
| HubrisList.List.At | Hubris/include/List.h:467-479 | `InvalidArgument` on an invalid list, `OutOfRange` exactly when `pos >= size`, otherwise element `pos` |
| HubrisList.List.Get | Hubris/include/List.h:491-499 | null in both failure cases, otherwise element `pos` |
| HubrisList.List.Reserve | Hubris/include/List.h:555-561 | on success the capacity is at least `n` and the contents are unchanged; a failed reallocation changes nothing |
| HubrisList.List.ShrinkToFit | Hubris/include/List.h:567-573 | on success capacity equals size and the contents are unchanged |
| HubrisList.List.Clear | Hubris/include/List.h:576-581 | a valid list becomes empty and keeps its buffer and capacity; an invalid one is untouched |
| HubrisList.List.GrowIfFull | Hubris/include/List.h:586-592 | a full list grows to `calculate_growth(size + 1)`, or fails with the contents unchanged |
| HubrisList.List.PushBack | Hubris/include/List.h:583-636 | `InvalidArgument` on an invalid list; success exactly when there is room or growth succeeds, and then the value is appended with earlier elements unchanged |
| HubrisList.List.PopBack | Hubris/include/List.h:638-645 | `OutOfRange` on an empty list, otherwise only the last element is dropped; a failure changes nothing |
| HubrisList.List.Resize | Hubris/include/List.h:647-693 | on success the contents are the old ones cut or padded with the value to `count`; success exactly when no reallocation is needed or it succeeds |
| HubrisList.List.Swap | Hubris/include/List.h:695-700 | the two lists exchange all four fields |
| HubrisList.List.Insert | Hubris/include/List.h:703-739 | `OutOfRange` when `pos > size`; on success the contents are `old[..pos] + [v] + old[pos..]` |
| HubrisList.List.Erase | Hubris/include/List.h:741-754 | `OutOfRange` when `pos >= size`; on success the contents are `old[..pos] + old[pos+1..]`; a failure changes nothing |
| HubrisList.List.Equal | Hubris/include/List.h:758-768 | true exactly when both are valid with equal contents |
| HubrisList.List.NotEqual | Hubris/include/List.h:770-773 | the negation of equality |
| HubrisList.InvalidSurvivesEmptyCopy | Hubris/include/List.h:350-380 | as written, an invalid list copy-assigned a valid empty list stays invalid and compares unequal to it |
| HubrisList.FixedCopyIsEqual | Hubris/include/List.h:350-380 | with the corrected assignment the two compare equal |
| SphynxHandle.Handle.constructor | Sphynx/include/Memory.h:113-128 | holds the given pointer |
| SphynxHandle.Handle.MoveFrom | Sphynx/include/Memory.h:136-138 | takes the source's pointer and nulls the source |
| SphynxHandle.Handle.ConvertFrom | Sphynx/include/Memory.h:130-134 | the body of the converting move template (which does not compile once instantiated, see Left out): takes the source's pointer and nulls the source |
| SphynxHandle.Handle.Reset | Sphynx/include/Memory.h:155-160 | a different pointer deletes the held object once with scalar `delete` and is stored; the same pointer changes nothing |
| SphynxHandle.Handle.Release | Sphynx/include/Memory.h:162-164 | returns the pointer and nulls the handle without deleting |
| SphynxHandle.Handle.MoveAssign | Sphynx/include/Memory.h:143-148 | self-move is a no-op; otherwise the old object is deleted and the source's pointer taken |
| SphynxHandle.Handle.Swap | Sphynx/include/Memory.h:166-173 | exchanges the pointers |
| SphynxHandle.Handle.Equals | Sphynx/include/Memory.h:184-187 | compares the addresses |
| SphynxHandle.Handle.NotEquals | Sphynx/include/Memory.h:189-192 | true exactly when the addresses differ |
| SphynxHandle.Handle.Get | Sphynx/include/Memory.h:152-153 | `get()` is the owned pointer itself; reading it leaves the handle unchanged |
| SphynxHandle.Handle.Not | Sphynx/include/Memory.h:198 | `operator!` as written: true exactly when the handle holds an object |
| SphynxHandle.Handle.IsSet | Sphynx/include/Memory.h:194-196 | true exactly for a non-null pointer |
| SphynxHandle.Handle.NotFixed | Sphynx/include/Memory.h:198 | `operator!` as intended: true exactly for a null pointer |
| SphynxHandle.NotAgreesWithBool | Sphynx/include/Memory.h:194-198 | as written, `!h` equals `bool(h)`, so it is true for a handle holding an object |
| SphynxHandle.NotFixedIsNegation | Sphynx/include/Memory.h:198 | the corrected `!` is the negation of `operator bool` |
| Rotation.RotlMovesBits | Sphynx/include/Core/Utils.h:10-17 | bit i of n lands at bit (i + c) mod 32 of `rotl32(n, c)` |
| Rotation.RotrUndoesRotl | Sphynx/include/Core/Utils.h:10-26 | `rotr32(rotl32(n, c), c) == n` for every count |
| Rotation.RotlUndoesRotr | Sphynx/include/Core/Utils.h:10-26 | `rotl32(rotr32(n, c), c) == n` for every count |
| Rotation.RotlCountModulo | Sphynx/include/Core/Utils.h:12-16 | rotating by 0 is the identity and the count is taken mod 32 |
| RingBuffers.RingBuffer.Capacity | Sphynx/include/Core/Utils.h:38-51 | the capacity is a positive power of two |
| RingBuffers.RingBuffer.constructor | Sphynx/include/Core/Utils.h:43-52 | a new buffer is empty |
| RingBuffers.RingBuffer.Clear | Sphynx/include/Core/Utils.h:56-60 | head and tail back to 0 and the queue empty |
| RingBuffers.RingBuffer.Size | Sphynx/include/Core/Utils.h:103-107 | `(tail - head) & mask` is the number of queued elements and below the capacity |
| RingBuffers.RingBuffer.IsFull | Sphynx/include/Core/Utils.h:92-95 | true exactly when the size is capacity - 1 |
| RingBuffers.RingBuffer.IsEmpty | Sphynx/include/Core/Utils.h:98-100 | true exactly when the size is 0 |
| RingBuffers.RingBuffer.NextIndex | Sphynx/include/Core/Utils.h:63-89 | `(i + 1) & mask` is the next slot around the buffer |
| RingBuffers.RingBuffer.Enqueue | Sphynx/include/Core/Utils.h:63-75 | refused, with nothing changed, exactly when capacity - 1 elements are queued; otherwise the element is appended at the back |
| RingBuffers.RingBuffer.Dequeue | Sphynx/include/Core/Utils.h:78-89 | false with the argument untouched when empty; otherwise yields the oldest element and removes it (FIFO) |
| ErrorCodes.OrAssign | Sphynx/include/Error.h:35-38 | `|=` leaves the `|` of both operands in the left one |
| ErrorCodes.AndAssign | Sphynx/include/Error.h:47-50 | `&=` leaves the `&` of both operands in the left one |
| ErrorCodes.Not | Sphynx/include/Error.h:52-54 | `!e` is true exactly when e is OK |
| ErrorCodes.OrIsCommutativeMonoid | Sphynx/include/Error.h:28-33 | `|` is commutative, associative and idempotent, with OK as identity |
| ErrorCodes.HasErrorMeansSubset | Sphynx/include/Error.h:56-58 | `HasError(c, s)` exactly when adding s to c adds nothing |
| ErrorCodes.PresentAddsNothing | Sphynx/include/Error.h:56-58 | a flag already present leaves the code unchanged under `|` |
| ErrorCodes.AbsentAddsFlag | Sphynx/include/Error.h:56-58 | a flag not yet present changes the code under `|` |
| ErrorCodes.OKIsInEveryCode | Sphynx/include/Error.h:56-58 | `HasError(c, OK)` always holds |
| ErrorCodes.CombinationHasParts | Sphynx/include/Error.h:28-58 | `HasError(a | b, a)` and `HasError(a | b, b)` |
| ErrorCodes.PartsGiveCombination | Sphynx/include/Error.h:28-58 | a code holding a and b holds `a | b` |
| ErrorCodes.HasErrorTransitive | Sphynx/include/Error.h:56-58 | containment of flags is transitive |
| ErrorCodes.NamedErrorsAreBits | Sphynx/include/Error.h:6-25 | the i-th named code is `1 << i` |
| ErrorCodes.NamedErrorsAreDistinctBits | Sphynx/include/Error.h:6-25 | named codes other than OK are non-zero and pairwise disjoint |
| ErrorCodes.OtherFlagsDoNotFake | Sphynx/include/Error.h:28-58 | adding a different named code never makes HasError report a flag that is absent |
| SphynxFormat.TableInEnumOrder | Sphynx/include/Core/Graphics/Format.h:92-144 | the table has one row per format except Count, in enum order |
| SphynxFormat.Find | Sphynx/include/Core/Graphics/Format.h:146-151 | the scan returns the first matching row, and none when no row matches |
| SphynxFormat.LookupFindsOwnRow | Sphynx/include/Core/Graphics/Format.h:146-151 | every format but Count is found at its own position, and Count is not found |
| SphynxFormat.GetFormatInfo | Sphynx/include/Core/Graphics/Format.h:146-151 | the row whose format is the argument, or null for Count |
| SphynxFormat.AccessorsReadOwnRow | Sphynx/include/Core/Graphics/Format.h:153-181 | each accessor reads the format's own row |
| SphynxFormat.CountGivesFallbacks | Sphynx/include/Core/Graphics/Format.h:153-181 | a failed lookup gives "Unknown", `ComponentType::Unknown`, 0, 0, false and false |
| SphynxFormat.DepthRows | Sphynx/include/Core/Graphics/Format.h:140-143 | only the last four rows are depth rows, all of component type Depth |
| SphynxFormat.SrgbRows | Sphynx/include/Core/Graphics/Format.h:106-109 | only the R8G8B8A8Srgb and B8G8R8A8Srgb rows are sRGB |
| SphynxFormat.SizeRows | Sphynx/include/Core/Graphics/Format.h:93-143 | the Undefined row is 0/0, and every other row has a size and 1 to 4 channels |
| SphynxFormat.DepthFormatsAreTheFourD | Sphynx/include/Core/Graphics/Format.h:173-176 | `isDepthFormat` is true exactly for the four D formats, all of type Depth |
| SphynxFormat.SrgbFormatsAreTheTwo | Sphynx/include/Core/Graphics/Format.h:178-181 | `isSrgbFormat` is true exactly for the two sRGB formats, neither of them depth |
| SphynxFormat.SizesAndChannels | Sphynx/include/Core/Graphics/Format.h:163-171 | Undefined has size 0 and 0 channels; every other listed format has a size and 1 to 4 channels |
| SphynxFormat.TraitsOfListedFormat | Sphynx/include/Core/Graphics/Format.h:184-191 | `IsColor` is true exactly for formats other than the four depth formats, and the other traits are the row's |
| VulkanFormat.FormatRoundTrip | Hubris/include/Core/Graphics/Vulkan/Utility.h:7-97 | `VkFormatToFormat(FormatToVkFormat(f)) == f` for every f but Count |
| VulkanFormat.FormatToVkFormatInjective | Hubris/include/Core/Graphics/Vulkan/Utility.h:9-47 | no two formats other than Count share a VkFormat |
| VulkanFormat.VkFormatRoundTrip | Hubris/include/Core/Graphics/Vulkan/Utility.h:54-97 | every listed VkFormat round-trips through the engine format |
| VulkanFormat.CountAndUnlistedValues | Hubris/include/Core/Graphics/Vulkan/Utility.h:48-95 | Count maps to `VK_FORMAT_UNDEFINED`, like Undefined, and every unlisted VkFormat maps to Undefined |
| ResourceManager.BufferAccessors | Hubris/include/IO/ResourceManager.h:8-23 | `size()` and `get_raw()` return the constructor arguments, 0 and null by default |
| ResourceManager.FirstNotSpace | Hubris/include/IO/ResourceManager.h:76 | `find_first_not_of`: the index is at least the start and, when inside the string, not whitespace |
| ResourceManager.SkippedAreSpace | Hubris/include/IO/ResourceManager.h:76 | everything skipped by `find_first_not_of` is whitespace |
| ResourceManager.EndNotSpace | Hubris/include/IO/ResourceManager.h:77 | `find_last_not_of + 1`: the cut point's preceding character is not whitespace |
| ResourceManager.CutAreSpace | Hubris/include/IO/ResourceManager.h:77 | everything erased after `find_last_not_of` is whitespace |
| ResourceManager.TrimIsInnerSlice | Hubris/include/IO/ResourceManager.h:76-77 | the trimmed piece is a slice of the input, does not start or end with whitespace, and only whitespace was cut from either end |
| ResourceManager.AllSpaceTrimsToEmpty | Hubris/include/IO/ResourceManager.h:76-77 | an all-whitespace piece becomes "" |
| ResourceManager.TrimIdempotent | Hubris/include/IO/ResourceManager.h:76-77 | trimming twice is trimming once |
| ResourceManager.FirstIndexOf | Hubris/include/IO/ResourceManager.h:75 | the first index of the character, or none when absent |
| ResourceManager.LastIndexOf | Hubris/include/IO/ResourceManager.h:99 | `find_last_of`: the last index of the character, or none when absent |
| ResourceManager.TrimAllPointwise | Hubris/include/IO/ResourceManager.h:75-79 | the i-th parsed extension is the trim of the i-th piece |
| ResourceManager.NoBarInPieces | Hubris/include/IO/ResourceManager.h:75 | no piece contains a `|` |
| ResourceManager.PiecesJoinBack | Hubris/include/IO/ResourceManager.h:75 | joining the pieces with `|` gives back the input, or the input without a final `|` |
| ResourceManager.GetlineKeepsEmptyPiece | Hubris/include/IO/ResourceManager.h:75 | "a\|\|b" yields the pieces "a", "" and "b" |
| ResourceManager.GetlineAtEnd | Hubris/include/IO/ResourceManager.h:75 | "a\|" yields only "a", "" yields nothing, and "\|" yields one empty piece |
| ResourceManager.Getline | Hubris/include/IO/ResourceManager.h:75 | one `getline` takes the first piece and leaves the rest of the input |
| ResourceManager.ParseExtensions | Hubris/include/IO/ResourceManager.h:70-81 | the trimmed `|`-separated pieces, in input order |
| ResourceManager.RegisterMapsKeys | Hubris/include/IO/ResourceManager.h:88-95 | every key maps to the handler, and other keys keep their entries |
| ResourceManager.LaterRegistrationWins | Hubris/include/IO/ResourceManager.h:94 | a later registration of the same key overwrites the earlier one |
| ResourceManager.ExtensionKey | Hubris/include/IO/ResourceManager.h:99-105 | none exactly when the path has no '.'; otherwise the text after the last '.', which contains no '.' |
| ResourceManager.Registry.constructor | Hubris/include/IO/ResourceManager.h:67 | the handler map starts empty |
| ResourceManager.Registry.SetExtensionHandler | Hubris/include/IO/ResourceManager.h:83-96 | the map after registering every trimmed piece of the postfix with the extension's handler |
| ResourceManager.Registry.ReadFile | Hubris/include/IO/ResourceManager.h:98-108 | as written: the null buffer without a '.'; otherwise `HandlerMap[key]` inserts a null handler for an unknown key and the call goes through whatever it holds |
| ResourceManager.Registry.ReadFileFixed | Hubris/include/IO/ResourceManager.h:98-108 | as intended: an unknown key gives the null buffer and no call goes through a null handler |
| ResourceManager.UnregisteredKeyDispatchesNull | Hubris/include/IO/ResourceManager.h:105-107 | with nothing registered, reading "scene.gltf" as written calls through a null handler |
| Swapchain.IndexFrom | Hubris/src/Core/Graphics/Vulkan/vkWindow.cpp:25-29 | the first matching index from i on, or none when the value is absent |
| Swapchain.ChooseSwapSurfaceFormat | Hubris/src/Core/Graphics/Vulkan/vkWindow.cpp:23-32 | always a member of the list; the preferred B8G8R8A8_SRGB / SRGB_NONLINEAR pair exactly when listed, otherwise entry 0 |
| Swapchain.ChooseSwapPresentMode | Hubris/src/Core/Graphics/Vulkan/vkWindow.cpp:34-42 | MAILBOX exactly when listed, otherwise FIFO |
| Swapchain.FifoEvenWhenUnlisted | Hubris/src/Core/Graphics/Vulkan/vkWindow.cpp:41 | FIFO is chosen from a list that does not contain it |
| Swapchain.CastToUInt32 | Hubris/src/Core/Graphics/Vulkan/vkWindow.cpp:52-55 | `static_cast<uint32_t>` keeps values in range and wraps negative ones by 2^32 |
| Swapchain.Clamp | Hubris/src/Core/Graphics/Vulkan/vkWindow.cpp:57-58 | `std::clamp` lands in `[lo, hi]` |
| Swapchain.ClampIsNearest | Hubris/src/Core/Graphics/Vulkan/vkWindow.cpp:57-58 | the clamped value is the point of `[lo, hi]` nearest the input, and the input itself when inside |
| Swapchain.ChooseSwapExtent | Hubris/src/Core/Graphics/Vulkan/vkWindow.cpp:45-62 | `currentExtent` unchanged unless its width is UINT32_MAX; otherwise each dimension lies in the surface's limits |
| Swapchain.FittingFramebufferKept | Hubris/src/Core/Graphics/Vulkan/vkWindow.cpp:49-60 | a framebuffer within the limits is taken as it is |
| Swapchain.NegativeWidthClampsToMax | Hubris/src/Core/Graphics/Vulkan/vkWindow.cpp:52-57 | a negative width wraps and is clamped to the largest width allowed |
| Swapchain.ImageCount | Hubris/src/Core/Graphics/Vulkan/vkWindow.cpp:132-136 | never above a positive maximum; `minImageCount + 1` when that fits and is not above the maximum; never below the minimum when the minimum is below the maximum |
| Swapchain.ImageCountWrapsAtMax | Hubris/src/Core/Graphics/Vulkan/vkWindow.cpp:132 | a minimum of UINT32_MAX with no maximum wraps to an image count of 0 |
| Swapchain.ChooseSwapchain | Hubris/src/Core/Graphics/Vulkan/vkWindow.cpp:118-136 | none exactly when the format or present-mode list is empty; otherwise a listed format, MAILBOX or FIFO, and an image count within a positive maximum |
| GpuScoring.CountPresentBounds | Sphynx/include/Core/Graphics/Vulkan/vkBackend.h:57-66 | each required name is counted at most once, and all are counted exactly when every one is present |
| GpuScoring.ScoreGPU | Sphynx/include/Core/Graphics/Vulkan/vkBackend.h:30-72 | the flags and API version are copied; without a geometry shader the score is 0 and ray tracing is off; ray tracing is on exactly with a geometry shader and all four extensions; the score is 1000 for a discrete GPU plus 1000 for ray tracing |
| GpuScoring.ScoreValues | Sphynx/include/Core/Graphics/Vulkan/vkBackend.h:53-69 | the score is 0, 1000 or 2000, and 2000 exactly for a discrete ray-tracing GPU |
| GpuScoring.FamilyBonus | Sphynx/include/Core/Graphics/Vulkan/vkBackend.h:169-180 | one family is worth at most 450 points |
| GpuScoring.FamilyBonusExtremes | Sphynx/include/Core/Graphics/Vulkan/vkBackend.h:169-180 | all four bits give 450, none 0, graphics alone 100 |
| GpuScoring.QueueBonusBound | Sphynx/include/Core/Graphics/Vulkan/vkBackend.h:163-181 | the families together are worth at most 450 per family |
| GpuScoring.ScoreQueueFamilies | Sphynx/include/Core/Graphics/Vulkan/vkBackend.h:163-181 | the pass leaves the score plus every family's bonus, modulo 2^32 |
| GpuScoring.AddFamilyBonus | Sphynx/include/Core/Graphics/Vulkan/vkBackend.h:169-180 | one family's bonuses are added modulo 2^32 |
| GpuScoring.QueuePassNeverLowers | Sphynx/include/Core/Graphics/Vulkan/vkBackend.h:163-181 | without 32-bit overflow, the pass adds exactly the bonuses and never lowers the score |

## Left out

- SharedOwnership.CoAllocate: records where the layout as written puts the control block, but not what writing it there does. When it lies past the region or over the payload (`CoAllocation.ControlBlockMisplaced`), the model still keeps the counters and the payload apart, as if the block were stored separately.
- Atomics and memory orderings in `Shared`, `Weak` and `RingBuffer` are not modelled; every operation runs sequentially. This includes the check-then-increment race in `Weak::Lock`.
- `operator new`/`delete`, placement new, `memmove`, `malloc`/`free` and pointer casts are not modelled as code. They appear as Dafny objects and ghost records: payload alive or destroyed, region freed or not, and the `delete` expressions applied.
- Type-level code is not modelled: C++ concepts such as `PolymorphicConvertible` and `SafelyUpcastable`, the `static_assert`s, and the `_DEBUG` `typeid` fields. `ToShared` takes the type traits it branches on as a parameter.
- The `Memory` classes of both `Memory.h` files are not modelled: they are declarations without bodies. The region allocator of `Sphynx/include/Core/Memory.h` is unfinished and is not part of this model.
- The converting move constructor `Shared(Shared<U>&&)` (`Hubris/include/Memory.h:313-322`) is left out. Its body names `other->crt_blk`, which does not compile once instantiated.
- Several converting templates do not compile once instantiated. Their bodies are modelled as written, as the rows above say:
  - `Shared`'s converting copy, copy assignment and move assignment (`Hubris/include/Memory.h:284-311`, `:324-336`) for U ≠ T read the private `ctr_blk` of `Shared<U>`, and `this == &cpy` compares unrelated pointer types. For U = T, only the move assignment is selected (MoveAssign); the implicit copy members win over the other two (ImplicitCopy, ImplicitCopyAssign).
  - The Hubris `Handle(Handle<U>&&)` (`:481-485`) and the Sphynx one (`Sphynx/include/Memory.h:130-134`) read the private `raw` of `Handle<U>` and `std::swap` a `T*` with a `U*`.
  - The Hubris `Handle::swap` (`:529-532`), and with it the free `swap` (`:684-687`), and the converting move assignment (`:500-506`, not modelled) pass the prvalue `static_cast<T*>(rhs.raw)` to `std::swap`.
- `Shared<T> b(a)` for a non-const or rvalue `a`, including `Shared<T>(std::move(a))`, selects the variadic constructor (`Hubris/include/Memory.h:271-275`). It co-allocates a `Shared<T>` built from `a` the same way, which recurses without end. This is not modelled.
- The implicit copy assignment of `Weak` (`w2 = w1`) is not modelled. It copies the block pointer like Weak.ImplicitCopy and never gives back the old block's weak count.
- The private `Shared(T*)` constructor is left out; nothing in the modelled code calls it.
- The dereference operators of `Shared`, `Handle` and `Observer` are left out. So are Observer's defaulted `operator<=>`, and the array branch of `ToShared` (the model requires a non-array handle).
- SharedOwnership.ControlBlock.Acquire: the 32-bit `ref_count` and `weak_count` are unbounded here, so a wrap after 2^32 owners is not modelled.
- SharedOwnership.Weak.FromShared: requires a Shared with a block, because the source dereferences the block without a check. The same holds for `Weak::operator bool` on a Weak without a block.
- SharedOwnership.Shared.Promote: requires a Weak with a block, because `Expired()` is false without one and the null block is then dereferenced (`Hubris/include/Memory.h:278-280`).
- SharedOwnership.Shared.CopyFrom: requires a Shared with a block, because the source increments through it unchecked (`:287`).
- SharedOwnership.Weak.Lock: requires a Weak with a block, because `ref_count` is read through it unchecked (`:428`). The same holds for SharedOwnership.Weak.LockShared.
- SharedOwnership.Shared.Release: requires a counted Shared. A Release on a block whose `ref_count` is already 0, which only an implicit copy can reach, is not modelled; it wraps the count to UINT32_MAX and destroys nothing.
- UniqueOwnership.Handle.ToShared: takes `return shared;` (`:549`) to be elided. NRVO is allowed there but not guaranteed, and without it the implicit move would select the variadic constructor and recurse.
- HubrisList.List.Insert: the value is passed by value. The source takes `const T&`, so an argument that aliases an element (through `get`, `List.h:490-493`) is read after the shift, or after `reallocate` has freed the old buffer; this aliasing is not modelled.
- HubrisList.List.PushBack: the value is passed by value. An argument aliasing an element of a full list is read after `reallocate` has freed the old buffer; this aliasing is not modelled.
- HubrisList.List.Resize: the fill value is passed by value. An argument aliasing an element is read after `reallocate` has freed the old buffer; this aliasing is not modelled.
- `List` iterators, `front`, `back`, `operator[]` and `data` are left out. They are unchecked pointer accesses. So are the `is_success`/`is_failure` helpers for `List<int>`.
- The non-random-access branch of `List`'s range constructor is left out; the range is a `seq`, which is random access.
- Element constructors and destructors of `List` are not modelled, and elements are values. `construct_at`, `uninitialized_copy` and `uninitialized_move` always return true, so only allocation can fail.
- A successful `malloc` is taken never to cover all of SIZE_MAX bytes, so a `List`'s capacity stays below SIZE_MAX and `size + 1` never wraps.
- The numeric values of `ComponentType` are not modelled. Neither are the numeric values of the Hubris `Format` enum, whose header is not part of this model; its constructors come from the case labels of the mapping.
- `VkFormat` is modelled as the listed enumerants plus one constructor for every other value.
- `IO::readFile` (file I/O), the `IOBuffer` destructor and the virtual `ExtensionHandler::Read`/`Write` are left out. `ReadFile` returns which handler it would call instead of calling it.
- `vkWindow::Create` apart from the choices modelled, and all GLFW and Vulkan calls, are left out. The framebuffer size and the surface's capabilities and lists are parameters.
- In `QueryDevices` (`Sphynx/include/Core/Graphics/Vulkan/vkBackend.h`), device enumeration, logging, the score multimap and the cache file are left out. Device ID, vendor ID and driver version are never set in `ScoreGPU`, so the model's `Device` omits them.
- GpuScoring.QueuePassNeverLowers: the 32-bit score does not decrease only while it does not overflow. The pass itself is modelled with the wrap (`ScoreQueueFamilies`).
- Swapchain.ImageCount: the lower bound holds only when `minImageCount` is below UINT32_MAX. At UINT32_MAX with no maximum, the count wraps to 0 (`ImageCountWrapsAtMax`).
- Swapchain.ChooseSwapExtent: requires min ≤ max for each dimension when the extent is chosen. `std::clamp` has undefined behaviour otherwise.

## Findings

| source | as written | input that shows it | evidently intended | confidence | as-written member | corrected member |
|---|---|---|---|---|---|---|
| Hubris/include/Memory.h:427-430 | `Shared<T>(*this)` on a const Weak selects the variadic constructor, which co-allocates a new block holding a copy of the Weak | `Lock()` on a Weak whose block still has an owner | the returned Shared joins the Weak's block with `ref_count` + 1 and sees its payload | high, not executed | SharedOwnership.Weak.Lock | SharedOwnership.Weak.LockShared |
| Hubris/include/Memory.h:193 | `CTR_offset` is `padded_size<ControlBlock>()` when the payload goes first, though the payload occupies `padded_size<T>()` bytes there | `Shared<std::size_t>` (size 8, align 8): the 32-byte block is placed at offset 32 of a 40-byte region; a 48-byte, 8-aligned payload overlaps the block | the block at `padded_size<T>()`, which always fits beside the payload | high, not executed | CoAllocation.ControlBlockMisplaced | CoAllocation.PlaceIsSound |
| Hubris/include/Memory.h:223-229 | `Construct_T_Inplace<Args...>` builds `remove_cvref_t` of the argument type, not T, in the space laid out for T | `Shared<int>` (size 4, align 4) built from an 8-byte, 8-aligned argument: 8 bytes at offset 32 of a 36-byte region | construct T itself, which always fits and is aligned | high, not executed | CoAllocation.ConstructedTypeOverflows | CoAllocation.ConstructedTypeFixedFits |
| Hubris/include/Memory.h:534-550 | `shared = Shared<T>(...)` uses the implicit member-wise copy unless T is polymorphic; the temporary then releases the only count | `ToShared()` on a handle to a non-polymorphic, non-trivially-copyable T, such as a `std::string` | the result owns the moved object alone with use count 1 | medium, not executed | UniqueOwnership.Handle.ToShared | UniqueOwnership.Handle.ToSharedFixed |
| Sphynx/include/Memory.h:198 | `operator!` returns the pointer converted to bool, not its negation | any handle holding an object: `!h` is true | `!h` true exactly for an empty handle, as in the Hubris Handle | high, not executed | SphynxHandle.NotAgreesWithBool | SphynxHandle.NotFixedIsNegation |
| Hubris/include/List.h:357-380 | the storage-reusing branch of the copy assignment never sets `m_valid` | an invalid list (capacity 0) assigned a valid empty list stays invalid, and `==` then says they differ | a copy of a valid list is valid and equal to it | high, not executed | HubrisList.InvalidSurvivesEmptyCopy | HubrisList.FixedCopyIsEqual |
| Hubris/include/IO/ResourceManager.h:105-107 | `HandlerMap[key]` inserts a null handler for an unknown key, and `handler->Read` calls through it | `ReadFile("scene.gltf")` with no handler registered for "gltf" | an unknown extension gives the null buffer, like a path without a '.' | medium, not executed | ResourceManager.UnregisteredKeyDispatchesNull | ResourceManager.Registry.ReadFileFixed |
| Hubris/include/Memory.h:240-250 | `Shared` has no user-declared copy constructor or copy assignment, so the implicit member-wise ones copy `ctr_blk` without counting | `Shared<int> a(5); const Shared<int>& r = a; Shared<int> b(r);` then `a` is released | copying a Shared joins the block with one more count, as the converting copy template does | high, not executed | SharedOwnership.ImplicitCopyOutlivesPayload | SharedOwnership.CountedCopyKeepsPayload |
| Hubris/include/Memory.h:410-412 | `Weak` has no user-declared copy constructor, so the implicit one copies `ctr_blk` without counting | a Shared, a Weak `w1` on it and two copies `w2 = w1`, `w3 = w1`; release the Shared and reset `w1` and `w2` | copying a Weak adds one to `weak_count` | high, not executed | SharedOwnership.ImplicitWeakCopiesOutliveRegion | SharedOwnership.CountedWeakCopiesKeepRegion |
