# resize_slice in Dafny

A model of the `resize_slice` crate. The crate shrinks or grows a Rust slice
`&[T]` inside a larger source slice without copying anything. Its core has two
parts:

- **`CouldBeSliceOf::is_slice_of`**: could a slice be a slice of another? Each
  slice is treated as the byte interval `[ptr, ptr + len * size_of::<T>())`.
  The check asks whether the inner interval lies inside the outer one. It is
  purely geometric and knows nothing of where the slices came from.
- **`ResizeSlice::resize` / `try_resize`**: take a view, its presumed source and
  deltas measured from the view's own start and end. Compute the view's element
  offset in the source as `(view.ptr - source.ptr) / size_of::<T>()`. Move the
  boundaries, then return `&source[new_start..new_end]`. There is one
  implementation per range shape: `..`, `start..`, `..end` and `start..end`.
  `resize` trusts its caller; `try_resize` returns `OutOfBounds`,
  `NegativeSlice` or `NotInSource`.

Files:

- `slices.dfy` (module `Slices`): the data model. A slice is
  `Slice(addr, elems)` in an unbounded address space. `sz` is the element size.
  `Sub(s, i, j, sz)` is Rust's `&s[i..j]`.
- `is_slice.dfy` (module `IsSlice`): both `is_slice_of` implementations and
  their properties.
- `resize.dfy` (module `ResizeSlice`): the error type, the offset computation
  and the eight `resize`/`try_resize` functions.
- `resize_properties.dfy` (module `ResizeProperties`): properties spanning
  several calls. These are agreement of the checked and unchecked forms,
  closed forms for views taken out of the source, round trip and composition.
- `resize_examples.dfy` (module `ResizeExamples`): the crate's documented
  examples and tests. Each holds for any base address and any non-zero element
  size.

Two behaviours of the code are kept as written:

- The `start..end` `try_resize` performs no containment check. It never
  returns `NotInSource`. A view lying wholly outside the source can still
  succeed (`RangeSkipsContainmentCheck`).
- The `..` `resize` returns the source unconditionally.

## Model

| member | source | states |
|---|---|---|
| `Slices.Sub` | src/lib.rs:234 | `&s[i..j]` has `j - i` elements, element `k` is `s[i + k]`, and it starts at or after `s` and ends `j` elements after `s`'s start, so within `s` |
| `Slices.SubIsAligned` | src/lib.rs:234 | a slice indexed out of `s` starts a whole number of elements after `s` |
| `IsSlice.IsSliceOfIffBytesCovered` | src/is_slice.rs:19-29 | for a non-empty view and `sz > 0`, `is_slice_of` holds iff every byte of the view is a byte of the source |
| `IsSlice.IsSliceOf` | src/is_slice.rs:19-29 | when `is_slice_of` holds, every byte of the view is a byte of the source, and the view's address lies between the source's start and end address, both included |
| `IsSlice.ArrayIsSliceOf` | src/is_slice.rs:31-41 | the `&[T; N]` implementation answers as the `&[T]` one for the same address and length |
| `IsSlice.IsSliceOfReflexive` | src/is_slice.rs:81-87 | every slice is a slice of itself |
| `IsSlice.IsSliceOfAntisymmetric` | src/is_slice.rs:22-27 | two slices contained in each other have the same start and end address |
| `IsSlice.IsSliceOfTransitive` | src/is_slice.rs:22-27 | a slice of a slice of `c` is a slice of `c` |
| `IsSlice.SubIsSliceOf` | src/is_slice.rs:49-79 | every range `&s[i..j]`, prefix and suffix included, is a slice of `s` |
| `IsSlice.UpperHalfNotInLowerHalf` | src/is_slice.rs:57-63 | a non-empty `&s[k..]` is not a slice of `&s[..k]` |
| `IsSlice.EmptySameAddressMutual` | src/is_slice.rs:89-95 | two empty slices at one address are slices of each other |
| `IsSlice.EmptyIsSliceOfIffWithin` | src/is_slice.rs:25-27 | an empty slice is contained iff its address lies between the source's start and its end address, both included |
| `IsSlice.DisjointNotSliceOf` | src/is_slice.rs:11-12 | two non-empty slices with non-overlapping byte ranges are not contained in each other, either way |
| `ResizeSlice.MessagesDistinct` | src/lib.rs:55-75 | the three `Error` variants display three different fixed messages (`Message`), so a message names its error |
| `ResizeSlice.Offset` | src/lib.rs:163-164 | the offset is the number of the source's element slot in which the view starts; for an aligned view, exactly its element index |
| `ResizeSlice.OffsetOfSub` | src/lib.rs:163-164 | the offset of `&s[i..j]` in `s` is `i` |
| `ResizeSlice.ResizeFull` | src/lib.rs:133-135 | the unchecked `..` resize is the whole source `&source[0..len]`, whatever the view |
| `ResizeSlice.TryResizeFull` | src/lib.rs:137-143 | `Ok` iff the view is a slice of the source, and then the whole source; otherwise `NotInSource` |
| `ResizeSlice.ResizeFrom` | src/lib.rs:151-157 | the result is `&source[offset + start..]`; it ends where the source ends and, for an aligned view, starts `start` elements after the view |
| `ResizeSlice.TryResizeFrom` | src/lib.rs:159-172 | `NotInSource` iff not contained; `OutOfBounds` iff contained and the new start is outside `0..=len`; never `NegativeSlice`; an `Ok` is `&source[offset + start..]`, a slice of the source ending at its end and starting `start` elements after an aligned view |
| `ResizeSlice.ResizeTo` | src/lib.rs:180-187 | the result is `&source[..offset + len + end]`; it starts at the source and, for an aligned view, ends `end` elements after the view's end |
| `ResizeSlice.TryResizeTo` | src/lib.rs:189-203 | `NotInSource` iff not contained; `OutOfBounds` iff contained and the new end is outside `0..=len`; never `NegativeSlice`; an `Ok` is `&source[..offset + len + end]`, a slice of the source starting at its start and ending `end` elements after an aligned view's end |
| `ResizeSlice.ResizeRange` | src/lib.rs:211-219 | the result is `&source[offset + start..offset + len + end]`, a slice of the source, moved by `start` and `end` elements from an aligned view's boundaries |
| `ResizeSlice.TryResizeRange` | src/lib.rs:221-235 | never `NotInSource`; `NegativeSlice` iff new end < new start, whatever the bounds; `OutOfBounds` iff the boundaries do not cross but leave `0..=len`; an `Ok` is `&source[new_start..new_end]`, a slice of the source, moved by the deltas from an aligned view |
| `ResizeProperties.TryResizeFullAgreesWithResize` | src/lib.rs:133-143 | a successful checked `..` resize equals the unchecked one |
| `ResizeProperties.TryResizeFromAgreesWithResize` | src/lib.rs:151-172 | a successful checked `start..` resize meets the unchecked one's no-panic condition and equals it |
| `ResizeProperties.TryResizeToAgreesWithResize` | src/lib.rs:180-203 | a successful checked `..end` resize meets the unchecked one's no-panic condition and equals it |
| `ResizeProperties.TryResizeRangeAgreesWithResize` | src/lib.rs:211-235 | a successful checked `start..end` resize meets the unchecked one's no-panic condition and equals it |
| `ResizeProperties.TryResizeRangeOfSub` | src/lib.rs:221-235 | for the view `&source[i..j]`, `start..end` succeeds iff `0 <= i + start <= j + end <= len`, giving `&source[i + start..j + end]` |
| `ResizeProperties.RangeZeroIsIdentity` | src/lib.rs:27-32 | `0..0` applied to a view taken out of the source gives the same view back |
| `ResizeProperties.TryResizeFromOfSub` | src/lib.rs:159-172 | for the view `&source[i..j]`, `start..` succeeds iff `0 <= i + start <= len`, giving `&source[i + start..]` |
| `ResizeProperties.TryResizeToOfSub` | src/lib.rs:189-203 | for the view `&source[i..j]`, `..end` succeeds iff `0 <= j + end <= len`, giving `&source[..j + end]` |
| `ResizeProperties.RangeResizeRoundTrip` | src/lib.rs:221-235 | resizing by `-start..-end` after a successful `start..end` restores the view |
| `ResizeProperties.RangeResizeComposes` | src/lib.rs:221-235 | two successful `start..end` resizes equal one resize by the summed deltas |
| `ResizeProperties.RangeCombinesFromAndTo` | src/lib.rs:159-235 | when `start..end` succeeds, `start..` and `..end` succeed too and place the start and the end at the same addresses |
| `ResizeProperties.RangeSkipsContainmentCheck` | src/lib.rs:221-235 | a view wholly past the source's end, not a slice of it, is still resized into it by `start..end` |
| `ResizeExamples.GrowEndByOne` | src/lib.rs:5-12 | `&["a".."f"][1..4]` resized by `0..1` is `["b", "c", "d", "e"]` |
| `ResizeExamples.ShrinkPastItself` | src/lib.rs:48-54 | `&[1..5][1..2]` resized by `1..-1` is `NegativeSlice` |
| `ResizeExamples.ExtendEnd` | src/test.rs:3-10 | `&[1..5][1..3]` resized by `0..2` is `[2, 3, 4, 5]` |
| `ResizeExamples.ExtendBothEnds` | src/test.rs:12-18 | `&[1..5][1..3]` resized by `-1..2` is the whole source |
| `ResizeExamples.ExtendToStart` | src/test.rs:20-26 | `&[1..5][1..3]` resized by `..2` is the whole source |
| `ResizeExamples.WholeSource` | src/test.rs:28-34 | `&[1..5][1..3]` resized by `..` is the whole source |
| `ResizeExamples.OtherArrayNotInSource` | src/test.rs:36-52 | a slice of one array checked against another, non-overlapping array is `NotInSource`, either way round |
| `ResizeExamples.GrowPastSourceEnd` | src/lib.rs:189-203 | the whole source resized by `..1` is `OutOfBounds` |

## Left out

- Raw pointers and lifetimes: addresses are abstract unbounded naturals. The tie
  of the result's lifetime to the source is a property of Rust's type system,
  not of the computation.
- `usize` wrap-around: address sums and the subtraction
  `view.ptr - source.ptr` are not reduced modulo 2^64. The subtraction's
  underflow when the view starts before the source is a `requires`
  (`source.addr <= view.addr`). This applies to the unchecked resizes and to
  the `start..end` `try_resize`, which run it with no containment check
  before it.
- The offset type `I` and its `as_()` conversions: deltas and positions are
  unbounded `int`s. Overflow of `+` on `I` and the wrapping `as` casts are not
  modelled. With an unsigned `I` the `< 0` tests are vacuous and negative
  deltas cannot be written; the model covers the signed case.
- Zero-sized `T`: the offset divides by `size_of::<T>()`, so every operation
  that computes it requires `sz > 0`. `is_slice_of` and the `..` shapes do not
  divide, so they take any `sz`.
- Panics of the unchecked `resize`: Rust's slice indexing panics when its
  bounds are invalid. This is stated as `requires` on the new boundaries
  rather than modelled as behaviour.
- The `Display` and `std::error::Error` implementations: only the three fixed
  message strings are modelled (`Message`).
- The trait declarations themselves (`CouldBeSliceOf`, `ResizeSlice`): each
  implementation is a separate function; Rust's dispatch on the range type is
  not modelled.
