/** The worked examples of the crate's documentation and tests, stated for a
    source at any address `base` and any non-zero element size `sz`. */
module ResizeExamples {
  import opened Slices
  import opened IsSlice
  import opened ResizeSlice
  import opened ResizeProperties

  /** `&source[1..4]` of `["a", .., "f"]` resized by `0..1` is `["b", "c", "d", "e"]`. */
  lemma {:induction false} GrowEndByOne(base: nat, sz: nat)
    requires sz > 0
    ensures var source := Slice(base, ["a", "b", "c", "d", "e", "f"]);
            var r := TryResizeRange(Sub(source, 1, 4, sz), source, 0, 1, sz);
            r.Ok? && r.value.elems == ["b", "c", "d", "e"]
  {
    var source := Slice(base, ["a", "b", "c", "d", "e", "f"]);
    TryResizeRangeOfSub(source, 1, 4, 0, 1, sz);
  }

  /** `&source[1..2]` of `[1, 2, 3, 4, 5]` resized by `1..-1` would start at 2
      and end at 1: `NegativeSlice`. */
  lemma {:induction false} ShrinkPastItself(base: nat, sz: nat)
    requires sz > 0
    ensures var source := Slice(base, [1, 2, 3, 4, 5]);
            TryResizeRange(Sub(source, 1, 2, sz), source, 1, -1, sz) == Err(NegativeSlice)
  {
    OffsetOfSub(Slice(base, [1, 2, 3, 4, 5]), 1, 2, sz);
  }

  /** The unchecked `0..2` resize of `&source[1..3]` is `[2, 3, 4, 5]`. */
  lemma {:induction false} ExtendEnd(base: nat, sz: nat)
    requires sz > 0
    ensures var source := Slice(base, [1, 2, 3, 4, 5]);
            var view := Sub(source, 1, 3, sz);
            view.elems == [2, 3] &&
            Offset(view, source, sz) == 1 &&
            ResizeRange(view, source, 0, 2, sz).elems == [2, 3, 4, 5]
  {
    OffsetOfSub(Slice(base, [1, 2, 3, 4, 5]), 1, 3, sz);
  }

  /** The unchecked `-1..2` resize of `&source[1..3]` is the whole source. */
  lemma {:induction false} ExtendBothEnds(base: nat, sz: nat)
    requires sz > 0
    ensures var source := Slice(base, [1, 2, 3, 4, 5]);
            var view := Sub(source, 1, 3, sz);
            Offset(view, source, sz) == 1 &&
            ResizeRange(view, source, -1, 2, sz) == source
  {
    OffsetOfSub(Slice(base, [1, 2, 3, 4, 5]), 1, 3, sz);
  }

  /** The unchecked `..2` resize of `&source[1..3]` is the whole source. */
  lemma {:induction false} ExtendToStart(base: nat, sz: nat)
    requires sz > 0
    ensures var source := Slice(base, [1, 2, 3, 4, 5]);
            var view := Sub(source, 1, 3, sz);
            Offset(view, source, sz) == 1 &&
            ResizeTo(view, source, 2, sz) == source
  {
    OffsetOfSub(Slice(base, [1, 2, 3, 4, 5]), 1, 3, sz);
  }

  /** The unchecked `..` resize of `&source[1..3]` is the whole source. */
  lemma WholeSource(base: nat, sz: nat)
    ensures var source := Slice(base, [1, 2, 3, 4, 5]);
            ResizeFull(Sub(source, 1, 3, sz), source, sz) == source
  {
  }

  /** A slice of one array resized against a second array that does not
      overlap the first is `NotInSource`, in either order. */
  lemma {:induction false} OtherArrayNotInSource(base: nat, base2: nat, sz: nat)
    requires sz > 0
    requires base + 5 * sz <= base2 || base2 + 5 * sz <= base
    ensures var source, source2 := Slice(base, [1, 2, 3, 4, 5]), Slice(base2, [6, 7, 8, 9, 10]);
            TryResizeFull(Sub(source, 1, 3, sz), source2, sz) == Err(NotInSource) &&
            TryResizeFull(Sub(source2, 1, 3, sz), source, sz) == Err(NotInSource)
  {
    var source, source2 := Slice(base, [1, 2, 3, 4, 5]), Slice(base2, [6, 7, 8, 9, 10]);
    DisjointNotSliceOf(Sub(source, 1, 3, sz), source2, sz);
    DisjointNotSliceOf(Sub(source2, 1, 3, sz), source, sz);
  }

  /** Growing the end of the whole source by one is `OutOfBounds`. */
  lemma {:induction false} GrowPastSourceEnd(base: nat, sz: nat)
    requires sz > 0
    ensures var source := Slice(base, [1, 2, 3, 4, 5]);
            TryResizeTo(Sub(source, 0, 5, sz), source, 1, sz) == Err(OutOfBounds)
  {
    TryResizeToOfSub(Slice(base, [1, 2, 3, 4, 5]), 0, 5, 1, sz);
  }
}
