/** What the resizer promises across calls: the checked and unchecked
    entry points agree, deltas are relative to the view, and resizing a
    slice taken out of the source composes and can be undone. */
module ResizeProperties {
  import opened Slices
  import opened IsSlice
  import opened ResizeSlice

  /** Whenever `try_resize(source, ..)` succeeds, `resize` gives the same slice. */
  lemma TryResizeFullAgreesWithResize<T>(view: Slice<T>, source: Slice<T>, sz: nat)
    requires TryResizeFull(view, source, sz).Ok?
    ensures TryResizeFull(view, source, sz).value == ResizeFull(view, source, sz)
  {
  }

  /** Whenever `try_resize(source, start..)` succeeds, `resize` is safe to
      call (no panic) and gives the same slice. */
  lemma TryResizeFromAgreesWithResize<T>(view: Slice<T>, source: Slice<T>, start: int, sz: nat)
    requires sz > 0 && TryResizeFrom(view, source, start, sz).Ok?
    ensures source.addr <= view.addr && 0 <= Offset(view, source, sz) + start <= |source.elems|
    ensures TryResizeFrom(view, source, start, sz).value == ResizeFrom(view, source, start, sz)
  {
  }

  /** Whenever `try_resize(source, ..end)` succeeds, `resize` is safe to call
      and gives the same slice. */
  lemma TryResizeToAgreesWithResize<T>(view: Slice<T>, source: Slice<T>, end: int, sz: nat)
    requires sz > 0 && TryResizeTo(view, source, end, sz).Ok?
    ensures source.addr <= view.addr
    ensures 0 <= Offset(view, source, sz) + |view.elems| + end <= |source.elems|
    ensures TryResizeTo(view, source, end, sz).value == ResizeTo(view, source, end, sz)
  {
  }

  /** Whenever `try_resize(source, start..end)` succeeds, `resize` is safe to
      call and gives the same slice. */
  lemma TryResizeRangeAgreesWithResize<T>(view: Slice<T>, source: Slice<T>, start: int, end: int, sz: nat)
    requires sz > 0 && source.addr <= view.addr && TryResizeRange(view, source, start, end, sz).Ok?
    ensures 0 <= Offset(view, source, sz) + start <= Offset(view, source, sz) + |view.elems| + end <= |source.elems|
    ensures TryResizeRange(view, source, start, end, sz).value == ResizeRange(view, source, start, end, sz)
  {
  }

  /** For a view `&source[i..j]`, `try_resize(source, start..end)` succeeds
      exactly when `0 <= i + start <= j + end <= source.len()`, and then it is
      `&source[i + start..j + end]`. */
  lemma {:induction false} TryResizeRangeOfSub<T>(source: Slice<T>, i: nat, j: nat, start: int, end: int, sz: nat)
    requires sz > 0 && i <= j <= |source.elems|
    ensures TryResizeRange(Sub(source, i, j, sz), source, start, end, sz).Ok? <==>
              0 <= i + start <= j + end <= |source.elems|
    ensures 0 <= i + start <= j + end <= |source.elems| ==>
              TryResizeRange(Sub(source, i, j, sz), source, start, end, sz) == Ok(Sub(source, i + start, j + end, sz))
  {
    OffsetOfSub(source, i, j, sz);
  }

  /** A `0..0` resize of a view taken out of the source gives the view back. */
  lemma {:induction false} RangeZeroIsIdentity<T>(source: Slice<T>, i: nat, j: nat, sz: nat)
    requires sz > 0 && i <= j <= |source.elems|
    ensures TryResizeRange(Sub(source, i, j, sz), source, 0, 0, sz) == Ok(Sub(source, i, j, sz))
  {
    TryResizeRangeOfSub(source, i, j, 0, 0, sz);
  }

  /** For a view `&source[i..j]`, `try_resize(source, start..)` succeeds
      exactly when `0 <= i + start <= source.len()`, and then it is
      `&source[i + start..]`. */
  lemma {:induction false} TryResizeFromOfSub<T>(source: Slice<T>, i: nat, j: nat, start: int, sz: nat)
    requires sz > 0 && i <= j <= |source.elems|
    ensures TryResizeFrom(Sub(source, i, j, sz), source, start, sz).Ok? <==>
              0 <= i + start <= |source.elems|
    ensures 0 <= i + start <= |source.elems| ==>
              TryResizeFrom(Sub(source, i, j, sz), source, start, sz) ==
              Ok(Sub(source, i + start, |source.elems|, sz))
  {
    OffsetOfSub(source, i, j, sz);
    SubIsSliceOf(source, i, j, sz);
  }

  /** For a view `&source[i..j]`, `try_resize(source, ..end)` succeeds
      exactly when `0 <= j + end <= source.len()`, and then it is
      `&source[..j + end]`. */
  lemma {:induction false} TryResizeToOfSub<T>(source: Slice<T>, i: nat, j: nat, end: int, sz: nat)
    requires sz > 0 && i <= j <= |source.elems|
    ensures TryResizeTo(Sub(source, i, j, sz), source, end, sz).Ok? <==>
              0 <= j + end <= |source.elems|
    ensures 0 <= j + end <= |source.elems| ==>
              TryResizeTo(Sub(source, i, j, sz), source, end, sz) == Ok(Sub(source, 0, j + end, sz))
  {
    OffsetOfSub(source, i, j, sz);
    SubIsSliceOf(source, i, j, sz);
  }

  /** Undoing a successful `start..end` resize of `&source[i..j]` with
      `-start..-end` gives the view back. */
  lemma {:induction false} RangeResizeRoundTrip<T>(source: Slice<T>, i: nat, j: nat, start: int, end: int, sz: nat)
    requires sz > 0 && i <= j <= |source.elems|
    requires 0 <= i + start <= j + end <= |source.elems|
    ensures var r := TryResizeRange(Sub(source, i, j, sz), source, start, end, sz);
            r.Ok? && source.addr <= r.value.addr &&
            TryResizeRange(r.value, source, -start, -end, sz) == Ok(Sub(source, i, j, sz))
  {
    TryResizeRangeOfSub(source, i, j, start, end, sz);
    TryResizeRangeOfSub(source, i + start, j + end, -start, -end, sz);
  }

  /** Two successive successful `start..end` resizes of `&source[i..j]`
      amount to one resize by the sums of the deltas. */
  lemma {:induction false} RangeResizeComposes<T>(source: Slice<T>, i: nat, j: nat, a: int, b: int, c: int, d: int, sz: nat)
    requires sz > 0 && i <= j <= |source.elems|
    requires 0 <= i + a <= j + b <= |source.elems|
    requires 0 <= i + a + c <= j + b + d <= |source.elems|
    ensures var r := TryResizeRange(Sub(source, i, j, sz), source, a, b, sz);
            r.Ok? && source.addr <= r.value.addr &&
            TryResizeRange(r.value, source, c, d, sz) == TryResizeRange(Sub(source, i, j, sz), source, a + c, b + d, sz)
  {
    TryResizeRangeOfSub(source, i, j, a, b, sz);
    TryResizeRangeOfSub(source, i + a, j + b, c, d, sz);
    TryResizeRangeOfSub(source, i, j, a + c, b + d, sz);
  }

  /** `start..end` moves the start exactly like `start..` and the end exactly
      like `..end`: when the `start..end` resize of `&source[i..j]` succeeds,
      so do the other two, and they agree with it on the boundary each of them
      moves. */
  lemma {:induction false} RangeCombinesFromAndTo<T>(source: Slice<T>, i: nat, j: nat, start: int, end: int, sz: nat)
    requires sz > 0 && i <= j <= |source.elems|
    requires 0 <= i + start <= j + end <= |source.elems|
    ensures var r := TryResizeRange(Sub(source, i, j, sz), source, start, end, sz);
            var f := TryResizeFrom(Sub(source, i, j, sz), source, start, sz);
            var t := TryResizeTo(Sub(source, i, j, sz), source, end, sz);
            r.Ok? && f.Ok? && t.Ok? && r.value.addr == f.value.addr && End(r.value, sz) == End(t.value, sz)
  {
    TryResizeRangeOfSub(source, i, j, start, end, sz);
    TryResizeFromOfSub(source, i, j, start, sz);
    TryResizeToOfSub(source, i, j, end, sz);
  }

  /** The `start..end` resize does not check containment: a view lying wholly
      past the end of the source can still be resized into it. */
  lemma RangeSkipsContainmentCheck()
    ensures var source, view := Slice(0, [1, 2, 3]), Slice(5, [9]);
            !IsSliceOf(view, source, 1) &&
            TryResizeRange(view, source, -4, -3, 1) == Ok(Sub(source, 1, 3, 1))
  {
  }
}
