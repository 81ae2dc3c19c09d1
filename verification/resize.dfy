/** The relative resizer `ResizeSlice`: given a view, the source slice it was
    presumably taken from and deltas measured from the view's own start and
    end, compute the view's element offset inside the source, move its
    boundaries and hand back the matching range of the source. Each of the
    four range shapes of the Rust trait (`..`, `start..`, `..end`,
    `start..end`) has an unchecked `resize` and a checked `try_resize`. */
module ResizeSlice {
  import opened Slices
  import opened IsSlice

  /** The ways a checked resize can fail. */
  datatype Error =
    | OutOfBounds    // a new boundary would lie outside the source
    | NegativeSlice  // the new start would come after the new end
    | NotInSource    // the view is not a slice of the source

  /** The fixed text the `Display` implementation writes for each error. */
  function Message(e: Error): string {
    match e
    case OutOfBounds => "the slice would be out of bounds of the source slice"
    case NegativeSlice => "the start of the new slice would be after its end"
    case NotInSource => "the slice is not part of the source slice"
  }

  /** Each error displays its own message: no two errors share one. */
  lemma MessagesDistinct(e1: Error, e2: Error)
    ensures Message(e1) == Message(e2) <==> e1 == e2
  {
  }

  datatype Result<T> = Ok(value: T) | Err(error: Error)

  /** The view's element offset inside the source,
      `(view.as_ptr() - source.as_ptr()) / size_of::<T>()`: the number of the
      source's element slot in which the view starts. */
  function Offset<T>(view: Slice<T>, source: Slice<T>, sz: nat): (k: nat)
    requires sz > 0 && source.addr <= view.addr
    ensures source.addr + k * sz <= view.addr < source.addr + (k + 1) * sz
    ensures Aligned(view, source, sz) ==> source.addr + k * sz == view.addr
  {
    (view.addr - source.addr) / sz
  }

  /** The offset of `&s[i..j]` inside `s` is `i`. */
  lemma OffsetOfSub<T>(s: Slice<T>, i: nat, j: nat, sz: nat)
    requires sz > 0 && i <= j <= |s.elems|
    ensures Offset(Sub(s, i, j, sz), s, sz) == i
  {
    SubIsAligned(s, i, j, sz);
    MulDivExact(i, sz);
  }

  /** `r` is the range `&source[i..j]` of the source. */
  ghost predicate IsRange<T>(r: Slice<T>, source: Slice<T>, i: int, j: int, sz: nat) {
    0 <= i <= j <= |source.elems| && r == Sub(source, i, j, sz)
  }

  // ----- `..` -------------------------------------------------------------

  /** `resize(source, ..)`: the whole source, whatever the view. */
  function ResizeFull<T>(view: Slice<T>, source: Slice<T>, sz: nat): (r: Slice<T>)
    ensures IsRange(r, source, 0, |source.elems|, sz)
  {
    source
  }

  /** `try_resize(source, ..)`: the whole source when the view is a slice of
      it, `NotInSource` otherwise. */
  function TryResizeFull<T>(view: Slice<T>, source: Slice<T>, sz: nat): (r: Result<Slice<T>>)
    ensures r.Ok? <==> IsSliceOf(view, source, sz)
    ensures r.Ok? ==> IsRange(r.value, source, 0, |source.elems|, sz)
    ensures r.Err? ==> r.error == NotInSource
  {
    if IsSliceOf(view, source, sz) then Ok(source) else Err(NotInSource)
  }

  // ----- `start..` --------------------------------------------------------

  /** `resize(source, start..)`: the source from `start` elements after the
      view's start to the source's end. Rust's indexing panics unless the new
      start lies in `0..=source.len()`, so that is demanded of the caller. */
  function ResizeFrom<T>(view: Slice<T>, source: Slice<T>, start: int, sz: nat): (r: Slice<T>)
    requires sz > 0 && source.addr <= view.addr
    requires 0 <= Offset(view, source, sz) + start <= |source.elems|
    ensures IsRange(r, source, Offset(view, source, sz) + start, |source.elems|, sz)
    ensures End(r, sz) == End(source, sz)
    ensures Aligned(view, source, sz) ==> r.addr == view.addr + start * sz
  {
    var selfStart := Offset(view, source, sz);
    var newStart := selfStart + start;
    Sub(source, newStart, |source.elems|, sz)
  }

  /** `try_resize(source, start..)`. */
  function TryResizeFrom<T>(view: Slice<T>, source: Slice<T>, start: int, sz: nat): (r: Result<Slice<T>>)
    requires sz > 0
    ensures r == Err(NotInSource) <==> !IsSliceOf(view, source, sz)
    ensures r == Err(OutOfBounds) <==>
              IsSliceOf(view, source, sz) && !(0 <= Offset(view, source, sz) + start <= |source.elems|)
    ensures r != Err(NegativeSlice)
    ensures r.Ok? ==> IsRange(r.value, source, Offset(view, source, sz) + start, |source.elems|, sz)
    ensures r.Ok? ==> IsSliceOf(r.value, source, sz) && End(r.value, sz) == End(source, sz)
    ensures r.Ok? && Aligned(view, source, sz) ==> r.value.addr == view.addr + start * sz
  {
    if !IsSliceOf(view, source, sz) then Err(NotInSource)
    else
      var selfStart := Offset(view, source, sz);
      var newStart := selfStart + start;
      if newStart < 0 || newStart > |source.elems| then Err(OutOfBounds)
      else Ok(Sub(source, newStart, |source.elems|, sz))
  }

  // ----- `..end` ----------------------------------------------------------

  /** `resize(source, ..end)`: the source from its start to `end` elements
      after the view's end. Rust's indexing panics unless the new end lies in
      `0..=source.len()`, so that is demanded of the caller. */
  function ResizeTo<T>(view: Slice<T>, source: Slice<T>, end: int, sz: nat): (r: Slice<T>)
    requires sz > 0 && source.addr <= view.addr
    requires 0 <= Offset(view, source, sz) + |view.elems| + end <= |source.elems|
    ensures IsRange(r, source, 0, Offset(view, source, sz) + |view.elems| + end, sz)
    ensures r.addr == source.addr
    ensures Aligned(view, source, sz) ==> End(r, sz) == End(view, sz) + end * sz
  {
    var selfStart := Offset(view, source, sz);
    var selfEnd := selfStart + |view.elems|;
    var newEnd := selfEnd + end;
    Sub(source, 0, newEnd, sz)
  }

  /** `try_resize(source, ..end)`. */
  function TryResizeTo<T>(view: Slice<T>, source: Slice<T>, end: int, sz: nat): (r: Result<Slice<T>>)
    requires sz > 0
    ensures r == Err(NotInSource) <==> !IsSliceOf(view, source, sz)
    ensures r == Err(OutOfBounds) <==>
              IsSliceOf(view, source, sz) &&
              !(0 <= Offset(view, source, sz) + |view.elems| + end <= |source.elems|)
    ensures r != Err(NegativeSlice)
    ensures r.Ok? ==> IsRange(r.value, source, 0, Offset(view, source, sz) + |view.elems| + end, sz)
    ensures r.Ok? ==> IsSliceOf(r.value, source, sz) && r.value.addr == source.addr
    ensures r.Ok? && Aligned(view, source, sz) ==> End(r.value, sz) == End(view, sz) + end * sz
  {
    if !IsSliceOf(view, source, sz) then Err(NotInSource)
    else
      var selfStart := Offset(view, source, sz);
      var selfEnd := selfStart + |view.elems|;
      var newEnd := selfEnd + end;
      if newEnd < 0 || newEnd > |source.elems| then Err(OutOfBounds)
      else Ok(Sub(source, 0, newEnd, sz))
  }

  // ----- `start..end` -----------------------------------------------------

  /** `resize(source, start..end)`: both boundaries move. Rust's indexing
      panics unless `0 <= new start <= new end <= source.len()`, so that is
      demanded of the caller. */
  function ResizeRange<T>(view: Slice<T>, source: Slice<T>, start: int, end: int, sz: nat): (r: Slice<T>)
    requires sz > 0 && source.addr <= view.addr
    requires 0 <= Offset(view, source, sz) + start
    requires Offset(view, source, sz) + start <= Offset(view, source, sz) + |view.elems| + end
    requires Offset(view, source, sz) + |view.elems| + end <= |source.elems|
    ensures IsRange(r, source, Offset(view, source, sz) + start, Offset(view, source, sz) + |view.elems| + end, sz)
    ensures IsSliceOf(r, source, sz)
    ensures Aligned(view, source, sz) ==>
              r.addr == view.addr + start * sz && End(r, sz) == End(view, sz) + end * sz
  {
    var selfStart := Offset(view, source, sz);
    var selfEnd := selfStart + |view.elems|;
    var newStart := selfStart + start;
    var newEnd := selfEnd + end;
    Sub(source, newStart, newEnd, sz)
  }

  /** `try_resize(source, start..end)`. Unlike the other shapes it does not
      ask whether the view is a slice of the source, so it never reports
      `NotInSource`; it does subtract the source's address from the view's,
      which underflows unless the view starts at or after the source. */
  function TryResizeRange<T>(view: Slice<T>, source: Slice<T>, start: int, end: int, sz: nat): (r: Result<Slice<T>>)
    requires sz > 0 && source.addr <= view.addr
    ensures r != Err(NotInSource)
    ensures r == Err(NegativeSlice) <==>
              Offset(view, source, sz) + |view.elems| + end < Offset(view, source, sz) + start
    ensures r == Err(OutOfBounds) <==>
              Offset(view, source, sz) + start <= Offset(view, source, sz) + |view.elems| + end &&
              (Offset(view, source, sz) + start < 0 || Offset(view, source, sz) + |view.elems| + end > |source.elems|)
    ensures r.Ok? ==>
              IsRange(r.value, source, Offset(view, source, sz) + start, Offset(view, source, sz) + |view.elems| + end, sz)
    ensures r.Ok? ==> IsSliceOf(r.value, source, sz)
    ensures r.Ok? && Aligned(view, source, sz) ==>
              r.value.addr == view.addr + start * sz && End(r.value, sz) == End(view, sz) + end * sz
  {
    var selfStart := Offset(view, source, sz);
    var selfEnd := selfStart + |view.elems|;
    var newStart := selfStart + start;
    var newEnd := selfEnd + end;
    if newEnd < newStart then Err(NegativeSlice)
    else if newStart < 0 || newEnd > |source.elems| then Err(OutOfBounds)
    else Ok(Sub(source, newStart, newEnd, sz))
  }
}
