/** The containment check `CouldBeSliceOf::is_slice_of`: could one slice be a
    slice of another? The answer is purely geometric. Each slice is the byte
    interval `[addr, addr + len * size_of::<T>())`, and the inner interval
    must lie inside the outer one. Where the slices came from plays no part. */
module IsSlice {
  import opened Slices

  /** `view.is_slice_of(source)` for a slice `view: &[T]`. When it holds,
      every byte of `view` is a byte of `source`, and the address of `view`
      (the only point of an empty view) lies within the bytes of `source` or
      just past its end; `IsSliceOfIffBytesCovered` and
      `EmptyIsSliceOfIffWithin` give the converses. */
  predicate IsSliceOf<T>(view: Slice<T>, source: Slice<T>, sz: nat): (r: bool)
    ensures r ==> forall b :: Covers(view, b, sz) ==> Covers(source, b, sz)
    ensures r ==> source.addr <= view.addr <= End(source, sz)
  {
    var outerStart := source.addr;
    var outerEnd := outerStart + |source.elems| * sz;
    var innerStart := view.addr;
    var innerEnd := innerStart + |view.elems| * sz;
    outerStart <= innerStart && innerEnd <= outerEnd
  }

  /** A reference to a fixed-size array `&[T; N]`; `N` is `|elems|`. */
  datatype ArrayRef<T> = ArrayRef(addr: nat, elems: seq<T>)

  /** `arr.is_slice_of(source)` for an array reference `arr: &[T; N]`. It
      answers as the slice implementation does for the slice at the same
      address with the same length. */
  predicate ArrayIsSliceOf<T>(arr: ArrayRef<T>, source: Slice<T>, sz: nat): (r: bool)
    ensures r <==> IsSliceOf(Slice(arr.addr, arr.elems), source, sz)
  {
    var outerStart := source.addr;
    var outerEnd := outerStart + |source.elems| * sz;
    var innerStart := arr.addr;
    var innerEnd := innerStart + |arr.elems| * sz;
    outerStart <= innerStart && innerEnd <= outerEnd
  }

  /** Byte `b` belongs to slice `s`. */
  predicate Covers<T>(s: Slice<T>, b: int, sz: nat) {
    s.addr <= b < End(s, sz)
  }

  /** For a slice that owns at least one byte, the check holds exactly when
      every byte of `view` is a byte of `source`. */
  lemma IsSliceOfIffBytesCovered<T>(view: Slice<T>, source: Slice<T>, sz: nat)
    requires sz > 0 && |view.elems| > 0
    ensures IsSliceOf(view, source, sz) <==> forall b :: Covers(view, b, sz) ==> Covers(source, b, sz)
  {
    MulMonotone(1, |view.elems|, sz);
    if !IsSliceOf(view, source, sz) {
      if view.addr < source.addr {
        assert Covers(view, view.addr, sz) && !Covers(source, view.addr, sz);
      } else {
        assert Covers(view, End(view, sz) - 1, sz) && !Covers(source, End(view, sz) - 1, sz);
      }
    }
  }

  /** Every slice is a slice of itself. */
  lemma IsSliceOfReflexive<T>(s: Slice<T>, sz: nat)
    ensures IsSliceOf(s, s, sz)
  {
  }

  /** Slices that are slices of each other cover the same byte range. */
  lemma IsSliceOfAntisymmetric<T>(a: Slice<T>, b: Slice<T>, sz: nat)
    requires IsSliceOf(a, b, sz) && IsSliceOf(b, a, sz)
    ensures a.addr == b.addr && End(a, sz) == End(b, sz)
  {
  }

  /** A slice of a slice of `c` is a slice of `c`. */
  lemma IsSliceOfTransitive<T>(a: Slice<T>, b: Slice<T>, c: Slice<T>, sz: nat)
    requires IsSliceOf(a, b, sz) && IsSliceOf(b, c, sz)
    ensures IsSliceOf(a, c, sz)
  {
  }

  /** Every range `&s[i..j]` of `s`, prefixes `&s[..j]`, suffixes `&s[i..]`
      and `s` itself included, is a slice of `s`. */
  lemma SubIsSliceOf<T>(s: Slice<T>, i: nat, j: nat, sz: nat)
    requires i <= j <= |s.elems|
    ensures IsSliceOf(Sub(s, i, j, sz), s, sz)
  {
  }

  /** The upper part `&s[k..]` is not a slice of the lower part `&s[..k]`
      when it holds at least one element, for a non-zero element size. */
  lemma UpperHalfNotInLowerHalf<T>(s: Slice<T>, k: nat, sz: nat)
    requires sz > 0 && k < |s.elems|
    ensures !IsSliceOf(Sub(s, k, |s.elems|, sz), Sub(s, 0, k, sz), sz)
  {
    MulMonotone(k + 1, |s.elems|, sz);
  }

  /** Two empty slices at the same address are slices of each other. */
  lemma EmptySameAddressMutual<T>(a: Slice<T>, b: Slice<T>, sz: nat)
    requires a.addr == b.addr && |a.elems| == 0 && |b.elems| == 0
    ensures IsSliceOf(a, b, sz) && IsSliceOf(b, a, sz)
  {
  }

  /** An empty slice anywhere from the first byte of `source` up to and
      including the address just past its end is a slice of `source`, and
      nowhere else. */
  lemma EmptyIsSliceOfIffWithin<T>(view: Slice<T>, source: Slice<T>, sz: nat)
    requires |view.elems| == 0
    ensures IsSliceOf(view, source, sz) <==> source.addr <= view.addr <= End(source, sz)
  {
  }

  /** Two non-empty slices whose byte ranges do not overlap are not slices of
      each other, in either direction. */
  lemma DisjointNotSliceOf<T>(a: Slice<T>, b: Slice<T>, sz: nat)
    requires sz > 0 && |a.elems| > 0 && |b.elems| > 0
    requires End(a, sz) <= b.addr || End(b, sz) <= a.addr
    ensures !IsSliceOf(a, b, sz) && !IsSliceOf(b, a, sz)
  {
    MulMonotone(1, |a.elems|, sz);
    MulMonotone(1, |b.elems|, sz);
  }
}
