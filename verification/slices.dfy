/** The data model shared by the containment check and the resizer: a Rust
    slice `&[T]` seen as a run of elements laid out in an abstract, unbounded
    address space. Every element occupies `sz` bytes (`size_of::<T>()`). */
module Slices {

  /** A slice: the address of its first element and the elements it shows.
      Its length is `|elems|`. */
  datatype Slice<T> = Slice(addr: nat, elems: seq<T>)

  /** One past the last byte of `s`: `s.as_ptr() + s.len() * size_of::<T>()`. */
  function End<T>(s: Slice<T>, sz: nat): nat {
    s.addr + |s.elems| * sz
  }

  /** `a * c <= b * c` for `a <= b`. */
  lemma MulMonotone(a: int, b: int, c: nat)
    requires a <= b
    ensures a * c <= b * c
  {
    assert b * c - a * c == (b - a) * c;
  }

  /** Rust's range indexing `&s[i..j]`: the elements `i` to `j` of `s`,
      starting `i` elements after the start of `s`. */
  function Sub<T>(s: Slice<T>, i: nat, j: nat, sz: nat): (r: Slice<T>)
    requires i <= j <= |s.elems|
    ensures |r.elems| == j - i
    ensures forall k :: 0 <= k < j - i ==> r.elems[k] == s.elems[i + k]
    ensures s.addr <= r.addr && End(r, sz) == s.addr + j * sz <= End(s, sz)
  {
    MulMonotone(j, |s.elems|, sz);
    assert i * sz + (j - i) * sz == j * sz;
    Slice(s.addr + i * sz, s.elems[i..j])
  }

  /** `v` starts a whole number of elements after `s` does, as every slice
      taken out of `s` by indexing does. */
  predicate Aligned<T>(v: Slice<T>, s: Slice<T>, sz: nat)
    requires sz > 0
  {
    s.addr <= v.addr && (v.addr - s.addr) % sz == 0
  }

  /** Taking a sub-slice keeps it aligned with its parent. */
  lemma SubIsAligned<T>(s: Slice<T>, i: nat, j: nat, sz: nat)
    requires sz > 0 && i <= j <= |s.elems|
    ensures Aligned(Sub(s, i, j, sz), s, sz)
  {
    MulDivExact(i, sz);
  }

  /** Dividing `i * sz` by `sz` gives back `i` with no remainder. */
  lemma MulDivExact(i: int, sz: nat)
    requires sz > 0
    ensures (i * sz) / sz == i && (i * sz) % sz == 0
  {
    var q, r := (i * sz) / sz, (i * sz) % sz;
    assert (i - q) * sz == r;
    if i - q >= 1 {
      MulMonotone(1, i - q, sz);
    } else if i - q <= -1 {
      MulMonotone(i - q, -1, sz);
    }
  }
}
