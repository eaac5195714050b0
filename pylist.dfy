/**
 * The two built-in list operations the plotting helpers rely on, with
 * Python's semantics: `xs.index(key)` and the step-1 slice `xs[lo:hi]`.
 */
module PyList {
  import opened Wrappers

  /**
   * `xs.index(key)`: the position of the FIRST element equal to `key`, or
   * `None` where Python raises `ValueError`.
   */
  function IndexOf<T(==)>(xs: seq<T>, key: T): (r: Option<nat>)
    ensures r.None? <==> key !in xs
    ensures r.Some? ==> r.value < |xs| && xs[r.value] == key
    ensures r.Some? ==> forall j :: 0 <= j < r.value ==> xs[j] != key
  {
    if xs == [] then None
    else if xs[0] == key then Some(0)
    else match IndexOf(xs[1..], key)
      case None => None
      case Some(i) => Some(i + 1)
  }

  /**
   * How Python normalises one slice bound against a list of length `n`:
   * a negative bound counts from the end, then the bound is clamped to [0, n].
   */
  function SliceBound(i: int, n: nat): (r: nat)
    ensures r <= n
    ensures 0 <= i <= n ==> r == i
  {
    if i < 0 then (if i + n < 0 then 0 else i + n)
    else if i > n then n
    else i
  }

  /** `xs[lo:hi]`: never raises; an empty list when the bounds cross. */
  function Slice<T>(xs: seq<T>, lo: int, hi: int): (r: seq<T>)
    ensures |r| <= |xs|
    ensures 0 <= lo && 0 <= hi <= |xs| ==> |r| == if lo < hi then hi - lo else 0
  {
    var a, b := SliceBound(lo, |xs|), SliceBound(hi, |xs|);
    if a < b then xs[a..b] else []
  }

  /** Within range, a Python slice is Dafny's subsequence; crossed bounds give nothing. */
  lemma SliceInRange<T>(xs: seq<T>, lo: int, hi: int)
    requires 0 <= lo <= |xs| && 0 <= hi <= |xs|
    ensures lo <= hi ==> Slice(xs, lo, hi) == xs[lo..hi]
    ensures hi <= lo ==> Slice(xs, lo, hi) == []
  {
  }

  /**
   * Whatever the bounds, a Python slice is one contiguous run of the list,
   * never longer than the list itself.
   */
  lemma SliceIsContiguous<T>(xs: seq<T>, lo: int, hi: int)
    ensures |Slice(xs, lo, hi)| <= |xs|
    ensures var a := SliceBound(lo, |xs|);
      a + |Slice(xs, lo, hi)| <= |xs| && Slice(xs, lo, hi) == xs[a..a + |Slice(xs, lo, hi)|]
  {
  }
}
