/**
 * Python's list subscripts and the search `list.index` performs, shared by
 * the protected list and the recipe tab.
 */
module Seqs {
  import opened Wrappers

  /**
   * Python's reading of an integer subscript on a list of length `n`:
   * negative subscripts count from the end; anything else out of range
   * raises `IndexError` (None here).
   */
  function NormalizeIndex(i: int, n: nat): (r: Option<nat>)
    ensures r.Some? <==> 0 <= n + i && i < n
    ensures r.Some? ==> r.value < n
    ensures r.Some? && i >= 0 ==> r.value == i
    ensures r.Some? && i < 0 ==> r.value == n + i
  {
    if 0 <= i < n then Some(i)
    else if 0 <= n + i && i < 0 then Some(n + i)
    else None
  }

  /** The first position in `[lo, hi)` holding `v`, or None when there is none. */
  function FirstIndex<T(==)>(s: seq<T>, v: T, lo: nat, hi: nat): (r: Option<nat>)
    requires hi <= |s|
    ensures r.Some? ==> lo <= r.value < hi && s[r.value] == v
    ensures r.Some? ==> forall j :: lo <= j < r.value ==> s[j] != v
    ensures r.None? ==> forall j :: lo <= j < hi ==> s[j] != v
    decreases hi - lo
  {
    if lo >= hi then None
    else if s[lo] == v then Some(lo)
    else FirstIndex(s, v, lo + 1, hi)
  }

  /** Whether `v` occurs in `s` is decided by the search over the whole sequence. */
  lemma FirstIndexFindsMember<T>(s: seq<T>, v: T)
    ensures FirstIndex(s, v, 0, |s|).Some? <==> v in s
  {
    var r := FirstIndex(s, v, 0, |s|);
    if v in s {
      var j :| 0 <= j < |s| && s[j] == v;
      assert r.Some?;
    }
  }
}
