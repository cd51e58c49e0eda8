/** Searching and filtering sequences, as JavaScript's `Array.prototype.find`/`findIndex`. */
module Seqs {
  import opened Wrappers

  /** Index of the first element satisfying `p`, or None (`findIndex` returning -1). */
  function FirstIndex<T>(s: seq<T>, p: T -> bool): (r: Option<nat>)
    ensures r.Some? ==> r.value < |s| && p(s[r.value])
    ensures r.Some? ==> forall j :: 0 <= j < r.value ==> !p(s[j])
    ensures r.None? ==> forall j :: 0 <= j < |s| ==> !p(s[j])
  {
    if |s| == 0 then None
    else if p(s[0]) then Some(0)
    else match FirstIndex(s[1..], p)
      case None => None
      case Some(k) => Some(k + 1)
  }

  /** Two sequences whose elements agree on `p` position by position have the same first match. */
  lemma FirstIndexAgrees<T, U>(a: seq<T>, p: T -> bool, b: seq<U>, q: U -> bool)
    requires |a| == |b|
    requires forall i :: 0 <= i < |a| ==> p(a[i]) == q(b[i])
    ensures FirstIndex(a, p) == FirstIndex(b, q)
  {
  }
}
