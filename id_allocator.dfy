/**
 * The "highest stored idNo + 1" rule, used both by the browser when it saves a plan
 * locally and by the server's pre-save hook on a new plan document.
 */
module IdAllocator {
  import opened Wrappers
  import opened PlanModel

  function Max(xs: seq<int>): (m: int)
    requires |xs| > 0
    ensures m in xs
    ensures forall i :: 0 <= i < |xs| ==> xs[i] <= m
  {
    if |xs| == 1 then xs[0]
    else
      var m' := Max(xs[..|xs| - 1]);
      if xs[|xs| - 1] > m' then xs[|xs| - 1] else m'
  }

  /** The number issued next: one more than the highest number given, or 1 when none is. */
  function NextIdNo(xs: seq<int>): (n: int)
    ensures forall i :: 0 <= i < |xs| ==> xs[i] < n
    ensures |xs| == 0 ==> n == 1
    ensures |xs| > 0 ==> n - 1 in xs
  {
    if |xs| == 0 then 1 else Max(xs) + 1
  }

  /** The client's view of the stored numbers: `plans.map(p => p.idNo || 0)`. */
  function LocalIdNos(plans: seq<Plan>): (xs: seq<int>)
    ensures |xs| == |plans|
    ensures forall i :: 0 <= i < |plans| ==> xs[i] == plans[i].idNo.GetOr(0)
  {
    if |plans| == 0 then [] else [plans[0].idNo.GetOr(0)] + LocalIdNos(plans[1..])
  }

  /** The number `savePlan` gives a new local plan. */
  function NextLocalIdNo(plans: seq<Plan>): int {
    NextIdNo(LocalIdNos(plans))
  }

  /**
   * The new number exceeds the number of every stored plan, so no stored plan
   * already has it; on an empty list it is 1, otherwise it is one more than a
   * stored plan's number (a missing number counting as 0).
   */
  lemma NextLocalIdNoFresh(plans: seq<Plan>)
    ensures forall i :: 0 <= i < |plans| && plans[i].idNo.Some? ==> plans[i].idNo.value < NextLocalIdNo(plans)
    ensures forall i :: 0 <= i < |plans| ==> plans[i].idNo != Some(NextLocalIdNo(plans))
    ensures |plans| == 0 ==> NextLocalIdNo(plans) == 1
    ensures |plans| > 0 ==> exists i :: 0 <= i < |plans| && plans[i].idNo.GetOr(0) + 1 == NextLocalIdNo(plans)
  {
    var xs := LocalIdNos(plans);
    if |plans| > 0 {
      var k :| 0 <= k < |xs| && xs[k] == NextIdNo(xs) - 1;
      assert plans[k].idNo.GetOr(0) + 1 == NextLocalIdNo(plans);
    }
  }

  /** Issuing numbers in sequence: after a plan with the issued number is stored, the next one is one higher. */
  lemma NextIdNoAfterIssue(xs: seq<int>)
    ensures NextIdNo(xs + [NextIdNo(xs)]) == NextIdNo(xs) + 1
  {
    var n := NextIdNo(xs);
    var ys := xs + [n];
    assert ys[|xs|] == n;
    var m := NextIdNo(ys);
    assert m - 1 in ys;
  }

  /**
   * Max+1 guarantees uniqueness only against the numbers currently stored. Once
   * the plan holding the highest number `m` is removed (every remaining number
   * is below `m`), the next number is at most `m`; it is `m` itself exactly when
   * `m - 1` is still stored, or when nothing is left and `m` was 1. (`m` is an
   * issued number, and both allocators issue numbers from 1 up.)
   */
  lemma DeletedHighestUnprotected(remaining: seq<int>, m: int)
    requires m >= 1
    requires forall i :: 0 <= i < |remaining| ==> remaining[i] < m
    ensures NextIdNo(remaining) <= m
    ensures NextIdNo(remaining) == m <==> m - 1 in remaining || (|remaining| == 0 && m == 1)
  {
  }

  /** Three saves on an empty store give 1, 2, 3; after deleting number 2, the next is 4, not 2. */
  lemma SequentialNumbering()
    ensures NextIdNo([]) == 1 && NextIdNo([1]) == 2 && NextIdNo([1, 2]) == 3
    ensures NextIdNo([1, 3]) == 4
  {
    NextIdNoAfterIssue([]);
    assert [] + [1] == [1];
    NextIdNoAfterIssue([1]);
    assert [1] + [2] == [1, 2];
    assert Max([1, 3]) == 3 by { assert [1, 3][..1] == [1]; }
  }
}
