/**
 * The figures the records table and the dashboards derive from a plan's rows:
 * quarter totals, the achieved percentage, the remaining percentage and the cost
 * subtotal. Nothing here is stored; every figure is recomputed from the rows.
 */
module Aggregation {
  import opened Wrappers
  import opened PlanModel

  /** Q1+Q2+Q3+Q4 of the targets (an absent quarter is 0). */
  function TotalTarget(r: Row): int {
    r.targetQ1 + r.targetQ2 + r.targetQ3 + r.targetQ4
  }

  /** Q1+Q2+Q3+Q4 of the actuals. */
  function TotalActual(r: Row): int {
    r.actualQ1 + r.actualQ2 + r.actualQ3 + r.actualQ4
  }

  /**
   * The percentage `Math.round((actual / target) * 100)` shows for a positive
   * target, taken over the exact quotient: the integer nearest to
   * 100*actual/target, a half rounded up. The source divides in doubles first,
   * so at some exact halves (23 of 40) it shows one less.
   */
  function RoundedPercent(actual: int, target: int): (p: int)
    requires target > 0
    ensures 2 * target * p - target <= 200 * actual < 2 * target * p + target
  {
    var q := (200 * actual + target) / (2 * target);
    DivBounds(200 * actual + target, 2 * target);
    q
  }

  lemma DivBounds(x: int, d: int)
    requires d > 0
    ensures d * (x / d) <= x < d * (x / d) + d
  {
  }

  /** `tPct`: the percentage of the target achieved, shown as "Actual"; 0 when the target total is not positive. */
  function AchievedPct(r: Row): int {
    if TotalTarget(r) > 0 then RoundedPercent(TotalActual(r), TotalTarget(r)) else 0
  }

  /** `aPct = Math.max(0, 100 - tPct)`: the share still to reach, shown as "Target". */
  function RemainingPct(r: Row): int {
    var t := AchievedPct(r);
    if 100 - t > 0 then 100 - t else 0
  }

  /** The per-row figures one dashboard card shows. */
  datatype RowFigures = RowFigures(totalTarget: int, totalActual: int, achievedPct: int, remainingPct: int)

  function Figures(r: Row): (f: RowFigures)
    ensures f.remainingPct >= 0
    ensures f.remainingPct == 0 || f.achievedPct + f.remainingPct == 100
    ensures f.totalTarget <= 0 ==> f.achievedPct == 0 && f.remainingPct == 100
  {
    RowFigures(TotalTarget(r), TotalActual(r), AchievedPct(r), RemainingPct(r))
  }

  /** `rows.reduce((s, r) => s + targetQ1 + ... + targetQ4, 0)`: the records table's "Total Target Q". */
  function SumTargets(rows: seq<Row>): int {
    if |rows| == 0 then 0 else SumTargets(rows[..|rows| - 1]) + TotalTarget(rows[|rows| - 1])
  }

  /** The records table's "Total Actual Q". */
  function SumActuals(rows: seq<Row>): int {
    if |rows| == 0 then 0 else SumActuals(rows[..|rows| - 1]) + TotalActual(rows[|rows| - 1])
  }

  /** `rows.reduce((s, r) => s + (r.totalEstCost || 0), 0)`: the dashboard's cost subtotal. */
  function CostSubtotal(rows: seq<Row>): int {
    if |rows| == 0 then 0 else CostSubtotal(rows[..|rows| - 1]) + rows[|rows| - 1].totalEstCost
  }

  /** Multiplying by a positive factor preserves and reflects order. */
  lemma MulMonotone(q: int, x: int, y: int)
    requires q > 0
    ensures x <= y <==> q * x <= q * y
  {
    if x <= y {
      assert q * y - q * x == q * (y - x);
    } else {
      assert q * x - q * y == q * (x - y);
    }
  }

  /** When nothing exceeds the target, the achieved share lies in 0..100 and the two shares make up 100. */
  lemma PercentBounds(r: Row)
    requires TotalTarget(r) > 0 && 0 <= TotalActual(r) <= TotalTarget(r)
    ensures 0 <= AchievedPct(r) <= 100
    ensures AchievedPct(r) + RemainingPct(r) == 100
  {
    var t, a, p := TotalTarget(r), TotalActual(r), AchievedPct(r);
    assert 2 * t * p - t <= 200 * a < 2 * t * p + t;
    MulMonotone(2 * t, p, -1);
    MulMonotone(2 * t, 101, p);
  }

  /** Halfway cases round up, as `Math.round` does: 1 out of 8 is 12.5%, shown as 13; 1 out of 200 (0.5%) as 1. */
  lemma RoundsHalfUp()
    ensures RoundedPercent(1, 8) == 13
    ensures RoundedPercent(1, 200) == 1
    ensures RoundedPercent(1, 3) == 33 && RoundedPercent(2, 3) == 67
  {
  }

  /** Exceeding the target gives at least 100% achieved and nothing remaining. */
  lemma OverAchievement(r: Row)
    requires TotalTarget(r) > 0 && TotalActual(r) > TotalTarget(r)
    ensures AchievedPct(r) >= 100 && RemainingPct(r) == 0
  {
    var t, a, p := TotalTarget(r), TotalActual(r), AchievedPct(r);
    assert 200 * a < 2 * t * p + t;
    MulMonotone(2 * t, p, 99);
  }

  /** More actual progress never shows a lower achieved percentage. */
  lemma AchievedMonotone(a1: int, a2: int, t: int)
    requires t > 0 && a1 <= a2
    ensures RoundedPercent(a1, t) <= RoundedPercent(a2, t)
  {
    var p1, p2 := RoundedPercent(a1, t), RoundedPercent(a2, t);
    MulMonotone(2 * t, p2 + 1, p1);
  }

  /** Targets 10,10,10,10 and actuals 5,5,5,10: totals 40 and 25, 63% achieved, 37% remaining. */
  lemma ExampleRow(r: Row)
    requires r.targetQ1 == 10 && r.targetQ2 == 10 && r.targetQ3 == 10 && r.targetQ4 == 10
    requires r.actualQ1 == 5 && r.actualQ2 == 5 && r.actualQ3 == 5 && r.actualQ4 == 10
    ensures Figures(r) == RowFigures(40, 25, 63, 37)
  {
  }

  /** A zero target total, whatever the actuals: nothing achieved, everything remaining. */
  lemma ZeroTarget(r: Row)
    requires TotalTarget(r) == 0
    ensures AchievedPct(r) == 0 && RemainingPct(r) == 100
  {
  }

  /** The plan totals are additive: splitting the row list splits every total. */
  lemma {:induction false} SumsConcat(a: seq<Row>, b: seq<Row>)
    ensures SumTargets(a + b) == SumTargets(a) + SumTargets(b)
    ensures SumActuals(a + b) == SumActuals(a) + SumActuals(b)
    ensures CostSubtotal(a + b) == CostSubtotal(a) + CostSubtotal(b)
  {
    if |b| > 0 {
      var b' := b[..|b| - 1];
      assert (a + b)[..|a + b| - 1] == a + b';
      assert (a + b)[|a + b| - 1] == b[|b| - 1];
      SumsConcat(a, b');
    } else {
      assert a + b == a;
    }
  }

  /** A plan's totals are the sum, row by row, of the per-row totals. */
  lemma {:induction false} SumsOfSingleRow(r: Row)
    ensures SumTargets([r]) == TotalTarget(r) && SumActuals([r]) == TotalActual(r)
    ensures CostSubtotal([r]) == r.totalEstCost
  {
    assert [r][..0] == [];
  }

  /** Two rows costing 1000 and 2500 give a subtotal of 3500. */
  lemma ExampleSubtotal(r1: Row, r2: Row)
    requires r1.totalEstCost == 1000 && r2.totalEstCost == 2500
    ensures CostSubtotal([r1, r2]) == 3500
  {
    SumsOfSingleRow(r1);
    SumsOfSingleRow(r2);
    SumsConcat([r1], [r2]);
    assert [r1] + [r2] == [r1, r2];
  }

  /** With every cost non-negative the subtotal is non-negative and at least each row's cost. */
  lemma {:induction false} SubtotalCoversEachRow(rows: seq<Row>, i: nat)
    requires forall k :: 0 <= k < |rows| ==> rows[k].totalEstCost >= 0
    requires i < |rows|
    ensures CostSubtotal(rows) >= rows[i].totalEstCost >= 0
  {
    if i < |rows| - 1 {
      SubtotalCoversEachRow(rows[..|rows| - 1], i);
    } else {
      SubtotalNonNegative(rows[..|rows| - 1]);
    }
  }

  lemma {:induction false} SubtotalNonNegative(rows: seq<Row>)
    requires forall k :: 0 <= k < |rows| ==> rows[k].totalEstCost >= 0
    ensures CostSubtotal(rows) >= 0
  {
    if |rows| > 0 {
      SubtotalNonNegative(rows[..|rows| - 1]);
    }
  }

  /** One line of the records table: the plan's number, its row count, first PAP and quarter totals. */
  datatype RecordLine = RecordLine(id: string, idNo: Option<int>, rowCount: nat, firstPap: Option<string>,
                                   totalTargetQ: int, totalActualQ: int)

  function RecordOf(p: Plan): RecordLine {
    RecordLine(p.id, p.idNo, |p.rows|, if |p.rows| > 0 then Some(p.rows[0].pap) else None,
               SumTargets(p.rows), SumActuals(p.rows))
  }

  /** `[...plans].reverse()`: the records table lists the most recently appended plan first. */
  function RecordLines(plans: seq<Plan>): (lines: seq<RecordLine>)
    ensures |lines| == |plans|
    ensures forall i :: 0 <= i < |plans| ==> lines[i] == RecordOf(plans[|plans| - 1 - i])
  {
    if |plans| == 0 then [] else [RecordOf(plans[|plans| - 1])] + RecordLines(plans[..|plans| - 1])
  }

  /**
   * An overview card: the figures of the plan's first row and the row count behind its
   * "View All" button. `loadDashboard` also computes a cost subtotal for each card but never
   * shows it, so the card does not carry one.
   */
  datatype OverviewCard = OverviewCard(id: string, idNo: Option<int>, first: RowFigures, rowCount: nat)

  function CardOf(p: Plan): OverviewCard
    requires |p.rows| > 0
  {
    OverviewCard(p.id, p.idNo, Figures(p.rows[0]), |p.rows|)
  }

  /** The dashboard overview: one card per plan, in stored order, skipping plans without rows. */
  function OverviewCards(plans: seq<Plan>): (cards: seq<OverviewCard>)
    ensures |cards| <= |plans|
    ensures forall c :: c in cards <==> exists p :: p in plans && |p.rows| > 0 && c == CardOf(p)
  {
    if |plans| == 0 then []
    else
      var rest := OverviewCards(plans[1..]);
      assert forall p :: p in plans <==> p == plans[0] || p in plans[1..];
      if |plans[0].rows| > 0 then [CardOf(plans[0])] + rest else rest
  }

  /** A single plan gives one card when it has rows and none otherwise. */
  lemma OverviewCardsSingle(p: Plan)
    ensures OverviewCards([p]) == if |p.rows| > 0 then [CardOf(p)] else []
  {
  }

  /** Cards follow the stored order: the overview of two lists laid end to end is the two overviews laid end to end. */
  lemma {:induction false} OverviewCardsConcat(a: seq<Plan>, b: seq<Plan>)
    ensures OverviewCards(a + b) == OverviewCards(a) + OverviewCards(b)
  {
    if |a| == 0 {
      assert a + b == b;
    } else {
      assert (a + b)[0] == a[0];
      assert (a + b)[1..] == a[1..] + b;
      OverviewCardsConcat(a[1..], b);
    }
  }

  /** The single-plan dashboard: figures for every row of the first plan with that id, and the subtotal. */
  datatype PlanDetail = PlanDetail(rows: seq<RowFigures>, subtotal: int)

  function DetailOf(p: Plan): (d: PlanDetail)
    ensures |d.rows| == |p.rows|
    ensures forall i :: 0 <= i < |p.rows| ==> d.rows[i] == Figures(p.rows[i])
  {
    PlanDetail(seq(|p.rows|, i requires 0 <= i < |p.rows| => Figures(p.rows[i])), CostSubtotal(p.rows))
  }

  /** `loadDashboardSingle`: "not found" both for an unknown id and for a plan without rows. */
  function PlanDetails(plans: seq<Plan>, id: string): (r: Option<PlanDetail>)
    ensures r.Some? <==> FindPlan(plans, id).Some? && |plans[FindPlan(plans, id).value].rows| > 0
    ensures r.Some? ==> r.value == DetailOf(plans[FindPlan(plans, id).value])
  {
    match FindPlan(plans, id)
    case None => None
    case Some(i) => if |plans[i].rows| > 0 then Some(DetailOf(plans[i])) else None
  }
}
