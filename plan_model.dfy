/**
 * The Plan/Row aggregate shared by the browser's local plan list and the server's
 * plan collection: a plan header, an ordered list of rows, a human-facing `idNo`
 * and two timestamps.
 */
module PlanModel {
  import opened Wrappers
  import Seqs

  /** Milliseconds since the epoch; the ISO strings of the source compare in the same order. */
  type Timestamp = int

  /**
   * One line item of a plan. Quarter figures and the estimated cost are whole
   * numbers; a figure that was never entered is 0.
   */
  datatype Row = Row(
    rowNo: int,
    pap: string,
    perfIndicator: string,
    targetQ1: int, targetQ2: int, targetQ3: int, targetQ4: int,
    actualQ1: int, actualQ2: int, actualQ3: int, actualQ4: int,
    office: string,
    totalEstCost: int,
    fundSource: string,
    risk: string,
    mitigatingActivities: string,
    proofFile: string)

  /**
   * A stored plan. `id` is the opaque storage identifier; `idNo` is absent on a
   * plan that was stored without one (the client reads such a plan's number as 0).
   */
  datatype Plan = Plan(
    id: string,
    idNo: Option<int>,
    developmentArea: string,
    outcome: string,
    strategy: string,
    rows: seq<Row>,
    createdAt: Timestamp,
    updatedAt: Timestamp)

  predicate HasId(p: Plan, id: string) {
    p.id == id
  }

  /** Position of the first plan whose `_id` is `id` (`plans.findIndex(p => p._id === id)`). */
  function FindPlan(plans: seq<Plan>, id: string): (r: Option<nat>)
    ensures r.Some? ==> r.value < |plans| && plans[r.value].id == id
    ensures r.Some? ==> forall j :: 0 <= j < r.value ==> plans[j].id != id
    ensures r.None? <==> forall j :: 0 <= j < |plans| ==> plans[j].id != id
  {
    Seqs.FirstIndex(plans, (p: Plan) => HasId(p, id))
  }

  /**
   * A plan after an edit: the new header and rows and a fresh `updatedAt`, with
   * `id`, `idNo` and `createdAt` carried over.
   */
  function Revise(p: Plan, developmentArea: string, outcome: string, strategy: string,
                  rows: seq<Row>, now: Timestamp): (r: Plan)
    ensures r.id == p.id && r.idNo == p.idNo && r.createdAt == p.createdAt
    ensures r.developmentArea == developmentArea && r.outcome == outcome && r.strategy == strategy
    ensures r.rows == rows && r.updatedAt == now
  {
    p.(developmentArea := developmentArea, outcome := outcome, strategy := strategy,
       rows := rows, updatedAt := now)
  }

  /** `plans.filter(p => p._id !== id)`. */
  function RemoveId(plans: seq<Plan>, id: string): (r: seq<Plan>)
    ensures |r| <= |plans|
  {
    if |plans| == 0 then []
    else if plans[0].id == id then RemoveId(plans[1..], id)
    else [plans[0]] + RemoveId(plans[1..], id)
  }

  /** Exactly the plans with another id survive the filter. */
  lemma {:induction false} RemoveIdMembers(plans: seq<Plan>, id: string)
    ensures forall p :: p in RemoveId(plans, id) <==> p in plans && p.id != id
  {
    if |plans| > 0 {
      RemoveIdMembers(plans[1..], id);
      assert plans == [plans[0]] + plans[1..];
    }
  }

  /** Filtering keeps the remaining plans in their original order: it distributes over concatenation. */
  lemma {:induction false} RemoveIdConcat(a: seq<Plan>, b: seq<Plan>, id: string)
    ensures RemoveId(a + b, id) == RemoveId(a, id) + RemoveId(b, id)
  {
    if |a| == 0 {
      assert a + b == b;
    } else {
      assert (a + b)[0] == a[0];
      assert (a + b)[1..] == a[1..] + b;
      RemoveIdConcat(a[1..], b, id);
    }
  }

  /** Deleting an id that no plan carries leaves the list exactly as it was. */
  lemma {:induction false} RemoveIdAbsent(plans: seq<Plan>, id: string)
    requires forall j :: 0 <= j < |plans| ==> plans[j].id != id
    ensures RemoveId(plans, id) == plans
  {
    if |plans| > 0 {
      RemoveIdAbsent(plans[1..], id);
      assert [plans[0]] + plans[1..] == plans;
    }
  }

  predicate DistinctIds(plans: seq<Plan>) {
    forall i, j :: 0 <= i < j < |plans| ==> plans[i].id != plans[j].id
  }

  /** Filtering `id` out of `front + [p] + back`, where only `p` carries it, leaves `front + back`. */
  lemma RemoveIdAround(front: seq<Plan>, p: Plan, back: seq<Plan>, id: string)
    requires p.id == id
    requires forall j :: 0 <= j < |front| ==> front[j].id != id
    requires forall j :: 0 <= j < |back| ==> back[j].id != id
    ensures RemoveId(front + [p] + back, id) == front + back
  {
    RemoveIdAbsent(front, id);
    RemoveIdAbsent(back, id);
    assert RemoveId([p], id) == [] by {
      assert [p][1..] == [];
    }
    RemoveIdConcat(front, [p], id);
    RemoveIdConcat(front + [p], back, id);
  }

  /** When ids are distinct, removing the one plan found for `id` is the same as filtering on `id`. */
  lemma RemoveFoundPlan(plans: seq<Plan>, id: string, i: nat)
    requires DistinctIds(plans)
    requires FindPlan(plans, id) == Some(i)
    ensures plans[..i] + plans[i + 1..] == RemoveId(plans, id)
  {
    var front, back := plans[..i], plans[i + 1..];
    assert plans == front + [plans[i]] + back;
    forall j | 0 <= j < |front| ensures front[j].id != id {
      assert front[j] == plans[j];
    }
    forall j | 0 <= j < |back| ensures back[j].id != id {
      assert back[j] == plans[i + 1 + j];
    }
    RemoveIdAround(front, plans[i], back, id);
  }

  /** Filtering out the id of a plan just appended, which no earlier plan carries, gives back the earlier list. */
  lemma RemoveAppended(plans: seq<Plan>, p: Plan)
    requires forall j :: 0 <= j < |plans| ==> plans[j].id != p.id
    ensures RemoveId(plans + [p], p.id) == plans
  {
    RemoveIdAround(plans, p, [], p.id);
    assert plans + [p] + [] == plans + [p];
  }
}
