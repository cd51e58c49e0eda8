/**
 * The browser's plan list, kept in local storage: saving a new plan from the
 * form, updating the plan being edited, and deleting a plan.
 */
module LocalStore {
  import opened Wrappers
  import opened PlanModel
  import opened IdAllocator
  import opened PlanForm

  /**
   * The `data.rows.forEach` pass of `savePlan` and `updatePlan`: each row gets
   * its `proofFile` and loses its file input and stored-name hint; no other
   * field changes and the order is kept.
   */
  method FinalizeRows(rows: seq<CollectedRow>) returns (out: seq<Row>)
    ensures |out| == |rows|
    ensures forall i :: 0 <= i < |rows| ==> out[i] == rows[i].fields.(proofFile := out[i].proofFile)
    ensures forall i :: 0 <= i < |rows| ==> out[i] == FinalizeRow(rows[i])
  {
    out := [];
    var i := 0;
    while i < |rows|
      invariant 0 <= i <= |rows|
      invariant |out| == i
      invariant forall k :: 0 <= k < i ==> out[k] == FinalizeRow(rows[k])
    {
      out := out + [FinalizeRow(rows[i])];
      i := i + 1;
    }
  }

  /** The rows a collected form is stored with. */
  function StoredRows(d: FormData): (rs: seq<Row>)
    ensures |rs| == |d.rows|
    ensures forall i :: 0 <= i < |d.rows| ==> rs[i] == FinalizeRow(d.rows[i])
  {
    seq(|d.rows|, i requires 0 <= i < |d.rows| => FinalizeRow(d.rows[i]))
  }

  /**
   * The plan `savePlan` appends: the form's content under a new id, numbered
   * one past the highest stored number, created and updated at `now`.
   */
  function NewLocalPlan(plans: seq<Plan>, d: FormData, id: string, now: Timestamp): (p: Plan)
    ensures p.id == id && p.createdAt == now && p.updatedAt == now
    ensures p.developmentArea == d.developmentArea && p.outcome == d.outcome && p.strategy == d.strategy
    ensures p.rows == StoredRows(d)
    ensures p.idNo.Some? && forall i :: 0 <= i < |plans| ==> plans[i].idNo != p.idNo
    ensures |plans| == 0 ==> p.idNo == Some(1)
  {
    NextLocalIdNoFresh(plans);
    Plan(id, Some(NextLocalIdNo(plans)), d.developmentArea, d.outcome, d.strategy, StoredRows(d), now, now)
  }

  /** A plan saved from the form has only trimmed texts. */
  lemma SavedPlanIsTrimmed(plans: seq<Plan>, f: FormInput, id: string, now: Timestamp)
    requires CollectedForm(f).Ok?
    ensures TrimmedPlan(NewLocalPlan(plans, CollectedForm(f).value, id, now))
  {
    CollectedIsTrimmed(f);
  }

  /**
   * Deleting the plan just saved gives its number back: the next plan saved
   * gets the same number again.
   */
  lemma DeleteNewestReissuesNumber(plans: seq<Plan>, d: FormData, id: string, now: Timestamp)
    requires FindPlan(plans, id).None?
    ensures var p := NewLocalPlan(plans, d, id, now);
            Some(NextLocalIdNo(RemoveId(plans + [p], id))) == p.idNo
  {
    RemoveAppended(plans, NewLocalPlan(plans, d, id, now));
  }

  /** The plan list in the browser's local storage (`aop_plans`). */
  class LocalPlanStore {
    var plans: seq<Plan>

    /** `getLocalPlans()`: the stored list, or the empty list when nothing is stored. */
    constructor(stored: Option<seq<Plan>>)
      ensures plans == stored.GetOr([])
    {
      plans := stored.GetOr([]);
    }

    /** `savePlan()`: collect the form and append it as a new plan; a refused form changes nothing. */
    method SavePlan(form: FormInput, newId: string, now: Timestamp) returns (r: Result<Plan, FormError>)
      modifies this
      ensures r.Err? ==> CollectedForm(form) == Err(r.error) && plans == old(plans)
      ensures r.Ok? <==> CollectedForm(form).Ok?
      ensures r.Ok? ==> r.value == NewLocalPlan(old(plans), CollectedForm(form).value, newId, now)
                        && plans == old(plans) + [r.value]
    {
      var data := CollectFormData(form);
      if data.Err? {
        return Err(data.error);
      }
      var d := data.value;
      var rows := FinalizeRows(d.rows);
      assert rows == StoredRows(d);
      var p := Plan(newId, Some(NextLocalIdNo(plans)), d.developmentArea, d.outcome, d.strategy, rows, now, now);
      plans := plans + [p];
      r := Ok(p);
    }

    /**
     * `updatePlan()`: collect the form and put it in place of the first plan with
     * id `currentPlanId`, keeping that plan's id, number and creation time. The
     * result names the position replaced, or `None` when no plan has that id
     * (and nothing changes).
     */
    method UpdatePlan(form: FormInput, currentPlanId: Option<string>, now: Timestamp)
      returns (r: Result<Option<nat>, FormError>)
      modifies this
      ensures r.Err? ==> CollectedForm(form) == Err(r.error) && plans == old(plans)
      ensures r.Ok? <==> CollectedForm(form).Ok?
      ensures r.Ok? ==> r.value == (if currentPlanId.None? then None else FindPlan(old(plans), currentPlanId.value))
      ensures r.Ok? && r.value.None? ==> plans == old(plans)
      ensures r.Ok? && r.value.Some? ==>
                var d := CollectedForm(form).value;
                var i := r.value.value;
                i < |old(plans)|
                && plans == old(plans)[i := Revise(old(plans)[i], d.developmentArea, d.outcome, d.strategy,
                                                   StoredRows(d), now)]
    {
      var data := CollectFormData(form);
      if data.Err? {
        return Err(data.error);
      }
      var d := data.value;
      var rows := FinalizeRows(d.rows);
      assert rows == StoredRows(d);
      var index := if currentPlanId.None? then None else FindPlan(plans, currentPlanId.value);
      if index.Some? {
        var k := index.value;
        plans := plans[k := Revise(plans[k], d.developmentArea, d.outcome, d.strategy, rows, now)];
      }
      r := Ok(index);
    }

    /** `deletePlan(id)`: once confirmed, every plan with that id leaves the list. */
    method DeletePlan(id: string, confirmed: bool)
      modifies this
      ensures plans == if confirmed then RemoveId(old(plans), id) else old(plans)
    {
      if confirmed {
        plans := RemoveId(plans, id);
      }
    }
  }
}
