/**
 * The server's document schema: which row and plan fields are required, the
 * defaults filled in for absent row fields, and the validation a plan document
 * passes before it is written.
 */
module PlanSchema {
  import opened Wrappers
  import opened PlanModel

  /**
   * A row as the client submits it (already parsed from the request's JSON):
   * any field may be absent. `existingProof` is the client's hint of the file it
   * believes is stored; it is not a schema field and is dropped when the row is cast.
   */
  datatype RowPayload = RowPayload(
    rowNo: Option<int>,
    pap: Option<string>,
    perfIndicator: Option<string>,
    targetQ1: Option<int>, targetQ2: Option<int>, targetQ3: Option<int>, targetQ4: Option<int>,
    actualQ1: Option<int>, actualQ2: Option<int>, actualQ3: Option<int>, actualQ4: Option<int>,
    office: Option<string>,
    totalEstCost: Option<int>,
    fundSource: Option<string>,
    risk: Option<string>,
    mitigatingActivities: Option<string>,
    proofFile: Option<string>,
    existingProof: Option<string>)

  /** The row the schema's defaults give for a row number and nothing else: empty texts, zero figures. */
  function DefaultRow(rowNo: int): Row {
    Row(rowNo, "", "", 0, 0, 0, 0, 0, 0, 0, 0, "", 0, "", "", "", "")
  }

  /** A payload carrying only a row number. */
  function BarePayload(rowNo: Option<int>): RowPayload {
    RowPayload(rowNo, None, None, None, None, None, None, None, None, None, None,
               None, None, None, None, None, None, None)
  }

  /** Casting a submitted row to the schema: `rowNo` is required, every other absent field takes its default. */
  function CastRow(p: RowPayload): Option<Row> {
    if p.rowNo.None? then None
    else Some(Row(p.rowNo.value, p.pap.GetOr(""), p.perfIndicator.GetOr(""),
                  p.targetQ1.GetOr(0), p.targetQ2.GetOr(0), p.targetQ3.GetOr(0), p.targetQ4.GetOr(0),
                  p.actualQ1.GetOr(0), p.actualQ2.GetOr(0), p.actualQ3.GetOr(0), p.actualQ4.GetOr(0),
                  p.office.GetOr(""), p.totalEstCost.GetOr(0), p.fundSource.GetOr(""),
                  p.risk.GetOr(""), p.mitigatingActivities.GetOr(""), p.proofFile.GetOr("")))
  }

  /** A stored row written back out as a payload, every field present. */
  function ToPayload(r: Row): RowPayload {
    RowPayload(Some(r.rowNo), Some(r.pap), Some(r.perfIndicator),
               Some(r.targetQ1), Some(r.targetQ2), Some(r.targetQ3), Some(r.targetQ4),
               Some(r.actualQ1), Some(r.actualQ2), Some(r.actualQ3), Some(r.actualQ4),
               Some(r.office), Some(r.totalEstCost), Some(r.fundSource), Some(r.risk),
               Some(r.mitigatingActivities), Some(r.proofFile), None)
  }

  /** The sub-documents of a plan are cast one by one; the list is rejected if any row lacks its number. */
  function CastRows(ps: seq<RowPayload>): (r: Option<seq<Row>>)
    ensures r.Some? <==> forall i :: 0 <= i < |ps| ==> ps[i].rowNo.Some?
    ensures r.Some? ==> |r.value| == |ps|
    ensures r.Some? ==> forall i :: 0 <= i < |ps| ==> CastRow(ps[i]) == Some(r.value[i])
  {
    if |ps| == 0 then Some([])
    else match (CastRow(ps[0]), CastRows(ps[1..]))
      case (Some(r0), Some(rest)) => Some([r0] + rest)
      case _ => None
  }

  /** A required String path: absent and empty values fail, anything else (even blanks) passes. */
  predicate Required(v: Option<string>) {
    v.Some? && |v.value| > 0
  }

  /** The validated content of a plan document. */
  datatype PlanFields = PlanFields(developmentArea: string, outcome: string, strategy: string, rows: seq<Row>)

  /** Validation before save: the three header paths are required and every row must cast. */
  function ValidatePlan(developmentArea: Option<string>, outcome: Option<string>, strategy: Option<string>,
                        rows: seq<RowPayload>): (r: Option<PlanFields>)
    ensures r.Some? <==> Required(developmentArea) && Required(outcome) && Required(strategy)
                         && forall i :: 0 <= i < |rows| ==> rows[i].rowNo.Some?
    ensures r.Some? ==> r.value.developmentArea == developmentArea.value && r.value.outcome == outcome.value
                        && r.value.strategy == strategy.value && CastRows(rows) == Some(r.value.rows)
  {
    if Required(developmentArea) && Required(outcome) && Required(strategy) then
      match CastRows(rows)
      case Some(rs) => Some(PlanFields(developmentArea.value, outcome.value, strategy.value, rs))
      case None => None
    else None
  }

  /** Schema defaults: a row given only its number is all empty texts and zero figures. */
  lemma CastBareRow(n: Option<int>)
    ensures CastRow(BarePayload(n)) == if n.Some? then Some(DefaultRow(n.value)) else None
  {
  }

  /** Writing a stored row out and casting it back gives the same row. */
  lemma CastToPayload(r: Row)
    ensures CastRow(ToPayload(r)) == Some(r)
  {
  }

  /** The schema does not require a plan to have any row: an empty row list validates. */
  lemma EmptyRowListValidates(developmentArea: string, outcome: string, strategy: string)
    requires |developmentArea| > 0 && |outcome| > 0 && |strategy| > 0
    ensures ValidatePlan(Some(developmentArea), Some(outcome), Some(strategy), []) ==
            Some(PlanFields(developmentArea, outcome, strategy, []))
  {
  }
}
