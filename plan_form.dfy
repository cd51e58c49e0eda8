/**
 * The browser's plan form: the blank row, the row blocks the editor numbers as
 * rows are added and removed, and how the form is read back into plan data.
 */
module PlanForm {
  import opened Wrappers
  import opened Text
  import opened HtmlEscape
  import opened PlanModel
  import opened PlanSchema

  /**
   * One row block as it is read: each text and figure input may be missing
   * (`None`); a figure that is missing, empty or not a number reads as `None`.
   * `existingFile` is the hidden input with the stored file name, `chosenFile`
   * the name of a file picked in the block's file input.
   */
  datatype BlockInput = BlockInput(
    rowNo: int,
    pap: Option<string>,
    perfIndicator: Option<string>,
    targetQ1: Option<int>, targetQ2: Option<int>, targetQ3: Option<int>, targetQ4: Option<int>,
    actualQ1: Option<int>, actualQ2: Option<int>, actualQ3: Option<int>, actualQ4: Option<int>,
    office: Option<string>,
    totalEstCost: Option<int>,
    fundSource: Option<string>,
    risk: Option<string>,
    mitigatingActivities: Option<string>,
    existingFile: Option<string>,
    chosenFile: Option<string>)

  /** The header inputs and the row blocks, in document order. */
  datatype FormInput = FormInput(
    developmentArea: Option<string>,
    outcome: Option<string>,
    strategy: Option<string>,
    blocks: seq<BlockInput>)

  /**
   * A row as collected: the row's fields (with `proofFile` still ""), the
   * stored file name and the chosen file, which saving turns into `proofFile`.
   */
  datatype CollectedRow = CollectedRow(fields: Row, existingProof: string, chosenFile: Option<string>)

  datatype FormData = FormData(developmentArea: string, outcome: string, strategy: string, rows: seq<CollectedRow>)

  /** The two reasons the form is refused, each with its own message. */
  datatype FormError = MissingHeader | NoRows

  /**
   * `newRowData()`: the blank row a new block is rendered from. The source holds `''` for
   * the nine figures and the model holds 0: the form renders either as an empty input
   * (`${x||''}`) and reads either back as 0 (`parseFloat(...)||0`), which is all that
   * `BlankBlockIsDefaultRow` relies on.
   */
  function NewRowData(): (r: Row)
    ensures r == DefaultRow(1)
  {
    Row(1, "", "", 0, 0, 0, 0, 0, 0, 0, 0, "", 0, "", "", "", "")
  }

  /** `el?.value.trim() || ''`. */
  function TextValue(v: Option<string>): string {
    if v.None? then "" else Trim(v.value)
  }

  /** `parseFloat(el?.value) || 0`. */
  function FigureValue(v: Option<int>): int {
    v.GetOr(0)
  }

  predicate HeaderFilled(v: Option<string>) {
    v.Some? && Trim(v.value) != ""
  }

  predicate HeadersFilled(f: FormInput) {
    HeaderFilled(f.developmentArea) && HeaderFilled(f.outcome) && HeaderFilled(f.strategy)
  }

  /** The object `collectFormData` pushes for one block. */
  function CollectRow(b: BlockInput): CollectedRow {
    CollectedRow(
      Row(b.rowNo, TextValue(b.pap), TextValue(b.perfIndicator),
          FigureValue(b.targetQ1), FigureValue(b.targetQ2), FigureValue(b.targetQ3), FigureValue(b.targetQ4),
          FigureValue(b.actualQ1), FigureValue(b.actualQ2), FigureValue(b.actualQ3), FigureValue(b.actualQ4),
          TextValue(b.office), FigureValue(b.totalEstCost), TextValue(b.fundSource),
          TextValue(b.risk), TextValue(b.mitigatingActivities), ""),
      b.existingFile.GetOr(""),
      b.chosenFile)
  }

  /**
   * What `collectFormData` returns: refused when a header is missing or blank
   * after trimming, else refused when there is no row block, else the trimmed
   * headers and one collected row per block, in order.
   */
  function CollectedForm(f: FormInput): (r: Result<FormData, FormError>)
    ensures r == Err(MissingHeader) <==> !HeadersFilled(f)
    ensures r == Err(NoRows) <==> HeadersFilled(f) && |f.blocks| == 0
    ensures r.Ok? ==> r.value.developmentArea == Trim(f.developmentArea.value)
                      && r.value.outcome == Trim(f.outcome.value) && r.value.strategy == Trim(f.strategy.value)
                      && |r.value.rows| == |f.blocks|
                      && forall i :: 0 <= i < |f.blocks| ==> r.value.rows[i] == CollectRow(f.blocks[i])
  {
    if !HeadersFilled(f) then Err(MissingHeader)
    else if |f.blocks| == 0 then Err(NoRows)
    else Ok(FormData(Trim(f.developmentArea.value), Trim(f.outcome.value), Trim(f.strategy.value),
                     seq(|f.blocks|, i requires 0 <= i < |f.blocks| => CollectRow(f.blocks[i]))))
  }

  /** `collectFormData()`, reading the blocks one by one. */
  method CollectFormData(f: FormInput) returns (r: Result<FormData, FormError>)
    ensures r == CollectedForm(f)
  {
    if !HeadersFilled(f) {
      return Err(MissingHeader);
    }
    var rows: seq<CollectedRow> := [];
    var i := 0;
    while i < |f.blocks|
      invariant 0 <= i <= |f.blocks|
      invariant |rows| == i
      invariant forall k :: 0 <= k < i ==> rows[k] == CollectRow(f.blocks[k])
    {
      rows := rows + [CollectRow(f.blocks[i])];
      i := i + 1;
    }
    if |rows| == 0 {
      return Err(NoRows);
    }
    assert rows == seq(|f.blocks|, i requires 0 <= i < |f.blocks| => CollectRow(f.blocks[i]));
    r := Ok(FormData(Trim(f.developmentArea.value), Trim(f.outcome.value), Trim(f.strategy.value), rows));
  }

  /** The row saving stores: the chosen file's name if one was picked, else the stored name. */
  function FinalizeRow(c: CollectedRow): Row {
    c.fields.(proofFile := if c.chosenFile.Some? then c.chosenFile.value else c.existingProof)
  }

  /** A header the form accepts is never one the server's required-path check refuses. */
  lemma AcceptedHeaderIsRequired(v: Option<string>)
    requires HeaderFilled(v)
    ensures Required(Some(Trim(v.value)))
  {
  }

  /** A header of only whitespace is refused by the form although the server would store it. */
  lemma BlankHeaderRefusedOnlyByForm(s: string)
    requires |s| > 0 && AllWhitespace(s)
    ensures !HeaderFilled(Some(s)) && Required(Some(s))
  {
    TrimEmptyIff(s);
  }

  /** Every text field of the row has no leading or trailing whitespace. */
  predicate TrimmedRow(r: Row) {
    IsTrimmed(r.pap) && IsTrimmed(r.perfIndicator) && IsTrimmed(r.office) && IsTrimmed(r.fundSource)
    && IsTrimmed(r.risk) && IsTrimmed(r.mitigatingActivities)
  }

  predicate TrimmedPlan(p: Plan) {
    IsTrimmed(p.developmentArea) && IsTrimmed(p.outcome) && IsTrimmed(p.strategy)
    && forall i :: 0 <= i < |p.rows| ==> TrimmedRow(p.rows[i])
  }

  /** Every text field of a collected row is trimmed. */
  lemma CollectedRowTrimmed(b: BlockInput)
    ensures TrimmedRow(FinalizeRow(CollectRow(b)))
  {
  }

  /** What the form collects is trimmed: texts are stored without surrounding whitespace. */
  lemma CollectedIsTrimmed(f: FormInput)
    requires CollectedForm(f).Ok?
    ensures var d := CollectedForm(f).value;
            IsTrimmed(d.developmentArea) && IsTrimmed(d.outcome) && IsTrimmed(d.strategy)
            && forall i :: 0 <= i < |d.rows| ==> TrimmedRow(FinalizeRow(d.rows[i]))
  {
    var d := CollectedForm(f).value;
    forall i | 0 <= i < |d.rows| ensures TrimmedRow(FinalizeRow(d.rows[i])) {
      CollectedRowTrimmed(f.blocks[i]);
    }
  }

  /**
   * A text placed in the form through `esc` (an attribute value or a textarea),
   * as the browser reads it back: the entities are decoded. The HTML parser's
   * other changes are not modelled: CR/CRLF becoming LF, and the line breaks a
   * single-line `<input type=text>` drops. So the read-back lemmas below hold for
   * texts without CR, and without LF in the single-line fields; every text the
   * form itself saved is of that kind, because a textarea's value has only LF
   * and a text input's value has no line break.
   */
  function Shown(s: string): Option<string> {
    Some(Unescape(Esc(Some(s))))
  }

  /** A figure placed in a number input as `value="${x||''}"`: a zero is left blank. */
  function ShownFigure(x: int): Option<int> {
    if x == 0 then None else Some(x)
  }

  /** The block `buildRowHtml(n, total, r)` renders for row `r`, as it reads back with nothing edited. */
  function RenderedBlock(n: int, r: Row): BlockInput {
    BlockInput(n, Shown(r.pap), Shown(r.perfIndicator),
               ShownFigure(r.targetQ1), ShownFigure(r.targetQ2), ShownFigure(r.targetQ3), ShownFigure(r.targetQ4),
               ShownFigure(r.actualQ1), ShownFigure(r.actualQ2), ShownFigure(r.actualQ3), ShownFigure(r.actualQ4),
               Shown(r.office), ShownFigure(r.totalEstCost), Shown(r.fundSource), Shown(r.risk),
               Shown(r.mitigatingActivities), Shown(r.proofFile), None)
  }

  /** The edit form `initCreateForm(plan, true)` renders: one block per stored row, numbered from 1. */
  function LoadedForm(p: Plan): (f: FormInput)
    ensures f.developmentArea == Shown(p.developmentArea) && f.outcome == Shown(p.outcome)
            && f.strategy == Shown(p.strategy)
    ensures |f.blocks| == |p.rows|
    ensures forall i :: 0 <= i < |p.rows| ==> f.blocks[i] == RenderedBlock(i + 1, p.rows[i])
  {
    FormInput(Shown(p.developmentArea), Shown(p.outcome), Shown(p.strategy),
              seq(|p.rows|, i requires 0 <= i < |p.rows| => RenderedBlock(i + 1, p.rows[i])))
  }

  /** A blank block reads back as the schema's default row for its number. */
  lemma BlankBlockIsDefaultRow(n: int)
    ensures FinalizeRow(CollectRow(RenderedBlock(n, NewRowData()))) == DefaultRow(n)
  {
    EscRoundTrip("");
  }

  lemma ShownTrimmed(s: string)
    requires IsTrimmed(s)
    ensures TextValue(Shown(s)) == s
  {
    EscRoundTrip(s);
    TrimOfTrimmed(s);
  }

  /** A trimmed row rendered into block `n` and read back unchanged is the same row numbered `n`. */
  lemma UnchangedBlock(n: int, r: Row)
    requires TrimmedRow(r)
    ensures FinalizeRow(CollectRow(RenderedBlock(n, r))) == r.(rowNo := n)
  {
    ShownTrimmed(r.pap);
    ShownTrimmed(r.perfIndicator);
    ShownTrimmed(r.office);
    ShownTrimmed(r.fundSource);
    ShownTrimmed(r.risk);
    ShownTrimmed(r.mitigatingActivities);
    EscRoundTrip(r.proofFile);
  }

  lemma ShownHeader(s: string)
    requires IsTrimmed(s) && |s| > 0
    ensures HeaderFilled(Shown(s)) && Trim(Shown(s).value) == s
  {
    ShownTrimmed(s);
  }

  /** The form `f` reads back as plan `p`'s header and rows, each row numbered by its position. */
  predicate ReadsBackAs(f: FormInput, p: Plan) {
    HeadersFilled(f)
    && Trim(f.developmentArea.value) == p.developmentArea && Trim(f.outcome.value) == p.outcome
    && Trim(f.strategy.value) == p.strategy
    && |f.blocks| == |p.rows|
    && forall i :: 0 <= i < |p.rows| ==> FinalizeRow(CollectRow(f.blocks[i])) == p.rows[i].(rowNo := i + 1)
  }

  lemma LoadedFormReadsBack(p: Plan)
    requires TrimmedPlan(p)
    requires |p.developmentArea| > 0 && |p.outcome| > 0 && |p.strategy| > 0
    ensures ReadsBackAs(LoadedForm(p), p)
  {
    var f := LoadedForm(p);
    ShownHeader(p.developmentArea);
    ShownHeader(p.outcome);
    ShownHeader(p.strategy);
    forall i | 0 <= i < |p.rows| ensures FinalizeRow(CollectRow(f.blocks[i])) == p.rows[i].(rowNo := i + 1) {
      UnchangedBlock(i + 1, p.rows[i]);
    }
  }

  /** A form that reads back as `p` and has a row collects to `p`'s content. */
  lemma CollectsTo(f: FormInput, p: Plan)
    requires ReadsBackAs(f, p) && |p.rows| > 0
    ensures CollectedForm(f).Ok?
    ensures var d := CollectedForm(f).value;
            d.developmentArea == p.developmentArea && d.outcome == p.outcome && d.strategy == p.strategy
            && |d.rows| == |p.rows|
            && forall i :: 0 <= i < |p.rows| ==> FinalizeRow(d.rows[i]) == p.rows[i].(rowNo := i + 1)
  {
  }

  /**
   * Opening a trimmed plan for editing and saving it without a change keeps
   * its header and every row, file name included, except that the rows are
   * renumbered 1, 2, 3, ... in order.
   */
  lemma UnchangedEditRenumbersRows(p: Plan)
    requires TrimmedPlan(p)
    requires |p.developmentArea| > 0 && |p.outcome| > 0 && |p.strategy| > 0 && |p.rows| > 0
    ensures CollectedForm(LoadedForm(p)).Ok?
    ensures var d := CollectedForm(LoadedForm(p)).value;
            d.developmentArea == p.developmentArea && d.outcome == p.outcome && d.strategy == p.strategy
            && |d.rows| == |p.rows|
            && forall i :: 0 <= i < |p.rows| ==> FinalizeRow(d.rows[i]) == p.rows[i].(rowNo := i + 1)
  {
    LoadedFormReadsBack(p);
    CollectsTo(LoadedForm(p), p);
  }

  predicate StrictlyIncreasing(xs: seq<int>) {
    forall i, j :: 0 <= i < j < |xs| ==> xs[i] < xs[j]
  }

  /** `[1, 2, ..., n]`. */
  function Positions(n: nat): (xs: seq<int>)
    ensures |xs| == n
    ensures forall i :: 0 <= i < n ==> xs[i] == i + 1
  {
    seq(n, i requires 0 <= i < n => i + 1)
  }

  /** The block numbers left after removing block `n`. */
  function Without(xs: seq<int>, n: int): (r: seq<int>)
    ensures forall x :: x in r <==> x in xs && x != n
    ensures |r| <= |xs|
  {
    if |xs| == 0 then []
    else if xs[0] == n then Without(xs[1..], n)
    else [xs[0]] + Without(xs[1..], n)
  }

  lemma {:induction false} WithoutKeepsOrder(xs: seq<int>, n: int)
    requires StrictlyIncreasing(xs)
    ensures StrictlyIncreasing(Without(xs, n))
  {
    if |xs| > 0 {
      var rest := xs[1..];
      assert StrictlyIncreasing(rest) by {
        forall i, j | 0 <= i < j < |rest| ensures rest[i] < rest[j] {
          assert rest[i] == xs[i + 1] && rest[j] == xs[j + 1];
        }
      }
      WithoutKeepsOrder(rest, n);
      if xs[0] != n {
        var w := Without(rest, n);
        var r := [xs[0]] + w;
        forall i, j | 0 <= i < j < |r| ensures r[i] < r[j] {
          assert r[j] == w[j - 1];
          assert r[j] in rest;
          var k :| 0 <= k < |rest| && rest[k] == r[j];
          assert xs[k + 1] == r[j];
          if i > 0 {
            assert r[i] == w[i - 1];
          }
        }
      }
    }
  }

  /**
   * The row numbering state of the form: `rowCount` is the number given to the
   * last block added, `blockRowNos` the numbers of the blocks now on the form
   * (their `data-rowno`), in document order, and `currentPlanId` the plan being
   * edited (none on the create form).
   */
  class PlanEditor {
    var rowCount: int
    var currentPlanId: Option<string>
    var blockRowNos: seq<int>

    /** Block numbers are distinct and increasing, and none exceeds `rowCount`. */
    ghost predicate Valid()
      reads this
    {
      0 <= rowCount && StrictlyIncreasing(blockRowNos)
      && forall i :: 0 <= i < |blockRowNos| ==> 1 <= blockRowNos[i] <= rowCount
    }

    /** The page's initial state: `rowCount = 1`, `currentPlanId = null`, no form rendered. */
    constructor()
      ensures Valid()
      ensures rowCount == 1 && currentPlanId == None && blockRowNos == []
    {
      rowCount := 1;
      currentPlanId := None;
      blockRowNos := [];
    }

    /** `initCreateForm(planData)`: one block per stored row (a single blank block without a plan). */
    method InitCreateForm(planData: Option<Plan>)
      modifies this
      ensures Valid()
      ensures rowCount == if planData.Some? then |planData.value.rows| else 1
      ensures currentPlanId == if planData.Some? then Some(planData.value.id) else None
      ensures blockRowNos == Positions(rowCount)
    {
      if planData.Some? {
        rowCount := |planData.value.rows|;
        currentPlanId := Some(planData.value.id);
      } else {
        rowCount := 1;
        currentPlanId := None;
      }
      blockRowNos := Positions(rowCount);
    }

    /** `addRow()` (and `addRowInUpdate()`): a new blank block numbered one past the last number given. */
    method AddRow()
      requires Valid()
      modifies this
      ensures Valid()
      ensures rowCount == old(rowCount) + 1
      ensures blockRowNos == old(blockRowNos) + [rowCount]
      ensures currentPlanId == old(currentPlanId)
      ensures rowCount !in old(blockRowNos)
    {
      rowCount := rowCount + 1;
      var old_ := blockRowNos;
      blockRowNos := blockRowNos + [rowCount];
      forall i, j | 0 <= i < j < |blockRowNos| ensures blockRowNos[i] < blockRowNos[j] {
        assert blockRowNos[i] == old_[i];
      }
    }

    /** `removeRow(n)`: the block numbered `n` leaves the form; numbers are not given back. */
    method RemoveRow(n: int)
      requires Valid()
      modifies this`blockRowNos
      ensures Valid()
      ensures blockRowNos == Without(old(blockRowNos), n)
      ensures n !in blockRowNos
    {
      WithoutKeepsOrder(blockRowNos, n);
      var old_ := blockRowNos;
      blockRowNos := Without(blockRowNos, n);
      forall i | 0 <= i < |blockRowNos| ensures 1 <= blockRowNos[i] <= rowCount {
        assert blockRowNos[i] in old_;
      }
    }
  }
}
