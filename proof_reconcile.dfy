/**
 * How the server's update handler decides each submitted row's evidence file:
 * an upload for the row's number, else the client's non-empty `existingProof`
 * hint, else the file of the stored row with the same number, else none.
 */
module ProofReconcile {
  import opened Wrappers
  import Seqs
  import opened PlanModel
  import opened PlanSchema
  import opened Uploads

  predicate StoredHasRowNo(r: Row, n: Option<int>) {
    n.Some? && r.rowNo == n.value
  }

  /** `plan.rows.find(r => r.rowNo === newRow.rowNo)`: a submitted row without a number has no counterpart. */
  function StoredRow(stored: seq<Row>, n: Option<int>): (r: Option<nat>)
    ensures r.Some? ==> r.value < |stored| && n.Some? && stored[r.value].rowNo == n.value
    ensures r.Some? ==> forall j :: 0 <= j < r.value ==> stored[j].rowNo != n.value
    ensures r.None? <==> n.None? || forall j :: 0 <= j < |stored| ==> stored[j].rowNo != n.value
  {
    Seqs.FirstIndex(stored, (r: Row) => StoredHasRowNo(r, n))
  }

  /** The previously stored file for a submitted row: its counterpart's `proofFile`, or "" without one. */
  function StoredProof(stored: seq<Row>, n: Option<int>): string {
    match StoredRow(stored, n)
    case Some(j) => stored[j].proofFile
    case None => ""
  }

  predicate HasHint(newRow: RowPayload) {
    newRow.existingProof.Some? && newRow.existingProof.value != ""
  }

  /** `newRow.existingProof || existing?.proofFile || ''`. */
  function KeptProof(stored: seq<Row>, newRow: RowPayload): string {
    if HasHint(newRow) then newRow.existingProof.value else StoredProof(stored, newRow.rowNo)
  }

  /** `rows.map(newRow => ({ ...newRow, proofFile: ... }))`. */
  function ReconcileRows(stored: seq<Row>, submitted: seq<RowPayload>): (r: seq<RowPayload>)
    ensures |r| == |submitted|
    ensures forall i :: 0 <= i < |submitted| ==>
              r[i] == submitted[i].(proofFile := Some(KeptProof(stored, submitted[i])))
  {
    seq(|submitted|, i requires 0 <= i < |submitted| =>
      submitted[i].(proofFile := Some(KeptProof(stored, submitted[i]))))
  }

  /** The rows the update handler assigns to the plan, before the schema casts them. */
  function PutRows(stored: seq<Row>, submitted: seq<RowPayload>, files: Option<seq<UploadEntry>>): seq<RowPayload> {
    ApplyFilesTo(files, ReconcileRows(stored, submitted))
  }

  /** The upload that writes to submitted row `i`, if any. */
  function UploadForRow(files: Option<seq<UploadEntry>>, submitted: seq<RowPayload>, i: nat): Option<string> {
    if files.None? then None else UploadFor(files.value, submitted, i)
  }

  /** The evidence file row `i` ends up with, in priority order. */
  function ResolvedProof(stored: seq<Row>, submitted: seq<RowPayload>, files: Option<seq<UploadEntry>>, i: nat): string
    requires i < |submitted|
  {
    var up := UploadForRow(files, submitted, i);
    if up.Some? then up.value
    else if HasHint(submitted[i]) then submitted[i].existingProof.value
    else StoredProof(stored, submitted[i].rowNo)
  }

  /**
   * Every submitted row is kept, in order, with only `proofFile` set; and that
   * file is the upload for the row, else the hint, else the stored row's, else "".
   */
  lemma PutProofPriority(stored: seq<Row>, submitted: seq<RowPayload>, files: Option<seq<UploadEntry>>, i: nat)
    requires i < |submitted|
    ensures |PutRows(stored, submitted, files)| == |submitted|
    ensures PutRows(stored, submitted, files)[i] ==
            submitted[i].(proofFile := Some(ResolvedProof(stored, submitted, files, i)))
  {
    var rec := ReconcileRows(stored, submitted);
    assert SameExceptProof(submitted, rec);
    if files.Some? {
      ApplyEntriesShape(files.value, rec);
      ApplyEntriesProof(files.value, rec, i);
      UploadForStable(files.value, rec, submitted, i);
    }
  }

  /** An update that neither uploads a file for a row nor hints at one keeps the stored row's file. */
  lemma NeverErasedSilently(stored: seq<Row>, submitted: seq<RowPayload>, files: Option<seq<UploadEntry>>, i: nat)
    requires i < |submitted| && !HasHint(submitted[i])
    requires UploadForRow(files, submitted, i).None?
    requires StoredRow(stored, submitted[i].rowNo).Some?
    ensures |PutRows(stored, submitted, files)| == |submitted|
    ensures PutRows(stored, submitted, files)[i].proofFile ==
            Some(stored[StoredRow(stored, submitted[i].rowNo).value].proofFile)
  {
    PutProofPriority(stored, submitted, files, i);
  }

  /** A new row (no stored counterpart) without hint or upload gets no file. */
  lemma NewRowGetsNoFile(stored: seq<Row>, submitted: seq<RowPayload>, files: Option<seq<UploadEntry>>, i: nat)
    requires i < |submitted| && !HasHint(submitted[i])
    requires UploadForRow(files, submitted, i).None?
    requires StoredRow(stored, submitted[i].rowNo).None?
    ensures |PutRows(stored, submitted, files)| == |submitted|
    ensures PutRows(stored, submitted, files)[i].proofFile == Some("")
  {
    PutProofPriority(stored, submitted, files, i);
  }

  /** An upload wins over both the hint and the stored file. */
  lemma UploadWins(stored: seq<Row>, submitted: seq<RowPayload>, files: Option<seq<UploadEntry>>, i: nat)
    requires i < |submitted| && UploadForRow(files, submitted, i).Some?
    ensures |PutRows(stored, submitted, files)| == |submitted|
    ensures PutRows(stored, submitted, files)[i].proofFile == UploadForRow(files, submitted, i)
  {
    PutProofPriority(stored, submitted, files, i);
  }
}
