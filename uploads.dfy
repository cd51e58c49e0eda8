/**
 * `applyFiles`: for every uploaded field `file_row_<n>`, the first submitted row
 * whose `rowNo` is `n` gets the upload's stored filename as its `proofFile`.
 */
module Uploads {
  import opened Wrappers
  import Seqs
  import opened PlanSchema
  import opened FileFields

  /**
   * One entry of `req.files`, in iteration order: the field name and the stored
   * filename of its first file (`fileArr[0].filename`).
   */
  datatype UploadEntry = UploadEntry(fieldname: string, filename: string)

  predicate HasRowNo(r: RowPayload, n: int) {
    r.rowNo == Some(n)
  }

  /** `rows.find(r => r.rowNo === n)`, as a position; a row without a number never matches. */
  function RowWithNo(rows: seq<RowPayload>, n: int): (r: Option<nat>)
    ensures r.Some? ==> r.value < |rows| && rows[r.value].rowNo == Some(n)
    ensures r.Some? ==> forall j :: 0 <= j < r.value ==> rows[j].rowNo != Some(n)
    ensures r.None? <==> forall j :: 0 <= j < |rows| ==> rows[j].rowNo != Some(n)
  {
    Seqs.FirstIndex(rows, (r: RowPayload) => HasRowNo(r, n))
  }

  /** The row an entry writes to: none for a non-matching field name or an unknown row number. */
  function TargetRow(e: UploadEntry, rows: seq<RowPayload>): Option<nat> {
    match ParseFileRowField(e.fieldname)
    case None => None
    case Some(n) => RowWithNo(rows, n)
  }

  function ApplyEntry(e: UploadEntry, rows: seq<RowPayload>): seq<RowPayload> {
    match TargetRow(e, rows)
    case None => rows
    case Some(j) => rows[j := rows[j].(proofFile := Some(e.filename))]
  }

  /** The entries applied one after the other, in iteration order. */
  function ApplyEntries(es: seq<UploadEntry>, rows: seq<RowPayload>): seq<RowPayload> {
    if |es| == 0 then rows else ApplyEntries(es[1..], ApplyEntry(es[0], rows))
  }

  /** `applyFiles(req, rows)`; `None` is a request without a files object. */
  function ApplyFilesTo(files: Option<seq<UploadEntry>>, rows: seq<RowPayload>): seq<RowPayload> {
    if files.None? then rows else ApplyEntries(files.value, rows)
  }

  /** `b` is `a` with at most the `proofFile` of each row changed. */
  predicate SameExceptProof(a: seq<RowPayload>, b: seq<RowPayload>) {
    |a| == |b| && forall i :: 0 <= i < |a| ==> b[i] == a[i].(proofFile := b[i].proofFile)
  }

  /** The filename of the last entry that writes to row `i`, if any does. */
  function UploadFor(es: seq<UploadEntry>, rows: seq<RowPayload>, i: nat): Option<string> {
    if |es| == 0 then None
    else
      var later := UploadFor(es[1..], rows, i);
      if later.Some? then later
      else if TargetRow(es[0], rows) == Some(i) then Some(es[0].filename)
      else None
  }

  method ApplyFiles(files: Option<seq<UploadEntry>>, rows: array<RowPayload>)
    modifies rows
    ensures rows[..] == ApplyFilesTo(files, old(rows[..]))
  {
    if files.None? {
      return;
    }
    var es := files.value;
    var k := 0;
    while k < |es|
      invariant 0 <= k <= |es|
      invariant ApplyEntries(es[k..], rows[..]) == ApplyEntries(es, old(rows[..]))
    {
      ghost var before := rows[..];
      assert es[k..][1..] == es[k + 1..];
      match ParseFileRowField(es[k].fieldname) {
        case None =>
        case Some(n) =>
          var j := RowWithNo(rows[..], n);
          if j.Some? {
            rows[j.value] := rows[j.value].(proofFile := Some(es[k].filename));
          }
      }
      assert rows[..] == ApplyEntry(es[k], before);
      k := k + 1;
    }
    assert es[|es|..] == [];
  }

  lemma TargetRowStable(e: UploadEntry, a: seq<RowPayload>, b: seq<RowPayload>)
    requires SameExceptProof(a, b)
    ensures TargetRow(e, a) == TargetRow(e, b)
  {
    match ParseFileRowField(e.fieldname)
    case None =>
    case Some(n) =>
      Seqs.FirstIndexAgrees(a, (r: RowPayload) => HasRowNo(r, n), b, (r: RowPayload) => HasRowNo(r, n));
  }

  lemma {:induction false} UploadForStable(es: seq<UploadEntry>, a: seq<RowPayload>, b: seq<RowPayload>, i: nat)
    requires SameExceptProof(a, b)
    ensures UploadFor(es, a, i) == UploadFor(es, b, i)
  {
    if |es| > 0 {
      UploadForStable(es[1..], a, b, i);
      TargetRowStable(es[0], a, b);
    }
  }

  /** Uploads preserve the number and order of rows and touch nothing but `proofFile`. */
  lemma {:induction false} ApplyEntriesShape(es: seq<UploadEntry>, rows: seq<RowPayload>)
    ensures SameExceptProof(rows, ApplyEntries(es, rows))
  {
    if |es| > 0 {
      var next := ApplyEntry(es[0], rows);
      assert SameExceptProof(rows, next);
      ApplyEntriesShape(es[1..], next);
    }
  }

  /**
   * The resulting `proofFile` of row `i`: the filename of the last upload whose
   * field names the row's number (with `i` the first row carrying it), else
   * whatever the row had before.
   */
  lemma {:induction false} ApplyEntriesProof(es: seq<UploadEntry>, rows: seq<RowPayload>, i: nat)
    requires i < |rows|
    ensures |ApplyEntries(es, rows)| == |rows|
    ensures ApplyEntries(es, rows)[i].proofFile ==
            match UploadFor(es, rows, i) case Some(f) => Some(f) case None => rows[i].proofFile
  {
    ApplyEntriesShape(es, rows);
    if |es| > 0 {
      var next := ApplyEntry(es[0], rows);
      assert SameExceptProof(rows, next);
      ApplyEntriesProof(es[1..], next, i);
      UploadForStable(es[1..], next, rows, i);
    }
  }

  lemma ApplyFilesShape(files: Option<seq<UploadEntry>>, rows: seq<RowPayload>)
    ensures SameExceptProof(rows, ApplyFilesTo(files, rows))
  {
    if files.Some? {
      ApplyEntriesShape(files.value, rows);
    }
  }

  /** With no files object at all, the rows come back unchanged. */
  lemma NoFilesUnchanged(rows: seq<RowPayload>)
    ensures ApplyFilesTo(None, rows) == rows
    ensures ApplyFilesTo(Some([]), rows) == rows
  {
  }

  /** An entry whose field name does not match, or whose number no row carries, has no effect. */
  lemma IgnoredEntry(e: UploadEntry, es: seq<UploadEntry>, rows: seq<RowPayload>)
    requires TargetRow(e, rows).None?
    ensures ApplyEntries([e] + es, rows) == ApplyEntries(es, rows)
  {
    assert ([e] + es)[1..] == es;
  }

  /** An upload for row number `n` lands on the first row numbered `n`, and on no other row. */
  lemma UploadLandsOnFirstMatch(fieldRow: nat, filename: string, rows: seq<RowPayload>, i: nat)
    requires i < |rows|
    ensures var result := ApplyEntries([UploadEntry(FileRowField(fieldRow), filename)], rows);
            |result| == |rows| &&
            result[i].proofFile == (if RowWithNo(rows, fieldRow) == Some(i) then Some(filename) else rows[i].proofFile)
  {
    var e := UploadEntry(FileRowField(fieldRow), filename);
    FileRowFieldRoundTrip(fieldRow);
    ApplyEntriesProof([e], rows, i);
    assert [e][1..] == [];
  }
}
