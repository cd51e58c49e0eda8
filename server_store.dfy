/**
 * The server's plan collection and the request handlers that read and change it:
 * list (newest first), fetch one, create, update and delete. Each handler is a
 * method on the collection, proved against a function that states its outcome.
 */
module ServerStore {
  import opened Wrappers
  import opened PlanModel
  import opened PlanSchema
  import opened IdAllocator
  import opened Uploads
  import opened ProofReconcile

  /** Why a request fails: an unknown plan is 404, every other failure 400. */
  datatype ApiError = NotFound | MalformedRows | ValidationFailed | DuplicateKey {
    function Status(): (s: int)
      ensures s == 404 <==> this == NotFound
      ensures s == 400 <==> this != NotFound
    {
      if this == NotFound then 404 else 400
    }
  }

  /** The `rows` field of a request body: absent or empty, not valid JSON, or a parsed list of rows. */
  datatype RowsField = NoRows | Malformed | Parsed(rows: seq<RowPayload>)

  /** `JSON.parse(req.body.rows || '[]')`: a missing field is the empty list, bad JSON throws. */
  function ParseRows(f: RowsField): (r: Result<seq<RowPayload>, ApiError>)
    ensures r.Err? <==> f == Malformed
    ensures r.Err? ==> r.error == MalformedRows
    ensures f == NoRows ==> r == Ok([])
    ensures f.Parsed? ==> r == Ok(f.rows)
  {
    match f
    case NoRows => Ok([])
    case Malformed => Err(MalformedRows)
    case Parsed(rows) => Ok(rows)
  }

  predicate AllNumbered(docs: seq<Plan>) {
    forall i :: 0 <= i < |docs| ==> docs[i].idNo.Some?
  }

  predicate DistinctIdNos(docs: seq<Plan>) {
    forall i, j :: 0 <= i < j < |docs| ==> docs[i].idNo != docs[j].idNo
  }

  predicate HeadersPresent(docs: seq<Plan>) {
    forall i :: 0 <= i < |docs| ==>
      |docs[i].developmentArea| > 0 && |docs[i].outcome| > 0 && |docs[i].strategy| > 0
  }

  /**
   * What holds of every stored collection: ids are unique, every plan got a
   * number from the pre-save hook, numbers are unique, and the required header
   * paths are non-empty.
   */
  predicate ValidStore(docs: seq<Plan>) {
    DistinctIds(docs) && AllNumbered(docs) && DistinctIdNos(docs) && HeadersPresent(docs)
  }

  /** The stored numbers, in collection order. */
  function StoredIdNos(docs: seq<Plan>): (xs: seq<int>)
    requires AllNumbered(docs)
    ensures |xs| == |docs|
    ensures forall i :: 0 <= i < |docs| ==> Some(xs[i]) == docs[i].idNo
  {
    seq(|docs|, i requires 0 <= i < |docs| => docs[i].idNo.value)
  }

  /**
   * The pre-save hook: a new document takes one more than the highest stored
   * number (`findOne` sorted by `idNo` descending), or 1 in an empty collection;
   * a document already stored keeps its number.
   */
  function PreSaveIdNo(docs: seq<Plan>, isNew: bool, current: Option<int>): (r: Option<int>)
    requires AllNumbered(docs)
    ensures !isNew ==> r == current
    ensures isNew ==> r.Some? && forall i :: 0 <= i < |docs| ==> docs[i].idNo.value < r.value
    ensures isNew && |docs| == 0 ==> r == Some(1)
    ensures isNew && |docs| > 0 ==> exists i :: 0 <= i < |docs| && docs[i].idNo == Some(r.value - 1)
  {
    if isNew then
      var n := NextIdNo(StoredIdNos(docs));
      assert |docs| > 0 ==> n - 1 in StoredIdNos(docs);
      Some(n)
    else current
  }

  /** The outcome of `POST /`: the created plan (status 201) or why it was refused. */
  function CreateOutcome(docs: seq<Plan>, id: string,
                         developmentArea: Option<string>, outcome: Option<string>, strategy: Option<string>,
                         body: RowsField, files: Option<seq<UploadEntry>>, now: Timestamp): (r: Result<Plan, ApiError>)
    requires AllNumbered(docs)
    ensures r.Ok? <==> body != Malformed && Required(developmentArea) && Required(outcome) && Required(strategy)
                       && (forall i :: 0 <= i < |ParseRows(body).value| ==> ParseRows(body).value[i].rowNo.Some?)
                       && FindPlan(docs, id).None?
    ensures r.Ok? ==> r.value.id == id && r.value.idNo == PreSaveIdNo(docs, true, None)
                      && r.value.developmentArea == developmentArea.value && r.value.outcome == outcome.value
                      && r.value.strategy == strategy.value
                      && CastRows(ApplyFilesTo(files, ParseRows(body).value)) == Some(r.value.rows)
                      && r.value.createdAt == now && r.value.updatedAt == now
  {
    match ParseRows(body)
    case Err(e) => Err(e)
    case Ok(submitted) =>
      ApplyFilesShape(files, submitted);
      match ValidatePlan(developmentArea, outcome, strategy, ApplyFilesTo(files, submitted))
      case None => Err(ValidationFailed)
      case Some(f) =>
        if FindPlan(docs, id).Some? then Err(DuplicateKey)
        else Ok(Plan(id, PreSaveIdNo(docs, true, None), f.developmentArea, f.outcome, f.strategy,
                     f.rows, now, now))
  }

  /** The outcome of `PUT /:id`: the revised plan or why it was refused. */
  function UpdateOutcome(docs: seq<Plan>, id: string,
                         developmentArea: Option<string>, outcome: Option<string>, strategy: Option<string>,
                         body: RowsField, files: Option<seq<UploadEntry>>, now: Timestamp): (r: Result<Plan, ApiError>)
    ensures r == Err(NotFound) <==> FindPlan(docs, id).None?
    ensures r.Ok? <==> FindPlan(docs, id).Some? && body != Malformed
                       && Required(developmentArea) && Required(outcome) && Required(strategy)
                       && (forall i :: 0 <= i < |ParseRows(body).value| ==> ParseRows(body).value[i].rowNo.Some?)
    ensures r.Ok? ==>
              var old_ := docs[FindPlan(docs, id).value];
              r.value.id == id && r.value.idNo == old_.idNo && r.value.createdAt == old_.createdAt
              && r.value.developmentArea == developmentArea.value && r.value.outcome == outcome.value
              && r.value.strategy == strategy.value && r.value.updatedAt == now
              && CastRows(PutRows(old_.rows, ParseRows(body).value, files)) == Some(r.value.rows)
  {
    match FindPlan(docs, id)
    case None => Err(NotFound)
    case Some(i) =>
      match ParseRows(body)
      case Err(e) => Err(e)
      case Ok(submitted) =>
        var rows := PutRows(docs[i].rows, submitted, files);
        ApplyFilesShape(files, ReconcileRows(docs[i].rows, submitted));
        assert SameExceptProof(submitted, rows);
        match ValidatePlan(developmentArea, outcome, strategy, rows)
        case None => Err(ValidationFailed)
        case Some(f) => Ok(Revise(docs[i], f.developmentArea, f.outcome, f.strategy, f.rows, now))
  }

  /** The order `Plan.find().sort({ createdAt: -1 })` returns: newest first. */
  predicate NewestFirstOrder(s: seq<Plan>) {
    forall i, j :: 0 <= i < j < |s| ==> s[i].createdAt >= s[j].createdAt
  }

  lemma ConsNewestFirst(x: Plan, rest: seq<Plan>)
    requires NewestFirstOrder(rest)
    requires |rest| == 0 || x.createdAt >= rest[0].createdAt
    ensures NewestFirstOrder([x] + rest)
  {
    var d := [x] + rest;
    forall i, j | 0 <= i < j < |d| ensures d[i].createdAt >= d[j].createdAt {
      assert d[j] == rest[j - 1];
      if i > 0 {
        assert d[i] == rest[i - 1];
      } else if j > 1 {
        assert rest[0].createdAt >= rest[j - 1].createdAt;
      }
    }
  }

  function InsertByCreated(p: Plan, s: seq<Plan>): (r: seq<Plan>)
    requires NewestFirstOrder(s)
    ensures NewestFirstOrder(r)
    ensures multiset(r) == multiset(s) + multiset{p}
    ensures |r| == |s| + 1
    ensures r[0] == p || (|s| > 0 && r[0] == s[0])
  {
    if |s| == 0 || p.createdAt >= s[0].createdAt then
      ConsNewestFirst(p, s);
      [p] + s
    else
      var rest := InsertByCreated(p, s[1..]);
      assert s == [s[0]] + s[1..];
      assert s[0].createdAt >= rest[0].createdAt;
      ConsNewestFirst(s[0], rest);
      [s[0]] + rest
  }

  /** The listing order: every stored plan exactly once, newest `createdAt` first. */
  function NewestFirst(s: seq<Plan>): (r: seq<Plan>)
    ensures NewestFirstOrder(r)
    ensures multiset(r) == multiset(s)
  {
    if |s| == 0 then []
    else
      assert s == [s[0]] + s[1..];
      InsertByCreated(s[0], NewestFirst(s[1..]))
  }

  /** In a valid collection the next server number is the one the browser's rule computes. */
  lemma ServerAndClientNumbersAgree(docs: seq<Plan>)
    requires AllNumbered(docs)
    ensures PreSaveIdNo(docs, true, None) == Some(NextLocalIdNo(docs))
  {
    assert StoredIdNos(docs) == LocalIdNos(docs);
  }

  /** A created plan keeps the collection valid. */
  lemma CreateKeepsValid(docs: seq<Plan>, id: string,
                         developmentArea: Option<string>, outcome: Option<string>, strategy: Option<string>,
                         body: RowsField, files: Option<seq<UploadEntry>>, now: Timestamp)
    requires ValidStore(docs)
    requires CreateOutcome(docs, id, developmentArea, outcome, strategy, body, files, now).Ok?
    ensures ValidStore(docs + [CreateOutcome(docs, id, developmentArea, outcome, strategy, body, files, now).value])
  {
    var p := CreateOutcome(docs, id, developmentArea, outcome, strategy, body, files, now).value;
    var d := docs + [p];
    forall i, j | 0 <= i < j < |d| ensures d[i].id != d[j].id && d[i].idNo != d[j].idNo {
      if j == |docs| {
        assert d[i] == docs[i];
      }
    }
  }

  /** Creating a plan raises the next number by exactly one. */
  lemma CreateNumbersInSequence(docs: seq<Plan>, p: Plan)
    requires AllNumbered(docs)
    requires p.idNo == PreSaveIdNo(docs, true, None)
    ensures AllNumbered(docs + [p])
    ensures PreSaveIdNo(docs + [p], true, None).value == PreSaveIdNo(docs, true, None).value + 1
  {
    assert StoredIdNos(docs + [p]) == StoredIdNos(docs) + [NextIdNo(StoredIdNos(docs))];
    NextIdNoAfterIssue(StoredIdNos(docs));
  }

  /** An accepted update keeps the collection valid. */
  lemma UpdateKeepsValid(docs: seq<Plan>, id: string,
                         developmentArea: Option<string>, outcome: Option<string>, strategy: Option<string>,
                         body: RowsField, files: Option<seq<UploadEntry>>, now: Timestamp)
    requires ValidStore(docs)
    requires UpdateOutcome(docs, id, developmentArea, outcome, strategy, body, files, now).Ok?
    ensures ValidStore(docs[FindPlan(docs, id).value :=
                            UpdateOutcome(docs, id, developmentArea, outcome, strategy, body, files, now).value])
  {
    var k := FindPlan(docs, id).value;
    var p := UpdateOutcome(docs, id, developmentArea, outcome, strategy, body, files, now).value;
    var d := docs[k := p];
    forall i | 0 <= i < |d| ensures d[i].id == docs[i].id && d[i].idNo == docs[i].idNo {
    }
  }

  /** Adding a plan that differs in id and number from every stored one to a valid collection keeps it valid. */
  lemma ConsKeepsValid(p: Plan, rest: seq<Plan>)
    requires ValidStore(rest)
    requires p.idNo.Some? && |p.developmentArea| > 0 && |p.outcome| > 0 && |p.strategy| > 0
    requires forall q :: q in rest ==> q.id != p.id && q.idNo != p.idNo
    ensures ValidStore([p] + rest)
  {
    var d := [p] + rest;
    forall i, j | 0 <= i < j < |d| ensures d[i].id != d[j].id && d[i].idNo != d[j].idNo {
      assert d[j] == rest[j - 1];
      if i > 0 {
        assert d[i] == rest[i - 1];
      }
    }
  }

  /** Deleting by id keeps the collection valid. */
  lemma {:induction false} RemoveKeepsValid(docs: seq<Plan>, id: string)
    requires ValidStore(docs)
    ensures ValidStore(RemoveId(docs, id))
  {
    if |docs| > 0 {
      var rest := docs[1..];
      assert ValidStore(rest) by {
        forall i, j | 0 <= i < j < |rest| ensures rest[i].id != rest[j].id && rest[i].idNo != rest[j].idNo {
          assert rest[i] == docs[i + 1] && rest[j] == docs[j + 1];
        }
      }
      RemoveKeepsValid(rest, id);
      if docs[0].id != id {
        RemoveIdMembers(rest, id);
        forall q | q in RemoveId(rest, id) ensures q.id != docs[0].id && q.idNo != docs[0].idNo {
          var j :| 0 <= j < |rest| && rest[j] == q;
          assert docs[j + 1] == q;
        }
        ConsKeepsValid(docs[0], RemoveId(rest, id));
      }
    }
  }

  /** The stored collection (a model of the database's `plans` collection). */
  class PlanCollection {
    var docs: seq<Plan>

    ghost predicate Valid()
      reads this
    {
      ValidStore(docs)
    }

    constructor()
      ensures docs == [] && Valid()
    {
      docs := [];
    }

    /** `GET /`: every stored plan, newest first. */
    method FindAll() returns (r: seq<Plan>)
      ensures NewestFirstOrder(r)
      ensures multiset(r) == multiset(docs)
    {
      r := NewestFirst(docs);
    }

    /** `GET /:id`: the plan with that id, or 404. */
    method FindById(id: string) returns (r: Result<Plan, ApiError>)
      ensures r.Err? <==> forall j :: 0 <= j < |docs| ==> docs[j].id != id
      ensures r.Err? ==> r.error == NotFound && r.error.Status() == 404
      ensures r.Ok? ==> r.value in docs && r.value.id == id
    {
      var k := FindPlan(docs, id);
      if k.None? {
        r := Err(NotFound);
      } else {
        r := Ok(docs[k.value]);
      }
    }

    /** `POST /`: store a new plan with the next number, or refuse with 400 and store nothing. */
    method Create(id: string, developmentArea: Option<string>, outcome: Option<string>, strategy: Option<string>,
                  body: RowsField, files: Option<seq<UploadEntry>>, now: Timestamp)
      returns (r: Result<Plan, ApiError>)
      requires Valid()
      modifies this
      ensures Valid()
      ensures r == CreateOutcome(old(docs), id, developmentArea, outcome, strategy, body, files, now)
      ensures r.Ok? ==> docs == old(docs) + [r.value]
      ensures r.Err? ==> docs == old(docs) && r.error.Status() == 400
    {
      var parsed := ParseRows(body);
      if parsed.Err? {
        return Err(parsed.error);
      }
      var rows := WithUploads(files, parsed.value);
      var fields := ValidatePlan(developmentArea, outcome, strategy, rows);
      if fields.None? {
        return Err(ValidationFailed);
      }
      if FindPlan(docs, id).Some? {
        return Err(DuplicateKey);
      }
      var f := fields.value;
      var p := Plan(id, PreSaveIdNo(docs, true, None), f.developmentArea, f.outcome, f.strategy, f.rows, now, now);
      CreateKeepsValid(docs, id, developmentArea, outcome, strategy, body, files, now);
      docs := docs + [p];
      r := Ok(p);
    }

    /** `PUT /:id`: replace the plan's header and rows, 404 for an unknown id, 400 and no change otherwise. */
    method Update(id: string, developmentArea: Option<string>, outcome: Option<string>, strategy: Option<string>,
                  body: RowsField, files: Option<seq<UploadEntry>>, now: Timestamp)
      returns (r: Result<Plan, ApiError>)
      requires Valid()
      modifies this
      ensures Valid()
      ensures r == UpdateOutcome(old(docs), id, developmentArea, outcome, strategy, body, files, now)
      ensures r.Ok? ==> docs == old(docs)[FindPlan(old(docs), id).value := r.value]
      ensures r.Err? ==> docs == old(docs)
    {
      var k := FindPlan(docs, id);
      if k.None? {
        return Err(NotFound);
      }
      var parsed := ParseRows(body);
      if parsed.Err? {
        return Err(parsed.error);
      }
      var stored := docs[k.value];
      var rows := WithUploads(files, ReconcileRows(stored.rows, parsed.value));
      var fields := ValidatePlan(developmentArea, outcome, strategy, rows);
      if fields.None? {
        return Err(ValidationFailed);
      }
      var f := fields.value;
      var p := Revise(stored, f.developmentArea, f.outcome, f.strategy, f.rows, now);
      UpdateKeepsValid(docs, id, developmentArea, outcome, strategy, body, files, now);
      docs := docs[k.value := p];
      r := Ok(p);
    }

    /** `DELETE /:id`: remove the plan with that id, if there is one; the reply is "Deleted" either way. */
    method Delete(id: string) returns (message: string)
      requires Valid()
      modifies this
      ensures Valid()
      ensures docs == RemoveId(old(docs), id)
      ensures message == "Deleted"
    {
      RemoveKeepsValid(docs, id);
      var k := FindPlan(docs, id);
      if k.Some? {
        RemoveFoundPlan(docs, id, k.value);
        docs := docs[..k.value] + docs[k.value + 1..];
      } else {
        RemoveIdAbsent(docs, id);
      }
      message := "Deleted";
    }
  }

  /** Runs the in-place upload pass over a fresh array holding `rows`. */
  method WithUploads(files: Option<seq<UploadEntry>>, rows: seq<RowPayload>) returns (out: seq<RowPayload>)
    ensures out == ApplyFilesTo(files, rows)
  {
    var a := new RowPayload[|rows|](i requires 0 <= i < |rows| => rows[i]);
    assert a[..] == rows;
    ApplyFiles(files, a);
    out := a[..];
  }
}
