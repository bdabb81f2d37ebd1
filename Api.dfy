/**
 * The HTTP handlers of the backend over an explicitly passed store:
 * `api_submit`, `api_admin_data`, `api_admin_clear` and
 * `api_admin_generate_test`. Each returns the response it would send.
 */
module Api {
  import opened Wrappers
  import opened Json
  import Py
  import Submission
  import AdminGate
  import Store
  import TestData

  datatype Response =
    | Ok                                    // {"status": "ok"}
    | Cleared                               // {"status": "cleared"}
    | Generated(count: int)                 // {"status": "generated", "count": N}
    | Listing(records: seq<Store.Record>)   // the admin listing
    | BadRequest(error: string)             // 400 {"error": ...}
    | Forbidden                             // abort(403)
    | ServerError                           // an uncaught exception: 500

  /**
   * `POST /api/submit`: a refused payload answers 400 with its message and
   * leaves the table alone; an accepted one appends exactly one row.
   */
  method Submit(store: Store.SubmissionStore, payload: Option<Json>, createdAt: string)
    returns (resp: Response)
    requires store.Valid()
    modifies store
    ensures store.Valid()
    ensures
      var v := Submission.Validate(payload);
      if v.Accepted? && Store.ColumnsFit(v.row) && Store.SerialHasRoom(old(store.nextId), 1) then
        && resp == Ok
        && store.rows == old(store.rows) + [Store.StoredRow(old(store.nextId), v.row, createdAt)]
        && store.nextId == old(store.nextId) + 1
      else
        && resp == (if v.Rejected? then BadRequest(v.error) else ServerError)
        && store.rows == old(store.rows) && store.nextId == old(store.nextId)
  {
    var v := Submission.Validate(payload);
    match v
    case Rejected(error) =>
      return BadRequest(error);
    case Uncaught =>
      return ServerError;
    case Accepted(row) =>
      var ok := store.Insert(row, createdAt);
      resp := if ok then Ok else ServerError;
  }

  /**
   * `GET /api/admin-data?code=...`: 403 without the admin code; otherwise
   * one record per stored row, in ascending key order.
   */
  method AdminData(store: Store.SubmissionStore, code: Option<string>, admin: string)
    returns (resp: Response)
    requires store.Valid()
    ensures resp.Listing? <==> admin != "" && code == Some(admin)
    ensures !resp.Listing? ==> resp == Forbidden
    ensures resp.Listing? ==>
      && |resp.records| == |store.rows|
      && (forall k :: 0 <= k < |store.rows| ==> resp.records[k] == Store.RecordOf(store.rows[k]))
      && (forall i, j :: 0 <= i < j < |resp.records| ==> resp.records[i].id < resp.records[j].id)
  {
    if !AdminGate.QueryGrants(code, admin) {
      return Forbidden;
    }
    var records := store.ListAll();
    resp := Listing(records);
  }

  /** `POST /api/admin-clear`: with the admin code, every row is deleted. */
  method AdminClear(store: Store.SubmissionStore, payload: Option<Json>, admin: string)
    returns (resp: Response)
    requires store.Valid()
    modifies store
    ensures store.Valid()
    ensures store.nextId == old(store.nextId)
    ensures
      var g := AdminGate.JsonGate(payload, admin);
      if g.Granted? then resp == Cleared && store.rows == []
      else resp == (if g.Denied? then Forbidden else ServerError) && store.rows == old(store.rows)
  {
    var g := AdminGate.JsonGate(payload, admin);
    match g
    case Denied =>
      return Forbidden;
    case Uncaught =>
      return ServerError;
    case Granted(_) =>
      store.Clear();
      resp := Cleared;
  }

  /** `total = int(data.get("count", 5))`; `None` when `int()` raises. */
  function RequestedTotal(data: seq<Member>): (r: Option<int>)
    ensures Get(data, "count").None? ==> r == Some(TestData.DefaultCount)
    ensures Get(data, "count").Some? && Get(data, "count").value.Int? ==>
      r == Some(Get(data, "count").value.i)
  {
    match Get(data, "count")
    case None => Some(TestData.DefaultCount)
    case Some(v) => Py.ToInt(v)
  }

  /** A granted body without a `count` asks for the default five rows. */
  lemma CountDefaultsToFive(ms: seq<Member>, admin: string)
    requires AdminGate.JsonGate(Some(Object(ms)), admin).Granted?
    requires Get(ms, "count").None?
    ensures DrawsNeeded(Some(Object(ms)), admin) == TestData.DefaultCount
  {
  }

  /** A granted body whose `count` is the integer `n` asks for `max(n, 0)` rows. */
  lemma IntegerCountRows(ms: seq<Member>, admin: string, n: int)
    requires AdminGate.JsonGate(Some(Object(ms)), admin).Granted?
    requires Get(ms, "count") == Some(Int(n))
    ensures DrawsNeeded(Some(Object(ms)), admin) == TestData.RowCount(n)
  {
  }

  /** How many random draws a generate-test request consumes. */
  function DrawsNeeded(payload: Option<Json>, admin: string): nat
  {
    var g := AdminGate.JsonGate(payload, admin);
    if g.Granted? && RequestedTotal(g.data).Some? then TestData.RowCount(RequestedTotal(g.data).value) else 0
  }

  /** Every synthetic row of a batch of `n` fits its columns. */
  ghost predicate BatchFits(n: nat, epochSeconds: int, startText: string, draws: seq<TestData.Draw>)
    requires n <= |draws|
    requires forall k :: 0 <= k < |draws| ==> TestData.ValidDraw(draws[k])
  {
    forall i :: 0 <= i < n ==> Store.ColumnsFit(TestData.SyntheticRow(i, epochSeconds, startText, draws[i]))
  }

  /**
   * `POST /api/admin-generate-test`: with the admin code, `max(total, 0)`
   * synthetic rows are appended in one transaction, with consecutive fresh
   * keys, and the response echoes `total`; a failure anywhere leaves the
   * table as it was.
   */
  method AdminGenerateTest(
    store: Store.SubmissionStore, payload: Option<Json>, admin: string,
    epochSeconds: int, startText: string, draws: seq<TestData.Draw>)
    returns (resp: Response)
    requires store.Valid()
    requires forall k :: 0 <= k < |draws| ==> TestData.ValidDraw(draws[k])
    requires |draws| >= DrawsNeeded(payload, admin)
    modifies store
    ensures store.Valid()
    ensures
      var g := AdminGate.JsonGate(payload, admin);
      var total := if g.Granted? then RequestedTotal(g.data) else None;
      if && total.Some?
         && BatchFits(TestData.RowCount(total.value), epochSeconds, startText, draws)
         && Store.SerialHasRoom(old(store.nextId), TestData.RowCount(total.value))
      then
        var n := TestData.RowCount(total.value);
        && resp == Generated(total.value)
        && |store.rows| == |old(store.rows)| + n
        && store.rows[..|old(store.rows)|] == old(store.rows)
        && store.nextId == old(store.nextId) + n
        && forall i :: 0 <= i < n ==>
             store.rows[|old(store.rows)| + i] ==
             Store.StoredRow(old(store.nextId) + i,
                             TestData.SyntheticRow(i, epochSeconds, startText, draws[i]),
                             draws[i].createdAt)
      else
        && resp == (if g.Denied? then Forbidden else ServerError)
        && store.rows == old(store.rows) && store.nextId == old(store.nextId)
  {
    var g := AdminGate.JsonGate(payload, admin);
    if g.Denied? {
      return Forbidden;
    }
    if g.Uncaught? {
      return ServerError;
    }
    var total := RequestedTotal(g.data);
    if total.None? {
      return ServerError;
    }
    var batch := TestData.BuildBatch(total.value, epochSeconds, startText, draws);
    var createdAts := seq(|batch|, k requires 0 <= k < |batch| => draws[k].createdAt);
    var ok := store.InsertBatch(batch, createdAts);
    if !ok {
      return ServerError;
    }
    resp := Generated(total.value);
  }

  /**
   * A client of the handlers: a valid submission, listed by the admin,
   * comes back with every field as submitted; after a clear the listing is
   * empty, and the next submission gets a strictly larger key.
   */
  method SubmitListClear(
    ms: seq<Member>, sid: string, seed: int, start: string, end: string, duration: int,
    answers: seq<Json>, admin: string, createdAt: string)
    returns (first: seq<Store.Record>, afterClear: seq<Store.Record>, last: seq<Store.Record>)
    requires admin != ""
    requires Get(ms, "submissionId") == Some(Str(sid))
    requires Get(ms, "seed") == Some(Int(seed))
    requires Get(ms, "timestampStart") == Some(Str(start))
    requires Get(ms, "timestampEnd") == Some(Str(end))
    requires Get(ms, "durationSeconds") == Some(Int(duration))
    requires Get(ms, "answers") == Some(List(answers))
    requires |sid| <= Store.SubmissionIdWidth && 0 <= seed <= 0xFFFF_FFFF
    requires |start| <= Store.TimestampWidth && |end| <= Store.TimestampWidth
    requires Store.IntegerMin <= duration <= Store.IntegerMax
    ensures |first| == 1
    ensures first[0].submissionId == sid && first[0].seed == seed
    ensures first[0].timestampStart == start && first[0].timestampEnd == end
    ensures first[0].durationSeconds == duration && first[0].answers == List(answers)
    ensures afterClear == []
    ensures |last| == 1 && last[0].id > first[0].id
  {
    Submission.AcceptedCopiesFields(ms, sid, seed, start, end, duration, answers);
    var row := Submission.Validate(Some(Object(ms))).row;
    Store.UnsignedSeedFits(row);
    Store.RecordOfStored(1, row, createdAt, List(answers));

    var store := new Store.SubmissionStore();
    var r := Submit(store, Some(Object(ms)), createdAt);
    assert r == Ok;
    r := AdminData(store, Some(admin), admin);
    first := r.records;

    var code := Object([Member("code", Str(admin))]);
    r := AdminClear(store, Some(code), admin);
    assert r == Cleared;
    r := AdminData(store, Some(admin), admin);
    afterClear := r.records;

    Store.RecordOfStored(2, row, createdAt, List(answers));
    r := Submit(store, Some(Object(ms)), createdAt);
    r := AdminData(store, Some(admin), admin);
    last := r.records;
  }
}
