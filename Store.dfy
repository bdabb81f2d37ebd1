/**
 * The `submissions` table, kept in memory: a sequence of rows in insertion
 * order and the next value of the `id` sequence. The store refuses a row
 * whose values are out of range or too long for the column types.
 */
module Store {
  import opened Wrappers
  import opened Json
  import JsonText
  import Submission

  const BigIntegerMin := -0x8000_0000_0000_0000
  const BigIntegerMax := 0x7FFF_FFFF_FFFF_FFFF
  const IntegerMin := -0x8000_0000
  const IntegerMax := 0x7FFF_FFFF
  const SubmissionIdWidth := 255
  const TimestampWidth := 64

  /**
   * The column types: `submission_id` String(255) (a JSON string is the
   * only submission id this model stores), `seed` BigInteger, the two
   * timestamps String(64), `duration_seconds` Integer.
   */
  predicate ColumnsFit(r: Submission.NewRow)
  {
    && r.submissionId.Str? && |r.submissionId.s| <= SubmissionIdWidth
    && BigIntegerMin <= r.seed <= BigIntegerMax
    && |r.timestampStart| <= TimestampWidth
    && |r.timestampEnd| <= TimestampWidth
    && IntegerMin <= r.durationSeconds <= IntegerMax
  }

  /** Every seed the front end can send, a value in [0, 2^32 - 1], fits the seed column. */
  lemma UnsignedSeedFits(r: Submission.NewRow)
    requires 0 <= r.seed <= 0xFFFF_FFFF
    requires r.submissionId.Str? && |r.submissionId.s| <= SubmissionIdWidth
    requires |r.timestampStart| <= TimestampWidth && |r.timestampEnd| <= TimestampWidth
    requires IntegerMin <= r.durationSeconds <= IntegerMax
    ensures ColumnsFit(r)
  {
  }

  /** One stored row. */
  datatype Row = Row(
    id: nat,
    submissionId: string,
    seed: int,
    timestampStart: string,
    timestampEnd: string,
    durationSeconds: int,
    answersText: string,
    createdAt: string)

  /** One element of the admin listing. */
  datatype Record = Record(
    id: nat,
    submissionId: string,
    seed: int,
    timestampStart: string,
    timestampEnd: string,
    durationSeconds: int,
    createdAt: string,
    answers: Json)

  /** The row the table holds after inserting `r` with key `id`. */
  function StoredRow(id: nat, r: Submission.NewRow, createdAt: string): Row
    requires ColumnsFit(r)
  {
    Row(id, r.submissionId.s, r.seed, r.timestampStart, r.timestampEnd,
        r.durationSeconds, r.answersText, createdAt)
  }

  /** The rows a batch becomes, with consecutive keys from `first`. */
  function StoredRows(first: nat, batch: seq<Submission.NewRow>, createdAts: seq<string>): (rows: seq<Row>)
    requires |createdAts| == |batch|
    requires forall k :: 0 <= k < |batch| ==> ColumnsFit(batch[k])
    ensures |rows| == |batch|
    ensures forall k :: 0 <= k < |batch| ==> rows[k] == StoredRow(first + k, batch[k], createdAts[k])
  {
    seq(|batch|, k requires 0 <= k < |batch| => StoredRow(first + k, batch[k], createdAts[k]))
  }

  /**
   * The permissive read of `answers_json`: empty text, and text that does
   * not decode, read as the empty list.
   */
  function ReadAnswers(text: string): Json
  {
    if text == "" then List([])
    else
      match JsonText.Decode(text)
      case Some(j) => j
      case None => List([])
  }

  /** What was written by `json.dumps` is read back unchanged. */
  lemma ReadWrittenAnswers(j: Json)
    ensures ReadAnswers(JsonText.Encode(j)) == j
  {
    JsonText.DecodeEncode(j);
    JsonText.EncodeStart(j);
  }

  /** The listing element for one row. */
  function RecordOf(row: Row): Record
  {
    Record(row.id, row.submissionId, row.seed, row.timestampStart, row.timestampEnd,
           row.durationSeconds, row.createdAt, ReadAnswers(row.answersText))
  }

  /**
   * Submitting then listing: the record of a row written from a valid
   * submission gives back the submitted fields and the submitted answers.
   */
  lemma RecordOfStored(id: nat, r: Submission.NewRow, createdAt: string, answers: Json)
    requires ColumnsFit(r)
    requires r.answersText == JsonText.Encode(answers)
    ensures
      var rec := RecordOf(StoredRow(id, r, createdAt));
      rec.id == id && Str(rec.submissionId) == r.submissionId && rec.seed == r.seed &&
      rec.timestampStart == r.timestampStart && rec.timestampEnd == r.timestampEnd &&
      rec.durationSeconds == r.durationSeconds && rec.createdAt == createdAt &&
      rec.answers == answers
  {
    ReadWrittenAnswers(answers);
  }

  /**
   * The `id` column is a SERIAL `Integer`: its sequence hands out keys up to
   * 2^31 - 1 and then fails. `n` more keys are left after `next` while
   * `next + n - 1` is still in range.
   */
  predicate SerialHasRoom(next: nat, n: nat)
  {
    next + n <= IntegerMax + 1
  }

  /** Keys strictly increase along the sequence. */
  ghost predicate Ascending(rows: seq<Row>)
  {
    forall i, j :: 0 <= i < j < |rows| ==> rows[i].id < rows[j].id
  }

  class SubmissionStore {
    /** The table, in insertion order. */
    var rows: seq<Row>
    /** The value the `id` sequence hands out next. */
    var nextId: nat

    /** Keys increase in insertion order and are all below the next one. */
    ghost predicate Valid()
      reads this
    {
      && 1 <= nextId <= IntegerMax + 1
      && Ascending(rows)
      && forall i :: 0 <= i < |rows| ==> rows[i].id < nextId
    }

    /** `metadata.create_all`: an empty table whose keys start at 1. */
    constructor ()
      ensures Valid() && rows == [] && nextId == 1
    {
      rows := [];
      nextId := 1;
    }

    /**
     * One `insert().values(...)`: the row is appended with a fresh key,
     * larger than every key in the table; a row that does not fit its
     * columns, or an exhausted key sequence, raises and the table is
     * unchanged.
     */
    method Insert(r: Submission.NewRow, createdAt: string) returns (ok: bool)
      requires Valid()
      modifies this
      ensures Valid()
      ensures ok == (ColumnsFit(r) && SerialHasRoom(old(nextId), 1))
      ensures ok ==> rows == old(rows) + [StoredRow(old(nextId), r, createdAt)] && nextId == old(nextId) + 1
      ensures !ok ==> rows == old(rows) && nextId == old(nextId)
    {
      ok := ColumnsFit(r) && SerialHasRoom(nextId, 1);
      if ok {
        rows := rows + [StoredRow(nextId, r, createdAt)];
        nextId := nextId + 1;
      }
    }

    /**
     * Several inserts inside one `engine.begin()` transaction: either every
     * row is appended, with consecutive fresh keys, or (when one of them
     * does not fit, or the key sequence runs out) the transaction rolls back
     * and the table is unchanged.
     */
    method InsertBatch(batch: seq<Submission.NewRow>, createdAts: seq<string>) returns (ok: bool)
      requires Valid()
      requires |createdAts| == |batch|
      modifies this
      ensures Valid()
      ensures ok <==> (forall k :: 0 <= k < |batch| ==> ColumnsFit(batch[k])) && SerialHasRoom(old(nextId), |batch|)
      ensures ok ==> rows == old(rows) + StoredRows(old(nextId), batch, createdAts)
      ensures ok ==> nextId == old(nextId) + |batch|
      ensures !ok ==> rows == old(rows) && nextId == old(nextId)
    {
      var pending: seq<Row> := [];
      var i := 0;
      while i < |batch|
        invariant 0 <= i <= |batch|
        invariant forall k :: 0 <= k < i ==> ColumnsFit(batch[k])
        invariant |pending| == i
        invariant forall k :: 0 <= k < i ==> pending[k] == StoredRow(nextId + k, batch[k], createdAts[k])
      {
        if !ColumnsFit(batch[i]) {
          return false;
        }
        pending := pending + [StoredRow(nextId + i, batch[i], createdAts[i])];
        i := i + 1;
      }
      if !SerialHasRoom(nextId, |batch|) {
        return false;
      }
      assert pending == StoredRows(nextId, batch, createdAts);
      rows := rows + pending;
      nextId := nextId + |batch|;
      ok := true;
    }

    /**
     * The admin listing: `select(submissions).order_by(id.asc())`, one
     * record per row. Rows are kept in ascending key order, so the records
     * come out in that order, and none is dropped.
     */
    method ListAll() returns (result: seq<Record>)
      requires Valid()
      ensures |result| == |rows|
      ensures forall k :: 0 <= k < |rows| ==> result[k] == RecordOf(rows[k])
      ensures forall i, j :: 0 <= i < j < |result| ==> result[i].id < result[j].id
      ensures forall k :: 0 <= k < |rows| && (rows[k].answersText == "" || JsonText.Decode(rows[k].answersText).None?) ==>
        result[k].answers == List([])
      ensures forall k :: 0 <= k < |rows| && JsonText.Decode(rows[k].answersText).Some? ==>
        result[k].answers == JsonText.Decode(rows[k].answersText).value
    {
      result := [];
      var i := 0;
      while i < |rows|
        invariant 0 <= i <= |rows|
        invariant |result| == i
        invariant forall k :: 0 <= k < i ==> result[k] == RecordOf(rows[k])
      {
        result := result + [RecordOf(rows[i])];
        i := i + 1;
      }
    }

    /** `submissions.delete()`: every row goes; the key sequence does not restart. */
    method Clear()
      requires Valid()
      modifies this
      ensures Valid()
      ensures rows == [] && nextId == old(nextId)
    {
      rows := [];
    }
  }
}
