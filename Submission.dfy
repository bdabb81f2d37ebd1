/**
 * The request logic of `api_submit`: which payloads are refused, with which
 * message, and the row that a valid payload becomes before it reaches the
 * table.
 */
module Submission {
  import opened Wrappers
  import opened Json
  import Py
  import JsonText

  const InvalidJson := "Invalid JSON"
  const MissingFields := "Missing required fields"
  const AnswersNotList := "answers must be a list"

  /** The six keys a submission must carry, in the order they are checked. */
  const RequiredFields: seq<string> :=
    ["submissionId", "seed", "timestampStart", "timestampEnd", "durationSeconds", "answers"]

  /**
   * The values handed to `submissions.insert().values(...)`. The submission
   * id is passed on as it came; the other fields have been coerced.
   */
  datatype NewRow = NewRow(
    submissionId: Json,
    seed: int,
    timestampStart: string,
    timestampEnd: string,
    durationSeconds: int,
    answersText: string)

  /**
   * The outcome of the checks: a row to insert, a 400 with its message, or
   * an exception the handler does not catch (a 500).
   */
  datatype Validation = Accepted(row: NewRow) | Rejected(error: string) | Uncaught

  /**
   * `all(field in data for field in fields)`, evaluated left to right and
   * stopping at the first absent field. `None` when `in` raises.
   */
  function AllFieldsIn(data: Json, fields: seq<string>): (r: Option<bool>)
    ensures data.Object? ==>
      r == Some(forall k :: 0 <= k < |fields| ==> HasKey(data.members, fields[k]))
    decreases |fields|
  {
    if fields == [] then Some(true)
    else
      match Py.Contains(data, fields[0])
      case None => None
      case Some(false) => Some(false)
      case Some(true) => AllFieldsIn(data, fields[1..])
  }

  /** `request.get_json(silent=True)` is `payload`; `None` when the body is not JSON. */
  function Validate(payload: Option<Json>): Validation
  {
    if payload.None? || Py.Falsy(payload.value) then Rejected(InvalidJson)
    else
      var data := payload.value;
      match AllFieldsIn(data, RequiredFields)
      case None => Uncaught
      case Some(false) => Rejected(MissingFields)
      case Some(true) =>
        if !data.Object? then Uncaught  // `data.get` on a list or a string
        else
          RequiredPresent(data.members);
          if !Get(data.members, "answers").value.List? then Rejected(AnswersNotList)
          else Normalise(data.members)
  }

  /** Every required key has a value once all of them are present. */
  lemma RequiredPresent(ms: seq<Member>)
    requires forall k :: 0 <= k < |RequiredFields| ==> HasKey(ms, RequiredFields[k])
    ensures forall k :: 0 <= k < |RequiredFields| ==> Get(ms, RequiredFields[k]).Some?
  {
    forall k | 0 <= k < |RequiredFields| ensures Get(ms, RequiredFields[k]).Some? {
      GetFindsKey(ms, RequiredFields[k]);
    }
  }

  /**
   * An object holding every required key and a list under `answers` passes
   * all three checks and reaches the coercions.
   */
  lemma ReachesNormalise(ms: seq<Member>)
    requires forall k :: 0 <= k < |RequiredFields| ==> HasKey(ms, RequiredFields[k])
    requires Get(ms, "answers").Some? && Get(ms, "answers").value.List?
    ensures forall k :: 0 <= k < |RequiredFields| ==> Get(ms, RequiredFields[k]).Some?
    ensures Validate(Some(Object(ms))) == Normalise(ms)
  {
    assert HasKey(ms, RequiredFields[0]);
    RequiredPresent(ms);
  }

  /** The coercions of the insert: `int`, `str`, `json.dumps`. */
  function Normalise(ms: seq<Member>): Validation
    requires forall k :: 0 <= k < |RequiredFields| ==> Get(ms, RequiredFields[k]).Some?
  {
    assert Get(ms, RequiredFields[0]).Some? && Get(ms, RequiredFields[1]).Some?;
    assert Get(ms, RequiredFields[2]).Some? && Get(ms, RequiredFields[3]).Some?;
    assert Get(ms, RequiredFields[4]).Some? && Get(ms, RequiredFields[5]).Some?;
    var seed := Py.ToInt(Get(ms, "seed").value);
    var duration := Py.ToInt(Get(ms, "durationSeconds").value);
    if seed.None? || duration.None? then Uncaught
    else
      Accepted(NewRow(
        Get(ms, "submissionId").value,
        seed.value,
        Py.ToStr(Get(ms, "timestampStart").value),
        Py.ToStr(Get(ms, "timestampEnd").value),
        duration.value,
        JsonText.Encode(Get(ms, "answers").value)))
  }

  // ---------------------------------------------------------------- the checks, one by one

  /** The first check: a missing or falsy payload, and only that, is "Invalid JSON". */
  lemma InvalidJsonFirst(payload: Option<Json>)
    ensures Validate(payload) == Rejected(InvalidJson) <==> payload.None? || Py.Falsy(payload.value)
  {
    if !(payload.None? || Py.Falsy(payload.value)) {
      var data := payload.value;
      match AllFieldsIn(data, RequiredFields)
      case None =>
      case Some(false) =>
      case Some(true) =>
    }
  }

  /**
   * An object missing any required key is "Missing required fields", even
   * when the missing key is `answers`: this check precedes the list check.
   */
  lemma MissingFieldRejected(ms: seq<Member>, field: string)
    requires ms != []
    requires field in RequiredFields
    requires !HasKey(ms, field)
    ensures Validate(Some(Object(ms))) == Rejected(MissingFields)
  {
  }

  /** All keys present but `answers` not a list: "answers must be a list". */
  lemma NonListAnswersRejected(ms: seq<Member>)
    requires forall k :: 0 <= k < |RequiredFields| ==> HasKey(ms, RequiredFields[k])
    requires Get(ms, "answers").Some? && !Get(ms, "answers").value.List?
    ensures Validate(Some(Object(ms))) == Rejected(AnswersNotList)
  {
    assert HasKey(ms, RequiredFields[5]);
    GetFindsKey(ms, "answers");
  }

  /**
   * A payload is accepted only if it is an object with all six keys and a
   * list under `answers`; the row then stores exactly that list, in order,
   * in a form the admin read decodes back.
   */
  lemma AcceptedShape(payload: Option<Json>)
    requires Validate(payload).Accepted?
    ensures payload.Some? && payload.value.Object?
    ensures forall k :: 0 <= k < |RequiredFields| ==> HasKey(payload.value.members, RequiredFields[k])
    ensures Get(payload.value.members, "answers").Some?
    ensures Get(payload.value.members, "answers").value.List?
    ensures JsonText.Decode(Validate(payload).row.answersText) == Get(payload.value.members, "answers")
  {
    var ms := payload.value.members;
    RequiredPresent(ms);
    assert Get(ms, RequiredFields[5]).Some?;
    JsonText.DecodeEncode(Get(ms, "answers").value);
  }

  /**
   * A well-typed submission is accepted, and its row copies the input: the
   * integers as given, the timestamps as given, and answers text that
   * decodes to the submitted list.
   */
  lemma AcceptedCopiesFields(
    ms: seq<Member>, sid: string, seed: int, start: string, end: string, duration: int, answers: seq<Json>)
    requires Get(ms, "submissionId") == Some(Str(sid))
    requires Get(ms, "seed") == Some(Int(seed))
    requires Get(ms, "timestampStart") == Some(Str(start))
    requires Get(ms, "timestampEnd") == Some(Str(end))
    requires Get(ms, "durationSeconds") == Some(Int(duration))
    requires Get(ms, "answers") == Some(List(answers))
    ensures Validate(Some(Object(ms))).Accepted?
    ensures
      var row := Validate(Some(Object(ms))).row;
      row.submissionId == Str(sid) && row.seed == seed &&
      row.timestampStart == start && row.timestampEnd == end &&
      row.durationSeconds == duration &&
      JsonText.Decode(row.answersText) == Some(List(answers))
  {
    forall k | 0 <= k < |RequiredFields| ensures HasKey(ms, RequiredFields[k]) {
      GetFindsKey(ms, RequiredFields[k]);
    }
    ReachesNormalise(ms);
    JsonText.DecodeEncode(List(answers));
  }

  /** A string seed is read as a decimal numeral, as `int("4294967295")` is. */
  lemma NumeralSeedAccepted(ms: seq<Member>, seed: int)
    requires forall k :: 0 <= k < |RequiredFields| ==> HasKey(ms, RequiredFields[k])
    requires Get(ms, "answers").Some? && Get(ms, "answers").value.List?
    requires Get(ms, "seed") == Some(Str(Py.ToStr(Int(seed))))
    requires Get(ms, "durationSeconds").Some? && Get(ms, "durationSeconds").value.Int?
    ensures Validate(Some(Object(ms))).Accepted?
    ensures Validate(Some(Object(ms))).row.seed == seed
  {
    ReachesNormalise(ms);
    Py.IntSurvivesStr(seed);
  }

  /**
   * A seed or a duration that `int()` cannot convert (`null`, a list, an
   * object, a string such as `"abc"`) makes it raise: nothing is accepted.
   */
  lemma NonNumericSeedUncaught(ms: seq<Member>)
    requires forall k :: 0 <= k < |RequiredFields| ==> HasKey(ms, RequiredFields[k])
    requires Get(ms, "answers").Some? && Get(ms, "answers").value.List?
    requires Get(ms, "seed").Some? && Get(ms, "durationSeconds").Some?
    requires Py.ToInt(Get(ms, "seed").value).None? || Py.ToInt(Get(ms, "durationSeconds").value).None?
    ensures Validate(Some(Object(ms))) == Uncaught
  {
    ReachesNormalise(ms);
  }

  /**
   * A JSON string holding every field name passes the key check (Python's
   * `in` is a substring test there) and then fails on `data.get`.
   */
  lemma StringPayloadUncaught(s: string)
    requires forall k :: 0 <= k < |RequiredFields| ==> Py.IsSubstring(RequiredFields[k], s)
    ensures Validate(Some(Str(s))) == Uncaught
  {
    assert s != "" by {
      assert Py.IsSubstring(RequiredFields[0], s);
    }
    AllFieldsInString(s, RequiredFields);
  }

  lemma {:induction false} AllFieldsInString(s: string, fields: seq<string>)
    requires forall k :: 0 <= k < |fields| ==> Py.IsSubstring(fields[k], s)
    ensures AllFieldsIn(Str(s), fields) == Some(true)
    decreases |fields|
  {
    if fields != [] {
      AllFieldsInString(s, fields[1..]);
    }
  }
}
