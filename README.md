# Submission backend of the audio comparison study, in Dafny

The study's front end plays pairs of audio clips and posts each listener's
answers to a small Flask backend (`app.py`). The backend stores them in one
`submissions` table. It offers an admin listing, an admin "clear all" and
an admin generator of synthetic test submissions. The admin calls are
guarded by a shared code. This project models that request logic and the
table and proves what each handler promises.

Layout, one module per file:

- `Wrappers`: `Option`.
- `Json`: JSON values. An object keeps its members in order, and a key
  lookup takes the last binding.
- `Numerals`: decimal numerals, plus the `int()` reading of a string.
- `Py`: the Python semantics the handlers rely on: truthiness, `in`,
  `int()`, `str()` and `repr`.
- `JsonText`: `json.dumps` and `json.loads` as an encode/decode pair with a
  proved round trip.
- `Submission`: the checks and coercions of `api_submit`.
- `AdminGate`: the two admin-code checks.
- `Store`: the table as a class. It holds `rows`, a sequence in insertion
  order, and `nextId`, the autoincrement sequence. The class refuses a row
  whose values are out of range or too long for the column types, and any
  insert once the SERIAL `id` sequence has handed out its last key, 2^31 - 1.
- `TestData`: the synthetic submissions of `api_admin_generate_test`.
- `Api`: the four handlers over a store passed in explicitly, and a client
  that submits, lists and clears.

Outcomes:

- A handler's outcome is a `Response`.
- An error the handler catches is `BadRequest` with its message (a 400).
- A refused admin code is `Forbidden` (a 403).
- An exception the code does not catch is `ServerError` (a 500). Examples
  are `int("abc")`, `.get` on a list, and a value too wide for its column.

## Model

| member | source | states |
|---|---|---|
| Submission.InvalidJsonFirst | app.py:70-72 | "Invalid JSON" is the outcome exactly when the body is not JSON or is falsy (`null`, `false`, `0`, `""`, `[]`, `{}`); no other payload gets it |
| Submission.MissingFieldRejected | app.py:74-76 | a non-empty object lacking any of the six required keys is refused with "Missing required fields", even when the missing key is `answers` |
| Submission.NonListAnswersRejected | app.py:79-80 | with all six keys present and a non-list `answers`, the outcome is "answers must be a list" |
| Submission.ReachesNormalise | app.py:70-80 | an object holding all six keys with a list under `answers` passes all three checks and reaches the coercions |
| Submission.AcceptedShape | app.py:70-90 | an accepted payload is an object holding all six keys with a list under `answers`, and the stored answers text decodes to exactly that list |
| Submission.AcceptedCopiesFields | app.py:82-93 | a well-typed submission is accepted; its row holds the given submission id, seed, timestamps and duration, and answers text that decodes to the submitted list in order |
| Submission.NumeralSeedAccepted | app.py:86 | a seed sent as a decimal string, as in `"4294967295"`, is accepted, and the validated row holds that integer as its seed (storing the row also needs it to fit the columns) |
| Submission.NonNumericSeedUncaught | app.py:86-89 | a seed or a duration that `int()` cannot convert (`null`, a list, an object, a string that is not a numeral) raises: no row is produced |
| Submission.StringPayloadUncaught | app.py:74-79 | a JSON string body containing every field name passes the key check (`in` is a substring test on a string) and then fails on `data.get` |
| Submission.AllFieldsIn | app.py:74-75 | on an object, the key check is true exactly when every required key is present |
| Py.IntSurvivesStr | app.py:86-89 | the string form of an integer converts back to that integer |
| Numerals.NatToDecimal | app.py:224 | the decimal form of a natural number is a non-empty run of digits without a leading zero |
| Numerals.DecimalValue | app.py:224 | the decimal form of `n` reads back as `n` |
| Numerals.DecimalInjective | app.py:224 | distinct numbers have distinct decimal forms |
| Numerals.IntToDecimalParses | app.py:86 | `int()` of the decimal form of any integer, negative ones included, gives that integer |
| Numerals.ParseIntIgnoresSpaces | app.py:86 | `int()` ignores surrounding whitespace around a numeral |
| Numerals.LettersDoNotParse | app.py:86 | `int("abc")` raises |
| Json.GetFindsKey | app.py:75-79 | a key lookup succeeds exactly when the key is present, so `in` and `.get` agree |
| Json.GetIsMember | app.py:79 | the value a lookup returns is bound to that key in the object |
| JsonText.DecodeEncode | app.py:90 | decoding the text that `json.dumps` wrote gives back the value |
| JsonText.DecodeEmpty | app.py:127 | empty text does not decode |
| JsonText.DecodeRejectsTrailing | app.py:127 | in the model's text format, encoded text followed by any non-empty text does not decode; after a number, text that does not start with a digit |
| JsonText.DigitsAfterNumberExtendIt | app.py:127 | `5` followed by `7` decodes as 57, so the number case of `DecodeRejectsTrailing` needs its condition |
| AdminGate.QueryGrants | app.py:98-101 | the query check lets the request through exactly when the code is present, non-empty and equal to the admin code |
| AdminGate.JsonGate | app.py:104-109 | the body check hands on the body exactly when it is an object whose `code` is the non-empty admin code; a truthy body that is not an object raises instead of refusing |
| Store.UnsignedSeedFits | app.py:38-39 | every seed in [0, 2^32-1] fits the BigInteger seed column |
| Store.ReadWrittenAnswers | app.py:127 | the listing's permissive read returns what the insert wrote |
| Store.RecordOfStored | app.py:127-140 | the listing record of a row written from a submission carries that submission's fields and answers |
| Store.SubmissionStore.constructor | app.py:33-45 | a new table is empty and its keys start at 1 |
| Store.SubmissionStore.Insert | app.py:82-93 | an insert whose values fit the columns, while the `id` sequence still has a key left (at most 2^31 - 1), appends exactly one row with a fresh key larger than every existing key; otherwise the table is unchanged |
| Store.SubmissionStore.InsertBatch | app.py:199-232 | the transaction appends every row of the batch with consecutive fresh keys, or, when one does not fit or the `id` sequence runs out before the last row, rolls back and leaves the table unchanged |
| Store.SubmissionStore.ListAll | app.py:117-143 | one record per stored row, in ascending key order, none dropped; a row whose answers text is empty or does not decode is still listed, with answers `[]`, and any other row with its decoded answers |
| Store.SubmissionStore.Clear | app.py:150-151 | the table becomes empty; the key sequence is not reset |
| TestData.ComparisonsClamped | app.py:189-191 | the comparison count stays 15, which the 18-entry catalog can supply |
| TestData.CatalogPairIdsDistinct | app.py:165-187 | no two catalog entries share a pair id |
| TestData.AnswerObjectFields | app.py:212-219 | a synthetic answer object carries its comparison number, its pair id and its answer |
| TestData.BuildAnswers | app.py:210-220 | the loop produces one answer per sampled pair, the k-th numbered k+1 and built from the k-th sampled catalog entry and the k-th pick |
| TestData.SubmissionIdsDistinct | app.py:224 | `test-{i+1}-{ts}` differs for different `i` within one batch |
| TestData.SyntheticRowShape | app.py:200-229 | a synthetic row has the batch's submission id and start time, a duration in [60, 600], a seed in [1, 2^32-1], and answers text that decodes to the synthetic answers |
| TestData.SyntheticAnswersNumbered | app.py:211-218 | a synthetic row has 15 answers numbered 1 to 15 in order, each with an answer in {0, 1, 2} |
| TestData.SyntheticPairsDistinct | app.py:208-215 | no two answers of one synthetic row use the same catalog pair |
| TestData.SyntheticRowFits | app.py:222-231 | a synthetic row fits every column when its timestamps have at most 64 characters and its id `test-{i+1}-{ts}` at most 255, that is, when the numerals of `i+1` and of the epoch seconds together have at most 249 characters |
| TestData.BuildBatch | app.py:200-232 | the loop builds `max(total, 0)` rows, the i-th being the synthetic row for draw i |
| TestData.BatchIdsDistinct | app.py:224 | the submission ids within one batch are pairwise distinct |
| Api.Submit | app.py:68-95 | a refused payload answers 400 with its message and leaves the table alone; an accepted one that fits, with a key left in the `id` sequence, appends exactly one row and nothing else changes; otherwise 500 and the table is unchanged |
| Api.AdminData | app.py:112-143 | without the admin code, 403; with it, the listing of every row in ascending key order |
| Api.AdminClear | app.py:146-153 | without the admin code the table is untouched (403, or 500 for a non-object body); with it the table is emptied |
| Api.CountDefaultsToFive | app.py:158-160 | a granted body without a `count` generates the default five rows |
| Api.IntegerCountRows | app.py:158-160 | a granted body whose `count` is the integer `n` takes `total` as `n`, so `range(total)` generates `max(n, 0)` rows |
| Api.AdminGenerateTest | app.py:156-234 | without the admin code the table is untouched; with it, `max(total, 0)` synthetic rows are appended with consecutive fresh keys and the response echoes `total`; a row that does not fit, or too few keys left in the `id` sequence, rolls everything back |
| Api.SubmitListClear | app.py:68-153 | a valid submission comes back from the admin listing with every field as submitted; after a clear the listing is empty; a later submission gets a strictly larger key |

## Left out

- Flask routing, the static `index` route and `app.run` (app.py:62-65, 237-239) are web I/O. The handlers take the decoded body or query parameter and return a `Response`.
- The SQLAlchemy engine, its connections, the `init_db` migration and `create_all` (app.py:30, 48-59) are a foreign library and DDL. The table is a sequence in a class, and a transaction is one atomic append.
- The `DATABASE_URL` check and the reading of `ADMIN_CODE` (app.py:21-25) are process bootstrap. The admin code is a parameter, and its default is the constant `AdminGate.DefaultAdminCode`.
- `datetime.utcnow`, `isoformat` and `timestamp()` (app.py:91, 198-203, 224-227) read the clock. Creation times, the formatted start and end times and the epoch seconds come in as parameters.
- Python's `random` (app.py:193-196, 202, 208, 218, 225) is not modelled. Its results come in as `TestData.Draw` records whose ranges `TestData.ValidDraw` states.
- TestData.SyntheticRow: the end time is a drawn parameter. The model does not tie its text to start plus duration, because that is calendar arithmetic.
- Api.AdminGenerateTest: each row's `created_at` comes from its draw, one per row. The model does not capture that these are successive readings of the clock, so it does not promise that they are non-decreasing.
- The concrete text of `json.dumps` and `ensure_ascii=False` are not modelled. `JsonText` uses its own compact format, escaping only `"` and `\`. Only the round trip and the partiality of decoding are relied on. Its decoder accepts a different set of texts than `json.loads`: it allows no whitespace between or around tokens, accepts leading zeros (`05` reads as 5), accepts raw control characters inside strings, and knows no escapes besides `\"` and `\\` (no `\n`, no `\u`).
- Floating-point JSON numbers are not modelled: the JSON values have integers only.
- `int()` on a string accepts ASCII whitespace, an optional sign and ASCII digits. Underscore separators, non-ASCII digits and non-ASCII whitespace are not modelled. For example, Python reads `"\u00a05"` as 5, but the model refuses it, so the model answers 500 where the handler stores the seed.
- Python's limit of 4300 digits on `int()` of text and on `str()` of an integer is not modelled. The model reads a longer numeral, leading zeros included, where `int()` raises and the handler answers 500. So `Numerals.IntToDecimalParses` and `Py.IntSurvivesStr` hold for every integer in the model, while Python holds them only within that limit.
- Strings holding lone surrogates (JSON `"\ud800"`) cannot be expressed, because a Dafny `char` is never a surrogate. The handler cannot encode such a string for the database and answers 500.
- `str()` of a list or an object follows `repr`, with ASCII escapes. The printability rules for non-ASCII characters are not modelled.
- A JSON object with a repeated key keeps both members. Lookups take the last one, as `json.loads` does, but the object is not collapsed.
- A submission id that is not a JSON string is refused by the store. Database drivers may instead cast it to text, and this model does not follow them.
- A failed insert does not advance `nextId`. Postgres would leave a gap in the sequence. Only freshness and order of keys are modelled, not their exact values after a failure.
- `ORDER BY id` is not modelled as a sort. Rows are kept in insertion order, and the store maintains ascending keys as an invariant, so the listing is in key order.
- Postgres refuses a NUL character in a text column. `ColumnsFit` does not check for one, so a submission id or timestamp holding `\u0000` is stored by the model, where the handler answers 500.
- Postgres truncates, rather than refuses, a String(255) or String(64) value whose characters beyond the width are all spaces. The model refuses every over-long value.
- Concurrent requests are not modelled: each handler runs alone against the store.
