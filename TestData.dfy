/**
 * The synthetic submissions of `api_admin_generate_test`. The random draws
 * of the handler (`random.randint`, `random.sample`) and the clock arrive
 * as parameters; what the model keeps is how rows are built from them.
 */
module TestData {
  import opened Wrappers
  import opened Json
  import Numerals
  import JsonText
  import Submission
  import Store

  /** One entry of the fixed catalog of audio comparisons. */
  datatype Pair = Pair(pairId: string, audio1: string, audio2: string)

  /** `real_pairs`: the same comparisons the study front end uses. */
  const Catalog: seq<Pair> := [
    Pair("bohemian_orig_vs_32", "audio/Bohemian_Original.wav", "audio/Bohemian_32.wav"),
    Pair("bohemian_orig_vs_64", "audio/Bohemian_Original.wav", "audio/Bohemian_64.wav"),
    Pair("bohemian_128_vs_orig", "audio/Bohemian_128.wav", "audio/Bohemian_Original.wav"),
    Pair("bohemian_224_vs_orig", "audio/Bohemian_224.wav", "audio/Bohemian_Original.wav"),
    Pair("bohemian_320_vs_orig", "audio/Bohemian_320.wav", "audio/Bohemian_Original.wav"),
    Pair("bohemian_orig_vs_orig", "audio/Bohemian_Original.wav", "audio/Bohemian_Original.wav"),
    Pair("conan_32_vs_orig", "audio/Conan_32.wav", "audio/Conan_Original.wav"),
    Pair("conan_orig_vs_64", "audio/Conan_Original.wav", "audio/Conan_64.wav"),
    Pair("conan_orig_vs_128", "audio/Conan_Original.wav", "audio/Conan_128.wav"),
    Pair("conan_224_vs_orig", "audio/Conan_224.wav", "audio/Conan_Original.wav"),
    Pair("conan_320_vs_orig", "audio/Conan_320.wav", "audio/Conan_Original.wav"),
    Pair("conan_orig_vs_orig", "audio/Conan_Original.wav", "audio/Conan_Original.wav"),
    Pair("tomsdiner_orig_vs_32", "audio/TomsDiner_Original.wav", "audio/TomsDiner_32.wav"),
    Pair("tomsdiner_64_vs_orig", "audio/TomsDiner_64.wav", "audio/TomsDiner_Original.wav"),
    Pair("tomsdiner_128_vs_orig", "audio/TomsDiner_128.wav", "audio/TomsDiner_Original.wav"),
    Pair("tomsdiner_orig_vs_224", "audio/TomsDiner_Original.wav", "audio/TomsDiner_224.wav"),
    Pair("tomsdiner_320_vs_orig", "audio/TomsDiner_320.wav", "audio/TomsDiner_Original.wav"),
    Pair("tomsdiner_orig_vs_orig", "audio/TomsDiner_Original.wav", "audio/TomsDiner_Original.wav")
  ]

  /** `count` when the request does not give one. */
  const DefaultCount := 5

  /** `total_comparisons` before the safety clamp. */
  const RequestedComparisons := 15

  /** `total_comparisons` after it: never more than the catalog holds. */
  const Comparisons: nat := if RequestedComparisons > |Catalog| then |Catalog| else RequestedComparisons

  /** The clamp keeps the requested 15, and a sample that size can be drawn. */
  lemma ComparisonsClamped()
    ensures Comparisons == RequestedComparisons && Comparisons <= |Catalog|
  {
  }

  /** No two catalog entries share a pair id. */
  lemma CatalogPairIdsDistinct()
    ensures forall i, j :: 0 <= i < j < |Catalog| ==> Catalog[i].pairId != Catalog[j].pairId
  {
  }

  predicate Distinct(xs: seq<int>)
  {
    forall i, j :: 0 <= i < j < |xs| ==> xs[i] != xs[j]
  }

  /**
   * The random values one synthetic submission consumes: its duration, its
   * sample of catalog positions, one answer per comparison, its seed; and
   * the clock readings that go with it (the formatted end time and the
   * creation time).
   */
  datatype Draw = Draw(
    duration: int,
    sample: seq<int>,
    picks: seq<int>,
    seed: int,
    endText: string,
    createdAt: string)

  /**
   * What the handler's random calls can return: `rand_int(60, 600)`,
   * `random.sample(real_pairs, total_comparisons)` (distinct positions),
   * `rand_int(0, 2)` per comparison and `rand_int(1, 2**32 - 1)`.
   */
  predicate ValidDraw(d: Draw)
  {
    && 60 <= d.duration <= 600
    && |d.sample| == Comparisons
    && Distinct(d.sample)
    && (forall k :: 0 <= k < |d.sample| ==> 0 <= d.sample[k] < |Catalog|)
    && |d.picks| == Comparisons
    && (forall k :: 0 <= k < |d.picks| ==> 0 <= d.picks[k] <= 2)
    && 1 <= d.seed <= 0xFFFF_FFFF
  }

  /** One synthetic answer, with its members in the handler's order. */
  function AnswerObject(comparison: int, p: Pair, answer: int): Json
  {
    Object([
      Member("comparison", Int(comparison)),
      Member("pairId", Str(p.pairId)),
      Member("audio1", Str(p.audio1)),
      Member("audio2", Str(p.audio2)),
      Member("answer", Int(answer))])
  }

  /** The members of a synthetic answer, looked up by key. */
  lemma AnswerObjectFields(comparison: int, p: Pair, answer: int)
    ensures Get(AnswerObject(comparison, p, answer).members, "comparison") == Some(Int(comparison))
    ensures Get(AnswerObject(comparison, p, answer).members, "pairId") == Some(Str(p.pairId))
    ensures Get(AnswerObject(comparison, p, answer).members, "answer") == Some(Int(answer))
  {
    var ms := AnswerObject(comparison, p, answer).members;
    var m4, m3, m2 := ms[..4], ms[..3], ms[..2];
    assert m4[..3] == m3 && m3[..2] == m2 && m2[..1] == [ms[0]];
    assert Get(ms, "pairId") == Get(m4, "pairId") == Get(m3, "pairId") == Get(m2, "pairId");
    assert Get(ms, "comparison") == Get(m4, "comparison") == Get(m3, "comparison") == Get(m2, "comparison");
    assert Get(m2, "comparison") == Get([ms[0]], "comparison");
  }

  /**
   * The inner loop: `for idx, pair in enumerate(sampled_pairs, start=1)`,
   * appending one answer per sampled pair, numbered from 1.
   */
  method BuildAnswers(sample: seq<int>, picks: seq<int>) returns (answers: seq<Json>)
    requires |picks| == |sample|
    requires forall k :: 0 <= k < |sample| ==> 0 <= sample[k] < |Catalog|
    ensures |answers| == |sample|
    ensures forall k :: 0 <= k < |sample| ==>
      answers[k] == AnswerObject(k + 1, Catalog[sample[k]], picks[k])
  {
    answers := [];
    var idx := 1;
    while idx <= |sample|
      invariant 1 <= idx <= |sample| + 1
      invariant |answers| == idx - 1
      invariant forall k :: 0 <= k < idx - 1 ==>
        answers[k] == AnswerObject(k + 1, Catalog[sample[k]], picks[k])
    {
      var pair := Catalog[sample[idx - 1]];
      answers := answers + [AnswerObject(idx, pair, picks[idx - 1])];
      idx := idx + 1;
    }
  }

  /** The answers of one synthetic submission, as `BuildAnswers` builds them. */
  function AnswersOf(d: Draw): (answers: seq<Json>)
    requires |d.picks| == |d.sample|
    requires forall k :: 0 <= k < |d.sample| ==> 0 <= d.sample[k] < |Catalog|
    ensures |answers| == |d.sample|
    ensures forall k :: 0 <= k < |d.sample| ==>
      answers[k] == AnswerObject(k + 1, Catalog[d.sample[k]], d.picks[k])
  {
    seq(|d.sample|, k requires 0 <= k < |d.sample| => AnswerObject(k + 1, Catalog[d.sample[k]], d.picks[k]))
  }

  /** `f"test-{i + 1}-{int(start.timestamp())}"`. */
  function SubmissionIdFor(i: nat, epochSeconds: int): string
  {
    "test-" + Numerals.IntToDecimal(i + 1) + "-" + Numerals.IntToDecimal(epochSeconds)
  }

  /** Within one batch (one clock reading) no two rows share a submission id. */
  lemma SubmissionIdsDistinct(i: nat, j: nat, epochSeconds: int)
    requires i != j
    ensures SubmissionIdFor(i, epochSeconds) != SubmissionIdFor(j, epochSeconds)
  {
    var a, b := Numerals.IntToDecimal(i + 1), Numerals.IntToDecimal(j + 1);
    var t := "-" + Numerals.IntToDecimal(epochSeconds);
    assert a == Numerals.NatToDecimal(i + 1) && b == Numerals.NatToDecimal(j + 1);
    Numerals.DecimalValue(i + 1);
    Numerals.DecimalValue(j + 1);
    Numerals.SeparatedDigitsDiffer(a, b, t);
    IdText(i, epochSeconds);
    IdText(j, epochSeconds);
    PrefixKeepsDifference("test-", a + t, b + t);
  }

  lemma IdText(i: nat, epochSeconds: int)
    ensures SubmissionIdFor(i, epochSeconds) ==
      "test-" + (Numerals.IntToDecimal(i + 1) + ("-" + Numerals.IntToDecimal(epochSeconds)))
  {
  }

  lemma PrefixKeepsDifference(p: string, x: string, y: string)
    requires x != y
    ensures p + x != p + y
  {
    assert (p + x)[|p|..] == x && (p + y)[|p|..] == y;
  }

  /** The row for the `i`-th synthetic submission of a batch. */
  function SyntheticRow(i: nat, epochSeconds: int, startText: string, d: Draw): Submission.NewRow
    requires ValidDraw(d)
  {
    Submission.NewRow(
      Str(SubmissionIdFor(i, epochSeconds)),
      d.seed,
      startText,
      d.endText,
      d.duration,
      JsonText.Encode(List(AnswersOf(d))))
  }

  /**
   * What a synthetic row holds, read back: the batch's submission id and
   * start time, the draw's duration and seed (in the handler's ranges), and
   * answers text that decodes to exactly the synthetic answers.
   */
  lemma SyntheticRowShape(i: nat, epochSeconds: int, startText: string, d: Draw)
    requires ValidDraw(d)
    ensures
      var r := SyntheticRow(i, epochSeconds, startText, d);
      && r.submissionId == Str(SubmissionIdFor(i, epochSeconds))
      && 60 <= r.durationSeconds <= 600
      && 1 <= r.seed <= 0xFFFF_FFFF
      && r.timestampStart == startText
      && JsonText.Decode(r.answersText) == Some(List(AnswersOf(d)))
  {
    JsonText.DecodeEncode(List(AnswersOf(d)));
  }

  /**
   * The synthetic answers: exactly `Comparisons` of them, numbered 1, 2, ...
   * in order, each with an answer in {0, 1, 2}.
   */
  lemma SyntheticAnswersNumbered(d: Draw)
    requires ValidDraw(d)
    ensures |AnswersOf(d)| == Comparisons
    ensures forall k :: 0 <= k < Comparisons ==>
      && AnswersOf(d)[k].Object?
      && Get(AnswersOf(d)[k].members, "comparison") == Some(Int(k + 1))
      && Get(AnswersOf(d)[k].members, "answer") == Some(Int(d.picks[k]))
      && 0 <= d.picks[k] <= 2
  {
    forall k | 0 <= k < Comparisons
      ensures Get(AnswersOf(d)[k].members, "comparison") == Some(Int(k + 1))
      ensures Get(AnswersOf(d)[k].members, "answer") == Some(Int(d.picks[k]))
    {
      AnswerObjectFields(k + 1, Catalog[d.sample[k]], d.picks[k]);
    }
  }

  /** No catalog pair occurs twice among one submission's answers. */
  lemma SyntheticPairsDistinct(d: Draw)
    requires ValidDraw(d)
    ensures forall k, l :: 0 <= k < l < Comparisons ==>
      Get(AnswersOf(d)[k].members, "pairId") != Get(AnswersOf(d)[l].members, "pairId")
  {
    CatalogPairIdsDistinct();
    forall k, l | 0 <= k < l < Comparisons
      ensures Get(AnswersOf(d)[k].members, "pairId") != Get(AnswersOf(d)[l].members, "pairId")
    {
      var p, q := d.sample[k], d.sample[l];
      AnswerObjectFields(k + 1, Catalog[p], d.picks[k]);
      AnswerObjectFields(l + 1, Catalog[q], d.picks[l]);
      if p < q {
        assert Catalog[p].pairId != Catalog[q].pairId;
      } else {
        assert Catalog[q].pairId != Catalog[p].pairId;
      }
    }
  }

  /**
   * A synthetic row fits the columns whenever the clock's texts do and the
   * submission id stays within 255 characters.
   */
  lemma SyntheticRowFits(i: nat, epochSeconds: int, startText: string, d: Draw)
    requires ValidDraw(d)
    requires |startText| <= Store.TimestampWidth && |d.endText| <= Store.TimestampWidth
    requires |Numerals.IntToDecimal(i + 1)| + |Numerals.IntToDecimal(epochSeconds)| <= Store.SubmissionIdWidth - 6
    ensures Store.ColumnsFit(SyntheticRow(i, epochSeconds, startText, d))
  {
  }

  /** How many rows `range(total)` produces: `max(total, 0)`. */
  function RowCount(total: int): nat
  {
    if total > 0 then total else 0
  }

  /**
   * The outer loop: `for i in range(total)`, one synthetic row per
   * iteration; a non-positive `total` builds nothing.
   */
  method BuildBatch(total: int, epochSeconds: int, startText: string, draws: seq<Draw>)
    returns (batch: seq<Submission.NewRow>)
    requires |draws| >= total
    requires forall k :: 0 <= k < |draws| ==> ValidDraw(draws[k])
    ensures |batch| == RowCount(total)
    ensures forall i :: 0 <= i < |batch| ==> batch[i] == SyntheticRow(i, epochSeconds, startText, draws[i])
  {
    batch := [];
    var i := 0;
    while i < total
      invariant 0 <= i <= RowCount(total)
      invariant |batch| == i
      invariant forall k :: 0 <= k < i ==> batch[k] == SyntheticRow(k, epochSeconds, startText, draws[k])
    {
      var d := draws[i];
      var answers := BuildAnswers(d.sample, d.picks);
      assert answers == AnswersOf(d);
      var row := Submission.NewRow(
        Str(SubmissionIdFor(i, epochSeconds)),
        d.seed,
        startText,
        d.endText,
        d.duration,
        JsonText.Encode(List(answers)));
      batch := batch + [row];
      i := i + 1;
    }
  }

  /** The submission ids of one batch are pairwise distinct. */
  lemma BatchIdsDistinct(batch: seq<Submission.NewRow>, epochSeconds: int, startText: string, draws: seq<Draw>)
    requires |draws| >= |batch|
    requires forall k :: 0 <= k < |draws| ==> ValidDraw(draws[k])
    requires forall i :: 0 <= i < |batch| ==> batch[i] == SyntheticRow(i, epochSeconds, startText, draws[i])
    ensures forall i, j :: 0 <= i < j < |batch| ==> batch[i].submissionId != batch[j].submissionId
  {
    forall i, j | 0 <= i < j < |batch| ensures batch[i].submissionId != batch[j].submissionId {
      SubmissionIdsDistinct(i, j, epochSeconds);
    }
  }
}
