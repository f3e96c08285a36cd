/**
  The request, storage and response shapes of the back end
  (backend/app/schemas.py) and the conditions under which each is accepted:
  field bounds and the validators, written as predicates.
*/
module Schemas {
  import opened Optional
  import opened Strings
  import opened Sequences
  import opened Uuids

  /** `min_length <= len(s) <= max_length`. */
  predicate LengthIn(s: string, lo: nat, hi: nat) {
    lo <= |s| <= hi
  }

  // ---------------------------------------------------------------------------
  // Authoring input

  datatype OptionCreate = OptionCreate(text: string)

  datatype QuestionCreate = QuestionCreate(text: string, options: seq<OptionCreate>, multipleChoice: bool, points: int)

  datatype QuizCreate = QuizCreate(title: string, description: Option<string>, questions: seq<QuestionCreate>, published: bool)

  predicate OptionCreateValid(o: OptionCreate) {
    LengthIn(o.text, 1, 500)
  }

  /** `[o.text.strip() for o in v]`. */
  function StrippedTexts(options: seq<OptionCreate>): (r: seq<string>)
    ensures |r| == |options|
    ensures forall i :: 0 <= i < |r| ==> r[i] == Strip(options[i].text)
  {
    seq(|options|, i requires 0 <= i < |options| => Strip(options[i].text))
  }

  /** `unique_option_texts`: no two options have the same text once stripped. */
  predicate UniqueOptionTexts(options: seq<OptionCreate>) {
    |ToSet(StrippedTexts(options))| == |StrippedTexts(options)|
  }

  /** The set-size test accepts exactly the option lists whose stripped texts are pairwise different. */
  lemma UniqueOptionTextsMeansDistinct(options: seq<OptionCreate>)
    ensures UniqueOptionTexts(options) <==>
      forall i, j :: 0 <= i < j < |options| ==> Strip(options[i].text) != Strip(options[j].text)
  {
    SetSizeIffDistinct(StrippedTexts(options));
  }

  predicate QuestionCreateValid(q: QuestionCreate) {
    && LengthIn(q.text, 1, 1000)
    && 2 <= |q.options| <= 50
    && (forall i :: 0 <= i < |q.options| ==> OptionCreateValid(q.options[i]))
    && UniqueOptionTexts(q.options)
    && q.points >= 0
  }

  /** `validate_questions_points`: `values.get("questions") or []` must be non-empty. */
  predicate RootValidatorPasses(questions: seq<QuestionCreate>) {
    questions != []
  }

  predicate QuizCreateValid(q: QuizCreate) {
    && LengthIn(q.title, 1, 300)
    && (q.description.Some? ==> |q.description.value| <= 2000)
    && |q.questions| >= 1
    && (forall i :: 0 <= i < |q.questions| ==> QuestionCreateValid(q.questions[i]))
    && RootValidatorPasses(q.questions)
  }

  /** The root validator never rejects what the field constraints accepted: `min_items=1` already holds. */
  lemma RootValidatorRedundant(q: QuizCreate)
    requires |q.questions| >= 1
    ensures RootValidatorPasses(q.questions)
  {
  }

  /** Two options whose texts differ only by surrounding spaces make a question invalid. */
  lemma SpacedDuplicateRejected(a: string)
    requires LengthIn(a, 1, 498)
    ensures !QuestionCreateValid(QuestionCreate("Q", [OptionCreate(a), OptionCreate(" " + a + " ")], false, 1))
  {
    var opts := [OptionCreate(a), OptionCreate(" " + a + " ")];
    StripSpaced(a);
    assert Strip(opts[0].text) == Strip(opts[1].text);
    UniqueOptionTextsMeansDistinct(opts);
    assert !UniqueOptionTexts(opts);
  }

  lemma StripSpaced(a: string)
    ensures Strip(" " + a + " ") == Strip(a)
  {
    assert (" " + a + " ")[0] == ' ';
    assert (" " + a + " ")[1..] == a + " ";
    assert TrimStart(" " + a + " ", PyWhitespace) == TrimStart(a + " ", PyWhitespace);
    StripTrailingSpace(a);
  }

  /** A trailing space does not survive `strip()`. */
  lemma StripTrailingSpace(a: string)
    ensures Strip(a + " ") == Strip(a)
  {
    var x := TrimStart(a, PyWhitespace);
    TrimStartAppend(a, " ");
    if x == [] {
      assert TrimStart(a + " ", PyWhitespace) == [];
    } else {
      assert TrimStart(a + " ", PyWhitespace) == x + " ";
      TrimEndSpace(x);
    }
  }

  lemma TrimEndSpace(x: string)
    ensures TrimEnd(x + " ", PyWhitespace) == TrimEnd(x, PyWhitespace)
  {
    assert (x + " ")[..|x|] == x;
  }

  /** Leading whitespace is removed the same way whatever follows, as long as it ends in whitespace. */
  lemma {:induction false} TrimStartAppend(a: string, b: string)
    requires b != [] && b[0] in PyWhitespace && forall i :: 0 <= i < |b| ==> b[i] in PyWhitespace
    ensures TrimStart(a, PyWhitespace) != [] ==> TrimStart(a + b, PyWhitespace) == TrimStart(a, PyWhitespace) + b
    ensures TrimStart(a, PyWhitespace) == [] ==> TrimStart(a + b, PyWhitespace) == []
  {
    if a == [] {
      assert a + b == b;
      AllWhitespaceTrimStart(b);
    } else {
      assert (a + b)[0] == a[0] && (a + b)[1..] == a[1..] + b;
      if a[0] in PyWhitespace {
        TrimStartAppend(a[1..], b);
      }
    }
  }

  lemma {:induction false} AllWhitespaceTrimStart(b: string)
    requires forall i :: 0 <= i < |b| ==> b[i] in PyWhitespace
    ensures TrimStart(b, PyWhitespace) == []
  {
    if b != [] {
      AllWhitespaceTrimStart(b[1..]);
    }
  }

  // ---------------------------------------------------------------------------
  // Public (answer-free) shapes

  datatype OptionPublic = OptionPublic(id: Uuid, text: string)

  datatype QuestionPublic = QuestionPublic(id: Uuid, text: string, options: seq<OptionPublic>, multipleChoice: bool, points: int)

  datatype QuizPublic = QuizPublic(id: Uuid, title: string, description: Option<string>, questions: seq<QuestionPublic>)

  predicate OptionPublicValid(o: OptionPublic) {
    LengthIn(o.text, 1, 500)
  }

  predicate QuestionPublicValid(q: QuestionPublic) {
    && LengthIn(q.text, 1, 1000)
    && |q.options| >= 2
    && (forall i :: 0 <= i < |q.options| ==> OptionPublicValid(q.options[i]))
    && q.points >= 0
  }

  predicate QuizPublicValid(q: QuizPublic) {
    && LengthIn(q.title, 1, 300)
    && (q.description.Some? ==> |q.description.value| <= 2000)
    && |q.questions| >= 1
    && (forall i :: 0 <= i < |q.questions| ==> QuestionPublicValid(q.questions[i]))
  }

  /** `sum(q.points for q in questions)`. */
  function SumPoints(questions: seq<QuestionPublic>): int {
    if questions == [] then 0 else SumPoints(questions[..|questions| - 1]) + questions[|questions| - 1].points
  }

  /** `total_points` of a valid public quiz is at least 0. */
  function TotalPoints(q: QuizPublic): (t: int)
    requires QuizPublicValid(q)
    ensures t >= 0
  {
    SumPointsNonNegative(q.questions);
    SumPoints(q.questions)
  }

  lemma {:induction false} SumPointsNonNegative(questions: seq<QuestionPublic>)
    requires forall i :: 0 <= i < |questions| ==> questions[i].points >= 0
    ensures SumPoints(questions) >= 0
  {
    if questions != [] {
      SumPointsNonNegative(questions[..|questions| - 1]);
    }
  }

  /** When every question is worth one point, the total is the number of questions. */
  lemma {:induction false} SumPointsOfOnes(questions: seq<QuestionPublic>)
    requires forall i :: 0 <= i < |questions| ==> questions[i].points == 1
    ensures SumPoints(questions) == |questions|
  {
    if questions != [] {
      SumPointsOfOnes(questions[..|questions| - 1]);
    }
  }

  // ---------------------------------------------------------------------------
  // Stored shapes, with correctness flags

  datatype OptionInDB = OptionInDB(id: Uuid, text: string, isCorrect: bool)

  datatype QuestionInDB = QuestionInDB(id: Uuid, text: string, options: seq<OptionInDB>, multipleChoice: bool, points: int)

  datatype QuizInDB = QuizInDB(id: Uuid, title: string, questions: seq<QuestionInDB>, published: bool)

  /** `sum(1 for o in v if o.is_correct)`. */
  function CorrectCount(options: seq<OptionInDB>): (n: nat)
    ensures n <= |options|
  {
    if options == [] then 0
    else CorrectCount(options[..|options| - 1]) + (if options[|options| - 1].isCorrect then 1 else 0)
  }

  /**
    `ensure_at_least_one_correct_for_question` given the `multiple` flag it
    reads: at least one correct option when set, exactly one otherwise.
  */
  predicate CorrectOptionsAccepted(options: seq<OptionInDB>, multiple: bool) {
    if multiple then CorrectCount(options) >= 1 else CorrectCount(options) == 1
  }

  /**
    The `multiple` the validator of `options` reads: `values` holds only the
    fields declared before `options` (`id` and `text`), so the lookup of
    `multiple_choice` falls back to its default `False`.
  */
  function MultipleSeenByValidator(q: QuestionInDB): bool {
    false
  }

  predicate OptionInDBValid(o: OptionInDB) {
    LengthIn(o.text, 1, 500)
  }

  predicate QuestionInDBValid(q: QuestionInDB) {
    && LengthIn(q.text, 1, 1000)
    && |q.options| >= 2
    && (forall i :: 0 <= i < |q.options| ==> OptionInDBValid(q.options[i]))
    && CorrectOptionsAccepted(q.options, MultipleSeenByValidator(q))
    && q.points >= 0
  }

  /** `QuizInDB` puts no bound on its title or on the number of its questions. */
  predicate QuizInDBValid(q: QuizInDB) {
    forall i :: 0 <= i < |q.questions| ==> QuestionInDBValid(q.questions[i])
  }

  /** Whatever `multiple_choice` says, a stored question has exactly one correct option. */
  lemma ExactlyOneCorrect(q: QuestionInDB)
    requires QuestionInDBValid(q)
    ensures CorrectCount(q.options) == 1
  {
  }

  /** A multiple-choice question with two correct options is refused. */
  lemma TwoCorrectRefused(a: Uuid, b: Uuid)
    ensures !QuestionInDBValid(QuestionInDB(a, "Q", [OptionInDB(a, "x", true), OptionInDB(b, "y", true)], true, 1))
  {
    var opts := [OptionInDB(a, "x", true), OptionInDB(b, "y", true)];
    assert opts[..1] == [OptionInDB(a, "x", true)];
    assert CorrectCount(opts) == 2;
  }

  /** The position of the only correct option. */
  function CorrectPosition(options: seq<OptionInDB>): (k: nat)
    requires CorrectCount(options) == 1
    ensures k < |options| && options[k].isCorrect
    ensures forall j :: 0 <= j < |options| && j != k ==> !options[j].isCorrect
  {
    var n := |options| - 1;
    if options[n].isCorrect then
      NoneCorrect(options[..n]);
      n
    else
      var k := CorrectPosition(options[..n]);
      assert options[..n][k] == options[k];
      assert forall j :: 0 <= j < n ==> options[..n][j] == options[j];
      k
  }

  lemma {:induction false} NoneCorrect(options: seq<OptionInDB>)
    requires CorrectCount(options) == 0
    ensures forall j :: 0 <= j < |options| ==> !options[j].isCorrect
  {
    if options != [] {
      var n := |options| - 1;
      NoneCorrect(options[..n]);
      assert forall j :: 0 <= j < n ==> options[..n][j] == options[j];
    }
  }

  // ---------------------------------------------------------------------------
  // Submissions and results

  datatype AnswerSubmission = AnswerSubmission(questionId: Uuid, selectedOptionIds: seq<Uuid>)

  datatype QuizSubmission = QuizSubmission(quizId: Uuid, answers: seq<AnswerSubmission>)

  /** `min_items=1` and `unique_selected_options`. */
  predicate AnswerSubmissionValid(a: AnswerSubmission) {
    |a.selectedOptionIds| >= 1 && |ToSet(a.selectedOptionIds)| == |a.selectedOptionIds|
  }

  /** `[a.question_id for a in v]`. */
  function QuestionIds(answers: seq<AnswerSubmission>): (r: seq<Uuid>)
    ensures |r| == |answers|
    ensures forall i :: 0 <= i < |r| ==> r[i] == answers[i].questionId
  {
    seq(|answers|, i requires 0 <= i < |answers| => answers[i].questionId)
  }

  /** `min_items=1`, valid answers and `unique_questions`. */
  predicate QuizSubmissionValid(s: QuizSubmission) {
    && |s.answers| >= 1
    && (forall i :: 0 <= i < |s.answers| ==> AnswerSubmissionValid(s.answers[i]))
    && |ToSet(QuestionIds(s.answers))| == |s.answers|
  }

  /** An accepted submission answers at least one question, no question twice, and repeats no selection. */
  lemma SubmissionValidMeans(s: QuizSubmission)
    requires QuizSubmissionValid(s)
    ensures |s.answers| >= 1
    ensures forall i, j :: 0 <= i < j < |s.answers| ==> s.answers[i].questionId != s.answers[j].questionId
    ensures forall k :: 0 <= k < |s.answers| ==> |s.answers[k].selectedOptionIds| >= 1 && Distinct(s.answers[k].selectedOptionIds)
  {
    SetSizeIffDistinct(QuestionIds(s.answers));
    forall k | 0 <= k < |s.answers| ensures Distinct(s.answers[k].selectedOptionIds) {
      SetSizeIffDistinct(s.answers[k].selectedOptionIds);
    }
  }

  /** A `QuestionResult` without its point fields (see the README). */
  datatype QuestionResult = QuestionResult(questionId: Uuid, correct: bool, correctOptionIds: Option<seq<Uuid>>)

  datatype QuizSubmissionResult = QuizSubmissionResult(quizId: Uuid, totalScore: int, maxScore: int, perQuestion: seq<QuestionResult>)

  predicate QuizSubmissionResultValid(r: QuizSubmissionResult) {
    r.totalScore >= 0 && r.maxScore >= 0
  }
}
