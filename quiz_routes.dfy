/**
  The quiz routes (backend/app/routes/quiz.py): the answer-free projection
  served by `get_quiz`, and the scoring loop of `submit_quiz`.
*/
module QuizRoutes {
  import opened Optional
  import opened Uuids
  import opened Schemas
  import opened Models

  // ---------------------------------------------------------------------------
  // GET /quiz/{quiz_id}

  /** `{"id": opt["id"], "text": opt["text"]}`: the correctness flag is dropped. */
  function PublicOption(o: OptionInDB): OptionPublic {
    OptionPublic(o.id, o.text)
  }

  /** A stored question as served: `multiple_choice` and `points` take their defaults. */
  function PublicQuestion(q: QuestionRow): (p: QuestionPublic)
    ensures p.id == q.id && p.text == q.questionText && !p.multipleChoice && p.points == 1
    ensures |p.options| == |q.options|
    ensures forall k :: 0 <= k < |p.options| ==> p.options[k] == OptionPublic(q.options[k].id, q.options[k].text)
  {
    QuestionPublic(q.id, q.questionText, seq(|q.options|, k requires 0 <= k < |q.options| => PublicOption(q.options[k])), false, 1)
  }

  function PublicQuestions(qs: seq<QuestionRow>): (r: seq<QuestionPublic>)
    ensures |r| == |qs|
    ensures forall k :: 0 <= k < |r| ==> r[k] == PublicQuestion(qs[k])
  {
    seq(|qs|, k requires 0 <= k < |qs| => PublicQuestion(qs[k]))
  }

  /** The `QuizPublic` built from the quiz row and its questions; no description is passed. */
  function Projection(quiz: QuizRow, qs: seq<QuestionRow>): QuizPublic {
    QuizPublic(quiz.id, quiz.title, None, PublicQuestions(qs))
  }

  /**
    `get_quiz`: 404 for an unknown quiz; otherwise the projection, which
    pydantic refuses (a 500) when it breaks a bound of `QuizPublic`.
  */
  function GetQuiz(db: Db, quizId: Uuid): (r: Outcome<QuizPublic>)
    ensures r == Failed(NotFound) <==> forall k :: 0 <= k < |db.quizzes| ==> db.quizzes[k].id != quizId
    ensures r.Ok? ==> QuizPublicValid(r.value) && r.value.id == quizId
    ensures FindQuiz(db.quizzes, quizId).Some? ==>
      var p := Projection(FindQuiz(db.quizzes, quizId).value, QuestionsOf(db.questions, quizId));
      r == if QuizPublicValid(p) then Ok(p) else Failed(ServerError)
    ensures r.Ok? ==> r.value.title == FindQuiz(db.quizzes, quizId).value.title && r.value.description.None?
  {
    match FindQuiz(db.quizzes, quizId)
    case None => Failed(NotFound)
    case Some(row) =>
      var p := Projection(row, QuestionsOf(db.questions, quizId));
      if QuizPublicValid(p) then Ok(p) else Failed(ServerError)
  }

  /** A served quiz lists its stored questions in table order, each with its options' ids and texts in order. */
  lemma GetQuizServes(db: Db, quizId: Uuid)
    requires GetQuiz(db, quizId).Ok?
    ensures var p, qs := GetQuiz(db, quizId).value, QuestionsOf(db.questions, quizId);
      && |p.questions| == |qs|
      && (forall k :: 0 <= k < |qs| ==> p.questions[k] == PublicQuestion(qs[k]))
      && TotalPoints(p) == |qs|
  {
    var p := GetQuiz(db, quizId).value;
    SumPointsOfOnes(p.questions);
  }

  /** A quiz without questions cannot be served: `QuizPublic` needs at least one. */
  lemma GetQuizWithoutQuestions(db: Db, quizId: Uuid)
    requires exists k :: 0 <= k < |db.quizzes| && db.quizzes[k].id == quizId
    requires QuestionsOf(db.questions, quizId) == []
    ensures GetQuiz(db, quizId) == Failed(ServerError)
  {
  }

  /** A question with its answer key and every correctness flag erased. */
  function Redact(q: QuestionRow): QuestionRow {
    q.(options := seq(|q.options|, k requires 0 <= k < |q.options| => q.options[k].(isCorrect := false)), correctAns := "")
  }

  function RedactAll(qs: seq<QuestionRow>): (r: seq<QuestionRow>)
    ensures |r| == |qs|
    ensures forall k :: 0 <= k < |r| ==> r[k] == Redact(qs[k])
  {
    seq(|qs|, k requires 0 <= k < |qs| => Redact(qs[k]))
  }

  lemma {:induction false} QuestionsOfRedacted(qs: seq<QuestionRow>, quizId: Uuid)
    ensures QuestionsOf(RedactAll(qs), quizId) == RedactAll(QuestionsOf(qs, quizId))
  {
    if qs != [] {
      var rest := qs[1..];
      var r := RedactAll(qs);
      assert r[0] == Redact(qs[0]) && r[0].quizId == qs[0].quizId;
      assert r[1..] == RedactAll(rest);
      QuestionsOfRedacted(rest, quizId);
      var head := if qs[0].quizId == quizId then [qs[0]] else [];
      assert QuestionsOf(qs, quizId) == head + QuestionsOf(rest, quizId);
      RedactAllAppend(head, QuestionsOf(rest, quizId));
    }
  }

  lemma RedactAllAppend(a: seq<QuestionRow>, b: seq<QuestionRow>)
    ensures RedactAll(a + b) == RedactAll(a) + RedactAll(b)
  {
  }

  /**
    The served quiz never depends on which options are correct: erasing every
    answer key and correctness flag from the table serves the same response.
  */
  lemma GetQuizHidesAnswers(db: Db, quizId: Uuid)
    ensures GetQuiz(db.(questions := RedactAll(db.questions)), quizId) == GetQuiz(db, quizId)
  {
    var qs := QuestionsOf(db.questions, quizId);
    QuestionsOfRedacted(db.questions, quizId);
    PublicQuestionsRedacted(qs);
    var db2 := db.(questions := RedactAll(db.questions));
    assert QuestionsOf(db2.questions, quizId) == RedactAll(qs);
    match FindQuiz(db.quizzes, quizId)
    case None =>
    case Some(row) =>
      assert Projection(row, QuestionsOf(db2.questions, quizId)) == Projection(row, qs);
  }

  lemma PublicQuestionsRedacted(qs: seq<QuestionRow>)
    ensures PublicQuestions(RedactAll(qs)) == PublicQuestions(qs)
  {
    forall k | 0 <= k < |qs| ensures PublicQuestion(Redact(qs[k])) == PublicQuestion(qs[k]) {
      var q := qs[k];
      assert PublicQuestion(Redact(q)).options == PublicQuestion(q).options;
    }
  }

  // ---------------------------------------------------------------------------
  // POST /quiz/{quiz_id}/submit

  /** What one answer contributes: nothing, a per-question result, or a stored key `UUID()` cannot read. */
  datatype Judgement = Skipped | Judged(result: QuestionResult) | BadKey

  /** One iteration of the scoring loop. */
  function Judge(questions: seq<QuestionRow>, a: AnswerSubmission): (j: Judgement)
    ensures j.Skipped? <==> FindQuestion(questions, a.questionId).None?
    ensures j.BadKey? <==> FindQuestion(questions, a.questionId).Some? && Parse(FindQuestion(questions, a.questionId).value.correctAns).None?
    ensures j.Judged? ==>
      var c := Parse(FindQuestion(questions, a.questionId).value.correctAns).value;
      && j.result.questionId == a.questionId
      && j.result.correctOptionIds == Some([c])
      && (j.result.correct <==> c in a.selectedOptionIds)
  {
    match FindQuestion(questions, a.questionId)
    case None => Skipped
    case Some(q) =>
      match Parse(q.correctAns)
      case None => BadKey
      case Some(c) => Judged(QuestionResult(a.questionId, c in a.selectedOptionIds, Some([c])))
  }

  /** The per-question results of a list of answers, or `None` once one stored key is unreadable. */
  function Results(questions: seq<QuestionRow>, answers: seq<AnswerSubmission>): Option<seq<QuestionResult>> {
    if answers == [] then Some([])
    else Extend(Results(questions, answers[..|answers| - 1]), Judge(questions, answers[|answers| - 1]))
  }

  /** The results so far followed by one more answer's contribution. */
  function Extend(so: Option<seq<QuestionResult>>, j: Judgement): Option<seq<QuestionResult>> {
    match so
    case None => None
    case Some(rs) =>
      match j
      case Skipped => Some(rs)
      case BadKey => None
      case Judged(r) => Some(rs + [r])
  }

  lemma ResultsSnoc(questions: seq<QuestionRow>, answers: seq<AnswerSubmission>, i: nat)
    requires i < |answers|
    ensures Results(questions, answers[..i + 1]) == Extend(Results(questions, answers[..i]), Judge(questions, answers[i]))
  {
    assert answers[..i + 1][..i] == answers[..i];
  }

  /** The number of results marked correct. */
  function CountCorrect(rs: seq<QuestionResult>): (n: nat)
    ensures n <= |rs|
  {
    if rs == [] then 0 else CountCorrect(rs[..|rs| - 1]) + (if rs[|rs| - 1].correct then 1 else 0)
  }

  /** What `submit_quiz` answers, request validation (422) first. */
  function SubmitOutcome(db: Db, quizId: Uuid, s: QuizSubmission): Outcome<QuizSubmissionResult> {
    if !QuizSubmissionValid(s) then Failed(Unprocessable)
    else if FindQuiz(db.quizzes, quizId).None? then Failed(NotFound)
    else match Results(db.questions, s.answers)
      case None => Failed(ServerError)
      case Some(rs) => Ok(QuizSubmissionResult(quizId, CountCorrect(rs), |s.answers|, rs))
  }

  lemma {:induction false} ResultsFailurePersists(questions: seq<QuestionRow>, answers: seq<AnswerSubmission>, i: nat)
    requires i <= |answers| && Results(questions, answers[..i]).None?
    ensures Results(questions, answers).None?
    decreases |answers| - i
  {
    if i < |answers| {
      ResultsSnoc(questions, answers, i);
      ResultsFailurePersists(questions, answers, i + 1);
    } else {
      assert answers[..i] == answers;
    }
  }

  /**
    `submit_quiz`: the answers are scored in submission order and, when every
    stored key is readable, the submission row is added with its score.
  */
  method SubmitQuiz(db: Db, quizId: Uuid, s: QuizSubmission) returns (out: Outcome<QuizSubmissionResult>, db': Db)
    ensures out == SubmitOutcome(db, quizId, s)
    ensures out.Ok? ==> db' == db.(submissions := db.submissions + [SubmissionRow(quizId, s.answers, out.value.totalScore)])
    ensures out.Failed? ==> db' == db
  {
    if !QuizSubmissionValid(s) {
      return Failed(Unprocessable), db;
    }
    var quiz := FindQuiz(db.quizzes, quizId);
    if quiz.None? {
      return Failed(NotFound), db;
    }
    var score := 0;
    var perQuestion := [];
    var i := 0;
    while i < |s.answers|
      invariant 0 <= i <= |s.answers|
      invariant Results(db.questions, s.answers[..i]) == Some(perQuestion)
      invariant score == CountCorrect(perQuestion)
    {
      var answer := s.answers[i];
      ResultsSnoc(db.questions, s.answers, i);
      var question := FindQuestion(db.questions, answer.questionId);
      if question.None? {
        i := i + 1;
        continue;
      }
      var correctOptionId := Parse(question.value.correctAns);
      if correctOptionId.None? {
        ResultsFailurePersists(db.questions, s.answers, i + 1);
        return Failed(ServerError), db;
      }
      var isCorrect := correctOptionId.value in answer.selectedOptionIds;
      if isCorrect {
        score := score + 1;
      }
      var entry := QuestionResult(answer.questionId, isCorrect, Some([correctOptionId.value]));
      assert Judge(db.questions, answer) == Judged(entry);
      assert (perQuestion + [entry])[..|perQuestion|] == perQuestion;
      perQuestion := perQuestion + [entry];
      i := i + 1;
    }
    assert s.answers[..i] == s.answers;
    out := Ok(QuizSubmissionResult(quizId, score, |s.answers|, perQuestion));
    db' := db.(submissions := db.submissions + [SubmissionRow(quizId, s.answers, score)]);
  }

  /** The answers whose question exists, in submission order. */
  function Found(questions: seq<QuestionRow>, answers: seq<AnswerSubmission>): (r: seq<AnswerSubmission>)
    ensures |r| <= |answers|
  {
    if answers == [] then []
    else
      var rest := Found(questions, answers[..|answers| - 1]);
      if FindQuestion(questions, answers[|answers| - 1].questionId).None? then rest else rest + [answers[|answers| - 1]]
  }

  /**
    Each per-question result belongs to one found answer, in submission order;
    answers to unknown questions leave no entry.
  */
  lemma {:induction false} ResultsFollowFound(questions: seq<QuestionRow>, answers: seq<AnswerSubmission>)
    requires Results(questions, answers).Some?
    ensures var rs, f := Results(questions, answers).value, Found(questions, answers);
      && |rs| == |f|
      && forall k :: 0 <= k < |rs| ==> Judge(questions, f[k]) == Judged(rs[k])
  {
    if answers != [] {
      var n := |answers| - 1;
      ResultsFollowFound(questions, answers[..n]);
    }
  }

  /**
    A successful submission scores one point per correct entry, never more
    entries than answers, and `max_score` counts every answer, skipped or not.
  */
  lemma SubmitScore(db: Db, quizId: Uuid, s: QuizSubmission)
    requires SubmitOutcome(db, quizId, s).Ok?
    ensures var r := SubmitOutcome(db, quizId, s).value;
      && r.quizId == quizId
      && r.totalScore == CountCorrect(r.perQuestion) <= |r.perQuestion| <= r.maxScore == |s.answers|
      && QuizSubmissionResultValid(r)
  {
    ResultsFollowFound(db.questions, s.answers);
  }

  /** Valid answers to an unknown quiz are refused with 404, and invalid ones with 422 before any lookup. */
  lemma SubmitErrors(db: Db, quizId: Uuid, s: QuizSubmission)
    ensures !QuizSubmissionValid(s) ==> SubmitOutcome(db, quizId, s) == Failed(Unprocessable)
    ensures QuizSubmissionValid(s) && (forall k :: 0 <= k < |db.quizzes| ==> db.quizzes[k].id != quizId) ==>
      SubmitOutcome(db, quizId, s) == Failed(NotFound)
  {
  }

  /** Selecting more options never turns a correct answer into a wrong one. */
  lemma ExtraSelectionsStayCorrect(questions: seq<QuestionRow>, a: AnswerSubmission, b: AnswerSubmission)
    requires a.questionId == b.questionId
    requires forall x :: x in a.selectedOptionIds ==> x in b.selectedOptionIds
    requires Judge(questions, a).Judged? && Judge(questions, a).result.correct
    ensures Judge(questions, b).Judged? && Judge(questions, b).result.correct
  {
  }
}
