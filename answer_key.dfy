/**
  The answer key across the two routes: `create_quiz` stores each question's
  key as text (backend/app/routes/admin.py) and `submit_quiz` reads it back
  as a single UUID (backend/app/routes/quiz.py).
*/
module AnswerKey {
  import opened Optional
  import opened Uuids
  import opened Schemas
  import opened Models
  import opened QuizRoutes
  import opened AdminRoutes

  /** The first row with a given id among freshly created rows is the row of the first question with that id. */
  lemma {:induction false} FindCreated(quizId: Uuid, qs: seq<QuestionInDB>, k: nat)
    requires k < |qs|
    requires forall j :: 0 <= j < k ==> qs[j].id != qs[k].id
    ensures FindQuestion(QuestionRows(quizId, qs), qs[k].id) == Some(QuestionRowOf(quizId, qs[k]))
  {
    var rows := QuestionRows(quizId, qs);
    if k > 0 {
      assert rows[1..] == QuestionRows(quizId, qs[1..]);
      FindCreated(quizId, qs[1..], k - 1);
    }
  }

  /**
    After an accepted `create_quiz`, an answer to one of its questions (whose
    id was not in the table before and not used by an earlier question of the
    quiz) is judged, never skipped or failed, and it is correct exactly when
    the question's one correct option is among the selected ids.
  */
  lemma CreatedQuestionIsScored(db: Db, quiz: QuizInDB, k: nat, selected: seq<Uuid>)
    requires QuizInDBValid(quiz) && k < |quiz.questions|
    requires forall r :: r in db.questions ==> r.id != quiz.questions[k].id
    requires forall j :: 0 <= j < k ==> quiz.questions[j].id != quiz.questions[k].id
    ensures var q := quiz.questions[k];
      var c := q.options[CorrectPosition(q.options)].id;
      Judge(db.questions + QuestionRows(quiz.id, quiz.questions), AnswerSubmission(q.id, selected))
        == Judged(QuestionResult(q.id, c in selected, Some([c])))
  {
    var q := quiz.questions[k];
    var rows := QuestionRows(quiz.id, quiz.questions);
    FindQuestionAppend(db.questions, rows, q.id);
    FindCreated(quiz.id, quiz.questions, k);
    StoredKeyReadsBack(q);
  }

  /** The same answer, stated over options: correct exactly when it selects an option flagged correct. */
  lemma CreatedQuestionCorrectIff(db: Db, quiz: QuizInDB, k: nat, selected: seq<Uuid>)
    requires QuizInDBValid(quiz) && k < |quiz.questions|
    requires forall r :: r in db.questions ==> r.id != quiz.questions[k].id
    requires forall j :: 0 <= j < k ==> quiz.questions[j].id != quiz.questions[k].id
    ensures var q := quiz.questions[k];
      var j := Judge(db.questions + QuestionRows(quiz.id, quiz.questions), AnswerSubmission(q.id, selected));
      j.Judged? && (j.result.correct <==> exists o :: o in q.options && o.isCorrect && o.id in selected)
  {
    var q := quiz.questions[k];
    var p := CorrectPosition(q.options);
    CreatedQuestionIsScored(db, quiz, k, selected);
    if exists o :: o in q.options && o.isCorrect && o.id in selected {
      var o :| o in q.options && o.isCorrect && o.id in selected;
      var i :| 0 <= i < |q.options| && q.options[i] == o;
      assert i == p;
    }
  }
}
