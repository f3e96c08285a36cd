/**
  The stored tables (backend/app/models.py) as sequences of rows in insertion
  order, the first-match lookups the routes make on them, and the outcome of
  a route: a value, or an HTTP error status.
*/
module Models {
  import opened Optional
  import opened Uuids
  import opened Schemas

  datatype QuizRow = QuizRow(id: Uuid, title: string)

  /** A `questions` row; `options` holds each option's `dict()`: id, text and correctness flag. */
  datatype QuestionRow = QuestionRow(
    id: Uuid, quizId: Uuid, kind: string, questionText: string, options: seq<OptionInDB>, correctAns: string)

  datatype SubmissionRow = SubmissionRow(quizId: Uuid, answers: seq<AnswerSubmission>, score: int)

  datatype Db = Db(quizzes: seq<QuizRow>, questions: seq<QuestionRow>, submissions: seq<SubmissionRow>)

  /** What a route answers: its value, or the status of the error it raises. */
  datatype Outcome<T> = Ok(value: T) | Failed(status: nat)

  const Unauthorized: nat := 401
  const NotFound: nat := 404
  const Unprocessable: nat := 422
  const ServerError: nat := 500

  /**
    `.filter(<key> == id).first()`: the first row, in table order, whose key is
    `id`, and nothing when no row has it.
  */
  function FindFirst<T>(rows: seq<T>, key: T -> Uuid, id: Uuid): (r: Option<T>)
    ensures r.None? <==> forall k :: 0 <= k < |rows| ==> key(rows[k]) != id
    ensures r.Some? ==> key(r.value) == id && r.value == rows[FirstIndex(rows, key, id)]
  {
    if rows == [] then None
    else if key(rows[0]) == id then Some(rows[0])
    else FindFirst(rows[1..], key, id)
  }

  /** The position of the first row whose key is `id`. */
  function FirstIndex<T>(rows: seq<T>, key: T -> Uuid, id: Uuid): (k: nat)
    requires exists k :: 0 <= k < |rows| && key(rows[k]) == id
    ensures k < |rows| && key(rows[k]) == id
    ensures forall j :: 0 <= j < k ==> key(rows[j]) != id
  {
    if key(rows[0]) == id then 0
    else
      assert exists k :: 0 <= k < |rows[1..]| && key(rows[1..][k]) == id by {
        var k :| 0 <= k < |rows| && key(rows[k]) == id;
        assert rows[1..][k - 1] == rows[k];
      }
      1 + FirstIndex(rows[1..], key, id)
  }

  /** Rows added after the first match leave it where it was; after a miss the match is the new rows'. */
  lemma {:induction false} FindFirstAppend<T>(rows: seq<T>, more: seq<T>, key: T -> Uuid, id: Uuid)
    ensures FindFirst(rows, key, id).Some? ==> FindFirst(rows + more, key, id) == FindFirst(rows, key, id)
    ensures FindFirst(rows, key, id).None? ==> FindFirst(rows + more, key, id) == FindFirst(more, key, id)
  {
    if rows == [] {
      assert rows + more == more;
    } else {
      assert (rows + more)[0] == rows[0];
      assert (rows + more)[1..] == rows[1..] + more;
      FindFirstAppend(rows[1..], more, key, id);
    }
  }

  function QuizKey(q: QuizRow): Uuid { q.id }

  function QuestionKey(q: QuestionRow): Uuid { q.id }

  /** `query(Quiz).filter(Quiz.id == id).first()`. */
  function FindQuiz(quizzes: seq<QuizRow>, id: Uuid): Option<QuizRow> {
    FindFirst(quizzes, QuizKey, id)
  }

  /** `query(Question).filter(Question.id == id).first()`. */
  function FindQuestion(questions: seq<QuestionRow>, id: Uuid): Option<QuestionRow> {
    FindFirst(questions, QuestionKey, id)
  }

  /** The question lookup after more rows are added. */
  lemma FindQuestionAppend(questions: seq<QuestionRow>, more: seq<QuestionRow>, id: Uuid)
    ensures FindQuestion(questions, id).Some? ==> FindQuestion(questions + more, id) == FindQuestion(questions, id)
    ensures FindQuestion(questions, id).None? ==> FindQuestion(questions + more, id) == FindQuestion(more, id)
  {
    FindFirstAppend(questions, more, QuestionKey, id);
  }

  /** `query(Question).filter(Question.quiz_id == quizId).all()`, in table order. */
  function QuestionsOf(questions: seq<QuestionRow>, quizId: Uuid): (r: seq<QuestionRow>)
    ensures forall k :: 0 <= k < |r| ==> r[k].quizId == quizId && r[k] in questions
    ensures forall q :: q in questions && q.quizId == quizId ==> q in r
  {
    if questions == [] then []
    else (if questions[0].quizId == quizId then [questions[0]] else []) + QuestionsOf(questions[1..], quizId)
  }
}
