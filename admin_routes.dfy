/**
  The admin route (backend/app/routes/admin.py): the `x-admin-key` check and
  `create_quiz`, which stores one quiz row and one question row per question,
  with the question's answer key written as text.
*/
module AdminRoutes {
  import opened Optional
  import opened Uuids
  import opened Schemas
  import opened Models

  const DefaultAdminKey: string := "default_admin_key"

  /** `os.getenv("ADMIN_KEY", "default_admin_key")`, the environment passed in. */
  function AdminKey(env: Option<string>): string {
    env.GetOr(DefaultAdminKey)
  }

  /** `admin_auth`: `None` when the header matches the key, otherwise the 401 it raises. */
  function AdminAuth(header: string, env: Option<string>): (r: Option<nat>)
    ensures r == None || r == Some(Unauthorized)
  {
    if header != AdminKey(env) then Some(Unauthorized) else None
  }

  /** With `ADMIN_KEY` set, exactly that key is accepted; unset, exactly the default key. */
  lemma AdminAuthAccepts(header: string, env: Option<string>)
    ensures env.Some? ==> (AdminAuth(header, env).None? <==> header == env.value)
    ensures env.None? ==> (AdminAuth(header, env).None? <==> header == "default_admin_key")
    ensures AdminAuth(header, env) == Some(401) <==> header != AdminKey(env)
  {
  }

  /** The stored `type` of a question. */
  function Kind(multipleChoice: bool): (k: string)
    ensures k == "multiple_choice" <==> multipleChoice
    ensures k == "single_choice" <==> !multipleChoice
  {
    if multipleChoice then "multiple_choice" else "single_choice"
  }

  /** The ids of the correct options, in option order. */
  function CorrectIds(options: seq<OptionInDB>): (r: seq<Uuid>)
    ensures |r| == CorrectCount(options)
  {
    if options == [] then []
    else
      var rest := CorrectIds(options[..|options| - 1]);
      if options[|options| - 1].isCorrect then rest + [options[|options| - 1].id] else rest
  }

  /** With one correct option, its id is the only correct id. */
  lemma {:induction false} CorrectIdsOfOne(options: seq<OptionInDB>)
    requires CorrectCount(options) == 1
    ensures CorrectIds(options) == [options[CorrectPosition(options)].id]
  {
    var n := |options| - 1;
    var k := CorrectPosition(options);
    if !options[n].isCorrect {
      assert CorrectPosition(options[..n]) == k;
      CorrectIdsOfOne(options[..n]);
    } else {
      assert |CorrectIds(options[..n])| == 0;
    }
  }

  /** `",".join(str(option.id) for option in options if option.is_correct)`. */
  function EncodeKey(options: seq<OptionInDB>): string {
    Join(StrAll(CorrectIds(options)), ",")
  }

  /**
    The stored key reads back as a UUID exactly when one option is correct,
    and then it is that option's id; with none it is the empty string.
  */
  lemma EncodeKeyRoundTrip(options: seq<OptionInDB>)
    ensures Parse(EncodeKey(options)).Some? <==> CorrectCount(options) == 1
    ensures CorrectCount(options) == 1 ==> Parse(EncodeKey(options)) == Some(options[CorrectPosition(options)].id)
    ensures CorrectCount(options) == 0 ==> EncodeKey(options) == ""
  {
    ParseJoined(CorrectIds(options));
    if CorrectCount(options) == 1 {
      CorrectIdsOfOne(options);
    }
  }

  /** Every question `QuizInDB` accepts is stored with a key that reads back as its correct option's id. */
  lemma StoredKeyReadsBack(q: QuestionInDB)
    requires QuestionInDBValid(q)
    ensures Parse(EncodeKey(q.options)) == Some(q.options[CorrectPosition(q.options)].id)
  {
    ExactlyOneCorrect(q);
    EncodeKeyRoundTrip(q.options);
  }

  /** The row stored for one question of quiz `quizId`. */
  function QuestionRowOf(quizId: Uuid, q: QuestionInDB): (row: QuestionRow)
    ensures row.id == q.id && row.quizId == quizId && row.questionText == q.text && row.options == q.options
    ensures row.kind == "multiple_choice" <==> q.multipleChoice
    ensures row.correctAns == EncodeKey(q.options)
  {
    QuestionRow(q.id, quizId, Kind(q.multipleChoice), q.text, q.options, EncodeKey(q.options))
  }

  /** The rows stored for a quiz's questions, one per question, in order. */
  function QuestionRows(quizId: Uuid, qs: seq<QuestionInDB>): (rows: seq<QuestionRow>)
    ensures |rows| == |qs|
    ensures forall k :: 0 <= k < |rows| ==> rows[k] == QuestionRowOf(quizId, qs[k])
  {
    seq(|qs|, k requires 0 <= k < |qs| => QuestionRowOf(quizId, qs[k]))
  }

  /**
    `POST /admin/quiz`: a missing header is a 422, a wrong key a 401 (the
    dependency runs before the body is checked), an unacceptable body a 422;
    otherwise the quiz row and its question rows are added and the quiz id returned.
  */
  method CreateQuiz(db: Db, header: Option<string>, env: Option<string>, quiz: QuizInDB)
    returns (out: Outcome<Uuid>, db': Db)
    ensures header.None? ==> out == Failed(Unprocessable)
    ensures header.Some? && header.value != AdminKey(env) ==> out == Failed(Unauthorized)
    ensures header.Some? && header.value == AdminKey(env) && !QuizInDBValid(quiz) ==> out == Failed(Unprocessable)
    ensures out.Ok? <==> header == Some(AdminKey(env)) && QuizInDBValid(quiz)
    ensures out.Ok? ==> out.value == quiz.id
    ensures out.Ok? ==> db' == Db(db.quizzes + [QuizRow(quiz.id, quiz.title)],
                                  db.questions + QuestionRows(quiz.id, quiz.questions),
                                  db.submissions)
    ensures out.Failed? ==> db' == db
  {
    if header.None? {
      return Failed(Unprocessable), db;
    }
    var denied := AdminAuth(header.value, env);
    if denied.Some? {
      return Failed(denied.value), db;
    }
    if !QuizInDBValid(quiz) {
      return Failed(Unprocessable), db;
    }
    var quizzes := db.quizzes + [QuizRow(quiz.id, quiz.title)];
    var questions := db.questions;
    var i := 0;
    while i < |quiz.questions|
      invariant 0 <= i <= |quiz.questions|
      invariant questions == db.questions + QuestionRows(quiz.id, quiz.questions[..i])
    {
      questions := questions + [QuestionRowOf(quiz.id, quiz.questions[i])];
      assert QuestionRows(quiz.id, quiz.questions[..i + 1]) == QuestionRows(quiz.id, quiz.questions[..i]) + [QuestionRowOf(quiz.id, quiz.questions[i])];
      i := i + 1;
    }
    assert quiz.questions[..i] == quiz.questions;
    return Ok(quiz.id), Db(quizzes, questions, db.submissions);
  }
}
