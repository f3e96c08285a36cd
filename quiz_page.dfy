/**
  The quiz-taking page (frontend/src/pages/Quiz.jsx): the answers map that
  `handleSelect` updates, and the local scoring that `handleSubmit` performs
  when every question carries its own correct reference.
*/
module QuizPage {
  import opened Optional

  /** The JavaScript values an answer or a correct reference can be; `===` on them is `==`. */
  datatype Value = Undefined | Null | Num(n: int) | Str(s: string)

  /**
    A question as the page holds it. `correctIndex` and `correctId` are `None`
    when the question has no such own property, and `Some(v)` when it has one
    (whose value may itself be `Undefined`).
  */
  datatype Question = Question(id: string, correctIndex: Option<Value>, correctId: Option<Value>)

  /** The `answers` state: question id to the chosen index, option id or free text. */
  type Answers = map<string, Value>

  /** The outcome of local scoring. */
  datatype LocalScore = LocalScore(score: nat, total: nat)

  /** `q.hasOwnProperty("correctIndex") || q.hasOwnProperty("correctId")`. */
  predicate HasReference(q: Question) {
    q.correctIndex.Some? || q.correctId.Some?
  }

  /** The value an answer is compared with: `correctIndex` when present, otherwise `correctId`. */
  function Reference(q: Question): Value
    requires HasReference(q)
  {
    if q.correctIndex.Some? then q.correctIndex.value else q.correctId.value
  }

  /** `answers[id]`: the stored value, `undefined` when absent. */
  function Given(answers: Answers, id: string): Value {
    if id in answers then answers[id] else Undefined
  }

  /** Question `q` earns its point: its answer is strictly equal to its reference. */
  predicate Earns(q: Question, answers: Answers) {
    HasReference(q) && Given(answers, q.id) == Reference(q)
  }

  /** The number of questions that earn their point. */
  function Score(qs: seq<Question>, answers: Answers): (n: nat)
    ensures n <= |qs|
  {
    if qs == [] then 0
    else Score(qs[..|qs| - 1], answers) + (if Earns(qs[|qs| - 1], answers) then 1 else 0)
  }

  /** Local scoring applies only when every question has a reference. */
  predicate Scorable(qs: seq<Question>) {
    forall i :: 0 <= i < |qs| ==> HasReference(qs[i])
  }

  /**
    The local branch of `handleSubmit`: `None` when some question lacks a
    reference (the page then takes its server branch), otherwise the score
    accumulated question by question and the number of questions.
  */
  method ScoreLocally(questions: seq<Question>, answers: Answers) returns (r: Option<LocalScore>)
    ensures r.Some? <==> Scorable(questions)
    ensures r.Some? ==> r.value.score == Score(questions, answers) && r.value.total == |questions|
    ensures r.Some? ==> r.value.score <= r.value.total
  {
    if !Scorable(questions) {
      return None;
    }
    var score := 0;
    var i := 0;
    while i < |questions|
      invariant 0 <= i <= |questions|
      invariant score == Score(questions[..i], answers)
    {
      var q := questions[i];
      var given := Given(answers, q.id);
      if q.correctIndex.Some? {
        if given == q.correctIndex.value {
          score := score + 1;
        }
      } else if q.correctId.Some? {
        if given == q.correctId.value {
          score := score + 1;
        }
      }
      assert questions[..i + 1][..i] == questions[..i];
      i := i + 1;
    }
    assert questions[..i] == questions;
    return Some(LocalScore(score, |questions|));
  }

  /** The score depends only on the answers recorded under the quiz's own question ids. */
  lemma {:induction false} ScoreDependsOnlyOnOwnAnswers(qs: seq<Question>, a1: Answers, a2: Answers)
    requires forall i :: 0 <= i < |qs| ==> Given(a1, qs[i].id) == Given(a2, qs[i].id)
    ensures Score(qs, a1) == Score(qs, a2)
  {
    if qs != [] {
      ScoreDependsOnlyOnOwnAnswers(qs[..|qs| - 1], a1, a2);
    }
  }

  /** With no answers, no question whose reference is defined earns a point. */
  lemma {:induction false} EmptyAnswersScoreZero(qs: seq<Question>)
    requires forall i :: 0 <= i < |qs| ==> HasReference(qs[i]) && Reference(qs[i]) != Undefined
    ensures Score(qs, map[]) == 0
  {
    if qs != [] {
      EmptyAnswersScoreZero(qs[..|qs| - 1]);
    }
  }

  /** Answering every question with its reference earns every point. */
  lemma {:induction false} AllCorrectScoresTotal(qs: seq<Question>, answers: Answers)
    requires forall i :: 0 <= i < |qs| ==> Earns(qs[i], answers)
    ensures Score(qs, answers) == |qs|
  {
    if qs != [] {
      AllCorrectScoresTotal(qs[..|qs| - 1], answers);
    }
  }

  /** The score counts exactly the questions that earn a point. */
  lemma {:induction false} ScoreCountsEarners(qs: seq<Question>, answers: Answers)
    ensures Score(qs, answers) == |set i | 0 <= i < |qs| && Earns(qs[i], answers)|
  {
    if qs != [] {
      var n := |qs| - 1;
      ScoreCountsEarners(qs[..n], answers);
      var before := set i | 0 <= i < n && Earns(qs[..n][i], answers);
      var all := set i | 0 <= i < |qs| && Earns(qs[i], answers);
      assert before == set i | 0 <= i < n && Earns(qs[i], answers);
      if Earns(qs[n], answers) {
        assert all == before + {n};
      } else {
        assert all == before;
      }
    }
  }

  /** The `result` state: the local score, or the marker of the server branch. */
  datatype PageResult = Local(score: nat, total: nat) | Server

  class Page {
    var quiz: Option<seq<Question>>
    var answers: Answers
    var result: Option<PageResult>

    /** The `useState` defaults: no quiz, `{}` answers, no result. */
    constructor ()
      ensures quiz == None && answers == map[] && result == None
    {
      quiz := None;
      answers := map[];
      result := None;
    }

    /** The load effect's success path: the quiz is set and the answers are reset to `{}`. */
    method Loaded(questions: seq<Question>)
      modifies this`quiz, this`answers
      ensures quiz == Some(questions) && answers == map[]
    {
      quiz := Some(questions);
      answers := map[];
    }

    /** `handleSelect(questionId, choiceKey)`: record one answer, keep the others. */
    method Select(questionId: string, choice: Value)
      modifies this`answers
      ensures answers == old(answers)[questionId := choice]
      ensures forall k :: k != questionId ==> Given(answers, k) == Given(old(answers), k)
    {
      answers := answers[questionId := choice];
    }

    /**
      `handleSubmit`: nothing without a quiz; the local score when every
      question has a reference; otherwise the server-branch marker.
    */
    method Submit() returns (score: Option<LocalScore>)
      modifies this`result
      ensures quiz.None? ==> score == None && result == old(result)
      ensures quiz.Some? ==> result.Some?
      ensures score.Some? <==> quiz.Some? && Scorable(quiz.value)
      ensures score.Some? ==>
        && score.value == LocalScore(Score(quiz.value, answers), |quiz.value|)
        && result == Some(Local(score.value.score, score.value.total))
      ensures quiz.Some? && !Scorable(quiz.value) ==> result == Some(Server)
    {
      if quiz.None? {
        return None;
      }
      result := None;
      score := ScoreLocally(quiz.value, answers);
      if score.Some? {
        result := Some(Local(score.value.score, score.value.total));
      } else {
        result := Some(Server);
      }
    }
  }
}
