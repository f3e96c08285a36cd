# Quiz app: authoring rules, scoring rules and answer keys in Dafny

This project models the logic of a small quiz application: a React front end
where an administrator drafts quizzes and a player answers them, and a
FastAPI back end that stores quizzes and scores submissions. It covers:

- **Draft editing and validation.** `AdminQuizForm` holds a draft: a title, a
  description and a list of questions, each with text, option strings and a
  correct index. It has edit handlers, a fail-fast check that names the first
  broken rule with 1-based ordinals, and a trimmed payload. `QuestionBuilder`
  is a single-question editor. It refuses to go below two options and clears
  the selection when the selected option is removed.
- **Scoring.** The quiz page scores locally when every question carries its
  own reference answer. The result card turns score and total into a
  percent, a letter grade and a share text. The back end's `submit_quiz`
  scores each answer against the stored key.
- **Back-end invariants and answer keys.** The pydantic schemas become
  predicates. `get_quiz` serves a projection without answers. `create_quiz`
  stores each question's key as a comma-joined list of correct option ids,
  and `submit_quiz` reads that key back as one UUID.

Files:

- `optional.dfy`: an `Option` type.
- `strings.dfy`: JavaScript `trim` and Python `strip` with each language's
  own whitespace set, and decimal rendering of integers.
- `sequences.dfy`: removal at an index, and Python's `len(set(s)) != len(s)`
  duplicate test.
- `admin_quiz_form.dfy`: the `Draft` class, the validation scan and the
  payload.
- `question_builder.dfy`: the `Builder` class.
- `quiz_page.dfy`: the answers map and the local scoring loop.
- `result_view.dfy`: percent, grade and share text.
- `uuids.dfy`: UUID text, reading UUIDs back, and `",".join`.
- `schemas.dfy`: the request, storage and response schemas as predicates.
- `models.dfy`: tables as row sequences, first-match lookups, and route
  outcomes.
- `quiz_routes.dfy`: `get_quiz` and `submit_quiz`.
- `admin_routes.dfy`: `admin_auth` and `create_quiz`.
- `answer_key.dfy`: the round trip from a created question to a scored
  answer.

Stateful code is modelled with classes and methods. The form and builder
state are class fields that the handlers reassign. The scoring loops and the
row-creation loop are `while` loops, and each is proved equal to a
specification function. Pure code is modelled with functions and lemmas. The
database becomes a `Db` value: each route takes it and returns the new one.
The admin key from the environment and the ids that `uid()` would mint are
parameters.

Behaviour of the code that a reader might not expect, modelled as written:

- Removing the correct option in `AdminQuizForm` keeps the index, so it then
  points at the next option; it is clamped only when it falls off the end.
- `QuestionInDB` is meant to accept several correct options for a
  multiple-choice question. Its `options` validator reads `multiple_choice`
  from `values` before that field is validated, so it always sees `False`.
  Every stored question therefore has exactly one correct option
  (`Schemas.ExactlyOneCorrect`, `Schemas.TwoCorrectRefused`).

## Model

| member | source | states |
|---|---|---|
| Sequences.RemoveAt | frontend/src/components/AdminQuizForm.jsx:58 | removing an in-range position drops exactly that element and keeps the others in order; any other index leaves the list unchanged |
| Sequences.SetSizeIffDistinct | backend/app/schemas.py:17-18 | the set-size duplicate test passes exactly when no element occurs twice |
| Strings.BlankIffTrimEmpty | frontend/src/components/AdminQuizForm.jsx:84 | `!s.trim()` holds exactly when every character of `s` is JavaScript whitespace |
| Strings.TrimIdempotent | frontend/src/components/AdminQuizForm.jsx:123-128 | trimming an already trimmed string changes nothing |
| Strings.BlankTrim | frontend/src/components/AdminQuizForm.jsx:87-91 | a string is blank exactly when its trimmed form is blank |
| Strings.TrimAll | frontend/src/components/AdminQuizForm.jsx:128 | mapping `trim` keeps the length and trims each element in place |
| Strings.Trim | frontend/src/components/AdminQuizForm.jsx:84 | JavaScript's `trim()`: leading and trailing WhiteSpace and LineTerminator characters removed (via `TrimBy`: no longer than the input, and neither end is whitespace) |
| Strings.Strip | backend/app/schemas.py:17 | Python's `strip()` with its whitespace set (via `TrimBy`: no longer than the input, and neither end is whitespace) |
| AdminQuizForm.InitialDraftQuestion | frontend/src/components/AdminQuizForm.jsx:20-25 | an initial question keeps a non-empty id or gets the minted one, keeps its text or gets "", keeps its non-empty options or gets two empty ones, and its correct index is the given number or 0 |
| AdminQuizForm.InitialQuestions | frontend/src/components/AdminQuizForm.jsx:19-26 | one draft question per initial question, in order, with a minted id where it had none |
| AdminQuizForm.Apply | frontend/src/components/AdminQuizForm.jsx:42-81 | no edit changes a question's id |
| AdminQuizForm.EditQuestion | frontend/src/components/AdminQuizForm.jsx:42-81 | an edit changes exactly the questions with the given id and leaves the others and their order untouched |
| AdminQuizForm.WithoutQuestionMembers | frontend/src/components/AdminQuizForm.jsx:38-40 | removing a question keeps exactly the questions with another id |
| AdminQuizForm.WithoutQuestion | frontend/src/components/AdminQuizForm.jsx:38-40 | the filtered list is never longer than the original |
| AdminQuizForm.WithoutQuestionKeepsOrder | frontend/src/components/AdminQuizForm.jsx:38-40 | removal distributes over concatenation, so the kept questions stay in order |
| AdminQuizForm.WithoutAbsentQuestion | frontend/src/components/AdminQuizForm.jsx:38-40 | removing an id that no question has changes nothing |
| AdminQuizForm.RemoveOptionEffect | frontend/src/components/AdminQuizForm.jsx:54-65 | removing option `i` drops that option only, for any correct index the initial data can supply. An in-range index moves down when an earlier option goes, and stays when the removed option is the correct one or a later one; it is clamped to the last option when it would fall off the end. An index past the end becomes the last remaining option, and a negative index is kept |
| AdminQuizForm.RemoveOptionKeepsCorrectInRange | frontend/src/components/AdminQuizForm.jsx:58-61 | a correct index in range stays in range after any removal that leaves an option |
| AdminQuizForm.FirstBlank | frontend/src/components/AdminQuizForm.jsx:90-92 | the result is the first blank option, and `None` exactly when no option is blank |
| AdminQuizForm.QuestionError | frontend/src/components/AdminQuizForm.jsx:87-94 | each question-level error is reported exactly when the earlier rules hold and its own rule fails; none exactly when the question is well formed |
| AdminQuizForm.FirstErrorNoneIffWellFormed | frontend/src/components/AdminQuizForm.jsx:83-97 | `validate` is null exactly when the title is filled in, there is a question, and every question passes every rule |
| AdminQuizForm.FirstErrorIsFirst | frontend/src/components/AdminQuizForm.jsx:83-97 | fail-fast order: title first, then the question count, then the first question that breaks a rule, reporting the first rule it breaks |
| AdminQuizForm.MessageInjective | frontend/src/components/AdminQuizForm.jsx:84-94 | different errors give different messages, so the 1-based question and option ordinals can be read back |
| AdminQuizForm.Message | frontend/src/components/AdminQuizForm.jsx:84-94 | the message text of each error, with 1-based question and option ordinals |
| AdminQuizForm.ScanFrom | frontend/src/components/AdminQuizForm.jsx:86-95 | the first error among questions `k..`, in question order |
| AdminQuizForm.FirstError | frontend/src/components/AdminQuizForm.jsx:83-97 | the value of `validate`: title, then count, then the questions in order |
| AdminQuizForm.Validate | frontend/src/components/AdminQuizForm.jsx:83-97 | the nested scan returns the first broken rule of the draft |
| AdminQuizForm.BuildPayload | frontend/src/components/AdminQuizForm.jsx:121-131 | one payload question per draft question, each the trimmed question |
| AdminQuizForm.PayloadShape | frontend/src/components/AdminQuizForm.jsx:121-131 | the payload trims the title, the description, every text and every option. It keeps ids, order, option counts and correct indices |
| AdminQuizForm.PayloadIdempotent | frontend/src/components/AdminQuizForm.jsx:121-131 | building the payload of a payload gives the same payload |
| AdminQuizForm.PayloadValidatesAlike | frontend/src/components/AdminQuizForm.jsx:83-131 | the payload reports the same first error as the draft, so a draft that validates yields a payload that validates |
| AdminQuizForm.Draft.constructor | frontend/src/components/AdminQuizForm.jsx:17-28 | the initial title, description and questions, and no error |
| AdminQuizForm.Draft.Reset | frontend/src/components/AdminQuizForm.jsx:249-262 | the Reset button restores the initial state and clears the error |
| AdminQuizForm.Draft.SetTitle | frontend/src/components/AdminQuizForm.jsx:154 | the title becomes the typed value |
| AdminQuizForm.Draft.SetDescription | frontend/src/components/AdminQuizForm.jsx:167 | the description becomes the typed value |
| AdminQuizForm.Draft.AddQuestion | frontend/src/components/AdminQuizForm.jsx:31-36 | a blank question with two empty options and correct index 0 is appended |
| AdminQuizForm.Draft.RemoveQuestion | frontend/src/components/AdminQuizForm.jsx:38-40 | the questions with the id are filtered out |
| AdminQuizForm.Draft.UpdateQuestionText | frontend/src/components/AdminQuizForm.jsx:42-44 | only the matching question's text changes |
| AdminQuizForm.Draft.AddOptionTo | frontend/src/components/AdminQuizForm.jsx:46-52 | the matching question gains an empty last option |
| AdminQuizForm.Draft.RemoveOptionFrom | frontend/src/components/AdminQuizForm.jsx:54-65 | the matching question loses the option, and its correct index is adjusted as in `RemoveOptionEffect` |
| AdminQuizForm.Draft.UpdateOptionText | frontend/src/components/AdminQuizForm.jsx:67-75 | only the option at the index of the matching question changes |
| AdminQuizForm.Draft.SetCorrectIndex | frontend/src/components/AdminQuizForm.jsx:77-81 | only the matching question's correct index changes |
| AdminQuizForm.Draft.HandleSubmit | frontend/src/components/AdminQuizForm.jsx:114-131 | an invalid draft shows its first error's message and gives no payload. A valid one clears the error and gives the trimmed payload |
| QuestionBuilder.LoadedOptions | frontend/src/components/QuestionBuilder.jsx:22-26 | at least two options: the given ones when there are two or more, else two empty ones |
| QuestionBuilder.RemoveOptionFloor | frontend/src/components/QuestionBuilder.jsx:41-45 | removal is refused at two options or fewer; above that it drops exactly the option and never goes below two |
| QuestionBuilder.RemoveOptionSelection | frontend/src/components/QuestionBuilder.jsx:46-47 | removing the selected option clears the selection; a later selection moves down, an earlier one stays |
| QuestionBuilder.OptionsAfterRemove | frontend/src/components/QuestionBuilder.jsx:41-45 | the options after `removeOption`: unchanged at two or fewer, otherwise without that position |
| QuestionBuilder.CorrectAfterRemove | frontend/src/components/QuestionBuilder.jsx:41-47 | the selection after `removeOption`, unchanged at two or fewer options |
| QuestionBuilder.RemoveOptionKeepsSelectionValid | frontend/src/components/QuestionBuilder.jsx:41-48 | a selection that points at an option still does after a removal, or is cleared |
| QuestionBuilder.FirstProblem | frontend/src/components/QuestionBuilder.jsx:50-69 | each message is chosen exactly when the earlier rules hold and its own fails; none exactly when every rule holds |
| QuestionBuilder.Message | frontend/src/components/QuestionBuilder.jsx:50-66 | the message `validate` shows for each broken rule |
| QuestionBuilder.SavedIsClean | frontend/src/components/QuestionBuilder.jsx:71-79 | a saved question has non-empty trimmed text and at least two non-empty trimmed options, and its correct index points at one of them |
| QuestionBuilder.Builder.constructor | frontend/src/components/QuestionBuilder.jsx:14-31 | the defaults, then the loaded `initialQuestion` when there is one |
| QuestionBuilder.Builder.LoadInitial | frontend/src/components/QuestionBuilder.jsx:19-31 | the prop's text, options and numeric correct index are loaded; a missing prop changes nothing |
| QuestionBuilder.Builder.SetText | frontend/src/components/QuestionBuilder.jsx:88 | the text becomes the typed value |
| QuestionBuilder.Builder.SelectCorrect | frontend/src/components/QuestionBuilder.jsx:111 | the selection becomes the clicked option |
| QuestionBuilder.Builder.UpdateOption | frontend/src/components/QuestionBuilder.jsx:33-37 | only the option at the index changes |
| QuestionBuilder.Builder.AddOption | frontend/src/components/QuestionBuilder.jsx:39 | an empty option is appended |
| QuestionBuilder.Builder.RemoveOption | frontend/src/components/QuestionBuilder.jsx:41-48 | the options and selection change as in the lemmas above, and a builder with two or more options keeps at least two |
| QuestionBuilder.Builder.Validate | frontend/src/components/QuestionBuilder.jsx:50-69 | true with a cleared error exactly when every rule holds; otherwise false with the first broken rule's message |
| QuestionBuilder.Builder.HandleSave | frontend/src/components/QuestionBuilder.jsx:71-80 | a question is saved exactly when validation passes, and it is the trimmed question with the prop's id. The error is cleared on save and otherwise holds the first broken rule's message |
| QuizPage.Score | frontend/src/pages/Quiz.jsx:57-65 | the score never exceeds the number of questions |
| QuizPage.Reference | frontend/src/pages/Quiz.jsx:60-63 | the value an answer is compared with: `correctIndex` when present, otherwise `correctId` |
| QuizPage.Given | frontend/src/pages/Quiz.jsx:58-59 | the stored answer, or `undefined` when there is none |
| QuizPage.Earns | frontend/src/pages/Quiz.jsx:59-64 | a question earns its point when its answer is strictly equal to its reference |
| QuizPage.ScoreLocally | frontend/src/pages/Quiz.jsx:51-70 | local scoring happens exactly when every question has `correctIndex` or `correctId`. Its score counts the strict matches, its total is the number of questions, and score ≤ total |
| QuizPage.ScoreDependsOnlyOnOwnAnswers | frontend/src/pages/Quiz.jsx:59 | two answer maps that agree on the quiz's question ids give the same score, whatever their insertion order or other keys |
| QuizPage.EmptyAnswersScoreZero | frontend/src/pages/Quiz.jsx:59-61 | with no answers and defined references the score is 0 |
| QuizPage.AllCorrectScoresTotal | frontend/src/pages/Quiz.jsx:57-66 | answering every question with its reference scores the total |
| QuizPage.ScoreCountsEarners | frontend/src/pages/Quiz.jsx:57-66 | the score is the number of questions whose answer strictly equals their reference (`correctIndex` first, else `correctId`) |
| QuizPage.Page.constructor | frontend/src/pages/Quiz.jsx:9-14 | no quiz, no answers, no result |
| QuizPage.Page.Loaded | frontend/src/pages/Quiz.jsx:24-25 | the loaded quiz is set and the answers are reset |
| QuizPage.Page.Select | frontend/src/pages/Quiz.jsx:41-43 | the answer for the question becomes the choice and every other answer is unchanged |
| QuizPage.Page.Submit | frontend/src/pages/Quiz.jsx:45-89 | no quiz: nothing happens. Otherwise the result is the local score when every question has a reference, and the server marker when not |
| ResultView.Percent | frontend/src/components/ResultView.jsx:5 | 0 when the total is 0; otherwise the nearest integer to 100·score/total, with halves rounded up |
| ResultView.PercentBounds | frontend/src/components/ResultView.jsx:5 | for 0 ≤ score ≤ total and total > 0 the percent is in [0, 100]; it is 100 at full marks and 0 at no marks |
| ResultView.PercentMonotone | frontend/src/components/ResultView.jsx:5 | a higher score out of the same total never gives a lower percent |
| ResultView.GradeOf | frontend/src/components/ResultView.jsx:6-7 | A iff ≥ 90, B iff in [80, 90), C iff in [70, 80), D iff in [60, 70), F iff < 60 |
| ResultView.GradeMonotone | frontend/src/components/ResultView.jsx:6-7 | a higher percent never gives a worse grade |
| ResultView.ShareTextInjective | frontend/src/components/ResultView.jsx:10 | the score and total can be read back from the share text |
| Uuids.ParseStr | backend/app/routes/quiz.py:66 | `UUID(str(u)) == u` |
| Uuids.Parse | backend/app/routes/quiz.py:66 | `UUID(text)`: accepted only when the text without hyphens is exactly 32 hexadecimal digits |
| Uuids.Str | backend/app/routes/admin.py:34 | `str(u)`: the 36-character 8-4-4-4-12 form |
| Uuids.Join | backend/app/routes/admin.py:34 | `sep.join`: no parts give "", one part gives that part |
| Uuids.StrInjective | backend/app/routes/admin.py:34 | different UUIDs have different texts |
| Uuids.ParseEmpty | backend/app/routes/quiz.py:66 | the empty key is not a UUID |
| Uuids.ParseJoined | backend/app/routes/admin.py:34 | a comma-joined list of UUID texts reads back as a UUID exactly when it holds one UUID, and then as that UUID |
| Schemas.StrippedTexts | backend/app/schemas.py:17 | one stripped text per option, in order |
| Schemas.OptionCreateValid | backend/app/schemas.py:5-6 | an option text of 1 to 500 characters |
| Schemas.QuestionCreateValid | backend/app/schemas.py:9-20 | text of 1 to 1000 characters, 2 to 50 valid options with unique stripped texts, and non-negative points |
| Schemas.QuizCreateValid | backend/app/schemas.py:23-34 | title of 1 to 300 characters, description of at most 2000, at least one valid question, and the root validator |
| Schemas.UniqueOptionTextsMeansDistinct | backend/app/schemas.py:15-20 | option texts pass exactly when they are pairwise different after `strip()` |
| Schemas.UniqueOptionTexts | backend/app/schemas.py:15-20 | the validator's test: the set of stripped texts is as large as the list |
| Schemas.SpacedDuplicateRejected | backend/app/schemas.py:15-20 | two options that differ only by surrounding spaces are refused |
| Schemas.RootValidatorRedundant | backend/app/schemas.py:26-34 | the root validator never rejects what `min_items=1` accepted |
| Schemas.OptionPublicValid | backend/app/schemas.py:38-40 | a served option text of 1 to 500 characters |
| Schemas.QuestionPublicValid | backend/app/schemas.py:43-48 | text of 1 to 1000 characters, at least two valid options, and non-negative points |
| Schemas.QuizPublicValid | backend/app/schemas.py:51-55 | title of 1 to 300 characters, description of at most 2000, and at least one valid question |
| Schemas.TotalPoints | backend/app/schemas.py:57-59 | the total points of a valid public quiz are at least 0 |
| Schemas.SumPointsNonNegative | backend/app/schemas.py:57-59 | a sum of non-negative points is non-negative |
| Schemas.SumPointsOfOnes | backend/app/schemas.py:57-59 | when every question is worth 1 the total is the question count |
| Schemas.CorrectCount | backend/app/schemas.py:80 | the number of correct options is at most the number of options |
| Schemas.ExactlyOneCorrect | backend/app/schemas.py:72-87 | every accepted `QuestionInDB` has exactly one correct option, whatever `multiple_choice` says |
| Schemas.MultipleSeenByValidator | backend/app/schemas.py:76-79 | the `multiple` flag the `options` validator reads: always `False`, since `values` holds only the fields declared before `options` |
| Schemas.QuestionInDBValid | backend/app/schemas.py:69-87 | what `QuestionInDB` accepts: the text and option bounds, and the correct-option rule applied with the flag the validator sees |
| Schemas.OptionInDBValid | backend/app/schemas.py:63-66 | a stored option text of 1 to 500 characters |
| Schemas.QuizInDBValid | backend/app/schemas.py:90-94 | every question is a valid `QuestionInDB`; the title has no bound |
| Schemas.TwoCorrectRefused | backend/app/schemas.py:76-87 | a multiple-choice question with two correct options is refused |
| Schemas.CorrectPosition | backend/app/schemas.py:85-86 | with exactly one correct option there is one position holding it and no other position is correct |
| Schemas.QuestionIds | backend/app/schemas.py:115 | one question id per answer, in order |
| Schemas.AnswerSubmissionValid | backend/app/schemas.py:98-106 | a non-empty selection with no repeated option id |
| Schemas.QuizSubmissionValid | backend/app/schemas.py:109-118 | at least one valid answer and no question answered twice |
| Schemas.SubmissionValidMeans | backend/app/schemas.py:98-118 | an accepted submission has at least one answer and no repeated question, and each answer has a non-empty, duplicate-free selection |
| Schemas.QuizSubmissionResultValid | backend/app/schemas.py:130-134 | total and maximum score are at least 0 |
| Models.FindFirst | backend/app/routes/quiz.py:58-62 | `.filter(key == id).first()`, used for quizzes (lines 14 and 50) and questions: nothing is found exactly when no row has the id; a found row has the id and is the first such row in table order |
| Models.FirstIndex | backend/app/routes/quiz.py:58-62 | the position `.first()` picks holds a row with the id, and no earlier row has it |
| Models.FindFirstAppend | backend/app/routes/quiz.py:58-62 | rows appended after the first match leave the lookup unchanged, and a lookup that missed continues into the new rows |
| Models.FindQuestionAppend | backend/app/routes/quiz.py:58-62 | rows appended after the first match leave the lookup unchanged, and a lookup that missed continues into the new rows |
| Models.QuestionsOf | backend/app/routes/quiz.py:18-20 | exactly the rows of the quiz |
| QuizRoutes.PublicQuestion | backend/app/routes/quiz.py:26-37 | a served question keeps its id, text and each option's id and text, in order. It is single-choice and worth 1 point |
| QuizRoutes.PublicQuestions | backend/app/routes/quiz.py:25-39 | one served question per stored question, in order |
| QuizRoutes.Projection | backend/app/routes/quiz.py:22-40 | the response built from a quiz row and its question rows |
| QuizRoutes.GetQuiz | backend/app/routes/quiz.py:12-40 | 404 exactly when no quiz has the id. A found quiz is served exactly when its projection (the first matching quiz row with its questions) meets every `QuizPublic` bound, and otherwise fails with 500. A served quiz has the requested id and the stored title, and no description |
| QuizRoutes.GetQuizServes | backend/app/routes/quiz.py:18-40 | a served quiz lists its questions in table order; its total points equal the question count |
| QuizRoutes.GetQuizWithoutQuestions | backend/app/routes/quiz.py:22-40 | a quiz with no questions cannot be served (500) |
| QuizRoutes.GetQuizHidesAnswers | backend/app/routes/quiz.py:30-36 | erasing every correctness flag and answer key from the table gives the same response, so none is exposed |
| QuizRoutes.Judge | backend/app/routes/quiz.py:57-79 | an answer is skipped exactly when its question is missing. It fails exactly when the stored key is not one UUID. Otherwise its entry carries its question id and `[key]`, and is correct exactly when the key is among the selected ids |
| QuizRoutes.CountCorrect | backend/app/routes/quiz.py:70-71 | the number of correct entries is at most the number of entries |
| QuizRoutes.ResultsFailurePersists | backend/app/routes/quiz.py:66 | once a key fails to parse the whole submission fails |
| QuizRoutes.SubmitQuiz | backend/app/routes/quiz.py:44-95 | the loop's result equals the specification of the route. A successful run stores one submission row with the score; a failed one changes nothing |
| QuizRoutes.SubmitOutcome | backend/app/routes/quiz.py:44-95 | the route's result: 422, then 404, then 500 on an unreadable key, otherwise the counted results |
| QuizRoutes.Results | backend/app/routes/quiz.py:57-79 | the per-question entries in answer order, or failure once a key does not parse |
| QuizRoutes.Found | backend/app/routes/quiz.py:63-64 | at most as many found answers as answers |
| QuizRoutes.ResultsFollowFound | backend/app/routes/quiz.py:57-79 | entries correspond one to one, in submission order, to the answers whose question exists; the others leave no entry |
| QuizRoutes.SubmitScore | backend/app/routes/quiz.py:70-95 | total_score equals the number of correct entries. total_score ≤ entries ≤ max_score, and max_score is the number of submitted answers. Both scores are non-negative |
| QuizRoutes.SubmitErrors | backend/app/routes/quiz.py:44-52 | an invalid submission gets 422, and a valid one for an unknown quiz gets 404 |
| QuizRoutes.ExtraSelectionsStayCorrect | backend/app/routes/quiz.py:68 | selecting more options never makes a correct answer wrong |
| AdminRoutes.AdminAuth | backend/app/routes/admin.py:13-16 | the only outcomes are acceptance and 401 |
| AdminRoutes.AdminAuthAccepts | backend/app/routes/admin.py:13-16 | 401 exactly when the header differs from the configured key; unset, the key is "default_admin_key" |
| AdminRoutes.Kind | backend/app/routes/admin.py:31 | "multiple_choice" iff multiple choice, else "single_choice" |
| AdminRoutes.CorrectIds | backend/app/routes/admin.py:34 | as many ids as correct options |
| AdminRoutes.CorrectIdsOfOne | backend/app/routes/admin.py:34 | with one correct option, its id is the only correct id |
| AdminRoutes.EncodeKey | backend/app/routes/admin.py:34 | the stored key: the correct options' ids, as text, joined by commas |
| AdminRoutes.EncodeKeyRoundTrip | backend/app/routes/admin.py:34 | the stored key reads back as a UUID exactly when one option is correct, and then as that option's id; with none it is "" |
| AdminRoutes.StoredKeyReadsBack | backend/app/routes/admin.py:34 | every question `QuizInDB` accepts gets a key that reads back as its correct option's id |
| AdminRoutes.QuestionRowOf | backend/app/routes/admin.py:28-35 | a row keeps the question's id, text and options, carries the quiz id, maps the kind, and stores the encoded key |
| AdminRoutes.QuestionRows | backend/app/routes/admin.py:27-36 | one row per question, in order |
| AdminRoutes.CreateQuiz | backend/app/routes/admin.py:13-42 | a missing header gives 422 and a wrong key 401, both before the body is checked. An invalid body gives 422. Otherwise one quiz row and one row per question are appended and the quiz id is returned |
| AnswerKey.FindCreated | backend/app/routes/admin.py:27-36 | among freshly created rows, the first match for a question's id is that question's row when no earlier question shares the id |
| AnswerKey.CreatedQuestionIsScored | backend/app/routes/quiz.py:57-79 | an answer to a question stored by `create_quiz` is judged, never skipped or failed, against the question's one correct option id |
| AnswerKey.CreatedQuestionCorrectIff | backend/app/routes/quiz.py:66-68 | such an answer is correct exactly when it selects an option flagged correct |

## Left out

- Networking: `api.js`, the default submit of the authoring form, the quiz page's load effect and its never-submitting server branch. The server branch is modelled only as a marker result.
- React lifecycle: the `mounted` flag, `submitting` flags, `onSubmitSuccess` and `onSave` callbacks, rendering, routing and styles, and the page's `q.id ?? qi` answer key.
- `navigator.share`, the clipboard and `mailto` in the share handler; only the shared text is modelled.
- Id generation: the `uid()` ids of new draft questions are parameters (`mint`, `freshId`), not `Date.now`/`Math.random` values.
- `ResultView.Percent`: floating-point division and `Math.round` are replaced by exact half-up rounding of 100·score/total. Non-integer, `NaN` or infinite scores are not modelled.
- JavaScript values beyond `undefined`, `null`, integers and strings are left out: non-integer numbers, objects, and the coercion of object keys to strings.
- `QuestionBuilder.Builder.RemoveOption`: indices are natural numbers, so `splice` with a negative index is not modelled.
- `QuestionBuilder.Builder.UpdateOption`: requires an index inside the option list; writing past the end of a JavaScript array is not modelled.
- `Uuids.Parse`: the `urn:`/`uuid:` prefixes, surrounding braces, and what `int(x, 16)` also allows (signs, underscores, `0x`, whitespace) are not accepted. They never occur in the keys `create_quiz` writes.
- Database and framework plumbing: sessions, commit and refresh, primary-key clashes, JSON serialisation of the options column and of the submissions' `answers` column (both hold `UUID` objects), a null options column, non-UUID path ids in `get_quiz`, and the order of rows returned by `.all()`, which is taken to be table order.
- Pydantic machinery: validators are predicates, not error objects.
- `QuizRoutes.Judge`: `QuestionResult` declares `earned_points` and `max_points` as required fields (backend/app/schemas.py:125-126), and `submit_quiz` builds it without them, so as written the route raises a validation error for any answer whose question exists. The model omits both fields and keeps only the scoring arithmetic the route evidently intends.
- `QuizRoutes.SubmitQuiz`: returns the counted result where the code as written fails on the missing `QuestionResult` fields, as described for `QuizRoutes.Judge`.
- The request body's `quiz_id` in `submit_quiz` is never compared with the path id, and question lookups are not restricted to the quiz. The model keeps both as written.
- The environment read of `ADMIN_KEY` is a parameter (`env`).
