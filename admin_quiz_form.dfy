/**
  The quiz authoring form (frontend/src/components/AdminQuizForm.jsx): a draft
  quiz made of a title, a description and a list of questions, each with its
  text, its option texts and the index of the correct option; the edit
  handlers that rewrite the question list; the fail-fast validation that
  names the first broken rule; and the trimmed payload handed to the submit
  callback.
*/
module AdminQuizForm {
  import opened Optional
  import opened Strings
  import opened Sequences

  type QuestionId = string

  /** One question of the draft. */
  datatype DraftQuestion = DraftQuestion(id: QuestionId, text: string, options: seq<string>, correctIndex: int)

  /** A question of the `initialQuiz` prop; a property that is missing (or not a number, for `correctIndex`) is `None`. */
  datatype InitialQuestion = InitialQuestion(
    id: Option<string>, text: Option<string>, options: Option<seq<string>>, correctIndex: Option<int>)

  /** The `initialQuiz` prop. */
  datatype InitialQuiz = InitialQuiz(
    id: Option<string>, title: Option<string>, description: Option<string>, questions: Option<seq<InitialQuestion>>)

  /** JavaScript's `s || fallback` for an optional string: both a missing value and "" are falsy. */
  function OrElse(s: Option<string>, fallback: string): (r: string)
    ensures r == fallback || (s.Some? && r == s.value && r != "")
  {
    if s.Some? && s.value != "" then s.value else fallback
  }

  // ---------------------------------------------------------------------------
  // Initial state

  /** The draft form of one initial question; `freshId` stands for the `uid()` it gets when it has no id. */
  function InitialDraftQuestion(q: InitialQuestion, freshId: QuestionId): (r: DraftQuestion)
    ensures q.id.Some? && q.id.value != "" ==> r.id == q.id.value
    ensures q.id.None? || q.id.value == "" ==> r.id == freshId
    ensures q.text.Some? ==> r.text == q.text.value
    ensures q.text.None? ==> r.text == ""
    ensures |r.options| >= 1
    ensures q.options.Some? && q.options.value != [] ==> r.options == q.options.value
    ensures q.options.None? || q.options.value == [] ==> r.options == ["", ""]
    ensures r.correctIndex == q.correctIndex.GetOr(0)
  {
    DraftQuestion(
      OrElse(q.id, freshId),
      OrElse(q.text, ""),
      if q.options.Some? && |q.options.value| > 0 then q.options.value else ["", ""],
      q.correctIndex.GetOr(0))
  }

  function InitialTitle(initial: Option<InitialQuiz>): string {
    if initial.Some? then OrElse(initial.value.title, "") else ""
  }

  function InitialDescription(initial: Option<InitialQuiz>): string {
    if initial.Some? then OrElse(initial.value.description, "") else ""
  }

  function InitialSource(initial: Option<InitialQuiz>): seq<InitialQuestion> {
    if initial.Some? && initial.value.questions.Some? then initial.value.questions.value else []
  }

  /** The initial question list: one draft question per initial question, in order; `mint(i)` is the id minted for position `i`. */
  function InitialQuestions(initial: Option<InitialQuiz>, mint: nat -> QuestionId): (qs: seq<DraftQuestion>)
    ensures |qs| == |InitialSource(initial)|
    ensures forall i :: 0 <= i < |qs| ==> qs[i] == InitialDraftQuestion(InitialSource(initial)[i], mint(i))
  {
    var src := InitialSource(initial);
    seq(|src|, i requires 0 <= i < |src| => InitialDraftQuestion(src[i], mint(i)))
  }

  /** The question `addQuestion` appends. */
  function BlankQuestion(id: QuestionId): DraftQuestion {
    DraftQuestion(id, "", ["", ""], 0)
  }

  // ---------------------------------------------------------------------------
  // Per-question edits

  /** The edits the form applies to the question whose id matches. */
  datatype Edit =
    | SetText(text: string)
    | AddOption
    | RemoveOption(index: int)
    | SetOptionText(index: int, text: string)
    | SetCorrect(index: int)

  /** `Math.max` on integers. */
  function Max(a: int, b: int): int {
    if a >= b then a else b
  }

  /** The question after one edit; the id never changes. */
  function Apply(q: DraftQuestion, e: Edit): (r: DraftQuestion)
    ensures r.id == q.id
  {
    match e
    case SetText(t) => q.(text := t)
    case AddOption => q.(options := q.options + [""])
    case RemoveOption(i) =>
      var opts := RemoveAt(q.options, i);
      var c := if i < q.correctIndex then q.correctIndex - 1 else q.correctIndex;
      q.(options := opts, correctIndex := if c >= |opts| then Max(0, |opts| - 1) else c)
    case SetOptionText(i, t) =>
      q.(options := if 0 <= i < |q.options| then q.options[i := t] else q.options)
    case SetCorrect(i) => q.(correctIndex := i)
  }

  /** `prev.map(q => q.id === id ? edit(q) : q)`. */
  function EditQuestion(qs: seq<DraftQuestion>, id: QuestionId, e: Edit): (r: seq<DraftQuestion>)
    ensures |r| == |qs|
    ensures forall i :: 0 <= i < |qs| ==> r[i] == if qs[i].id == id then Apply(qs[i], e) else qs[i]
  {
    seq(|qs|, i requires 0 <= i < |qs| => if qs[i].id == id then Apply(qs[i], e) else qs[i])
  }

  /** `prev.filter(q => q.id !== id)`. */
  function WithoutQuestion(qs: seq<DraftQuestion>, id: QuestionId): (r: seq<DraftQuestion>)
    ensures |r| <= |qs|
  {
    if qs == [] then []
    else (if qs[0].id == id then [] else [qs[0]]) + WithoutQuestion(qs[1..], id)
  }

  /** Removing a question keeps exactly the questions with another id. */
  lemma {:induction false} WithoutQuestionMembers(qs: seq<DraftQuestion>, id: QuestionId)
    ensures forall q :: q in WithoutQuestion(qs, id) <==> q in qs && q.id != id
  {
    if qs != [] {
      WithoutQuestionMembers(qs[1..], id);
      assert qs == [qs[0]] + qs[1..];
    }
  }

  /** Removing a question keeps the others in their order: it distributes over concatenation. */
  lemma {:induction false} WithoutQuestionKeepsOrder(a: seq<DraftQuestion>, b: seq<DraftQuestion>, id: QuestionId)
    ensures WithoutQuestion(a + b, id) == WithoutQuestion(a, id) + WithoutQuestion(b, id)
  {
    if a == [] {
      assert a + b == b;
    } else {
      assert (a + b)[1..] == a[1..] + b;
      WithoutQuestionKeepsOrder(a[1..], b, id);
    }
  }

  /** A list without the id is left as it is. */
  lemma {:induction false} WithoutAbsentQuestion(qs: seq<DraftQuestion>, id: QuestionId)
    requires forall i :: 0 <= i < |qs| ==> qs[i].id != id
    ensures WithoutQuestion(qs, id) == qs
  {
    if qs != [] {
      WithoutAbsentQuestion(qs[1..], id);
    }
  }

  /**
    Removing option `i` deletes exactly that option and keeps the others in
    order; the correct index moves down when an earlier option goes, stays
    when the removed option is the correct one or a later one, and is clamped
    to the last option when it would fall off the end.
  */
  lemma RemoveOptionEffect(q: DraftQuestion, i: int)
    requires 0 <= i < |q.options|
    ensures var r := Apply(q, RemoveOption(i));
      && |r.options| == |q.options| - 1
      && (forall k :: 0 <= k < |r.options| ==> r.options[k] == if k < i then q.options[k] else q.options[k + 1])
      && (i < q.correctIndex < |q.options| ==> r.correctIndex == q.correctIndex - 1)
      && (i >= q.correctIndex && q.correctIndex < |q.options| - 1 ==> r.correctIndex == q.correctIndex)
      && (i == q.correctIndex && q.correctIndex == |q.options| - 1 ==> r.correctIndex == Max(0, |q.options| - 2))
      && (q.correctIndex >= |q.options| ==> r.correctIndex == Max(0, |q.options| - 2))
      && (q.correctIndex < 0 ==> r.correctIndex == q.correctIndex)
  {
  }

  /** A correct index in range stays in range after any option removal that leaves an option, for every index the form can pass. */
  lemma RemoveOptionKeepsCorrectInRange(q: DraftQuestion, i: int)
    requires i >= 0
    requires 0 <= q.correctIndex < |q.options|
    requires |Apply(q, RemoveOption(i)).options| > 0
    ensures 0 <= Apply(q, RemoveOption(i)).correctIndex < |Apply(q, RemoveOption(i)).options|
  {
  }

  // ---------------------------------------------------------------------------
  // Validation

  /** The rules `validate` checks, in the order it checks them; positions are 0-based. */
  datatype DraftError =
    | TitleRequired
    | QuestionRequired
    | TextRequired(question: nat)
    | TooFewOptions(question: nat)
    | OptionTextRequired(question: nat, option: nat)
    | CorrectInvalid(question: nat)
  {
    predicate AboutQuestion() {
      !TitleRequired? && !QuestionRequired?
    }
  }

  /** The message `validate` returns; question and option ordinals are 1-based. */
  function Message(e: DraftError): string {
    match e
    case TitleRequired => "Title is required"
    case QuestionRequired => "At least one question is required"
    case TextRequired(q) => "Question " + Dec(q + 1) + ": text is required"
    case TooFewOptions(q) => "Question " + Dec(q + 1) + ": at least two options are required"
    case OptionTextRequired(q, o) => "Question " + Dec(q + 1) + ", Option " + Dec(o + 1) + ": text is required"
    case CorrectInvalid(q) => "Question " + Dec(q + 1) + ": correct answer is invalid"
  }

  /** The position of the first blank option. */
  function FirstBlank(options: seq<string>): (r: Option<nat>)
    ensures r.Some? ==> r.value < |options| && Blank(options[r.value])
    ensures r.Some? ==> forall j :: 0 <= j < r.value ==> !Blank(options[j])
    ensures r.None? <==> forall j :: 0 <= j < |options| ==> !Blank(options[j])
  {
    if options == [] then None
    else if Blank(options[0]) then Some(0)
    else match FirstBlank(options[1..])
      case None => None
      case Some(k) => Some(k + 1)
  }

  /** A question that passes every rule. */
  predicate QuestionWellFormed(q: DraftQuestion) {
    && !Blank(q.text)
    && |q.options| >= 2
    && (forall j :: 0 <= j < |q.options| ==> !Blank(q.options[j]))
    && 0 <= q.correctIndex < |q.options|
  }

  /** A draft that passes every rule. */
  predicate WellFormed(title: string, qs: seq<DraftQuestion>) {
    && !Blank(title)
    && |qs| >= 1
    && forall i :: 0 <= i < |qs| ==> QuestionWellFormed(qs[i])
  }

  /**
    The first rule question `q` at position `k` breaks: each error is reported
    exactly when every earlier rule holds and its own rule fails.
  */
  function QuestionError(q: DraftQuestion, k: nat): (r: Option<DraftError>)
    ensures r.None? <==> QuestionWellFormed(q)
    ensures r.Some? ==> r.value.AboutQuestion() && r.value.question == k
    ensures r == Some(TextRequired(k)) <==> Blank(q.text)
    ensures r == Some(TooFewOptions(k)) <==> !Blank(q.text) && |q.options| < 2
    ensures r.Some? && r.value.OptionTextRequired? ==>
      && !Blank(q.text) && |q.options| >= 2
      && r.value.option < |q.options| && Blank(q.options[r.value.option])
      && forall j :: 0 <= j < r.value.option ==> !Blank(q.options[j])
    ensures r == Some(CorrectInvalid(k)) <==>
      && !Blank(q.text) && |q.options| >= 2
      && (forall j :: 0 <= j < |q.options| ==> !Blank(q.options[j]))
      && !(0 <= q.correctIndex < |q.options|)
  {
    if Blank(q.text) then Some(TextRequired(k))
    else if |q.options| < 2 then Some(TooFewOptions(k))
    else match FirstBlank(q.options)
      case Some(o) => Some(OptionTextRequired(k, o))
      case None =>
        if q.correctIndex < 0 || q.correctIndex >= |q.options| then Some(CorrectInvalid(k)) else None
  }

  /** The first error among questions `k..`. */
  function ScanFrom(qs: seq<DraftQuestion>, k: nat): Option<DraftError>
    requires k <= |qs|
    decreases |qs| - k
  {
    if k == |qs| then None
    else match QuestionError(qs[k], k)
      case Some(e) => Some(e)
      case None => ScanFrom(qs, k + 1)
  }

  /** The value of `validate`: the first broken rule of the draft, or none. */
  function FirstError(title: string, qs: seq<DraftQuestion>): Option<DraftError> {
    if Blank(title) then Some(TitleRequired)
    else if |qs| == 0 then Some(QuestionRequired)
    else ScanFrom(qs, 0)
  }

  lemma {:induction false} ScanFromNone(qs: seq<DraftQuestion>, k: nat)
    requires k <= |qs|
    ensures ScanFrom(qs, k).None? <==> forall i :: k <= i < |qs| ==> QuestionWellFormed(qs[i])
    decreases |qs| - k
  {
    if k < |qs| {
      ScanFromNone(qs, k + 1);
    }
  }

  lemma {:induction false} ScanFromLocates(qs: seq<DraftQuestion>, k: nat)
    requires k <= |qs|
    requires ScanFrom(qs, k).Some?
    ensures var e := ScanFrom(qs, k).value;
      && e.AboutQuestion() && k <= e.question < |qs|
      && (forall j :: k <= j < e.question ==> QuestionWellFormed(qs[j]))
      && QuestionError(qs[e.question], e.question) == Some(e)
    decreases |qs| - k
  {
    if QuestionError(qs[k], k).None? {
      ScanFromLocates(qs, k + 1);
    }
  }

  /** `validate` is null exactly when every rule holds. */
  lemma FirstErrorNoneIffWellFormed(title: string, qs: seq<DraftQuestion>)
    ensures FirstError(title, qs).None? <==> WellFormed(title, qs)
  {
    if !Blank(title) && |qs| > 0 {
      ScanFromNone(qs, 0);
    }
  }

  /**
    Fail-fast order: an error about question `k` is reported only when the
    title is filled in, every earlier question passes every rule, and question
    `k` itself breaks that rule first. A blank title wins over everything.
  */
  lemma FirstErrorIsFirst(title: string, qs: seq<DraftQuestion>)
    ensures Blank(title) ==> FirstError(title, qs) == Some(TitleRequired)
    ensures FirstError(title, qs) == Some(QuestionRequired) <==> !Blank(title) && qs == []
    ensures FirstError(title, qs).Some? && FirstError(title, qs).value.AboutQuestion() ==>
      var e := FirstError(title, qs).value;
      && !Blank(title)
      && e.question < |qs|
      && (forall j :: 0 <= j < e.question ==> QuestionWellFormed(qs[j]))
      && QuestionError(qs[e.question], e.question) == Some(e)
  {
    if !Blank(title) && |qs| > 0 && ScanFrom(qs, 0).Some? {
      ScanFromLocates(qs, 0);
    }
  }

  /** The text of a question-level message: "Question <n>" followed by `MessageTail`. */
  function MessageTail(e: DraftError): string
    requires e.AboutQuestion()
  {
    match e
    case TextRequired(_) => ": text is required"
    case TooFewOptions(_) => ": at least two options are required"
    case OptionTextRequired(_, o) => ", Option " + Dec(o + 1) + ": text is required"
    case CorrectInvalid(_) => ": correct answer is invalid"
  }

  lemma MessageShape(e: DraftError)
    requires e.AboutQuestion()
    ensures Message(e) == "Question " + (NatDigits(e.question + 1) + MessageTail(e))
    ensures MessageTail(e)[0] == ':' || MessageTail(e)[0] == ','
  {
  }

  lemma MessageFirstChar(e: DraftError)
    ensures Message(e)[0] == if e.AboutQuestion() then 'Q' else if e.TitleRequired? then 'T' else 'A'
  {
  }

  lemma TailFirstChar(e: DraftError)
    requires e.AboutQuestion()
    ensures MessageTail(e)[0] == if e.OptionTextRequired? then ',' else ':'
  {
  }

  lemma {:induction false} OptionTailInjective(o1: nat, o2: nat)
    requires ", Option " + Dec(o1 + 1) + ": text is required" == ", Option " + Dec(o2 + 1) + ": text is required"
    ensures o1 == o2
  {
    var p2 := ", Option ";
    var rest := ": text is required";
    assert Dec(o1 + 1) == NatDigits(o1 + 1) && Dec(o2 + 1) == NatDigits(o2 + 1);
    var t1 := p2 + (NatDigits(o1 + 1) + rest);
    var t2 := p2 + (NatDigits(o2 + 1) + rest);
    assert t1 == p2 + Dec(o1 + 1) + rest;
    assert t2 == p2 + Dec(o2 + 1) + rest;
    assert NatDigits(o1 + 1) + rest == t1[|p2|..] == t2[|p2|..] == NatDigits(o2 + 1) + rest;
    DigitsPrefixUnique(o1 + 1, o2 + 1, rest, rest);
  }

  lemma {:induction false} TailInjective(e1: DraftError, e2: DraftError)
    requires e1.AboutQuestion() && e2.AboutQuestion() && e1.question == e2.question
    requires MessageTail(e1) == MessageTail(e2)
    ensures e1 == e2
  {
    TailFirstChar(e1);
    TailFirstChar(e2);
    if e1.OptionTextRequired? && e2.OptionTextRequired? {
      OptionTailInjective(e1.option, e2.option);
    } else if !e1.OptionTextRequired? && !e2.OptionTextRequired? {
      assert |MessageTail(e1)| == |MessageTail(e2)|;
    }
  }

  /** A question-level message without its "Question " prefix. */
  lemma MessageAfterPrefix(e: DraftError)
    requires e.AboutQuestion()
    ensures |Message(e)| >= 9 && Message(e)[9..] == NatDigits(e.question + 1) + MessageTail(e)
  {
    MessageShape(e);
    var rest := NatDigits(e.question + 1) + MessageTail(e);
    assert Message(e) == "Question " + rest;
    assert ("Question " + rest)[9..] == rest;
  }

  lemma {:induction false} QuestionMessageInjective(e1: DraftError, e2: DraftError)
    requires e1.AboutQuestion() && e2.AboutQuestion()
    requires Message(e1) == Message(e2)
    ensures e1 == e2
  {
    MessageAfterPrefix(e1);
    MessageAfterPrefix(e2);
    TailFirstChar(e1);
    TailFirstChar(e2);
    DigitsPrefixUnique(e1.question + 1, e2.question + 1, MessageTail(e1), MessageTail(e2));
    TailInjective(e1, e2);
  }

  /** Different errors give different messages, so the 1-based ordinals can be read back from a message. */
  lemma {:induction false} MessageInjective(e1: DraftError, e2: DraftError)
    requires Message(e1) == Message(e2)
    ensures e1 == e2
  {
    MessageFirstChar(e1);
    MessageFirstChar(e2);
    if e1.AboutQuestion() && e2.AboutQuestion() {
      QuestionMessageInjective(e1, e2);
    } else if !e1.AboutQuestion() && !e2.AboutQuestion() {
      assert |Message(e1)| == |Message(e2)|;
    }
  }

  /** The `validate` scan as the form runs it: title, count, then each question's rules in order. */
  method Validate(title: string, questions: seq<DraftQuestion>) returns (err: Option<DraftError>)
    ensures err == FirstError(title, questions)
  {
    if Blank(title) {
      return Some(TitleRequired);
    }
    if |questions| == 0 {
      return Some(QuestionRequired);
    }
    var qi := 0;
    while qi < |questions|
      invariant 0 <= qi <= |questions|
      invariant ScanFrom(questions, 0) == ScanFrom(questions, qi)
    {
      var q := questions[qi];
      if Blank(q.text) {
        return Some(TextRequired(qi));
      }
      if |q.options| < 2 {
        return Some(TooFewOptions(qi));
      }
      var oi := 0;
      while oi < |q.options|
        invariant 0 <= oi <= |q.options|
        invariant forall j :: 0 <= j < oi ==> !Blank(q.options[j])
      {
        if Blank(q.options[oi]) {
          assert FirstBlank(q.options) == Some(oi);
          return Some(OptionTextRequired(qi, oi));
        }
        oi := oi + 1;
      }
      if q.correctIndex < 0 || q.correctIndex >= |q.options| {
        return Some(CorrectInvalid(qi));
      }
      qi := qi + 1;
    }
    return None;
  }

  // ---------------------------------------------------------------------------
  // Payload

  datatype PayloadQuestion = PayloadQuestion(id: QuestionId, text: string, options: seq<string>, correctIndex: int)

  /** What `handleSubmit` passes to the submit callback; `id` is `initialQuiz?.id`. */
  datatype Payload = Payload(id: Option<string>, title: string, description: string, questions: seq<PayloadQuestion>)

  function TrimQuestion(q: DraftQuestion): PayloadQuestion {
    PayloadQuestion(q.id, Trim(q.text), TrimAll(q.options), q.correctIndex)
  }

  function BuildPayload(id: Option<string>, title: string, description: string, qs: seq<DraftQuestion>): (p: Payload)
    ensures |p.questions| == |qs|
    ensures forall i :: 0 <= i < |qs| ==> p.questions[i] == TrimQuestion(qs[i])
  {
    Payload(id, Trim(title), Trim(description), seq(|qs|, i requires 0 <= i < |qs| => TrimQuestion(qs[i])))
  }

  /** A payload question read back as a draft question. */
  function AsDraft(q: PayloadQuestion): DraftQuestion {
    DraftQuestion(q.id, q.text, q.options, q.correctIndex)
  }

  function AsDrafts(qs: seq<PayloadQuestion>): (r: seq<DraftQuestion>)
    ensures |r| == |qs|
    ensures forall i :: 0 <= i < |qs| ==> r[i] == AsDraft(qs[i])
  {
    seq(|qs|, i requires 0 <= i < |qs| => AsDraft(qs[i]))
  }

  /**
    The payload trims the title, the description, every question text and
    every option, and keeps question ids, order, option counts and correct
    indices.
  */
  lemma PayloadShape(id: Option<string>, title: string, description: string, qs: seq<DraftQuestion>)
    ensures var p := BuildPayload(id, title, description, qs);
      && p.id == id && p.title == Trim(title) && p.description == Trim(description)
      && |p.questions| == |qs|
      && forall i :: 0 <= i < |qs| ==>
        && p.questions[i].id == qs[i].id
        && p.questions[i].text == Trim(qs[i].text)
        && |p.questions[i].options| == |qs[i].options|
        && (forall j :: 0 <= j < |qs[i].options| ==> p.questions[i].options[j] == Trim(qs[i].options[j]))
        && p.questions[i].correctIndex == qs[i].correctIndex
  {
  }

  /** Building the payload of a payload changes nothing: normalisation is idempotent. */
  lemma PayloadIdempotent(id: Option<string>, title: string, description: string, qs: seq<DraftQuestion>)
    ensures var p := BuildPayload(id, title, description, qs);
      BuildPayload(p.id, p.title, p.description, AsDrafts(p.questions)) == p
  {
    var p := BuildPayload(id, title, description, qs);
    var p2 := BuildPayload(p.id, p.title, p.description, AsDrafts(p.questions));
    TrimIdempotent(title);
    TrimIdempotent(description);
    forall i | 0 <= i < |qs| ensures p2.questions[i] == p.questions[i] {
      TrimIdempotent(qs[i].text);
      forall j | 0 <= j < |qs[i].options| ensures Trim(Trim(qs[i].options[j])) == Trim(qs[i].options[j]) {
        TrimIdempotent(qs[i].options[j]);
      }
    }
  }

  lemma {:induction false} FirstBlankTrimmed(options: seq<string>)
    ensures FirstBlank(TrimAll(options)) == FirstBlank(options)
  {
    if options != [] {
      BlankTrim(options[0]);
      assert TrimAll(options)[1..] == TrimAll(options[1..]);
      FirstBlankTrimmed(options[1..]);
    }
  }

  lemma {:induction false} ScanFromTrimmed(qs: seq<DraftQuestion>, k: nat)
    requires k <= |qs|
    ensures ScanFrom(AsDrafts(BuildPayload(None, "", "", qs).questions), k) == ScanFrom(qs, k)
    decreases |qs| - k
  {
    if k < |qs| {
      var t := AsDrafts(BuildPayload(None, "", "", qs).questions);
      BlankTrim(qs[k].text);
      FirstBlankTrimmed(qs[k].options);
      assert QuestionError(t[k], k) == QuestionError(qs[k], k);
      ScanFromTrimmed(qs, k + 1);
    }
  }

  /**
    Trimming does not change what `validate` says: the payload of a draft
    reports the same first error as the draft itself, so the payload of a
    draft that passes validation passes it too.
  */
  lemma PayloadValidatesAlike(id: Option<string>, title: string, description: string, qs: seq<DraftQuestion>)
    ensures var p := BuildPayload(id, title, description, qs);
      FirstError(p.title, AsDrafts(p.questions)) == FirstError(title, qs)
  {
    BlankTrim(title);
    var p := BuildPayload(id, title, description, qs);
    assert AsDrafts(p.questions) == AsDrafts(BuildPayload(None, "", "", qs).questions);
    if |qs| > 0 {
      ScanFromTrimmed(qs, 0);
    }
  }

  // ---------------------------------------------------------------------------
  // The form's state

  class Draft {
    const initial: Option<InitialQuiz>
    var title: string
    var description: string
    var questions: seq<DraftQuestion>
    var error: Option<string>

    /** The state `useState` starts from; `mint(i)` is the `uid()` for initial question `i`. */
    constructor (initial: Option<InitialQuiz>, mint: nat -> QuestionId)
      ensures this.initial == initial
      ensures title == InitialTitle(initial) && description == InitialDescription(initial)
      ensures questions == InitialQuestions(initial, mint)
      ensures error == None
    {
      this.initial := initial;
      title := InitialTitle(initial);
      description := InitialDescription(initial);
      questions := InitialQuestions(initial, mint);
      error := None;
    }

    /** The Reset button: back to the initial state, with newly minted ids for questions that had none. */
    method Reset(mint: nat -> QuestionId)
      modifies this
      ensures title == InitialTitle(initial) && description == InitialDescription(initial)
      ensures questions == InitialQuestions(initial, mint)
      ensures error == None
    {
      title := InitialTitle(initial);
      description := InitialDescription(initial);
      questions := InitialQuestions(initial, mint);
      error := None;
    }

    /** The title field's `onChange`. */
    method SetTitle(value: string)
      modifies this`title
      ensures title == value
    {
      title := value;
    }

    /** The description field's `onChange`. */
    method SetDescription(value: string)
      modifies this`description
      ensures description == value
    {
      description := value;
    }

    method AddQuestion(freshId: QuestionId)
      modifies this`questions
      ensures questions == old(questions) + [BlankQuestion(freshId)]
    {
      questions := questions + [BlankQuestion(freshId)];
    }

    method RemoveQuestion(id: QuestionId)
      modifies this`questions
      ensures questions == WithoutQuestion(old(questions), id)
    {
      questions := WithoutQuestion(questions, id);
    }

    method UpdateQuestionText(id: QuestionId, text: string)
      modifies this`questions
      ensures questions == EditQuestion(old(questions), id, SetText(text))
    {
      questions := EditQuestion(questions, id, SetText(text));
    }

    method AddOptionTo(id: QuestionId)
      modifies this`questions
      ensures questions == EditQuestion(old(questions), id, AddOption)
    {
      questions := EditQuestion(questions, id, AddOption);
    }

    method RemoveOptionFrom(id: QuestionId, index: int)
      modifies this`questions
      ensures questions == EditQuestion(old(questions), id, RemoveOption(index))
    {
      questions := EditQuestion(questions, id, RemoveOption(index));
    }

    method UpdateOptionText(id: QuestionId, index: int, text: string)
      modifies this`questions
      ensures questions == EditQuestion(old(questions), id, SetOptionText(index, text))
    {
      questions := EditQuestion(questions, id, SetOptionText(index, text));
    }

    method SetCorrectIndex(id: QuestionId, index: int)
      modifies this`questions
      ensures questions == EditQuestion(old(questions), id, SetCorrect(index))
    {
      questions := EditQuestion(questions, id, SetCorrect(index));
    }

    /**
      `handleSubmit` up to the call of the submit callback: a draft that fails
      validation shows the message and yields no payload; a valid one clears
      the error and yields the trimmed payload.
    */
    method HandleSubmit() returns (payload: Option<Payload>)
      modifies this`error
      ensures FirstError(title, questions).Some? ==>
        payload.None? && error == Some(Message(FirstError(title, questions).value))
      ensures FirstError(title, questions).None? ==>
        error.None? && payload == Some(BuildPayload(if initial.Some? then initial.value.id else None, title, description, questions))
    {
      error := None;
      var err := Validate(title, questions);
      if err.Some? {
        error := Some(Message(err.value));
        return None;
      }
      var id := if initial.Some? then initial.value.id else None;
      return Some(BuildPayload(id, title, description, questions));
    }
  }
}
