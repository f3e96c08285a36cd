/**
  The single-question editor (frontend/src/components/QuestionBuilder.jsx):
  question text, option texts and an optional correct index, edited in place;
  option removal refused at two options; a fail-fast check that records its
  message in `error`; and the trimmed question handed to `onSave`.
*/
module QuestionBuilder {
  import opened Optional
  import opened Strings
  import opened Sequences

  /**
    The `initialQuestion` prop. `options` is `None` when the prop's options are
    not an array; `correctIndex` is `None` when it is not a number.
  */
  datatype InitialQuestion = InitialQuestion(
    id: Option<string>, text: Option<string>, options: Option<seq<string>>, correctIndex: Option<int>)

  /** The question passed to `onSave`. */
  datatype SavedQuestion = SavedQuestion(id: Option<string>, text: string, options: seq<string>, correctIndex: int)

  /** The rules `validate` checks, in order. */
  datatype Problem = TextRequired | TooFewOptions | BlankOption | NoCorrectSelected

  function Message(p: Problem): string {
    match p
    case TextRequired => "Question text is required."
    case TooFewOptions => "At least two options are required."
    case BlankOption => "All options must have non-empty text."
    case NoCorrectSelected => "Please select the correct option."
  }

  /** The options the effect loads: a copy of the prop's options when there are at least two, otherwise two empty ones. */
  function LoadedOptions(options: Option<seq<string>>): (r: seq<string>)
    ensures |r| >= 2
    ensures options.Some? && |options.value| >= 2 ==> r == options.value
    ensures options.None? || |options.value| < 2 ==> r == ["", ""]
  {
    if options.Some? && |options.value| >= 2 then options.value else ["", ""]
  }

  /** The options after `removeOption(idx)`. */
  function OptionsAfterRemove(options: seq<string>, idx: nat): seq<string> {
    if |options| <= 2 then options else RemoveAt(options, idx)
  }

  /** The correct index after `removeOption(idx)`. */
  function CorrectAfterRemove(options: seq<string>, correct: Option<int>, idx: nat): Option<int> {
    if |options| <= 2 then correct
    else match correct
      case None => None
      case Some(c) => if c == idx then None else if c > idx then Some(c - 1) else Some(c)
  }

  /**
    Removal never goes below two options: at two or fewer it changes nothing;
    above that it deletes exactly option `idx` and keeps the others in order.
  */
  lemma RemoveOptionFloor(options: seq<string>, idx: nat)
    ensures |options| >= 2 ==> |OptionsAfterRemove(options, idx)| >= 2
    ensures |options| <= 2 ==> OptionsAfterRemove(options, idx) == options
    ensures |options| > 2 && idx < |options| ==>
      var r := OptionsAfterRemove(options, idx);
      && |r| == |options| - 1
      && forall k :: 0 <= k < |r| ==> r[k] == if k < idx then options[k] else options[k + 1]
  {
  }

  /**
    When an option is actually removed, the selection is cleared if it was the
    removed option, moves down if it was after it, and stays if it was before.
  */
  lemma RemoveOptionSelection(options: seq<string>, c: int, idx: nat)
    requires |options| > 2
    ensures c == idx ==> CorrectAfterRemove(options, Some(c), idx) == None
    ensures c > idx ==> CorrectAfterRemove(options, Some(c), idx) == Some(c - 1)
    ensures c < idx ==> CorrectAfterRemove(options, Some(c), idx) == Some(c)
    ensures CorrectAfterRemove(options, None, idx) == None
  {
  }

  /** A selection that points at an option still points at an option (or is cleared) after a removal. */
  lemma RemoveOptionKeepsSelectionValid(options: seq<string>, correct: Option<int>, idx: nat)
    requires idx < |options|
    requires correct.Some? ==> 0 <= correct.value < |options|
    ensures var c := CorrectAfterRemove(options, correct, idx);
      c.Some? ==> 0 <= c.value < |OptionsAfterRemove(options, idx)|
  {
  }

  /** Every rule holds: text, two options, no blank option, a selection in range. */
  predicate Ready(text: string, options: seq<string>, correct: Option<int>) {
    && !Blank(text)
    && |options| >= 2
    && (forall j :: 0 <= j < |options| ==> !Blank(options[j]))
    && correct.Some? && 0 <= correct.value < |options|
  }

  /** The first rule `validate` finds broken; each is reported exactly when the earlier ones hold. */
  function FirstProblem(text: string, options: seq<string>, correct: Option<int>): (r: Option<Problem>)
    ensures r.None? <==> Ready(text, options, correct)
    ensures r == Some(TextRequired) <==> Blank(text)
    ensures r == Some(TooFewOptions) <==> !Blank(text) && |options| < 2
    ensures r == Some(BlankOption) <==>
      !Blank(text) && |options| >= 2 && exists j :: 0 <= j < |options| && Blank(options[j])
    ensures r == Some(NoCorrectSelected) <==>
      && !Blank(text) && |options| >= 2
      && (forall j :: 0 <= j < |options| ==> !Blank(options[j]))
      && (correct.None? || !(0 <= correct.value < |options|))
  {
    if Blank(text) then Some(TextRequired)
    else if |options| < 2 then Some(TooFewOptions)
    else if exists j :: 0 <= j < |options| && Blank(options[j]) then Some(BlankOption)
    else if correct.None? || correct.value < 0 || correct.value >= |options| then Some(NoCorrectSelected)
    else None
  }

  /** What `onSave` receives from a ready builder. */
  function Saved(id: Option<string>, text: string, options: seq<string>, correct: int): SavedQuestion {
    SavedQuestion(id, Trim(text), TrimAll(options), correct)
  }

  /**
    A saved question has non-empty trimmed text, at least two non-empty
    trimmed options, and its correct index points at one of them.
  */
  lemma SavedIsClean(id: Option<string>, text: string, options: seq<string>, correct: Option<int>)
    requires FirstProblem(text, options, correct).None?
    ensures var s := Saved(id, text, options, correct.value);
      && s.text != [] && !Blank(s.text)
      && |s.options| == |options| >= 2
      && (forall j :: 0 <= j < |s.options| ==> s.options[j] != [] && !Blank(s.options[j]))
      && 0 <= s.correctIndex < |s.options|
  {
    BlankIffTrimEmpty(text);
    BlankTrim(text);
    forall j | 0 <= j < |options| ensures Trim(options[j]) != [] && !Blank(Trim(options[j])) {
      BlankIffTrimEmpty(options[j]);
      BlankTrim(options[j]);
    }
  }

  class Builder {
    var prop: Option<InitialQuestion>
    var text: string
    var options: seq<string>
    var correctIndex: Option<int>
    var error: string

    /** The `useState` defaults, then the mount-time run of the effect that loads `initialQuestion`. */
    constructor (initial: Option<InitialQuestion>)
      ensures prop == initial && error == ""
      ensures initial.None? ==> text == "" && options == ["", ""] && correctIndex == None
      ensures initial.Some? ==>
        && text == OrElse(initial.value.text)
        && options == LoadedOptions(initial.value.options)
        && correctIndex == initial.value.correctIndex
    {
      prop := initial;
      text := "";
      options := ["", ""];
      correctIndex := None;
      error := "";
      new;
      LoadInitial(initial);
    }

    /** The effect run when the `initialQuestion` prop changes; a missing prop leaves the fields as they are. */
    method LoadInitial(initial: Option<InitialQuestion>)
      modifies this
      ensures prop == initial && error == old(error)
      ensures initial.None? ==> text == old(text) && options == old(options) && correctIndex == old(correctIndex)
      ensures initial.Some? ==>
        && text == OrElse(initial.value.text)
        && options == LoadedOptions(initial.value.options)
        && correctIndex == initial.value.correctIndex
    {
      prop := initial;
      if initial.Some? {
        text := OrElse(initial.value.text);
        options := LoadedOptions(initial.value.options);
        correctIndex := initial.value.correctIndex;
      }
    }

    method SetText(value: string)
      modifies this`text
      ensures text == value
    {
      text := value;
    }

    /** The radio button of option `idx`. */
    method SelectCorrect(idx: nat)
      modifies this`correctIndex
      ensures correctIndex == Some(idx)
    {
      correctIndex := Some(idx);
    }

    /** `updateOption(idx, value)`: only position `idx` changes. */
    method UpdateOption(idx: nat, value: string)
      requires idx < |options|
      modifies this`options
      ensures |options| == |old(options)| && options[idx] == value
      ensures forall k :: 0 <= k < |options| && k != idx ==> options[k] == old(options)[k]
    {
      options := options[idx := value];
    }

    /** `addOption`: one empty option at the end. */
    method AddOption()
      modifies this`options
      ensures options == old(options) + [""]
    {
      options := options + [""];
    }

    /** `removeOption(idx)`: refused at two options, otherwise splice and adjust the selection. */
    method RemoveOption(idx: nat)
      modifies this`options, this`correctIndex
      ensures options == OptionsAfterRemove(old(options), idx)
      ensures correctIndex == CorrectAfterRemove(old(options), old(correctIndex), idx)
      ensures old(|options|) >= 2 ==> |options| >= 2
    {
      if |options| <= 2 {
        return;
      }
      var before := options;
      options := RemoveAt(options, idx);
      if correctIndex == Some(idx) {
        correctIndex := None;
      } else if correctIndex.Some? && correctIndex.value > idx {
        correctIndex := Some(correctIndex.value - 1);
      }
      assert options == OptionsAfterRemove(before, idx);
    }

    /** `validate()`: true and a cleared message when every rule holds, otherwise false and the first rule's message. */
    method Validate() returns (ok: bool)
      modifies this`error
      ensures ok <==> Ready(text, options, correctIndex)
      ensures error == if ok then "" else Message(FirstProblem(text, options, correctIndex).value)
    {
      var p := FirstProblem(text, options, correctIndex);
      if p.Some? {
        error := Message(p.value);
        return false;
      }
      error := "";
      return true;
    }

    /** `handleSave()`: the trimmed question when `validate` succeeds, nothing otherwise. */
    method HandleSave() returns (saved: Option<SavedQuestion>)
      modifies this`error
      ensures saved.Some? <==> Ready(text, options, correctIndex)
      ensures saved.Some? ==>
        saved.value == Saved(if prop.Some? then prop.value.id else None, text, options, correctIndex.value)
      ensures error == if saved.Some? then "" else Message(FirstProblem(text, options, correctIndex).value)
    {
      var ok := Validate();
      if !ok {
        return None;
      }
      var id := if prop.Some? then prop.value.id else None;
      return Some(Saved(id, text, options, correctIndex.value));
    }
  }

  /** JavaScript's `s || ""` for an optional string. */
  function OrElse(s: Option<string>): string {
    if s.Some? then s.value else ""
  }
}
