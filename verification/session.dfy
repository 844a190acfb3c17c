/** The per-question annotation session of the step editor, as values: the
    question list, the form schema, and every transition the editor's
    handlers perform on (question index, final switch, form fields, trace). */
module Session {

  datatype Result<T, E> = Ok(value: T) | Err(error: E)

  /** The two questions the editor steps through, in order. */
  const Questions: seq<string> := [
    "Peter Quill in Guardians of the Galaxy was born in which U.S. state?",
    "Who is the president of India?"
  ]

  /** Fewest characters the schema accepts for a thought. */
  const MinThoughtLength: nat := 10

  /** The five form fields. A tool that has not been chosen is "". */
  datatype Fields = Fields(
    thought: string,
    action: string,
    actionInput: string,
    wikipedia: string,
    wikidata: string)

  /** Every field empty: the form's default values and what a full reset writes. */
  const Blank := Fields("", "", "", "", "")

  /** A recorded step is the validated form values. */
  type Step = Fields

  datatype FormError = ThoughtTooShort

  /** The form schema: a thought of at least ten characters; `actionInput`
      is any string, possibly empty; `action`, `wikipedia` and `wikidata`
      are optional. The final switch plays no part. */
  function Validate(f: Fields): (r: Result<Step, FormError>)
    ensures r.Ok? <==> |f.thought| >= MinThoughtLength
    ensures r.Ok? ==> r.value == f
  {
    if |f.thought| < MinThoughtLength then Err(ThoughtTooShort) else Ok(f)
  }

  /** A step the schema accepted. */
  predicate Accepted(step: Step) {
    Validate(step).Ok?
  }

  predicate AllAccepted(trace: seq<Step>) {
    forall i :: 0 <= i < |trace| ==> Accepted(trace[i])
  }

  /** The state of one editing session. `trace` is the page's shared trace. */
  datatype State = State(index: int, finalCheck: bool, fields: Fields, trace: seq<Step>)

  const Init := State(0, false, Blank, [])

  /** The question index names an entry of the question list. */
  predicate InRange(s: State) {
    0 <= s.index < |Questions|
  }

  /** The form differs from its default values. */
  predicate IsDirty(f: Fields) {
    f != Blank
  }

  /** The confirmation gate: navigation needs no acknowledgment exactly when
      the form is untouched and no step has been recorded. */
  predicate NavigatesImmediately(s: State) {
    !IsDirty(s.fields) && |s.trace| == 0
  }

  /** What the effect after a successful submission writes: the thought, the
      tool and its input are emptied. The two answers, which that reset does
      not name, are kept here; the form library drops them instead. */
  function ClearedAfterSuccess(f: Fields): (g: Fields)
    ensures g.thought == "" && g.action == "" && g.actionInput == ""
    ensures g.wikipedia == f.wikipedia && g.wikidata == f.wikidata
  {
    f.(thought := "", action := "", actionInput := "")
  }

  /** Leaving a question: fields and trace are emptied, the index moves by
      `delta`, the final switch stays. */
  function Leave(s: State, delta: int): State {
    s.(index := s.index + delta, fields := Blank, trace := [])
  }

  /** The "next question" handler. */
  function NextQuestion(s: State): (r: State)
    ensures s.index == |Questions| - 1 ==> r == s
    ensures s.index != |Questions| - 1 ==>
      r.index == s.index + 1 && r.fields == Blank && r.trace == [] && r.finalCheck == s.finalCheck
    ensures InRange(s) ==> InRange(r)
  {
    if s.index == |Questions| - 1 then s else Leave(s, 1)
  }

  /** The "previous question" handler. */
  function PreviousQuestion(s: State): (r: State)
    ensures s.index == 0 ==> r == s
    ensures s.index != 0 ==>
      r.index == s.index - 1 && r.fields == Blank && r.trace == [] && r.finalCheck == s.finalCheck
    ensures InRange(s) ==> InRange(r)
  {
    if s.index == 0 then s else Leave(s, -1)
  }

  datatype Direction = Forward | Backward

  /** The user's answer to the "Are you sure?" dialog. */
  datatype Reply = Continue | Cancel

  /** A click on a navigation chevron. When the gate lets it through, the
      handler runs at once; otherwise the dialog opens and the handler runs
      only on "Continue". */
  function Navigate(s: State, dir: Direction, reply: Reply): (r: State)
    ensures !NavigatesImmediately(s) && reply == Cancel ==> r == s
    ensures NavigatesImmediately(s) || reply == Continue ==>
      r == (if dir == Forward then NextQuestion(s) else PreviousQuestion(s))
    ensures r != s ==> r.trace == [] && r.fields == Blank && r.finalCheck == s.finalCheck
    ensures InRange(s) ==> InRange(r)
  {
    if NavigatesImmediately(s) || reply == Continue then
      match dir
      case Forward => NextQuestion(s)
      case Backward => PreviousQuestion(s)
    else
      s
  }

  /** "Previous" undoes "next" on the question index; what was on screen and
      the trace are gone. */
  lemma NextThenPrevious(s: State)
    requires 0 <= s.index < |Questions| - 1
    ensures PreviousQuestion(NextQuestion(s)) == s.(fields := Blank, trace := [])
  {
  }

  /** The final submission's index update as the editor performs it, and as
      it was evidently meant to behave (advance only while a next question
      exists, as the "next question" handler does). */
  datatype Build = AsWritten | Corrected

  function FinalAdvance(b: Build, index: int): (i: int)
    ensures b == AsWritten ==> i == index + 1
    ensures b == Corrected && 0 <= index < |Questions| ==> 0 <= i < |Questions|
    ensures b == Corrected && index < |Questions| - 1 ==> i == index + 1
  {
    match b
    case AsWritten => index + 1
    case Corrected => if index < |Questions| - 1 then index + 1 else index
  }

  /** Pressing Submit: the schema check, then the submit handler (record the
      step, or on a final answer reset everything and advance), then the
      effect that runs once the submission succeeded. Returns the new state
      and the schema's verdict. */
  function Submit(b: Build, s: State): (r: (State, Result<Step, FormError>))
    ensures r.1.Ok? <==> Accepted(s.fields)
    ensures r.1.Ok? ==> r.1.value == s.fields
    ensures r.1.Err? ==> r.0 == s
    ensures r.1.Ok? && !s.finalCheck ==>
      && r.0.trace == s.trace + [s.fields]
      && r.0.index == s.index
      && r.0.finalCheck == s.finalCheck
      && r.0.fields == ClearedAfterSuccess(s.fields)
    ensures r.1.Ok? && s.finalCheck ==>
      && r.0.trace == []
      && r.0.fields == Blank
      && r.0.finalCheck == s.finalCheck
      && r.0.index == FinalAdvance(b, s.index)
    ensures AllAccepted(s.trace) ==> AllAccepted(r.0.trace)
    ensures b == Corrected && InRange(s) ==> InRange(r.0)
  {
    match Validate(s.fields)
    case Err(e) => (s, Err(e))
    case Ok(values) =>
      var handled :=
        if s.finalCheck then
          s.(fields := Blank, trace := [], index := FinalAdvance(b, s.index))
        else
          s.(trace := s.trace + [values]);
      (handled.(fields := ClearedAfterSuccess(handled.fields)), Ok(values))
  }
}
