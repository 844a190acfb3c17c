/** Sequences of user inputs applied to an editing session, and what holds
    after any of them. */
module SessionRuns {
  import opened Session

  /** One user input: typing into the form, flipping the final switch,
      pressing Submit, or clicking a chevron (with the reply the dialog
      would get). */
  datatype Event =
    | Edit(f: Fields)
    | SetFinal(on: bool)
    | SubmitClick
    | NavigationClick(dir: Direction, reply: Reply)

  function Apply(b: Build, s: State, e: Event): State {
    match e
    case Edit(f) => s.(fields := f)
    case SetFinal(on) => s.(finalCheck := on)
    case SubmitClick => Submit(b, s).0
    case NavigationClick(dir, reply) => Navigate(s, dir, reply)
  }

  function Run(b: Build, s: State, events: seq<Event>): State
    decreases |events|
  {
    if events == [] then s else Run(b, Apply(b, s, events[0]), events[1..])
  }

  /** Inputs that stay on the current question as intermediate steps:
      editing and submitting only. */
  predicate StepsOnly(events: seq<Event>) {
    forall i :: 0 <= i < |events| ==> events[i].Edit? || events[i].SubmitClick?
  }

  /** Reference definition of the steps a run of edits and non-final
      submissions records, starting from form contents `f`: each submission
      whose thought is long enough contributes exactly the values on screen. */
  function Recorded(f: Fields, events: seq<Event>): seq<Step>
    decreases |events|
  {
    if events == [] then []
    else match events[0]
      case Edit(g) => Recorded(g, events[1..])
      case SubmitClick =>
        if Accepted(f) then [f] + Recorded(ClearedAfterSuccess(f), events[1..])
        else Recorded(f, events[1..])
      case _ => Recorded(f, events[1..])
  }

  /** How many times Submit is pressed in `events`. */
  function Submits(events: seq<Event>): nat
    decreases |events|
  {
    if events == [] then 0
    else (if events[0].SubmitClick? then 1 else 0) + Submits(events[1..])
  }

  /** At most one step is recorded per press of Submit, every recorded step
      passed the schema, and each one is either what was on screen at the
      start or a value the user typed during the run. */
  lemma {:induction false} RecordedBounds(f: Fields, events: seq<Event>)
    ensures |Recorded(f, events)| <= Submits(events)
    ensures AllAccepted(Recorded(f, events))
    ensures forall i :: 0 <= i < |Recorded(f, events)| ==>
      Recorded(f, events)[i] == f || Edit(Recorded(f, events)[i]) in events
    decreases |events|
  {
    if events != [] {
      var rest := events[1..];
      match events[0]
      case Edit(g) =>
        RecordedBounds(g, rest);
        forall i | 0 <= i < |Recorded(g, rest)|
          ensures Recorded(g, rest)[i] == f || Edit(Recorded(g, rest)[i]) in events
        {
          if Recorded(g, rest)[i] == g {
            assert events[0] == Edit(g);
          } else {
            assert Edit(Recorded(g, rest)[i]) in rest;
          }
        }
      case SubmitClick =>
        var cleared := ClearedAfterSuccess(f);
        if Accepted(f) {
          RecordedBounds(cleared, rest);
          assert !Accepted(cleared);
          forall i | 0 <= i < |Recorded(cleared, rest)|
            ensures Recorded(cleared, rest)[i] == f || Edit(Recorded(cleared, rest)[i]) in events
          {
            assert Accepted(Recorded(cleared, rest)[i]);
            assert Recorded(cleared, rest)[i] != cleared;
            assert Edit(Recorded(cleared, rest)[i]) in rest;
          }
        } else {
          RecordedBounds(f, rest);
          forall i | 0 <= i < |Recorded(f, rest)|
            ensures Recorded(f, rest)[i] == f || Edit(Recorded(f, rest)[i]) in events
          {
            if Recorded(f, rest)[i] != f {
              assert Edit(Recorded(f, rest)[i]) in rest;
            }
          }
        }
      case _ =>
        RecordedBounds(f, rest);
        forall i | 0 <= i < |Recorded(f, rest)|
          ensures Recorded(f, rest)[i] == f || Edit(Recorded(f, rest)[i]) in events
        {
          if Recorded(f, rest)[i] != f {
            assert Edit(Recorded(f, rest)[i]) in rest;
          }
        }
    }
  }

  /** With the final switch off, a run of edits and submissions leaves the
      question where it was and extends the trace by exactly the accepted
      steps, in submission order: earlier steps are never changed. */
  lemma {:induction false} StepsOnlyRecordsAccepted(b: Build, s: State, events: seq<Event>)
    requires !s.finalCheck && StepsOnly(events)
    ensures Run(b, s, events).trace == s.trace + Recorded(s.fields, events)
    ensures Run(b, s, events).index == s.index
    ensures !Run(b, s, events).finalCheck
    decreases |events|
  {
    if events != [] {
      var next := Apply(b, s, events[0]);
      assert StepsOnly(events[1..]) by {
        forall i | 0 <= i < |events[1..]| ensures events[1..][i].Edit? || events[1..][i].SubmitClick? {
          assert events[1..][i] == events[i + 1];
        }
      }
      StepsOnlyRecordsAccepted(b, next, events[1..]);
      match events[0]
      case Edit(g) =>
      case SubmitClick =>
        if Accepted(s.fields) {
          assert next.trace == s.trace + [s.fields];
          assert s.trace + Recorded(s.fields, events)
              == (s.trace + [s.fields]) + Recorded(next.fields, events[1..]);
        }
    }
  }

  /** Whatever the user does, the trace holds only steps the schema accepted. */
  lemma {:induction false} RunKeepsAcceptedSteps(b: Build, s: State, events: seq<Event>)
    requires AllAccepted(s.trace)
    ensures AllAccepted(Run(b, s, events).trace)
    decreases |events|
  {
    if events != [] {
      RunKeepsAcceptedSteps(b, Apply(b, s, events[0]), events[1..]);
    }
  }

  /** With the final submission corrected, the question index never leaves
      the question list, whatever the user does. */
  lemma {:induction false} CorrectedRunStaysInRange(s: State, events: seq<Event>)
    requires InRange(s)
    ensures InRange(Run(Corrected, s, events))
    decreases |events|
  {
    if events != [] {
      CorrectedRunStaysInRange(Apply(Corrected, s, events[0]), events[1..]);
    }
  }

  /** Running two input sequences one after the other is running their
      concatenation. */
  lemma {:induction false} RunConcat(b: Build, s: State, first: seq<Event>, rest: seq<Event>)
    ensures Run(b, s, first + rest) == Run(b, Run(b, s, first), rest)
    decreases |first|
  {
    if first != [] {
      assert (first + rest)[0] == first[0];
      assert (first + rest)[1..] == first[1..] + rest;
      RunConcat(b, Apply(b, s, first[0]), first[1..], rest);
    } else {
      assert first + rest == rest;
    }
  }

  /** A thought long enough for the schema, with both answers filled in. */
  const Answer := Fields("Looking for birth state", "", "", "Missouri", "Q1234")


  /** With the final switch on, answering a question: type, then submit. */
  const AnswerQuestion := [Edit(Answer), SubmitClick]

  /** A confirmed click on "next question". */
  const ClickNext := [NavigationClick(Forward, Continue)]

  /** With the final switch on, typing an answer the schema accepts and
      submitting it empties the trace and the form and makes the final index
      update. */
  lemma AnswerAdvances(b: Build, s: State, f: Fields)
    requires s.finalCheck && Accepted(f)
    ensures Run(b, s, [Edit(f), SubmitClick]).index == FinalAdvance(b, s.index)
    ensures Run(b, s, [Edit(f), SubmitClick]).trace == []
    ensures Run(b, s, [Edit(f), SubmitClick]).fields == Blank
    ensures Run(b, s, [Edit(f), SubmitClick]).finalCheck
  {
    var typed := Apply(b, s, Edit(f));
    assert Run(b, s, [Edit(f), SubmitClick]) == Run(b, typed, [SubmitClick]);
    assert Run(b, typed, [SubmitClick]) == Submit(b, typed).0;
  }

  /** As written, answering both questions with the final switch on moves the
      index past the question list; the "next question" guard, an equality
      test against the last index, then no longer stops a further move. The
      corrected build stays on the last question. */
  lemma FinalSubmitPastTheEnd(b: Build)
    ensures b == AsWritten ==> Run(b, Init, [SetFinal(true)] + AnswerQuestion + AnswerQuestion).index == |Questions|
    ensures b == AsWritten ==> Run(b, Init, [SetFinal(true)] + AnswerQuestion + AnswerQuestion + ClickNext).index == |Questions| + 1
    ensures b == Corrected ==> Run(b, Init, [SetFinal(true)] + AnswerQuestion + AnswerQuestion + ClickNext).index == |Questions| - 1
  {
    var s1 := Run(b, Init, [SetFinal(true)]);
    assert s1 == Init.(finalCheck := true);
    RunConcat(b, Init, [SetFinal(true)], AnswerQuestion);
    AnswerAdvances(b, s1, Answer);
    var s2 := Run(b, s1, AnswerQuestion);
    RunConcat(b, Init, [SetFinal(true)] + AnswerQuestion, AnswerQuestion);
    AnswerAdvances(b, s2, Answer);
    var s3 := Run(b, s2, AnswerQuestion);
    RunConcat(b, Init, [SetFinal(true)] + AnswerQuestion + AnswerQuestion, ClickNext);
    assert Run(b, s3, ClickNext) == Navigate(s3, Forward, Continue);
  }
}
