# Annotation session of the hybrid-qa step editor

The hybrid-qa front end lets an annotator answer trivia questions by recording
a ReAct-style trace of steps (thought, tool, tool input) and then a final
answer. This project models the part of it that is a state machine: the page
component `Main` that owns the trace (`formData`), and the editor `Thoughts`
with its question index over a fixed list of two questions, its final-answer
switch, its five form fields, its form schema, its submit handler, its two
navigation handlers with their confirmation gate, and the reset that follows a
successful submission.

Layout:

- `main_page.dfy`, module `MainPage`: class `Main<T>` holding `formData` as a
  `seq`, with the two callbacks the editor receives (`HandleFormSubmit`,
  `ClearFormData`), and the pure append they are specified by.
- `session.dfy`, module `Session`: the editor's session as a value
  (`State`: index, final switch, fields, trace) and every transition as a
  function: the schema (`Validate`), `Submit`, `NextQuestion`,
  `PreviousQuestion`, the gate (`NavigatesImmediately`, `Navigate`).
- `thoughts.dfy`, module `Thoughts`: class `Thoughts`, whose fields are the
  editor's state and which holds a reference to the page; its handlers change
  that state step by step as the component does, and each is proved to produce
  exactly the corresponding `Session` transition. `MountPage` builds a page
  with its editor sharing one trace.
- `session_runs.dfy`, module `SessionRuns`: arbitrary sequences of user inputs
  (`Run`) and what holds after any of them.

Modelling choices:

- The history view is not modelled beyond the fact that it is handed the same
  `formData` the editor writes (`Thoughts.page` aliases the page).
- `action` starts out undefined in the component (it has no default value);
  here "no tool chosen" is `""`, which the schema accepts just as it accepts a
  missing value.
- "The form is dirty" is modelled as "some field differs from its default
  value `""`".
- The reset after success is an explicit step that runs after the submit
  handler on every submission that passed the schema.
- Thought length is counted in characters of the `string`. The schema counts
  UTF-16 code units; the two differ only outside the Basic Multilingual Plane.

## Model

| member | source | states |
|---|---|---|
| MainPage.Appended | components/main.jsx:10-12 | the new trace is one longer, ends with the submitted step and keeps every earlier step at its position |
| MainPage.Main.constructor | components/main.jsx:8 | the trace starts empty |
| MainPage.Main.HandleFormSubmit | components/main.jsx:10-12 | the trace becomes a new sequence: the old one with the step appended; the old value itself is a value and is not altered |
| MainPage.Main.ClearFormData | components/main.jsx:18 | the trace becomes empty whatever it held (so clearing twice is clearing once) |
| Session.Validate | components/thoughts.jsx:50-68 | a submission passes exactly when the thought has at least 10 characters, whatever the other four fields hold and whatever the final switch says; a passing submission yields the values unchanged |
| Session.ClearedAfterSuccess | components/thoughts.jsx:128-134 | after success the thought, tool and tool input are empty; the two answers, which the reset does not name, are kept in this model (see "## Left out") |
| Session.NextQuestion | components/thoughts.jsx:105-114 | at the last question nothing changes; elsewhere the index moves up by one, fields and trace are emptied, the switch stays; the index stays in the list |
| Session.PreviousQuestion | components/thoughts.jsx:116-125 | at the first question nothing changes; elsewhere the index moves down by one, fields and trace are emptied, the switch stays; the index stays in the list |
| Session.NextThenPrevious | components/thoughts.jsx:105-125 | "previous" after "next" returns to the same question with an empty form and an empty trace |
| Session.Navigate | components/thoughts.jsx:141-179 | with a clean form and an empty trace the handler runs at once; otherwise "Cancel" changes nothing and "Continue" runs the handler; any change empties fields and trace; the index stays in the list |
| Session.FinalAdvance | components/thoughts.jsx:94 | as written the index goes up by one with no bound; corrected, it goes up only while a next question exists and stays in the list |
| Session.Submit | components/thoughts.jsx:86-98 | a rejected submission changes nothing; an accepted intermediate step is appended to the trace exactly as typed, index and switch unchanged, three fields cleared; an accepted final answer is not appended, empties fields and trace and advances the index; the trace keeps holding only accepted steps |
| Thoughts.Thoughts.constructor | components/thoughts.jsx:70-83 | the editor starts on the first question, switch off, every field empty, attached to its page |
| Thoughts.Thoughts.Edit | components/thoughts.jsx:184-299 | typing replaces the form fields |
| Thoughts.Thoughts.SetFinalCheck | components/thoughts.jsx:307 | the switch takes the value the user sets |
| Thoughts.Thoughts.ResetFormFields | components/thoughts.jsx:100-103 | all five fields become empty |
| Thoughts.Thoughts.OnSubmit | components/thoughts.jsx:86-98 | with the switch on: fields and page trace emptied and index plus one; with it off: the values appended to the page trace and nothing else changed |
| Thoughts.Thoughts.ResetAfterSuccess | components/thoughts.jsx:128-134 | the fields become `Session.ClearedAfterSuccess` of what they were |
| Thoughts.Thoughts.SubmitForm | components/thoughts.jsx:185 | the new editor state, page trace included, and the verdict are exactly `Session.Submit` of the old state, as written |
| Thoughts.Thoughts.HandleNextQuestionClick | components/thoughts.jsx:105-114 | the new state is exactly `Session.NextQuestion` of the old |
| Thoughts.Thoughts.HandlePreviousQuestionClick | components/thoughts.jsx:116-125 | the new state is exactly `Session.PreviousQuestion` of the old |
| Thoughts.Thoughts.ClickNavigation | components/thoughts.jsx:141-179 | the new state is exactly `Session.Navigate` of the old, for the given direction and dialog reply |
| Thoughts.MountPage | components/main.jsx:18-23 | a new page and editor: one trace shared by the editor (writer) and what the history view reads, empty, on the first question |
| SessionRuns.StepsOnlyRecordsAccepted | components/thoughts.jsx:95-97 | with the switch off, any run of edits and submissions keeps the question and extends the trace by exactly the accepted steps in submission order (reference definition `Recorded`) |
| SessionRuns.RecordedBounds | components/thoughts.jsx:86-97 | at most one step is recorded per press of Submit, every recorded step passed the schema, and each is either what was on screen at the start or a value the user typed |
| SessionRuns.RunKeepsAcceptedSteps | components/thoughts.jsx:50-55 | after any run of inputs every recorded step has a thought of at least 10 characters |
| SessionRuns.CorrectedRunStaysInRange | components/thoughts.jsx:105-125 | with the corrected final submission the index stays in the question list after any run of inputs |
| SessionRuns.AnswerAdvances | components/thoughts.jsx:88-94 | for every answer the schema accepts, typing it and submitting it with the switch on empties the trace and the form and makes the final index update |
| SessionRuns.FinalSubmitPastTheEnd | components/thoughts.jsx:88-106 | as written, two final answers from the start put the index at 2, past the list, and a confirmed "next" then moves it to 3; corrected, the index ends on the last question |

## Findings

| source | as written | input that shows it | evidently intended | confidence | as-written member | corrected member |
|---|---|---|---|---|---|---|
| components/thoughts.jsx:94 | a final submission increments the question index with no bound, unlike the "next" handler at line 106; once past the end, the "next" guard (an equality test against the last index) never stops a move again | switch on, submit an accepted answer on question 1, then on question 2: index 2 names no question; a confirmed "next" then gives 3 | advance only while a next question exists, keeping the index in the list | medium, not executed | SessionRuns.FinalSubmitPastTheEnd | SessionRuns.CorrectedRunStaysInRange |

The class `Thoughts.Thoughts` follows the component as written
(`Submit(AsWritten, …)`); `Session.FinalAdvance` holds both index updates and
the range lemma is proved for the corrected one.

## Left out

- All markup, styling, icons and widgets (select list, switch, dialog, links): the switch is a free boolean input and the dialog a Continue/Cancel reply.
- The rendering of the history view in components/observations.jsx (one card per step and the divider rule): it only reads the trace.
- Session.ClearedAfterSuccess: keeps `wikipedia` and `wikidata` as they were. The form library's `reset` replaces the whole set of values with the object it is given, so in the component these two answers become undefined after a successful submission; the model, which has no undefined field value, does not capture that they are dropped.
- The internals of react-hook-form and zod: `isDirty` is abstracted as above, and the way a `reset` also changes the form's default values is not modelled.
- The console logging in the submit handler.
- The tool list offered by the select widget: the schema does not restrict `action` to it, so neither does the model.
- These components make no lookup call, do no prefixing of the tool input with the question text, do no persistence insert and use no question pool, so the model has none of these.
