/** The step editor as the object it is: its own state (question index,
    final switch, form fields) updated by its handlers, and a reference to
    the page that owns the trace, written only through the page's two
    callbacks. Each handler is proved against its transition in Session. */
module Thoughts {
  import opened Session
  import opened MainPage

  class Thoughts {
    var index: int
    var finalCheck: bool
    var fields: Fields
    /** The page whose `formData` this editor appends to and clears. */
    const page: Main<Step>

    /** The session as a value; its trace is the page's `formData`. */
    function Current(): State
      reads this, page
    {
      State(index, finalCheck, fields, page.formData)
    }

    /** Mounting the editor on a page: first question, switch off, default
        values; the page's trace is not touched. */
    constructor (page: Main<Step>)
      ensures this.page == page
      ensures index == 0 && !finalCheck && fields == Blank
    {
      this.page := page;
      index := 0;
      finalCheck := false;
      fields := Blank;
    }

    /** The user edits the form. */
    method Edit(f: Fields)
      modifies this`fields
      ensures fields == f
    {
      fields := f;
    }

    /** The final-answer switch, freely toggled. */
    method SetFinalCheck(on: bool)
      modifies this`finalCheck
      ensures finalCheck == on
    {
      finalCheck := on;
    }

    /** Writes the default values into all five fields. */
    method ResetFormFields()
      modifies this`fields
      ensures fields == Blank
    {
      fields := Blank;
    }

    /** The submit handler, given values the schema accepted. */
    method OnSubmit(values: Step)
      modifies this`fields, this`index, page
      ensures finalCheck ==> Current() == old(Current()).(fields := Blank, trace := [], index := old(index) + 1)
      ensures !finalCheck ==> Current() == old(Current()).(trace := old(page.formData) + [values])
    {
      if finalCheck {
        ResetFormFields();
        page.ClearFormData();
        index := index + 1;
      } else {
        page.HandleFormSubmit(values);
      }
    }

    /** The effect that runs once a submission has succeeded. */
    method ResetAfterSuccess()
      modifies this`fields
      ensures fields == ClearedAfterSuccess(old(fields))
    {
      fields := fields.(thought := "", action := "", actionInput := "");
    }

    /** Pressing Submit: the schema check, the submit handler when it
        passes, then the success effect. */
    method SubmitForm() returns (r: Result<Step, FormError>)
      modifies this`fields, this`index, page
      ensures (Current(), r) == Submit(AsWritten, old(Current()))
    {
      r := Validate(fields);
      if r.Ok? {
        OnSubmit(r.value);
        ResetAfterSuccess();
      }
    }

    method HandleNextQuestionClick()
      modifies this`fields, this`index, page
      ensures Current() == NextQuestion(old(Current()))
    {
      if index == |Questions| - 1 {
        return;
      }
      ResetFormFields();
      page.ClearFormData();
      index := index + 1;
    }

    method HandlePreviousQuestionClick()
      modifies this`fields, this`index, page
      ensures Current() == PreviousQuestion(old(Current()))
    {
      if index == 0 {
        return;
      }
      ResetFormFields();
      page.ClearFormData();
      index := index - 1;
    }

    /** A click on a chevron, with the user's answer should the
        confirmation dialog open. */
    method ClickNavigation(dir: Direction, reply: Reply)
      modifies this`fields, this`index, page
      ensures Current() == Navigate(old(Current()), dir, reply)
    {
      if NavigatesImmediately(Current()) || reply == Continue {
        match dir
        case Forward => HandleNextQuestionClick();
        case Backward => HandlePreviousQuestionClick();
      }
    }
  }

  /** The page mounted with its editor: one trace, written by the editor and
      handed unchanged to the history view. */
  method MountPage() returns (page: Main<Step>, editor: Thoughts)
    ensures fresh(page) && fresh(editor)
    ensures editor.page == page
    ensures editor.Current() == Init
  {
    page := new Main<Step>();
    editor := new Thoughts(page);
  }
}
