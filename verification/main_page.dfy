/** The page component that owns the annotation trace (`formData`): the
    ordered list of steps recorded for the question on screen. The editor
    writes it through two callbacks; the history view only reads it. */
module MainPage {

  /** The trace after `x` is appended: one element longer, `x` last, and
      every earlier step where it was. */
  function Appended<T>(data: seq<T>, x: T): (r: seq<T>)
    ensures |r| == |data| + 1
    ensures r[|data|] == x
    ensures r[..|data|] == data
  {
    data + [x]
  }

  class Main<T> {
    /** The steps recorded so far for the current question. */
    var formData: seq<T>

    constructor ()
      ensures formData == []
    {
      formData := [];
    }

    /** The `onFormSubmit` callback: replaces the trace by a new sequence
        with `newData` at its end. */
    method HandleFormSubmit(newData: T)
      modifies this
      ensures formData == Appended(old(formData), newData)
    {
      formData := formData + [newData];
    }

    /** The `clearFormData` callback: the trace becomes empty whatever it
        held, so clearing twice leaves the same state as clearing once. */
    method ClearFormData()
      modifies this
      ensures formData == []
    {
      formData := [];
    }
  }
}
