/**
 * The timesheet form (app/Components/TimesSheetForm.tsx): the submit handler
 * that blocks an end time not after the start time, and the hidden `id`
 * field that makes the form an edit form.
 *
 * The two times are what `new Date(value)` gives, counted in minutes; None
 * stands for an Invalid Date, whose comparisons are all false.
 */
module TimesheetForm {
  import opened Options
  import opened Text

  const EndBeforeStartMessage := "End Time must be after Start Time."

  /** `end <= start` on the two dates: false as soon as either is invalid. */
  predicate EndNotAfterStart(start: Option<int>, end: Option<int>) {
    start.Some? && end.Some? && end.value <= start.value
  }

  /** An end equal to the start is turned down: the rejecting comparison is not strict. */
  lemma EqualTimesRejected(t: int)
    ensures EndNotAfterStart(Some(t), Some(t))
  {
  }

  /**
   * Of two different valid times, exactly one order is accepted: the handler
   * accepts a pair exactly when the end is strictly later.
   */
  lemma ExactlyOneOrderAccepted(a: int, b: int)
    requires a != b
    ensures EndNotAfterStart(Some(a), Some(b)) != EndNotAfterStart(Some(b), Some(a))
    ensures !EndNotAfterStart(Some(a), Some(b)) <==> b > a
  {
  }

  /** The form's state: the error shown above it, and how often it was submitted to the server. */
  class Form {
    var error: string
    var submissions: nat

    constructor ()
      ensures error == "" && submissions == 0
    {
      error := "";
      submissions := 0;
    }

    /**
     * `handleSubmit`: the browser's own submission is always prevented; an end
     * not after the start sets the error and stops, and otherwise the error is
     * cleared and the form is submitted once.
     */
    method HandleSubmit(start: Option<int>, end: Option<int>) returns (defaultPrevented: bool)
      modifies this
      ensures defaultPrevented
      ensures EndNotAfterStart(start, end) ==> error == EndBeforeStartMessage && submissions == old(submissions)
      ensures !EndNotAfterStart(start, end) ==> error == "" && submissions == old(submissions) + 1
    {
      defaultPrevented := true;
      if EndNotAfterStart(start, end) {
        error := EndBeforeStartMessage;
        return;
      }
      error := "";
      submissions := submissions + 1;
    }
  }

  /**
   * The hidden `id` input: present only for a truthy id (neither undefined nor
   * 0), and then carrying the id as decimal text.
   */
  function HiddenIdField(id: Option<nat>): (field: Option<string>)
    ensures field.Some? <==> id.Some? && id.value != 0
    ensures field.Some? ==> AllDigits(field.value) && DecimalValue(field.value) == id.value
  {
    if id.Some? && id.value != 0 then
      DecimalRoundTrip(id.value);
      Some(DecimalText(id.value))
    else None
  }
}
