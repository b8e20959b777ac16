/**
 * The cycle-settings form (components/tracker/CycleSettingsForm.tsx): two
 * text fields, a validation step with one error message per field, and a
 * submit that hands both numbers to the caller only when the form is valid.
 */
module CycleSettingsForm {
  import opened Optional
  import opened Text
  import PeriodHandlers

  const CycleLengthError := "Cycle length must be between 20 and 45 days"
  const PeriodLengthError := "Period length must be between 1 and 10 days"

  /** The error for the cycle-length text: NaN, below 20 or above 45. */
  function CycleError(text: string): (e: Option<string>)
    ensures e.None? <==> JsParseInt(text).Some? && 20 <= JsParseInt(text).value <= 45
    ensures e.Some? ==> e.value == CycleLengthError
  {
    var n := JsParseInt(text);
    if n.None? || n.value < 20 || n.value > 45 then Some(CycleLengthError) else None
  }

  /** The error for the period-length text: NaN, below 1 or above 10. */
  function PeriodError(text: string): (e: Option<string>)
    ensures e.None? <==> JsParseInt(text).Some? && 1 <= JsParseInt(text).value <= 10
    ensures e.Some? ==> e.value == PeriodLengthError
  {
    var n := JsParseInt(text);
    if n.None? || n.value < 1 || n.value > 10 then Some(PeriodLengthError) else None
  }

  datatype Field = CycleLengthField | PeriodLengthField

  class SettingsForm {
    /** `formData`: the raw text of both inputs. */
    var cycleText: string
    var periodText: string
    /** `errors`: the message under each input, if any. */
    var cycleError: Option<string>
    var periodError: Option<string>

    /** The form opens with the current settings written out and no errors. */
    constructor (cycleLength: int, periodLength: int)
      ensures cycleText == IntToString(cycleLength) && periodText == IntToString(periodLength)
      ensures cycleError.None? && periodError.None?
    {
      cycleText := IntToString(cycleLength);
      periodText := IntToString(periodLength);
      cycleError := None;
      periodError := None;
    }

    /** `validateForm`: set both errors from the texts; valid iff neither is set. */
    method ValidateForm() returns (valid: bool)
      modifies this
      ensures cycleText == old(cycleText) && periodText == old(periodText)
      ensures cycleError == CycleError(cycleText) && periodError == PeriodError(periodText)
      ensures valid <==> cycleError.None? && periodError.None?
    {
      var newCycleError: Option<string> := None;
      var newPeriodError: Option<string> := None;
      var cycleLengthNum := JsParseInt(cycleText);
      var periodLengthNum := JsParseInt(periodText);
      if cycleLengthNum.None? || cycleLengthNum.value < 20 || cycleLengthNum.value > 45 {
        newCycleError := Some(CycleLengthError);
      }
      if periodLengthNum.None? || periodLengthNum.value < 1 || periodLengthNum.value > 10 {
        newPeriodError := Some(PeriodLengthError);
      }
      cycleError, periodError := newCycleError, newPeriodError;
      valid := newCycleError.None? && newPeriodError.None?;
    }

    /** `handleSubmit`: validate, and only then pass both parsed numbers to `onSave`. */
    method HandleSubmit() returns (saved: Option<(int, int)>)
      modifies this
      ensures cycleText == old(cycleText) && periodText == old(periodText)
      ensures cycleError == CycleError(cycleText) && periodError == PeriodError(periodText)
      ensures saved.Some? <==> cycleError.None? && periodError.None?
      ensures saved.Some? ==> saved.value == (JsParseInt(cycleText).value, JsParseInt(periodText).value)
    {
      var valid := ValidateForm();
      if !valid {
        return None;
      }
      saved := Some((JsParseInt(cycleText).value, JsParseInt(periodText).value));
    }

    /** `handleInputChange`: replace one field's text and clear that field's error only. */
    method HandleInputChange(field: Field, value: string)
      modifies this
      ensures field == CycleLengthField ==>
        cycleText == value && cycleError.None? && periodText == old(periodText) && periodError == old(periodError)
      ensures field == PeriodLengthField ==>
        periodText == value && periodError.None? && cycleText == old(cycleText) && cycleError == old(cycleError)
    {
      match field
      case CycleLengthField =>
        cycleText := value;
        if cycleError.Some? {
          cycleError := None;
        }
      case PeriodLengthField =>
        periodText := value;
        if periodError.Some? {
          periodError := None;
        }
    }
  }

  /** What the form submits always passes the backend's own bounds check. */
  lemma SubmittedSettingsAccepted(cycleText: string, periodText: string)
    requires CycleError(cycleText).None? && PeriodError(periodText).None?
    ensures PeriodHandlers.SettingsError(JsParseInt(cycleText).value, JsParseInt(periodText).value).None?
  {
  }

  /** The form accepts exactly the settings the backend accepts, for texts written as plain numbers. */
  lemma FormAgreesWithBackend(cycleText: string, periodText: string)
    requires Canonical(cycleText) && Canonical(periodText)
    ensures (CycleError(cycleText).None? && PeriodError(periodText).None?) <==>
      PeriodHandlers.SettingsError(DigitsValue(cycleText), DigitsValue(periodText)).None?
  {
  }

  /** The form's initial texts read back as the settings they were written from. */
  lemma InitialTextsParse(n: nat)
    ensures JsParseInt(IntToString(n)) == Some(n)
  {
  }
}
