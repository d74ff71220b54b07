/**
 * The wizard component's state, updated in place by its event handlers:
 * the position, the answers, and the derived flag that disables Next.
 */
module LoanApplication {
  import opened Wrappers
  import opened Steps
  import opened Form
  import opened Gate
  import opened Flow

  class Wizard {
    var step: Position
    var formData: FormData
    var isNextDisabled: bool

    /** The position indexes the catalog or is a branch token, and the flag agrees with the gate. */
    ghost predicate Valid()
      reads this
    {
      WellPlaced(step) && isNextDisabled == !IsComplete(step, formData)
    }

    /** Mounting: the first step, no answers, Next disabled. */
    constructor ()
      ensures Valid()
      ensures step == Index(0) && formData == map[] && isNextDisabled
    {
      step := Index(0);
      formData := map[];
      isNextDisabled := true;
    }

    /** `checkNextButtonStatus`, run by the effect after every change of position or answers. */
    method CheckNextButtonStatus()
      modifies this`isNextDisabled
      ensures isNextDisabled == !IsComplete(step, formData)
    {
      isNextDisabled := !IsComplete(step, formData);
    }

    /** `handleNext`; returns the answers it submits, if it submits. */
    method Next(currentYear: int) returns (submission: Option<FormData>)
      requires Valid() && step.Index?
      modifies this
      ensures Valid()
      ensures formData == old(formData)
      ensures Move(step, submission) == NextStep(old(step), old(formData), currentYear)
      ensures submission.Some? <==> old(step) == Index(LAST_INDEX)
      ensures submission.Some? ==> step == old(step) && submission.value == formData
    {
      submission := None;
      if step.n == START_DATE_INDEX {
        if StartedWithinAYear(formData, currentYear) {
          step := CreditCardIntro;
          CheckNextButtonStatus();
          return;
        }
      } else if step.n == CREDIT_SCORE_INDEX && LowestCreditScore(formData) {
        step := CreditRepair;
        CheckNextButtonStatus();
        return;
      }
      if step.n < |STEPS| - 1 {
        step := Index(step.n + 1);
      } else {
        submission := Some(formData);
      }
      CheckNextButtonStatus();
    }

    /** `handleBack` from a numeric step. */
    method Back()
      requires Valid() && step.Index?
      modifies this
      ensures Valid()
      ensures formData == old(formData)
      ensures step == BackStep(old(step))
      ensures old(step.n) > 0 ==> step == Index(old(step.n) - 1)
      ensures old(step.n) == 0 ==> step == Index(0)
    {
      if step.n > 0 {
        step := Index(step.n - 1);
      }
      CheckNextButtonStatus();
    }

    /** `handleChange`: one field takes the new value, every other field keeps its own. */
    method Change(field: string, value: string)
      requires Valid()
      modifies this
      ensures Valid()
      ensures step == old(step)
      ensures formData == Merge(old(formData), field, value)
    {
      formData := Merge(formData, field, value);
      CheckNextButtonStatus();
    }
  }
}
