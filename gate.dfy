/**
 * The completion gate: whether the Next button of the current screen is
 * enabled, derived from the current step's input kind and the answers.
 */
module Gate {
  import opened Wrappers
  import opened Steps
  import opened Form

  /** The `isComplete` switch over the current step's kind; no step (a branch screen) means incomplete. */
  function IsComplete(pos: Position, form: FormData): (r: bool)
    ensures r ==> pos.Index? && WellPlaced(pos)
  {
    match CurrentStep(pos)
    case None => false
    case Some(step) =>
      match step.kind
      case Select => Filled(form, step.title)
      case Date => Filled(form, "StartMonth") && Filled(form, "StartYear")
      case Fico => Filled(form, step.title)
      case Contact =>
        Filled(form, "FirstName") && Filled(form, "LastName") && Filled(form, "Email") && Filled(form, "Phone")
  }

  /**
   * Reference definition, by position in the catalog, of the fields a step
   * asks for: the two date parts, the four contact fields, or otherwise the
   * single answer stored under the step's title.
   */
  function RequiredFields(n: int): (keys: seq<string>)
    requires 0 <= n < |STEPS|
    ensures |keys| >= 1
    ensures STEPS[n].kind == Select || STEPS[n].kind == Fico ==> keys == [STEPS[n].title]
  {
    if n == START_DATE_INDEX then ["StartMonth", "StartYear"]
    else if n == LAST_INDEX then ["FirstName", "LastName", "Email", "Phone"]
    else [STEPS[n].title]
  }

  /** Every step other than the date step and the contact step is answered by choosing one option. */
  lemma ChoiceStepsAreSingleAnswer(n: int)
    requires 0 <= n < |STEPS| && n != START_DATE_INDEX && n != LAST_INDEX
    ensures STEPS[n].kind == Select || STEPS[n].kind == Fico
  {
  }

  /** The gate is open exactly at a catalog step whose required fields are all filled. */
  lemma {:induction false} GateMatchesRequiredFields(pos: Position, form: FormData)
    ensures IsComplete(pos, form) <==>
      pos.Index? && WellPlaced(pos) && forall k :: k in RequiredFields(pos.n) ==> Filled(form, k)
  {
    if pos.Index? && WellPlaced(pos) && pos.n != START_DATE_INDEX && pos.n != LAST_INDEX {
      ChoiceStepsAreSingleAnswer(pos.n);
    }
  }

  /** A `select` or `fico` step is complete iff its title has a non-empty answer. */
  lemma GateAtChoiceStep(n: int, form: FormData)
    requires 0 <= n < |STEPS| && (STEPS[n].kind == Select || STEPS[n].kind == Fico)
    ensures IsComplete(Index(n), form) <==> Filled(form, STEPS[n].title)
  {
  }

  /** The start date step needs both the month and the year. */
  lemma GateAtStartDate(form: FormData)
    ensures IsComplete(Index(START_DATE_INDEX), form) <==> Filled(form, "StartMonth") && Filled(form, "StartYear")
  {
  }

  /** The contact step needs first name, last name, email and phone. */
  lemma GateAtContact(form: FormData)
    ensures IsComplete(Index(LAST_INDEX), form) <==>
      Filled(form, "FirstName") && Filled(form, "LastName") && Filled(form, "Email") && Filled(form, "Phone")
  {
  }

  /** A branch screen has no step definition, so its gate is always closed. */
  lemma GateClosedOnBranchScreens(form: FormData)
    ensures !IsComplete(CreditCardIntro, form) && !IsComplete(CreditRepair, form)
  {
  }

  /** Changing a field the current step does not ask for leaves the gate as it was. */
  lemma {:induction false} ChangeElsewhereKeepsGate(n: int, form: FormData, key: string, value: string)
    requires 0 <= n < |STEPS| && key !in RequiredFields(n)
    ensures IsComplete(Index(n), Merge(form, key, value)) == IsComplete(Index(n), form)
  {
    GateMatchesRequiredFields(Index(n), form);
    GateMatchesRequiredFields(Index(n), Merge(form, key, value));
    forall k | k in RequiredFields(n)
      ensures Filled(Merge(form, key, value), k) == Filled(form, k)
    {
      FilledAfterMerge(form, key, value, k);
    }
  }

  /** Clearing a required field closes the gate. */
  lemma {:induction false} ClearingRequiredFieldCloses(n: int, form: FormData, key: string)
    requires 0 <= n < |STEPS| && key in RequiredFields(n)
    ensures !IsComplete(Index(n), Merge(form, key, ""))
  {
    GateMatchesRequiredFields(Index(n), Merge(form, key, ""));
  }

  /** Filling the last missing required field opens the gate. */
  lemma {:induction false} FillingLastFieldOpens(n: int, form: FormData, key: string, value: string)
    requires 0 <= n < |STEPS| && value != ""
    requires forall k :: k in RequiredFields(n) && k != key ==> Filled(form, k)
    ensures IsComplete(Index(n), Merge(form, key, value))
  {
    GateMatchesRequiredFields(Index(n), Merge(form, key, value));
  }
}
