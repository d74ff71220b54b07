/**
 * The flow controller: where Next and Back lead from a numeric position,
 * as pure functions of the position, the answers and the current year.
 */
module Flow {
  import opened Wrappers
  import opened JsParseInt
  import opened Steps
  import opened Form

  /** The result of pressing Next: the new position, and the answers handed to submission if any. */
  datatype Move = Move(pos: Position, submission: Option<FormData>)

  /** `parseInt(formData['StartYear'])`; a missing field is `undefined`, which parses to `NaN`. */
  function StartYear(form: FormData): (r: Option<int>)
    ensures "StartYear" !in form ==> r == None
    ensures r.Some? ==> Filled(form, "StartYear")
  {
    if "StartYear" in form then ParseInt(form["StartYear"]) else None
  }

  /**
   * `currentYear - startYear < 1`, which is false when the year is `NaN`:
   * the business started in the current year or a later one.
   */
  predicate StartedWithinAYear(form: FormData, currentYear: int)
    ensures StartedWithinAYear(form, currentYear) <==>
      exists y :: StartYear(form) == Some(y) && y >= currentYear
  {
    StartYear(form).Some? && currentYear - StartYear(form).value < 1
  }

  /** `formData['Credit Score'] === '499 or below'`. */
  predicate LowestCreditScore(form: FormData)
    ensures LowestCreditScore(form) ==>
      Filled(form, "Credit Score") && form["Credit Score"] in STEPS[CREDIT_SCORE_INDEX].options
  {
    "Credit Score" in form && form["Credit Score"] == LOWEST_SCORE_BAND
  }

  /** `handleNext` from a numeric position. */
  function NextStep(pos: Position, form: FormData, currentYear: int): (m: Move)
    requires pos.Index?
    ensures m.submission.Some? <==> pos.n >= LAST_INDEX
    ensures m.submission.Some? ==> m.pos == pos && m.submission.value == form
    ensures m.pos.Index? && m.submission.None? ==> m.pos.n == pos.n + 1
    ensures m.pos == CreditCardIntro ==> pos.n == START_DATE_INDEX && StartedWithinAYear(form, currentYear)
    ensures m.pos == CreditRepair ==> pos.n == CREDIT_SCORE_INDEX && LowestCreditScore(form)
  {
    if pos.n == START_DATE_INDEX && StartedWithinAYear(form, currentYear) then Move(CreditCardIntro, None)
    else if pos.n == CREDIT_SCORE_INDEX && LowestCreditScore(form) then Move(CreditRepair, None)
    else if pos.n < LAST_INDEX then Move(Index(pos.n + 1), None)
    else Move(pos, Some(form))
  }

  /** `handleBack` from a numeric position. */
  function BackStep(pos: Position): (r: Position)
    requires pos.Index?
    ensures r.Index? && pos.n - 1 <= r.n <= pos.n
    ensures r == pos <==> pos.n <= 0
    ensures pos.n >= 0 ==> r.n >= 0
  {
    if pos.n > 0 then Index(pos.n - 1) else pos
  }

  /** The Back button is rendered invisible at the first step, the one step where it would not move. */
  predicate BackVisible(n: int)
    ensures 0 <= n ==> (BackVisible(n) <==> BackStep(Index(n)) != Index(n))
  {
    n != 0
  }

  /** Caption of the forward button on a numeric step. */
  function NextLabel(n: int): (caption: string)
    ensures caption == "Submit" || caption == "Next"
    ensures caption == "Submit" <==> n == LAST_INDEX
  {
    if n == LAST_INDEX then "Submit" else "Next"
  }

  /**
   * Leaving the start date step branches to the credit card screen exactly
   * when the year parses to a value less than one year before the current
   * year (a future year included); otherwise the wizard moves to step 2.
   */
  lemma NextFromStartDate(form: FormData, currentYear: int)
    ensures var m := NextStep(Index(START_DATE_INDEX), form, currentYear);
      && m.submission == None
      && (m.pos == CreditCardIntro <==>
           exists y :: StartYear(form) == Some(y) && currentYear - y < 1)
      && (m.pos != CreditCardIntro ==> m.pos == Index(START_DATE_INDEX + 1))
  {
  }

  /** A start year that does not parse never branches. */
  lemma UnparsedYearAdvances(form: FormData, currentYear: int)
    requires StartYear(form) == None
    ensures NextStep(Index(START_DATE_INDEX), form, currentYear) == Move(Index(START_DATE_INDEX + 1), None)
  {
  }

  /**
   * For a year typed as an optional sign and digits (leading zeros
   * allowed), possibly followed by non-digits, Next at the start date step
   * branches iff `currentYear - year < 1`, whatever else the form holds.
   */
  lemma {:induction false} TypedYearBranches(
    form: FormData, sign: string, ds: string, rest: string, currentYear: int)
    requires sign == "" || sign == "+" || sign == "-"
    requires ds != [] && AllDigits(ds)
    requires rest == [] || !IsDigit(rest[0])
    requires "StartYear" in form && form["StartYear"] == sign + ds + rest
    ensures NextStep(Index(START_DATE_INDEX), form, currentYear).pos ==
      if currentYear - SignedValue(sign, ds) < 1 then CreditCardIntro else Index(START_DATE_INDEX + 1)
  {
    ParseSignedDigits(sign, ds, rest);
  }

  /**
   * Leaving the credit score step branches to the credit repair screen
   * exactly on the lowest score band; any other answer moves to step 5.
   */
  lemma NextFromCreditScore(form: FormData, currentYear: int)
    ensures var m := NextStep(Index(CREDIT_SCORE_INDEX), form, currentYear);
      && m.submission == None
      && (m.pos == CreditRepair <==> "Credit Score" in form && form["Credit Score"] == "499 or below")
      && (m.pos != CreditRepair ==> m.pos == Index(CREDIT_SCORE_INDEX + 1))
  {
  }

  /** Every other step before the last one advances by exactly one. */
  lemma NextAdvances(n: int, form: FormData, currentYear: int)
    requires n < LAST_INDEX && n != START_DATE_INDEX && n != CREDIT_SCORE_INDEX
    ensures NextStep(Index(n), form, currentYear) == Move(Index(n + 1), None)
  {
  }

  /** At the last step Next stays put and hands over the answers, unchanged, once. */
  lemma NextAtLastSubmits(form: FormData, currentYear: int)
    ensures NextStep(Index(LAST_INDEX), form, currentYear) == Move(Index(LAST_INDEX), Some(form))
  {
  }

  /** Next keeps a numeric position inside the catalog, or leaves to a branch screen. */
  lemma NextStaysWellPlaced(pos: Position, form: FormData, currentYear: int)
    requires pos.Index? && WellPlaced(pos)
    ensures WellPlaced(NextStep(pos, form, currentYear).pos)
    ensures NextStep(pos, form, currentYear).submission.Some? ==> pos.n == LAST_INDEX
  {
  }

  /** Back moves one step back, does nothing at step 0, and stays inside the catalog. */
  lemma BackMovesOneStep(n: int)
    requires 0 <= n < |STEPS|
    ensures BackStep(Index(n)) == if n == 0 then Index(0) else Index(n - 1)
    ensures WellPlaced(BackStep(Index(n)))
  {
  }

  /** The Submit caption is shown exactly where Next submits. */
  lemma SubmitLabelIffSubmits(n: int, form: FormData, currentYear: int)
    requires 0 <= n < |STEPS|
    ensures NextLabel(n) == "Submit" <==> NextStep(Index(n), form, currentYear).submission.Some?
  {
  }
}
