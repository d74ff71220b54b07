/**
 * The fixed catalog of questionnaire steps and the wizard's position in it.
 * Only what the flow depends on is kept from each step definition: its
 * title (also the form key of single-choice answers), its input kind and
 * its answer options.
 */
module Steps {
  import opened Wrappers

  datatype StepKind = Select | Date | Fico | Contact

  datatype Step = Step(title: string, kind: StepKind, options: seq<string>)

  const STEPS: seq<Step> := [
    Step("Loan Amount", Select,
      ["$10,000 - $50,000", "$50,001 - $100,000", "$100,001 - $250,000", "$250,001+"]),
    Step("Business Start Date", Date, []),
    Step("Monthly Revenue", Select,
      ["$0", "$1 - $4K", "$5K - $7K", "$8K - $14K", "$15K - $19K", "$20K - $49K",
       "$50K - $79K", "$80K - $199K", "$200K+"]),
    Step("Important Factor", Select, ["Amount of Funds", "Speed of Funds", "Cost of Funds"]),
    Step("Credit Score", Fico,
      ["499 or below", "500 - 599", "600 - 649", "650 - 679", "680 - 719", "720 or above"]),
    Step("Business Type", Select, ["LLC", "Corporation", "Sole Proprietor", "Legal Partnership"]),
    Step("Industry", Select,
      ["Retail", "Services", "Manufacturing", "Technology", "Healthcare", "Construction", "Other"]),
    Step("Use of Funds", Select,
      ["Expansion", "Equipment Purchase", "Working Capital", "Debt Refinancing", "Inventory",
       "Marketing", "Other"]),
    Step("Contact Information", Contact, [])
  ]

  /** Index of the last step, where Next submits. */
  const LAST_INDEX: int := |STEPS| - 1

  /** Index of the business start date step, which may branch to the credit card screen. */
  const START_DATE_INDEX: int := 1

  /** Index of the credit score step, which may branch to the credit repair screen. */
  const CREDIT_SCORE_INDEX: int := 4

  /** The credit score answer that leads to the credit repair screen. */
  const LOWEST_SCORE_BAND: string := "499 or below"

  /** Where the wizard is: a step index, or one of the two informational branch screens. */
  datatype Position = Index(n: int) | CreditCardIntro | CreditRepair

  /** The state invariant: a numeric position indexes the catalog. */
  predicate WellPlaced(pos: Position) {
    pos.Index? ==> 0 <= pos.n < |STEPS|
  }

  /** `steps[step]`: undefined for a branch token or an index outside the catalog. */
  function CurrentStep(pos: Position): (r: Option<Step>)
    ensures r.Some? <==> pos.Index? && 0 <= pos.n < |STEPS|
    ensures r.Some? ==> r.value == STEPS[pos.n]
  {
    if pos.Index? && 0 <= pos.n < |STEPS| then Some(STEPS[pos.n]) else None
  }
}
