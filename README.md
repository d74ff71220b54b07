# Loan application wizard — step-flow model

A Dafny model of the step-flow state machine of the `LoanApplication` React
component: a nine-step loan questionnaire that branches to one of two
informational screens (business credit cards, credit repair) under two
conditions, keeps the answers in a field-name-to-value map, and enables its
Next button only when the current step's fields are filled.

Layout (one module per file):

- `wrappers.dfy` — `Option`, standing for JavaScript's `undefined` / `NaN`.
- `parse_int.dfy` (`JsParseInt`) — the part of `parseInt` the wizard uses:
  optional sign, decimal digit prefix, `None` for `NaN`; with the round trip
  against a decimal printer.
- `steps.dfy` (`Steps`) — the step catalog (title, input kind, options),
  the `Position` datatype (`Index(n)`, `CreditCardIntro`, `CreditRepair`) and
  `steps[step]` lookup.
- `form.dfy` (`Form`) — the answers map, `!!formData[key]`, and the
  single-key merge of `handleChange`.
- `gate.dfy` (`Gate`) — the `isComplete` switch of `checkNextButtonStatus`,
  a reference definition of each step's required fields, and the lemmas
  relating them.
- `flow.dfy` (`Flow`) — `handleNext` and `handleBack` as pure functions, the
  Back-visibility and Submit-label rules, and their properties.
- `wizard.dfy` (`LoanApplication`) — class `Wizard` with the component's
  three state fields `step`, `formData`, `isNextDisabled`, and the handlers
  as methods that update them in place; the gate flag is recomputed after
  each handler, as the effect does.
- `session.dfy` (`Session`) — sequences of user events as the screen
  delivers them (no click on a disabled Next or an invisible Back; no
  controls or inputs on a branch screen) and what holds of every reachable
  screen.

Behaviour of the component that the model keeps as the code has it:

- Back on a branch screen would compute `'creditCardIntro' - 1`, i.e. `NaN`,
  but the code never renders Back or Next there, so branch screens are
  absorbing, and `Next`/`Back` require a numeric position.
- A start year that does not parse makes the comparison `currentYear - NaN < 1`
  false, so the wizard advances to step 2 without branching
  (`Flow.UnparsedYearAdvances`).
- A start year in the future gives a negative difference, which is `< 1`,
  so it branches to the credit card screen like the current year does.

## Model

| member | source | states |
|---|---|---|
| `JsParseInt.DigitPrefix` | LoanApplication.js:114 | the digits `parseInt` reads form a prefix of the input, are all decimal digits, and stop at the first non-digit |
| `JsParseInt.ParseInt` | LoanApplication.js:114 | `parseInt` gives `NaN` exactly when no digit follows the optional sign; a leading `-` gives a non-positive value, otherwise non-negative |
| `JsParseInt.ShowNatIsDecimal` | LoanApplication.js:114 | the decimal rendering of a natural number is a non-empty digit string whose value is that number |
| `JsParseInt.DigitPrefixOfDigits` | LoanApplication.js:114 | parsing a digit string followed by a non-digit reads exactly that digit string |
| `JsParseInt.ParseSignedDigits` | LoanApplication.js:114 | `parseInt` of an optional `+` or `-`, a non-empty run of digits (leading zeros allowed) and text not starting with a digit is the signed value of those digits |
| `JsParseInt.ParseShowInt` | LoanApplication.js:114-116 | `parseInt` of a written year (any sign), followed by any non-digit text, returns that year |
| `Form.Merge` | LoanApplication.js:141-143 | a field change sets that field to the new value, adds it to the keys, and keeps every other field's value |
| `Form.MergeTwice` | LoanApplication.js:141-143 | setting the same field twice keeps only the later value |
| `Form.MergeCommutes` | LoanApplication.js:141-143 | changes to two different fields give the same answers in either order |
| `Form.FilledAfterMerge` | LoanApplication.js:141-143 | after a change, the changed field is filled iff the new value is non-empty, and every other field is filled as before |
| `Gate.IsComplete` | LoanApplication.js:82-103 | the gate can be open only at a numeric position inside the catalog |
| `Gate.RequiredFields` | LoanApplication.js:88-99 | every step asks for at least one field, and a `select` or `fico` step asks exactly for the answer under its title |
| `Gate.ChoiceStepsAreSingleAnswer` | LoanApplication.js:9-80 | every catalog step other than the date step (1) and the contact step (8) is a `select` or `fico` step |
| `Gate.GateMatchesRequiredFields` | LoanApplication.js:82-105 | the gate is open iff the position is a catalog step and all its required fields (both date parts, the four contact fields, or the answer under the step title) are non-empty |
| `Gate.GateAtChoiceStep` | LoanApplication.js:88-96 | a `select` or `fico` step is complete iff the answer stored under its title is present and non-empty |
| `Gate.GateAtStartDate` | LoanApplication.js:91-93 | the date step is complete iff both `StartMonth` and `StartYear` are non-empty |
| `Gate.GateAtContact` | LoanApplication.js:97-99 | the contact step is complete iff `FirstName`, `LastName`, `Email` and `Phone` are all non-empty |
| `Gate.GateClosedOnBranchScreens` | LoanApplication.js:83-86 | on either branch screen there is no step definition and the gate is closed |
| `Gate.ChangeElsewhereKeepsGate` | LoanApplication.js:105-110 | a change to a field the current step does not require leaves Next enabled or disabled as it was |
| `Gate.ClearingRequiredFieldCloses` | LoanApplication.js:105-110 | emptying a field the current step requires disables Next |
| `Gate.FillingLastFieldOpens` | LoanApplication.js:105-110 | giving the only missing required field a non-empty value enables Next |
| `Flow.StartYear` | LoanApplication.js:114 | a missing `StartYear` field reads as `NaN`; a year that parses comes from a non-empty field |
| `Flow.StartedWithinAYear` | LoanApplication.js:115-116 | `currentYear - startYear < 1` holds iff the start year parses to a year no earlier than the current one; `NaN` never satisfies it |
| `Flow.LowestCreditScore` | LoanApplication.js:120 | the branching credit score answer is a non-empty answer and one of the credit score step's own options |
| `Flow.NextStep` | LoanApplication.js:112-131 | Next submits iff the step is the last (or beyond), and then keeps the position and hands over the answers unchanged; a numeric result is exactly one step ahead; the credit card screen comes only from step 1 with a start year within a year, the credit repair screen only from step 4 with the lowest score |
| `Flow.BackStep` | LoanApplication.js:133-139 | Back moves at most one step back, stays put exactly at step 0 or below, and never leaves the non-negative indices |
| `Flow.BackVisible` | LoanApplication.js:319 | the Back button is visible exactly where pressing it changes the position |
| `Flow.NextLabel` | LoanApplication.js:329 | the forward button reads `Submit` exactly at the last step and `Next` everywhere else |
| `Flow.NextFromStartDate` | LoanApplication.js:113-119 | Next at step 1 goes to the credit card screen iff the start year parses to `y` with `currentYear - y < 1`, and otherwise to step 2; it never submits |
| `Flow.UnparsedYearAdvances` | LoanApplication.js:113-126 | a start year that is missing or does not parse never branches: Next at step 1 goes to step 2 |
| `Flow.TypedYearBranches` | LoanApplication.js:113-119 | for any form whose `StartYear` is an optional `+`/`-`, digits (leading zeros allowed) and text not starting with a digit, Next at step 1 branches iff `currentYear - year < 1`, and otherwise goes to step 2 |
| `Flow.NextFromCreditScore` | LoanApplication.js:120-126 | Next at step 4 goes to the credit repair screen iff the credit score answer is `499 or below`, and otherwise to step 5 |
| `Flow.NextAdvances` | LoanApplication.js:125-126 | Next at any other step before the last moves to the following step without submitting |
| `Flow.NextAtLastSubmits` | LoanApplication.js:125-130 | Next at step 8 keeps the position and submits the answers unchanged |
| `Flow.NextStaysWellPlaced` | LoanApplication.js:112-131 | from a catalog step Next reaches a catalog step or a branch screen, and submits only from the last step |
| `Flow.BackMovesOneStep` | LoanApplication.js:133-139 | Back from a catalog step above 0 moves one step back, at step 0 does nothing, and stays in the catalog |
| `Flow.SubmitLabelIffSubmits` | LoanApplication.js:329 | on a catalog step the forward button reads `Submit` exactly where pressing it submits |
| `LoanApplication.Wizard.constructor` | LoanApplication.js:5-7 | the wizard mounts at step 0 with no answers and Next disabled, consistent with the gate |
| `LoanApplication.Wizard.CheckNextButtonStatus` | LoanApplication.js:82-110 | the disabled flag becomes the negation of the gate for the current position and answers |
| `LoanApplication.Wizard.Next` | LoanApplication.js:112-131 | the new position and submission are those of `NextStep`; the answers are unchanged; it submits iff it was at step 8, and then stays and hands over the current answers; the state invariant and gate flag are kept |
| `LoanApplication.Wizard.Back` | LoanApplication.js:133-139 | from step n > 0 the position becomes n - 1, at step 0 it stays; answers unchanged; invariant and gate flag kept |
| `LoanApplication.Wizard.Change` | LoanApplication.js:141-143 | the answers become the single-key merge, the position is unchanged; invariant and gate flag kept |
| `Session.Deliver` | LoanApplication.js:316-332 | a branch screen ignores every event; a disabled Next and the invisible Back at step 0 do nothing; only a field change alters the answers; only a Next press submits |
| `Session.DeliverKeepsConsistent` | LoanApplication.js:112-143 | one delivered event keeps the position in the catalog or on a branch screen (credit repair only with the lowest score, credit card only with a start year that parses), and submits only at step 8, with the contact step's gate open, without changing the screen |
| `Session.RunKeepsConsistent` | LoanApplication.js:112-143 | any event sequence keeps those facts, and every submission it makes passes the contact step's gate |
| `Session.DeliverKeepsConsistentAt` | LoanApplication.js:113-118 | an event whose Next press (if any) happens in `currentYear` keeps, in addition, the credit card screen only for a start year with `currentYear - year < 1` |
| `Session.RunKeepsConsistentAt` | LoanApplication.js:112-143 | any event sequence whose Next presses all happen in `currentYear` keeps that stronger invariant |
| `Session.ReachablePositionsInCatalog` | LoanApplication.js:125-138 | from mount, every numeric position reached through Next, Back and changes lies in [0, 8] |
| `Session.CreditRepairOnlyForLowestScore` | LoanApplication.js:120-122 | from mount, the credit repair screen shows only when the credit score answer is `499 or below` |
| `Session.CreditCardIntroOnlyWithYear` | LoanApplication.js:113-118 | from mount, whatever the years of the Next presses, the credit card screen shows only when the start year parses to an integer |
| `Session.CreditCardIntroOnlyForYoungBusiness` | LoanApplication.js:113-118 | from mount, in a session whose Next presses all happen in `currentYear`, the credit card screen shows only when the start year parses to `y` with `currentYear - y < 1`, i.e. the business is less than a year old |
| `Session.SubmissionsHaveContact` | LoanApplication.js:324-329 | from mount, every submission carries non-empty first name, last name, email and phone, since Submit is disabled otherwise |
| `Session.BranchScreensAbsorb` | LoanApplication.js:294-297 | a branch screen renders no navigation controls or inputs: no event changes it and nothing is submitted from it |

## Left out

- Rendering: the JSX tree, styling, icons and images; each step's question and explanation text, which only the renderer reads.
- `console.log` calls: the submission log is modelled as the returned submission; the two "Learn More" buttons only log and are not modelled.
- The clock read `new Date().getFullYear()`: the current year is a parameter of Next.
- React hook plumbing and re-render timing: the gate is recomputed at the end of every handler, which is what the effect achieves after each state change.
- JsParseInt.ParseInt: leading white space, a `0x` prefix and radix detection are not modelled; the value comes from a `type="number"` field, which holds none of them.
- JavaScript numbers are doubles: years are unbounded integers, so rounding of digit strings longer than 2^53 is not modelled.
- Back or Next on a branch screen: the code has no such controls (Back would compute `NaN`), so `Wizard.Next` and `Wizard.Back` require a numeric position.
- RunKeepsConsistent: with no single current year, `Session.RunKeepsConsistent` records for the credit card screen only that the start year parses, because a screen does not remember the year of the press that led there; `Session.RunKeepsConsistentAt` states `currentYear - year < 1` for sessions whose Next presses share one year.
- DeliverKeepsConsistent: the same holds of one event in `Session.DeliverKeepsConsistent`; `Session.DeliverKeepsConsistentAt` states the reason under one year.
- CreditCardIntroOnlyWithYear: `Session.CreditCardIntroOnlyWithYear` states only that the start year parses, for sessions spanning several years; `Session.CreditCardIntroOnlyForYoungBusiness` states `currentYear - y < 1` under one year.
- `Session` lets a numeric screen receive a change to any field name, more than the rendered inputs of each step offer; its lemmas hold for that larger set of event sequences.
