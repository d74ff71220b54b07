/**
 * Sequences of user events as the rendered screen delivers them: a
 * disabled Next button and an invisible Back button receive no clicks,
 * and navigation controls and inputs exist only on numeric steps. The
 * lemmas here state what every reachable screen satisfies.
 */
module Session {
  import opened Wrappers
  import opened Steps
  import opened Form
  import opened Gate
  import opened Flow

  datatype Event = PressNext(currentYear: int) | PressBack | Enter(field: string, value: string)

  datatype Screen = Screen(pos: Position, form: FormData)

  datatype Reaction = Reaction(screen: Screen, submission: Option<FormData>)

  datatype Trace = Trace(screen: Screen, submissions: seq<FormData>)

  /** The screen at mount. */
  const START: Screen := Screen(Index(0), map[])

  /** What one event does to the screen. */
  function Deliver(s: Screen, e: Event): (r: Reaction)
    ensures !s.pos.Index? ==> r == Reaction(s, None)
    ensures e.PressNext? && !IsComplete(s.pos, s.form) ==> r == Reaction(s, None)
    ensures e.PressBack? && s.pos == Index(0) ==> r == Reaction(s, None)
    ensures r.screen.form != s.form ==> e.Enter?
    ensures r.submission.Some? ==> e.PressNext?
  {
    match e
    case PressNext(currentYear) =>
      if s.pos.Index? && IsComplete(s.pos, s.form) then
        var m := NextStep(s.pos, s.form, currentYear);
        Reaction(Screen(m.pos, s.form), m.submission)
      else Reaction(s, None)
    case PressBack =>
      if s.pos.Index? && BackVisible(s.pos.n) then Reaction(Screen(BackStep(s.pos), s.form), None)
      else Reaction(s, None)
    case Enter(field, value) =>
      if s.pos.Index? then Reaction(Screen(s.pos, Merge(s.form, field, value)), None)
      else Reaction(s, None)
  }

  /** The final screen after a sequence of events, and every submission made on the way, in order. */
  function Run(s: Screen, events: seq<Event>): Trace
    decreases |events|
  {
    if events == [] then Trace(s, [])
    else
      var r := Deliver(s, events[0]);
      var rest := Run(r.screen, events[1..]);
      var now := if r.submission.Some? then [r.submission.value] else [];
      Trace(rest.screen, now + rest.submissions)
  }

  /** What every reachable screen satisfies, whatever year each Next press happens in. */
  predicate Consistent(s: Screen) {
    && WellPlaced(s.pos)
    && (s.pos == CreditCardIntro ==> StartYear(s.form).Some?)
    && (s.pos == CreditRepair ==> LowestCreditScore(s.form))
  }

  /** One event keeps the screen consistent, and submits only complete contact details from the last step. */
  lemma {:induction false} DeliverKeepsConsistent(s: Screen, e: Event)
    requires Consistent(s)
    ensures Consistent(Deliver(s, e).screen)
    ensures Deliver(s, e).submission.Some? ==>
      && s.pos == Index(LAST_INDEX)
      && Deliver(s, e).screen == s
      && Deliver(s, e).submission.value == s.form
      && IsComplete(Index(LAST_INDEX), s.form)
  {
    match e
    case PressNext(currentYear) =>
      if s.pos.Index? && IsComplete(s.pos, s.form) {
        NextStaysWellPlaced(s.pos, s.form, currentYear);
      }
    case PressBack =>
    case Enter(field, value) =>
  }

  /** Every screen reached from a consistent one is consistent, and every submission carries complete contact details. */
  lemma {:induction false} RunKeepsConsistent(s: Screen, events: seq<Event>)
    requires Consistent(s)
    ensures Consistent(Run(s, events).screen)
    ensures forall f :: f in Run(s, events).submissions ==> IsComplete(Index(LAST_INDEX), f)
    decreases |events|
  {
    if events != [] {
      DeliverKeepsConsistent(s, events[0]);
      RunKeepsConsistent(Deliver(s, events[0]).screen, events[1..]);
    }
  }

  /** From mount, every numeric position reached lies in [0, 8]. */
  lemma ReachablePositionsInCatalog(events: seq<Event>)
    ensures var pos := Run(START, events).screen.pos;
      pos.Index? ==> 0 <= pos.n <= LAST_INDEX
  {
    RunKeepsConsistent(START, events);
  }

  /** From mount, the credit repair screen is reached only with the lowest credit score answer. */
  lemma CreditRepairOnlyForLowestScore(events: seq<Event>)
    requires Run(START, events).screen.pos == CreditRepair
    ensures var form := Run(START, events).screen.form;
      "Credit Score" in form && form["Credit Score"] == "499 or below"
  {
    RunKeepsConsistent(START, events);
  }

  /** From mount, the credit card screen is reached only with a start year that parses. */
  lemma CreditCardIntroOnlyWithYear(events: seq<Event>)
    requires Run(START, events).screen.pos == CreditCardIntro
    ensures StartYear(Run(START, events).screen.form).Some?
  {
    RunKeepsConsistent(START, events);
  }

  /** From mount, every submission carries a first name, last name, email and phone. */
  lemma SubmissionsHaveContact(events: seq<Event>)
    ensures forall f :: f in Run(START, events).submissions ==>
      Filled(f, "FirstName") && Filled(f, "LastName") && Filled(f, "Email") && Filled(f, "Phone")
  {
    RunKeepsConsistent(START, events);
    forall f | f in Run(START, events).submissions
      ensures Filled(f, "FirstName") && Filled(f, "LastName") && Filled(f, "Email") && Filled(f, "Phone")
    {
      GateAtContact(f);
    }
  }

  /** Every Next press of the sequence happens in the year `currentYear`. */
  predicate OneClock(events: seq<Event>, currentYear: int) {
    forall i :: 0 <= i < |events| && events[i].PressNext? ==> events[i].currentYear == currentYear
  }

  /** `Consistent`, and the credit card screen is shown for its reason: the business started within a year of `currentYear`. */
  predicate ConsistentAt(s: Screen, currentYear: int) {
    && Consistent(s)
    && (s.pos == CreditCardIntro ==> StartedWithinAYear(s.form, currentYear))
  }

  /** An event pressed in `currentYear` keeps the screen consistent, the credit card screen's reason included. */
  lemma {:induction false} DeliverKeepsConsistentAt(s: Screen, e: Event, currentYear: int)
    requires ConsistentAt(s, currentYear)
    requires e.PressNext? ==> e.currentYear == currentYear
    ensures ConsistentAt(Deliver(s, e).screen, currentYear)
  {
    DeliverKeepsConsistent(s, e);
  }

  /** Under one clock, every screen reached from a consistent one is consistent, the credit card screen included. */
  lemma {:induction false} RunKeepsConsistentAt(s: Screen, events: seq<Event>, currentYear: int)
    requires ConsistentAt(s, currentYear) && OneClock(events, currentYear)
    ensures ConsistentAt(Run(s, events).screen, currentYear)
    decreases |events|
  {
    if events != [] {
      DeliverKeepsConsistentAt(s, events[0], currentYear);
      assert OneClock(events[1..], currentYear) by {
        forall i | 0 <= i < |events[1..]| && events[1..][i].PressNext?
          ensures events[1..][i].currentYear == currentYear
        {
          assert events[1..][i] == events[i + 1];
        }
      }
      RunKeepsConsistentAt(Deliver(s, events[0]).screen, events[1..], currentYear);
    }
  }

  /**
   * From mount, in a session where every Next press happens in the same
   * year, the credit card screen shows only for a business less than a year
   * old: the start year parses to `y` with `currentYear - y < 1`.
   */
  lemma CreditCardIntroOnlyForYoungBusiness(events: seq<Event>, currentYear: int)
    requires OneClock(events, currentYear)
    requires Run(START, events).screen.pos == CreditCardIntro
    ensures exists y :: StartYear(Run(START, events).screen.form) == Some(y) && currentYear - y < 1
  {
    RunKeepsConsistentAt(START, events, currentYear);
  }

  /** A branch screen has no controls: no event changes it and nothing is submitted from it. */
  lemma {:induction false} BranchScreensAbsorb(s: Screen, events: seq<Event>)
    requires !s.pos.Index?
    ensures Run(s, events) == Trace(s, [])
    decreases |events|
  {
    if events != [] {
      BranchScreensAbsorb(s, events[1..]);
    }
  }
}
