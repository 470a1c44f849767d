/**
  The last permitted visit of a step, or of the run: when a failed check is tried again
  on it (internal/engine/deterministic.go:355-372, internal/engine/submit.go:215-234).
 */
module LastVisit {
  import opened Wrappers
  import opened JsonValues
  import opened Journal
  import opened Workflows
  import opened Protocol
  import opened EngineRules
  import opened SubmitRules
  import Boundaries
  import GroupTheorems

  /** The step was entered, and neither left nor restarted by an intervention since. */
  predicate StillInFlight(events: seq<Event>, id: string) {
    |events| > 0 &&
    var e := Last(events);
    if IsEntry(e) then e.step == id
    else if IsExit(e) || (e.Resume? && e.intervention) then false
    else StillInFlight(Front(events), id)
  }

  /** A crash RESUME found the step in flight, and it has not been entered since. */
  predicate ReentryIsDue(events: seq<Event>, id: string) {
    |events| > 0 &&
    var e := Last(events);
    if IsEntry(e) || IsExit(e) then false
    else if e.Resume? then !e.intervention && StillInFlight(Front(events), id)
    else ReentryIsDue(Front(events), id)
  }

  lemma {:induction false} MarksOfFlight(w: Workflow, events: seq<Event>, id: string)
    requires Legal(w, events) && id != ""
    ensures var p := CoreOf(events).place;
            && (StillInFlight(events, id) <==> p.inFlight && p.lastEnter.step == id)
            && (ReentryIsDue(events, id) <==> p.resumedInFlight == id)
            && (p.inFlight ==> p.haveEnter && !p.transitioned)
            && (p.resumedInFlight != "" ==> p.inFlight && p.lastEnter.step == p.resumedInFlight)
  {
    hide StepData, StepLedger, StepItems, StepBranches, Legal, CanAppend, LatestEntry, CapsReached, StepById, BeginAttempt;
    if |events| > 0 {
      LegalSplit(w, events);
      MarksOfFlight(w, Front(events), id);
      RuleOf(w, Front(events), Last(events));
    }
  }

  /** What a failed check of a step, at its own attempt, leaves open: the next attempt is
      within the step's attempts. */
  ghost predicate MayTryAgain(w: Workflow, events: seq<Event>, step: StepDecl) {
    |events| > 0 && IsFailedVerdict(Last(events), step.id) && StepById(w, step.id) == Some(step)
    && (step.kind.Deterministic? || step.kind.Agentic?)
    && (step.keyed ==> Last(events).key == Here(w, events).key)
    && NextAttempt(events, step) <= step.attempts
  }

  function NextAttempt(events: seq<Event>, step: StepDecl): int
    requires |events| > 0 && Last(events).Postcondition?
  {
    NextTry(Last(events).attempt, Lookup(CoreOf(events).ledger.attempts, AttemptRef(step.id, Last(events).key), 0))
  }

  /** The caps are checked again before every further attempt, against counters that
      already include the running visit. So a failed check is tried again if and only if
      another visit would be permitted too, or a crash RESUME found the step in flight and
      it has not been entered since; otherwise the step leaves as exhausted. */
  lemma NextAttemptIffUncapped(w: Workflow, events: seq<Event>, step: StepDecl)
    requires Legal(w, events) && MayTryAgain(w, events, step) && !IsStep(w, "")
    ensures var entry := Entry(step, NextAttempt(events, step), Last(events).key, true, 0);
            var visits := CoreOf(events).ledger.visits;
            && (CanAppend(w, events, entry) <==>
                  (Lookup(visits, step.id, 0) < step.maxVisits && Total(visits) < w.maxSteps)
                  || ReentryIsDue(events, step.id))
            && (CanAppend(w, events, entry) <==> !Justified(w, events, step, EXHAUSTED))
  {
    hide Fold, Legal, Total, LatestEntry, ReentryIsDue;
    LegalSplit(w, events);
    RuleOf(w, Front(events), Last(events));
    MarksOfFlight(w, events, step.id);
    VerdictKeepsPlace(w, events);
  }

  lemma VerdictKeepsPlace(w: Workflow, events: seq<Event>)
    requires |events| > 0 && Last(events).Postcondition?
    ensures Here(w, events) == Here(w, Front(events)) && (Running(Front(events)) ==> Running(events))
  {
    hide StepData, StepItems, StepBranches;
    GroupTheorems.FoldOfLast(events);
  }

  // ---- two runs ---------------------------------------------------------------------------

  /** A checked step that may be visited once and tried twice. */
  const ONCE := Workflow("a", [StepDecl("a", Agentic, "", map[], [], 2, 1, false, true, None)], map[], map[], 1, 0)

  const STEP := ONCE.steps[0]

  const FAILED := Judged(STEP, 1, "k", Check(false, "no"), Plain)

  const AGAIN := Entry(STEP, 2, "k", true, 0)

  const HANDED_OUT := [RunStart(FORMAT, "", map[]), Entry(STEP, 1, "", false, 0)]

  const RESUMED := HANDED_OUT + [Resume("a", 1, "", 0, false)]

  lemma OnceIsSound()
    ensures Sound(ONCE) && StepById(ONCE, "a") == Some(STEP) && !IsStep(ONCE, "")
    ensures OwnerIn(ONCE.steps, "a").None? && STEP.attempts == 2 && STEP.maxVisits == 1 && ONCE.maxSteps == 1
    ensures STEP.id == "a" && STEP.kind == Agentic && !STEP.keyed && STEP.checked
  {
    assert ONCE.steps[1..] == [];
  }

  lemma HandedOut()
    ensures Legal(ONCE, HANDED_OUT) && At(ONCE, HANDED_OUT, STEP) && CoreOf(HANDED_OUT).place.inFlight
    ensures CoreOf(HANDED_OUT).ledger.visits == map["a" := 1] && Here(ONCE, HANDED_OUT) == Cursor("a", 1, "", 0)
    ensures CoreOf(HANDED_OUT).ledger.attempts == map[AttemptRef("a", "") := 1]
    ensures !Terminal(CoreOf(HANDED_OUT)) && ResumeEvent(CoreOf(HANDED_OUT)) == Resume("a", 1, "", 0, false)
  {
    hide Fold, Legal, CanAppend, Here, Total, LatestEntry, StepData, StepEnding, StepItems, StepBranches, Sound, StepById, Entered;
    OnceIsSound();
    StartAllowed(ONCE, FORMAT, "", map[]);
    Boundaries.Grow(ONCE, [], HANDED_OUT[0]);
    var s := [HANDED_OUT[0]];
    assert [] + [HANDED_OUT[0]] == s;
    StartArrives(ONCE, s);
    assert Front(s) == [];
    GroupTheorems.FoldOfLast(s);
    Boundaries.FoldOfNothing();
    Boundaries.NoVisits();
    FirstEntryAllowed(ONCE, s, STEP, Cursor("a", 1, "", 0), "k");
    Boundaries.Grow(ONCE, s, HANDED_OUT[1]);
    assert s + [HANDED_OUT[1]] == HANDED_OUT;
    FreshlyEntered(ONCE, s, HANDED_OUT, STEP);
    EnteredIsAt(ONCE, HANDED_OUT, STEP);
    EnteredCursor(ONCE, HANDED_OUT, STEP);
    GroupTheorems.FoldOfLast(HANDED_OUT);
  }

  /** A failed check of the first try: what is open is the second, within the attempts. */
  lemma FailsOnce(events: seq<Event>)
    requires Legal(ONCE, events) && At(ONCE, events, STEP) && Here(ONCE, events) == Cursor("a", 1, "", 0)
    requires CoreOf(events).ledger.visits == map["a" := 1] && CoreOf(events).ledger.attempts == map[AttemptRef("a", "") := 1]
    ensures var s := events + [FAILED];
            && Legal(ONCE, s) && MayTryAgain(ONCE, s, STEP) && Entry(STEP, NextAttempt(s, STEP), "k", true, 0) == AGAIN
            && (CanAppend(ONCE, s, AGAIN) <==> ReentryIsDue(events, "a"))
  {
    hide Fold, Legal, CanAppend, Here, Total, LatestEntry, StepData, StepEnding, StepItems, StepBranches, StepPlace, Sound, StepById;
    OnceIsSound();
    StepVerdict(ONCE, events, STEP, "k", Check(false, "no"));
    Boundaries.Grow(ONCE, events, FAILED);
    var s := events + [FAILED];
    GroupTheorems.FoldOfLast(s);
    assert "k" != "";
    VerdictKeepsPlace(ONCE, s);
    NextAttemptIffUncapped(ONCE, s, STEP);
  }

  /** On the last permitted visit the check fails, and the second attempt, though within
      the step's attempts, is refused. */
  lemma LastVisitRefusesNextAttempt()
    ensures var s := HANDED_OUT + [FAILED];
            && Legal(ONCE, s) && MayTryAgain(ONCE, s, STEP) && !CanAppend(ONCE, s, AGAIN)
            && Justified(ONCE, s, STEP, EXHAUSTED)
  {
    hide Fold, Legal, CanAppend, Justified, Here, MayTryAgain;
    OnceIsSound();
    HandedOut();
    FailsOnce(HANDED_OUT);
    NextAttemptIffUncapped(ONCE, HANDED_OUT + [FAILED], STEP);
  }

  lemma ResumedIsLegal()
    ensures Legal(ONCE, RESUMED) && At(ONCE, RESUMED, STEP) && Here(ONCE, RESUMED) == Cursor("a", 1, "", 0)
    ensures CoreOf(RESUMED).ledger.visits == map["a" := 1] && Expects(ONCE, RESUMED, "a", 1, None)
    ensures CoreOf(RESUMED).ledger.attempts == map[AttemptRef("a", "") := 1]
  {
    hide Fold, Legal, CanAppend, Total, LatestEntry, StepData, StepItems, StepBranches, Sound, StepById, Entered;
    OnceIsSound();
    HandedOut();
    ResumeAllowed(ONCE, HANDED_OUT);
    assert ResumeEvent(CoreOf(HANDED_OUT)) == Last(RESUMED);
    Boundaries.Grow(ONCE, HANDED_OUT, Last(RESUMED));
    assert HANDED_OUT + [Last(RESUMED)] == RESUMED && Front(RESUMED) == HANDED_OUT;
    ResumedPlace(ONCE, HANDED_OUT, RESUMED, STEP);
    ResumedEntered(ONCE, RESUMED, STEP);
    GroupTheorems.FoldOfLast(RESUMED);
  }

  /** On the same visit, resumed after a crash and cut short again before the step was
      re-entered, the answer to the first dispatch is taken. Its check fails, and the
      second attempt is entered, although both caps are spent. */
  lemma ResumedVisitGrantsNextAttempt()
    ensures Legal(ONCE, RESUMED) && Expects(ONCE, RESUMED, "a", 1, None)
    ensures CoreOf(RESUMED).ledger.visits == map["a" := STEP.maxVisits] && Total(CoreOf(RESUMED).ledger.visits) == ONCE.maxSteps
    ensures Legal(ONCE, RESUMED + [FAILED] + [AGAIN])
  {
    hide Fold, Legal, CanAppend, Here, Total, LatestEntry, StepData, StepEnding, StepItems, StepBranches, Sound, StepById, Entered;
    OnceIsSound();
    HandedOut();
    Boundaries.NoVisits();
    TotalOfUpdate(map[], "a", 1);
    ResumedIsLegal();
    assert ReentryIsDue(RESUMED, "a") by {
      assert Front(RESUMED) == HANDED_OUT && IsEntry(Last(HANDED_OUT));
    }
    FailsOnce(RESUMED);
    Boundaries.Grow(ONCE, RESUMED + [FAILED], AGAIN);
  }
}
