/**
  Where the engine's guarantees stop: what the journal rules let happen outside
  the conditions the other theorems ask for, and how exact those conditions are.
 */
module Boundaries {
  import opened Wrappers
  import opened JsonValues
  import opened Journal
  import opened Workflows
  import opened Protocol
  import opened EngineRules
  import opened SubmitRules
  import GroupTheorems
  import RunTheorems

  // ---- caps that never bind ---------------------------------------------------------------

  lemma {:induction false} OneOfTotal(visits: map<string, int>, id: string)
    requires forall k :: k in visits ==> visits[k] >= 0
    ensures Lookup(visits, id, 0) <= Total(visits) && Total(visits) >= 0
    decreases |visits|
  {
    if visits != map[] {
      var k :| k in visits && Total(visits) == visits[k] + Total(visits - {k});
      assert (visits - {k}).Keys == visits.Keys - {k};
      OneOfTotal(visits - {k}, id);
    }
  }

  lemma {:induction false} VisitsArePositive(w: Workflow, events: seq<Event>)
    requires Legal(w, events)
    ensures forall id :: id in CoreOf(events).ledger.visits ==> CoreOf(events).ledger.visits[id] >= 1
  {
    hide StepData, StepPlace, StepLedger, StepEnding, StepItems, StepBranches, Legal, CanAppend;
    if |events| > 0 {
      LegalSplit(w, events);
      VisitsArePositive(w, Front(events));
      RunTheorems.VisitsStep(CoreOf(Front(events)).ledger, CoreOf(Front(events)).place, Last(events));
    }
  }

  /** A max_visits above max_steps is a cap that can never bind: in every run such a
      step is capped exactly when the run as a whole is. */
  lemma CapAboveTheRunNeverBinds(w: Workflow, events: seq<Event>, step: StepDecl)
    requires Legal(w, events) && step.maxVisits > w.maxSteps && CoreOf(events).place.resumedInFlight != step.id
    ensures CapsReached(w, CoreOf(events), step) <==> Total(CoreOf(events).ledger.visits) >= w.maxSteps
  {
    hide Fold, Legal;
    VisitsArePositive(w, events);
    OneOfTotal(CoreOf(events).ledger.visits, step.id);
    RunTheorems.CapsHold(w, events);
  }

  // ---- exhausted routes -------------------------------------------------------------------

  /** Following `exhausted` routes from these steps never leaves them. */
  ghost predicate ExhaustedStays(w: Workflow, ids: set<string>) {
    forall id :: id in ids ==> IsStep(w, id) && NextExhausted(w, id).Some? && NextExhausted(w, id).value in ids
  }

  /** The step a capped step's `exhausted` route leads to. */
  function NextExhausted(w: Workflow, id: string): Option<string>
    requires IsStep(w, id)
  {
    var route := ResolveTarget(StepById(w, id).value, EXHAUSTED);
    if route.Some? && IsStep(w, route.value.target) then Some(route.value.target) else None
  }

  function ExitBy(step: StepDecl, attempt: int, outcome: string, route: Route): Event {
    Transition(step.id, attempt, route.target, outcome, route.viaCatch, "", None)
  }

  lemma LeaveAllowed(w: Workflow, events: seq<Event>, step: StepDecl, outcome: string)
    requires At(w, events, step) && Justified(w, events, step, outcome) && ResolveTarget(step, outcome).Some?
    ensures CanAppend(w, events, ExitBy(step, Here(w, events).attempt, outcome, ResolveTarget(step, outcome).value))
  {
    hide Fold, Here, Justified;
  }

  lemma LeaveArrives(w: Workflow, events: seq<Event>)
    requires |events| > 0 && IsExit(Last(events)) && Running(Front(events))
    ensures Arriving(w, events, Last(events).target)
    ensures CoreOf(events).ledger.visits == CoreOf(Front(events)).ledger.visits
    ensures Fold(events).branches == Fold(Front(events)).branches
  {
    hide StepData, StepItems;
    GroupTheorems.FoldOfLast(events);
  }

  /** Once max_steps is spent, a closed set of `exhausted` routes is followed for
      ever: from any of its steps a run can be extended by any number of exits,
      entering no step. */
  lemma {:induction false} ExhaustedRoutesGoOn(w: Workflow, events: seq<Event>, id: string, ids: set<string>, n: nat)
    returns (more: seq<Event>)
    requires Legal(w, events) && Arriving(w, events, id) && id in ids && ExhaustedStays(w, ids) && !IsStep(w, "")
    requires Total(CoreOf(events).ledger.visits) >= w.maxSteps
    ensures |more| == n && Legal(w, events + more)
    ensures forall k :: 0 <= k < n ==> IsExit(more[k]) && more[k].outcome == EXHAUSTED
    decreases n
  {
    hide Fold, Legal, CanAppend, Here, Justified, ResolveTarget, Arriving, Settled, Total, Arrived, LatestEntry;
    if n == 0 {
      more := [];
      assert events + more == events;
    } else {
      var step := StepById(w, id).value;
      ArrivedUncounted(w, events, step);
      NothingAwaitedOnArrival(w, events, step);
      ExhaustedOnArrival(w, events, step);
      LeaveAllowed(w, events, step, EXHAUSTED);
      var exit := ExitBy(step, Here(w, events).attempt, EXHAUSTED, ResolveTarget(step, EXHAUSTED).value);
      AppendIsLegal(w, events, exit);
      assert Front(events + [exit]) == events && Last(events + [exit]) == exit;
      LeaveArrives(w, events + [exit]);
      var rest := ExhaustedRoutesGoOn(w, events + [exit], exit.target, ids, n - 1);
      more := [exit] + rest;
      assert events + more == events + [exit] + rest;
    }
  }

  lemma ArrivedUncounted(w: Workflow, events: seq<Event>, step: StepDecl)
    requires Arriving(w, events, step.id) && StepById(w, step.id) == Some(step) && step.id != ""
    requires Total(CoreOf(events).ledger.visits) >= w.maxSteps
    ensures At(w, events, step) && Arrived(events) && CapsReached(w, CoreOf(events), step) && Running(events)
  {
    hide Fold;
  }

  /** The condition the run loop terminates under is exact: a rank along `exhausted`
      routes exists if and only if no non-empty set of steps is closed under them. */
  lemma RankExistsIffNoLoop(w: Workflow)
    ensures (exists rank :: ExhaustedDescends(w, rank))
       <==> (forall ids :: ExhaustedStays(w, ids) ==> ids == {})
  {
    hide ExhaustedStays, ExhaustedDescends, StepById;
    if rank :| ExhaustedDescends(w, rank) {
      forall ids | ExhaustedStays(w, ids)
        ensures ids == {}
      {
        if ids != {} {
          RankedLeaves(w, rank, ids);
        }
      }
    }
    if forall ids :: ExhaustedStays(w, ids) ==> ids == {} {
      var all := set s | s in w.steps :: s.id;
      forall id | IsStep(w, id)
        ensures id in all
      {
        assert StepById(w, id).value in w.steps;
      }
      var rank := RankBelow(w, all, id => 0, {});
      assert ExhaustedDescends(w, rank);
    }
  }

  lemma RankedLeaves(w: Workflow, rank: string -> nat, ids: set<string>)
    requires ExhaustedDescends(w, rank) && ids != {}
    ensures !ExhaustedStays(w, ids)
  {
    hide ResolveTarget, StepById;
    var lowest := LowestRanked(ids, rank);
    assert IsStep(w, lowest) && NextExhausted(w, lowest).Some? ==> rank(NextExhausted(w, lowest).value) < rank(lowest);
  }

  lemma {:induction false} LowestRanked(ids: set<string>, rank: string -> nat) returns (lowest: string)
    requires ids != {}
    ensures lowest in ids && forall id :: id in ids ==> rank(lowest) <= rank(id)
  {
    var one :| one in ids;
    if ids == {one} {
      lowest := one;
    } else {
      var other := LowestRanked(ids - {one}, rank);
      lowest := if rank(one) <= rank(other) then one else other;
    }
  }

  /** Ranks for the steps done so far, all of whose routes lead to done steps. */
  ghost predicate RankedSoFar(w: Workflow, rank: string -> nat, done: set<string>) {
    forall id :: id in done && IsStep(w, id) && NextExhausted(w, id).Some? ==>
      NextExhausted(w, id).value in done && rank(NextExhausted(w, id).value) < rank(id)
  }

  lemma {:induction false} RankBelow(w: Workflow, left: set<string>, rank: string -> nat, done: set<string>)
    returns (full: string -> nat)
    requires RankedSoFar(w, rank, done) && left !! done
    requires forall id :: IsStep(w, id) ==> id in left || id in done
    requires forall ids :: ExhaustedStays(w, ids) ==> ids == {}
    ensures ExhaustedDescends(w, full)
    decreases |left|
  {
    hide ResolveTarget, StepById, RankedSoFar;
    var steps := set id | id in left && IsStep(w, id);
    if steps == {} {
      full := rank;
      forall id | IsStep(w, id)
        ensures id in done
      {
        assert id !in steps;
      }
      AllRanked(w, rank, done);
    } else {
      assert !ExhaustedStays(w, steps);
      var id :| id in steps && !(NextExhausted(w, id).Some? && NextExhausted(w, id).value in steps);
      var above := if NextExhausted(w, id).Some? then rank(NextExhausted(w, id).value) + 1 else 0;
      var more := (s: string) => if s == id then above else rank(s);
      OneMoreRanked(w, left, rank, done, id, more);
      full := RankBelow(w, left - {id}, more, done + {id});
    }
  }

  lemma OneMoreRanked(w: Workflow, left: set<string>, rank: string -> nat, done: set<string>, id: string,
                      more: string -> nat)
    requires RankedSoFar(w, rank, done) && left !! done && id in left && IsStep(w, id)
    requires forall s :: IsStep(w, s) ==> s in left || s in done
    requires NextExhausted(w, id).Some? ==> NextExhausted(w, id).value in done
    requires more(id) == if NextExhausted(w, id).Some? then rank(NextExhausted(w, id).value) + 1 else 0
    requires forall s :: s != id ==> more(s) == rank(s)
    ensures RankedSoFar(w, more, done + {id})
  {
    hide NextExhausted, StepById, IsStep;
  }

  lemma AllRanked(w: Workflow, rank: string -> nat, done: set<string>)
    requires RankedSoFar(w, rank, done) && forall id :: IsStep(w, id) ==> id in done
    ensures ExhaustedDescends(w, rank)
  {
    hide ResolveTarget, StepById;
    forall id | IsStep(w, id)
      ensures var route := ResolveTarget(StepById(w, id).value, EXHAUSTED);
              route.Some? && IsStep(w, route.value.target) ==> rank(route.value.target) < rank(id)
    {
      assert NextExhausted(w, id).Some? ==> rank(NextExhausted(w, id).value) < rank(id);
    }
  }

  // ---- a branch that was not entered again ------------------------------------------------

  /** A group of one agentic branch that is visited twice. */
  const LOOPED := Workflow(
    "p",
    [StepDecl("p", Parallel(["a"]), "p", map[], [], 1, 2, false, false, None),
     StepDecl("a", Agentic, "", map[], [], 1, 1, false, false, None)],
    map[], map[], 2, 0)

  const GROUP := LOOPED.steps[0]

  const ENTER := StepEnter("p", 1, "", false, 0, "", None, None)

  const LEAVE := Transition("p", 1, "p", SUCCESS, false, "", None)

  /** One full visit of the group. */
  const FIRST_VISIT := [RunStart(FORMAT, "", map[]), ENTER, BranchEntry("p", "a"), BranchTransition("p", "a", 1, SUCCESS), LEAVE]

  /** Its second visit, cut short by a crash before the branch was entered. */
  const SECOND_VISIT := [ENTER, Resume("p", 1, "", 0, false)]

  lemma LoopedIsSound()
    ensures Sound(LOOPED) && StepById(LOOPED, "p") == Some(GROUP) && StepById(LOOPED, "a") == Some(LOOPED.steps[1])
    ensures ResolveTarget(GROUP, SUCCESS) == Some(Route("p", false))
  {
    assert LOOPED.steps[1..][0] == LOOPED.steps[1];
    assert "p"[0] != "a"[0];
    assert SUCCESS[0] != FAILURE[0] && SUCCESS[0] != EXHAUSTED[0];
  }

  lemma Grow(w: Workflow, events: seq<Event>, e: Event)
    requires Legal(w, events) && CanAppend(w, events, e)
    ensures var longer := events + [e];
            Legal(w, longer) && Fold(longer) == Step(Fold(events), e) && Front(longer) == events && Last(longer) == e
  {
    AppendIsLegal(w, events, e);
  }

  lemma Started()
    ensures var s := [RunStart(FORMAT, "", map[])];
            Legal(LOOPED, s) && Arriving(LOOPED, s, "p") && CoreOf(s).ledger.visits == map[]
            && Fold(s).branches == Branches({}, map[])
  {
    var e := RunStart(FORMAT, "", map[]);
    StartAllowed(LOOPED, FORMAT, "", map[]);
    Grow(LOOPED, [], e);
    assert [] + [e] == [e];
    StartArrives(LOOPED, [e]);
  }

  /** A visit of the group begins. */
  lemma VisitBegins(events: seq<Event>)
    requires Legal(LOOPED, events) && Arriving(LOOPED, events, "p") && Fold(events).branches.pending == {}
    requires Total(CoreOf(events).ledger.visits) < 2 && Lookup(CoreOf(events).ledger.visits, "p", 0) < 2
    ensures var s, visits := events + [ENTER], CoreOf(events).ledger.visits;
            && Legal(LOOPED, s) && Entered(LOOPED, s, GROUP) && Here(LOOPED, s) == Cursor("p", 1, "", 0)
            && Fold(s).branches == Fold(events).branches && EnteredBranches(s, "p") == []
            && CoreOf(s).ledger.visits == visits["p" := Lookup(visits, "p", 0) + 1]
            && GroupTheorems.BranchReport(s, "p", "a") == None
  {
    hide Fold, Legal, CanAppend, Here, Total, LatestEntry, EnteredBranches, Entered, StepData, StepEnding;
    LoopedIsSound();
    FirstEntryAllowed(LOOPED, events, GROUP, Cursor("p", 1, "", 0), "k");
    Grow(LOOPED, events, ENTER);
    FreshlyEntered(LOOPED, events, events + [ENTER], GROUP);
  }

  /** The branch is entered, reports success, and the group leaves for itself. */
  lemma FirstVisit()
    ensures Legal(LOOPED, FIRST_VISIT) && Arriving(LOOPED, FIRST_VISIT, "p")
    ensures CoreOf(FIRST_VISIT).ledger.visits == map["p" := 1]
    ensures Fold(FIRST_VISIT).branches == Branches({}, map["a" := SUCCESS])
  {
    hide Fold, Legal, CanAppend, Here, Total, LatestEntry, EnteredBranches, Entered, Arriving, StepCore, Sound,
         Justified;
    LoopedIsSound();
    Started();
    var s1 := [RunStart(FORMAT, "", map[])];
    assert Total(map[]) == 0 by { NoVisits(); }
    VisitBegins(s1);
    var s2 := s1 + [ENTER];
    assert EnteredBranches(s2, "p") == GROUP.kind.branches[..0];
    BranchEntryAllowed(LOOPED, s2, GROUP, 0);
    Grow(LOOPED, s2, BranchEntry("p", "a"));
    var s3 := s2 + [BranchEntry("p", "a")];
    BranchEntryDone(LOOPED, s3, GROUP, "a");
    EnteredIsAt(LOOPED, s3, GROUP);
    BranchTransitionAllowed(LOOPED, s3, GROUP, "a", 1, SUCCESS);
    Grow(LOOPED, s3, BranchTransition("p", "a", 1, SUCCESS));
    var s4 := s3 + [BranchTransition("p", "a", 1, SUCCESS)];
    BranchTransitionDone(LOOPED, s4, GROUP, "a", 1, SUCCESS);
    SameRunStays(LOOPED, s2, s3, GROUP) by { EnteredIsAt(LOOPED, s2, GROUP); }
    SameRunStays(LOOPED, s3, s4, GROUP);
    GroupLeaves(s4);
    assert FIRST_VISIT == s4 + [LEAVE];
  }

  lemma NoVisits()
    ensures Total(map[]) == 0
  {}

  /** With no branch awaited and success on record for it, the group leaves. */
  lemma GroupLeaves(events: seq<Event>)
    requires Legal(LOOPED, events) && Entered(LOOPED, events, GROUP) && Here(LOOPED, events).attempt == 1
    requires Fold(events).branches == Branches({}, map["a" := SUCCESS])
    ensures var s := events + [LEAVE];
            Legal(LOOPED, s) && Arriving(LOOPED, s, "p") && CoreOf(s).ledger.visits == CoreOf(events).ledger.visits
            && Fold(s).branches == Fold(events).branches
  {
    hide Fold, Legal, CanAppend, Here, Entered, Justified, Arriving, StepCore;
    LoopedIsSound();
    ParallelMayLeave(LOOPED, events, GROUP, SUCCESS);
    EnteredIsAt(LOOPED, events, GROUP);
    LeaveAllowed(LOOPED, events, GROUP, SUCCESS);
    Grow(LOOPED, events, LEAVE);
    LeaveArrives(LOOPED, events + [LEAVE]);
  }

  /** The second visit joins as a success although its branch was never entered in
      it: the outcome of the first visit is still on record. So the condition under
      which a join is all-or-nothing cannot be dropped. */
  lemma StaleBranchStillCounts()
    ensures var crashed := FIRST_VISIT + SECOND_VISIT;
            && Legal(LOOPED, crashed + [LEAVE]) && LEAVE.outcome == SUCCESS
            && GroupTheorems.BranchReport(crashed, "p", "a") == None
            && !GroupTheorems.AllReportedSuccess(crashed, "p", GROUP.kind.branches)
  {
    hide Fold, Legal, CanAppend, Here, Entered, Arriving, StepData, StepLedger, StepEnding;
    LoopedIsSound();
    FirstVisit();
    TotalOfUpdate(map[], "p", 1);
    NoVisits();
    VisitBegins(FIRST_VISIT);
    var s := FIRST_VISIT + [ENTER];
    EnteredCursor(LOOPED, s, GROUP);
    EnteredIsAt(LOOPED, s, GROUP);
    ResumeAllowed(LOOPED, s);
    var resume := Resume("p", 1, "", 0, false);
    assert resume == ResumeEvent(CoreOf(s));
    Grow(LOOPED, s, resume);
    var crashed := s + [resume];
    assert crashed == FIRST_VISIT + SECOND_VISIT;
    ResumedPlace(LOOPED, s, crashed, GROUP);
    GroupLeaves(crashed);
    assert "a" in GROUP.kind.branches;
  }

  // ---- a list of an earlier visit --------------------------------------------------------

  /** A foreach step over a list of one, visited twice. */
  const RELISTED := Workflow(
    "f",
    [StepDecl("f", Foreach("xs", "b", "c", 1), "f", map[], [], 1, 2, false, false, None),
     StepDecl("b", Agentic, "", map[], [], 1, 1, false, false, None)],
    map[], map["xs" := Arr([Null])], 2, 0)

  const LISTED := RELISTED.steps[0]

  const BODY := RELISTED.steps[1]

  const ONE := ItemRef("f", 0)

  const LIST_ENTER := StepEnter("f", 1, "", false, 0, "", None, Some([Null]))

  /** The first visit up to its join: the one item is entered and succeeds. */
  const ITEM_DONE := [RunStart(FORMAT, "", map[]), LIST_ENTER, ItemEntry(ONE, "b", 1, "", false, 0),
                      ItemTransition(ONE, "b", 1, SUCCESS)]

  ghost const COLLECTED := CollectEvent(LISTED, 1, JoinList(ITEM_DONE, "f", [Null]))

  const AROUND := Transition("f", 1, "f", SUCCESS, false, "", None)

  ghost const JOINED_ONCE := ITEM_DONE + [COLLECTED] + [AROUND]

  const RESUMED := Resume("f", 1, "", 0, false)

  lemma RelistedIsSound()
    ensures Sound(RELISTED) && StepById(RELISTED, "f") == Some(LISTED) && StepById(RELISTED, "b") == Some(BODY)
    ensures ResolveTarget(LISTED, SUCCESS) == Some(Route("f", false)) && !IsStep(RELISTED, "")
  {
    assert RELISTED.steps[1..][0] == RELISTED.steps[1];
    assert "f"[0] != "b"[0];
    assert SUCCESS[0] != FAILURE[0] && SUCCESS[0] != EXHAUSTED[0];
  }

  lemma ListBegun()
    ensures var s := ITEM_DONE[..2];
            && Legal(RELISTED, s) && InForeach(RELISTED, s, LISTED) && Snapshot(s, "f") == [Null]
            && NoneTracked(Fold(s).items, "f") && Here(RELISTED, s) == Cursor("f", 1, "", 0)
            && CoreOf(s).ledger.visits == map["f" := 1]
  {
    hide Fold, Legal, CanAppend, Here, Total, LatestEntry, Entered, StepData, StepEnding, Sound, StepById, NoneTracked;
    RelistedIsSound();
    StartAllowed(RELISTED, FORMAT, "", map[]);
    var start := RunStart(FORMAT, "", map[]);
    Grow(RELISTED, [], start);
    var s := [start];
    assert [] + [start] == s;
    StartArrives(RELISTED, s);
    NothingWritten(s);
    NoVisits();
    NothingAwaitedOnArrival(RELISTED, s, LISTED);
    FirstEntryAllowed(RELISTED, s, LISTED, Cursor("f", 1, "", 0), "k");
    Grow(RELISTED, s, LIST_ENTER);
    assert s + [LIST_ENTER] == ITEM_DONE[..2];
    FreshlyEntered(RELISTED, s, ITEM_DONE[..2], LISTED);
    EnteredForeach(RELISTED, ITEM_DONE[..2], LISTED);
  }

  lemma NothingWritten(events: seq<Event>)
    requires events == [RunStart(FORMAT, "", map[])]
    ensures ListToFreeze(RELISTED, CoreOf(events), LISTED.kind) == Some([Null])
    ensures CoreOf(events).ledger.visits == map[] && CoreOf(events).place.resumedInFlight == ""
  {
    assert Front(events) == [] && Fold([]) == INIT;
    GroupTheorems.FoldOfLast(events);
  }

  lemma ItemDone()
    ensures Legal(RELISTED, ITEM_DONE) && InForeach(RELISTED, ITEM_DONE, LISTED) && Snapshot(ITEM_DONE, "f") == [Null]
    ensures Here(RELISTED, ITEM_DONE) == Cursor("f", 1, "", 0)
    ensures CoreOf(ITEM_DONE).ledger.visits == map["f" := 1]
    ensures Fold(ITEM_DONE).items.pending == {} && Fold(ITEM_DONE).items.outcome == map[ONE := SUCCESS]
  {
    hide Fold, Legal, CanAppend, Here, Snapshot, Sound, StepById, InForeach, Iterating;
    RelistedIsSound();
    ListBegun();
    var s2 := ITEM_DONE[..2];
    NothingTracked(s2);
    BodyIterates(s2);
    var entry, transition := ItemEntry(ONE, "b", 1, "", false, 0), ItemTransition(ONE, "b", 1, SUCCESS);
    FreshItemAllowed(RELISTED, s2, LISTED, BODY, ONE, "");
    IterationRuns(s2);
    Grow(RELISTED, s2, entry);
    var s3 := s2 + [entry];
    ItemEntryDone(RELISTED, s3, LISTED, BODY, ONE);
    ItemReportAllowed(RELISTED, s3, LISTED, BODY, ONE, transition);
    IterationRuns(s3);
    Grow(RELISTED, s3, transition);
    var s4 := s3 + [transition];
    ItemTransitionDone(RELISTED, s4, LISTED, BODY, ONE);
    assert s4 == ITEM_DONE;
    IterationRuns(s4);
    SameRunForeach(RELISTED, s2, s3, LISTED);
    SameRunForeach(RELISTED, s3, s4, LISTED);
  }

  /** With nothing of the step tracked, and no other step's items in this workflow,
      nothing is. */
  lemma NothingTracked(events: seq<Event>)
    requires events == ITEM_DONE[..2]
    ensures Fold(events).items.pending == {} && Fold(events).items.outcome == map[]
  {
    hide StepData, StepLedger, StepPlace, StepEnding, StepBranches;
    var s := events[..1];
    assert Front(events) == s && Front(s) == [];
    FoldOfNothing();
    GroupTheorems.FoldOfLast(s);
    GroupTheorems.FoldOfLast(events);
  }

  lemma BodyIterates(events: seq<Event>)
    requires InForeach(RELISTED, events, LISTED) && Snapshot(events, "f") == [Null]
    ensures Iterating(RELISTED, events, LISTED, BODY, ONE)
  {
    hide Fold, Here, Snapshot;
    RelistedIsSound();
  }

  lemma IterationRuns(events: seq<Event>)
    requires Iterating(RELISTED, events, LISTED, BODY, ONE)
    ensures Running(events) && InForeach(RELISTED, events, LISTED) && "f" != ""
  {
    hide Fold, Here, Snapshot;
  }

  /** With its one item resolved the step joins, and leaves for itself. */
  lemma ListLeaves(events: seq<Event>)
    requires Legal(RELISTED, events) && InForeach(RELISTED, events, LISTED) && Snapshot(events, "f") == [Null]
    requires Fold(events).items.pending == {} && Fold(events).items.outcome == map[ONE := SUCCESS]
    requires Here(RELISTED, events).attempt == 1
    ensures var collect := CollectEvent(LISTED, 1, JoinList(events, "f", [Null]));
            var s := events + [collect] + [AROUND];
            && Legal(RELISTED, s) && Arriving(RELISTED, s, "f")
            && Fold(s).items == Fold(events).items && CoreOf(s).ledger.visits == CoreOf(events).ledger.visits
            && Snapshot(s, "f") == [Null]
  {
    hide Fold, Legal, CanAppend, Here, Snapshot, Sound, StepById, LatestEntry, Justified, Arriving, JoinList, StepCore,
         Settled;
    RelistedIsSound();
    InForeachCursor(RELISTED, events, LISTED);
    var collect := CollectEvent(LISTED, 1, JoinList(events, "f", [Null]));
    assert AllResolved(Fold(events).items, "f", 1) by { assert Resolved(Fold(events).items, "f", 0); }
    CollectAllowed(RELISTED, events, LISTED);
    Grow(RELISTED, events, collect);
    var joined := events + [collect];
    CollectDone(RELISTED, joined, LISTED);
    SameRunForeach(RELISTED, events, joined, LISTED);
    ForeachMayLeave(RELISTED, joined, LISTED, SUCCESS);
    InForeachCursor(RELISTED, joined, LISTED);
    LeaveAllowed(RELISTED, joined, LISTED, SUCCESS);
    Grow(RELISTED, joined, AROUND);
    LeaveArrives(RELISTED, joined + [AROUND]);
    ExitKeepsItems(joined + [AROUND]);
  }

  lemma ExitKeepsItems(events: seq<Event>)
    requires |events| > 0 && (IsExit(Last(events)) || Last(events).Resume?)
    ensures Fold(events).items == Fold(Front(events)).items && Snapshot(events, "f") == Snapshot(Front(events), "f")
  {
    hide StepCore, StepBranches;
    GroupTheorems.FoldOfLast(events);
  }

  /** Arrived at again, the step is cut short by a crash before its entry. Resumed, it
      joins the list of its first visit once more: the same list is written, and it
      leaves as a success without having been entered. So a joined list is this visit's
      only under the condition of `GroupTheorems.JoinedListIsThisVisits`. */
  lemma StaleListIsJoined()
    ensures var resumed := JOINED_ONCE + [RESUMED];
            var again := resumed + [COLLECTED] + [AROUND];
            && Legal(RELISTED, JOINED_ONCE) && Legal(RELISTED, again) && AROUND.outcome == SUCCESS
            && !CoreOf(resumed + [COLLECTED]).place.inFlight
            && !GroupTheorems.ListIsThisVisits(resumed + [COLLECTED], "f")
            && CoreOf(again).ledger.visits == map["f" := 1]
            && forall k :: |JOINED_ONCE| <= k < |again| ==> !again[k].StepEnter?
  {
    hide Fold, Legal, CanAppend, Here, Snapshot, Sound, StepById, Arriving, JoinList, ListToFreeze, StepCore,
         GroupTheorems.ListIsThisVisits;
    RelistedIsSound();
    ItemDone();
    ListLeaves(ITEM_DONE);
    ArrivalCursor(JOINED_ONCE);
    ResumeAllowed(RELISTED, JOINED_ONCE);
    Grow(RELISTED, JOINED_ONCE, RESUMED);
    var resumed := JOINED_ONCE + [RESUMED];
    ResumedPlace(RELISTED, JOINED_ONCE, resumed, LISTED);
    ResumedEntered(RELISTED, resumed, LISTED);
    ExitKeepsItems(resumed);
    ResumeKeepsVisits(resumed);
    GroupTheorems.RunEventsKeepTheList(ITEM_DONE, [COLLECTED, AROUND, RESUMED], "f", [Null]);
    assert ITEM_DONE + [COLLECTED, AROUND, RESUMED] == resumed;
    ListLeaves(resumed);
    var joined := resumed + [COLLECTED];
    var again := joined + [AROUND];
    assert Front(again) == joined && Front(joined) == resumed && Last(again) == AROUND;
    RunTheorems.LegalEnds(RELISTED, again);
    CollectKeepsPlace(joined);
    GroupTheorems.VisitOfExit(RELISTED, joined, AROUND);
  }

  lemma ArrivalCursor(events: seq<Event>)
    requires Arriving(RELISTED, events, "f") && |events| > 0 && IsExit(Last(events))
    ensures ResumeEvent(CoreOf(events)) == RESUMED && !Terminal(CoreOf(events)) && !Blocked(CoreOf(events))
    ensures !GroupTheorems.InFlight(CoreOf(events).place)
  {
    hide StepData, StepLedger, StepItems, StepBranches;
    GroupTheorems.FoldOfLast(events);
  }

  lemma ResumeKeepsVisits(events: seq<Event>)
    requires |events| > 0 && Last(events).Resume?
    ensures CoreOf(events).ledger.visits == CoreOf(Front(events)).ledger.visits
  {
    hide StepData, StepPlace, StepEnding, StepItems, StepBranches;
    GroupTheorems.FoldOfLast(events);
  }

  lemma CollectKeepsPlace(events: seq<Event>)
    requires |events| > 0 && Last(events).Writes?
    ensures CoreOf(events).place == CoreOf(Front(events)).place
  {
    hide StepData, StepLedger, StepEnding, StepItems, StepBranches;
    GroupTheorems.FoldOfLast(events);
  }

  // ---- a key that was never rendered -----------------------------------------------------

  /** A step that hands over to one with an attempt_key. */
  const HANDED := Workflow(
    "d",
    [StepDecl("d", Deterministic, "a", map[], [], 1, 1, false, false, None),
     StepDecl("a", Agentic, "", map[], [], 2, 2, true, true, None)],
    map[], map[], 2, 0)

  const FAILED := Check(false, "no")

  /** Arrived at `a`, answered before it was entered, failed, and tried again. */
  const KEYLESS := [RunStart(FORMAT, "", map[]), Entry(HANDED.steps[0], 1, "", false, 0),
                    Transition("d", 1, "a", SUCCESS, false, "", None),
                    Judged(HANDED.steps[1], 1, "", FAILED, Plain), Entry(HANDED.steps[1], 2, "", true, 0)]

  lemma HandedIsSound()
    ensures Sound(HANDED) && StepById(HANDED, "d") == Some(HANDED.steps[0]) && StepById(HANDED, "a") == Some(HANDED.steps[1])
    ensures ResolveTarget(HANDED.steps[0], SUCCESS) == Some(Route("a", false)) && !IsStep(HANDED, "")
  {
    assert HANDED.steps[1..][0] == HANDED.steps[1];
    assert "d"[0] != "a"[0];
    assert SUCCESS[0] != FAILURE[0] && SUCCESS[0] != EXHAUSTED[0];
  }

  lemma FoldOfNothing()
    ensures Fold([]) == INIT
  {}

  /** No budget is recorded for `a` yet. */
  lemma NoBudgetYet()
    ensures AttemptRef("a", "") !in CoreOf(KEYLESS[..3]).ledger.attempts
  {
    hide StepData, StepPlace, StepEnding, StepItems, StepBranches;
    assert Front(KEYLESS[..3]) == KEYLESS[..2] && Front(KEYLESS[..2]) == KEYLESS[..1] && Front(KEYLESS[..1]) == [];
    GroupTheorems.FoldOfLast(KEYLESS[..3]);
    GroupTheorems.FoldOfLast(KEYLESS[..2]);
    GroupTheorems.FoldOfLast(KEYLESS[..1]);
    FoldOfNothing();
    assert "d"[0] != "a"[0];
  }

  lemma HandedOver()
    ensures Legal(HANDED, KEYLESS[..3]) && Arriving(HANDED, KEYLESS[..3], "a")
    ensures CoreOf(KEYLESS[..3]).ledger.visits == map["d" := 1]
  {
    hide Fold, Legal, CanAppend, Here, Total, LatestEntry, StepData, StepEnding, Sound, StepById, Justified;
    HandedIsSound();
    var d := HANDED.steps[0];
    StartAllowed(HANDED, FORMAT, "", map[]);
    Grow(HANDED, [], KEYLESS[0]);
    var s := [KEYLESS[0]];
    assert [] + [KEYLESS[0]] == s;
    StartArrives(HANDED, s);
    assert Front(s) == [];
    GroupTheorems.FoldOfLast(s);
    assert CoreOf([]).ledger.visits == map[] by { FoldOfNothing(); }
    NoVisits();
    FirstTryAllowed(HANDED, s, d, Cursor("d", 1, "", 0), "k");
    Grow(HANDED, s, KEYLESS[1]);
    var entered := s + [KEYLESS[1]];
    EnteredHere(HANDED, s, entered);
    PassedMayLeave(HANDED, entered, d, SUCCESS);
    LeaveAllowed(HANDED, entered, d, SUCCESS);
    Grow(HANDED, entered, KEYLESS[2]);
    assert entered + [KEYLESS[2]] == KEYLESS[..3];
    LeaveArrives(HANDED, KEYLESS[..3]);
  }

  /** An answer to a step the run has arrived at but not entered is taken, since only the
      cursor is compared. If its check fails, the step is in flight at its next attempt
      under no key, although it declares an attempt_key: the case in which a crash does
      not re-enter the same try. */
  lemma AnsweredBeforeEntered()
    ensures Legal(HANDED, KEYLESS) && Expects(HANDED, KEYLESS[..3], "a", 1, None)
    ensures RunTheorems.InFlightAt(CoreOf(KEYLESS), Cursor("a", 2, "", 0)) && StepById(HANDED, "a").value.keyed
    ensures !RunTheorems.RetriesFollowTries(KEYLESS)
  {
    hide Fold, Legal, CanAppend, Here, Total, LatestEntry, StepData, Sound, StepById, StepCore;
    HandedIsSound();
    HandedOver();
    var a := HANDED.steps[1];
    var s := KEYLESS[..3];
    TotalOfUpdate(map[], "d", 1);
    NoVisits();
    ArrivedAt(s);
    NoBudgetYet();
    StepVerdict(HANDED, s, a, "", FAILED);
    Grow(HANDED, s, KEYLESS[3]);
    var judged := s + [KEYLESS[3]];
    assert judged == KEYLESS[..4] && Last(judged) == Judged(a, 1, "", FAILED, Plain);
    ReportsKeep(HANDED, s, judged, "a");
    AgenticRetryAllowed(HANDED, judged, a, "", 2);
    Grow(HANDED, judged, KEYLESS[4]);
    assert judged + [KEYLESS[4]] == KEYLESS;
    EnteredHere(HANDED, judged, KEYLESS);
    assert KEYLESS[4].retry && !CoreOf(KEYLESS[..4]).place.inFlight;
  }

  lemma ArrivedAt(events: seq<Event>)
    requires Arriving(HANDED, events, "a") && |events| > 0 && IsExit(Last(events)) && Last(events).target == "a"
    requires CoreOf(events).ledger.visits == map["d" := 1]
    ensures At(HANDED, events, HANDED.steps[1]) && Expects(HANDED, events, "a", 1, None)
    ensures !CoreOf(events).place.inFlight && Here(HANDED, events) == Cursor("a", 1, "", 0)
  {
    hide Fold;
    HandedIsSound();
    assert HANDED.steps[1..][1..] == [] && OwnerIn(HANDED.steps, "a").None?;
  }

  // ---- a resume off the graph ------------------------------------------------------------

  /** A step that leads to a terminal. */
  const LEFT := Workflow("d", [StepDecl("d", Deterministic, "done", map[], [], 1, 1, false, false, None)], map[], map[], 1, 0)

  const LEFT_ENTERED := [RunStart(FORMAT, "", map[]), Entry(LEFT.steps[0], 1, "", false, 0)]

  const LEFT_FOR := Transition("d", 1, "done", SUCCESS, false, "", None)

  lemma LeftIsSound()
    ensures Sound(LEFT) && StepById(LEFT, "d") == Some(LEFT.steps[0]) && !IsStep(LEFT, "") && !IsStep(LEFT, "done")
    ensures ResolveTarget(LEFT.steps[0], SUCCESS) == Some(Route("done", false))
  {
    assert LEFT.steps[1..] == [];
    assert "d" != "done";
    assert SUCCESS[0] != FAILURE[0] && SUCCESS[0] != EXHAUSTED[0];
  }

  lemma LeftForTerminal()
    ensures Legal(LEFT, LEFT_ENTERED + [LEFT_FOR]) && Arriving(LEFT, LEFT_ENTERED + [LEFT_FOR], "done")
  {
    hide Fold, Legal, CanAppend, Here, Total, LatestEntry, StepData, StepEnding, Sound, StepById, Justified;
    LeftIsSound();
    var d := LEFT.steps[0];
    StartAllowed(LEFT, FORMAT, "", map[]);
    Grow(LEFT, [], LEFT_ENTERED[0]);
    var s := [LEFT_ENTERED[0]];
    assert [] + [LEFT_ENTERED[0]] == s;
    StartArrives(LEFT, s);
    assert Front(s) == [];
    GroupTheorems.FoldOfLast(s);
    assert CoreOf([]).ledger.visits == map[] by { FoldOfNothing(); }
    NoVisits();
    FirstTryAllowed(LEFT, s, d, Cursor("d", 1, "", 0), "k");
    Grow(LEFT, s, LEFT_ENTERED[1]);
    assert s + [LEFT_ENTERED[1]] == LEFT_ENTERED;
    EnteredHere(LEFT, s, LEFT_ENTERED);
    PassedMayLeave(LEFT, LEFT_ENTERED, d, SUCCESS);
    LeaveAllowed(LEFT, LEFT_ENTERED, d, SUCCESS);
    Grow(LEFT, LEFT_ENTERED, LEFT_FOR);
    LeaveArrives(LEFT, LEFT_ENTERED + [LEFT_FOR]);
  }

  /** A crash right after RUN_START, and one between the transition to a terminal and the
      run's end: in both the RESUME is journaled, and nothing but further RESUMEs can
      follow. */
  lemma LostStartAndLostEndAreStuck(more: seq<Event>)
    ensures var started := [RunStart(FORMAT, "", map[])];
            var resumed := started + [Resume("", 0, "", 0, false)];
            Legal(LEFT, resumed) && (Legal(LEFT, resumed + more) ==> RunTheorems.AllResumes(more))
    ensures var left := LEFT_ENTERED + [LEFT_FOR];
            var resumed := left + [Resume("done", 1, "", 0, false)];
            Legal(LEFT, resumed) && (Legal(LEFT, resumed + more) ==> RunTheorems.AllResumes(more))
  {
    hide Legal, CanAppend, StepById, RunTheorems.AllResumes;
    LeftIsSound();
    LeftForTerminal();
    var started, left := [RunStart(FORMAT, "", map[])], LEFT_ENTERED + [LEFT_FOR];
    StartAllowed(LEFT, FORMAT, "", map[]);
    Grow(LEFT, [], RunStart(FORMAT, "", map[]));
    assert [] + started == started && Front(started) == [];
    FoldOfNothing();
    GroupTheorems.FoldOfLast(started);
    StuckOnceResumed(started, Resume("", 0, "", 0, false), more);
    LostEnd(left);
    StuckOnceResumed(left, Resume("done", 1, "", 0, false), more);
  }

  lemma StuckOnceResumed(events: seq<Event>, resume: Event, more: seq<Event>)
    requires Legal(LEFT, events) && !Terminal(CoreOf(events)) && ResumeEvent(CoreOf(events)) == resume
    requires !IsStep(LEFT, resume.step) && !IsStep(LEFT, "")
    ensures Legal(LEFT, events + [resume])
    ensures Legal(LEFT, events + [resume] + more) ==> RunTheorems.AllResumes(more)
  {
    hide Legal, Fold, CanAppend, StepById;
    ResumeAllowed(LEFT, events);
    Grow(LEFT, events, resume);
    if Legal(LEFT, events + [resume] + more) {
      RunTheorems.OffTheGraphIsStuck(LEFT, events + [resume], more);
    }
  }

  lemma LostEnd(events: seq<Event>)
    requires Arriving(LEFT, events, "done") && |events| > 0 && IsExit(Last(events))
    ensures !Terminal(CoreOf(events)) && ResumeEvent(CoreOf(events)) == Resume("done", 1, "", 0, false)
  {
    hide StepData, StepLedger, StepItems, StepBranches;
    GroupTheorems.FoldOfLast(events);
  }

  // ---- an answer to a blocked run ---------------------------------------------------------

  /** The last end in a journal. */
  function LastEnd(events: seq<Event>): (end: Option<Event>)
    ensures end.Some? ==> end.value.RunEnd? && end.value in events
  {
    if |events| == 0 then None
    else if Last(events).RunEnd? then Some(Last(events))
    else LastEnd(Front(events))
  }

  /** No RESUME, and every end that blocks names its step. */
  predicate WithoutResume(events: seq<Event>) {
    forall k :: 0 <= k < |events| ==>
      !events[k].Resume? && (events[k].RunEnd? && events[k].status == BLOCKED ==> events[k].step != "")
  }

  /** Whatever is journaled after a run was blocked, short of a RESUME: the replay finds it
      blocked if and only if no other end was journaled or the last one blocks it too, and
      over otherwise. It is blocked at the step and for the reason of the last end, and
      the next RESUME goes there. */
  lemma {:induction false} BlockedByLastEnd(events: seq<Event>, more: seq<Event>)
    requires Blocked(CoreOf(events)) && CoreOf(events).ending.blockedStep != ""
    requires WithoutResume(more)
    ensures var c, end := CoreOf(events + more), LastEnd(more);
            && (Blocked(c) <==> end.None? || end.value.status == BLOCKED)
            && (Terminal(c) <==> end.Some? && end.value.status != BLOCKED)
            && (end.None? ==> c.ending == CoreOf(events).ending)
            && (end.Some? ==> c.ending.status == end.value.status && c.ending.reason == end.value.reason)
            && (end.Some? && end.value.status == BLOCKED ==>
                  c.ending.blockedStep == end.value.step && c.ending.blockedReason == end.value.reason)
            && (Blocked(c) ==>
                  ResumeEvent(c).intervention
                  && ResumeEvent(c).step == if end.Some? then end.value.step else CoreOf(events).ending.blockedStep)
  {
    hide StepData, StepPlace, StepLedger, StepItems, StepBranches;
    if |more| == 0 {
      assert events + more == events;
    } else {
      var all := events + more;
      assert Front(all) == events + Front(more) && Last(all) == Last(more);
      assert forall k :: 0 <= k < |Front(more)| ==> Front(more)[k] == more[k];
      BlockedByLastEnd(events, Front(more));
      GroupTheorems.FoldOfLast(all);
    }
  }

  /** A step whose run is stopped by an invariant right after it was handed out. */
  const STOPPED := Workflow("a", [StepDecl("a", Agentic, "b", map[], [], 1, 1, false, false, None),
                                  StepDecl("b", Agentic, "", map[], [], 1, 1, false, false, None)],
                            map[], map[], 2, 1)

  const STOPPED_RUN := [RunStart(FORMAT, "", map[]), Entry(STOPPED.steps[0], 1, "", false, 0), RunEnd("a", BLOCKED, "no", "")]

  lemma StoppedIsSound()
    ensures Sound(STOPPED) && StepById(STOPPED, "a") == Some(STOPPED.steps[0]) && !IsStep(STOPPED, "")
  {
    assert STOPPED.steps[1..][0] == STOPPED.steps[1];
    assert "a"[0] != "b"[0];
  }

  lemma StoppedRunIsLegal()
    ensures Legal(STOPPED, STOPPED_RUN)
  {
    hide Fold, Legal, CanAppend, Here, Total, LatestEntry, StepData, StepEnding, Sound, StepById, Settled, Justified;
    StoppedIsSound();
    var a := STOPPED.steps[0];
    StartAllowed(STOPPED, FORMAT, "", map[]);
    Grow(STOPPED, [], STOPPED_RUN[0]);
    var s := [STOPPED_RUN[0]];
    assert [] + [STOPPED_RUN[0]] == s;
    StartArrives(STOPPED, s);
    assert Front(s) == [];
    GroupTheorems.FoldOfLast(s);
    assert CoreOf([]).ledger.visits == map[] by { FoldOfNothing(); }
    NoVisits();
    FirstEntryAllowed(STOPPED, s, a, Cursor("a", 1, "", 0), "k");
    Grow(STOPPED, s, STOPPED_RUN[1]);
    var entered := s + [STOPPED_RUN[1]];
    FreshlyEntered(STOPPED, s, entered, a);
    EnteredIsAt(STOPPED, entered, a);
    FailureMayLeave(STOPPED, entered, a);
    StopAllowed(entered, a);
    Grow(STOPPED, entered, STOPPED_RUN[2]);
    assert entered + [STOPPED_RUN[2]] == STOPPED_RUN;
  }

  lemma StopAllowed(events: seq<Event>, step: StepDecl)
    requires At(STOPPED, events, step) && step.id == "a" && Settled(STOPPED, Fold(events), "a") && |events| > 0
    ensures CanAppend(STOPPED, events, STOPPED_RUN[2])
  {
    hide Fold, Here, Settled;
    StoppedIsSound();
  }

  /** The answer to the dispatch is what the blocked run still waits for, so it is taken;
      its writes, verdict, exit and all that follows are journaled, and yet the run is
      found blocked at `a`, and is resumed there, unless another end was journaled that
      does not block it or blocks it elsewhere. */
  lemma AnswerToBlockedRunIsForgotten(more: seq<Event>)
    requires WithoutResume(more)
    ensures Legal(STOPPED, STOPPED_RUN) && Blocked(CoreOf(STOPPED_RUN))
    ensures Expects(STOPPED, STOPPED_RUN, "a", 1, None)
    ensures var c := CoreOf(STOPPED_RUN + more);
            Blocked(c) && ResumeEvent(c).step == "a" <==>
              LastEnd(more).None? || (LastEnd(more).value.status == BLOCKED && LastEnd(more).value.step == "a")
  {
    hide Legal, CanAppend, Fold, StepItems, StepBranches, StepData;
    StoppedIsSound();
    StoppedRunIsLegal();
    assert Front(STOPPED_RUN) == STOPPED_RUN[..2] && Front(STOPPED_RUN[..2]) == STOPPED_RUN[..1];
    assert Front(STOPPED_RUN[..1]) == [];
    GroupTheorems.FoldOfLast(STOPPED_RUN);
    GroupTheorems.FoldOfLast(STOPPED_RUN[..2]);
    GroupTheorems.FoldOfLast(STOPPED_RUN[..1]);
    FoldOfNothing();
    BlockedByLastEnd(STOPPED_RUN, more);
  }
}
