/**
  An item answered while others still wait for their first entry: the call that was
  handing a list out was cut short by a crash, and no RESUME came before the answer
  (internal/engine/submit.go:430-444, internal/engine/foreach.go:423-490).
 */
module UnenteredItems {
  import opened Wrappers
  import opened JsonValues
  import opened Journal
  import opened Workflows
  import opened Protocol
  import opened EngineRules
  import opened SubmitRules
  import Boundaries
  import GroupTheorems

  /** A foreach step over a list of two, visited twice. */
  const PAIRED := Workflow(
    "f",
    [StepDecl("f", Foreach("xs", "b", "c", 2), "f", map[], [], 1, 2, false, false, None),
     StepDecl("b", Agentic, "", map[], [], 1, 1, false, false, None)],
    map[], map["xs" := Arr(LIST)], 2, 0)

  const LIST := [Null, Null]

  const LISTED := PAIRED.steps[0]

  const BODY := PAIRED.steps[1]

  const ONE := ItemRef("f", 0)

  const TWO := ItemRef("f", 1)

  const LIST_ENTER := StepEnter("f", 1, "", false, 0, "", None, Some(LIST))

  const AROUND := Transition("f", 1, "f", PARTIAL, false, "", None)

  lemma PairedIsSound()
    ensures Sound(PAIRED) && StepById(PAIRED, "f") == Some(LISTED) && StepById(PAIRED, "b") == Some(BODY)
    ensures ResolveTarget(LISTED, PARTIAL) == Some(Route("f", false)) && !IsStep(PAIRED, "")
    ensures OwnerIn(PAIRED.steps, "b") == Some(LISTED)
  {
    assert PAIRED.steps[1..][0] == PAIRED.steps[1];
    assert "f"[0] != "b"[0];
    assert PARTIAL[0] != FAILURE[0] && PARTIAL[0] != EXHAUSTED[0];
  }

  // ---- one event at a time --------------------------------------------------------------

  /** The list is under way, on its nth visit. */
  ghost predicate UnderWay(events: seq<Event>, visits: int) {
    Legal(PAIRED, events) && InForeach(PAIRED, events, LISTED) && Snapshot(events, "f") == LIST
    && Here(PAIRED, events).attempt == 1 && CoreOf(events).ledger.visits == map["f" := visits]
  }

  /** Nothing new is known of an item. */
  ghost predicate Untouched(before: seq<Event>, after: seq<Event>, ref: ItemRef) {
    var i, j := Fold(before).items, Fold(after).items;
    && (ref in j.pending <==> ref in i.pending) && Lookup(j.outcome, ref, "") == Lookup(i.outcome, ref, "")
    && (ref in j.outcome <==> ref in i.outcome)
    && LastItemError(after, ref) == LastItemError(before, ref)
    && GroupTheorems.TryHistory(after, ref) == GroupTheorems.TryHistory(before, ref)
  }

  lemma Begins(events: seq<Event>, visits: nat)
    requires Legal(PAIRED, events) && Arriving(PAIRED, events, "f")
    requires ListToFreeze(PAIRED, CoreOf(events), LISTED.kind) == Some(LIST)
    requires visits < 2 && CoreOf(events).ledger.visits == if visits == 0 then map[] else map["f" := visits]
    ensures var s := events + [LIST_ENTER];
            && UnderWay(s, visits + 1) && NoneTracked(Fold(s).items, "f")
            && forall ref: ItemRef :: ref.group == "f" ==>
                 GroupTheorems.TryHistory(s, ref) == [] && LastItemError(s, ref) == LastItemError(events, ref)
  {
    hide Fold, Legal, CanAppend, Here, Total, LatestEntry, Entered, StepData, StepEnding, Sound, StepById, NoneTracked,
         ListToFreeze;
    PairedIsSound();
    Boundaries.NoVisits();
    TotalOfUpdate(map[], "f", visits);
    NothingAwaitedOnArrival(PAIRED, events, LISTED);
    FirstEntryAllowed(PAIRED, events, LISTED, Cursor("f", 1, "", 0), "k");
    Boundaries.Grow(PAIRED, events, LIST_ENTER);
    var s := events + [LIST_ENTER];
    FreshlyEntered(PAIRED, events, s, LISTED);
    EnteredForeach(PAIRED, s, LISTED);
  }

  lemma OfOneItem(events: seq<Event>, ref: ItemRef)
    requires |events| > 0 && IsItemEvent(Last(events)) && RefOf(Last(events)) != ref
    ensures Untouched(Front(events), events, ref)
  {
    hide Fold, StepItems, StepCore, StepBranches, GroupTheorems.TryHistory;
    GroupTheorems.FoldOfLast(events);
    OtherStays(Fold(Front(events)).items, Last(events), ref);
    GroupTheorems.HistoryStep(events, ref);
  }

  lemma OtherStays(i: Items, e: Event, ref: ItemRef)
    requires IsItemEvent(e) && RefOf(e) != ref
    ensures var j := StepItems(i, e);
            (ref in j.pending <==> ref in i.pending) && (ref in j.outcome <==> ref in i.outcome)
            && Lookup(j.outcome, ref, "") == Lookup(i.outcome, ref, "")
  {}

  lemma Iterates(events: seq<Event>, ref: ItemRef)
    requires InForeach(PAIRED, events, LISTED) && Snapshot(events, "f") == LIST && (ref == ONE || ref == TWO)
    ensures Iterating(PAIRED, events, LISTED, BODY, ref) && Running(events)
  {
    hide Fold, Here, Snapshot;
    PairedIsSound();
  }

  lemma ItemEnters(events: seq<Event>, visits: int, ref: ItemRef, other: ItemRef)
    requires UnderWay(events, visits) && ref !in Fold(events).items.outcome && {ref, other} == {ONE, TWO}
    ensures var s := events + [ItemEntry(ref, "b", 1, "", false, 0)];
            UnderWay(s, visits) && ref in Fold(s).items.pending && ref !in Fold(s).items.outcome && Untouched(events, s, other)
            && Lookup(Fold(s).items.attempt, ref, 0) == 1
  {
    hide Fold, Legal, CanAppend, Here, Snapshot, InForeach, Iterating, Untouched;
    PairedIsSound();
    Iterates(events, ref);
    var entry := ItemEntry(ref, "b", 1, "", false, 0);
    FreshItemAllowed(PAIRED, events, LISTED, BODY, ref, "");
    Boundaries.Grow(PAIRED, events, entry);
    var s := events + [entry];
    ItemEntryDone(PAIRED, s, LISTED, BODY, ref);
    SameRunForeach(PAIRED, events, s, LISTED);
    OfOneItem(s, other);
  }

  lemma ItemFails(events: seq<Event>, visits: int, ref: ItemRef, other: ItemRef, text: string)
    requires UnderWay(events, visits) && ref in Fold(events).items.pending && {ref, other} == {ONE, TWO}
    ensures var s := events + [Judged(BODY, 1, "k", Check(false, text), InItem(ref))];
            UnderWay(s, visits) && Fold(s).items == Fold(events).items && LastItemError(s, ref) == Some(text)
            && Untouched(events, s, other)
  {
    hide Fold, Legal, CanAppend, Here, Snapshot, InForeach, Iterating, Untouched;
    PairedIsSound();
    Iterates(events, ref);
    var verdict := Judged(BODY, 1, "k", Check(false, text), InItem(ref));
    ItemReportAllowed(PAIRED, events, LISTED, BODY, ref, verdict);
    Boundaries.Grow(PAIRED, events, verdict);
    var s := events + [verdict];
    ItemVerdictDone(PAIRED, s, LISTED, BODY, ref);
    SameRunForeach(PAIRED, events, s, LISTED);
    OfOneItem(s, other);
  }

  lemma ItemEnds(events: seq<Event>, visits: int, ref: ItemRef, other: ItemRef, outcome: string)
    requires UnderWay(events, visits) && ref in Fold(events).items.pending && {ref, other} == {ONE, TWO}
    requires outcome == SUCCESS || outcome == FAILURE
    ensures var s := events + [ItemTransition(ref, "b", 1, outcome)];
            UnderWay(s, visits) && Fold(s).items.pending == Fold(events).items.pending - {ref}
            && Fold(s).items.outcome == Fold(events).items.outcome[ref := outcome]
            && LastItemError(s, ref) == LastItemError(events, ref) && Untouched(events, s, other)
  {
    hide Fold, Legal, CanAppend, Here, Snapshot, InForeach, Iterating, Untouched;
    PairedIsSound();
    Iterates(events, ref);
    var transition := ItemTransition(ref, "b", 1, outcome);
    ItemReportAllowed(PAIRED, events, LISTED, BODY, ref, transition);
    Boundaries.Grow(PAIRED, events, transition);
    var s := events + [transition];
    ItemTransitionDone(PAIRED, s, LISTED, BODY, ref);
    SameRunForeach(PAIRED, events, s, LISTED);
    OfOneItem(s, other);
  }

  /** The list as it would be joined. */
  function Collected(events: seq<Event>): Event {
    CollectEvent(LISTED, 1, JoinList(events, "f", LIST))
  }

  lemma Collects(events: seq<Event>, visits: int)
    requires UnderWay(events, visits) && MayJoin(events, "f", 2) && NoItemPending(Fold(events).items, "f")
    ensures var s := events + [Collected(events)];
            && UnderWay(s, visits) && Legal(PAIRED, s)
            && Fold(s).items == Fold(events).items && LastItemError(s, TWO) == LastItemError(events, TWO)
  {
    hide Fold, Legal, CanAppend, Here, Snapshot, JoinList, InForeach, MayJoin;
    PairedIsSound();
    InForeachCursor(PAIRED, events, LISTED);
    CollectAllowed(PAIRED, events, LISTED);
    Boundaries.Grow(PAIRED, events, Collected(events));
    var joined := events + [Collected(events)];
    CollectDone(PAIRED, joined, LISTED);
    SameRunForeach(PAIRED, events, joined, LISTED);
  }

  /** With none awaited after a report, the list is joined and the step left, in part
      successful. */
  lemma Joins(events: seq<Event>, visits: int)
    requires UnderWay(events, visits) && NoItemPending(Fold(events).items, "f") && JustResolved(events, "f")
    requires Lookup(Fold(events).items.outcome, ONE, "") == SUCCESS && Lookup(Fold(events).items.outcome, TWO, "") != SUCCESS
    ensures var s := events + [Collected(events)] + [AROUND];
            && Legal(PAIRED, s) && Arriving(PAIRED, s, "f") && CoreOf(s).ledger.visits == map["f" := visits]
            && LastItemError(s, TWO) == LastItemError(events, TWO)
  {
    hide Fold, Legal, CanAppend, Here, Snapshot, Sound, StepById, LatestEntry, Justified, Arriving, JoinList, StepCore,
         Settled, JoinOutcome;
    PairedIsSound();
    Collects(events, visits);
    var joined := events + [Collected(events)];
    OneOfTwo(Fold(joined).items);
    InForeachCursor(PAIRED, joined, LISTED);
    ForeachMayLeave(PAIRED, joined, LISTED, PARTIAL);
    Boundaries.LeaveAllowed(PAIRED, joined, LISTED, PARTIAL);
    Boundaries.Grow(PAIRED, joined, AROUND);
    Boundaries.LeaveArrives(PAIRED, joined + [AROUND]);
    assert Front(joined) == events && Front(joined + [AROUND]) == joined;
  }

  lemma OneOfTwo(i: Items)
    requires Lookup(i.outcome, ONE, "") == SUCCESS && Lookup(i.outcome, TWO, "") != SUCCESS
    ensures JoinOutcome(i, "f", 2) == PARTIAL
  {
    assert ItemRef("f", 0) == ONE && ItemRef("f", 1) == TWO;
    assert Successes(i, "f", 0) == 0 && Successes(i, "f", 1) == 1 && Successes(i, "f", 2) == 1;
  }

  // ---- the run --------------------------------------------------------------------------

  const FAILED := Judged(BODY, 1, "k", Check(false, "old"), InItem(TWO))

  const ONE_IN := ItemEntry(ONE, "b", 1, "", false, 0)

  const TWO_IN := ItemEntry(TWO, "b", 1, "", false, 0)

  const ONE_OUT := ItemTransition(ONE, "b", 1, SUCCESS)

  const TWO_OUT := ItemTransition(TWO, "b", 1, FAILURE)

  /** A whole visit: both items are entered, the second fails and the first succeeds. */
  const FIRST_VISIT := [RunStart(FORMAT, "", map[])] + [LIST_ENTER] + [ONE_IN] + [TWO_IN] + [FAILED] + [TWO_OUT] + [ONE_OUT]

  ghost const RETURNED := FIRST_VISIT + [Collected(FIRST_VISIT)] + [AROUND]

  /** The next visit, cut short when its first item had been entered, and the answer to
      that item. */
  ghost const CUT_SHORT := RETURNED + [LIST_ENTER] + [ONE_IN]

  ghost const ANSWERED := CUT_SHORT + [ONE_OUT]

  lemma BothEntered()
    ensures var s := FIRST_VISIT[..4];
            && UnderWay(s, 1) && ONE in Fold(s).items.pending && TWO in Fold(s).items.pending
            && ONE !in Fold(s).items.outcome && TWO !in Fold(s).items.outcome
  {
    hide Fold, Legal, CanAppend, UnderWay, Snapshot, Arriving, StepCore, GroupTheorems.TryHistory, LastItemError, ListToFreeze;
    var start := RunStart(FORMAT, "", map[]);
    StartAllowed(PAIRED, FORMAT, "", map[]);
    Boundaries.Grow(PAIRED, [], start);
    assert [] + [start] == [start];
    StartArrives(PAIRED, [start]);
    NothingWritten([start]);
    Begins([start], 0);
    var listed := [start] + [LIST_ENTER];
    assert ONE.group == "f" && TWO.group == "f";
    ItemEnters(listed, 1, ONE, TWO);
    ItemEnters(listed + [ONE_IN], 1, TWO, ONE);
    assert listed + [ONE_IN] + [TWO_IN] == FIRST_VISIT[..4];
  }

  lemma FirstVisit()
    ensures Legal(PAIRED, RETURNED) && Arriving(PAIRED, RETURNED, "f")
    ensures CoreOf(RETURNED).ledger.visits == map["f" := 1] && LastItemError(RETURNED, TWO) == Some("old")
  {
    hide Fold, Legal, CanAppend, UnderWay, Snapshot, JoinList, Arriving, StepCore, GroupTheorems.TryHistory, LastItemError;
    BothEntered();
    var s := FIRST_VISIT[..4];
    ItemFails(s, 1, TWO, ONE, "old");
    var failed := s + [FAILED];
    ItemEnds(failed, 1, TWO, ONE, FAILURE);
    var ended := failed + [TWO_OUT];
    ItemEnds(ended, 1, ONE, TWO, SUCCESS);
    assert ended + [ONE_OUT] == FIRST_VISIT;
    BothDone(FIRST_VISIT, 1);
    assert SUCCESS[0] != FAILURE[0];
    Joins(FIRST_VISIT, 1);
  }

  lemma BothDone(events: seq<Event>, visits: int)
    requires UnderWay(events, visits) && ONE !in Fold(events).items.pending && TWO !in Fold(events).items.pending
    ensures NoItemPending(Fold(events).items, "f")
  {
    hide Fold, Legal, Snapshot, LatestEntry, InForeach, Here;
    GroupTheorems.PendingItemsAreHere(PAIRED, events);
    forall r | r in Fold(events).items.pending
      ensures r.group != "f"
    {
      assert GroupTheorems.AwaitsItem(PAIRED, events, r);
      assert r == ItemRef(r.group, r.index);
    }
  }

  lemma NothingWritten(events: seq<Event>)
    requires events == [RunStart(FORMAT, "", map[])]
    ensures ListToFreeze(PAIRED, CoreOf(events), LISTED.kind) == Some(LIST) && CoreOf(events).ledger.visits == map[]
  {
    assert Front(events) == [] && Fold([]) == INIT;
    GroupTheorems.FoldOfLast(events);
  }

  lemma StillFrozen()
    ensures ListToFreeze(PAIRED, CoreOf(RETURNED), LISTED.kind) == Some(LIST)
  {
    hide StepLedger, StepPlace, StepEnding, StepItems, StepBranches, JoinList;
    assert forall k :: 0 <= k < |FIRST_VISIT| ==> !FIRST_VISIT[k].RunStart? || FIRST_VISIT[k].args == map[];
    NoSuchValue(RETURNED);
    assert "xs"[0] != "c"[0];
  }

  /** A value that nothing was written for and no argument gave. */
  lemma {:induction false} NoSuchValue(events: seq<Event>)
    requires forall k :: 0 <= k < |events| ==>
               (events[k].RunStart? ==> "xs" !in events[k].args) && (events[k].Writes? ==> "xs" !in events[k].writes)
    ensures "xs" !in CoreOf(events).data.args && "xs" !in CoreOf(events).data.state
  {
    hide StepLedger, StepPlace, StepEnding, StepItems, StepBranches;
    if |events| > 0 {
      assert forall k :: 0 <= k < |Front(events)| ==> Front(events)[k] == events[k];
      NoSuchValue(Front(events));
      GroupTheorems.FoldOfLast(events);
    }
  }

  lemma Answered()
    ensures Legal(PAIRED, CUT_SHORT) && Expects(PAIRED, CUT_SHORT, "b", 1, Some(0)) && !AllHandedOut(PAIRED, CUT_SHORT)
    ensures UnderWay(ANSWERED, 2) && NoItemPending(Fold(ANSWERED).items, "f") && JustResolved(ANSWERED, "f")
    ensures Lookup(Fold(ANSWERED).items.outcome, ONE, "") == SUCCESS && TWO !in Fold(ANSWERED).items.outcome
    ensures GroupTheorems.TryHistory(ANSWERED, TWO) == [] && LastItemError(ANSWERED, TWO) == Some("old")
  {
    hide Fold, Legal, CanAppend, UnderWay, Snapshot, JoinList, Arriving, StepCore, GroupTheorems.TryHistory, LastItemError,
         ListToFreeze;
    FirstVisit();
    StillFrozen();
    Begins(RETURNED, 1);
    var begun := RETURNED + [LIST_ENTER];
    ItemEnters(begun, 2, ONE, TWO);
    IsWaitedFor(CUT_SHORT, 2);
    ItemEnds(CUT_SHORT, 2, ONE, TWO, SUCCESS);
    BothDone(ANSWERED, 2);
  }

  /** The answer to the first item of the second visit is what the journal waits for. No
      other item is awaited then, so the list is joined: the second item, which was never
      entered in this visit, is listed as failed, and with the text it failed with in the
      visit before. */
  lemma UnenteredItemIsJoined()
    ensures var joined := ANSWERED + [Collected(ANSWERED)];
            && Legal(PAIRED, CUT_SHORT) && Expects(PAIRED, CUT_SHORT, "b", 1, Some(0)) && !AllHandedOut(PAIRED, CUT_SHORT)
            && Legal(PAIRED, joined + [AROUND]) && GroupTheorems.TryHistory(ANSWERED, TWO) == []
            && JoinList(ANSWERED, "f", LIST)[1] == GroupTheorems.UnenteredEntry(1, Null, Some("old"))
  {
    hide Fold, Legal, CanAppend, UnderWay, Snapshot, JoinList, Arriving, StepCore, GroupTheorems.TryHistory, LastItemError,
         ListToFreeze;
    Answered();
    Joins(ANSWERED, 2);
    SecondEntry(ANSWERED);
  }

  lemma SecondEntry(events: seq<Event>)
    requires GroupTheorems.TryHistory(events, TWO) == []
    ensures JoinList(events, "f", LIST)[1] == GroupTheorems.UnenteredEntry(1, Null, LastItemError(events, TWO))
  {
    hide JoinEntry, LastItemError, GroupTheorems.TryHistory;
    GroupTheorems.UnenteredEntryIs(events, TWO, Null);
  }

  lemma IsWaitedFor(events: seq<Event>, visits: int)
    requires UnderWay(events, visits) && ONE in Fold(events).items.pending
    requires TWO !in Fold(events).items.pending && TWO !in Fold(events).items.outcome
    requires Lookup(Fold(events).items.attempt, ONE, 0) == 1
    ensures Legal(PAIRED, events) && Expects(PAIRED, events, "b", 1, Some(0)) && !AllHandedOut(PAIRED, events)
  {
    hide Fold, Legal, Snapshot, LatestEntry, Here, InForeach;
    PairedIsSound();
    InForeachCursor(PAIRED, events, LISTED);
    ListIsSnapshot(events, "f");
    assert !HandedOut(PAIRED, events, "f") by {
      assert ItemRef("f", 1) == TWO;
    }
  }

  // ---- the list is joined again -----------------------------------------------------------

  /** A crash between that join and the exit, and the RESUME. */
  ghost const RESUMED := ANSWERED + [Collected(ANSWERED)] + [ResumeEvent(CoreOf(ANSWERED + [Collected(ANSWERED)]))]

  /** The RESUME enters the item that was left out, and it succeeds. */
  ghost const COMPLETED := RESUMED + [TWO_IN] + [ItemTransition(TWO, "b", 1, SUCCESS)]

  lemma Resumes(events: seq<Event>, visits: int)
    requires UnderWay(events, visits)
    ensures var s := events + [ResumeEvent(CoreOf(events))];
            UnderWay(s, visits) && Fold(s).items == Fold(events).items
  {
    hide Fold, Legal, CanAppend, StepCore, LatestEntry;
    PairedIsSound();
    InForeachCursor(PAIRED, events, LISTED);
    var resume := ResumeEvent(CoreOf(events));
    ResumeAllowed(PAIRED, events);
    Boundaries.Grow(PAIRED, events, resume);
    var s := events + [resume];
    ResumedPlace(PAIRED, events, s, LISTED);
    ResumedEntered(PAIRED, s, LISTED);
    Boundaries.ExitKeepsItems(s);
    Boundaries.ResumeKeepsVisits(s);
  }

  /** The first join of this visit listed the second item as failed. After the crash it is
      entered for the first time and succeeds, and the list that is joined then has it as
      a success: the first list was not written again. */
  lemma UncoveredJoinIsNotRepeated()
    ensures var collect := LISTED.kind.collect;
            && Legal(PAIRED, COMPLETED + [Collected(COMPLETED)])
            && !Covered(Fold(ANSWERED).items, "f", 2) && ANSWERED + [Collected(ANSWERED)] <= COMPLETED
            && (forall k :: |ANSWERED| < k < |COMPLETED| ==> !IsEntry(COMPLETED[k]))
            && Collected(COMPLETED).writes[collect] != Collected(ANSWERED).writes[collect]
            && Collected(COMPLETED).writes != Collected(ANSWERED).writes
  {
    hide Fold, Legal, CanAppend, UnderWay, Snapshot, JoinList, StepCore, GroupTheorems.TryHistory, LastItemError,
         AllResolved;
    Answered();
    Collects(ANSWERED, 2);
    var joined := ANSWERED + [Collected(ANSWERED)];
    Resumes(joined, 2);
    ItemEnters(RESUMED, 2, TWO, ONE);
    ItemEnds(RESUMED + [TWO_IN], 2, TWO, ONE, SUCCESS);
    BothDone(COMPLETED, 2);
    Collects(COMPLETED, 2);
    OutcomesDiffer(ANSWERED, COMPLETED);
  }

  lemma OutcomesDiffer(events: seq<Event>, others: seq<Event>)
    requires TWO !in Fold(events).items.outcome && Lookup(Fold(others).items.outcome, TWO, "") == SUCCESS
    ensures JoinList(events, "f", LIST) != JoinList(others, "f", LIST)
  {
    hide LastItemError, Fold;
    assert SUCCESS[0] != FAILURE[0];
    assert JoinList(events, "f", LIST)[1].fields["outcome"] == Str(FAILURE);
    assert JoinList(others, "f", LIST)[1].fields["outcome"] == Str(SUCCESS);
  }
}
