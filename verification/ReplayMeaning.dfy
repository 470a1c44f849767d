/**
  What a replayed state says, read off the journal (internal/journal/replay.go): each
  field is decided by the latest event of its kind, and the counters by which entries
  and exits the journal has. Where nothing is said of the journal, it may be any.
 */
module ReplayMeaning {
  import opened Wrappers
  import opened JsonValues
  import opened Journal
  import opened Workflows
  import opened Protocol
  import RunTheorems
  import GroupTheorems
  import LastVisit

  // ---- the latest event of a kind ---------------------------------------------------------

  /** What an event may be about. */
  datatype Topic =
    | Starting                     // the start of the run
    | Arguing(key: string)         // the start of the run, giving an argument
    | Setting(key: string)         // writes of a step or a branch, to a key of the state
    | Judging                      // a verdict of the run itself
    | Trying                       // an entry or a RESUME that spends no hard retry
    | Listing(id: string)          // the entry of a foreach step that freezes its list
    | Beginning(id: string)        // an entry or a RESUME of one step
    | Passing(id: string)          // the same, or a verdict of the step's own
    | Placing                      // an entry or a RESUME of any step
    | Moving                       // the same, or an exit
    | Leaving                      // an exit
    | Flying                       // an entry, an exit, or an intervention
    | Closing                      // the end of the run, or a RESUME
    | Stopping                     // the end of the run
    | Blocking                     // the end of the run, blocked
    | Branching(group: string, branch: string)     // a branch's entry or transition
    | Reporting(branch: string)                    // a branch's transition, in any group
    | Iterating(ref: ItemRef)                      // an item's entry, or a new list
    | Counting(ref: ItemRef, key: string)          // a new list, a fresh try, or an entry under the key

  predicate Begins(e: Event) {
    IsEntry(e) || e.Resume?
  }

  predicate About(e: Event, t: Topic) {
    match t
    case Starting => e.RunStart?
    case Arguing(key) => e.RunStart? && key in e.args
    case Setting(key) => e.Writes? && !IsItemEvent(e) && key in e.writes
    case Judging => e.Postcondition? && e.group == ""
    case Trying => Begins(e) && e.hardRetry == 0
    case Listing(id) => IsSnapshot(e) && e.step == id
    case Beginning(id) => Begins(e) && e.step == id
    case Passing(id) => (Begins(e) || (e.Postcondition? && e.group == "" && !e.summary)) && e.step == id
    case Placing => Begins(e)
    case Moving => Begins(e) || IsExit(e)
    case Leaving => IsExit(e)
    case Flying => IsEntry(e) || IsExit(e) || (e.Resume? && e.intervention)
    case Closing => e.RunEnd? || e.Resume?
    case Stopping => e.RunEnd?
    case Blocking => e.RunEnd? && e.status == BLOCKED
    case Branching(group, branch) => (e.StepEnter? || e.Transition?) && IsBranchEvent(e) && e.group == group && e.step == branch
    case Reporting(branch) => e.Transition? && IsBranchEvent(e) && e.step == branch
    case Iterating(ref) => IsList(e, ref) || IsTry(e, ref)
    case Counting(ref, key) => IsList(e, ref) || (IsTry(e, ref) && (IsFreshEntry(e) || e.key == key))
  }

  predicate IsList(e: Event, ref: ItemRef) {
    IsSnapshot(e) && e.step == ref.group
  }

  predicate IsTry(e: Event, ref: ItemRef) {
    e.StepEnter? && IsItemEvent(e) && RefOf(e) == ref
  }

  function Latest(events: seq<Event>, t: Topic): (e: Option<Event>)
    ensures e.Some? ==> About(e.value, t)
  {
    if |events| == 0 then None
    else if About(Last(events), t) then Some(Last(events))
    else Latest(Front(events), t)
  }

  /** Found if and only if no later event is about the same. */
  lemma {:induction false} LatestIsLast(events: seq<Event>, t: Topic, k: nat)
    requires k < |events| && About(events[k], t) && forall j :: k < j < |events| ==> !About(events[j], t)
    ensures Latest(events, t) == Some(events[k])
  {
    if k < |events| - 1 {
      LatestIsLast(Front(events), t, k);
    }
  }

  lemma {:induction false} NoneIsLatest(events: seq<Event>, t: Topic)
    ensures Latest(events, t).None? <==> forall k :: 0 <= k < |events| ==> !About(events[k], t)
  {
    if |events| > 0 {
      NoneIsLatest(Front(events), t);
      assert forall k :: 0 <= k < |events| - 1 ==> Front(events)[k] == events[k];
    }
  }

  /** The journal before the latest event about something. */
  function Before(events: seq<Event>, t: Topic): seq<Event> {
    if |events| == 0 then []
    else if About(Last(events), t) then Front(events)
    else Before(Front(events), t)
  }


  // ---- what steps have written and reported -----------------------------------------------

  /** The arguments are those of the start, and a key of the state holds what was written
      to it last by a step or a branch, and never what an item wrote. */
  lemma {:induction false} ValuesAreLatest(events: seq<Event>, key: string)
    ensures var d, arg, write := CoreOf(events).data, Latest(events, Arguing(key)), Latest(events, Setting(key));
            && (key in d.args <==> arg.Some?) && (arg.Some? ==> d.args[key] == arg.value.args[key])
            && (key in d.state <==> write.Some?) && (write.Some? ==> d.state[key] == write.value.writes[key])
  {
    hide StepLedger, StepPlace, StepEnding, StepItems, StepBranches;
    if |events| > 0 {
      ValuesAreLatest(Front(events), key);
    }
  }

  /** So a step reads an argument, else what was written last, else the declared default. */
  lemma ReadsLatest(w: Workflow, events: seq<Event>, key: string)
    ensures var arg, write := Latest(events, Arguing(key)), Latest(events, Setting(key));
            RawValue(w, CoreOf(events), key)
              == if arg.Some? then arg.value.args[key]
                 else if write.Some? then write.value.writes[key]
                 else if key in w.defaults then w.defaults[key]
                 else Null
  {
    hide Fold;
    ValuesAreLatest(events, key);
  }

  /** The last error is the text of the latest verdict of the run itself, if that failed. */
  function ErrorIn(events: seq<Event>): string {
    var verdict := Latest(events, Judging);
    if verdict.Some? && !verdict.value.ok then verdict.value.text else ""
  }

  /** An attempt is told the last error as it was when the attempt began: its hard retries
      see the same. */
  lemma {:induction false} ErrorsAreLatest(events: seq<Event>)
    ensures var d := CoreOf(events).data;
            d.lastError == ErrorIn(events) && d.attemptLastError == ErrorIn(Before(events, Trying))
  {
    hide StepLedger, StepPlace, StepEnding, StepItems, StepBranches;
    if |events| > 0 {
      ErrorsAreLatest(Front(events));
    }
  }

  /** The list of a foreach step is the one its latest entry with a list froze. */
  lemma {:induction false} ListsAreLatest(events: seq<Event>, id: string)
    ensures var d, list, start := CoreOf(events).data, Latest(events, Listing(id)), Latest(events, Starting);
            && (id in d.foreachItems <==> list.Some?) && (list.Some? ==> d.foreachItems[id] == list.value.items.value)
            && d.enforcement == if start.Some? then start.value.enforcement else ""
  {
    hide StepLedger, StepPlace, StepEnding, StepItems, StepBranches;
    if |events| > 0 {
      ListsAreLatest(Front(events), id);
    }
  }

  // ---- budgets ------------------------------------------------------------------------------

  /** The key of a step's latest entry or RESUME. */
  function LatestKey(events: seq<Event>, id: string): string {
    var begun := Latest(events, Beginning(id));
    if begun.Some? then begun.value.key else ""
  }

  /** The step has passed: the latest of its entries, RESUMEs and verdicts is no failure. */
  predicate HasPassed(events: seq<Event>, id: string) {
    var latest := Latest(events, Passing(id));
    latest.Some? && (latest.value.Postcondition? ==> latest.value.ok)
  }

  lemma {:induction false} KeysAndVerdicts(events: seq<Event>, id: string)
    ensures var l, begun, latest := CoreOf(events).ledger, Latest(events, Beginning(id)), Latest(events, Passing(id));
            && (id in l.lastKey <==> begun.Some?) && Lookup(l.lastKey, id, "") == LatestKey(events, id)
            && (id in l.lastOk <==> latest.Some?) && Lookup(l.lastOk, id, false) == HasPassed(events, id)
  {
    hide StepData, StepPlace, StepEnding, StepItems, StepBranches;
    if |events| > 0 {
      KeysAndVerdicts(Front(events), id);
    }
  }

  /** The step leaves, having passed and not by a catch edge, and its latest key is this. */
  predicate Clears(before: seq<Event>, e: Event, ref: AttemptRef) {
    IsExit(e) && !e.viaCatch && e.step == ref.step && HasPassed(before, ref.step) && LatestKey(before, ref.step) == ref.key
  }

  /** A budget is the attempt of the step's latest entry or RESUME under that key, unless a
      passing exit has cleared it since. */
  function BudgetIn(events: seq<Event>, ref: AttemptRef): Option<int> {
    if |events| == 0 then None
    else
      var e := Last(events);
      if Begins(e) && e.step == ref.step && e.key == ref.key then Some(e.attempt)
      else if Clears(Front(events), e, ref) then None
      else BudgetIn(Front(events), ref)
  }

  lemma {:induction false} BudgetsAreOfTheJournal(events: seq<Event>, ref: AttemptRef)
    ensures var l, budget := CoreOf(events).ledger, BudgetIn(events, ref);
            (ref in l.attempts <==> budget.Some?) && (budget.Some? ==> l.attempts[ref] == budget.value)
  {
    hide StepData, StepPlace, StepEnding, StepItems, StepBranches, Latest;
    if |events| > 0 {
      BudgetsAreOfTheJournal(Front(events), ref);
      KeysAndVerdicts(Front(events), ref.step);
    }
  }

  /** An exit by a non-catch edge of a step that has passed clears the budget under the key
      of the step's latest entry or RESUME, and that budget only; no other exit clears any. */
  lemma ExitClearsBudget(events: seq<Event>, e: Event)
    requires IsExit(e)
    ensures var before, after := CoreOf(events).ledger.attempts, CoreOf(events + [e]).ledger.attempts;
            if !e.viaCatch && HasPassed(events, e.step) then
              var spent := AttemptRef(e.step, LatestKey(events, e.step));
              && spent !in after
              && (forall ref :: ref != spent ==> (ref in after <==> ref in before))
              && (forall ref :: ref in after ==> after[ref] == before[ref])
            else after == before
  {
    hide StepData, StepPlace, StepEnding, StepItems, StepBranches, Latest;
    assert Front(events + [e]) == events;
    KeysAndVerdicts(events, e.step);
  }

  // ---- visits ---------------------------------------------------------------------------------

  /** An entry that begins a visit: it is no further try, and not the re-entry that a crash
      RESUME of the step in flight asked for. */
  predicate BeginsVisit(before: seq<Event>, e: Event) {
    IsEntry(e) && !e.retry && e.hardRetry == 0 && !LastVisit.ReentryIsDue(before, e.step)
  }

  function VisitsOf(events: seq<Event>, id: string): nat {
    if |events| == 0 then 0
    else
      VisitsOf(Front(events), id)
      + if BeginsVisit(Front(events), Last(events)) && Last(events).step == id then 1 else 0
  }

  function AllVisits(events: seq<Event>): nat {
    if |events| == 0 then 0
    else AllVisits(Front(events)) + if BeginsVisit(Front(events), Last(events)) then 1 else 0
  }

  /** The counters count exactly those entries. */
  lemma {:induction false} VisitsAreCounted(w: Workflow, events: seq<Event>, id: string)
    requires Legal(w, events) && !IsStep(w, "")
    ensures Lookup(CoreOf(events).ledger.visits, id, 0) == VisitsOf(events, id)
    ensures Total(CoreOf(events).ledger.visits) == AllVisits(events)
  {
    hide StepData, StepPlace, StepLedger, StepEnding, StepItems, StepBranches, Legal, CanAppend, MayEnter, StepById,
         LastVisit.ReentryIsDue;
    if |events| > 0 {
      var front, e := Front(events), Last(events);
      var c := CoreOf(front);
      LegalSplit(w, events);
      VisitsAreCounted(w, front, id);
      RunTheorems.VisitsStep(c.ledger, c.place, e);
      if IsEntry(e) {
        EntryIsOfAStep(w, front, e);
        LastVisit.MarksOfFlight(w, front, e.step);
        TotalOfUpdate(c.ledger.visits, e.step, Lookup(c.ledger.visits, e.step, 0) + 1);
      }
    }
  }

  lemma EntryIsOfAStep(w: Workflow, events: seq<Event>, e: Event)
    requires IsEntry(e) && CanAppend(w, events, e) && !IsStep(w, "")
    ensures IsStep(w, e.step) && e.step != ""
  {
    hide Fold, StepById, Here, CapsReached, LatestEntry, ListToFreeze;
  }

  /** In every legal journal, no step has begun more visits than its max_visits, and all
      together no more than max_steps, counted by their entries. */
  lemma VisitsAreCapped(w: Workflow, events: seq<Event>, id: string)
    requires Legal(w, events) && !IsStep(w, "")
    ensures VisitsOf(events, id) > 0 ==> IsStep(w, id) && VisitsOf(events, id) <= StepById(w, id).value.maxVisits
    ensures AllVisits(events) > 0 ==> AllVisits(events) <= w.maxSteps
  {
    hide Fold, Legal, StepById;
    VisitsAreCounted(w, events, id);
    RunTheorems.CapsHold(w, events);
  }

  // ---- where the run is ------------------------------------------------------------------------

  /** The run is where its latest entry or RESUME, or its latest exit, put it. */
  lemma {:induction false} PlaceIsLatest(events: seq<Event>)
    ensures var p, begun, moved := CoreOf(events).place, Latest(events, Placing), Latest(events, Moving);
            && (p.haveEnter <==> begun.Some?)
            && p.lastEnter == (if begun.Some? then EnteredAs(begun.value) else NO_CURSOR)
            && (p.transitioned <==> moved.Some? && IsExit(moved.value))
            && p.lastTarget == (var left := Latest(events, Leaving); if left.Some? then left.value.target else "")
  {
    hide StepData, StepLedger, StepEnding, StepItems, StepBranches;
    if |events| > 0 {
      PlaceIsLatest(Front(events));
    }
  }

  /** A step is in flight from its entry to its exit or an intervention, and an intervention
      is pending until the next entry or exit. */
  lemma {:induction false} FlightIsLatest(events: seq<Event>)
    ensures var p, flown := CoreOf(events).place, Latest(events, Flying);
            && (p.inFlight <==> flown.Some? && IsEntry(flown.value))
            && (p.pendingIntervention <==> flown.Some? && flown.value.Resume?)
  {
    hide StepData, StepLedger, StepEnding, StepItems, StepBranches;
    if |events| > 0 {
      FlightIsLatest(Front(events));
    }
  }

  lemma {:induction false} MovesAreLatest(events: seq<Event>)
    ensures var moved, begun, left := Latest(events, Moving), Latest(events, Placing), Latest(events, Leaving);
            && (moved.None? <==> begun.None? && left.None?)
            && (moved.Some? ==> moved == if IsExit(moved.value) then left else begun)
  {
    if |events| > 0 {
      MovesAreLatest(Front(events));
    }
  }

  /** The journal's latest end has not been resumed. */
  predicate IsClosed(events: seq<Event>) {
    var end := Latest(events, Closing);
    end.Some? && end.value.RunEnd?
  }

  predicate IsBlockedAtEnd(events: seq<Event>) {
    IsClosed(events) && Latest(events, Closing).value.status == BLOCKED
  }

  /** The run is over or blocked exactly then, with the status of that end; reason and note
      are those of the latest end, resumed or not. */
  lemma {:induction false} EndIsLatest(w: Workflow, events: seq<Event>)
    requires Legal(w, events)
    ensures var n, last := CoreOf(events).ending, Latest(events, Stopping);
            && (n.ended <==> IsClosed(events))
            && n.status == (if IsClosed(events) then Latest(events, Closing).value.status else "")
            && (IsClosed(events) ==> last == Latest(events, Closing))
            && n.reason == (if last.Some? then last.value.reason else "")
            && n.note == (if last.Some? then last.value.note else "")
  {
    hide StepData, StepLedger, StepPlace, StepItems, StepBranches, Legal, CanAppend, StepById, MayEnd;
    if |events| > 0 {
      LegalSplit(w, events);
      EndIsLatest(w, Front(events));
      RuleOf(w, Front(events), Last(events));
    }
  }

  /** What blocked the run last, and where, which is a step. */
  lemma {:induction false} BlockIsLatest(w: Workflow, events: seq<Event>)
    requires Legal(w, events)
    ensures var n, block := CoreOf(events).ending, Latest(events, Blocking);
            && n.blockedReason == (if block.Some? then block.value.reason else "")
            && (block.Some? ==> IsStep(w, block.value.step) && (block.value.step != "" ==> n.blockedStep == block.value.step))
            && (IsBlockedAtEnd(events) ==> block == Latest(events, Closing))
  {
    hide StepData, StepLedger, StepPlace, StepItems, StepBranches, Legal, CanAppend, StepById, MayEnd;
    if |events| > 0 {
      LegalSplit(w, events);
      BlockIsLatest(w, Front(events));
      RuleOf(w, Front(events), Last(events));
      if Last(events).RunEnd? {
        RunTheorems.EndIsOfAStep(w, Front(events), Last(events));
      }
    }
  }

  /** Where a resumed run continues. Blocked, at the step of its end, under that step's
      latest key and budget. Otherwise where it was left: at the target of the latest exit,
      for its first attempt, or at the very try of the latest entry or RESUME. */
  lemma ResumesWhereItWas(w: Workflow, events: seq<Event>)
    requires Legal(w, events) && !IsStep(w, "")
    ensures var moved, cursor := Latest(events, Moving), CursorOf(CoreOf(events));
            if IsBlockedAtEnd(events) then
              var id := Latest(events, Closing).value.step;
              var key := LatestKey(events, id);
              var budget := BudgetIn(events, AttemptRef(id, key));
              cursor == Cursor(id, if budget.Some? then budget.value else 0, key, 0)
            else if moved.None? then cursor == Cursor("", 0, "", 0)
            else if IsExit(moved.value) then cursor == Cursor(moved.value.target, 1, "", 0)
            else cursor == EnteredAs(moved.value)
  {
    hide Fold, Legal, Latest, BudgetIn, StepById;
    EndIsLatest(w, events);
    BlockIsLatest(w, events);
    PlaceIsLatest(events);
    MovesAreLatest(events);
    if IsBlockedAtEnd(events) {
      var id := Latest(events, Closing).value.step;
      assert id != "";
      KeysAndVerdicts(events, id);
      BudgetsAreOfTheJournal(events, AttemptRef(id, LatestKey(events, id)));
    }
  }

  /** A visit that begins where an exit led starts at attempt 1 under no key, and where the
      step declares a key, at the attempt after the budget under the key rendered. */
  lemma VisitStartsAt(w: Workflow, events: seq<Event>, e: Event)
    requires Legal(w, events) && |events| > 0 && IsExit(Last(events)) && IsEntry(e) && CanAppend(w, events, e)
    ensures e.step == Last(events).target && IsStep(w, e.step) && !e.retry && e.hardRetry == 0
    ensures if StepById(w, e.step).value.keyed then
              var budget := BudgetIn(events, AttemptRef(e.step, e.key));
              e.key != "" && e.attempt == 1 + if budget.Some? then budget.value else 0
            else e.key == "" && e.attempt == 1
  {
    hide StepData, StepLedger, StepItems, StepBranches, Legal, StepById, CapsReached, LatestEntry, BudgetIn, ListToFreeze;
    GroupTheorems.FoldOfLast(events);
    RuleOf(w, events, e);
    BudgetsAreOfTheJournal(events, AttemptRef(e.step, e.key));
  }

  // ---- groups ------------------------------------------------------------------------------------

  /** A branch is awaited exactly from its entry to its transition, and its outcome is that
      of its latest transition, in any group. */
  lemma {:induction false} BranchesAreLatest(events: seq<Event>, group: string, branch: string)
    ensures var b, latest := Fold(events).branches, Latest(events, Branching(group, branch));
            BranchRef(group, branch) in b.pending <==> latest.Some? && latest.value.StepEnter?
    ensures var b, report := Fold(events).branches, Latest(events, Reporting(branch));
            (branch in b.outcome <==> report.Some?) && (report.Some? ==> b.outcome[branch] == report.value.outcome)
  {
    hide StepCore, StepItems;
    if |events| > 0 {
      BranchesAreLatest(Front(events), group, branch);
    }
  }

  /** An item is at the attempt and key of its latest entry under the current list. */
  lemma {:induction false} ItemTriesAreLatest(events: seq<Event>, ref: ItemRef)
    ensures var i, latest := Fold(events).items, Latest(events, Iterating(ref));
            if latest.Some? && IsTry(latest.value, ref) then
              ref in i.attempt && i.attempt[ref] == latest.value.attempt
              && ref in i.attemptKey && i.attemptKey[ref] == latest.value.key
            else ref !in i.attempt && ref !in i.attemptKey && ref !in i.keyAttempts
  {
    hide StepCore, StepBranches;
    if |events| > 0 {
      ItemTriesAreLatest(Front(events), ref);
    }
  }

  /** And it has a budget under a key if it was entered under it under the current list,
      and not begun afresh under another key since. */
  lemma {:induction false} ItemBudgetsAreLatest(events: seq<Event>, ref: ItemRef, key: string)
    ensures var budgets, latest := Lookup(Fold(events).items.keyAttempts, ref, map[]), Latest(events, Counting(ref, key));
            && (key in budgets <==> latest.Some? && IsTry(latest.value, ref) && latest.value.key == key)
            && (key in budgets ==> budgets[key] == latest.value.attempt)
  {
    hide StepCore, StepBranches;
    if |events| > 0 {
      ItemBudgetsAreLatest(Front(events), ref, key);
    }
  }
}
