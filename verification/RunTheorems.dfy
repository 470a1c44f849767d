/**
  What holds of every journal the engine can write: visit and step caps,
  attempt budgets, and what a crash or an intervention changes.
 */
module RunTheorems {
  import opened Wrappers
  import opened JsonValues
  import opened Journal
  import opened Workflows
  import opened Protocol

  // ---- caps -----------------------------------------------------------------------

  ghost predicate WithinCaps(w: Workflow, c: Core) {
    && (forall id :: id in c.ledger.visits ==> IsStep(w, id) && c.ledger.visits[id] <= StepById(w, id).value.maxVisits)
    && (c.ledger.visits == map[] || Total(c.ledger.visits) <= w.maxSteps)
  }

  /** Only an entry that the cap check let through is counted. */
  lemma CountedIsUncapped(w: Workflow, events: seq<Event>, e: Event)
    requires IsEntry(e) && MayEnter(w, events, e) && CountsAsVisit(CoreOf(events).place, e)
    ensures IsStep(w, e.step)
    ensures Lookup(CoreOf(events).ledger.visits, e.step, 0) < StepById(w, e.step).value.maxVisits
    ensures Total(CoreOf(events).ledger.visits) < w.maxSteps
  {
    hide Fold, BeginAttempt, StepById, LatestEntry, Here, Total;
  }

  lemma VisitsStep(l: Ledger, p: Place, e: Event)
    ensures StepLedger(l, p, e).visits ==
            if CountsAsVisit(p, e) then l.visits[e.step := Lookup(l.visits, e.step, 0) + 1] else l.visits
  {}

  /** In every legal journal no step is visited more often than its max_visits
      and all steps together no more often than max_steps. */
  lemma {:induction false} CapsHold(w: Workflow, events: seq<Event>)
    requires Legal(w, events)
    ensures WithinCaps(w, CoreOf(events))
  {
    hide StepData, StepPlace, StepLedger, StepEnding, StepItems, StepBranches, Legal, CanAppend, MayEnter, StepById;
    if |events| > 0 {
      LegalSplit(w, events);
      CapsHold(w, Front(events));
      var c, e := CoreOf(Front(events)), Last(events);
      VisitsStep(c.ledger, c.place, e);
      if CountsAsVisit(c.place, e) {
        RuleOf(w, Front(events), e);
        CountedIsUncapped(w, Front(events), e);
        TotalOfUpdate(c.ledger.visits, e.step, Lookup(c.ledger.visits, e.step, 0) + 1);
      }
    }
  }

  // ---- one visit --------------------------------------------------------------------

  /** Nothing between two positions leaves, resumes or ends the visit. */
  predicate Uninterrupted(events: seq<Event>, i: nat, j: nat)
    requires j <= |events|
  {
    forall k :: i < k < j ==> !events[k].Resume? && !events[k].RunEnd? && !events[k].RunStart?
                              && !(events[k].Transition? && events[k].group == "")
  }

  predicate LaterTry(before: Event, after: Event)
    requires before.StepEnter? && after.StepEnter?
  {
    before.attempt < after.attempt || (before.attempt == after.attempt && before.hardRetry < after.hardRetry)
  }

  /** The entry the core of a prefix remembers, when it is the latest event of
      its kind. */
  lemma {:induction false} LastEnterIsLatest(events: seq<Event>, i: nat, j: nat)
    requires i < j <= |events| && IsEntry(events[i]) && Uninterrupted(events, i, j)
    requires forall k :: i < k < j ==> !IsEntry(events[k])
    ensures var c, e := CoreOf(events[..j]), events[i];
            c.place.haveEnter && !c.place.transitioned && c.place.inFlight
            && c.place.lastEnter == Cursor(e.step, e.attempt, e.key, e.hardRetry)
            && (!c.ending.ended ==> CursorOf(c) == c.place.lastEnter)
    ensures CoreOf(events[..j]).ending.ended == CoreOf(events[..i]).ending.ended
    decreases j
  {
    hide StepData, StepLedger, StepItems, StepBranches;
    FoldSnoc(INIT, events, j - 1);
    if i < j - 1 {
      LastEnterIsLatest(events, i, j - 1);
    }
  }

  lemma {:induction false} AppendedWasAllowed(w: Workflow, events: seq<Event>, i: nat)
    requires Legal(w, events) && i < |events|
    ensures CanAppend(w, events[..i], events[i])
    decreases |events|
  {
    if i < |events| - 1 {
      AppendedWasAllowed(w, Front(events), i);
      assert Front(events)[..i] == events[..i];
    }
  }

  /** What a legal journal that ends in an exit was before it. */
  lemma LegalEnds(w: Workflow, events: seq<Event>)
    requires |events| > 0 && Legal(w, events) && IsExit(Last(events))
    ensures Legal(w, Front(events)) && Running(Front(events)) && MayLeave(w, Front(events), Last(events))
  {
    hide Fold;
    LegalSplit(w, events);
    RuleOf(w, Front(events), Last(events));
  }

  /** Two successive entries within one visit are of the same step, and the
      second is a later try: the attempt grows, or the attempt stands and the
      hard-retry count grows. */
  lemma NextEntryIsLater(w: Workflow, events: seq<Event>, i: nat, j: nat)
    requires Legal(w, events) && i < j < |events|
    requires IsEntry(events[i]) && IsEntry(events[j]) && Uninterrupted(events, i, j)
    requires forall k :: i < k < j ==> !IsEntry(events[k])
    ensures events[j].step == events[i].step && LaterTry(events[i], events[j])
    ensures events[j].hardRetry >= 0
    ensures events[j].hardRetry > 0 ==>
              StepById(w, events[j].step).Some? && StepById(w, events[j].step).value.retryMax.Some?
              && events[j].hardRetry < StepById(w, events[j].step).value.retryMax.value
    ensures events[j].attempt > events[i].attempt ==>
              StepById(w, events[j].step).Some? && events[j].attempt <= StepById(w, events[j].step).value.attempts
  {
    hide StepData, StepLedger, StepPlace, StepEnding, StepItems, StepBranches, Legal;
    LastEnterIsLatest(events, i, j);
    AppendedWasAllowed(w, events, j);
    assert Last(events[..j]) == events[j - 1];
  }

  /** A step is in flight at a try of its own, counted from 1 and within its retry block;
      elsewhere no hard retry is spent. */
  ghost predicate TryIsSane(w: Workflow, c: Core) {
    var p := c.place;
    && (p.haveEnter ==>
          p.lastEnter.attempt >= 0 && p.lastEnter.hardRetry >= 0
          && (!p.transitioned && p.lastEnter.hardRetry > 0 ==> p.inFlight))
    && (p.inFlight ==>
          p.haveEnter && !p.transitioned && IsStep(w, p.lastEnter.step) && p.lastEnter.attempt >= 1
          && var step := StepById(w, p.lastEnter.step).value;
             p.lastEnter.hardRetry < TriesOf(step) && (p.lastEnter.hardRetry > 0 ==> step.kind.Deterministic?))
    && (forall ref :: ref in c.ledger.attempts ==> c.ledger.attempts[ref] >= 0)
  }

  lemma EntryIsSane(w: Workflow, events: seq<Event>, e: Event)
    requires Running(events) && IsEntry(e) && MayEnter(w, events, e) && TryIsSane(w, CoreOf(events))
    ensures e.attempt >= 1 && IsStep(w, e.step) && 0 <= e.hardRetry < TriesOf(StepById(w, e.step).value)
    ensures e.hardRetry > 0 ==> StepById(w, e.step).value.kind.Deterministic?
  {
    hide Fold, StepById, LatestEntry, CapsReached, ListToFreeze;
  }

  lemma {:induction false} TriesAreSane(w: Workflow, events: seq<Event>)
    requires Legal(w, events)
    ensures TryIsSane(w, CoreOf(events))
  {
    hide StepData, StepEnding, StepItems, StepBranches, Legal, CanAppend, MayEnter, StepById;
    if |events| > 0 {
      LegalSplit(w, events);
      TriesAreSane(w, Front(events));
      RuleOf(w, Front(events), Last(events));
      BudgetMatches(Front(events));
      if IsEntry(Last(events)) {
        EntryIsSane(w, Front(events), Last(events));
      }
    }
  }

  /** Every entry is of a step, at an attempt counted from 1 and within its retry block. */
  lemma EntriesAreSane(w: Workflow, events: seq<Event>, i: nat)
    requires Legal(w, events) && i < |events| && IsEntry(events[i])
    ensures events[i].attempt >= 1 && IsStep(w, events[i].step)
    ensures 0 <= events[i].hardRetry < TriesOf(StepById(w, events[i].step).value)
  {
    hide Legal, CanAppend, MayEnter, StepById, Fold;
    AppendedWasAllowed(w, events, i);
    RuleOf(w, events[..i], events[i]);
    PrefixIsLegal(w, events, i);
    TriesAreSane(w, events[..i]);
    EntryIsSane(w, events[..i], events[i]);
  }

  /** Tries are ordered by attempt, then by hard retry. */
  function TryRank(e: Event, tries: int): int
    requires e.StepEnter?
  {
    e.attempt * tries + e.hardRetry
  }

  function EntriesBetween(events: seq<Event>, i: nat, j: nat): (n: nat)
    requires i <= j <= |events|
    ensures n <= j - i
  {
    if i == j then 0 else EntriesBetween(events, i, j - 1) + if IsEntry(events[j - 1]) then 1 else 0
  }

  function TriesOf(step: StepDecl): int {
    if step.retryMax.Some? && step.retryMax.value > 1 then step.retryMax.value else 1
  }

  function LargerOf(a: int, b: int): int {
    if a > b then a else b
  }

  lemma RankGrows(before: Event, after: Event, tries: int)
    requires before.StepEnter? && after.StepEnter? && LaterTry(before, after)
    requires tries >= 1 && before.hardRetry < tries && after.hardRetry >= 0
    ensures TryRank(before, tries) < TryRank(after, tries)
  {
    if before.attempt < after.attempt {
      assert (before.attempt + 1) * tries <= after.attempt * tries;
    }
  }

  /** The entries of one visit: all of one step, each rank above the last. */
  lemma {:induction false} VisitRanks(w: Workflow, events: seq<Event>, i: nat, j: nat) returns (latest: nat)
    requires Legal(w, events) && i < j <= |events| && IsEntry(events[i]) && Uninterrupted(events, i, j)
    ensures IsStep(w, events[i].step)
    ensures i <= latest < j && IsEntry(events[latest]) && events[latest].step == events[i].step
    ensures forall k :: latest < k < j ==> !IsEntry(events[k])
    ensures var step, first, e := StepById(w, events[i].step).value, events[i], events[latest];
            var tries := TriesOf(step);
            && 0 <= e.hardRetry < tries && e.attempt <= LargerOf(first.attempt, step.attempts)
            && EntriesBetween(events, i, j) - 1 <= TryRank(e, tries) - TryRank(first, tries)
    decreases j
  {
    hide CanAppend, TryRank;
    EntriesAreSane(w, events, i);
    if j == i + 1 {
      latest := i;
      assert EntriesBetween(events, i, i) == 0;
    } else {
      latest := VisitRanks(w, events, i, j - 1);
      if IsEntry(events[j - 1]) {
        NextEntryIsLater(w, events, latest, j - 1);
        RankGrows(events[latest], events[j - 1], TriesOf(StepById(w, events[i].step).value));
        latest := j - 1;
      }
    }
  }

  /** Within one uncrashed visit a step's body is entered at most
      attempts * max_attempts times (attempts left counts at least one, the
      first try running even when an earlier visit has used up its budget). */
  lemma VisitIsBounded(w: Workflow, events: seq<Event>, i: nat, j: nat)
    requires Legal(w, events) && i < j <= |events| && IsEntry(events[i]) && Uninterrupted(events, i, j)
    ensures IsStep(w, events[i].step)
    ensures var step := StepById(w, events[i].step).value;
            EntriesBetween(events, i, j)
              <= (LargerOf(events[i].attempt, step.attempts) - events[i].attempt + 1) * TriesOf(step)
                 - events[i].hardRetry
    ensures var step := StepById(w, events[i].step).value;
            step.attempts >= 1 ==> EntriesBetween(events, i, j) <= step.attempts * TriesOf(step)
  {
    hide CanAppend, Legal, TryRank;
    EntriesAreSane(w, events, i);
    var latest := VisitRanks(w, events, i, j);
    var step, first, e := StepById(w, events[i].step).value, events[i], events[latest];
    var tries, most := TriesOf(step), LargerOf(first.attempt, step.attempts);
    RankDistance(first, e, tries, most);
    if step.attempts >= 1 {
      ProductGrows(most - first.attempt + 1, step.attempts, tries);
    }
  }

  lemma RankDistance(first: Event, e: Event, tries: int, most: int)
    requires first.StepEnter? && e.StepEnter? && tries >= 1
    requires e.attempt <= most && e.hardRetry < tries
    ensures TryRank(e, tries) - TryRank(first, tries) < (most - first.attempt + 1) * tries - first.hardRetry
  {
    ProductGrows(e.attempt, most, tries);
    assert (most - first.attempt + 1) * tries == most * tries - first.attempt * tries + tries;
  }

  lemma ProductGrows(a: int, b: int, n: int)
    requires a <= b && n >= 0
    ensures a * n <= b * n
  {}

  // ---- budgets ------------------------------------------------------------------------

  function Budget(c: Core, step: string, key: string): int {
    Lookup(c.ledger.attempts, AttemptRef(step, key), 0)
  }

  /** The cursor a core remembers is recorded in its budgets. */
  ghost predicate BudgetMatchesCursor(c: Core) {
    && (c.place.haveEnter && !c.place.transitioned ==>
          var ref := AttemptRef(c.place.lastEnter.step, c.place.lastEnter.key);
          ref in c.ledger.attempts && c.ledger.attempts[ref] == c.place.lastEnter.attempt
          && Lookup(c.ledger.lastKey, c.place.lastEnter.step, "") == c.place.lastEnter.key)
    && (c.place.inFlight ==> c.place.haveEnter && !c.place.transitioned)
  }

  lemma {:induction false} BudgetMatches(events: seq<Event>)
    ensures BudgetMatchesCursor(CoreOf(events))
  {
    if |events| > 0 {
      BudgetMatches(Front(events));
    }
  }

  /** A budget under a real key is lowered only by an intervention, which
      restarts it at 1, or by a passing exit by a non-catch edge, which clears
      it; a crash RESUME and every entry keep or raise it. */
  lemma BudgetNeverDecreases(w: Workflow, events: seq<Event>, step: string, key: string)
    requires |events| > 0 && Legal(w, events) && key != ""
    ensures var before, after, e := CoreOf(Front(events)), CoreOf(events), Last(events);
            Budget(after, step, key) < Budget(before, step, key) ==>
              (e.Resume? && e.intervention && e.step == step && e.key == key && e.attempt == 1)
              || (e.Transition? && e.group == "" && !e.viaCatch && e.step == step
                  && Lookup(before.ledger.lastOk, step, false) && Lookup(before.ledger.lastKey, step, "") == key
                  && e.outcome != FAILURE && e.outcome != EXHAUSTED)
  {
    hide StepData, StepItems, StepBranches, Legal, CanAppend, MayWrite, MayJudge, MayEnd, MayAsk, MayEnterBranch,
         MayReportBranch, MayEnterItem, MayReportItem, Justified, CapsReached;
    LegalSplit(w, events);
    RuleOf(w, Front(events), Last(events));
    var front, e := Front(events), Last(events);
    var before := CoreOf(front);
    BudgetMatches(front);
    if e.Transition? && e.group == "" {
      RoutingTable(StepById(w, Here(w, front).step).value, e.outcome);
    }
  }

  // ---- crashes and interventions ----------------------------------------------------

  /** The step has been entered and not left, at this try. */
  predicate InFlightAt(c: Core, cur: Cursor) {
    !c.ending.ended && c.place.inFlight && c.place.haveEnter && !c.place.transitioned && c.place.lastEnter == cur
  }

  predicate AllResumes(events: seq<Event>) {
    forall i :: 0 <= i < |events| ==> events[i].Resume?
  }

  /** Any number of crash RESUMEs leave the counters, the state and the cursor
      alone, and mark the step as resumed in flight. */
  lemma {:induction false} ResumesKeepCounters(w: Workflow, events: seq<Event>, resumes: seq<Event>, cur: Cursor)
    requires Legal(w, events + resumes) && AllResumes(resumes) && InFlightAt(CoreOf(events), cur)
    ensures var c, d := CoreOf(events), CoreOf(events + resumes);
            && InFlightAt(d, cur)
            && d.ledger.visits == c.ledger.visits && d.ledger.attempts == c.ledger.attempts
            && d.data.state == c.data.state
            && (cur.hardRetry > 0 ==> d.data.attemptLastError == c.data.attemptLastError)
            && (|resumes| > 0 ==> d.place.resumedInFlight == cur.step)
    decreases |resumes|
  {
    hide StepItems, StepBranches, Legal, CanAppend;
    var whole := events + resumes;
    if |resumes| == 0 {
      assert whole == events;
    } else {
      var fewer := resumes[..|resumes| - 1];
      assert Front(whole) == events + fewer && Last(whole) == resumes[|resumes| - 1];
      LegalSplit(w, whole);
      RuleOf(w, Front(whole), Last(whole));
      ResumesKeepCounters(w, events, fewer, cur);
      BudgetMatches(Front(whole));
      AttemptsUnmoved(CoreOf(Front(whole)).ledger, AttemptRef(cur.step, cur.key), cur.attempt);
    }
  }

  lemma AttemptsUnmoved(l: Ledger, ref: AttemptRef, n: int)
    requires ref in l.attempts && l.attempts[ref] == n
    ensures l.attempts[ref := n] == l.attempts
  {}

  /** A crash never advances a counter. Whatever the number of crash RESUMEs, the entry
      that follows re-enters the interrupted step without counting a visit or moving its
      state, and at the same hard retry. It is the same try, under the same attempt and
      key, exactly when the step was in flight under a key or declares no attempt_key;
      otherwise its key is rendered anew and the attempt counted on under it. */
  lemma CrashKeepsCounters(w: Workflow, events: seq<Event>, resumes: seq<Event>, e: Event, cur: Cursor)
    requires Legal(w, events + resumes + [e]) && |resumes| > 0 && AllResumes(resumes) && IsEntry(e)
    requires InFlightAt(CoreOf(events), cur)
    ensures IsStep(w, cur.step) && e.step == cur.step && !e.retry && e.hardRetry == cur.hardRetry
    ensures var c, d := CoreOf(events), CoreOf(events + resumes + [e]);
            && InFlightAt(d, EnteredAs(e))
            && d.ledger.visits == c.ledger.visits && d.data.state == c.data.state
            && (cur.hardRetry > 0 ==> d.data.attemptLastError == c.data.attemptLastError)
            && (EnteredAs(e) == cur <==> cur.key != "" || !StepById(w, cur.step).value.keyed)
            && (EnteredAs(e) == cur ==> CursorOf(d) == CursorOf(c) && d.ledger.attempts == c.ledger.attempts)
            && (EnteredAs(e) != cur ==> e.key != "" && e.attempt == Budget(c, cur.step, e.key) + 1)
  {
    hide StepItems, StepBranches, Legal, CanAppend, CapsReached, LatestEntry, StepById;
    var whole := events + resumes + [e];
    assert Front(whole) == events + resumes && Last(whole) == e;
    LegalSplit(w, whole);
    RuleOf(w, Front(whole), e);
    ResumesKeepCounters(w, events, resumes, cur);
    BudgetMatches(events + resumes);
    TriesAreSane(w, events + resumes);
    assert Last(events + resumes) == resumes[|resumes| - 1];
    AttemptsUnmoved(CoreOf(events + resumes).ledger, AttemptRef(cur.step, cur.key), cur.attempt);
  }

  /** A further attempt is only ever entered from within the visit it belongs to. */
  ghost predicate RetriesFollowTries(events: seq<Event>) {
    forall k :: 0 <= k < |events| && IsEntry(events[k]) && events[k].retry ==> CoreOf(events[..k]).place.inFlight
  }

  /** Then a step with an attempt_key is only ever in flight under a key, and every crash
      re-enters the very try it interrupted. */
  lemma {:induction false} KeyedTriesHaveKeys(w: Workflow, events: seq<Event>)
    requires Legal(w, events) && RetriesFollowTries(events)
    ensures var p := CoreOf(events).place;
            p.inFlight && IsStep(w, p.lastEnter.step) && StepById(w, p.lastEnter.step).value.keyed ==>
              p.lastEnter.key != ""
  {
    hide StepData, StepEnding, StepItems, StepBranches, Legal, CanAppend, CapsReached, LatestEntry, ListToFreeze,
         StepById;
    if |events| > 0 {
      var front := Front(events);
      assert forall k :: 0 <= k < |front| ==> front[k] == events[k] && front[..k] == events[..k];
      LegalSplit(w, events);
      KeyedTriesHaveKeys(w, front);
      RuleOf(w, front, Last(events));
      BudgetMatches(front);
      assert events[|events| - 1] == Last(events) && events[..|events| - 1] == front;
    }
  }

  /** After an intervention any number of crash RESUMEs leave the step not in flight, at
      the try the intervention set. */
  lemma {:induction false} ResumesKeepIntervention(w: Workflow, events: seq<Event>, r: Event, resumes: seq<Event>)
    requires Legal(w, events + [r] + resumes) && Blocked(CoreOf(events)) && AllResumes(resumes)
    ensures r.Resume? && r.intervention && EnteredAs(r) == CursorOf(CoreOf(events)).(attempt := 1, hardRetry := 0)
    ensures var c, d := CoreOf(events), CoreOf(events + [r] + resumes);
            && !d.ending.ended && d.place.haveEnter && !d.place.transitioned && d.place.lastEnter == EnteredAs(r)
            && !d.place.inFlight && d.place.resumedInFlight == "" && d.place.pendingIntervention
            && d.ledger.visits == c.ledger.visits
    decreases |resumes|
  {
    hide StepItems, StepBranches, Legal, CanAppend;
    var whole := events + [r] + resumes;
    if |resumes| == 0 {
      assert whole == events + [r] && Front(whole) == events && Last(whole) == r;
      LegalSplit(w, whole);
      RuleOf(w, events, r);
      assert Fold([]) == INIT;
    } else {
      var fewer := resumes[..|resumes| - 1];
      assert Front(whole) == events + [r] + fewer && Last(whole) == resumes[|resumes| - 1];
      LegalSplit(w, whole);
      RuleOf(w, Front(whole), Last(whole));
      ResumesKeepIntervention(w, events, r, fewer);
    }
  }

  /** An intervention is no crash, and no crash after it makes it one: whatever RESUMEs
      follow it, the blocked step is entered at attempt 1 under the same key with no hard
      retry spent, and as a counted visit. A step with an attempt_key that was blocked
      under no key renders its key and counts on under it. */
  lemma InterventionRestarts(w: Workflow, events: seq<Event>, r: Event, resumes: seq<Event>, e: Event)
    requires Legal(w, events + [r] + resumes + [e]) && Blocked(CoreOf(events)) && AllResumes(resumes)
    requires IsEntry(e) && !IsStep(w, "")
    ensures r.Resume? && r.intervention && EnteredAs(r) == CursorOf(CoreOf(events)).(attempt := 1, hardRetry := 0)
    ensures IsStep(w, e.step) && e.step == r.step && e.hardRetry == 0 && !e.retry
    ensures if r.key == "" && StepById(w, e.step).value.keyed
            then e.key != "" && e.attempt == Budget(CoreOf(events + [r] + resumes), e.step, e.key) + 1
            else e.key == r.key && e.attempt == 1
    ensures var c, d := CoreOf(events), CoreOf(events + [r] + resumes + [e]);
            d.ledger.visits == c.ledger.visits[e.step := Lookup(c.ledger.visits, e.step, 0) + 1]
  {
    hide StepItems, StepBranches, StepEnding, Legal, CanAppend, CapsReached, LatestEntry, StepById;
    var resumed := events + [r] + resumes;
    var whole := resumed + [e];
    assert Front(whole) == resumed && Last(whole) == e;
    LegalSplit(w, whole);
    RuleOf(w, resumed, e);
    ResumesKeepIntervention(w, events, r, resumes);
    assert Last(resumed).Resume? by {
      assert Last(resumed) == if |resumes| > 0 then resumes[|resumes| - 1] else r;
    }
  }

  // ---- where a resume cannot go on --------------------------------------------------

  /** The run has been resumed at something that is not a step: before its first
      entry was journaled, or at a terminal whose RUN_END was not. */
  predicate ResumedOffTheGraph(w: Workflow, events: seq<Event>) {
    |events| > 0 && Last(events).Resume? && !IsStep(w, Last(events).step)
  }

  /** The latest thing that placed the run, an entry, an exit or an intervention, left it
      at a step. */
  predicate OnGraph(w: Workflow, events: seq<Event>) {
    |events| > 0 &&
    var e := Last(events);
    if IsEntry(e) || (e.Resume? && e.intervention) then true
    else if IsExit(e) then IsStep(w, e.target)
    else OnGraph(w, Front(events))
  }

  lemma EndIsOfAStep(w: Workflow, events: seq<Event>, e: Event)
    requires Legal(w, events) && e.RunEnd? && MayEnd(w, events, e)
    ensures IsStep(w, e.step)
  {
    hide Fold, Legal, CanAppend, Justified, StepById;
    LegalSplit(w, events);
    RuleOf(w, Front(events), Last(events));
  }

  /** Where a resume goes on: at a step exactly when the run is blocked or on the graph. */
  lemma {:induction false} CursorIsAStepIff(w: Workflow, events: seq<Event>)
    requires Legal(w, events) && !IsStep(w, "")
    ensures var c := CoreOf(events);
            && (Blocked(c) ==> IsStep(w, CursorOf(c).step))
            && (OnGraph(w, events) <==> IsStep(w, CursorOf(c.(ending := INIT.core.ending)).step))
  {
    hide StepItems, StepBranches, StepLedger, StepData, Legal, CanAppend, CapsReached, LatestEntry, StepById, Justified, MayEnd;
    if |events| > 0 {
      LegalSplit(w, events);
      CursorIsAStepIff(w, Front(events));
      RuleOf(w, Front(events), Last(events));
      if Last(events).RunEnd? {
        EndIsOfAStep(w, Front(events), Last(events));
      }
    }
  }

  /** So a RESUME takes a run off the graph if and only if the run is neither blocked nor
      on it: nothing was entered yet, or it has left for a terminal and its end was not
      journaled. */
  lemma ResumeLeavesGraphIff(w: Workflow, events: seq<Event>, r: Event)
    requires Legal(w, events) && CanAppend(w, events, r) && r.Resume? && !IsStep(w, "")
    ensures ResumedOffTheGraph(w, events + [r]) <==> !Blocked(CoreOf(events)) && !OnGraph(w, events)
  {
    hide Legal, Fold, StepById;
    CursorIsAStepIff(w, events);
    assert Last(events + [r]) == r;
  }

  lemma OnlyResumesFollow(w: Workflow, events: seq<Event>, e: Event)
    requires Legal(w, events) && ResumedOffTheGraph(w, events) && !IsStep(w, "") && CanAppend(w, events, e)
    ensures e.Resume? && !IsStep(w, e.step)
  {
    hide StepItems, StepBranches, StepLedger, StepData, Legal, CapsReached, LatestEntry, StepById, Justified, ListToFreeze;
    LegalSplit(w, events);
    RuleOf(w, Front(events), Last(events));
  }

  /** Such a run is stuck: nothing but further RESUMEs at the same place can ever
      be appended. */
  lemma {:induction false} OffTheGraphIsStuck(w: Workflow, events: seq<Event>, more: seq<Event>)
    requires Legal(w, events + more) && ResumedOffTheGraph(w, events) && !IsStep(w, "")
    ensures AllResumes(more) && ResumedOffTheGraph(w, events + more)
    decreases |more|
  {
    hide Fold, Legal, CanAppend, StepById;
    var whole := events + more;
    if |more| == 0 {
      assert whole == events;
    } else {
      var fewer := more[..|more| - 1];
      assert Front(whole) == events + fewer && Last(whole) == more[|more| - 1];
      LegalSplit(w, whole);
      OffTheGraphIsStuck(w, events, fewer);
      OnlyResumesFollow(w, Front(whole), Last(whole));
    }
  }

  /** A finished run stays finished: nothing follows a RUN_END that did not block
      the run. */
  lemma TerminalIsFinal(w: Workflow, events: seq<Event>, e: Event)
    requires Legal(w, events + [e])
    ensures !Terminal(CoreOf(events))
  {
    hide StepItems, StepBranches, StepLedger, StepData, Legal, CanAppend;
    assert Front(events + [e]) == events;
    LegalSplit(w, events + [e]);
    RuleOf(w, events, e);
  }
}
