/**
  Interleaving independence of the replay (internal/journal/replay.go).

  Every event concerns some owners: the run itself, one branch, or one foreach
  item (a foreach step's fresh entry concerns the run and all of its items).
  Two journals in which every owner sees the same events in the same order
  replay to the same state, however the owners' events are interleaved.
 */
module Interleaving {
  import opened Wrappers
  import opened JsonValues
  import opened Journal

  datatype Owner = TheRun | OfBranch(step: string) | OfItem(ref: ItemRef)

  /** Grouped writes without an item are state of the run; no other grouped
      event reaches the run itself. */
  predicate IsRunEvent(e: Event) {
    GroupOf(e) == "" || (e.Writes? && e.item.None?)
  }

  predicate Concerns(o: Owner, e: Event) {
    match o
    case TheRun => IsRunEvent(e)
    case OfBranch(step) => IsBranchEvent(e) && (e.StepEnter? || e.Transition?) && e.step == step
    case OfItem(ref) => (IsItemEvent(e) && RefOf(e) == ref) || (IsSnapshot(e) && e.step == ref.group)
  }

  /** The subsequence of events that concern one owner. */
  function Project(o: Owner, events: seq<Event>): seq<Event> {
    if |events| == 0 then []
    else
      var rest := Project(o, events[..|events| - 1]);
      var last := events[|events| - 1];
      if Concerns(o, last) then rest + [last] else rest
  }

  // ---- what one owner can see of the state ------------------------------------

  function Find<K, V>(m: map<K, V>, k: K): Option<V> {
    if k in m then Some(m[k]) else None
  }

  datatype View =
    | RunView(core: Core)
    | BranchView(groups: iset<string>, outcome: Option<string>)
    | ItemView(pending: bool, outcome: Option<string>, writes: Option<map<string, Json>>,
               attempt: Option<int>, attemptKey: Option<string>, keyAttempts: Option<map<string, int>>)

  ghost function PendingGroups(step: string, b: Branches): iset<string> {
    iset g | BranchRef(g, step) in b.pending
  }

  ghost function ViewOf(o: Owner, a: Acc): View {
    match o
    case TheRun => RunView(a.core)
    case OfBranch(step) =>
      BranchView(PendingGroups(step, a.branches), Find(a.branches.outcome, step))
    case OfItem(ref) => ItemViewOf(ref, a.items)
  }

  ghost function ItemViewOf(r: ItemRef, i: Items): View {
    ItemView(r in i.pending, Find(i.outcome, r), Find(i.writes, r),
             Find(i.attempt, r), Find(i.attemptKey, r), Find(i.keyAttempts, r))
  }

  /** The next view depends on nothing but the view, and only on events that
      concern the owner. */
  lemma StepIsLocal(o: Owner, a: Acc, b: Acc, e: Event)
    requires ViewOf(o, a) == ViewOf(o, b)
    ensures ViewOf(o, Step(a, e)) == ViewOf(o, if Concerns(o, e) then Step(b, e) else b)
  {
    match o
    case TheRun =>
    case OfBranch(step) => BranchStepIsLocal(step, a.branches, b.branches, e);
    case OfItem(ref) => ItemStepIsLocal(ref, a.items, b.items, e);
  }

  lemma BranchStepIsLocal(step: string, a: Branches, b: Branches, e: Event)
    requires PendingGroups(step, a) == PendingGroups(step, b)
    requires Find(a.outcome, step) == Find(b.outcome, step)
    ensures var b' := if Concerns(OfBranch(step), e) then StepBranches(b, e) else b;
            PendingGroups(step, StepBranches(a, e)) == PendingGroups(step, b')
            && Find(StepBranches(a, e).outcome, step) == Find(b'.outcome, step)
  {
    var b' := if Concerns(OfBranch(step), e) then StepBranches(b, e) else b;
    forall g
      ensures BranchRef(g, step) in StepBranches(a, e).pending <==> BranchRef(g, step) in b'.pending
    {
      assert g in PendingGroups(step, a) <==> g in PendingGroups(step, b);
    }
  }

  lemma ItemStepIsLocal(ref: ItemRef, a: Items, b: Items, e: Event)
    requires ItemViewOf(ref, a) == ItemViewOf(ref, b)
    ensures ItemViewOf(ref, StepItems(a, e))
         == ItemViewOf(ref, if Concerns(OfItem(ref), e) then StepItems(b, e) else b)
  {
    if Concerns(OfItem(ref), e) {
      ItemStepView(ref, a, e);
      ItemStepView(ref, b, e);
    } else {
      OtherItemUntouched(ref, a, e);
    }
  }

  function OrEmpty<K, V>(m: Option<map<K, V>>): map<K, V> {
    if m.Some? then m.value else map[]
  }

  /** The view an item has after an event that concerns it. */
  ghost function NextItemView(v: View, e: Event): View
    requires v.ItemView?
  {
    if IsSnapshot(e) then ItemView(false, None, None, None, None, None)
    else if e.StepEnter? && IsFreshEntry(e) then
      ItemView(true, None, None, Some(e.attempt), Some(e.key), Some(map[e.key := e.attempt]))
    else if e.StepEnter? then
      ItemView(true, v.outcome, v.writes, Some(e.attempt), Some(e.key),
               Some(OrEmpty(v.keyAttempts)[e.key := e.attempt]))
    else if e.Writes? then v.(writes := Some(OrEmpty(v.writes) + e.writes))
    else if e.Transition? then v.(pending := false, outcome := Some(e.outcome))
    else v
  }

  lemma ItemStepView(ref: ItemRef, i: Items, e: Event)
    requires Concerns(OfItem(ref), e)
    ensures ItemViewOf(ref, StepItems(i, e)) == NextItemView(ItemViewOf(ref, i), e)
  {}

  lemma OtherItemUntouched(ref: ItemRef, i: Items, e: Event)
    requires !Concerns(OfItem(ref), e)
    ensures ItemViewOf(ref, StepItems(i, e)) == ItemViewOf(ref, i)
  {}

  /** An owner sees the same after a journal as after its own part of it. */
  lemma {:induction false} ProjectionSuffices(o: Owner, a: Acc, events: seq<Event>)
    ensures ViewOf(o, FoldFrom(a, events)) == ViewOf(o, FoldFrom(a, Project(o, events)))
  {
    if |events| > 0 {
      var front, last := events[..|events| - 1], events[|events| - 1];
      ProjectionSuffices(o, a, front);
      StepIsLocal(o, FoldFrom(a, front), FoldFrom(a, Project(o, front)), last);
      assert (Project(o, front) + [last])[..|Project(o, front)|] == Project(o, front);
    }
  }

  /** Nothing in the state escapes the owners' views. */
  lemma ViewsDetermineState(a: Acc, b: Acc)
    requires forall o :: ViewOf(o, a) == ViewOf(o, b)
    ensures a == b
  {
    assert ViewOf(TheRun, a) == ViewOf(TheRun, b);
    forall r: BranchRef
      ensures r in a.branches.pending <==> r in b.branches.pending
      ensures Find(a.branches.outcome, r.step) == Find(b.branches.outcome, r.step)
    {
      assert ViewOf(OfBranch(r.step), a) == ViewOf(OfBranch(r.step), b);
      assert r == BranchRef(r.group, r.step);
      assert r.group in PendingGroups(r.step, a.branches) <==> r.group in PendingGroups(r.step, b.branches);
    }
    FindsDetermineMap(a.branches.outcome, b.branches.outcome) by {
      forall s ensures Find(a.branches.outcome, s) == Find(b.branches.outcome, s) {
        assert ViewOf(OfBranch(s), a) == ViewOf(OfBranch(s), b);
      }
    }
    forall r: ItemRef
      ensures r in a.items.pending <==> r in b.items.pending
      ensures Find(a.items.outcome, r) == Find(b.items.outcome, r)
      ensures Find(a.items.writes, r) == Find(b.items.writes, r)
      ensures Find(a.items.attempt, r) == Find(b.items.attempt, r)
      ensures Find(a.items.attemptKey, r) == Find(b.items.attemptKey, r)
      ensures Find(a.items.keyAttempts, r) == Find(b.items.keyAttempts, r)
    {
      assert ViewOf(OfItem(r), a) == ViewOf(OfItem(r), b);
    }
    FindsDetermineMap(a.items.outcome, b.items.outcome);
    FindsDetermineMap(a.items.writes, b.items.writes);
    FindsDetermineMap(a.items.attempt, b.items.attempt);
    FindsDetermineMap(a.items.attemptKey, b.items.attemptKey);
    FindsDetermineMap(a.items.keyAttempts, b.items.keyAttempts);
  }

  lemma FindsDetermineMap<K(!new), V>(m: map<K, V>, n: map<K, V>)
    requires forall k :: Find(m, k) == Find(n, k)
    ensures m == n
  {
    forall k ensures k in m <==> k in n {
      assert Find(m, k) == Find(n, k);
    }
    forall k | k in m ensures m[k] == n[k] {
      assert Find(m, k) == Find(n, k);
    }
  }

  // ---- the two results ----------------------------------------------------------

  /** Any two interleavings of the same per-owner histories replay alike. */
  lemma InterleavingIndependence(events: seq<Event>, others: seq<Event>)
    requires forall o :: Project(o, events) == Project(o, others)
    ensures StateOf(events) == StateOf(others)
  {
    forall o ensures ViewOf(o, Fold(events)) == ViewOf(o, Fold(others)) {
      ProjectionSuffices(o, INIT, events);
      ProjectionSuffices(o, INIT, others);
      assert Project(o, events) == Project(o, others);
    }
    ViewsDetermineState(Fold(events), Fold(others));
  }

  /** Deleting every grouped event leaves all that the run loop reads in place:
      cursor, visits, attempts, state, errors, end status and foreach lists. */
  lemma GroupedEventsAreConfined(events: seq<Event>)
    ensures StateOf(Project(TheRun, events)).core == StateOf(events).core
    ensures StateOf(Project(TheRun, events)).cursor == StateOf(events).cursor
  {
    ProjectionSuffices(TheRun, INIT, events);
  }

  /** Two neighbouring events with no owner in common may trade places. */
  lemma IndependentEventsCommute(before: seq<Event>, e: Event, f: Event, after: seq<Event>)
    requires forall o :: !(Concerns(o, e) && Concerns(o, f))
    ensures StateOf(before + [e, f] + after) == StateOf(before + [f, e] + after)
  {
    forall o
      ensures Project(o, before + [e, f] + after) == Project(o, before + [f, e] + after)
    {
      ProjectAppend(o, before + [e, f], after);
      ProjectAppend(o, before + [f, e], after);
      ProjectAppend(o, before, [e, f]);
      ProjectAppend(o, before, [f, e]);
      ProjectPair(o, e, f);
      ProjectPair(o, f, e);
    }
    InterleavingIndependence(before + [e, f] + after, before + [f, e] + after);
  }

  lemma {:induction false} ProjectAppend(o: Owner, a: seq<Event>, b: seq<Event>)
    ensures Project(o, a + b) == Project(o, a) + Project(o, b)
  {
    if |b| == 0 {
      assert a + b == a;
    } else {
      var front := b[..|b| - 1];
      assert (a + b)[..|a + b| - 1] == a + front;
      ProjectAppend(o, a, front);
    }
  }

  lemma ProjectPair(o: Owner, e: Event, f: Event)
    ensures Project(o, [e, f]) == (if Concerns(o, e) then [e] else []) + (if Concerns(o, f) then [f] else [])
  {
    assert [e, f][..1] == [e];
    assert Project(o, [e]) == if Concerns(o, e) then [e] else [];
  }
}
