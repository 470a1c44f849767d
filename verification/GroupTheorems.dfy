/**
  Fan-out and join over whole runs: the branches of a parallel step and the
  items of a foreach step.
 */
module GroupTheorems {
  import opened Wrappers
  import opened JsonValues
  import opened Journal
  import opened Workflows
  import opened Protocol
  import RunTheorems
  import Interleaving

  // ---- an item's own history --------------------------------------------------------

  /** The events of an item since its latest fresh try, or since its foreach step
      was last entered with a list. */
  function TryHistory(events: seq<Event>, ref: ItemRef): seq<Event> {
    if |events| == 0 then []
    else
      var e := Last(events);
      if IsSnapshot(e) && e.step == ref.group then []
      else if !IsItemEvent(e) || RefOf(e) != ref then TryHistory(Front(events), ref)
      else if IsFreshEntry(e) then [e]
      else TryHistory(Front(events), ref) + [e]
  }

  function MergedWrites(history: seq<Event>): map<string, Json> {
    if |history| == 0 then map[]
    else if Last(history).Writes? then MergedWrites(Front(history)) + Last(history).writes
    else MergedWrites(Front(history))
  }

  /** The outcome of the last transition. */
  function Reported(history: seq<Event>): Option<string> {
    if |history| == 0 then None
    else if Last(history).Transition? then Some(Last(history).outcome)
    else Reported(Front(history))
  }

  /** The text of the last failed check or command. */
  function FailureText(history: seq<Event>): Option<string> {
    if |history| == 0 then None
    else if Last(history).Postcondition? && !Last(history).ok then Some(Last(history).text)
    else FailureText(Front(history))
  }

  /** Entered, and not transitioned since. */
  predicate Unresolved(history: seq<Event>) {
    |history| > 0 &&
    if Last(history).StepEnter? then true
    else if Last(history).Transition? then false
    else Unresolved(Front(history))
  }

  lemma HistoryStep(events: seq<Event>, ref: ItemRef)
    requires |events| > 0
    ensures var e, before := Last(events), TryHistory(Front(events), ref);
            TryHistory(events, ref) ==
              if !Interleaving.Concerns(Interleaving.OfItem(ref), e) then before
              else if IsSnapshot(e) then []
              else if IsFreshEntry(e) then [e]
              else before + [e]
  {}

  /** What the replay keeps of an item is what the item's own history says, in
      every journal. */
  lemma {:induction false} ReplayKeepsHistory(events: seq<Event>, ref: ItemRef)
    ensures var i, history := Fold(events).items, TryHistory(events, ref);
            && Lookup(i.writes, ref, map[]) == MergedWrites(history)
            && Interleaving.Find(i.outcome, ref) == Reported(history)
            && (ref in i.pending <==> Unresolved(history))
  {
    hide StepItems, StepBranches, StepCore;
    if |events| > 0 {
      var e := Last(events);
      ReplayKeepsHistory(Front(events), ref);
      HistoryStep(events, ref);
      var i := Fold(Front(events)).items;
      if Interleaving.Concerns(Interleaving.OfItem(ref), e) {
        Interleaving.ItemStepView(ref, i, e);
        assert Front(TryHistory(Front(events), ref) + [e]) == TryHistory(Front(events), ref);
        assert Front([e]) == [];
      } else {
        Interleaving.OtherItemUntouched(ref, i, e);
      }
    }
  }

  predicate StartsFresh(history: seq<Event>) {
    |history| > 0 && IsFreshEntry(history[0])
  }

  /** The text a join reports for an item is that of the item's own latest
      failure, once the item was entered under the current list. */
  lemma {:induction false} ErrorIsOwn(events: seq<Event>, ref: ItemRef)
    requires StartsFresh(TryHistory(events, ref))
    ensures LastItemError(events, ref) == FailureText(TryHistory(events, ref))
  {
    if |events| > 0 {
      var e, history := Last(events), TryHistory(Front(events), ref);
      HistoryStep(events, ref);
      if IsItemEvent(e) && RefOf(e) == ref {
        if !IsFreshEntry(e) {
          assert Front(history + [e]) == history;
          if history != [] {
            assert (history + [e])[0] == history[0];
            ErrorIsOwn(Front(events), ref);
          }
        } else {
          assert Front([e]) == [];
        }
      } else {
        ErrorIsOwn(Front(events), ref);
      }
    }
  }

  // ---- items over whole runs ----------------------------------------------------------

  /** No item is both awaited and resolved. */
  lemma {:induction false} PendingAndResolvedAreDisjoint(w: Workflow, events: seq<Event>)
    requires Legal(w, events)
    ensures forall r :: r in Fold(events).items.pending ==> r !in Fold(events).items.outcome
  {
    hide StepCore, StepBranches, Legal, CanAppend;
    if |events| > 0 {
      LegalSplit(w, events);
      RuleOf(w, Front(events), Last(events));
      PendingAndResolvedAreDisjoint(w, Front(events));
    }
  }

  /** What an awaited item tells: the run is at its foreach step, under a list
      that has the item, and has not ended. */
  ghost predicate AwaitsItem(w: Workflow, events: seq<Event>, r: ItemRef) {
    var c := CoreOf(events);
    && c.place.haveEnter && !c.place.transitioned && c.place.lastEnter.step == r.group && !c.ending.ended
    && StepById(w, r.group).Some? && StepById(w, r.group).value.kind.Foreach?
    && 0 <= r.index < |Snapshot(events, r.group)|
  }

  lemma PendingItemStep(w: Workflow, events: seq<Event>, r: ItemRef)
    requires |events| > 0 && CanAppend(w, Front(events), Last(events)) && r in Fold(events).items.pending
    requires forall s :: s in Fold(Front(events)).items.pending ==> AwaitsItem(w, Front(events), s)
    ensures AwaitsItem(w, events, r)
  {
    hide StepData, StepLedger, StepBranches, Legal, CanAppend, CapsReached, IsItemTry;
    var front, e := Front(events), Last(events);
    RuleOf(w, front, e);
    if r in Fold(front).items.pending {
      assert AwaitsItem(w, front, r);
      assert CursorOf(CoreOf(front)).step == r.group;
    }
  }

  lemma {:induction false} PendingItemsAreHere(w: Workflow, events: seq<Event>)
    requires Legal(w, events)
    ensures forall r :: r in Fold(events).items.pending ==> AwaitsItem(w, events, r)
  {
    hide StepData, StepLedger, StepBranches, Legal, CanAppend;
    if |events| > 0 {
      LegalSplit(w, events);
      RuleOf(w, Front(events), Last(events));
      PendingItemsAreHere(w, Front(events));
      forall r | r in Fold(events).items.pending
        ensures AwaitsItem(w, events, r)
      {
        PendingItemStep(w, events, r);
      }
    }
  }

  lemma {:induction false} OutcomePersists(w: Workflow, events: seq<Event>, i: nat, j: nat, ref: ItemRef)
    requires Legal(w, events) && i <= j <= |events| && ref in Fold(events[..i]).items.outcome
    requires forall k :: i <= k < j ==> !(IsSnapshot(events[k]) && events[k].step == ref.group)
    ensures ref in Fold(events[..j]).items.outcome
  {
    hide StepCore, StepBranches, Legal, CanAppend;
    if i < j {
      OutcomePersists(w, events, i, j - 1, ref);
      RunTheorems.AppendedWasAllowed(w, events, j - 1);
      RuleOf(w, events[..j - 1], events[j - 1]);
      FoldSnoc(INIT, events, j - 1);
    }
  }

  /** A resolved item never runs again: any later try of it comes after a fresh
      entry of its foreach step. */
  lemma ResolvedItemNeverRuns(w: Workflow, events: seq<Event>, i: nat, j: nat, ref: ItemRef)
    requires Legal(w, events) && i < j < |events|
    requires IsItemEvent(events[i]) && events[i].Transition? && RefOf(events[i]) == ref
    requires IsItemEvent(events[j]) && RefOf(events[j]) == ref
    ensures exists k :: i < k < j && IsSnapshot(events[k]) && events[k].step == ref.group
  {
    hide StepCore, StepBranches, Legal, CanAppend;
    if forall k :: i < k < j ==> !(IsSnapshot(events[k]) && events[k].step == ref.group) {
      FoldSnoc(INIT, events, i);
      OutcomePersists(w, events, i + 1, j, ref);
      RunTheorems.AppendedWasAllowed(w, events, j);
      RuleOf(w, events[..j], events[j]);
      PrefixIsLegal(w, events, j);
      PendingAndResolvedAreDisjoint(w, events[..j]);
      assert false;
    }
  }

  /** What is journaled for one item touches neither the run nor any other item. */
  lemma {:induction false} ItemsAreIsolated(before: seq<Event>, after: seq<Event>, ref: ItemRef, other: ItemRef)
    requires before <= after && other != ref
    requires forall k :: |before| <= k < |after| ==> IsItemEvent(after[k]) && RefOf(after[k]) == ref
    ensures CoreOf(after) == CoreOf(before) && Fold(after).branches == Fold(before).branches
    ensures TryHistory(after, other) == TryHistory(before, other)
    ensures Interleaving.ItemViewOf(other, Fold(after).items) == Interleaving.ItemViewOf(other, Fold(before).items)
    decreases |after|
  {
    hide StepItems;
    if after != before {
      var front := Front(after);
      assert before <= front && after[|after| - 1] == Last(after);
      ItemsAreIsolated(before, front, ref, other);
      Interleaving.OtherItemUntouched(other, Fold(front).items, Last(after));
    }
  }

  // ---- the foreach join ---------------------------------------------------------------

  /** What one collected entry must be, from the item's own history alone. */
  function CollectedEntry(history: seq<Event>, index: nat, item: Json): Json {
    var outcome := if Reported(history) == Some(SUCCESS) then SUCCESS else FAILURE;
    Obj(map[
      "index" := Number(Decimal(index)),
      "item" := item,
      "outcome" := Str(outcome),
      "writes" := Obj(MergedWrites(history)),
      "error" := if outcome == FAILURE && FailureText(history).Some? then Str(FailureText(history).value) else Null])
  }

  lemma JoinEntryIsOwn(events: seq<Event>, ref: ItemRef, item: Json)
    requires ref.index >= 0 && StartsFresh(TryHistory(events, ref))
    ensures JoinEntry(events, ref, item) == CollectedEntry(TryHistory(events, ref), ref.index, item)
  {
    ReplayKeepsHistory(events, ref);
    ErrorIsOwn(events, ref);
    var i := Fold(events).items;
    assert Interleaving.Find(i.outcome, ref) == Reported(TryHistory(events, ref));
  }

  /** An item with any history under the current list began it with a fresh try:
      retries and reports need an item that is already awaited. */
  lemma {:induction false} HistoriesStartFresh(w: Workflow, events: seq<Event>, ref: ItemRef)
    requires Legal(w, events)
    ensures TryHistory(events, ref) == [] || StartsFresh(TryHistory(events, ref))
  {
    hide StepCore, StepBranches, StepItems, Legal, CanAppend, Fold, AtForeach;
    if |events| > 0 {
      var e, history := Last(events), TryHistory(Front(events), ref);
      LegalSplit(w, events);
      RuleOf(w, Front(events), e);
      HistoriesStartFresh(w, Front(events), ref);
      HistoryStep(events, ref);
      if IsItemEvent(e) && RefOf(e) == ref && !IsFreshEntry(e) {
        ReplayKeepsHistory(Front(events), ref);
        assert history != [];
        assert (history + [e])[0] == history[0];
      }
    }
  }

  /** What a join lists for an item that was not entered under this list: a failure that
      wrote nothing. */
  function UnenteredEntry(index: nat, item: Json, error: Option<string>): Json {
    Obj(map[
      "index" := Number(Decimal(index)),
      "item" := item,
      "outcome" := Str(FAILURE),
      "writes" := Obj(map[]),
      "error" := if error.Some? then Str(error.value) else Null])
  }

  /** The item's latest failure since its latest fresh entry under any list. */
  predicate IsLatestFailure(events: seq<Event>, ref: ItemRef, j: int) {
    0 <= j < |events| && IsFailedItemVerdict(events[j], ref)
    && forall k :: j < k < |events| ==>
         !IsFailedItemVerdict(events[k], ref) && !(IsItemEvent(events[k]) && RefOf(events[k]) == ref && IsFreshEntry(events[k]))
  }

  /** The text a join finds is that of this failure, and it finds none if there is none. */
  lemma {:induction false} ErrorIsLatestFailure(events: seq<Event>, ref: ItemRef)
    ensures match LastItemError(events, ref)
            case Some(text) => exists j :: IsLatestFailure(events, ref, j) && events[j].text == text
            case None => forall j :: !IsLatestFailure(events, ref, j)
  {
    if |events| > 0 {
      var front, e := Front(events), Last(events);
      assert forall k :: 0 <= k < |front| ==> events[k] == front[k];
      ErrorIsLatestFailure(front, ref);
      if IsFailedItemVerdict(e, ref) {
        assert IsLatestFailure(events, ref, |events| - 1);
      } else if !(IsItemEvent(e) && RefOf(e) == ref && IsFreshEntry(e)) {
        if LastItemError(front, ref).Some? {
          var j :| IsLatestFailure(front, ref, j) && front[j].text == LastItemError(front, ref).value;
          assert IsLatestFailure(events, ref, j);
        }
        forall j | LastItemError(front, ref).None?
          ensures !IsLatestFailure(events, ref, j)
        {
          assert !IsLatestFailure(front, ref, j);
        }
      }
    }
  }

  /** The text, if any, is that of the latest failure at the item's index under an earlier
      list: since its latest fresh entry, and before this list was frozen. */
  ghost predicate IsEarlierError(events: seq<Event>, ref: ItemRef, error: Option<string>) {
    match error
    case Some(text) =>
      exists j, k :: j < k < |events| && IsLatestFailure(events, ref, j) && events[j].text == text
                     && IsSnapshot(events[k]) && events[k].step == ref.group
    case None => forall j :: !IsLatestFailure(events, ref, j)
  }

  /** What is found for an item that was not entered is none of this list's. */
  lemma UnenteredError(w: Workflow, events: seq<Event>, ref: ItemRef)
    requires Legal(w, events) && TryHistory(events, ref) == []
    ensures IsEarlierError(events, ref, LastItemError(events, ref))
  {
    hide Legal, TryHistory, LastItemError;
    ErrorIsLatestFailure(events, ref);
    if LastItemError(events, ref).Some? {
      var j :| IsLatestFailure(events, ref, j) && events[j].text == LastItemError(events, ref).value;
      var k := FrozenSince(events, ref, j);
    }
  }

  /** After any event of an item that has no history, its list was frozen. */
  lemma {:induction false} FrozenSince(events: seq<Event>, ref: ItemRef, j: nat) returns (k: nat)
    requires TryHistory(events, ref) == [] && j < |events| && IsItemEvent(events[j]) && RefOf(events[j]) == ref
    ensures j < k < |events| && IsSnapshot(events[k]) && events[k].step == ref.group
  {
    k := |events| - 1;
    HistoryStep(events, ref);
    if !(IsSnapshot(events[k]) && events[k].step == ref.group) {
      assert Front(events)[j] == events[j];
      k := FrozenSince(Front(events), ref, j);
    }
  }

  lemma UnenteredEntryIs(events: seq<Event>, ref: ItemRef, item: Json)
    requires ref.index >= 0 && TryHistory(events, ref) == []
    ensures JoinEntry(events, ref, item) == UnenteredEntry(ref.index, item, LastItemError(events, ref))
  {
    ReplayKeepsHistory(events, ref);
    assert Interleaving.Find(Fold(events).items.outcome, ref) == None;
  }

  /** One element of a joined list: of an item that was entered under it, from its latest
      try and nothing else; of one that was not, a failure without writes, told with
      the latest failure at that index under an earlier list, if there is one. */
  ghost predicate IsCollected(events: seq<Event>, ref: ItemRef, item: Json, element: Json)
    requires ref.index >= 0
  {
    var history := TryHistory(events, ref);
    if history == [] then
      exists error: Option<string> ::
        element == UnenteredEntry(ref.index, item, error) && IsEarlierError(events, ref, error)
    else StartsFresh(history) && Reported(history).Some? && element == CollectedEntry(history, ref.index, item)
  }

  /** A journaled join lists every item of the frozen list once, in list order. All of
      them were entered under this list, and have reported, if and only if all had been
      handed out. */
  lemma JoinCollectsEveryItem(w: Workflow, events: seq<Event>, collect: string)
    requires |events| > 0 && Legal(w, events) && Last(events).Writes? && Last(events).group == ""
    requires StepById(w, Last(events).step).Some?
    requires StepById(w, Last(events).step).value.kind.Foreach?
    requires StepById(w, Last(events).step).value.kind.collect == collect
    requires Sound(w)
    ensures var e, front := Last(events), Front(events);
            var items := Snapshot(front, e.step);
            && e.writes.Keys == {collect} && e.writes[collect].Arr?
            && |e.writes[collect].elems| == |items|
            && (forall i :: 0 <= i < |items| ==>
                  IsCollected(front, ItemRef(e.step, i), items[i], e.writes[collect].elems[i]))
            && ((forall i :: 0 <= i < |items| ==> TryHistory(front, ItemRef(e.step, i)) != [])
                <==> Covered(Fold(front).items, e.step, |items|))
  {
    hide Legal, CanAppend, Fold, Snapshot, JoinEntry, TryHistory, IsCollected, MayJoin;
    LegalSplit(w, events);
    var e, front := Last(events), Front(events);
    RuleOf(w, front, e);
    var items := Snapshot(front, e.step);
    assert MayJoin(front, e.step, |items|);
    forall i | 0 <= i < |items|
      ensures IsCollected(front, ItemRef(e.step, i), items[i], e.writes[collect].elems[i])
      ensures TryHistory(front, ItemRef(e.step, i)) != [] <==>
                ItemRef(e.step, i) in Fold(front).items.pending || Resolved(Fold(front).items, e.step, i)
    {
      assert e.writes[collect].elems[i] == JoinEntry(front, ItemRef(e.step, i), items[i]);
      JoinedIsCollected(w, front, e.step, |items|, ItemRef(e.step, i), items[i]);
    }
  }

  lemma JoinedIsCollected(w: Workflow, events: seq<Event>, id: string, n: int, ref: ItemRef, item: Json)
    requires Legal(w, events) && MayJoin(events, id, n) && 0 <= ref.index < n && ref.group == id
    ensures IsCollected(events, ref, item, JoinEntry(events, ref, item))
    ensures TryHistory(events, ref) != [] <==>
              ref in Fold(events).items.pending || Resolved(Fold(events).items, id, ref.index)
  {
    hide Legal, Fold, JoinEntry, TryHistory, CollectedEntry, UnenteredEntry, IsEarlierError, LastItemError;
    ReplayKeepsHistory(events, ref);
    HistoriesStartFresh(w, events, ref);
    PendingAndResolvedAreDisjoint(w, events);
    assert ItemRef(id, ref.index) == ref;
    if TryHistory(events, ref) == [] {
      UnenteredEntryIs(events, ref, item);
      UnenteredError(w, events, ref);
    } else {
      assert ref !in Fold(events).items.pending by {
        if AllResolved(Fold(events).items, id, n) {
          assert Resolved(Fold(events).items, id, ref.index);
        }
      }
      EnteredItemIsResolved(events, ref);
      JoinEntryIsOwn(events, ref, item);
    }
  }

  predicate SameForItem(events: seq<Event>, others: seq<Event>, ref: ItemRef) {
    Interleaving.Project(Interleaving.OfItem(ref), events) == Interleaving.Project(Interleaving.OfItem(ref), others)
  }

  /** Neither the order of submits nor anything journaled for the run itself
      moves a join: two journals that agree on every item's own events and on the
      step's entries collect the same list. */
  lemma JoinIsOrderIndependent(events: seq<Event>, others: seq<Event>, id: string, items: seq<Json>)
    requires forall i :: 0 <= i < |items| ==> SameForItem(events, others, ItemRef(id, i))
    ensures JoinList(events, id, items) == JoinList(others, id, items)
  {
    forall i | 0 <= i < |items|
      ensures JoinEntry(events, ItemRef(id, i), items[i]) == JoinEntry(others, ItemRef(id, i), items[i])
    {
      var ref := ItemRef(id, i);
      SameProjectionSameEntry(events, ref, items[i]);
      SameProjectionSameEntry(others, ref, items[i]);
    }
  }

  lemma {:induction false} ProjectedError(events: seq<Event>, ref: ItemRef)
    ensures LastItemError(events, ref)
         == LastItemError(Interleaving.Project(Interleaving.OfItem(ref), events), ref)
  {
    if |events| > 0 {
      ProjectedError(Front(events), ref);
      var rest := Interleaving.Project(Interleaving.OfItem(ref), Front(events));
      assert Front(rest + [Last(events)]) == rest;
    }
  }

  lemma SameProjectionSameEntry(events: seq<Event>, ref: ItemRef, item: Json)
    requires ref.index >= 0
    ensures JoinEntry(events, ref, item)
         == JoinEntry(Interleaving.Project(Interleaving.OfItem(ref), events), ref, item)
  {
    var own := Interleaving.Project(Interleaving.OfItem(ref), events);
    ProjectedError(events, ref);
    Interleaving.ProjectionSuffices(Interleaving.OfItem(ref), INIT, events);
    assert Interleaving.ItemViewOf(ref, Fold(events).items) == Interleaving.ItemViewOf(ref, Fold(own).items);
    assert Interleaving.Find(Fold(events).items.outcome, ref) == Interleaving.Find(Fold(own).items.outcome, ref);
    assert Interleaving.Find(Fold(events).items.writes, ref) == Interleaving.Find(Fold(own).items.writes, ref);
  }

  lemma {:induction false} RunEventsMoveNoItem(events: seq<Event>, more: seq<Event>, ref: ItemRef)
    requires forall k :: 0 <= k < |more| ==> Interleaving.IsRunEvent(more[k]) && !IsSnapshot(more[k])
    ensures Interleaving.Project(Interleaving.OfItem(ref), events + more)
         == Interleaving.Project(Interleaving.OfItem(ref), events)
  {
    if |more| == 0 {
      assert events + more == events;
    } else {
      RunEventsMoveNoItem(events, Front(more), ref);
      assert Front(events + more) == events + Front(more);
    }
  }

  /** Events of the run alone leave what would be collected as it is. */
  lemma RunEventsKeepTheList(events: seq<Event>, more: seq<Event>, id: string, items: seq<Json>)
    requires forall k :: 0 <= k < |more| ==> Interleaving.IsRunEvent(more[k]) && !IsSnapshot(more[k])
    ensures JoinList(events + more, id, items) == JoinList(events, id, items)
  {
    forall i | 0 <= i < |items|
      ensures SameForItem(events + more, events, ItemRef(id, i))
    {
      RunEventsMoveNoItem(events, more, ItemRef(id, i));
    }
    JoinIsOrderIndependent(events + more, events, id, items);
  }

  // ---- a list that is joined again ---------------------------------------------------------

  predicate IsJoin(w: Workflow, e: Event) {
    e.Writes? && e.group == "" && IsStep(w, e.step) && StepById(w, e.step).value.kind.Foreach?
  }

  lemma JoinRule(w: Workflow, events: seq<Event>, e: Event)
    requires CanAppend(w, events, e) && IsJoin(w, e) && Sound(w)
    ensures MayJoin(events, e.step, |Snapshot(events, e.step)|)
    ensures e.writes == map[StepById(w, e.step).value.kind.collect := Arr(JoinList(events, e.step, Snapshot(events, e.step)))]
  {
    hide Fold, MayJoin, JoinList, Snapshot;
    RuleOf(w, events, e);
  }

  /** The step is not entered from position i up to j. */
  predicate NoEntry(events: seq<Event>, i: nat, j: nat, id: string)
    requires j <= |events|
  {
    forall k :: i <= k < j ==> !(IsEntry(events[k]) && events[k].step == id)
  }

  lemma {:induction false} SnapshotStays(events: seq<Event>, i: nat, j: nat, id: string)
    requires i <= j <= |events| && NoEntry(events, i, j, id)
    ensures Snapshot(events[..j], id) == Snapshot(events[..i], id)
  {
    if i < j {
      assert Front(events[..j]) == events[..j - 1];
      SnapshotStays(events, i, j - 1, id);
    }
  }

  /** The item has no event from position i up to j. */
  predicate NoEvent(events: seq<Event>, i: nat, j: nat, ref: ItemRef)
    requires j <= |events|
  {
    forall k :: i <= k < j ==> !(IsItemEvent(events[k]) && RefOf(events[k]) == ref)
  }

  /** A resolved item has no further event under its list. */
  lemma ResolvedHasNoEvent(w: Workflow, events: seq<Event>, i: nat, j: nat, ref: ItemRef)
    requires Legal(w, events) && i <= j <= |events| && NoEntry(events, i, j, ref.group)
    requires ref in Fold(events[..i]).items.outcome
    ensures NoEvent(events, i, j, ref)
  {
    hide Fold, Legal, CanAppend, AtForeach, IsItemTry;
    forall k | i <= k < j
      ensures !(IsItemEvent(events[k]) && RefOf(events[k]) == ref)
    {
      OutcomePersists(w, events, i, k, ref);
      RunTheorems.AppendedWasAllowed(w, events, k);
      PrefixIsLegal(w, events, k);
      PendingAndResolvedAreDisjoint(w, events[..k]);
      RuleOf(w, events[..k], events[k]);
    }
  }

  /** An item without events keeps its history, and its place in a list. */
  lemma {:induction false} UneventfulItemStays(events: seq<Event>, i: nat, j: nat, ref: ItemRef)
    requires i <= j <= |events| && NoEntry(events, i, j, ref.group) && NoEvent(events, i, j, ref)
    ensures SameForItem(events[..j], events[..i], ref) && TryHistory(events[..j], ref) == TryHistory(events[..i], ref)
  {
    if i < j {
      assert Front(events[..j]) == events[..j - 1] && events[..j][..|events[..j]| - 1] == events[..j - 1];
      UneventfulItemStays(events, i, j - 1, ref);
    }
  }

  lemma SameEntry(events: seq<Event>, others: seq<Event>, ref: ItemRef, item: Json)
    requires ref.index >= 0 && SameForItem(events, others, ref)
    ensures JoinEntry(events, ref, item) == JoinEntry(others, ref, item)
  {
    hide JoinEntry;
    SameProjectionSameEntry(events, ref, item);
    SameProjectionSameEntry(others, ref, item);
  }

  /** Two joins of a foreach step with no entry of it in between, as when a crash falls
      between a join and the exit. The list is the same, and so is every element of it
      whose item was entered before the first join, or has no event in between. No item
      has one, and the same list is written again, if and only if all items had been
      handed out when it was joined first. */
  lemma RejoinWritesTheSameList(w: Workflow, events: seq<Event>, i: nat, j: nat)
    requires Sound(w) && Legal(w, events) && i < j < |events|
    requires IsJoin(w, events[i]) && IsJoin(w, events[j]) && events[j].step == events[i].step
    requires NoEntry(events, i, j, events[i].step)
    ensures var id, collect := events[i].step, StepById(w, events[i].step).value.kind.collect;
            var items := Snapshot(events[..i], id);
            && events[i].writes.Keys == events[j].writes.Keys == {collect}
            && events[i].writes[collect].Arr? && events[j].writes[collect].Arr?
            && var before, after := events[i].writes[collect].elems, events[j].writes[collect].elems;
            && |before| == |after| == |items| && Snapshot(events[..j], id) == items
            && (forall k :: 0 <= k < |items| ==>
                  (TryHistory(events[..i], ItemRef(id, k)) != [] ==> NoEvent(events, i, j, ItemRef(id, k)))
                  && (NoEvent(events, i, j, ItemRef(id, k)) ==> after[k] == before[k]))
            && (Covered(Fold(events[..i]).items, id, |items|) <==>
                  forall k :: 0 <= k < |items| ==> NoEvent(events, i, j, ItemRef(id, k)))
            && (Covered(Fold(events[..i]).items, id, |items|) ==> events[j].writes == events[i].writes)
  {
    hide Fold, Legal, CanAppend, JoinEntry, TryHistory, Snapshot, MayJoin, NoEvent, NoEntry, Covered, SameForItem;
    var id := events[i].step;
    RunTheorems.AppendedWasAllowed(w, events, i);
    RunTheorems.AppendedWasAllowed(w, events, j);
    JoinRule(w, events[..i], events[i]);
    JoinRule(w, events[..j], events[j]);
    SnapshotStays(events, i, j, id);
    var items := Snapshot(events[..i], id);
    forall k | 0 <= k < |items|
      ensures TryHistory(events[..i], ItemRef(id, k)) != [] ==> NoEvent(events, i, j, ItemRef(id, k))
      ensures NoEvent(events, i, j, ItemRef(id, k)) ==>
                JoinEntry(events[..j], ItemRef(id, k), items[k]) == JoinEntry(events[..i], ItemRef(id, k), items[k])
    {
      var ref := ItemRef(id, k);
      if TryHistory(events[..i], ref) != [] {
        JoinedIsResolved(w, events[..i], |items|, ref) by { PrefixIsLegal(w, events, i); }
        ResolvedHasNoEvent(w, events, i, j, ref);
      }
      if NoEvent(events, i, j, ref) {
        UneventfulItemStays(events, i, j, ref);
        SameEntry(events[..j], events[..i], ref, items[k]);
      }
    }
    CoveredIffUneventful(w, events, i, j, id, |items|);
    if Covered(Fold(events[..i]).items, id, |items|) {
      assert JoinList(events[..j], id, items) == JoinList(events[..i], id, items);
    }
  }

  /** At a join, an item that was entered is resolved. */
  lemma JoinedIsResolved(w: Workflow, events: seq<Event>, n: int, ref: ItemRef)
    requires Legal(w, events) && MayJoin(events, ref.group, n) && 0 <= ref.index < n && TryHistory(events, ref) != []
    ensures ref in Fold(events).items.outcome
  {
    hide Legal, Fold, TryHistory;
    JoinedIsCollected(w, events, ref.group, n, ref, Null);
    assert ItemRef(ref.group, ref.index) == ref;
    if AllResolved(Fold(events).items, ref.group, n) {
      assert Resolved(Fold(events).items, ref.group, ref.index);
    }
  }

  lemma CoveredIffUneventful(w: Workflow, events: seq<Event>, i: nat, j: nat, id: string, n: int)
    requires Legal(w, events) && i < j < |events| && NoEntry(events, i, j, id) && !events[i].Transition?
    requires MayJoin(events[..i], id, n) && MayJoin(events[..j], id, n)
    requires |Snapshot(events[..j], id)| == n
    ensures Covered(Fold(events[..i]).items, id, n) <==>
              forall k :: 0 <= k < n ==> NoEvent(events, i, j, ItemRef(id, k))
  {
    hide Fold, Legal, TryHistory, Snapshot, NoEntry;
    var before, after := Fold(events[..i]).items, Fold(events[..j]).items;
    if Covered(before, id, n) {
      forall k | 0 <= k < n
        ensures NoEvent(events, i, j, ItemRef(id, k))
      {
        assert Resolved(before, id, k);
        ResolvedHasNoEvent(w, events, i, j, ItemRef(id, k));
      }
    }
    if forall k :: 0 <= k < n ==> NoEvent(events, i, j, ItemRef(id, k)) {
      NothingJustResolved(w, events, i, j, id, n);
      forall k | 0 <= k < n
        ensures Resolved(before, id, k)
      {
        var ref := ItemRef(id, k);
        assert NoEvent(events, i, j, ref) && Resolved(after, id, k);
        UneventfulItemStays(events, i, j, ref);
        ReplayKeepsHistory(events[..i], ref);
        ReplayKeepsHistory(events[..j], ref);
        assert Interleaving.Find(after.outcome, ref) == Interleaving.Find(before.outcome, ref);
      }
    }
  }

  lemma NothingJustResolved(w: Workflow, events: seq<Event>, i: nat, j: nat, id: string, n: int)
    requires Legal(w, events) && i < j < |events| && NoEntry(events, i, j, id) && !events[i].Transition?
    requires |Snapshot(events[..j], id)| == n && forall k :: 0 <= k < n ==> NoEvent(events, i, j, ItemRef(id, k))
    ensures !JustResolved(events[..j], id)
  {
    hide Fold, Legal, CanAppend, Snapshot;
    var e := events[j - 1];
    assert Last(events[..j]) == e;
    RunTheorems.AppendedWasAllowed(w, events, j - 1);
    RuleOf(w, events[..j - 1], e);
    SnapshotStays(events, j - 1, j, id);
  }

  // ---- which visit a joined list is of -----------------------------------------------------

  /** The run arrives at a step: by a transition, at its start, or again by an
      intervention. */
  predicate Arrives(e: Event) {
    IsExit(e) || e.RunStart? || (e.Resume? && e.intervention)
  }

  /** Nothing has arrived since. */
  predicate NoArrivalSince(events: seq<Event>, i: int) {
    forall k :: 0 <= i < k < |events| ==> !Arrives(events[k])
  }

  /** The latest entry of a step. */
  predicate LatestEntryAt(events: seq<Event>, id: string, i: int) {
    0 <= i < |events| && IsEntry(events[i]) && events[i].step == id
    && forall k :: i < k < |events| ==> !(IsEntry(events[k]) && events[k].step == id)
  }

  /** The step's list is that of the visit the run is in: its latest entry was made
      since the run arrived. */
  ghost predicate ListIsThisVisits(events: seq<Event>, id: string) {
    exists i :: LatestEntryAt(events, id, i) && NoArrivalSince(events, i)
  }

  lemma {:induction false} EntryIsAt(events: seq<Event>, id: string, i: nat)
    requires LatestEntryAt(events, id, i)
    ensures LatestEntry(events, id) == Some(events[i])
    ensures Snapshot(events, id) == if events[i].items.Some? then events[i].items.value else []
  {
    if i < |events| - 1 {
      assert LatestEntryAt(Front(events), id, i);
      EntryIsAt(Front(events), id, i);
    }
  }

  lemma {:induction false} EnteredStaysInFlight(w: Workflow, events: seq<Event>, i: nat)
    requires Legal(w, events) && i < |events| && IsEntry(events[i]) && NoArrivalSince(events, i)
    ensures CoreOf(events).place.inFlight
  {
    hide StepData, StepLedger, StepEnding, StepItems, StepBranches, Legal, CanAppend;
    if i < |events| - 1 {
      LegalSplit(w, events);
      assert forall k :: 0 <= k < |events| - 1 ==> Front(events)[k] == events[k];
      EnteredStaysInFlight(w, Front(events), i);
    }
  }

  lemma {:induction false} InFlightWasEntered(w: Workflow, events: seq<Event>) returns (i: nat)
    requires Legal(w, events) && CoreOf(events).place.inFlight
    ensures LatestEntryAt(events, CoreOf(events).place.lastEnter.step, i) && NoArrivalSince(events, i)
  {
    hide StepData, StepLedger, StepEnding, StepItems, StepBranches, Legal, CanAppend, MayEnter;
    LegalSplit(w, events);
    var front, e := Front(events), Last(events);
    RuleOf(w, front, e);
    if IsEntry(e) {
      i := |events| - 1;
    } else {
      assert forall k :: 0 <= k < |front| ==> front[k] == events[k];
      RunTheorems.BudgetMatches(front);
      i := InFlightWasEntered(w, front);
      assert !Arrives(e) && !IsEntry(e);
    }
  }

  /** The list a foreach step joins when it leaves was frozen in this very visit if and
      only if the step was in flight. If it was not, the run had arrived at the step and
      been resumed there before it was entered, and the list is that of an earlier
      visit. */
  lemma JoinedListIsThisVisits(w: Workflow, events: seq<Event>)
    requires |events| > 0 && Legal(w, events) && IsExit(Last(events)) && IsStep(w, Last(events).step)
    requires StepById(w, Last(events).step).value.kind.Foreach? && Last(events).outcome != EXHAUSTED
    ensures var e, front := Last(events), Front(events);
            var collect := StepById(w, e.step).value.kind.collect;
            && |front| > 0 && Last(front).Writes?
            && Last(front).writes == map[collect := Arr(JoinList(Front(front), e.step, Snapshot(front, e.step)))]
            && (ListIsThisVisits(front, e.step) <==> CoreOf(front).place.inFlight)
            && (forall i :: LatestEntryAt(front, e.step, i) ==>
                  Snapshot(front, e.step) == if front[i].items.Some? then front[i].items.value else [])
  {
    hide Legal, CanAppend, Fold, CapsReached, ResolveTarget, Snapshot, JoinEntry, MayJoin;
    LegalSplit(w, events);
    var e, front := Last(events), Front(events);
    RuleOf(w, front, e);
    JoinIsLast(w, front, e);
    VisitOfExit(w, front, e);
    forall i | LatestEntryAt(front, e.step, i)
      ensures Snapshot(front, e.step) == if front[i].items.Some? then front[i].items.value else []
    {
      EntryIsAt(front, e.step, i);
    }
  }

  lemma JoinIsLast(w: Workflow, front: seq<Event>, e: Event)
    requires Legal(w, front) && Running(front) && IsExit(e) && MayLeave(w, front, e) && IsStep(w, e.step)
    requires StepById(w, e.step).value.kind.Foreach? && e.outcome != EXHAUSTED
    ensures var collect := StepById(w, e.step).value.kind.collect;
            |front| > 0 && Last(front).Writes?
            && Last(front).writes == map[collect := Arr(JoinList(Front(front), e.step, Snapshot(front, e.step)))]
  {
    hide Legal, CanAppend, Fold, CapsReached, ResolveTarget, JoinEntry, MayJoin, StepById;
    LegalSplit(w, front);
    RuleOf(w, Front(front), Last(front));
    WritesStayHere(w, front);
  }

  lemma WritesStayHere(w: Workflow, events: seq<Event>)
    requires |events| > 0 && Last(events).Writes?
    ensures Here(w, events) == Here(w, Front(events))
    ensures forall id :: Snapshot(events, id) == Snapshot(Front(events), id)
  {
    hide StepData, StepItems, StepBranches;
    FoldOfLast(events);
  }

  lemma VisitOfExit(w: Workflow, front: seq<Event>, e: Event)
    requires Legal(w, front) && Running(front) && IsExit(e) && MayLeave(w, front, e)
    ensures ListIsThisVisits(front, e.step) <==> CoreOf(front).place.inFlight
  {
    hide Legal, Fold, Justified, LatestEntryAt, NoArrivalSince;
    if CoreOf(front).place.inFlight {
      LeavesInFlight(w, front, e);
      var i := InFlightWasEntered(w, front);
      assert LatestEntryAt(front, e.step, i) && NoArrivalSince(front, i);
    }
    if ListIsThisVisits(front, e.step) {
      var i: int :| LatestEntryAt(front, e.step, i) && NoArrivalSince(front, i);
      LatestIsEntry(front, e.step, i);
      EnteredStaysInFlight(w, front, i);
    }
  }

  lemma LatestIsEntry(events: seq<Event>, id: string, i: int)
    requires LatestEntryAt(events, id, i)
    ensures 0 <= i < |events| && IsEntry(events[i]) && events[i].step == id
  {}

  /** The three-way outcome of a join. */
  lemma {:induction false} SuccessesCount(i: Items, id: string, n: nat)
    ensures Successes(i, id, n) == n <==> forall k :: 0 <= k < n ==> Verdict(i, ItemRef(id, k)) == SUCCESS
    ensures Successes(i, id, n) == 0 <==> forall k :: 0 <= k < n ==> Verdict(i, ItemRef(id, k)) != SUCCESS
  {
    if n > 0 {
      SuccessesCount(i, id, n - 1);
    }
  }

  /** A foreach step leaves with items behind it only when none is awaited; its
      outcome counts the items whose own latest try reported success. */
  lemma ForeachLeavesSettled(w: Workflow, events: seq<Event>)
    requires |events| > 0 && Legal(w, events) && IsExit(Last(events)) && IsStep(w, Last(events).step)
    requires StepById(w, Last(events).step).value.kind.Foreach? && |Snapshot(Front(events), Last(events).step)| > 0
    requires Last(events).outcome != EXHAUSTED
    ensures var e, front := Last(events), Front(events);
            var n := |Snapshot(front, e.step)|;
            && NoItemPending(Fold(front).items, e.step)
            && (e.outcome == SUCCESS <==> forall k :: 0 <= k < n ==> Succeeded(front, ItemRef(e.step, k)))
            && (e.outcome == FAILURE <==> forall k :: 0 <= k < n ==> !Succeeded(front, ItemRef(e.step, k)))
            && (e.outcome == SUCCESS || e.outcome == FAILURE || e.outcome == PARTIAL)
  {
    hide Legal, CanAppend, Fold, CapsReached, Here, ResolveTarget, Snapshot, Verdict, Succeeded, Successes;
    LegalSplit(w, events);
    var e, front := Last(events), Front(events);
    RuleOf(w, front, e);
    var n := |Snapshot(front, e.step)|;
    SuccessesCount(Fold(front).items, e.step, n);
    forall k | 0 <= k < n
      ensures Verdict(Fold(front).items, ItemRef(e.step, k)) == SUCCESS <==> Succeeded(front, ItemRef(e.step, k))
    {
      VerdictIsOwn(front, ItemRef(e.step, k));
    }
    assert Verdict(Fold(front).items, ItemRef(e.step, 0)) == SUCCESS <==> Succeeded(front, ItemRef(e.step, 0));
  }

  lemma VerdictIsOwn(events: seq<Event>, ref: ItemRef)
    ensures Verdict(Fold(events).items, ref) == SUCCESS <==> Succeeded(events, ref)
  {
    hide Fold, TryHistory, Reported;
    ReplayKeepsHistory(events, ref);
    assert Interleaving.Find(Fold(events).items.outcome, ref) == Reported(TryHistory(events, ref));
  }

  predicate Succeeded(events: seq<Event>, ref: ItemRef) {
    Reported(TryHistory(events, ref)) == Some(SUCCESS)
  }

  /** Every item entered since the step's list was frozen has been resolved when
      the step leaves. */
  lemma EnteredItemIsResolved(events: seq<Event>, ref: ItemRef)
    requires StartsFresh(TryHistory(events, ref)) && ref !in Fold(events).items.pending
    ensures Reported(TryHistory(events, ref)).Some?
  {
    ReplayKeepsHistory(events, ref);
    EnteredThenReported(TryHistory(events, ref));
  }

  lemma {:induction false} EnteredThenReported(history: seq<Event>)
    requires StartsFresh(history) && !Unresolved(history)
    ensures Reported(history).Some?
  {
    if !Last(history).Transition? && |history| > 1 {
      assert Front(history)[0] == history[0];
      EnteredThenReported(Front(history));
    }
  }

  // ---- the parallel join ----------------------------------------------------------------

  /** What a branch last reported since its parallel step was last entered. */
  function BranchReport(events: seq<Event>, id: string, branch: string): Option<string> {
    if |events| == 0 then None
    else
      var e := Last(events);
      if IsEntry(e) && e.step == id then None
      else if IsBranchEvent(e) && e.Transition? && e.group == id && e.step == branch then Some(e.outcome)
      else BranchReport(Front(events), id, branch)
  }

  ghost predicate AwaitsBranch(w: Workflow, events: seq<Event>, r: BranchRef) {
    var c := CoreOf(events);
    && InFlight(c.place) && c.place.lastEnter.step == r.group && !c.ending.ended
    && StepById(w, r.group).Some? && StepById(w, r.group).value.kind.Parallel?
    && r.step in StepById(w, r.group).value.kind.branches
  }

  predicate InFlight(p: Place) {
    p.inFlight && p.haveEnter && !p.transitioned
  }

  lemma PendingBranchStep(w: Workflow, events: seq<Event>, r: BranchRef)
    requires |events| > 0 && CanAppend(w, Front(events), Last(events)) && r in Fold(events).branches.pending
    requires forall s :: s in Fold(Front(events)).branches.pending ==> AwaitsBranch(w, Front(events), s)
    requires CoreOf(Front(events)).place.inFlight ==> InFlight(CoreOf(Front(events)).place)
    ensures AwaitsBranch(w, events, r)
  {
    hide StepData, StepLedger, StepItems, Legal, CanAppend, CapsReached, LatestEntry, ListToFreeze;
    var front, e := Front(events), Last(events);
    RuleOf(w, front, e);
    if r in Fold(front).branches.pending {
      assert AwaitsBranch(w, front, r);
      assert CursorOf(CoreOf(front)).step == r.group;
    } else {
      assert (EnteredBranches(front, e.group) + [e.step])[|EnteredBranches(front, e.group)|] == e.step;
    }
  }

  /** A branch is only ever awaited while its parallel step is in flight. */
  lemma {:induction false} PendingBranchesAreHere(w: Workflow, events: seq<Event>)
    requires Legal(w, events)
    ensures forall r :: r in Fold(events).branches.pending ==> AwaitsBranch(w, events, r)
  {
    hide StepCore, Legal, CanAppend;
    if |events| > 0 {
      LegalSplit(w, events);
      PendingBranchesAreHere(w, Front(events));
      RunTheorems.BudgetMatches(Front(events));
      forall r | r in Fold(events).branches.pending
        ensures AwaitsBranch(w, events, r)
      {
        PendingBranchStep(w, events, r);
      }
    }
  }

  /** Entered in this visit of its parallel step, a branch is awaited or its
      recorded outcome is the one it reported in this visit. */
  predicate Accounted(events: seq<Event>, id: string, branch: string) {
    var b := Fold(events).branches;
    BranchRef(id, branch) in b.pending
    || (BranchReport(events, id, branch).Some?
        && Interleaving.Find(b.outcome, branch) == BranchReport(events, id, branch))
  }

  /** A step that is in flight after an event was in flight before it, or has
      just been entered; and only its own branches report meanwhile. */
  lemma StaysInFlight(w: Workflow, events: seq<Event>)
    requires |events| > 0 && CanAppend(w, Front(events), Last(events)) && InFlight(CoreOf(events).place)
    requires CoreOf(Front(events)).place.inFlight ==> InFlight(CoreOf(Front(events)).place)
    ensures var e, before, after := Last(events), CoreOf(Front(events)).place, CoreOf(events).place;
            && (IsEntry(e) ==> e.step == after.lastEnter.step)
            && (!IsEntry(e) ==> InFlight(before) && before.lastEnter.step == after.lastEnter.step)
            && (IsBranchEvent(e) ==> GroupOf(e) == after.lastEnter.step)
  {
    hide StepData, StepLedger, StepItems, StepBranches, Legal, CanAppend, MayEnter, MayWrite, MayJudge, MayLeave,
         MayAsk, MayEnd, MayEnterItem, MayReportItem, EnteredBranches, Fold;
    RuleOf(w, Front(events), Last(events));
    FoldOfLast(events);
  }

  lemma FoldOfLast(events: seq<Event>)
    requires |events| > 0
    ensures Fold(events) == Step(Fold(Front(events)), Last(events))
  {}

  lemma AccountedStep(events: seq<Event>, id: string, branch: string)
    requires |events| > 0 && branch in EnteredBranches(events, id)
    requires branch in EnteredBranches(Front(events), id) ==> Accounted(Front(events), id, branch)
    requires IsBranchEvent(Last(events)) ==> GroupOf(Last(events)) == id
    ensures Accounted(events, id, branch)
  {
    hide StepCore, StepItems, Fold;
    FoldOfLast(events);
  }

  lemma {:induction false} BranchesAccounted(w: Workflow, events: seq<Event>)
    requires Legal(w, events)
    ensures InFlight(CoreOf(events).place) ==>
              var id := CoreOf(events).place.lastEnter.step;
              forall b :: b in EnteredBranches(events, id) ==> Accounted(events, id, b)
  {
    hide StepCore, Legal, CanAppend, Accounted;
    if |events| > 0 && InFlight(CoreOf(events).place) {
      LegalSplit(w, events);
      BranchesAccounted(w, Front(events));
      RunTheorems.BudgetMatches(Front(events));
      StaysInFlight(w, events);
      var id := CoreOf(events).place.lastEnter.step;
      forall b | b in EnteredBranches(events, id)
        ensures Accounted(events, id, b)
      {
        AccountedStep(events, id, b);
      }
    }
  }

  /** An awaited branch was entered since its group was last entered, and so was any
      that has reported since. */
  lemma {:induction false} ReportedWereEntered(w: Workflow, events: seq<Event>, id: string)
    requires Legal(w, events)
    ensures forall r :: r in Fold(events).branches.pending && r.group == id ==> r.step in EnteredBranches(events, id)
    ensures forall b :: BranchReport(events, id, b).Some? ==> b in EnteredBranches(events, id)
  {
    hide StepCore, StepItems, Legal, CanAppend, Here, ListToFreeze, CapsReached;
    if |events| > 0 {
      LegalSplit(w, events);
      RuleOf(w, Front(events), Last(events));
      ReportedWereEntered(w, Front(events), id);
      if IsEntry(Last(events)) && Last(events).step == id {
        NoneAwaitedAtEntry(w, events);
      } else {
        forall r | r in Fold(events).branches.pending && r.group == id
          ensures r.step in EnteredBranches(events, id)
        {
          if r !in Fold(Front(events)).branches.pending {
            assert EnteredBranches(events, id) == EnteredBranches(Front(events), id) + [r.step];
          }
        }
      }
    }
  }

  lemma NoneAwaitedAtEntry(w: Workflow, events: seq<Event>)
    requires |events| > 0 && Legal(w, events) && IsEntry(Last(events))
    ensures NoBranchPending(Fold(events).branches, Last(events).step)
  {
    hide StepCore, StepItems, Legal, CanAppend, Fold, Here, ListToFreeze, CapsReached;
    LegalSplit(w, events);
    RuleOf(w, Front(events), Last(events));
    PendingBranchesAreHere(w, Front(events));
  }

  predicate AllReportedSuccess(events: seq<Event>, id: string, branches: seq<string>) {
    forall b :: b in branches ==> BranchReport(events, id, b) == Some(SUCCESS)
  }

  predicate AllEntered(events: seq<Event>, id: string, branches: seq<string>) {
    forall b :: b in branches ==> b in EnteredBranches(events, id)
  }

  /** What a branch last reported at all, in whatever visit. */
  function LastReport(events: seq<Event>, branch: string): Option<string> {
    if |events| == 0 then None
    else
      var e := Last(events);
      if IsBranchEvent(e) && e.Transition? && e.step == branch then Some(e.outcome) else LastReport(Front(events), branch)
  }

  /** The replay never forgets a branch's outcome. */
  lemma {:induction false} OutcomeIsLastReport(events: seq<Event>, branch: string)
    ensures Interleaving.Find(Fold(events).branches.outcome, branch) == LastReport(events, branch)
  {
    hide StepCore, StepItems;
    if |events| > 0 {
      OutcomeIsLastReport(Front(events), branch);
    }
  }

  predicate LastReportedSuccess(events: seq<Event>, branches: seq<string>) {
    forall b :: b in branches ==> LastReport(events, b) == Some(SUCCESS)
  }

  /** A parallel step's own transition is journaled only with no branch awaited, as a
      success if and only if the latest report of every branch is one, in whatever
      visit it was made. */
  lemma ParallelJoinsByLastReports(w: Workflow, events: seq<Event>)
    requires |events| > 0 && Legal(w, events) && IsExit(Last(events)) && IsStep(w, Last(events).step)
    requires StepById(w, Last(events).step).value.kind.Parallel? && Last(events).outcome != EXHAUSTED
    ensures var e, front := Last(events), Front(events);
            var branches := StepById(w, e.step).value.kind.branches;
            && NoBranchPending(Fold(front).branches, e.step)
            && (e.outcome == SUCCESS <==> LastReportedSuccess(front, branches))
  {
    hide Legal, CanAppend, Fold, CapsReached, LastReport, Here, ResolveTarget;
    LegalSplit(w, events);
    var e, front := Last(events), Front(events);
    RuleOf(w, front, e);
    var branches := StepById(w, e.step).value.kind.branches;
    var outcome := Fold(front).branches.outcome;
    assert SUCCESS[0] != FAILURE[0];
    forall k | 0 <= k < |branches|
      ensures Lookup(outcome, branches[k], "") == SUCCESS <==> LastReport(front, branches[k]) == Some(SUCCESS)
    {
      OutcomeIsLastReport(front, branches[k]);
      assert Interleaving.Find(outcome, branches[k])
          == if branches[k] in outcome then Some(outcome[branches[k]]) else None;
    }
    assert forall k :: 0 <= k < |branches| ==> branches[k] in branches;
  }

  /** A branch entered in this visit last reported in this visit. */
  lemma ThisVisitIsLatest(w: Workflow, events: seq<Event>, id: string, branch: string)
    requires Legal(w, events) && InFlight(CoreOf(events).place) && CoreOf(events).place.lastEnter.step == id
    requires NoBranchPending(Fold(events).branches, id) && branch in EnteredBranches(events, id)
    ensures LastReport(events, branch) == BranchReport(events, id, branch)
  {
    hide Fold, Legal, LastReport, BranchReport, EnteredBranches;
    BranchesAccounted(w, events);
    assert Accounted(events, id, branch);
    assert BranchRef(id, branch).group == id;
    OutcomeIsLastReport(events, branch);
  }

  /** So the outcome says whether every branch succeeded in this visit exactly when
      every branch was entered in this visit, or one of them has no success on record. */
  lemma ParallelJoinsAllOrNothing(w: Workflow, events: seq<Event>)
    requires |events| > 0 && Legal(w, events) && IsExit(Last(events)) && IsStep(w, Last(events).step)
    requires StepById(w, Last(events).step).value.kind.Parallel? && Last(events).outcome != EXHAUSTED
    ensures var e, front := Last(events), Front(events);
            var branches := StepById(w, e.step).value.kind.branches;
            (e.outcome == SUCCESS <==> AllReportedSuccess(front, e.step, branches))
            <==> (AllEntered(front, e.step, branches) || !LastReportedSuccess(front, branches))
  {
    hide Legal, CanAppend, Fold, CapsReached, LastReport, BranchReport, EnteredBranches, Here, ResolveTarget;
    LegalSplit(w, events);
    var e, front := Last(events), Front(events);
    RuleOf(w, front, e);
    var branches := StepById(w, e.step).value.kind.branches;
    LeavesInFlight(w, front, e);
    ParallelJoinsByLastReports(w, events);
    ReportedWereEntered(w, front, e.step);
    forall b | b in branches && b in EnteredBranches(front, e.step)
      ensures LastReport(front, b) == BranchReport(front, e.step, b)
    {
      ThisVisitIsLatest(w, front, e.step, b);
    }
  }

  lemma LeavesInFlight(w: Workflow, events: seq<Event>, e: Event)
    requires Running(events) && IsExit(e) && MayLeave(w, events, e) && CoreOf(events).place.inFlight
    ensures InFlight(CoreOf(events).place) && CoreOf(events).place.lastEnter.step == e.step
  {
    hide Fold, Justified;
    RunTheorems.BudgetMatches(events);
  }

  // ---- the summary of a failed group ----------------------------------------------------

  predicate IsFailureSummary(e: Event, id: string) {
    e.Postcondition? && e.group == "" && e.summary && !e.ok && e.step == id
  }

  lemma {:induction false} SummaryPersists(events: seq<Event>, i: nat, j: nat, id: string)
    requires i < j <= |events| && IsFailureSummary(events[i], id)
    requires forall k :: i < k < j ==> !(IsEntry(events[k]) && events[k].step == id)
    ensures Summarised(events[..j], id)
    decreases j
  {
    assert Front(events[..j]) == events[..j - 1] && Last(events[..j]) == events[j - 1];
    if i < j - 1 {
      SummaryPersists(events, i, j - 1, id);
    }
  }

  /** At most one failure summary per entry of a group, however often the join is
      re-entered after a crash: between two there is a new entry. */
  lemma OneSummaryPerEntry(w: Workflow, events: seq<Event>, i: nat, j: nat, id: string)
    requires Legal(w, events) && i < j < |events|
    requires IsFailureSummary(events[i], id) && IsFailureSummary(events[j], id)
    ensures exists k :: i < k < j && IsEntry(events[k]) && events[k].step == id
  {
    hide Fold, Legal, CanAppend, Summarised, Here;
    if forall k :: i < k < j ==> !(IsEntry(events[k]) && events[k].step == id) {
      SummaryPersists(events, i, j, id);
      RunTheorems.AppendedWasAllowed(w, events, j);
      RuleOf(w, events[..j], events[j]);
      assert false;
    }
  }

  // ---- grouped events -------------------------------------------------------------------

  /** A journal without any of its grouped events. */
  function Ungrouped(events: seq<Event>): seq<Event> {
    if |events| == 0 then []
    else if GroupOf(Last(events)) == "" then Ungrouped(Front(events)) + [Last(events)]
    else Ungrouped(Front(events))
  }

  /** Grouped writes always carry an item, so in a journal the engine writes the events
      of the run are exactly the ungrouped ones. */
  lemma {:induction false} GroupedWritesCarryAnItem(w: Workflow, events: seq<Event>)
    requires Legal(w, events)
    ensures forall k :: 0 <= k < |events| && events[k].Writes? && events[k].group != "" ==> events[k].item.Some?
    ensures Ungrouped(events) == Interleaving.Project(Interleaving.TheRun, events)
  {
    hide Legal, CanAppend, Fold;
    if |events| > 0 {
      LegalSplit(w, events);
      RuleOf(w, Front(events), Last(events));
      GroupedWritesCarryAnItem(w, Front(events));
      assert forall k :: 0 <= k < |events| - 1 ==> events[k] == Front(events)[k];
    }
  }

  /** Deleting every grouped event leaves cursor, visits, budgets, state, errors, end
      status and foreach lists as they are. */
  lemma GroupedEventsDoNotMoveTheRun(w: Workflow, events: seq<Event>)
    requires Legal(w, events)
    ensures CoreOf(Ungrouped(events)) == CoreOf(events)
    ensures StateOf(Ungrouped(events)).cursor == StateOf(events).cursor
  {
    hide Legal, Fold;
    GroupedWritesCarryAnItem(w, events);
    Interleaving.GroupedEventsAreConfined(events);
  }
}
