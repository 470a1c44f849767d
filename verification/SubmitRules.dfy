/**
  Resuming and submitting (internal/engine/engine.go, internal/engine/submit.go,
  internal/engine/human.go): what a RESUME leaves the run at, which submits the
  journal is waiting for, and why their appends are allowed.
 */
module SubmitRules {
  import opened Wrappers
  import opened JsonValues
  import opened Journal
  import opened Workflows
  import opened Protocol
  import opened EngineRules
  import RunTheorems
  import GroupTheorems

  // ---- resuming ---------------------------------------------------------------------

  /** A RESUME continues at the replayed cursor; of a blocked run it is an
      intervention, which restarts the step's attempts. */
  function ResumeEvent(c: Core): Event {
    var cur := CursorOf(c);
    Resume(cur.step, if Blocked(c) then 1 else cur.attempt, cur.key, if Blocked(c) then 0 else cur.hardRetry, Blocked(c))
  }

  lemma ResumeAllowed(w: Workflow, events: seq<Event>)
    requires !Terminal(CoreOf(events))
    ensures CanAppend(w, events, ResumeEvent(CoreOf(events)))
  {
    hide Fold, CursorOf;
  }

  /** A cursor with hard retries spent is that of a step in flight. */
  ghost predicate HardRetriesInFlight(p: Place) {
    p.haveEnter ==>
      p.lastEnter.hardRetry >= 0 && (!p.transitioned && p.lastEnter.hardRetry > 0 ==> p.inFlight)
  }

  lemma HardRetriesAreInFlight(w: Workflow, events: seq<Event>)
    requires Legal(w, events)
    ensures HardRetriesInFlight(CoreOf(events).place)
  {
    hide Fold, Legal, StepById;
    RunTheorems.TriesAreSane(w, events);
    RunTheorems.BudgetMatches(events);
  }

  /** What a RESUME leaves the run at: the step in flight again, or a step that
      was arrived at and never entered. */
  ghost predicate ResumedAt(w: Workflow, events: seq<Event>, step: StepDecl) {
    var p := CoreOf(events).place;
    && At(w, events, step) && Arrived(events) && p.haveEnter && !p.transitioned
    && Here(w, events) == p.lastEnter && p.lastEnter.hardRetry >= 0
    && (p.lastEnter.hardRetry == 0 || p.resumedInFlight == step.id)
    && (p.resumedInFlight == step.id ==> Entered(w, events, step))
    && (p.resumedInFlight != step.id ==> !p.inFlight)
  }

  lemma ResumedPlace(w: Workflow, before: seq<Event>, after: seq<Event>, step: StepDecl)
    requires Legal(w, before) && !Terminal(CoreOf(before)) && |after| > 0 && Front(after) == before
    requires Last(after) == ResumeEvent(CoreOf(before))
    requires StepById(w, step.id) == Some(step) && step.id == Last(after).step && step.id != ""
    ensures ResumedAt(w, after, step) && Here(w, after) == EnteredAs(Last(after))
    ensures Blocked(CoreOf(before)) ==> CoreOf(after).place.resumedInFlight == ""
    ensures CoreOf(after).place.resumedInFlight == step.id <==>
              !Blocked(CoreOf(before)) && GroupTheorems.InFlight(CoreOf(before).place)
    ensures Fold(after).items == Fold(before).items
  {
    hide StepData, StepLedger, Legal, StepById;
    GroupTheorems.FoldOfLast(after);
    HardRetriesAreInFlight(w, before);
    RunTheorems.BudgetMatches(before);
  }

  lemma ResumedEntered(w: Workflow, events: seq<Event>, step: StepDecl)
    requires ResumedAt(w, events, step)
    ensures At(w, events, step) && Arrived(events)
    ensures var p := CoreOf(events).place;
            && Here(w, events).hardRetry >= 0
            && (Here(w, events).hardRetry == 0 || p.resumedInFlight == step.id)
            && (p.resumedInFlight == step.id ==> Entered(w, events, step))
            && (p.resumedInFlight != step.id ==> !p.inFlight)
    ensures step.kind.Foreach? && step.id != "" ==> InForeach(w, events, step)
  {
    hide Fold, Here, Entered;
  }

  /** Resuming enters the step again, where it does not merely re-print a wait or go on
      with the members a group still awaits. */
  predicate EntersAnew(kind: Kind, inFlight: bool, intervention: bool) {
    match kind
    case Deterministic => true
    case Agentic => true
    case Waiting => intervention || !inFlight
    case Parallel(_) => intervention || !inFlight
    case Human => !inFlight
    case Foreach(_, _, _, _) => intervention
  }

  /** The run waits at a wait step it has entered. */
  predicate ParkedInFlight(w: Workflow, events: seq<Event>) {
    var c := CoreOf(events);
    !c.ending.ended && GroupTheorems.InFlight(c.place)
    && StepById(w, c.place.lastEnter.step).Some? && StepById(w, c.place.lastEnter.step).value.kind.Waiting?
  }

  lemma ParkedResumes(w: Workflow, before: seq<Event>, after: seq<Event>)
    requires ParkedInFlight(w, before) && |after| > 0 && Front(after) == before
    requires Last(after) == ResumeEvent(CoreOf(before))
    ensures !Last(after).intervention && CoreOf(after).place.resumedInFlight == Last(after).step
    ensures Last(after).step == CursorOf(CoreOf(before)).step && IsStep(w, Last(after).step)
    ensures StepById(w, Last(after).step).value.kind.Waiting? && !Terminal(CoreOf(before))
  {
    hide StepData, StepLedger, StepItems, StepBranches;
    GroupTheorems.FoldOfLast(after);
  }

  lemma NoItemOfBlocked(w: Workflow, events: seq<Event>, id: string)
    requires Legal(w, events) && Blocked(CoreOf(events))
    ensures NoItemPending(Fold(events).items, id)
  {
    hide Fold, Legal;
    GroupTheorems.PendingItemsAreHere(w, events);
  }

  /** The list the replay keeps for a foreach step is that of its latest entry,
      unless that entry froze none. */
  lemma {:induction false} ListIsKept(events: seq<Event>, id: string)
    ensures var entry := LatestEntry(events, id);
            entry.Some? && entry.value.items.Some? ==>
              Lookup(CoreOf(events).data.foreachItems, id, []) == entry.value.items.value
  {
    hide StepLedger, StepPlace, StepEnding, StepItems, StepBranches;
    if |events| > 0 {
      ListIsKept(Front(events), id);
    }
  }

  lemma ListIsSnapshot(events: seq<Event>, id: string)
    requires |Snapshot(events, id)| > 0
    ensures Lookup(CoreOf(events).data.foreachItems, id, []) == Snapshot(events, id)
  {
    hide Fold, LatestEntry;
    ListIsKept(events, id);
  }

  // ---- a human step's outstanding question --------------------------------------------

  /** A question for this attempt has been asked since the step was last entered. */
  predicate AskedSinceEnter(events: seq<Event>, id: string, attempt: int) {
    |events| > 0 &&
    var e := Last(events);
    if e.RunEnd? || (e.Resume? && e.intervention) then false
    else if IsExit(e) && e.step == id then false
    else if e.HumanAsked? && e.step == id && e.attempt == attempt then true
    else if IsEntry(e) && e.step == id then false
    else AskedSinceEnter(Front(events), id, attempt)
  }

  /** An answer was accepted for the latest question of this attempt. */
  predicate AnsweredSinceAsked(events: seq<Event>, id: string, attempt: int) {
    |events| > 0 &&
    var e := Last(events);
    if e.Writes? && e.step == id && e.attempt == attempt then true
    else if e.HumanAsked? && e.step == id && e.attempt == attempt then false
    else AnsweredSinceAsked(Front(events), id, attempt)
  }

  // ---- what a submit may answer ------------------------------------------------------

  /** What a submitted result comes to before its check: unusable, or writes. */
  datatype Submission = Unusable(text: string) | Usable(writes: map<string, Json>)

  datatype Answer = Invalid(text: string) | Chosen(outcome: string, write: Option<map<string, Json>>)

  /** The foreach step a step is the body of: the first declared one. */
  function OwnerIn(steps: seq<StepDecl>, body: string): Option<StepDecl> {
    if |steps| == 0 then None
    else if steps[0].kind.Foreach? && steps[0].kind.body == body then Some(steps[0])
    else OwnerIn(steps[1..], body)
  }

  /** The submit a journal is waiting for: the item of the foreach step the run is
      at, the step the run is at, or an outstanding branch of that step. */
  predicate Expects(w: Workflow, events: seq<Event>, id: string, attempt: int, item: Option<int>) {
    var a := Fold(events);
    var cur := CursorOf(a.core);
    var owner := OwnerIn(w.steps, id);
    StepById(w, id).Some? && StepById(w, id).value.kind.Agentic? &&
    if owner.Some? then
      item.Some? && cur.step == owner.value.id
      && 0 <= item.value < |Lookup(a.core.data.foreachItems, cur.step, [])|
      && ItemRef(cur.step, item.value) in a.items.pending
      && attempt == Lookup(a.items.attempt, ItemRef(cur.step, item.value), 0)
    else
      item.None? &&
      (|| (cur.step == id && cur.attempt == attempt)
       || (BranchRef(cur.step, id) in a.branches.pending && StepById(w, cur.step).Some?
           && StepById(w, cur.step).value.kind.Parallel?))
  }

  /** A dispatch that was handed out and still stands is the one submit the journal
      waits for, provided its step plays one role only. */
  lemma DispatchIsExpected(w: Workflow, events: seq<Event>, d: Dispatch)
    requires IsAwaited(w, events, DispatchOne(d)) && OwnerIn(w.steps, d.step).None?
    ensures Expects(w, events, d.step, d.attempt, None)
    ensures Legal(w, events) ==>
              forall id, attempt, item :: Expects(w, events, id, attempt, item) && OwnerIn(w.steps, id).None? ==>
                id == d.step && attempt == d.attempt && item.None?
  {
    hide Fold, Legal;
    forall id, attempt: int, item: Option<int> | Expects(w, events, id, attempt, item) && OwnerIn(w.steps, id).None?
                         && Legal(w, events)
      ensures id == d.step && attempt == d.attempt && item.None?
    {
      GroupTheorems.PendingBranchesAreHere(w, events);
    }
  }

  lemma BranchIsExpected(w: Workflow, events: seq<Event>, group: string, attempt: int, agentic: seq<Dispatch>, d: Dispatch)
    requires IsAwaited(w, events, DispatchMany(group, attempt, agentic)) && d in agentic && d.item.None?
    requires Legal(w, events) && OwnerIn(w.steps, d.step).None?
    requires StepById(w, d.step).Some? && StepById(w, d.step).value.kind.Agentic?
    ensures Expects(w, events, d.step, d.attempt, d.item)
  {
    hide Fold, Legal;
    assert MemberAwaited(w, events, group, d);
    GroupTheorems.PendingBranchesAreHere(w, events);
    assert GroupTheorems.AwaitsBranch(w, events, BranchRef(group, d.step));
  }

  lemma ItemIsExpected(w: Workflow, events: seq<Event>, group: string, attempt: int, agentic: seq<Dispatch>, d: Dispatch)
    requires IsAwaited(w, events, DispatchMany(group, attempt, agentic)) && d in agentic && d.item.Some?
    requires Legal(w, events) && OwnerIn(w.steps, d.step).Some? && OwnerIn(w.steps, d.step).value.id == group
    requires StepById(w, d.step).Some? && StepById(w, d.step).value.kind.Agentic?
    ensures Expects(w, events, d.step, d.attempt, d.item)
  {
    hide Fold, Legal, LatestEntry, Snapshot;
    assert MemberAwaited(w, events, group, d);
    GroupTheorems.PendingItemsAreHere(w, events);
    assert GroupTheorems.AwaitsItem(w, events, ItemRef(group, d.item.value));
    ListIsSnapshot(events, group);
  }

  // ---- why each append of a submit is allowed -------------------------------------------

  /** A named cursor is where the run is. */
  lemma CursorIsHere(w: Workflow, events: seq<Event>, step: StepDecl)
    requires Running(events) && CursorOf(CoreOf(events)).step == step.id && step.id != ""
    requires StepById(w, step.id) == Some(step)
    ensures Here(w, events) == CursorOf(CoreOf(events)) && At(w, events, step)
    ensures CoreOf(events).place.haveEnter || CoreOf(events).place.transitioned
  {
    hide Fold;
  }

  function StepWrites(step: StepDecl, attempt: int, writes: map<string, Json>): Event {
    Writes(step.id, attempt, writes, "", None)
  }

  lemma StepWritesAllowed(w: Workflow, events: seq<Event>, step: StepDecl, writes: map<string, Json>)
    requires At(w, events, step) && (step.kind.Agentic? || step.kind.Waiting? || step.kind.Human?)
    ensures CanAppend(w, events, StepWrites(step, Here(w, events).attempt, writes))
  {
    hide Fold, Here;
  }

  lemma AgenticRetryAllowed(w: Workflow, events: seq<Event>, step: StepDecl, key: string, next: int)
    requires At(w, events, step) && step.kind.Agentic? && !CapsReached(w, CoreOf(events), step)
    requires exists check: Check :: !check.ok && Last(events) == Judged(step, Here(w, events).attempt, key, check, Plain)
    requires next == NextTry(Here(w, events).attempt,
                             Lookup(CoreOf(events).ledger.attempts, AttemptRef(step.id, key), 0))
    requires next <= step.attempts && (step.keyed ==> key == Here(w, events).key)
    ensures CanAppend(w, events, Entry(step, next, key, true, 0))
  {
    hide Fold, LatestEntry, CapsReached, Here;
  }

  /** An awaited branch is one of the step's own, and the step is entered. */
  lemma AwaitedBranchPlace(w: Workflow, events: seq<Event>, step: StepDecl, branch: string)
    requires Legal(w, events) && BranchRef(step.id, branch) in Fold(events).branches.pending
    requires StepById(w, step.id) == Some(step)
    ensures Entered(w, events, step) && step.kind.Parallel? && branch in step.kind.branches
    ensures CursorOf(CoreOf(events)).step == step.id
  {
    hide Fold, Legal;
    GroupTheorems.PendingBranchesAreHere(w, events);
    assert GroupTheorems.AwaitsBranch(w, events, BranchRef(step.id, branch));
    assert Running(events) by { RunningWhenEntered(events); }
  }

  lemma RunningWhenEntered(events: seq<Event>)
    requires CoreOf(events).place.haveEnter && !CoreOf(events).ending.ended
    ensures Running(events)
  {}

  lemma AwaitedItemPlace(w: Workflow, events: seq<Event>, step: StepDecl, body: StepDecl, ref: ItemRef)
    requires Legal(w, events) && ref in Fold(events).items.pending && ref.group == step.id && step.id != ""
    requires StepById(w, step.id) == Some(step) && step.kind.Foreach? && step.kind.body == body.id
    requires StepById(w, body.id) == Some(body)
    ensures Iterating(w, events, step, body, ref) && ref !in Fold(events).items.outcome
    ensures AllHandedOut(w, events) ==> HandedOut(w, events, step.id)
    ensures Lookup(CoreOf(events).data.foreachItems, step.id, []) == Snapshot(events, step.id)
    ensures Lookup(Fold(events).items.attempt, ref, 0) >= 1
  {
    hide Fold, Legal, LatestEntry, Snapshot;
    GroupTheorems.PendingItemsAreHere(w, events);
    GroupTheorems.PendingAndResolvedAreDisjoint(w, events);
    assert GroupTheorems.AwaitsItem(w, events, ref);
    assert Running(events) by { RunningWhenEntered(events); }
    ListIsSnapshot(events, step.id);
    AwaitedItemWasTried(w, events);
  }

  /** Every awaited item has an attempt on record, counted from 1. */
  lemma {:induction false} AwaitedItemWasTried(w: Workflow, events: seq<Event>)
    requires Legal(w, events)
    ensures var i := Fold(events).items;
            (forall r :: r in i.pending ==> r in i.attempt) && (forall r :: r in i.attempt ==> i.attempt[r] >= 1)
  {
    hide StepCore, StepBranches, Legal, CanAppend, AtForeach, Snapshot, LatestEntry;
    if |events| > 0 {
      LegalSplit(w, events);
      AwaitedItemWasTried(w, Front(events));
      RuleOf(w, Front(events), Last(events));
    }
  }

  // ---- starting -----------------------------------------------------------------------

  lemma StartAllowed(w: Workflow, format: int, enforcement: string, args: map<string, Json>)
    ensures CanAppend(w, [], RunStart(format, enforcement, args))
  {}

  lemma StartArrives(w: Workflow, events: seq<Event>)
    requires |events| == 1 && events[0].RunStart?
    ensures Arriving(w, events, w.start)
  {
    assert Front(events) == [];
    assert Fold([]) == INIT;
    GroupTheorems.FoldOfLast(events);
  }

  // ---- resuming a group -------------------------------------------------------------------

  /** The dispatch stands for one of the first branches, still awaited. */
  ghost predicate AwaitedAgain(b: Branches, step: StepDecl, d: Dispatch, bound: int)
    requires step.kind.Parallel? && 0 <= bound <= |step.kind.branches|
  {
    d.item.None? && d.interrupted && d.step in step.kind.branches[..bound] && BranchRef(step.id, d.step) in b.pending
  }

  /** Each of the first branches that is still awaited is among the dispatches. */
  ghost predicate AllAgain(b: Branches, step: StepDecl, ds: seq<Dispatch>, bound: int)
    requires step.kind.Parallel? && 0 <= bound <= |step.kind.branches|
  {
    forall id :: id in step.kind.branches[..bound] && BranchRef(step.id, id) in b.pending ==>
      HandsOutBranch(ds, BranchRef(step.id, id))
  }

  lemma OtherBranchesStand(w: Workflow, before: Branches, after: Branches, step: StepDecl, ds: seq<Dispatch>, i: int)
    requires Sound(w) && StepById(w, step.id) == Some(step) && step.kind.Parallel? && 0 <= i < |step.kind.branches|
    requires after.pending == before.pending
             || after.pending == before.pending - {BranchRef(step.id, step.kind.branches[i])}
    requires forall d :: d in ds ==> AwaitedAgain(before, step, d, i)
    ensures forall d :: d in ds ==> AwaitedAgain(after, step, d, i)
    ensures AllAgain(before, step, ds, i) ==> AllAgain(after, step, ds, i)
  {
    forall d | d in ds
      ensures AwaitedAgain(after, step, d, i)
    {
      assert AwaitedAgain(before, step, d, i);
      assert step.kind.branches[i] !in step.kind.branches[..i];
    }
  }

  /** The next branch is handed out again, or is not awaited. */
  lemma OneMoreAgain(b: Branches, step: StepDecl, ds: seq<Dispatch>, more: seq<Dispatch>, i: int)
    requires step.kind.Parallel? && 0 <= i < |step.kind.branches|
    requires AllAgain(b, step, ds, i) && forall d :: d in ds ==> AwaitedAgain(b, step, d, i) && d in more
    requires forall d :: d in more ==> d in ds || (d.item.None? && d.interrupted && d.step == step.kind.branches[i])
    requires BranchRef(step.id, step.kind.branches[i]) in b.pending <==>
               exists d :: d in more && d.item.None? && d.step == step.kind.branches[i]
    ensures AllAgain(b, step, more, i + 1) && forall d :: d in more ==> AwaitedAgain(b, step, d, i + 1)
  {
    forall id | id in step.kind.branches[..i + 1] && BranchRef(step.id, id) in b.pending
      ensures HandsOutBranch(more, BranchRef(step.id, id))
    {
      if id != step.kind.branches[i] {
        assert id in step.kind.branches[..i];
        assert HandsOutBranch(ds, BranchRef(step.id, id));
      }
    }
    forall d | d in more
      ensures AwaitedAgain(b, step, d, i + 1)
    {
      if d in ds {
        assert AwaitedAgain(b, step, d, i);
      }
    }
  }

  /** Once every branch has been passed, the dispatches are exactly the awaited ones. */
  lemma AllAgainIsHanded(w: Workflow, events: seq<Event>, step: StepDecl, ds: seq<Dispatch>)
    requires Legal(w, events) && StepById(w, step.id) == Some(step) && step.kind.Parallel?
    requires AllAgain(Fold(events).branches, step, ds, |step.kind.branches|)
    requires forall d :: d in ds ==> AwaitedAgain(Fold(events).branches, step, d, |step.kind.branches|)
    ensures Handed(Fold(events).branches, step.id, ds)
    ensures |ds| == 0 <==> NoBranchPending(Fold(events).branches, step.id)
    ensures forall d :: d in ds ==> d.interrupted
  {
    hide Fold, Legal;
    GroupTheorems.PendingBranchesAreHere(w, events);
    assert step.kind.branches[..|step.kind.branches|] == step.kind.branches;
    if |ds| > 0 {
      assert AwaitedAgain(Fold(events).branches, step, ds[0], |step.kind.branches|);
    }
    forall r | r in Fold(events).branches.pending && r.group == step.id
      ensures HandsOutBranch(ds, r)
    {
      assert GroupTheorems.AwaitsBranch(w, events, r);
      assert r == BranchRef(step.id, r.step);
    }
  }

  /** Exactly the awaited branches of a group, handed out together. */
  lemma GroupStands(w: Workflow, events: seq<Event>, step: StepDecl, ds: seq<Dispatch>)
    requires Legal(w, events) && Entered(w, events, step) && step.kind.Parallel? && |ds| > 0
    requires Handed(Fold(events).branches, step.id, ds)
    ensures Stands(w, events, DispatchMany(step.id, Here(w, events).attempt, ds))
  {
    hide Fold, Here, Legal, LatestEntry;
    EnteredCursor(w, events, step);
    GroupTheorems.PendingItemsAreHere(w, events);
    forall r | r in Fold(events).items.pending
      ensures r.group != step.id
    {
      assert GroupTheorems.AwaitsItem(w, events, r);
    }
  }

  /** Every awaited item of a foreach step, or one of them alone, handed out. */
  lemma ItemsHandedStand(w: Workflow, events: seq<Event>, step: StepDecl, ds: seq<Dispatch>)
    requires Legal(w, events) && InForeach(w, events, step) && |ds| > 0
    requires forall d :: d in ds ==> d.item.Some? && MemberAwaited(w, events, step.id, d)
    requires |ds| == 1 || forall r :: r in Fold(events).items.pending && r.group == step.id ==> HandsOutItem(ds, r)
    ensures var instruction := DispatchMany(step.id, Here(w, events).attempt, ds);
            IsAwaited(w, events, instruction) && (HandedOut(w, events, step.id) ==> Stands(w, events, instruction))
  {
    hide Fold, Here, Legal, LatestEntry, Snapshot, HandedOut;
    InForeachCursor(w, events, step);
    GroupTheorems.PendingBranchesAreHere(w, events);
    forall r | r in Fold(events).branches.pending
      ensures r.group != step.id
    {
      assert GroupTheorems.AwaitsBranch(w, events, r);
    }
  }

  lemma AllItemsStand(w: Workflow, events: seq<Event>, step: StepDecl, ds: seq<Dispatch>)
    requires Legal(w, events) && InForeach(w, events, step) && |ds| > 0
    requires var n := |Snapshot(events, step.id)|;
             && Covered(Fold(events).items, step.id, n) && AllItemsHanded(Fold(events).items, step.id, ds, n)
             && forall d :: d in ds ==> HandedItem(Fold(events).items, step.id, d, n)
    ensures Stands(w, events, DispatchMany(step.id, Here(w, events).attempt, ds))
    ensures !AllResolved(Fold(events).items, step.id, |Snapshot(events, step.id)|)
  {
    hide Fold, Here, Legal, LatestEntry, Snapshot, Stands, InForeach;
    GroupTheorems.PendingItemsAreHere(w, events);
    GroupTheorems.PendingAndResolvedAreDisjoint(w, events);
    assert HandedItem(Fold(events).items, step.id, ds[0], |Snapshot(events, step.id)|);
    assert !Resolved(Fold(events).items, step.id, ds[0].item.value);
    forall r | r in Fold(events).items.pending && r.group == step.id
      ensures HandsOutItem(ds, r)
    {
      assert GroupTheorems.AwaitsItem(w, events, r);
      assert r == ItemRef(step.id, r.index);
    }
    forall d | d in ds
      ensures d.item.Some? && MemberAwaited(w, events, step.id, d)
    {
      assert HandedItem(Fold(events).items, step.id, d, |Snapshot(events, step.id)|);
    }
    ItemsHandedStand(w, events, step, ds);
  }

  // ---- submitting -------------------------------------------------------------------------

  lemma {:induction false} OwnerInFinds(steps: seq<StepDecl>, body: string)
    ensures OwnerIn(steps, body).Some? ==>
              var owner := OwnerIn(steps, body).value;
              owner in steps && owner.kind.Foreach? && owner.kind.body == body
  {
    if |steps| > 0 {
      OwnerInFinds(steps[1..], body);
    }
  }

  lemma OwnerIsForeach(w: Workflow, body: string)
    requires OwnerIn(w.steps, body).Some? && Sound(w)
    ensures var owner := OwnerIn(w.steps, body).value;
            StepById(w, owner.id) == Some(owner) && owner.kind.Foreach? && owner.kind.body == body && owner.id != ""
  {
    OwnerInFinds(w.steps, body);
  }

  lemma SoundIds(w: Workflow, step: StepDecl)
    requires Sound(w) && StepById(w, step.id) == Some(step)
    ensures step.id != ""
  {}

  lemma AtMeansRunning(w: Workflow, events: seq<Event>, step: StepDecl)
    requires At(w, events, step)
    ensures Running(events) && StepById(w, step.id) == Some(step)
  {
    hide Fold, Here;
  }

  /** A journal whose cursor names a step, and that is not over, is running. */
  lemma NamedCursorRuns(w: Workflow, events: seq<Event>, step: StepDecl)
    requires !Terminal(CoreOf(events)) && !Blocked(CoreOf(events)) && Sound(w)
    requires StepById(w, step.id) == Some(step) && CursorOf(CoreOf(events)).step == step.id
    ensures Running(events) && step.id != ""
  {}

  lemma BranchStands(w: Workflow, events: seq<Event>, group: StepDecl, branch: string)
    requires Entered(w, events, group) && AwaitedBranches(Fold(events).branches, group.id) != {}
    ensures Stands(w, events, BranchRecorded(group.id, branch, AwaitedBranches(Fold(events).branches, group.id)))
  {
    hide Fold, Here;
  }

  ghost predicate AwaitsAnother(b: Branches, group: string, branch: string) {
    exists s :: s in b.pending && s.group == group && s.step != branch
  }

  lemma NoneRemaining(b: Branches, group: string)
    requires AwaitedBranches(b, group) == {}
    ensures NoBranchPending(b, group)
  {
    forall r | r in b.pending
      ensures r.group != group
    {
      assert r.group == group ==> r.step in AwaitedBranches(b, group);
    }
  }

  lemma RemainingIsAnother(b: Branches, c: Branches, group: string, branch: string)
    requires c.pending == b.pending - {BranchRef(group, branch)}
    ensures AwaitedBranches(c, group) != {} <==> AwaitsAnother(b, group, branch)
  {
    if AwaitsAnother(b, group, branch) {
      var s :| s in b.pending && s.group == group && s.step != branch;
      assert s.step in AwaitedBranches(c, group);
    }
    if AwaitedBranches(c, group) != {} {
      var id :| id in AwaitedBranches(c, group);
      assert BranchRef(group, id) in c.pending;
    }
  }

  predicate AwaitsAnswer(w: Workflow, events: seq<Event>, id: string, attempt: int) {
    var cur := CursorOf(CoreOf(events));
    cur.step == id && cur.attempt == attempt && StepById(w, id).Some? && StepById(w, id).value.kind.Human?
  }

  /** Whatever is awaited of a foreach step, all of its items were handed out: the
      call that hands them out returned. */
  ghost predicate AllHandedOut(w: Workflow, events: seq<Event>) {
    forall r :: r in Fold(events).items.pending ==> HandedOut(w, events, r.group)
  }

  /** Any instruction that stands came of a call that handed out every item. */
  lemma StandingIsHandedOut(w: Workflow, events: seq<Event>, instruction: Instruction)
    requires Legal(w, events) && Stands(w, events, instruction)
    ensures AllHandedOut(w, events)
  {
    hide Fold, Legal, Snapshot, LatestEntry, HandedOut;
    GroupTheorems.PendingItemsAreHere(w, events);
    GroupTheorems.PendingBranchesAreHere(w, events);
    if instruction.ItemRecorded? {
      var k :| k in instruction.awaited;
      var s :| s in Fold(events).items.pending && s.group == instruction.group && s.index == k;
      assert GroupTheorems.AwaitsItem(w, events, s);
    }
    if instruction.BranchRecorded? {
      var k :| k in instruction.remaining;
      var s :| s in Fold(events).branches.pending && s.group == instruction.group && s.step == k;
      assert GroupTheorems.AwaitsBranch(w, events, s);
    }
    forall r | r in Fold(events).items.pending
      ensures HandedOut(w, events, r.group)
    {
      assert GroupTheorems.AwaitsItem(w, events, r);
    }
  }

  /** An item's own events leave every item handed out. */
  lemma StillHandedOut(w: Workflow, before: seq<Event>, after: seq<Event>, id: string)
    requires Snapshot(after, id) == Snapshot(before, id)
    requires var i, j := Fold(before).items, Fold(after).items;
             forall r :: r in i.pending || r in i.outcome ==> r in j.pending || r in j.outcome
    ensures HandedOut(w, before, id) ==> HandedOut(w, after, id)
  {
    hide Fold, Snapshot;
  }

  // ---- an item's report -----------------------------------------------------------------

  /** The item is awaited at this attempt of an agentic body. */
  ghost predicate AwaitedItem(w: Workflow, events: seq<Event>, step: StepDecl, body: StepDecl, ref: ItemRef, attempt: int) {
    var i := Fold(events).items;
    Iterating(w, events, step, body, ref) && body.kind.Agentic? && ref in i.pending && ref !in i.outcome
    && attempt == Lookup(i.attempt, ref, 0) && attempt >= 1
  }

  /** Nothing but this item's own events was appended. */
  ghost predicate OnlyItem(before: seq<Event>, after: seq<Event>, ref: ItemRef) {
    before <= after && forall k :: |before| <= k < |after| ==> IsItemEvent(after[k]) && RefOf(after[k]) == ref
  }

  lemma OnlyItemOn(a: seq<Event>, b: seq<Event>, c: seq<Event>, ref: ItemRef)
    requires OnlyItem(a, b, ref) && OnlyItem(b, c, ref)
    ensures OnlyItem(a, c, ref)
  {
    forall k | |a| <= k < |c|
      ensures IsItemEvent(c[k]) && RefOf(c[k]) == ref
    {
      if k < |b| {
        assert c[k] == b[k];
      }
    }
  }

  ghost predicate AwaitsSibling(i: Items, ref: ItemRef) {
    exists s :: s in i.pending && s.group == ref.group && s != ref
  }

  /** The next try of an item after a failed check: numbered above both the attempt just
      used and the item's own budget under the failure's key. */
  function NextItemEntry(i: Items, body: StepDecl, ref: ItemRef, attempt: int, key: string): (again: Event)
    ensures again.StepEnter? && again == ItemEntry(ref, body.id, again.attempt, key, true, 0)
    ensures var budget := Lookup(Lookup(i.keyAttempts, ref, map[]), key, 0);
            again.attempt == 1 + (if attempt < budget then budget else attempt)
  {
    ItemEntry(ref, body.id, NextTry(attempt, Lookup(Lookup(i.keyAttempts, ref, map[]), key, 0)), key, true, 0)
  }

  lemma AwaitedItemIterates(w: Workflow, events: seq<Event>, step: StepDecl, body: StepDecl, ref: ItemRef, attempt: int)
    requires AwaitedItem(w, events, step, body, ref, attempt)
    ensures Iterating(w, events, step, body, ref) && Running(events) && ref in Fold(events).items.pending
    ensures ref.group == step.id && ref.group != ""
  {
    hide Fold, Here, Snapshot;
  }

  lemma ItemRetryAllowed(w: Workflow, events: seq<Event>, step: StepDecl, body: StepDecl, ref: ItemRef, attempt: int,
                         key: string, check: Check)
    requires AwaitedItem(w, events, step, body, ref, attempt) && !check.ok && |events| > 0
    requires Last(events) == Judged(body, attempt, key, check, InItem(ref))
    ensures var again := NextItemEntry(Fold(events).items, body, ref, attempt, key);
            && (CanAppend(w, events, again) <==> again.attempt <= body.attempts && again.attempt <= step.maxVisits)
            && again.attempt == NextTry(attempt, Lookup(Lookup(Fold(events).items.keyAttempts, ref, map[]), key, 0))
  {
    hide Fold, Here, Snapshot, Iterating;
    AwaitedItemIterates(w, events, step, body, ref, attempt);
    var again := NextItemEntry(Fold(events).items, body, ref, attempt, key);
    if again.attempt <= body.attempts && again.attempt <= step.maxVisits {
      RetriedItemAllowed(w, events, step, body, ref, key, again.attempt);
    } else {
      SpentItemIsNotEntered(w, events, step, body, ref, attempt, again);
    }
  }

  lemma SpentItemIsNotEntered(w: Workflow, events: seq<Event>, step: StepDecl, body: StepDecl, ref: ItemRef, attempt: int,
                              again: Event)
    requires AwaitedItem(w, events, step, body, ref, attempt)
    requires again.StepEnter? && again == ItemEntry(ref, body.id, again.attempt, again.key, true, 0)
    requires again.attempt > attempt
    requires again.attempt > body.attempts || again.attempt > step.maxVisits
    ensures !CanAppend(w, events, again)
  {
    hide Fold, Here, Snapshot;
  }

  lemma NoItemRemaining(i: Items, group: string)
    requires AwaitedItems(i, group) == {}
    ensures NoItemPending(i, group)
  {
    forall r | r in i.pending
      ensures r.group != group
    {
      assert r.group == group ==> r.index in AwaitedItems(i, group);
    }
  }

  lemma SiblingRemains(i: Items, j: Items, ref: ItemRef)
    requires AwaitsSibling(i, ref) && j.pending == i.pending - {ref}
    ensures AwaitedItems(j, ref.group) != {}
  {
    var s :| s in i.pending && s.group == ref.group && s != ref;
    assert s.index in AwaitedItems(j, ref.group);
  }

  lemma NoSiblingRemains(i: Items, j: Items, ref: ItemRef)
    requires !AwaitsSibling(i, ref) && j.pending == i.pending - {ref}
    ensures AwaitedItems(j, ref.group) == {}
  {}

  lemma ItemsStand(w: Workflow, events: seq<Event>, step: StepDecl, body: StepDecl, ref: ItemRef)
    requires Iterating(w, events, step, body, ref) && AwaitedItems(Fold(events).items, step.id) != {}
    ensures var instruction := ItemRecorded(step.id, ref.index, AwaitedItems(Fold(events).items, step.id));
            IsAwaited(w, events, instruction) && (HandedOut(w, events, step.id) ==> Stands(w, events, instruction))
  {
    hide Fold, Here, Snapshot;
  }

  lemma RetriedStands(w: Workflow, events: seq<Event>, step: StepDecl, body: StepDecl, ref: ItemRef, d: Dispatch)
    requires Legal(w, events)
    requires Iterating(w, events, step, body, ref) && ref in Fold(events).items.pending && d.item == Some(ref.index)
    requires Lookup(Fold(events).items.attempt, ref, 0) == d.attempt
    ensures var instruction := DispatchMany(step.id, Here(w, events).attempt, [d]);
            IsAwaited(w, events, instruction) && (HandedOut(w, events, step.id) ==> Stands(w, events, instruction))
  {
    hide Fold, Here, Snapshot, Legal, Stands, IsAwaited, HandedOut, InForeach;
    assert ItemRef(step.id, d.item.value) == ref;
    ItemsHandedStand(w, events, step, [d]);
  }

  lemma IteratingList(w: Workflow, events: seq<Event>, step: StepDecl, body: StepDecl, ref: ItemRef)
    requires Iterating(w, events, step, body, ref)
    ensures InForeach(w, events, step) && |Snapshot(events, step.id)| > 0
    ensures Lookup(CoreOf(events).data.foreachItems, step.id, []) == Snapshot(events, step.id)
  {
    hide Fold, Here, Snapshot;
    ListIsSnapshot(events, step.id);
  }

  // ---- what a submitted result comes to ---------------------------------------------------

  /** The check a result is judged by, once its writes are journaled: a result that
      cannot be used fails with its own text, and one of an unchecked step passes. */
  predicate JudgedBy(env: Environment, step: StepDecl, submission: Submission, written: seq<Event>, check: Check) {
    if submission.Unusable? then check == Check(false, submission.text)
    else if step.checked then env.check(written, step.id) == Some(check)
    else check == Check(true, "")
  }

  /** The events that journal what a result writes; an empty result writes nothing. */
  function ResultWrites(step: StepDecl, attempt: int, scope: Scope, submission: Submission): seq<Event> {
    if submission.Usable? && |submission.writes| > 0 then
      [if scope.Plain? then StepWrites(step, attempt, submission.writes)
       else Written(step, attempt, submission.writes, scope)]
    else []
  }

  /** The verdict of a step that is checked. */
  function Verdicts(w: Workflow, before: seq<Event>, step: StepDecl, check: Check): seq<Event> {
    var here := Here(w, before);
    if step.checked then [Judged(step, here.attempt, here.key, check, Plain)] else []
  }

  /** What a result writes moves neither the run nor its counters. */
  lemma WritesReported(w: Workflow, before: seq<Event>, written: seq<Event>, step: StepDecl, submission: Submission)
    requires written == before + ResultWrites(step, Here(w, before).attempt, Plain, submission)
    ensures Here(w, written) == Here(w, before)
  {
    hide Fold, Here, LatestEntry;
    ReportsKeep(w, before, written, step.id);
  }

  /** A result for the step the run is at: its writes first, then the verdict of a step that
      is checked and the success route, or what a failed check leads to. */
  ghost predicate StepApplied(w: Workflow, env: Environment, hash: string -> Key, before: seq<Event>, after: seq<Event>,
                              step: StepDecl, submission: Submission, check: Check)
  {
    var cur := Here(w, before);
    var written := before + ResultWrites(step, cur.attempt, Plain, submission);
    JudgedBy(env, step, submission, written, check) && written <= after &&
    if check.ok then LeftBy(w, env, written + Verdicts(w, before, step, check), after, step, SUCCESS, true)
    else RetriedOrLeft(w, env, written, after, step, cur.attempt, FailureKey(hash, step, cur, check), check)
  }

  /** A branch's report: its writes, its verdict, and its own transition. */
  function BranchReported(group: StepDecl, branch: StepDecl, attempt: int, submission: Submission, check: Check): seq<Event> {
    ResultWrites(branch, attempt, InBranch(group.id), submission)
    + (if check.ok && !branch.checked then [] else [Judged(branch, attempt, "", check, InBranch(group.id))])
    + [BranchTransition(group.id, branch.id, attempt, if check.ok then SUCCESS else FAILURE)]
  }

  /** What a group that is done journals of itself: a failed one its summary, unless this
      entry has one, a passing one its pass if an error was left behind. */
  function GroupSummary(w: Workflow, before: seq<Event>, group: StepDecl): seq<Event>
    requires group.kind.Parallel?
  {
    var b, attempt := Fold(before).branches, Here(w, before).attempt;
    if GroupOutcome(b, group.kind.branches) == SUCCESS then
      if CoreOf(before).data.lastError != "" then [SummaryOf(group, attempt, Check(true, ""))] else []
    else if Summarised(before, group.id) then []
    else [SummaryOf(group, attempt, Check(false, SummaryText(group.kind.branches, b, BranchTexts(before, group.id))))]
  }

  /** And its exit: success exactly if every branch is recorded as one. */
  ghost predicate GroupLeft(w: Workflow, env: Environment, before: seq<Event>, after: seq<Event>, group: StepDecl)
    requires group.kind.Parallel?
  {
    LeftBy(w, env, before + GroupSummary(w, before, group), after, group,
           GroupOutcome(Fold(before).branches, group.kind.branches), true)
  }

  /** A result for an awaited branch: its report, and once no sibling is awaited the
      group's own outcome. */
  ghost predicate BranchApplied(w: Workflow, env: Environment, before: seq<Event>, after: seq<Event>, group: StepDecl,
                                branch: StepDecl, attempt: int, submission: Submission, check: Check)
    requires group.kind.Parallel?
  {
    var written := before + ResultWrites(branch, attempt, InBranch(group.id), submission);
    var reported := before + BranchReported(group, branch, attempt, submission, check);
    JudgedBy(env, branch, submission, written, check) && reported <= after &&
    if AwaitsAnother(Fold(before).branches, group.id, branch.id) then after == reported
    else GroupLeft(w, env, reported, after, group)
  }

  /** An item is resolved: its verdict, if it has one to journal, and its transition;
      and once no sibling is awaited, the join of them all. */
  ghost predicate ItemResolvedBy(w: Workflow, env: Environment, before: seq<Event>, after: seq<Event>, step: StepDecl,
                                 body: StepDecl, ref: ItemRef, attempt: int, check: Option<Check>, outcome: string)
    requires step.kind.Foreach?
  {
    var resolved := before + ItemReport(body, ref, attempt, check, outcome);
    resolved <= after &&
    if AwaitsSibling(Fold(before).items, ref) then after == resolved else JoinedBy(w, env, resolved, after, step)
  }

  function ItemReport(body: StepDecl, ref: ItemRef, attempt: int, check: Option<Check>, outcome: string): seq<Event> {
    (if check.Some? then [Judged(body, attempt, "", check.value, InItem(ref))] else [])
    + [ItemTransition(ref, body.id, attempt, outcome)]
  }

  /** The collected list is journaled first, and the step leaves by its outcome. */
  ghost predicate JoinedBy(w: Workflow, env: Environment, before: seq<Event>, after: seq<Event>, step: StepDecl)
    requires step.kind.Foreach?
  {
    var items := Snapshot(before, step.id);
    LeftBy(w, env, before + [CollectEvent(step, Here(w, before).attempt, JoinList(before, step.id, items))], after, step,
           JoinOutcome(Fold(before).items, step.id, |items|), true)
  }

  /** A list that cannot be run: why, an empty list, and the exit. */
  ghost predicate RefusedBy(w: Workflow, env: Environment, before: seq<Event>, after: seq<Event>, step: StepDecl,
                            outcome: string, text: string)
    requires step.kind.Foreach?
  {
    var attempt := Here(w, before).attempt;
    LeftBy(w, env, before + [Judged(step, attempt, "", Check(false, text), Plain), CollectEvent(step, attempt, [])], after,
           step, outcome, true)
  }

  /** An item fails its check: its verdict under its key, and then the next try exactly if
      it is within the body's attempts and may be entered. Otherwise, past its attempts or
      the step's max_visits, it is resolved as failed. */
  ghost predicate ItemFailedBy(w: Workflow, env: Environment, hash: string -> Key, before: seq<Event>, after: seq<Event>,
                               step: StepDecl, body: StepDecl, ref: ItemRef, attempt: int, check: Check)
    requires step.kind.Foreach?
  {
    var i := Fold(before).items;
    var key := if body.keyed then Lookup(i.attemptKey, ref, "") else hash(check.text);
    var judged := before + [Judged(body, attempt, key, check, InItem(ref))];
    var again := NextItemEntry(i, body, ref, attempt, key);
    if again.attempt <= body.attempts && CanAppend(w, judged, again) then judged + [again] <= after
    else
      var spent := if body.attempts > 1 then Some(Check(false, SPENT)) else None;
      (again.attempt > body.attempts || again.attempt > step.maxVisits)
      && ItemResolvedBy(w, env, judged, after, step, body, ref, attempt, spent, FAILURE)
  }

  const SPENT := "item exhausted"

  /** An item that is resolved is not entered instead. */
  lemma ReportIsNoEntry(before: seq<Event>, after: seq<Event>, body: StepDecl, ref: ItemRef, attempt: int,
                        check: Option<Check>, again: Event)
    requires before + ItemReport(body, ref, attempt, check, FAILURE) <= after && again.StepEnter?
    ensures !(before + [again] <= after)
  {
    assert after[|before|] == (before + ItemReport(body, ref, attempt, check, FAILURE))[|before|];
  }

  /** A result for an awaited item. */
  ghost predicate ItemApplied(w: Workflow, env: Environment, hash: string -> Key, before: seq<Event>, after: seq<Event>,
                              step: StepDecl, body: StepDecl, ref: ItemRef, attempt: int, submission: Submission,
                              check: Check)
    requires step.kind.Foreach?
  {
    var written := before + ResultWrites(body, attempt, InItem(ref), submission);
    JudgedBy(env, body, submission, written, check) &&
    if check.ok then
      ItemResolvedBy(w, env, written, after, step, body, ref, attempt, if body.checked then Some(check) else None, SUCCESS)
    else ItemFailedBy(w, env, hash, written, after, step, body, ref, attempt, check)
  }

  /** A result that was taken has been applied in the one role it was expected in. */
  ghost predicate Applied(w: Workflow, env: Environment, hash: string -> Key, before: seq<Event>, after: seq<Event>,
                          id: string, attempt: int, item: Option<int>, submission: Submission, check: Check)
  {
    var cur, owner := CursorOf(CoreOf(before)), OwnerIn(w.steps, id);
    Expects(w, before, id, attempt, item) &&
    var step := StepById(w, id).value;
    if owner.Some? then
      owner.value.kind.Foreach?
      && ItemApplied(w, env, hash, before, after, owner.value, step, ItemRef(cur.step, item.value), attempt, submission,
                     check)
    else if cur.step == id && cur.attempt == attempt then StepApplied(w, env, hash, before, after, step, submission, check)
    else BranchApplied(w, env, before, after, StepById(w, cur.step).value, step, attempt, submission, check)
  }

  // ---- what a group comes to once run --------------------------------------------------

  /** The awaited branches are handed out; with none left, the group leaves by its
      own outcome. */
  ghost predicate GroupGoesOn(w: Workflow, env: Environment, reran: seq<Event>, after: seq<Event>, step: StepDecl, instruction: Instruction,
                              interrupted: bool)
    requires step.kind.Parallel?
  {
    var b := Fold(reran).branches;
    if NoBranchPending(b, step.id) then GroupLeft(w, env, reran, after, step)
    else
      after == reran && instruction.DispatchMany? && Handed(b, step.id, instruction.agentic)
      && forall d :: d in instruction.agentic ==> d.interrupted == interrupted
  }

  /** The items not yet resolved, run or handed out again; with all resolved, the
      join. */
  ghost predicate ItemsResumed(w: Workflow, env: Environment, reran: seq<Event>, after: seq<Event>, step: StepDecl, instruction: Instruction)
    requires step.kind.Foreach?
  {
    if AllResolved(Fold(reran).items, step.id, |Snapshot(reran, step.id)|) then JoinedBy(w, env, reran, after, step)
    else
      after == reran && instruction.DispatchMany?
      && forall d :: d in instruction.agentic ==> d.step == step.kind.body && d.interrupted
  }

  // ---- answers and polls ------------------------------------------------------------------

  const MISFIT := "does not fit"

  /** An answer past the deadline times the step out, and nothing is written; one that
      cannot be used fails it; any other is written first and takes its own route. */
  ghost predicate AnswerApplied(w: Workflow, env: Environment, before: seq<Event>, after: seq<Event>, step: StepDecl,
                                answer: Answer, timedOut: bool)
  {
    var attempt := Here(w, before).attempt;
    if timedOut then LeftBy(w, env, before, after, step, TIMEOUT, true)
    else if answer.Invalid? || (answer.write.Some? && !env.fits(before, step.id)) then
      var text := if answer.Invalid? then answer.text else MISFIT;
      LeftBy(w, env, before + [Judged(step, attempt, "", Check(false, text), Plain)], after, step, FAILURE, true)
    else
      var writes := if answer.write.Some? then [StepWrites(step, attempt, answer.write.value)] else [];
      LeftBy(w, env, before + writes, after, step, answer.outcome, true)
  }

  /** What is journaled of a poll's final observation before its check: the text of a
      failure, then the writes. */
  function Noted(w: Workflow, before: seq<Event>, step: StepDecl, writes: map<string, Json>, failure: Option<string>)
    : seq<Event>
  {
    var here := Here(w, before);
    (if failure.Some? then [Judged(step, here.attempt, "", Check(false, failure.value), Plain)] else [])
    + (if |writes| > 0 then [StepWrites(step, here.attempt, writes)] else [])
  }

  /** What the journal tells a poller of a step: why it must not go on, if it must not. */
  function Precheck(w: Workflow, events: seq<Event>, id: string): Option<CallError> {
    var step := StepById(w, id);
    if CoreOf(events).ending.ended || CursorOf(CoreOf(events)).step != id then Some(NotCurrent)
    else if step.None? || !step.value.kind.Waiting? then Some(Refused)
    else if !HasParked(events, id) then Some(Stopped(Aborted))
    else None
  }

  /** The observation is journaled, its check evaluated, and the step left by the
      observed outcome if the check passes and as failed if it does not. */
  ghost predicate WaitCompleted(w: Workflow, env: Environment, before: seq<Event>, after: seq<Event>, step: StepDecl,
                                outcome: string, writes: map<string, Json>, failure: Option<string>, check: Check)
  {
    var noted := before + Noted(w, before, step, writes, failure);
    (if step.checked then env.check(noted, step.id) == Some(check) else check == Check(true, ""))
    && LeftBy(w, env, noted + Verdicts(w, before, step, check), after, step, if check.ok then outcome else FAILURE, true)
  }
}
