/**
  What the step graph is for (internal/spec/validate.go): its edges are exactly the ways a
  step can send the run on, so no run ever enters a step that rule 2 reports, and a step
  that is left and entered again lies on one of the cycles that rule 12 asks a binding cap of.
 */
module RunGraph {
  import opened Wrappers
  import opened JsonValues
  import opened Journal
  import opened Workflows
  import opened Protocol
  import opened StepGraph
  import RunTheorems
  import GroupTheorems

  // ---- edges and routes --------------------------------------------------------------------

  /** An outcome of the step leads there, by something the step declares. */
  ghost predicate RoutesTo(step: StepDecl, outcome: string, t: string) {
    ResolveTarget(step, outcome).Some? && ResolveTarget(step, outcome).value.target == t
    && !(Unnamed(step, outcome) && (outcome == FAILURE || outcome == EXHAUSTED))
  }

  /** The step runs the other as one of its branches or as its body. */
  predicate Runs(step: StepDecl, t: string) {
    match step.kind
    case Parallel(branches) => t in branches
    case Foreach(_, body, _, _) => t == body && t != ""
    case _ => false
  }

  /** Some catch leads there, be it one that an earlier one shadows. */
  predicate Catches(step: StepDecl, t: string) {
    exists k :: 0 <= k < |step.catches| && step.catches[k].next == t
  }

  /** An edge leads from a step exactly where one of its outcomes, a catch, or a member it
      runs does; and every outcome leads along an edge, but for a failure or exhausted that
      nothing names, which leads to `blocked`. */
  lemma EdgesAreWays(step: StepDecl, t: string)
    ensures t in Targets(step) <==> (exists outcome :: RoutesTo(step, outcome, t)) || Catches(step, t) || Runs(step, t)
    ensures forall outcome :: ResolveTarget(step, outcome).Some? && ResolveTarget(step, outcome).value.target == t ==>
              t in Targets(step) || (t == BLOCKED && Unnamed(step, outcome))
  {
    forall outcome | ResolveTarget(step, outcome).Some? && ResolveTarget(step, outcome).value.target == t
      ensures t in Targets(step) || (t == BLOCKED && Unnamed(step, outcome) && (outcome == FAILURE || outcome == EXHAUSTED))
    {
      RouteIsEdge(step, outcome);
    }
    if t in step.outcomes.Values {
      var outcome :| outcome in step.outcomes && step.outcomes[outcome] == t;
      RoutingTable(step, outcome);
      assert RoutesTo(step, outcome, t);
    }
    if step.next != "" && t == step.next {
      var outcome := FreshOutcome(step);
      RoutingTable(step, outcome);
      assert RoutesTo(step, outcome, t);
    }
    if c :| c in step.catches && c.next == t {
      var k :| 0 <= k < |step.catches| && step.catches[k] == c;
      assert Catches(step, t);
    }
  }

  lemma RouteIsEdge(step: StepDecl, outcome: string)
    requires ResolveTarget(step, outcome).Some?
    ensures var t := ResolveTarget(step, outcome).value.target;
            t in Targets(step) || (t == BLOCKED && Unnamed(step, outcome) && (outcome == FAILURE || outcome == EXHAUSTED))
  {
    RoutingTable(step, outcome);
    if outcome !in step.outcomes && !Unnamed(step, outcome) {
      var k: nat :| CaughtAt(step, outcome, k);
      assert step.catches[k] in step.catches;
    }
  }

  /** An outcome that nothing names and that is not reserved. */
  lemma FreshOutcome(step: StepDecl) returns (outcome: string)
    ensures Unnamed(step, outcome) && outcome != FAILURE && outcome != EXHAUSTED
  {
    var named := step.outcomes.Keys + (set c | c in step.catches :: c.on) + {FAILURE, EXHAUSTED};
    outcome := LongerThanAll(named);
    assert forall c :: c in step.catches ==> c.on in named;
  }

  lemma {:induction false} LongerThanAll(named: set<string>) returns (text: string)
    ensures text !in named && forall s :: s in named ==> |s| < |text|
    decreases |named|
  {
    if named == {} {
      text := "x";
    } else {
      var s :| s in named;
      assert |named - {s}| < |named|;
      var shorter := LongerThanAll(named - {s});
      text := shorter + s + "x";
    }
  }

  // ---- where a run goes ----------------------------------------------------------------------

  /** The step the run is at, short of being blocked. */
  function PlaceOf(w: Workflow, c: Core): string {
    if c.place.transitioned then c.place.lastTarget
    else if c.place.haveEnter then c.place.lastEnter.step
    else w.start
  }

  ghost predicate IsAmong(w: Workflow, s: set<string>, id: string) {
    IsStep(w, id) ==> id in s
  }

  lemma HereIsThePlace(w: Workflow, events: seq<Event>)
    requires Running(events)
    ensures Here(w, events).step == PlaceOf(w, CoreOf(events))
  {
    hide Fold;
  }

  /** An edge of the graph of steps. */
  lemma StepEdge(w: Workflow, u: string, v: string)
    requires IsStep(w, u) && IsStep(w, v) && v in Targets(StepById(w, u).value)
    ensures Edge(GraphOfSteps(w), u, v) && Edge(WholeGraph(w), u, v)
  {
    StepIdsAreSteps(w, u);
    StepIdsAreSteps(w, v);
  }

  /** A run stays within any set of steps that no edge leaves, but for interventions. */
  lemma StaysAmong(w: Workflow, s: set<string>, events: seq<Event>)
    requires |events| > 0 && Legal(w, events) && NoWayOut(GraphOfSteps(w), s) && !IsStep(w, BLOCKED) && !IsStep(w, "")
    requires IsAmong(w, s, PlaceOf(w, CoreOf(Front(events)))) && !(Last(events).Resume? && Last(events).intervention)
    ensures IsAmong(w, s, PlaceOf(w, CoreOf(events)))
  {
    hide StepData, StepLedger, StepItems, StepBranches, Legal, CanAppend, StepById, LatestEntry, CapsReached,
         BeginAttempt, ListToFreeze, ResolveTarget, Justified;
    LegalSplit(w, events);
    RuleOf(w, Front(events), Last(events));
    RunTheorems.BudgetMatches(Front(events));
    var e := Last(events);
    if IsExit(e) {
      HereIsThePlace(w, Front(events));
      ExitFollowsEdge(w, Front(events), e);
    }
  }

  lemma ExitFollowsEdge(w: Workflow, events: seq<Event>, e: Event)
    requires IsExit(e) && MayLeave(w, events, e) && !IsStep(w, BLOCKED)
    ensures IsStep(w, e.step) && e.step == Here(w, events).step
    ensures IsStep(w, e.target) ==> Edge(GraphOfSteps(w), e.step, e.target)
  {
    hide Fold, Here, StepById, ResolveTarget, Justified;
    RouteIsEdge(StepById(w, Here(w, events).step).value, e.outcome);
    if IsStep(w, e.target) {
      StepEdge(w, e.step, e.target);
    }
  }

  // ---- reachable from the start ------------------------------------------------------------------

  ghost function ReachedFrom(w: Workflow, root: string): (s: set<string>)
    ensures forall id :: id in s <==> id in StepIds(w) && Reach(GraphOfSteps(w), root, id)
  {
    set id | id in StepIds(w) && Reach(GraphOfSteps(w), root, id)
  }

  lemma ReachedIsClosed(w: Workflow, root: string)
    ensures NoWayOut(GraphOfSteps(w), ReachedFrom(w, root))
  {
    var g, s := GraphOfSteps(w), ReachedFrom(w, root);
    forall u, v | u in s && Edge(g, u, v)
      ensures v in s
    {
      ReachEdge(g, u, v);
      ReachThrough(g, root, u, v);
    }
  }

  /** Where a run is, where it was blocked, and what it has just left: if a step, one that a
      path from the start step reaches. */
  lemma {:induction false} RunStaysReachable(w: Workflow, events: seq<Event>)
    requires Legal(w, events) && !IsStep(w, BLOCKED) && !IsStep(w, "")
    ensures var s, c := ReachedFrom(w, w.start), CoreOf(events);
            && IsAmong(w, s, PlaceOf(w, c)) && IsAmong(w, s, c.ending.blockedStep)
            && IsAmong(w, s, c.place.lastEnter.step)
            && (|events| > 0 && IsExit(Last(events)) ==> Last(events).step in s)
  {
    hide StepData, StepLedger, StepItems, StepBranches, Legal, CanAppend, StepById, LatestEntry, CapsReached,
         BeginAttempt, ListToFreeze, ResolveTarget, Justified, ReachedFrom, GraphOfSteps, MayEnter, MayEnd, MayLeave;
    if |events| == 0 {
      StartIsReached(w);
    } else {
      var front, e := Front(events), Last(events);
      LegalSplit(w, events);
      RunStaysReachable(w, front);
      RuleOf(w, front, e);
      ReachedIsClosed(w, w.start);
      if !(e.Resume? && e.intervention) {
        StaysAmong(w, ReachedFrom(w, w.start), events);
      }
      if IsExit(e) {
        HereIsThePlace(w, front);
        ExitFollowsEdge(w, front, e);
      }
      if e.RunEnd? {
        EndIsHereOrLeft(w, front, e);
      }
    }
  }

  lemma StartIsReached(w: Workflow)
    ensures IsAmong(w, ReachedFrom(w, w.start), w.start)
  {
    ReachSelf(GraphOfSteps(w), w.start);
    StepIdsAreSteps(w, w.start);
  }

  lemma EndIsHereOrLeft(w: Workflow, events: seq<Event>, e: Event)
    requires e.RunEnd? && Running(events) && MayEnd(w, events, e)
    ensures e.step == PlaceOf(w, CoreOf(events)) || (IsExit(Last(events)) && e.step == Last(events).step)
  {
    hide Fold, StepById;
  }

  /** Every entry, of a step, a branch or an item, is of a step that a path from the start
      step reaches. */
  lemma EnteredIsReachable(w: Workflow, events: seq<Event>, i: nat)
    requires Legal(w, events) && Sound(w) && !IsStep(w, BLOCKED) && i < |events| && events[i].StepEnter?
    ensures IsStep(w, events[i].step) && Reach(GraphOfSteps(w), w.start, events[i].step)
    ensures Reach(WholeGraph(w), w.start, events[i].step)
  {
    hide Fold, Legal, CanAppend, StepById, Here, MayEnter, MayEnterBranch, MayEnterItem, GraphOfSteps, WholeGraph, Sound;
    var before, e := events[..i], events[i];
    PrefixIsLegal(w, events, i);
    RunTheorems.AppendedWasAllowed(w, events, i);
    RuleOf(w, before, e);
    assert !IsStep(w, "") by { SoundHasNoEmptyId(w); }
    RunStaysReachable(w, before);
    HereIsThePlace(w, before);
    EntryIsHere(w, before, e);
    var here := Here(w, before).step;
    if e.step != here {
      StepEdge(w, here, e.step);
      ReachEdge(GraphOfSteps(w), here, e.step);
      ReachThrough(GraphOfSteps(w), w.start, here, e.step);
    }
    ReachInWhole(w, w.start, e.step);
  }

  lemma SoundHasNoEmptyId(w: Workflow)
    requires Sound(w)
    ensures !IsStep(w, "")
  {}

  /** An entry is of the step the run is at, or of a member that step runs. */
  lemma EntryIsHere(w: Workflow, events: seq<Event>, e: Event)
    requires e.StepEnter? && Running(events) && Sound(w)
    requires if IsItemEvent(e) then MayEnterItem(w, events, e)
             else if IsBranchEvent(e) then MayEnterBranch(w, events, e) else MayEnter(w, events, e)
    ensures var here := Here(w, events).step;
            IsStep(w, here) && IsStep(w, e.step) && (e.step == here || e.step in Targets(StepById(w, here).value))
  {
    hide StepData, StepLedger, StepEnding, StepItems, StepBranches, StepById, LatestEntry, CapsReached, BeginAttempt,
         ListToFreeze, EnteredBranches, Snapshot;
    RunTheorems.BudgetMatches(events);
    if IsBranchEvent(e) {
      var branches, entered := StepById(w, e.group).value.kind.branches, EnteredBranches(events, e.group);
      assert (entered + [e.step])[|entered|] == branches[..|entered| + 1][|entered|];
      assert e.step in branches;
    }
    BodiesAreSteps(w, Here(w, events).step);
  }

  lemma BodiesAreSteps(w: Workflow, id: string)
    requires Sound(w) && IsStep(w, id)
    ensures var kind := StepById(w, id).value.kind;
            && (kind.Parallel? ==> forall b :: b in kind.branches ==> IsStep(w, b))
            && (kind.Foreach? ==> IsStep(w, kind.body) && kind.body != "")
  {}

  lemma ReachInWhole(w: Workflow, u: string, v: string)
    requires Reach(GraphOfSteps(w), u, v)
    ensures Reach(WholeGraph(w), u, v)
  {
    var p :| PathFrom(GraphOfSteps(w), p, u, v);
    forall i | 0 <= i < |p| - 1
      ensures Edge(WholeGraph(w), p[i], p[i + 1])
    {
      assert Edge(GraphOfSteps(w), p[i], p[i + 1]);
      StepIdsAreSteps(w, p[i]);
    }
    assert PathFrom(WholeGraph(w), p, u, v);
  }

  /** So no run ever enters a step that rule 2 reports. */
  lemma ReportedNeverRuns(w: Workflow, events: seq<Event>, i: nat)
    requires Legal(w, events) && Sound(w) && !IsStep(w, BLOCKED) && i < |events| && events[i].StepEnter?
    ensures events[i].step !in Filter(w.steps, WholeGraph(w), w.start)
  {
    hide Legal, WholeGraph, Reach, StepById;
    EnteredIsReachable(w, events, i);
    SoundHasNoEmptyId(w);
    if w.start == "" {
      NothingFromNowhere(w, events[i].step);
    }
    FilterHoldsUnreached(w.steps, WholeGraph(w), w.start, events[i].step);
  }

  lemma NothingFromNowhere(w: Workflow, id: string)
    requires !IsStep(w, "") && Reach(WholeGraph(w), "", id)
    ensures id == ""
  {
    if id != "" {
      FirstEdge(WholeGraph(w), "", id);
    }
  }

  lemma {:induction false} FilterHoldsUnreached(steps: seq<StepDecl>, g: Graph, start: string, id: string)
    requires start != "" && Reach(g, start, id)
    ensures id !in Filter(steps, g, start)
  {
    hide Reach;
    if |steps| > 0 {
      FilterHoldsUnreached(steps[..|steps| - 1], g, start, id);
    }
  }

  // ---- back to a step ---------------------------------------------------------------------------

  predicate NoIntervention(events: seq<Event>) {
    forall k :: 0 <= k < |events| ==> !(events[k].Resume? && events[k].intervention)
  }

  /** From an exit on, short of an intervention, the run is at steps that a path from the
      exit's target reaches. */
  lemma {:induction false} StaysAfterExit(w: Workflow, events: seq<Event>, more: seq<Event>)
    requires Legal(w, events + more) && !IsStep(w, BLOCKED) && !IsStep(w, "") && NoIntervention(more)
    requires |events| > 0 && IsExit(Last(events))
    ensures IsAmong(w, ReachedFrom(w, Last(events).target), PlaceOf(w, CoreOf(events + more)))
    decreases |more|
  {
    hide Legal, StepById, GraphOfSteps, ReachedFrom, StepData, StepLedger, StepEnding, StepItems, StepBranches;
    var root := Last(events).target;
    var s := ReachedFrom(w, root);
    if |more| == 0 {
      assert events + more == events;
      GroupTheorems.FoldOfLast(events);
      RootIsReached(w, root);
    } else {
      var fewer := more[..|more| - 1];
      assert Front(events + more) == events + fewer && Last(events + more) == more[|more| - 1];
      LegalSplit(w, events + more);
      StaysAfterExit(w, events, fewer);
      ReachedIsClosed(w, root);
      StaysAmong(w, s, events + more);
    }
  }

  lemma RootIsReached(w: Workflow, root: string)
    ensures IsAmong(w, ReachedFrom(w, root), root)
  {
    ReachSelf(GraphOfSteps(w), root);
    StepIdsAreSteps(w, root);
  }

  /** A step that is left and entered again, without an intervention in between, lies on a
      cycle of the step graph. */
  lemma ReenteredIsOnCycle(w: Workflow, events: seq<Event>, i: nat, j: nat)
    requires Legal(w, events) && Sound(w) && !IsStep(w, BLOCKED) && i < j < |events|
    requires IsExit(events[i]) && IsEntry(events[j]) && events[j].step == events[i].step
    requires NoIntervention(events[i..j])
    ensures OnCycle(GraphOfSteps(w), events[i].step)
  {
    hide Fold, Legal, CanAppend, StepById, Here, MayEnter, MayLeave, GraphOfSteps, Sound, Reach;
    SoundHasNoEmptyId(w);
    var left, more := events[..i + 1], events[i + 1..j];
    assert left + more == events[..j] && Last(left) == events[i];
    PrefixIsLegal(w, events, j);
    RunTheorems.AppendedWasAllowed(w, events, i);
    RuleOf(w, events[..i], events[i]);
    ExitFollowsEdge(w, events[..i], events[i]);
    StaysAfterExit(w, left, more);
    RunTheorems.AppendedWasAllowed(w, events, j);
    RuleOf(w, events[..j], events[j]);
    HereIsThePlace(w, events[..j]);
    MainEntryIsHere(w, events[..j], events[j]);
    var u, root := events[i].step, events[i].target;
    assert Reach(GraphOfSteps(w), root, u);
    if !IsStep(w, root) {
      OnlyStepsLead(w, root, u);
    }
    assert Edge(GraphOfSteps(w), u, root);
  }

  /** Nothing but a step leads on. */
  lemma OnlyStepsLead(w: Workflow, u: string, v: string)
    requires Reach(GraphOfSteps(w), u, v) && !IsStep(w, u)
    ensures u == v
  {
    if u != v {
      FirstEdge(GraphOfSteps(w), u, v);
      StepIdsAreSteps(w, u);
    }
  }

  lemma MainEntryIsHere(w: Workflow, events: seq<Event>, e: Event)
    requires IsEntry(e) && Running(events) && MayEnter(w, events, e)
    ensures e.step == Here(w, events).step && IsStep(w, e.step)
  {
    hide StepData, StepLedger, StepEnding, StepItems, StepBranches, StepById, LatestEntry, CapsReached, BeginAttempt,
         ListToFreeze;
    RunTheorems.BudgetMatches(events);
  }
}
