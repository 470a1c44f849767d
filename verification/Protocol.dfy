/**
  Which event may follow a journal: the rules every writer of the journal
  keeps, each stated over the journal alone. `Legal` journals are closed under
  prefixes, so a crash between any two appends leaves a legal journal.
 */
module Protocol {
  import opened Wrappers
  import opened JsonValues
  import opened Journal
  import opened Workflows

  /** The target of a branch's or an item's own transition. */
  const JOINED := "(joined)"

  // ---- reading a journal --------------------------------------------------------

  function CoreOf(events: seq<Event>): Core {
    Fold(events).core
  }

  function Last(events: seq<Event>): Event
    requires |events| > 0
  {
    events[|events| - 1]
  }

  function Front(events: seq<Event>): seq<Event>
    requires |events| > 0
  {
    events[..|events| - 1]
  }

  /** Where the run is. Before the first entry the replayed cursor is empty, and
      the run loop starts from the workflow's start step instead. */
  function Here(w: Workflow, events: seq<Event>): Cursor {
    var c := CoreOf(events);
    if !c.place.haveEnter && !c.place.transitioned then Cursor(w.start, 1, "", 0) else CursorOf(c)
  }

  /** The latest ungrouped entry of a step. */
  function LatestEntry(events: seq<Event>, id: string): (entry: Option<Event>)
    ensures entry.Some? ==> entry.value in events && IsEntry(entry.value) && entry.value.step == id
  {
    if |events| == 0 then None
    else if IsEntry(Last(events)) && Last(events).step == id then Some(Last(events))
    else LatestEntry(Front(events), id)
  }

  /** The frozen list of a foreach step's latest entry, empty if it has none. */
  function Snapshot(events: seq<Event>, id: string): seq<Json> {
    var entry := LatestEntry(events, id);
    if entry.Some? && entry.value.items.Some? then entry.value.items.value else []
  }

  /** The branches of a parallel step entered since its latest entry, in order. */
  function EnteredBranches(events: seq<Event>, id: string): seq<string> {
    if |events| == 0 then []
    else
      var e := Last(events);
      if IsEntry(e) && e.step == id then []
      else if IsBranchEvent(e) && e.StepEnter? && e.group == id then EnteredBranches(Front(events), id) + [e.step]
      else EnteredBranches(Front(events), id)
  }

  /** A summary was journaled for a parallel step since its latest entry. */
  predicate Summarised(events: seq<Event>, id: string) {
    |events| > 0 &&
    var e := Last(events);
    if GroupOf(e) == "" && e.Postcondition? && e.summary && e.step == id then true
    else if IsEntry(e) && e.step == id then false
    else Summarised(Front(events), id)
  }

  /** A failed check or a failed command of the step itself. */
  predicate IsFailedVerdict(e: Event, id: string) {
    e.Postcondition? && e.group == "" && !e.summary && !e.ok && e.step == id
  }

  // ---- foreach ------------------------------------------------------------------

  /** A value a step reads: arguments, then state, then declared defaults. */
  function RawValue(w: Workflow, c: Core, key: string): Json {
    if key in c.data.args then c.data.args[key]
    else if key in c.data.state then c.data.state[key]
    else Lookup(w.defaults, key, Null)
  }

  /** The list a fresh entry of a foreach step freezes: only a non-empty list
      within max_items. */
  function ListToFreeze(w: Workflow, c: Core, kind: Kind): Option<seq<Json>> {
    if kind.Foreach? && RawValue(w, c, kind.over).Arr? && 0 < |RawValue(w, c, kind.over).elems| <= kind.maxItems
    then Some(RawValue(w, c, kind.over).elems)
    else None
  }

  /** The text of the latest failure of an item since its latest fresh try. */
  function LastItemError(events: seq<Event>, ref: ItemRef): Option<string> {
    if |events| == 0 then None
    else
      var e := Last(events);
      if IsItemEvent(e) && RefOf(e) == ref && IsFreshEntry(e) then None
      else if IsItemEvent(e) && RefOf(e) == ref && e.Postcondition? && !e.ok then Some(e.text)
      else LastItemError(Front(events), ref)
  }

  function Verdict(i: Items, ref: ItemRef): string {
    if Lookup(i.outcome, ref, "") == SUCCESS then SUCCESS else FAILURE
  }

  /** One element of the collected list. */
  function JoinEntry(events: seq<Event>, ref: ItemRef, item: Json): Json
    requires ref.index >= 0
  {
    var i := Fold(events).items;
    var error := LastItemError(events, ref);
    Obj(map[
      "index" := Number(Decimal(ref.index)),
      "item" := item,
      "outcome" := Str(Verdict(i, ref)),
      "writes" := Obj(Lookup(i.writes, ref, map[])),
      "error" := if Verdict(i, ref) == FAILURE && error.Some? then Str(error.value) else Null])
  }

  function JoinList(events: seq<Event>, id: string, items: seq<Json>): seq<Json> {
    seq(|items|, i requires 0 <= i < |items| => JoinEntry(events, ItemRef(id, i), items[i]))
  }

  function Successes(i: Items, id: string, n: nat): (count: nat)
    ensures count <= n
  {
    if n == 0 then 0
    else Successes(i, id, n - 1) + if Verdict(i, ItemRef(id, n - 1)) == SUCCESS then 1 else 0
  }

  function JoinOutcome(i: Items, id: string, n: nat): string {
    if Successes(i, id, n) == n then SUCCESS
    else if Successes(i, id, n) == 0 then FAILURE
    else PARTIAL
  }

  predicate Resolved(i: Items, id: string, index: int) {
    ItemRef(id, index) in i.outcome
  }

  predicate AllResolved(i: Items, id: string, n: int) {
    forall k :: 0 <= k < n ==> Resolved(i, id, k)
  }

  /** Every item of a list is awaited or resolved: all were handed out. */
  predicate Covered(i: Items, id: string, n: int) {
    forall k :: 0 <= k < n ==> ItemRef(id, k) in i.pending || Resolved(i, id, k)
  }

  predicate NoItemPending(i: Items, id: string) {
    forall r :: r in i.pending ==> r.group != id
  }

  /** An item of the group has just been resolved. */
  predicate JustResolved(events: seq<Event>, group: string) {
    |events| > 0 && Last(events).Transition? && IsItemEvent(Last(events)) && Last(events).group == group
  }

  /** A list is joined once all of its items are resolved, or once a report leaves none
      awaited, whether or not all were entered. */
  predicate MayJoin(events: seq<Event>, id: string, n: int) {
    var i := Fold(events).items;
    AllResolved(i, id, n) || (NoItemPending(i, id) && JustResolved(events, id))
  }

  // ---- parallel -----------------------------------------------------------------

  predicate NoBranchPending(b: Branches, id: string) {
    forall r :: r in b.pending ==> r.group != id
  }

  function GroupOutcome(b: Branches, ids: seq<string>): string {
    if forall i :: 0 <= i < |ids| ==> Lookup(b.outcome, ids[i], "") == SUCCESS then SUCCESS else FAILURE
  }

  /** Nothing the step has handed out is still awaited. */
  predicate Settled(w: Workflow, a: Acc, id: string) {
    StepById(w, id).Some? ==>
      && (StepById(w, id).value.kind.Foreach? ==> NoItemPending(a.items, id))
      && (StepById(w, id).value.kind.Parallel? ==> NoBranchPending(a.branches, id))
  }

  // ---- entering a step ------------------------------------------------------------

  /** The run has just arrived at its step, or has just been resumed. */
  predicate Arrived(events: seq<Event>) {
    |events| > 0 &&
    (Last(events).RunStart? || Last(events).Resume? || (Last(events).Transition? && Last(events).group == ""))
  }

  /** The first try of a visit, or the re-run of a try a crash interrupted. */
  ghost predicate IsFirstTry(w: Workflow, events: seq<Event>, step: StepDecl, e: Event)
    requires e.StepEnter?
  {
    var c, here := CoreOf(events), Here(w, events);
    Arrived(events) && here.step == step.id && !CapsReached(w, c, step)
    && !e.retry && e.hardRetry == (if step.kind.Deterministic? then here.hardRetry else 0)
    && (e.attempt, e.key) == BeginAttempt(step, c, here, e.key)
    && (here.key == "" && step.keyed ==> e.key != "")
  }

  /** Another run of the body after a hard failure, within the same attempt. */
  ghost predicate IsHardRetry(events: seq<Event>, step: StepDecl, e: Event)
    requires e.StepEnter?
  {
    var c := CoreOf(events);
    |events| > 0 && step.kind.Deterministic? && c.place.inFlight
    && c.place.lastEnter == Cursor(step.id, e.attempt, e.key, e.hardRetry - 1)
    && e.hardRetry >= 1 && step.retryMax.Some? && e.hardRetry < step.retryMax.value
    && IsFailedVerdict(Last(events), step.id)
    && LatestEntry(events, step.id).Some?
    && LatestEntry(events, step.id).value.retry == e.retry
  }

  /** The next attempt after a failed check, keyed by that failure. */
  ghost predicate IsNextAttempt(w: Workflow, events: seq<Event>, step: StepDecl, e: Event)
    requires e.StepEnter?
  {
    var c, here := CoreOf(events), Here(w, events);
    |events| > 0 && here.step == step.id && !CapsReached(w, c, step)
    && (step.kind.Deterministic? || step.kind.Agentic?)
    && e.retry && e.hardRetry == 0
    && IsFailedVerdict(Last(events), step.id) && Last(events).key == e.key && Last(events).attempt == here.attempt
    && e.attempt == NextTry(here.attempt, Lookup(c.ledger.attempts, AttemptRef(step.id, e.key), 0))
    && e.attempt <= step.attempts
    && (step.keyed ==> e.key == here.key)
  }

  ghost predicate MayEnter(w: Workflow, events: seq<Event>, e: Event)
    requires e.StepEnter?
  {
    var step := StepById(w, e.step);
    step.Some? && e.item.None? && e.items == ListToFreeze(w, CoreOf(events), step.value.kind)
    && (step.value.kind.Foreach? ==> NoItemPending(Fold(events).items, e.step))
    && (step.value.kind.Parallel? ==> NoBranchPending(Fold(events).branches, e.step))
    && (|| IsFirstTry(w, events, step.value, e)
        || IsHardRetry(events, step.value, e)
        || IsNextAttempt(w, events, step.value, e))
  }

  // ---- inside a step --------------------------------------------------------------

  ghost predicate MayWrite(w: Workflow, events: seq<Event>, e: Event)
    requires e.Writes?
  {
    var here := Here(w, events);
    var step := StepById(w, here.step);
    e.item.None? && step.Some? &&
    match step.value.kind
    case Parallel(branches) => e.step in branches
    case Foreach(_, _, collect, _) =>
      e.step == here.step && e.attempt == here.attempt
      && MayJoin(events, here.step, |Snapshot(events, here.step)|)
      && e.writes == map[collect := Arr(JoinList(events, here.step, Snapshot(events, here.step)))]
    case _ => e.step == here.step && e.attempt == here.attempt
  }

  ghost predicate MayJudge(w: Workflow, events: seq<Event>, e: Event)
    requires e.Postcondition?
  {
    var here := Here(w, events);
    var step := StepById(w, here.step);
    e.item.None? && step.Some? && e.step == here.step && e.attempt == here.attempt
    && e.summary == step.value.kind.Parallel?
    && (e.summary && !e.ok ==> !Summarised(events, e.step))
  }

  ghost predicate MayAsk(w: Workflow, events: seq<Event>, e: Event)
    requires e.HumanAsked?
  {
    var here := Here(w, events);
    var step := StepById(w, here.step);
    step.Some? && step.value.kind.Human? && e.step == here.step && e.attempt == here.attempt
    && |events| > 0 && IsEntry(Last(events)) && Last(events).step == e.step
  }

  // ---- leaving a step ---------------------------------------------------------------

  /** What must be on record for a step to leave with an outcome. */
  ghost predicate Justified(w: Workflow, events: seq<Event>, step: StepDecl, outcome: string)
    requires |events| > 0
  {
    var a := Fold(events);
    if outcome == EXHAUSTED && CapsReached(w, a.core, step)
       && (Arrived(events) || IsFailedVerdict(Last(events), step.id)) && Settled(w, a, step.id)
    then true
    else
      var passed := Lookup(a.core.ledger.lastOk, step.id, false);
      match step.kind
      case Deterministic => outcome != EXHAUSTED && (outcome != FAILURE ==> passed)
      case Agentic => outcome == FAILURE || (outcome == SUCCESS && (step.checked ==> passed))
      case Waiting => outcome != EXHAUSTED && (outcome != FAILURE && step.checked ==> passed)
      case Human => true
      case Parallel(branches) =>
        a.core.place.inFlight && NoBranchPending(a.branches, step.id) && outcome == GroupOutcome(a.branches, branches)
      case Foreach(_, _, collect, _) =>
        var n := |Snapshot(events, step.id)|;
        Last(events).Writes? && Last(events).group == "" && collect in Last(events).writes
        && NoItemPending(a.items, step.id)
        && (outcome == JoinOutcome(a.items, step.id, n) || (n == 0 && (outcome == FAILURE || outcome == EXHAUSTED)))
  }

  ghost predicate MayLeave(w: Workflow, events: seq<Event>, e: Event)
    requires e.Transition?
  {
    var here := Here(w, events);
    var step := StepById(w, here.step);
    e.item.None? && |events| > 0 && step.Some? && e.step == here.step && e.attempt == here.attempt
    && ResolveTarget(step.value, e.outcome) == Some(Route(e.target, e.viaCatch))
    && Justified(w, events, step.value, e.outcome)
  }

  function BlockReason(step: string, outcome: string): string {
    step + ": " + outcome
  }

  /** The run ends after a transition to a terminal, or blocked by a violated
      invariant at the step it is in, once its whole group has reported. */
  ghost predicate MayEnd(w: Workflow, events: seq<Event>, e: Event)
    requires e.RunEnd?
  {
    var here := Here(w, events);
    e.note == "" && |events| > 0 &&
    (|| (w.invariants > 0 && e.status == BLOCKED && e.step == here.step && IsStep(w, here.step)
         && Settled(w, Fold(events), here.step))
     || (Last(events).Transition? && Last(events).group == "" && !IsStep(w, Last(events).target)
         && e.step == Last(events).step && e.status == EndStatusOf(w, Last(events).target)
         && e.reason == if e.status == BLOCKED then BlockReason(e.step, Last(events).outcome) else ""))
  }

  // ---- branches -----------------------------------------------------------------

  ghost predicate AtParallel(w: Workflow, events: seq<Event>, id: string) {
    Here(w, events).step == id && StepById(w, id).Some? && StepById(w, id).value.kind.Parallel?
  }

  /** Branches are entered once each, in declared order. */
  ghost predicate MayEnterBranch(w: Workflow, events: seq<Event>, e: Event)
    requires e.StepEnter?
  {
    AtParallel(w, events, e.group) && CoreOf(events).place.inFlight
    && e == StepEnter(e.step, 1, "", false, 0, e.group, None, None)
    && var branches := StepById(w, e.group).value.kind.branches;
       var entered := EnteredBranches(events, e.group);
       |entered| < |branches| && entered + [e.step] == branches[..|entered| + 1]
  }

  ghost predicate MayReportBranch(w: Workflow, events: seq<Event>, e: Event)
    requires e.Postcondition? || e.Transition?
  {
    AtParallel(w, events, e.group) && BranchRef(e.group, e.step) in Fold(events).branches.pending
    && (e.Transition? ==> e.target == JOINED && !e.viaCatch)
    && (e.Postcondition? ==> !e.summary)
  }

  // ---- items --------------------------------------------------------------------

  ghost predicate AtForeach(w: Workflow, events: seq<Event>, ref: ItemRef, body: string) {
    Here(w, events).step == ref.group
    && StepById(w, ref.group).Some? && StepById(w, ref.group).value.kind.Foreach?
    && StepById(w, ref.group).value.kind.body == body
    && 0 <= ref.index < |Snapshot(events, ref.group)|
  }

  predicate IsFailedItemVerdict(e: Event, ref: ItemRef) {
    e.Postcondition? && IsItemEvent(e) && RefOf(e) == ref && !e.ok
  }

  /** An item is entered afresh, again after a hard failure, or again after a
      failed check: at the next attempt, or at the same one after a crash. */
  ghost predicate IsItemTry(w: Workflow, events: seq<Event>, e: Event, body: StepDecl)
    requires e.StepEnter? && IsItemEvent(e) && IsStep(w, e.group)
  {
    var ref, i := RefOf(e), Fold(events).items;
    if !e.retry && e.hardRetry == 0 then
      e.attempt == 1 && ((e.key != "") == (body.keyed && body.kind.Agentic?))
    else if !e.retry then
      |events| > 0 && body.kind.Deterministic? && body.retryMax.Some? && 1 <= e.hardRetry < body.retryMax.value
      && e.attempt == 1 && e.key == "" && ref in i.pending && IsFailedItemVerdict(Last(events), ref)
    else
      e.hardRetry == 0 && ref in i.pending && body.kind.Agentic? &&
      (|| (e.attempt > 1 && e.attempt == Lookup(i.attempt, ref, 0) && e.key == Lookup(i.attemptKey, ref, ""))
       || (|events| > 0 && IsFailedItemVerdict(Last(events), ref) && e.key == Last(events).key
           && e.attempt == NextTry(Last(events).attempt, Lookup(Lookup(i.keyAttempts, ref, map[]), e.key, 0))
           && Last(events).attempt == Lookup(i.attempt, ref, 0)
           && e.attempt <= body.attempts && e.attempt <= StepById(w, e.group).value.maxVisits))
  }

  ghost predicate MayEnterItem(w: Workflow, events: seq<Event>, e: Event)
    requires e.StepEnter? && IsItemEvent(e)
  {
    AtForeach(w, events, RefOf(e), e.step) && e.items.None?
    && CoreOf(events).place.haveEnter && !CoreOf(events).place.transitioned
    && RefOf(e) !in Fold(events).items.outcome
    && StepById(w, e.step).Some? && IsItemTry(w, events, e, StepById(w, e.step).value)
  }

  ghost predicate MayReportItem(w: Workflow, events: seq<Event>, e: Event)
    requires (e.Writes? || e.Postcondition? || e.Transition?) && IsItemEvent(e)
  {
    AtForeach(w, events, RefOf(e), e.step) && RefOf(e) in Fold(events).items.pending
    && (e.Transition? ==> e.target == JOINED && !e.viaCatch && (e.outcome == SUCCESS || e.outcome == FAILURE))
    && (e.Postcondition? ==> !e.summary)
  }

  // ---- legal journals -------------------------------------------------------------

  /** A run that is over is not resumed; a blocked one restarts its step at
      attempt 1, any other continues exactly where its cursor is. */
  ghost predicate MayResume(events: seq<Event>, e: Event)
    requires e.Resume?
  {
    var c := CoreOf(events);
    var cur := CursorOf(c);
    !Terminal(c) && e.step == cur.step && e.key == cur.key
    && e.intervention == Blocked(c)
    && e.attempt == (if Blocked(c) then 1 else cur.attempt)
    && e.hardRetry == (if Blocked(c) then 0 else cur.hardRetry)
  }

  /** A run that has started and not ended, nor is blocked. */
  predicate Running(events: seq<Event>) {
    |events| > 0 && !CoreOf(events).ending.ended
  }

  ghost predicate CanAppend(w: Workflow, events: seq<Event>, e: Event) {
    || (e.RunStart? && events == [])
    || (e.Resume? && MayResume(events, e))
    || (Running(events) &&
        (|| (e.StepEnter? && IsItemEvent(e) && MayEnterItem(w, events, e))
         || (e.StepEnter? && IsBranchEvent(e) && MayEnterBranch(w, events, e))
         || (e.StepEnter? && e.group == "" && MayEnter(w, events, e))
         || (e.Writes? && IsItemEvent(e) && MayReportItem(w, events, e))
         || (e.Writes? && e.group == "" && MayWrite(w, events, e))
         || (e.Postcondition? && IsItemEvent(e) && MayReportItem(w, events, e))
         || (e.Postcondition? && IsBranchEvent(e) && MayReportBranch(w, events, e))
         || (e.Postcondition? && e.group == "" && MayJudge(w, events, e))
         || (e.Transition? && IsItemEvent(e) && MayReportItem(w, events, e))
         || (e.Transition? && IsBranchEvent(e) && MayReportBranch(w, events, e))
         || (e.Transition? && e.group == "" && MayLeave(w, events, e))
         || (e.HumanAsked? && MayAsk(w, events, e))
         || (e.RunEnd? && MayEnd(w, events, e))))
  }

  ghost predicate Legal(w: Workflow, events: seq<Event>) {
    |events| > 0 ==> Legal(w, Front(events)) && CanAppend(w, Front(events), Last(events))
  }

  /** One step of a legal journal, ready for an induction over journals. */
  lemma LegalSplit(w: Workflow, events: seq<Event>)
    requires |events| > 0 && Legal(w, events)
    ensures Legal(w, Front(events)) && CanAppend(w, Front(events), Last(events))
    ensures Fold(events) == Step(Fold(Front(events)), Last(events))
  {}

  /** Which rule an appended event went by. */
  lemma RuleOf(w: Workflow, events: seq<Event>, e: Event)
    requires CanAppend(w, events, e)
    ensures e.Resume? ==> MayResume(events, e)
    ensures !e.RunStart? && !e.Resume? ==> Running(events)
    ensures e.RunStart? ==> events == []
    ensures IsEntry(e) ==> MayEnter(w, events, e)
    ensures IsExit(e) ==> MayLeave(w, events, e)
    ensures e.Writes? && !IsItemEvent(e) ==> e.group == "" && MayWrite(w, events, e)
    ensures e.Postcondition? && e.group == "" ==> MayJudge(w, events, e)
    ensures e.RunEnd? ==> MayEnd(w, events, e)
    ensures e.HumanAsked? ==> MayAsk(w, events, e)
    ensures e.StepEnter? && IsBranchEvent(e) ==> MayEnterBranch(w, events, e)
    ensures (e.Postcondition? || e.Transition?) && IsBranchEvent(e) ==> MayReportBranch(w, events, e)
    ensures e.StepEnter? && IsItemEvent(e) ==> MayEnterItem(w, events, e)
    ensures !e.StepEnter? && IsItemEvent(e) ==> MayReportItem(w, events, e)
    ensures !e.UnknownKind?
  {
    hide MayResume, Running, MayEnter, MayLeave, MayWrite, MayJudge, MayEnd, MayAsk, MayEnterBranch,
         MayReportBranch, MayEnterItem, MayReportItem;
  }

  /** A crash may fall between any two appends. */
  lemma {:induction false} PrefixIsLegal(w: Workflow, events: seq<Event>, n: nat)
    requires n <= |events| && Legal(w, events)
    ensures Legal(w, events[..n])
  {
    if n == |events| {
      assert events[..n] == events;
    } else {
      PrefixIsLegal(w, Front(events), n);
      assert Front(events)[..n] == events[..n];
    }
  }

  lemma AppendIsLegal(w: Workflow, events: seq<Event>, e: Event)
    requires Legal(w, events) && CanAppend(w, events, e)
    ensures Legal(w, events + [e])
    ensures Fold(events + [e]) == Step(Fold(events), e)
  {
    assert Front(events + [e]) == events;
  }

  // ---- the clock of a wait step ----------------------------------------------------------------

  /** An event that starts the clock of a step: its entry, or the intervention that
      restarts it. */
  predicate Anchors(e: Event, id: string) {
    (e.StepEnter? && e.step == id) || (e.Resume? && e.intervention && e.step == id)
  }

  predicate HasParked(events: seq<Event>, id: string) {
    exists i :: 0 <= i < |events| && Anchors(events[i], id)
  }
}
