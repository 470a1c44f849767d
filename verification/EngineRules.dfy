/**
  The vocabulary of the engine (internal/engine/instruction.go) and why each of
  its appends is allowed: what the environment answers, what a call returns, the
  fuel that bounds a call, and one small lemma per rule used.
 */
module EngineRules {
  import opened Wrappers
  import opened JsonValues
  import opened Journal
  import opened Workflows
  import opened Protocol
  import RunTheorems
  import GroupTheorems

  // ---- what the environment answers ---------------------------------------------

  /** One run of a deterministic body, poll excluded. */
  datatype CommandResult =
    | NotRun
    | BadOutput(text: string)
    | Overran(text: string)
    | Exited(code: int, token: string, writes: Option<map<string, Json>>, text: string)

  datatype Check = Check(ok: bool, text: string)

  /** What one run of a body comes to: the command's result, and what its check says
      if it is evaluated (None: the check could not be run). */
  datatype Body = Body(result: CommandResult, check: Option<Check>)

  /** A rendered attempt_key is not empty. */
  type Key = k: string | |k| > 0 witness "k"

  /** What the world answers a call, given all that has been journaled so far: what
      running a body of a step comes to, what its check says (None: it could not be
      run), whether its context or its options can be had, what its attempt_key
      renders to, what is wrong by an invariant, whether a question's deadline is over
      (None: it cannot be told) and whether an answer can be written where the step
      says. Nothing is assumed of it, and it may be another one at every call. */
  datatype Environment = Environment(
    body: (seq<Event>, string) -> Body,
    check: (seq<Event>, string) -> Option<Check>,
    ready: (seq<Event>, string) -> bool,
    key: (seq<Event>, string) -> Key,
    violated: (seq<Event>, nat) -> Option<string>,
    late: (seq<Event>, string) -> Option<bool>,
    fits: (seq<Event>, string) -> bool)

  /** The first of the invariants that is violated. */
  function Violation(env: Environment, events: seq<Event>, invariants: nat): Option<string> {
    if invariants == 0 then None
    else
      var before := Violation(env, events, invariants - 1);
      if before.Some? then before else env.violated(events, invariants - 1)
  }

  lemma {:induction false} ViolationStays(env: Environment, events: seq<Event>, some: nat, all: nat)
    requires some <= all && Violation(env, events, some).Some?
    ensures Violation(env, events, all) == Violation(env, events, some)
  {
    if some < all {
      ViolationStays(env, events, some, all - 1);
    }
  }

  /** It is the reason of the one none before which is violated. */
  lemma {:induction false} ViolationIsFirst(env: Environment, events: seq<Event>, invariants: nat)
    ensures Violation(env, events, invariants).None? <==>
              forall k: nat :: k < invariants ==> env.violated(events, k).None?
    ensures forall k: nat :: k < invariants && env.violated(events, k).Some?
                             && (forall j: nat :: j < k ==> env.violated(events, j).None?) ==>
              Violation(env, events, invariants) == env.violated(events, k)
  {
    if invariants > 0 {
      ViolationIsFirst(env, events, invariants - 1);
    }
  }

  // ---- what a call returns ----------------------------------------------------------

  /** `failure`: what the previous attempt failed with, if it is still to be told. */
  datatype Dispatch = Dispatch(step: string, attempt: int, item: Option<int>, interrupted: bool, failure: string)

  datatype Instruction =
    | DispatchOne(d: Dispatch)
    | DispatchMany(step: string, attempt: int, agentic: seq<Dispatch>)
    | BranchRecorded(group: string, branch: string, remaining: set<string>)
    | ItemRecorded(group: string, index: int, awaited: set<int>)
    | Wait(step: string)
    | Ask(step: string, attempt: int)
    | Done(status: string, step: string, outcome: string)

  /** The texts of an entry whose dispatch or question could not be built. */
  const NO_CONTEXT := "context unavailable"
  const NO_OPTIONS := "options unavailable"

  /** Why a value cannot be run through as a list. */
  const NO_ARRAY := "not a JSON array"
  const OVER_CAP := "over the max_items cap"

  /** What stops a call that was taken. */
  datatype EngineError = NoRoute | Aborted

  /** Why a call was not taken, or what stopped it. */
  datatype CallError = AlreadyTerminal | Refused | NotCurrent | UnknownStep | Stopped(error: EngineError)

  function Taken(r: Result<Instruction, EngineError>): Result<Instruction, CallError> {
    match r
    case Success(instruction) => Success(instruction)
    case Failure(error) => Failure(Stopped(error))
  }

  /** What leaving a step comes to: the run goes on at a step, or the call ends. */
  datatype Advance = Go(step: string) | Stop(instruction: Instruction) | Fail(error: EngineError)

  /** One attempt of a deterministic body, short of any routing. */
  datatype Attempt =
    | HardFailed(retryable: bool)
    | Finished(outcome: string, check: Check)
    | Broken

  datatype Scope = Plain | InBranch(group: string) | InItem(ref: ItemRef)

  /** The outcome an exit code and a stdout line announce; a line that names no
      routable outcome announces none. */
  function Announced(step: StepDecl, code: int, token: string): Option<string> {
    if code != 0 then Some(FAILURE)
    else if !NamesOutcomes(step) then Some(SUCCESS)
    else if RoutableToken(step, token) then Some(token)
    else None
  }

  /** What a run of a body makes of an attempt. Only a failure the command did not
      announce itself may be run again. */
  function AttemptOf(step: StepDecl, b: Body): Attempt {
    match b.result
    case NotRun => Broken
    case BadOutput(_) => HardFailed(true)
    case Overran(_) => HardFailed(true)
    case Exited(code, token, _, _) =>
      var outcome := Announced(step, code, token);
      if outcome.None? then HardFailed(true)
      else if outcome.value == FAILURE then HardFailed(code != 0)
      else if !step.checked then Finished(outcome.value, Check(true, ""))
      else if b.check.Some? then Finished(outcome.value, b.check.value)
      else Broken
  }

  /** The command exited with code 0, and its output was understood: it names an outcome the
      step declares, `success` only if that is declared too, or `failure`; where the step
      names no outcome of its own there is nothing to name. */
  predicate CleanExit(step: StepDecl, r: CommandResult) {
    r.Exited? && r.code == 0 &&
    ((exists o :: o in step.outcomes && o !in RESERVED) ==>
       r.token == FAILURE || (r.token in step.outcomes && (r.token == SUCCESS || r.token !in RESERVED)))
  }

  /** What a run comes to, by its exit code and what it names. Any other code, an overrun and
      output that is not understood may be tried again; a failure the command names itself
      may not. A clean exit is what it names, or `success`, with the verdict of the check; if
      the check cannot be run, or the command could not, the call stops. */
  lemma ExitCodes(step: StepDecl, b: Body)
    ensures AttemptOf(step, b) == HardFailed(true) <==> !b.result.NotRun? && !CleanExit(step, b.result)
    ensures AttemptOf(step, b) == HardFailed(false) <==>
              CleanExit(step, b.result) && b.result.token == FAILURE && exists o :: o in step.outcomes && o !in RESERVED
    ensures forall outcome, check :: AttemptOf(step, b) == Finished(outcome, check) <==>
              && CleanExit(step, b.result) && outcome != FAILURE
              && (outcome == if exists o :: o in step.outcomes && o !in RESERVED then b.result.token else SUCCESS)
              && (if step.checked then b.check == Some(check) else check == Check(true, ""))
  {
    TokenIsNotExhausted(step, FAILURE);
  }

  /** What it journals: the writes of a clean exit, and the text of a hard failure. */
  function AttemptEvents(step: StepDecl, attempt: int, scope: Scope, b: Body): seq<Event> {
    match b.result
    case NotRun => []
    case BadOutput(text) => [Judged(step, attempt, "", Check(false, text), scope)]
    case Overran(text) => [Judged(step, attempt, "", Check(false, text), scope)]
    case Exited(code, token, writes, text) =>
      var outcome := Announced(step, code, token);
      (if code == 0 && outcome.Some? && writes.Some? then [Written(step, attempt, writes.value, scope)] else [])
      + if outcome.None? || outcome.value == FAILURE then [Judged(step, attempt, "", Check(false, text), scope)] else []
  }

  lemma AttemptReports(step: StepDecl, attempt: int, scope: Scope, b: Body, before: seq<Event>, after: seq<Event>)
    requires after == before + AttemptEvents(step, attempt, scope, b)
    ensures ReportsOnly(before, after)
    ensures AttemptOf(step, b).HardFailed? ==>
              |after| > 0 && exists text :: Last(after) == Judged(step, attempt, "", Check(false, text), scope)
    ensures AttemptOf(step, b).Finished? ==>
              AttemptOf(step, b).outcome != FAILURE && AttemptOf(step, b).outcome != EXHAUSTED
              && (!step.checked ==> AttemptOf(step, b).check.ok)
  {
    if b.result.Exited? {
      TokenIsNotExhausted(step, b.result.token);
    }
  }

  /** The outcome a deterministic branch reports. */
  function BranchOutcomeOf(at: Attempt): string {
    if at.Finished? && at.check.ok then at.outcome else FAILURE
  }

  const NOT_SUCCESS := "a body resolves only to success or failure"

  /** The verdict a deterministic item journals with it: that of a check, a pass where a
      hard failure left a diagnostic behind, and why an outcome it cannot take failed it. */
  function ItemVerdictOf(body: StepDecl, at: Attempt, hardRetry: int): Option<Check> {
    if !at.Finished? then None
    else if !at.check.ok then Some(at.check)
    else if at.outcome != SUCCESS then Some(Check(false, NOT_SUCCESS))
    else if body.checked || hardRetry > 0 then Some(at.check)
    else None
  }

  /** The outcome a deterministic item resolves to: a body announcing anything but
      success has not succeeded. */
  function ItemOutcomeOf(at: Attempt): string {
    if at.Finished? && at.check.ok && at.outcome == SUCCESS then SUCCESS else FAILURE
  }

  // ---- what a dispatch tells of the attempt before it -----------------------------------

  /** A budget is recorded for the step under a real key. */
  predicate Lingering(c: Core, id: string) {
    exists ref :: ref in c.ledger.attempts && ref.step == id && ref.key != ""
  }

  /** The text of the latest failed verdict on a step. */
  function LatestFailure(events: seq<Event>, id: string): string {
    if |events| == 0 then ""
    else
      var e := Last(events);
      if e.Postcondition? && e.step == id && !e.ok then e.text else LatestFailure(Front(events), id)
  }

  /** A step is told of its latest failure while a budget under a real key is open. */
  function PreviousFailure(events: seq<Event>, id: string): string {
    if Lingering(CoreOf(events), id) then LatestFailure(events, id) else ""
  }

  /** An item is told of its own, from its second attempt on. */
  function ItemFailure(events: seq<Event>, ref: ItemRef, attempt: int): string {
    var text := LastItemError(events, ref);
    if attempt >= 2 && text.Some? then text.value else ""
  }

  /** The next attempt after a failed check is told what that check said. */
  lemma RetryIsToldItsFailure(w: Workflow, before: seq<Event>, after: seq<Event>, step: StepDecl, attempt: int,
                              key: string, check: Check, next: int)
    requires after == before + [Judged(step, attempt, key, check, Plain)] + [Entry(step, next, key, true, 0)]
    requires !check.ok && key != ""
    ensures PreviousFailure(after, step.id) == check.text
  {
    hide StepData, StepPlace, StepItems, StepBranches;
    var judged := before + [Judged(step, attempt, key, check, Plain)];
    assert Front(after) == judged && Front(judged) == before;
    assert AttemptRef(step.id, key) in CoreOf(after).ledger.attempts;
    assert LatestFailure(judged, step.id) == check.text;
  }

  /** And so is an item's. */
  lemma ItemRetryIsToldItsFailure(before: seq<Event>, after: seq<Event>, body: StepDecl, ref: ItemRef, attempt: int,
                                  key: string, check: Check, next: int)
    requires after == before + [Judged(body, attempt, key, check, InItem(ref))]
                             + [ItemEntry(ref, body.id, next, key, true, 0)]
    requires !check.ok && next >= 2 && ref.group != ""
    ensures ItemFailure(after, ref, next) == check.text
  {
    var judged := before + [Judged(body, attempt, key, check, InItem(ref))];
    assert Front(after) == judged && Front(judged) == before;
    assert LastItemError(judged, ref) == Some(check.text);
  }

  // ---- progress ---------------------------------------------------------------------

  /** Following `exhausted` routes never comes back to the same step. */
  ghost predicate ExhaustedDescends(w: Workflow, rank: string -> nat) {
    forall id :: IsStep(w, id) ==>
      var route := ResolveTarget(StepById(w, id).value, EXHAUSTED);
      route.Some? && IsStep(w, route.value.target) ==> rank(route.value.target) < rank(id)
  }

  /** Entries the run can still make: what max_steps leaves, and the one uncounted
      re-entry a crash RESUME allows. */
  ghost function Fuel(w: Workflow, c: Core): nat {
    (if Total(c.ledger.visits) >= w.maxSteps then 0 else w.maxSteps - Total(c.ledger.visits))
    + (if c.place.resumedInFlight != "" then 1 else 0)
  }

  /** An entry the cap check let through uses fuel. */
  lemma EntryUsesFuel(w: Workflow, c: Core, step: StepDecl, e: Event)
    requires IsEntry(e) && e.step == step.id && !e.retry && !CapsReached(w, c, step) && step.id != ""
    requires e.hardRetry == 0 || c.place.resumedInFlight == step.id
    ensures Fuel(w, StepCore(c, e)) < Fuel(w, c)
  {
    hide StepData, StepEnding;
    TotalOfUpdate(c.ledger.visits, e.step, Lookup(c.ledger.visits, e.step, 0) + 1);
  }

  // ---- how a call begins -----------------------------------------------------------------

  /** What a step that leaves journals next: the first violated invariant, unless its body
      has not run at all this visit, and otherwise its exit by the outcome's route. */
  ghost predicate LeftBy(w: Workflow, env: Environment, before: seq<Event>, after: seq<Event>, step: StepDecl,
                         outcome: string, ran: bool)
  {
    var violation := if ran then Violation(env, before, w.invariants) else None;
    var route := ResolveTarget(step, outcome);
    before <= after && |after| > |before| &&
    if violation.Some? then after[|before|] == RunEnd(step.id, BLOCKED, violation.value, "")
    else route.Some? && after[|before|] == ExitOf(step, Here(w, before).attempt, outcome, route.value)
  }

  function ExitOf(step: StepDecl, attempt: int, outcome: string, route: Route): Event {
    Transition(step.id, attempt, route.target, outcome, route.viaCatch, "", None)
  }

  /** The first thing appended is the step's exhausted exit when it is capped, and
      its entry when it is not. */
  ghost predicate EntersOrExhausts(w: Workflow, env: Environment, before: seq<Event>, after: seq<Event>, step: StepDecl) {
    if CapsReached(w, CoreOf(before), step) then LeftBy(w, env, before, after, step, EXHAUSTED, false)
    else |after| > |before| && before <= after && IsEntry(after[|before|]) && after[|before|].step == step.id
  }

  lemma LeftByLater(w: Workflow, env: Environment, before: seq<Event>, middle: seq<Event>, after: seq<Event>,
                    step: StepDecl, outcome: string, ran: bool)
    requires LeftBy(w, env, before, middle, step, outcome, ran) && middle <= after
    ensures LeftBy(w, env, before, after, step, outcome, ran)
  {
    hide Here;
  }

  lemma EntersLater(w: Workflow, env: Environment, before: seq<Event>, middle: seq<Event>, after: seq<Event>, step: StepDecl)
    requires !CapsReached(w, CoreOf(before), step) && middle <= after
    requires |middle| > 0 && Front(middle) == before && IsEntry(Last(middle)) && Last(middle).step == step.id
    ensures EntersOrExhausts(w, env, before, after, step)
  {
    hide CapsReached, LeftBy;
    assert after[|before|] == middle[|before|] == Last(middle);
    assert before == after[..|before|];
  }

  /** What the run goes on to does not change how its first step was begun. */
  lemma BegunOn(w: Workflow, env: Environment, start: seq<Event>, before: seq<Event>, after: seq<Event>,
                first: StepDecl, step: StepDecl)
    requires if before == start then step == first else EntersOrExhausts(w, env, start, before, first)
    requires before <= after && EntersOrExhausts(w, env, before, after, step)
    ensures EntersOrExhausts(w, env, start, after, first)
  {
    hide CapsReached, LeftBy;
    if before != start {
      if CapsReached(w, CoreOf(start), first) {
        LeftByLater(w, env, start, before, after, first, EXHAUSTED, false);
      } else {
        assert after[|start|] == before[|start|];
      }
    }
  }

  /** Exhausted and failed steps always have a route. */
  lemma ReservedIsRouted(step: StepDecl)
    ensures ResolveTarget(step, EXHAUSTED).Some? && ResolveTarget(step, FAILURE).Some?
  {
    hide ResolveTarget;
    RoutingTable(step, EXHAUSTED);
    RoutingTable(step, FAILURE);
  }

  // ---- what a failed check leads to ------------------------------------------------------

  /** The key a failure is counted under. */
  function FailureKey(hash: string -> Key, step: StepDecl, cur: Cursor, check: Check): string {
    if step.keyed then cur.key else hash(check.text)
  }

  /** The next attempt of a failed check: numbered above both the attempt just used and the
      budget recorded under the failure's key. */
  ghost function NextEntry(before: seq<Event>, step: StepDecl, attempt: int, key: string): (again: Event)
    ensures again.StepEnter? && again == Entry(step, again.attempt, key, true, 0)
    ensures var budget := RunTheorems.Budget(CoreOf(before), step.id, key);
            again.attempt == 1 + (if attempt < budget then budget else attempt)
  {
    Entry(step, NextTry(attempt, RunTheorems.Budget(CoreOf(before), step.id, key)), key, true, 0)
  }

  /** A failed check, told by the journal alone: the verdict under the failure's key, and
      then the next attempt exactly if it is within the step's attempts and may be entered.
      Otherwise the step is left, as exhausted only at a cap and as failed only past its
      attempts. */
  ghost predicate RetriedOrLeft(w: Workflow, env: Environment, before: seq<Event>, after: seq<Event>, step: StepDecl,
                                attempt: int, key: string, check: Check)
  {
    var judged := before + [Judged(step, attempt, key, check, Plain)];
    var again := NextEntry(before, step, attempt, key);
    if again.attempt <= step.attempts && CanAppend(w, judged, again) then judged + [again] <= after
    else
      || (CapsReached(w, CoreOf(before), step) && LeftBy(w, env, judged, after, step, EXHAUSTED, true))
      || (!CapsReached(w, CoreOf(before), step) && again.attempt > step.attempts
          && LeftBy(w, env, judged, after, step, FAILURE, true))
  }

  /** What one attempt of a deterministic step comes to, once its last try has run. A run
      that broke stops there, and a hard failure is left as failed. A pass journals its
      verdict, if the step is checked or a hard failure left a diagnostic behind, and takes
      the route of its outcome, if there is one. */
  ghost predicate AttemptConcluded(w: Workflow, env: Environment, hash: string -> Key, before: seq<Event>,
                                   after: seq<Event>, step: StepDecl, cur: Cursor, at: Attempt)
  {
    match at
    case Broken => after == before
    case HardFailed(_) => LeftBy(w, env, before, after, step, FAILURE, true)
    case Finished(outcome, check) =>
      if check.ok then
        var judged := before + PassVerdict(step, cur, check);
        LeftBy(w, env, judged, after, step, outcome, true)
        || (after == judged && ResolveTarget(step, outcome).None? && Violation(env, judged, w.invariants).None?)
      else RetriedOrLeft(w, env, before, after, step, cur.attempt, FailureKey(hash, step, cur, check), check)
  }

  function PassVerdict(step: StepDecl, cur: Cursor, check: Check): seq<Event> {
    if step.checked || cur.hardRetry > 0 then [Judged(step, cur.attempt, cur.key, check, Plain)] else []
  }

  /** The attempt's check failed, and its next attempt may be entered. */
  ghost predicate MayGoOn(w: Workflow, hash: string -> Key, before: seq<Event>, step: StepDecl, cur: Cursor, at: Attempt) {
    at.Finished? && !at.check.ok &&
    var key := FailureKey(hash, step, cur, at.check);
    var again := NextEntry(before, step, cur.attempt, key);
    again.attempt <= step.attempts && CanAppend(w, before + [Judged(step, cur.attempt, key, at.check, Plain)], again)
  }

  // ---- the tries of an attempt and the attempts of a visit -----------------------------------

  /** What an event belongs to. */
  function ScopeOf(e: Event): Scope {
    if IsItemEvent(e) then InItem(RefOf(e)) else if IsBranchEvent(e) then InBranch(GroupOf(e)) else Plain
  }

  /** The same try with more hard retries spent. */
  function TriedAgain(e: Event, n: nat): Event
    requires e.StepEnter?
  {
    StepEnter(e.step, e.attempt, e.key, e.retry, e.hardRetry + n, e.group, e.item, e.items)
  }

  /** The journal after the first n tries of an attempt: each is entered, and journals what
      its run comes to. */
  ghost function AfterTries(env: Environment, step: StepDecl, before: seq<Event>, first: Event, n: nat): seq<Event>
    requires first.StepEnter?
    decreases n, 0
  {
    if n == 0 then before
    else
      EnteredTry(env, step, before, first, n - 1)
      + AttemptEvents(step, first.attempt, ScopeOf(first), env.body(EnteredTry(env, step, before, first, n - 1), step.id))
  }

  /** And with one more try entered: the same attempt, with one more hard retry spent. */
  ghost function EnteredTry(env: Environment, step: StepDecl, before: seq<Event>, first: Event, n: nat): seq<Event>
    requires first.StepEnter?
    decreases n, 1
  {
    AfterTries(env, step, before, first, n) + [TriedAgain(first, n)]
  }

  /** What the try so entered comes to. */
  ghost function TryOf(env: Environment, step: StepDecl, before: seq<Event>, first: Event, n: nat): Attempt
    requires first.StepEnter?
  {
    AttemptOf(step, env.body(EnteredTry(env, step, before, first, n), step.id))
  }

  /** One attempt: the journal it was begun after, the entry of its first try, how many hard
      retries were spent in the end, and what its last try came to. */
  datatype Pass = Pass(before: seq<Event>, first: Event, tried: int, at: Attempt)

  ghost function PassEnd(env: Environment, step: StepDecl, pass: Pass): seq<Event>
    requires pass.first.StepEnter? && pass.tried >= pass.first.hardRetry
  {
    AfterTries(env, step, pass.before, pass.first, pass.tried - pass.first.hardRetry + 1)
  }

  /** It was tried again only after retryable hard failures, and as long as the retry block
      allows. */
  ghost predicate Ran(env: Environment, step: StepDecl, pass: Pass) {
    pass.first.StepEnter? && pass.tried >= pass.first.hardRetry &&
    var n := pass.tried - pass.first.hardRetry;
    && pass.at == TryOf(env, step, pass.before, pass.first, n)
    && (forall k :: 0 <= k < n ==> TryOf(env, step, pass.before, pass.first, k) == HardFailed(true))
    && (pass.at == HardFailed(true) ==> step.retryMax.None? || pass.tried + 1 >= step.retryMax.value)
  }

  function CursorOfPass(step: StepDecl, pass: Pass): Cursor
    requires pass.first.StepEnter?
  {
    Cursor(step.id, pass.first.attempt, pass.first.key, pass.tried)
  }

  ghost predicate PassConcluded(w: Workflow, env: Environment, hash: string -> Key, after: seq<Event>, step: StepDecl,
                                pass: Pass)
  {
    Ran(env, step, pass)
    && AttemptConcluded(w, env, hash, PassEnd(env, step, pass), after, step, CursorOfPass(step, pass), pass.at)
  }

  /** One pass follows another: the failed check is journaled, and the next attempt entered. */
  ghost predicate PassFollows(env: Environment, hash: string -> Key, step: StepDecl, pass: Pass, next: Pass) {
    Ran(env, step, pass) && pass.at.Finished? &&
    var cur, end := CursorOfPass(step, pass), PassEnd(env, step, pass);
    var key := FailureKey(hash, step, cur, pass.at.check);
    next.before == end + [Judged(step, cur.attempt, key, pass.at.check, Plain)]
    && next.first == NextEntry(end, step, cur.attempt, key)
  }

  /** A whole visit of a deterministic step, from the entry of its first try: every attempt
      runs and is concluded, and another follows exactly if the attempt's check failed and
      the next attempt is within the step's attempts and may be entered. */
  ghost predicate IsVisit(w: Workflow, env: Environment, hash: string -> Key, before: seq<Event>, after: seq<Event>,
                          step: StepDecl, first: Event, passes: seq<Pass>)
  {
    && |passes| > 0 && passes[0].before == before && passes[0].first == first
    && (forall i :: 0 <= i < |passes| ==> PassConcluded(w, env, hash, after, step, passes[i]))
    && (forall i :: 0 <= i < |passes| - 1 ==> PassFollows(env, hash, step, passes[i], passes[i + 1]))
    && (forall i :: 0 <= i < |passes| ==>
          (i < |passes| - 1 <==>
             MayGoOn(w, hash, PassEnd(env, step, passes[i]), step, CursorOfPass(step, passes[i]), passes[i].at)))
  }

  // ---- why a call may stop short ---------------------------------------------------------

  /** Running a body after a prefix of the journal broke, and nothing followed but what it
      journaled itself. */
  ghost predicate BrokeAt(w: Workflow, env: Environment, events: seq<Event>, k: nat, step: StepDecl, attempt: int,
                          scope: Scope)
  {
    k <= |events| && StepById(w, step.id) == Some(step) &&
    var body := env.body(events[..k], step.id);
    AttemptOf(step, body) == Broken && events == events[..k] + AttemptEvents(step, attempt, scope, body)
  }

  /** A call fails for no other reason than these: the step the run is at has an outcome
      without a route, or a body could not be run, or its check could not. */
  ghost predicate StoppedShort(w: Workflow, env: Environment, events: seq<Event>, error: EngineError) {
    match error
    case NoRoute =>
      var step := StepById(w, Here(w, events).step);
      step.Some? && exists outcome :: ResolveTarget(step.value, outcome).None?
    case Aborted => exists k: nat, step, attempt, scope :: BrokeAt(w, env, events, k, step, attempt, scope)
  }

  /** The check of a submitted or observed result could not be run. */
  predicate CheckBroke(env: Environment, step: StepDecl, events: seq<Event>) {
    step.checked && env.check(events, step.id).None?
  }

  lemma BrokeThere(w: Workflow, env: Environment, before: seq<Event>, step: StepDecl, attempt: int, scope: Scope)
    requires StepById(w, step.id) == Some(step) && AttemptOf(step, env.body(before, step.id)) == Broken
    ensures StoppedShort(w, env, before + AttemptEvents(step, attempt, scope, env.body(before, step.id)), Aborted)
  {
    hide AttemptEvents, AttemptOf;
    var events := before + AttemptEvents(step, attempt, scope, env.body(before, step.id));
    assert events[..|before|] == before;
    assert BrokeAt(w, env, events, |before|, step, attempt, scope);
  }

  lemma PassBroke(w: Workflow, env: Environment, step: StepDecl, pass: Pass)
    requires Ran(env, step, pass) && pass.at == Broken && StepById(w, step.id) == Some(step)
    ensures StoppedShort(w, env, PassEnd(env, step, pass), Aborted)
  {
    hide StoppedShort, AttemptEvents, AttemptOf;
    BrokeThere(w, env, EnteredTry(env, step, pass.before, pass.first, pass.tried - pass.first.hardRetry), step,
               pass.first.attempt, ScopeOf(pass.first));
  }

  /** The visit so far, its next try not entered yet. */
  ghost predicate VisitSoFar(w: Workflow, env: Environment, hash: string -> Key, before: seq<Event>, now: seq<Event>,
                             step: StepDecl, first: Event, passes: seq<Pass>, next: Event)
  {
    if |passes| == 0 then now == before && next == first
    else
      && passes[0].before == before && passes[0].first == first
      && (forall i :: 0 <= i < |passes| ==>
            PassConcluded(w, env, hash, now + [next], step, passes[i])
            && MayGoOn(w, hash, PassEnd(env, step, passes[i]), step, CursorOfPass(step, passes[i]), passes[i].at))
      && (forall i :: 0 <= i < |passes| - 1 ==> PassFollows(env, hash, step, passes[i], passes[i + 1]))
      && PassFollows(env, hash, step, passes[|passes| - 1], Pass(now, next, 0, Broken))
  }

  /** A pass concluded by its next attempt: what is journaled in between is its verdict. */
  lemma PassGoesOn(w: Workflow, env: Environment, hash: string -> Key, now: seq<Event>, step: StepDecl, pass: Pass,
                   again: Event)
    requires Ran(env, step, pass) && MayGoOn(w, hash, PassEnd(env, step, pass), step, CursorOfPass(step, pass), pass.at)
    requires AttemptConcluded(w, env, hash, PassEnd(env, step, pass), now + [again], step, CursorOfPass(step, pass), pass.at)
    requires |now| == |PassEnd(env, step, pass)| + 1
    ensures PassConcluded(w, env, hash, now + [again], step, pass)
    ensures PassFollows(env, hash, step, pass, Pass(now, again, 0, Broken))
  {
    hide TryOf, CanAppend, CapsReached, LeftBy, AfterTries, NextEntry, Judged, FailureKey;
    var cur, end := CursorOfPass(step, pass), PassEnd(env, step, pass);
    var judged := end + [Judged(step, cur.attempt, FailureKey(hash, step, cur, pass.at.check), pass.at.check, Plain)];
    var next := NextEntry(end, step, cur.attempt, FailureKey(hash, step, cur, pass.at.check));
    assert judged + [next] == now + [again];
    assert now == (now + [again])[..|now|] == (judged + [next])[..|judged|] == judged;
    assert next == (judged + [next])[|judged|] == (now + [again])[|now|] == again;
  }

  lemma PassTried(env: Environment, step: StepDecl, pass: Pass)
    requires Ran(env, step, pass)
    ensures pass.first.StepEnter? && pass.tried >= pass.first.hardRetry
  {}

  lemma PassIsConcluded(w: Workflow, env: Environment, hash: string -> Key, after: seq<Event>, step: StepDecl, pass: Pass)
    requires Ran(env, step, pass)
    requires AttemptConcluded(w, env, hash, PassEnd(env, step, pass), after, step, CursorOfPass(step, pass), pass.at)
    ensures PassConcluded(w, env, hash, after, step, pass)
  {}

  lemma OneMoreTry(env: Environment, step: StepDecl, before: seq<Event>, first: Event, n: nat)
    requires first.StepEnter?
    ensures EnteredTry(env, step, before, first, n)
            == AfterTries(env, step, before, first, n) + [TriedAgain(first, n)]
    ensures AfterTries(env, step, before, first, n + 1)
            == EnteredTry(env, step, before, first, n)
               + AttemptEvents(step, first.attempt, ScopeOf(first), env.body(EnteredTry(env, step, before, first, n), step.id))
    ensures TryOf(env, step, before, first, n) == AttemptOf(step, env.body(EnteredTry(env, step, before, first, n), step.id))
  {}

  lemma NoTries(env: Environment, step: StepDecl, before: seq<Event>, first: Event)
    requires first.StepEnter?
    ensures AfterTries(env, step, before, first, 0) == before
  {}

  lemma VisitBegins(w: Workflow, env: Environment, hash: string -> Key, before: seq<Event>, step: StepDecl, first: Event)
    ensures VisitSoFar(w, env, hash, before, before, step, first, [], first)
  {}

  /** What a pass that goes on comes to stands whatever follows. */
  lemma ConcludedLater(w: Workflow, env: Environment, hash: string -> Key, middle: seq<Event>, after: seq<Event>,
                       step: StepDecl, pass: Pass)
    requires PassConcluded(w, env, hash, middle, step, pass) && middle <= after
    requires MayGoOn(w, hash, PassEnd(env, step, pass), step, CursorOfPass(step, pass), pass.at)
    ensures PassConcluded(w, env, hash, after, step, pass)
  {
    hide Ran, NextEntry, CanAppend, CapsReached, LeftBy, PassEnd;
  }

  lemma VisitGoesOn(w: Workflow, env: Environment, hash: string -> Key, before: seq<Event>, middle: seq<Event>,
                    now: seq<Event>, step: StepDecl, first: Event, passes: seq<Pass>, pass: Pass, again: Event)
    requires VisitSoFar(w, env, hash, before, middle, step, first, passes, pass.first) && pass.before == middle
    requires PassConcluded(w, env, hash, now + [again], step, pass) && middle + [pass.first] <= now
    requires MayGoOn(w, hash, PassEnd(env, step, pass), step, CursorOfPass(step, pass), pass.at)
    requires PassFollows(env, hash, step, pass, Pass(now, again, 0, Broken))
    ensures VisitSoFar(w, env, hash, before, now, step, first, passes + [pass], again)
  {
    hide PassConcluded, MayGoOn, Ran, NextEntry, PassEnd, FailureKey;
    var more := passes + [pass];
    forall i | 0 <= i < |passes|
      ensures PassConcluded(w, env, hash, now + [again], step, more[i])
    {
      ConcludedLater(w, env, hash, middle + [pass.first], now + [again], step, passes[i]);
    }
  }

  lemma VisitEnds(w: Workflow, env: Environment, hash: string -> Key, before: seq<Event>, middle: seq<Event>,
                  after: seq<Event>, step: StepDecl, first: Event, passes: seq<Pass>, pass: Pass)
    requires VisitSoFar(w, env, hash, before, middle, step, first, passes, pass.first) && pass.before == middle
    requires PassConcluded(w, env, hash, after, step, pass) && middle + [pass.first] <= after
    requires !MayGoOn(w, hash, PassEnd(env, step, pass), step, CursorOfPass(step, pass), pass.at)
    ensures IsVisit(w, env, hash, before, after, step, first, passes + [pass])
  {
    hide PassConcluded, MayGoOn, Ran, NextEntry, PassEnd, FailureKey;
    var all := passes + [pass];
    forall i | 0 <= i < |passes|
      ensures PassConcluded(w, env, hash, after, step, all[i])
    {
      ConcludedLater(w, env, hash, middle + [pass.first], after, step, passes[i]);
    }
  }

  /** At a cap no further attempt may be entered. */
  lemma CappedIsNotEntered(w: Workflow, events: seq<Event>, step: StepDecl, next: int, key: string)
    requires StepById(w, step.id) == Some(step) && CapsReached(w, CoreOf(events), step)
    ensures !CanAppend(w, events, Entry(step, next, key, true, 0))
  {
    hide Fold, CapsReached, Here, LatestEntry, BeginAttempt, ListToFreeze;
  }

  /** The verdict moves neither the budgets nor the caps. */
  lemma JudgedKeeps(w: Workflow, before: seq<Event>, judged: seq<Event>, step: StepDecl, attempt: int, key: string, check: Check)
    requires judged == before + [Judged(step, attempt, key, check, Plain)]
    ensures CapsReached(w, CoreOf(judged), step) == CapsReached(w, CoreOf(before), step)
    ensures CoreOf(judged).ledger.attempts == CoreOf(before).ledger.attempts
    ensures var recorded := Lookup(CoreOf(judged).ledger.attempts, AttemptRef(step.id, key), 0);
            NextEntry(before, step, attempt, key) == Entry(step, NextTry(attempt, recorded), key, true, 0)
  {
    hide Fold, Here, LatestEntry;
    ReportsKeep(w, before, judged, step.id);
  }

  // ---- what a call leaves behind ------------------------------------------------------

  /** The run has arrived at a step by a transition, or is about to start. */
  ghost predicate Arriving(w: Workflow, events: seq<Event>, id: string) {
    var p := CoreOf(events).place;
    Running(events) && Arrived(events) && !Last(events).Resume? && p.resumedInFlight == ""
    && Here(w, events) == Cursor(id, 1, "", 0) && (p.transitioned || !p.haveEnter) && !p.inFlight
  }

  /** The run is at a step that has been entered and not left. */
  ghost predicate Inside(w: Workflow, events: seq<Event>, cur: Cursor) {
    var p := CoreOf(events).place;
    Running(events) && p.inFlight && p.haveEnter && !p.transitioned && p.lastEnter == cur
  }

  ghost predicate At(w: Workflow, events: seq<Event>, step: StepDecl) {
    Running(events) && Here(w, events).step == step.id && StepById(w, step.id) == Some(step)
  }

  /** Nothing but writes and verdicts was appended. */
  ghost predicate ReportsOnly(before: seq<Event>, after: seq<Event>) {
    before <= after && forall k :: |before| <= k < |after| ==> after[k].Writes? || after[k].Postcondition?
  }

  lemma NothingReported(events: seq<Event>)
    ensures ReportsOnly(events, events)
  {}

  lemma OneMoreReport(before: seq<Event>, middle: seq<Event>, after: seq<Event>)
    requires ReportsOnly(before, middle) && |after| > 0 && after == middle + [Last(after)]
    requires Last(after).Writes? || Last(after).Postcondition?
    ensures ReportsOnly(before, after) && before <= after
  {}

  /** A journal grown by one verdict at most is grown by nothing but verdicts. */
  lemma SummaryReported(before: seq<Event>, after: seq<Event>)
    requires after == before || (|after| > 0 && after == before + [Last(after)] && Last(after).Postcondition?)
    ensures ReportsOnly(before, after)
  {}

  /** Writes and verdicts move neither the run nor anything awaited. */
  lemma {:induction false} ReportsKeep(w: Workflow, before: seq<Event>, after: seq<Event>, id: string)
    requires ReportsOnly(before, after)
    ensures var a, b := Fold(before), Fold(after);
            && b.core.place == a.core.place && b.core.ending == a.core.ending
            && b.core.ledger.visits == a.core.ledger.visits && b.core.ledger.attempts == a.core.ledger.attempts
            && b.core.ledger.lastKey == a.core.ledger.lastKey
            && b.branches == a.branches
            && b.items.pending == a.items.pending && b.items.outcome == a.items.outcome
            && b.items.attempt == a.items.attempt && b.items.attemptKey == a.items.attemptKey
            && b.items.keyAttempts == a.items.keyAttempts
    ensures Here(w, after) == Here(w, before)
    ensures LatestEntry(after, id) == LatestEntry(before, id) && Snapshot(after, id) == Snapshot(before, id)
    ensures EnteredBranches(after, id) == EnteredBranches(before, id)
    decreases |after|
  {
    if after != before {
      var front := Front(after);
      assert before <= front && after[|after| - 1] == Last(after);
      ReportsKeep(w, before, front, id);
    }
  }

  /** The entry of a step for one try of its body. */
  function Entry(step: StepDecl, attempt: int, key: string, retry: bool, hardRetry: int): Event {
    StepEnter(step.id, attempt, key, retry, hardRetry, "", None, None)
  }

  lemma EntryIsLatest(events: seq<Event>)
    requires |events| > 0 && IsEntry(Last(events))
    ensures LatestEntry(events, Last(events).step) == Some(Last(events))
  {}

  lemma EnteredHere(w: Workflow, before: seq<Event>, after: seq<Event>)
    requires Running(before) && |after| > 0 && Front(after) == before && IsEntry(Last(after))
    ensures Inside(w, after, EnteredAs(Last(after))) && Here(w, after) == EnteredAs(Last(after))
    ensures Lookup(CoreOf(after).ledger.lastOk, Last(after).step, false)
  {
    hide StepData, StepItems, StepBranches;
    GroupTheorems.FoldOfLast(after);
  }

  /** In a try of a step: the journal's latest entry of the step is that try's. */
  ghost predicate Tried(w: Workflow, events: seq<Event>, step: StepDecl, cur: Cursor, retry: bool) {
    At(w, events, step) && Inside(w, events, cur) && cur.step == step.id && Here(w, events) == cur
    && LatestEntry(events, step.id).Some? && LatestEntry(events, step.id).value.retry == retry
  }

  lemma HardRetryAllowed(w: Workflow, events: seq<Event>, step: StepDecl, cur: Cursor, retry: bool)
    requires Tried(w, events, step, cur, retry) && step.kind.Deterministic?
    requires IsFailedVerdict(Last(events), step.id)
    requires step.retryMax.Some? && 0 <= cur.hardRetry && cur.hardRetry + 1 < step.retryMax.value
    ensures CanAppend(w, events, Entry(step, cur.attempt, cur.key, retry, cur.hardRetry + 1))
    ensures Fuel(w, StepCore(CoreOf(events), Entry(step, cur.attempt, cur.key, retry, cur.hardRetry + 1)))
         <= Fuel(w, CoreOf(events))
  {
    hide Fold, LatestEntry;
  }

  lemma JudgedIsFailed(events: seq<Event>, step: StepDecl, attempt: int, key: string, check: Check)
    requires |events| > 0 && Last(events) == Judged(step, attempt, key, check, Plain) && !check.ok
    ensures IsFailedVerdict(Last(events), step.id)
  {}

  lemma TriedHere(w: Workflow, events: seq<Event>, step: StepDecl, cur: Cursor, retry: bool)
    requires Tried(w, events, step, cur, retry)
    ensures At(w, events, step) && cur.step == step.id
    ensures step.kind.Deterministic? ==> Settled(w, Fold(events), step.id)
  {
    hide Fold, Inside, LatestEntry;
  }

  /** The verdict on a step that is not deterministic: nothing but its recorded
      verdict and the last error moves. */
  lemma StepVerdict(w: Workflow, events: seq<Event>, step: StepDecl, key: string, check: Check)
    requires At(w, events, step) && !step.kind.Parallel?
    ensures var e := Judged(step, Here(w, events).attempt, key, check, Plain);
            CanAppend(w, events, e)
  {
    hide Fold, Here;
  }

  lemma SuccessMayLeave(w: Workflow, events: seq<Event>, step: StepDecl)
    requires At(w, events, step) && step.kind.Agentic?
    requires step.checked ==> Lookup(CoreOf(events).ledger.lastOk, step.id, false)
    ensures Justified(w, events, step, SUCCESS) && Settled(w, Fold(events), step.id)
  {
    hide Fold, Here, CapsReached;
    assert SUCCESS[0] != EXHAUSTED[0];
  }

  lemma HumanMayLeave(w: Workflow, events: seq<Event>, step: StepDecl, outcome: string)
    requires At(w, events, step) && step.kind.Human?
    ensures Justified(w, events, step, outcome) && Settled(w, Fold(events), step.id)
  {
    hide Fold, Here, CapsReached;
  }

  lemma WaitMayLeave(w: Workflow, events: seq<Event>, step: StepDecl, outcome: string)
    requires At(w, events, step) && step.kind.Waiting? && outcome != EXHAUSTED
    requires outcome != FAILURE && step.checked ==> Lookup(CoreOf(events).ledger.lastOk, step.id, false)
    ensures Justified(w, events, step, outcome) && Settled(w, Fold(events), step.id)
  {
    hide Fold, Here, CapsReached;
  }

  lemma AskAllowed(w: Workflow, events: seq<Event>, step: StepDecl)
    requires Entered(w, events, step) && step.kind.Human? && IsEntry(Last(events)) && Last(events).step == step.id
    ensures CanAppend(w, events, HumanAsked(step.id, Here(w, events).attempt))
  {
    hide Fold, Here;
  }

  lemma Asked(w: Workflow, events: seq<Event>, step: StepDecl)
    requires |events| > 0 && Last(events).HumanAsked? && Entered(w, Front(events), step)
    ensures SameRun(Front(events), events) && Entered(w, events, step) && Here(w, events) == Here(w, Front(events))
  {
    hide StepItems, StepBranches, Here;
    GroupTheorems.FoldOfLast(events);
    CoreDecidesHere(w, Front(events), events);
  }

  /** The run is where a body may run in a scope, and its report is awaited. */
  ghost predicate ScopeOpen(w: Workflow, events: seq<Event>, step: StepDecl, attempt: int, scope: Scope) {
    Running(events) &&
    match scope
    case Plain => At(w, events, step) && step.kind.Deterministic? && Here(w, events).attempt == attempt
    case InBranch(group) =>
      AtParallel(w, events, group) && step.id in StepById(w, group).value.kind.branches
      && BranchRef(group, step.id) in Fold(events).branches.pending
    case InItem(ref) => AtForeach(w, events, ref, step.id) && ref.group != "" && ref in Fold(events).items.pending
  }

  /** Inside a scope a verdict and a write are allowed, and leave it open. */
  lemma ScopeAllows(w: Workflow, events: seq<Event>, step: StepDecl, attempt: int, scope: Scope, e: Event)
    requires ScopeOpen(w, events, step, attempt, scope) && Sound(w)
    requires (exists text :: e == Judged(step, attempt, "", Check(false, text), scope))
             || (exists writes :: e == Written(step, attempt, writes, scope))
    ensures CanAppend(w, events, e)
  {
    hide Fold, Here, Snapshot;
  }

  lemma ScopeStaysOpen(w: Workflow, before: seq<Event>, after: seq<Event>, step: StepDecl, attempt: int, scope: Scope)
    requires ScopeOpen(w, before, step, attempt, scope) && ReportsOnly(before, after)
    ensures ScopeOpen(w, after, step, attempt, scope)
  {
    hide Fold, Here, LatestEntry, Snapshot;
    ReportsKeep(w, before, after, if scope.InItem? then scope.ref.group else "");
  }

  // ---- entering any other step -------------------------------------------------------

  /** Inside a step: entered, not left, and the cursor is on it. */
  ghost predicate Entered(w: Workflow, events: seq<Event>, step: StepDecl) {
    At(w, events, step) && Inside(w, events, CoreOf(events).place.lastEnter)
    && CoreOf(events).place.lastEnter.step == step.id
  }

  lemma EnteredCursor(w: Workflow, events: seq<Event>, step: StepDecl)
    requires Entered(w, events, step)
    ensures Here(w, events) == CoreOf(events).place.lastEnter == CursorOf(CoreOf(events))
    ensures InKind(w, events, step.id, Here(w, events).attempt, step.kind)
  {
    hide Fold;
  }

  function FirstEntry(w: Workflow, c: Core, step: StepDecl, attempt: int, key: string): Event {
    StepEnter(step.id, attempt, key, false, 0, "", None, ListToFreeze(w, c, step.kind))
  }

  lemma FirstEntryAllowed(w: Workflow, events: seq<Event>, step: StepDecl, cur: Cursor, rendered: Key)
    requires At(w, events, step) && !step.kind.Deterministic? && step.id != ""
    requires Arrived(events) && Here(w, events) == cur && !CapsReached(w, CoreOf(events), step)
    requires step.kind.Foreach? ==> NoItemPending(Fold(events).items, step.id)
    requires step.kind.Parallel? ==> NoBranchPending(Fold(events).branches, step.id)
    ensures var (attempt, key) := BeginAttempt(step, CoreOf(events), cur, rendered);
            var entry := FirstEntry(w, CoreOf(events), step, attempt, key);
            CanAppend(w, events, entry) && Fuel(w, StepCore(CoreOf(events), entry)) < Fuel(w, CoreOf(events))
  {
    hide Fold, Here, CapsReached, Fuel, StepCore, ListToFreeze;
    var (attempt, key) := BeginAttempt(step, CoreOf(events), cur, rendered);
    EntryUsesFuel(w, CoreOf(events), step, FirstEntry(w, CoreOf(events), step, attempt, key));
  }

  /** No item of the group is awaited or resolved. */
  predicate NoneTracked(i: Items, id: string) {
    NoItemPending(i, id) && forall r :: r in i.outcome ==> r.group != id
  }

  lemma FreshlyEntered(w: Workflow, before: seq<Event>, after: seq<Event>, step: StepDecl)
    requires Running(before) && |after| > 0 && Front(after) == before && IsEntry(Last(after))
    requires StepById(w, step.id) == Some(step) && Last(after).step == step.id
    ensures Entered(w, after, step) && Here(w, after) == EnteredAs(Last(after))
    ensures LatestEntry(after, step.id) == Some(Last(after)) && EnteredBranches(after, step.id) == []
    ensures !Summarised(after, step.id)
    ensures Fold(after).branches == Fold(before).branches
    ensures Last(after).items.None? ==> Fold(after).items == Fold(before).items
    ensures Last(after).items.Some? ==> NoneTracked(Fold(after).items, step.id)
    ensures Lookup(CoreOf(after).ledger.lastOk, step.id, false)
  {
    hide StepData, StepItems, Here, Fold, Inside, NoneTracked, StepById;
    GroupTheorems.FoldOfLast(after);
    EnteredHere(w, before, after);
    EntryTracksNone(Fold(before).items, Last(after));
  }

  lemma EntryTracksNone(i: Items, e: Event)
    requires IsEntry(e)
    ensures e.items.None? ==> StepItems(i, e) == i
    ensures e.items.Some? ==> NoneTracked(StepItems(i, e), e.step)
  {}

  /** Nothing but what steps wrote and reported has changed. */
  ghost predicate SameRun(before: seq<Event>, after: seq<Event>) {
    var c, d := CoreOf(before), CoreOf(after);
    before <= after && c.place == d.place && c.ending == d.ending
    && c.ledger.visits == d.ledger.visits && c.ledger.attempts == d.ledger.attempts
    && c.ledger.lastKey == d.ledger.lastKey
  }

  lemma SameRunStays(w: Workflow, before: seq<Event>, after: seq<Event>, step: StepDecl)
    requires Running(before) && SameRun(before, after)
    ensures Running(after) && Here(w, after) == Here(w, before)
    ensures Fuel(w, CoreOf(after)) == Fuel(w, CoreOf(before))
    ensures At(w, before, step) ==> At(w, after, step)
    ensures Entered(w, before, step) ==> Entered(w, after, step)
  {
    hide Fold;
  }

  lemma NothingAwaitedOnArrival(w: Workflow, events: seq<Event>, step: StepDecl)
    requires Legal(w, events) && Arriving(w, events, step.id)
    ensures Settled(w, Fold(events), step.id) && NoItemPending(Fold(events).items, step.id)
    ensures !CoreOf(events).place.inFlight
  {
    hide Fold, Legal, Here;
    GroupTheorems.PendingItemsAreHere(w, events);
    GroupTheorems.PendingBranchesAreHere(w, events);
  }

  lemma NoBranchAwaitedOutside(w: Workflow, events: seq<Event>, id: string)
    requires Legal(w, events) && !CoreOf(events).place.inFlight
    ensures NoBranchPending(Fold(events).branches, id)
  {
    hide Fold, Legal;
    GroupTheorems.PendingBranchesAreHere(w, events);
  }

  /** A grouped event leaves the run itself exactly where it was. */
  lemma GroupedKeepsRun(w: Workflow, events: seq<Event>, step: StepDecl)
    requires |events| > 0 && GroupOf(Last(events)) != "" && (Last(events).Writes? ==> IsItemEvent(Last(events)))
    ensures Fold(events) == Step(Fold(Front(events)), Last(events)) && CoreOf(events) == CoreOf(Front(events))
    ensures SameRun(Front(events), events)
    ensures Running(Front(events)) ==> Running(events) && Here(w, events) == Here(w, Front(events))
    ensures At(w, Front(events), step) ==> At(w, events, step)
    ensures Entered(w, Front(events), step) ==> Entered(w, events, step)
    ensures LatestEntry(events, step.id) == LatestEntry(Front(events), step.id)
  {
    hide StepItems, StepBranches, Here, CursorOf;
    GroupTheorems.FoldOfLast(events);
    assert Front(events) <= events;
    CoreDecidesHere(w, Front(events), events);
  }

  lemma CoreDecidesHere(w: Workflow, a: seq<Event>, b: seq<Event>)
    requires CoreOf(a) == CoreOf(b)
    ensures Here(w, a) == Here(w, b)
  {
    hide Fold;
  }

  // ---- branches -----------------------------------------------------------------

  function BranchEntry(group: string, branch: string): Event {
    StepEnter(branch, 1, "", false, 0, group, None, None)
  }

  lemma BranchIsRunnable(w: Workflow, step: StepDecl, branch: string)
    requires Sound(w) && StepById(w, step.id) == Some(step) && step.kind.Parallel? && branch in step.kind.branches
    ensures Runnable(w, branch) && StepById(w, branch).value.id == branch
  {}

  /** A branch that is not entered yet is none of those before it. */
  lemma BranchIsNew(w: Workflow, step: StepDecl, i: nat)
    requires Sound(w) && StepById(w, step.id) == Some(step) && step.kind.Parallel? && i < |step.kind.branches|
    ensures step.kind.branches[i] !in step.kind.branches[..i]
  {}

  lemma BranchEntryAllowed(w: Workflow, events: seq<Event>, step: StepDecl, i: nat)
    requires Entered(w, events, step) && step.kind.Parallel? && step.id != ""
    requires i < |step.kind.branches| && EnteredBranches(events, step.id) == step.kind.branches[..i]
    ensures CanAppend(w, events, BranchEntry(step.id, step.kind.branches[i]))
  {
    hide Fold, EnteredBranches;
  }

  lemma BranchEntryDone(w: Workflow, events: seq<Event>, step: StepDecl, branch: string)
    requires |events| > 0 && Last(events) == BranchEntry(step.id, branch) && step.id != ""
    requires Entered(w, Front(events), step)
    ensures SameRun(Front(events), events) && Entered(w, events, step)
    ensures EnteredBranches(events, step.id) == EnteredBranches(Front(events), step.id) + [branch]
    ensures Fold(events).branches.pending == Fold(Front(events)).branches.pending + {BranchRef(step.id, branch)}
    ensures Summarised(events, step.id) == Summarised(Front(events), step.id)
  {
    hide Fold, StepItems, StepCore, SameRun, Entered, Here, LatestEntry;
    GroupedKeepsRun(w, events, step);
  }

  function BranchTransition(group: string, branch: string, attempt: int, outcome: string): Event {
    Transition(branch, attempt, JOINED, outcome, false, group, None)
  }

  lemma BranchTransitionAllowed(w: Workflow, events: seq<Event>, step: StepDecl, branch: string, attempt: int, outcome: string)
    requires At(w, events, step) && step.kind.Parallel? && step.id != ""
    requires BranchRef(step.id, branch) in Fold(events).branches.pending
    ensures CanAppend(w, events, BranchTransition(step.id, branch, attempt, outcome))
  {
    hide Fold, Here;
  }

  lemma BranchTransitionDone(w: Workflow, events: seq<Event>, step: StepDecl, branch: string, attempt: int, outcome: string)
    requires |events| > 0 && Last(events) == BranchTransition(step.id, branch, attempt, outcome) && step.id != ""
    requires Entered(w, Front(events), step)
    ensures SameRun(Front(events), events) && Entered(w, events, step)
    ensures EnteredBranches(events, step.id) == EnteredBranches(Front(events), step.id)
    ensures Fold(events).branches.pending == Fold(Front(events)).branches.pending - {BranchRef(step.id, branch)}
    ensures Lookup(Fold(events).branches.outcome, branch, "") == outcome
    ensures Summarised(events, step.id) == Summarised(Front(events), step.id)
  {
    hide Fold, StepItems, StepCore, SameRun, Entered, Here, LatestEntry;
    GroupedKeepsRun(w, events, step);
  }

  lemma EnteredIsAt(w: Workflow, events: seq<Event>, step: StepDecl)
    requires Entered(w, events, step)
    ensures At(w, events, step) && Running(events) && CoreOf(events).place.inFlight
  {
    hide Fold, Here;
  }

  lemma SameRunRefl(events: seq<Event>)
    ensures SameRun(events, events)
  {}

  lemma SameRunOn(a: seq<Event>, b: seq<Event>, c: seq<Event>)
    requires SameRun(a, b) && SameRun(b, c)
    ensures SameRun(a, c)
  {
    hide Fold;
  }

  /** Writes and verdicts appended inside a step leave it entered and its group as
      it was. */
  lemma ReportsStay(w: Workflow, before: seq<Event>, after: seq<Event>, step: StepDecl)
    requires ReportsOnly(before, after) && Running(before)
    ensures SameRun(before, after) && Fuel(w, CoreOf(after)) == Fuel(w, CoreOf(before))
    ensures Entered(w, before, step) ==> Entered(w, after, step)
    ensures Here(w, after) == Here(w, before)
    ensures EnteredBranches(after, step.id) == EnteredBranches(before, step.id)
    ensures Fold(after).branches == Fold(before).branches
  {
    hide Fold, Here, LatestEntry, EnteredBranches, Entered, Fuel;
    ReportsKeep(w, before, after, step.id);
    SameRunStays(w, before, after, step);
  }

  lemma BranchScopeOpen(w: Workflow, events: seq<Event>, step: StepDecl, branch: StepDecl, attempt: int)
    requires Entered(w, events, step) && step.kind.Parallel?
    requires branch.id in step.kind.branches && BranchRef(step.id, branch.id) in Fold(events).branches.pending
    ensures ScopeOpen(w, events, branch, attempt, InBranch(step.id))
  {
    hide Fold, Here;
  }

  lemma BranchVerdictAllowed(w: Workflow, events: seq<Event>, step: StepDecl, branch: StepDecl, attempt: int, check: Check)
    requires Entered(w, events, step) && step.kind.Parallel? && step.id != ""
    requires BranchRef(step.id, branch.id) in Fold(events).branches.pending
    ensures CanAppend(w, events, Judged(branch, attempt, "", check, InBranch(step.id)))
  {
    hide Fold, Here;
  }

  lemma ParallelMayLeave(w: Workflow, events: seq<Event>, step: StepDecl, outcome: string)
    requires Entered(w, events, step) && step.kind.Parallel? && NoBranchPending(Fold(events).branches, step.id)
    requires outcome == GroupOutcome(Fold(events).branches, step.kind.branches)
    ensures At(w, events, step) && Justified(w, events, step, outcome) && Settled(w, Fold(events), step.id)
  {
    hide Fold, Here, CapsReached;
  }

  // ---- items ------------------------------------------------------------------------

  /** The run is at a foreach step it has entered, or was resumed at. */
  ghost predicate InForeach(w: Workflow, events: seq<Event>, step: StepDecl) {
    At(w, events, step) && step.kind.Foreach? && step.id != ""
    && CoreOf(events).place.haveEnter && !CoreOf(events).place.transitioned
  }

  lemma InForeachCursor(w: Workflow, events: seq<Event>, step: StepDecl)
    requires InForeach(w, events, step)
    ensures Running(events) && CursorOf(CoreOf(events)) == Here(w, events) && Here(w, events).step == step.id
    ensures At(w, events, step)
  {
    hide Fold;
  }

  lemma SameRunForeach(w: Workflow, before: seq<Event>, after: seq<Event>, step: StepDecl)
    requires InForeach(w, before, step) && SameRun(before, after)
    ensures InForeach(w, after, step) && Here(w, after) == Here(w, before)
    ensures Fuel(w, CoreOf(after)) == Fuel(w, CoreOf(before))
  {
    hide Fold, Here, Fuel;
    SameRunStays(w, before, after, step);
  }

  function ItemEntry(ref: ItemRef, body: string, attempt: int, key: string, retry: bool, hardRetry: int): Event {
    StepEnter(body, attempt, key, retry, hardRetry, ref.group, Some(ref.index), None)
  }

  ghost predicate Iterating(w: Workflow, events: seq<Event>, step: StepDecl, body: StepDecl, ref: ItemRef) {
    InForeach(w, events, step) && step.kind.body == body.id && StepById(w, body.id) == Some(body)
    && ref.group == step.id && 0 <= ref.index < |Snapshot(events, step.id)|
  }

  lemma FreshItemAllowed(w: Workflow, events: seq<Event>, step: StepDecl, body: StepDecl, ref: ItemRef, key: string)
    requires Iterating(w, events, step, body, ref) && ref !in Fold(events).items.outcome
    requires (key != "") == (body.keyed && body.kind.Agentic?)
    ensures CanAppend(w, events, ItemEntry(ref, body.id, 1, key, false, 0))
  {
    hide Fold, Here, Snapshot;
  }

  lemma HardItemAllowed(w: Workflow, events: seq<Event>, step: StepDecl, body: StepDecl, ref: ItemRef, hardRetry: int)
    requires Iterating(w, events, step, body, ref) && ref !in Fold(events).items.outcome
    requires ref in Fold(events).items.pending && IsFailedItemVerdict(Last(events), ref)
    requires body.kind.Deterministic? && body.retryMax.Some? && 1 <= hardRetry < body.retryMax.value
    ensures CanAppend(w, events, ItemEntry(ref, body.id, 1, "", false, hardRetry))
  {
    hide Fold, Here, Snapshot;
  }

  lemma ResumedItemAllowed(w: Workflow, events: seq<Event>, step: StepDecl, body: StepDecl, ref: ItemRef)
    requires Iterating(w, events, step, body, ref) && ref !in Fold(events).items.outcome
    requires body.kind.Agentic? && Lookup(Fold(events).items.attempt, ref, 0) > 1
    ensures var i := Fold(events).items;
            CanAppend(w, events, ItemEntry(ref, body.id, Lookup(i.attempt, ref, 0), Lookup(i.attemptKey, ref, ""), true, 0))
  {
    hide Fold, Here, Snapshot;
    AttemptedIsTracked(events);
  }

  lemma RetriedItemAllowed(w: Workflow, events: seq<Event>, step: StepDecl, body: StepDecl, ref: ItemRef,
                           key: string, next: int)
    requires Iterating(w, events, step, body, ref) && ref !in Fold(events).items.outcome
    requires ref in Fold(events).items.pending && body.kind.Agentic?
    requires IsFailedItemVerdict(Last(events), ref) && Last(events).key == key
    requires Last(events).attempt == Lookup(Fold(events).items.attempt, ref, 0)
    requires next == NextTry(Last(events).attempt, Lookup(Lookup(Fold(events).items.keyAttempts, ref, map[]), key, 0))
    requires next <= body.attempts && next <= step.maxVisits
    ensures CanAppend(w, events, ItemEntry(ref, body.id, next, key, true, 0))
  {
    hide Fold, Here, Snapshot;
  }

  /** An item that was ever tried under the current list is awaited or resolved. */
  lemma {:induction false} AttemptedIsTracked(events: seq<Event>)
    ensures var i := Fold(events).items; forall r :: r in i.attempt ==> r in i.pending || r in i.outcome
  {
    hide StepCore, StepBranches;
    if |events| > 0 {
      AttemptedIsTracked(Front(events));
    }
  }

  lemma ItemEntryDone(w: Workflow, events: seq<Event>, step: StepDecl, body: StepDecl, ref: ItemRef)
    requires |events| > 0 && Last(events).StepEnter? && IsItemEvent(Last(events)) && RefOf(Last(events)) == ref
    requires Iterating(w, Front(events), step, body, ref) && ref !in Fold(Front(events)).items.outcome
    ensures SameRun(Front(events), events) && Iterating(w, events, step, body, ref)
    ensures Snapshot(events, step.id) == Snapshot(Front(events), step.id)
    ensures var i, j := Fold(Front(events)).items, Fold(events).items;
            j.pending == i.pending + {ref} && j.outcome == i.outcome && j.attempt == i.attempt[ref := Last(events).attempt]
  {
    hide Fold, StepBranches, StepCore, Here, LatestEntry;
    GroupedKeepsRun(w, events, step);
  }

  lemma ItemVerdictDone(w: Workflow, events: seq<Event>, step: StepDecl, body: StepDecl, ref: ItemRef)
    requires |events| > 0 && Last(events).Postcondition? && IsItemEvent(Last(events))
    requires Iterating(w, Front(events), step, body, ref)
    ensures SameRun(Front(events), events) && Iterating(w, events, step, body, ref)
    ensures Snapshot(events, step.id) == Snapshot(Front(events), step.id)
    ensures Fold(events).items == Fold(Front(events)).items
  {
    hide Fold, StepBranches, StepCore, Here, LatestEntry;
    GroupedKeepsRun(w, events, step);
  }

  function ItemTransition(ref: ItemRef, body: string, attempt: int, outcome: string): Event {
    Transition(body, attempt, JOINED, outcome, false, ref.group, Some(ref.index))
  }

  lemma ItemReportAllowed(w: Workflow, events: seq<Event>, step: StepDecl, body: StepDecl, ref: ItemRef, e: Event)
    requires Iterating(w, events, step, body, ref) && ref in Fold(events).items.pending
    requires (exists a, k, c :: e == Judged(body, a, k, c, InItem(ref)))
             || (exists a, m :: e == Written(body, a, m, InItem(ref)))
             || (exists a :: e == ItemTransition(ref, body.id, a, SUCCESS) || e == ItemTransition(ref, body.id, a, FAILURE))
    ensures CanAppend(w, events, e)
  {
    hide Fold, Here, Snapshot;
  }

  lemma ItemTransitionDone(w: Workflow, events: seq<Event>, step: StepDecl, body: StepDecl, ref: ItemRef)
    requires |events| > 0 && Last(events).Transition? && IsItemEvent(Last(events)) && RefOf(Last(events)) == ref
    requires Iterating(w, Front(events), step, body, ref)
    ensures SameRun(Front(events), events) && Iterating(w, events, step, body, ref)
    ensures Snapshot(events, step.id) == Snapshot(Front(events), step.id)
    ensures var i, j := Fold(Front(events)).items, Fold(events).items;
            j.pending == i.pending - {ref} && j.outcome == i.outcome[ref := Last(events).outcome] && j.attempt == i.attempt
  {
    hide Fold, StepBranches, StepCore, Here, LatestEntry;
    GroupedKeepsRun(w, events, step);
  }

  lemma ItemScopeOpen(w: Workflow, events: seq<Event>, step: StepDecl, body: StepDecl, ref: ItemRef, attempt: int)
    requires Iterating(w, events, step, body, ref) && ref in Fold(events).items.pending
    ensures ScopeOpen(w, events, body, attempt, InItem(ref))
  {
    hide Fold, Here, Snapshot;
  }

  /** Writes and verdicts of a body leave its item, and every other, as awaited and
      resolved as they were. */
  lemma ItemReportsStay(w: Workflow, before: seq<Event>, after: seq<Event>, step: StepDecl, body: StepDecl, ref: ItemRef)
    requires Iterating(w, before, step, body, ref) && ReportsOnly(before, after)
    ensures SameRun(before, after) && Iterating(w, after, step, body, ref)
    ensures Snapshot(after, step.id) == Snapshot(before, step.id)
    ensures var i, j := Fold(before).items, Fold(after).items;
            j.pending == i.pending && j.outcome == i.outcome && j.attempt == i.attempt
  {
    hide Fold, Here, LatestEntry, Snapshot;
    ReportsKeep(w, before, after, step.id);
  }

  lemma IteratingGroup(w: Workflow, events: seq<Event>, step: StepDecl, body: StepDecl, ref: ItemRef)
    requires Iterating(w, events, step, body, ref)
    ensures ref.group == step.id && ref.group != "" && InForeach(w, events, step)
    ensures StepById(w, body.id) == Some(body)
  {
    hide Fold, Here, Snapshot;
  }

  lemma BodyIsRunnable(w: Workflow, step: StepDecl)
    requires Sound(w) && StepById(w, step.id) == Some(step) && step.kind.Foreach?
    ensures Runnable(w, step.kind.body) && StepById(w, step.kind.body).value.id == step.kind.body
  {}

  /** What a fresh entry of a foreach step sets up. */
  lemma EnteredForeach(w: Workflow, events: seq<Event>, step: StepDecl)
    requires Entered(w, events, step) && step.kind.Foreach? && step.id != ""
    requires LatestEntry(events, step.id) == Some(Last(events))
    ensures InForeach(w, events, step)
    ensures Snapshot(events, step.id) == if Last(events).items.Some? then Last(events).items.value else []
  {
    hide Fold, Here;
  }

  lemma EmptyJoin(events: seq<Event>, id: string)
    ensures JoinList(events, id, []) == []
  {}

  ghost predicate HandedItem(i: Items, group: string, d: Dispatch, bound: int) {
    d.item.Some? && 0 <= d.item.value < bound
    && ItemRef(group, d.item.value) in i.pending && Lookup(i.attempt, ItemRef(group, d.item.value), 0) == d.attempt
  }

  /** An item is awaited, resolved and tried as it was. */
  ghost predicate SameItem(i: Items, j: Items, r: ItemRef) {
    (r in i.pending <==> r in j.pending) && (r in i.outcome <==> r in j.outcome)
    && Lookup(i.attempt, r, 0) == Lookup(j.attempt, r, 0)
  }

  /** Every awaited item below a bound is among the dispatches. */
  ghost predicate AllItemsHanded(i: Items, group: string, ds: seq<Dispatch>, bound: int) {
    forall k :: 0 <= k < bound && ItemRef(group, k) in i.pending ==> HandsOutItem(ds, ItemRef(group, k))
  }

  lemma OthersStand(i: Items, j: Items, group: string, index: int, ds: seq<Dispatch>)
    requires forall r :: r != ItemRef(group, index) ==> SameItem(i, j, r)
    requires forall d :: d in ds ==> HandedItem(i, group, d, index)
    ensures forall d :: d in ds ==> HandedItem(j, group, d, index)
    ensures forall k :: k != index ==> (Resolved(i, group, k) <==> Resolved(j, group, k))
    ensures Covered(i, group, index) ==> Covered(j, group, index)
    ensures AllItemsHanded(i, group, ds, index) ==> AllItemsHanded(j, group, ds, index)
  {
    forall d | d in ds
      ensures HandedItem(j, group, d, index)
    {
      assert HandedItem(i, group, d, index);
      assert SameItem(i, j, ItemRef(group, d.item.value));
    }
    forall k | k != index
      ensures Resolved(i, group, k) <==> Resolved(j, group, k)
      ensures ItemRef(group, k) in i.pending <==> ItemRef(group, k) in j.pending
    {
      assert SameItem(i, j, ItemRef(group, k));
    }
  }

  lemma OneMoreItem(w: Workflow, events: seq<Event>, group: string, ds: seq<Dispatch>, more: seq<Dispatch>, index: int)
    requires Legal(w, events) && AllItemsHanded(Fold(events).items, group, ds, index)
    requires forall d :: d in ds ==> d in more
    requires Resolved(Fold(events).items, group, index) || HandsOutItem(more, ItemRef(group, index))
    ensures AllItemsHanded(Fold(events).items, group, more, index + 1)
  {
    hide Fold, Legal;
    GroupTheorems.PendingAndResolvedAreDisjoint(w, events);
    forall k | 0 <= k < index + 1 && ItemRef(group, k) in Fold(events).items.pending
      ensures HandsOutItem(more, ItemRef(group, k))
    {
      if k < index {
        assert HandsOutItem(ds, ItemRef(group, k));
      }
    }
  }

  lemma OnlyResolved(i: Items, j: Items, group: string, index: int)
    requires j.outcome == i.outcome[ItemRef(group, index) := Lookup(j.outcome, ItemRef(group, index), "")]
    ensures forall k :: Resolved(j, group, k) <==> Resolved(i, group, k) || k == index
  {}

  /** A list is never joined while one of its items is awaited. */
  lemma JoinedNoneAwaited(w: Workflow, events: seq<Event>, step: StepDecl)
    requires Legal(w, events) && MayJoin(events, step.id, |Snapshot(events, step.id)|)
    ensures NoItemPending(Fold(events).items, step.id)
  {
    hide Fold, Legal, Snapshot, AllResolved, NoItemPending;
    if AllResolved(Fold(events).items, step.id, |Snapshot(events, step.id)|) {
      AllResolvedNoneAwaited(w, events, step);
    }
  }

  /** Once every item of the list is resolved, none is awaited. */
  lemma AllResolvedNoneAwaited(w: Workflow, events: seq<Event>, step: StepDecl)
    requires Legal(w, events)
    requires AllResolved(Fold(events).items, step.id, |Snapshot(events, step.id)|)
    ensures NoItemPending(Fold(events).items, step.id)
  {
    hide Fold, Legal, Snapshot, LatestEntry;
    GroupTheorems.PendingItemsAreHere(w, events);
    GroupTheorems.PendingAndResolvedAreDisjoint(w, events);
    forall i | 0 <= i < |Snapshot(events, step.id)|
      ensures ItemRef(step.id, i) !in Fold(events).items.pending
    {
      assert Resolved(Fold(events).items, step.id, i);
    }
    forall r | r in Fold(events).items.pending
      ensures r.group != step.id
    {
      assert GroupTheorems.AwaitsItem(w, events, r);
      assert r == ItemRef(r.group, r.index);
    }
  }

  /** With no list frozen, no item of the step is awaited. */
  lemma NoListNoneAwaited(w: Workflow, events: seq<Event>, id: string)
    requires Legal(w, events) && |Snapshot(events, id)| == 0
    ensures NoItemPending(Fold(events).items, id)
  {
    hide Fold, Legal, Snapshot, LatestEntry;
    GroupTheorems.PendingItemsAreHere(w, events);
  }

  // ---- the foreach join -------------------------------------------------------------

  function CollectEvent(step: StepDecl, attempt: int, list: seq<Json>): Event
    requires step.kind.Foreach?
  {
    Writes(step.id, attempt, map[step.kind.collect := Arr(list)], "", None)
  }

  lemma CollectAllowed(w: Workflow, events: seq<Event>, step: StepDecl)
    requires At(w, events, step) && step.kind.Foreach? && MayJoin(events, step.id, |Snapshot(events, step.id)|)
    ensures CanAppend(w, events, CollectEvent(step, Here(w, events).attempt,
                                              JoinList(events, step.id, Snapshot(events, step.id))))
  {
    hide Fold, Here, Snapshot, JoinList, MayJoin;
  }

  /** The journaled list moves nothing but the run's own state. */
  lemma CollectDone(w: Workflow, events: seq<Event>, step: StepDecl)
    requires |events| > 0 && Last(events).Writes? && Last(events).group == "" && At(w, Front(events), step)
    ensures SameRun(Front(events), events) && At(w, events, step)
    ensures Fuel(w, CoreOf(events)) == Fuel(w, CoreOf(Front(events)))
    ensures Fold(events).items == Fold(Front(events)).items
    ensures Snapshot(events, step.id) == Snapshot(Front(events), step.id)
  {
    hide Fold, Here, LatestEntry, StepCore, StepBranches, Fuel;
    GroupTheorems.FoldOfLast(events);
    assert ReportsOnly(Front(events), events);
    ReportsKeep(w, Front(events), events, step.id);
    SameRunStays(w, Front(events), events, step);
  }

  lemma ForeachMayLeave(w: Workflow, events: seq<Event>, step: StepDecl, outcome: string)
    requires At(w, events, step) && step.kind.Foreach? && NoItemPending(Fold(events).items, step.id)
    requires Last(events).Writes? && Last(events).group == "" && step.kind.collect in Last(events).writes
    requires var n := |Snapshot(events, step.id)|;
             outcome == JoinOutcome(Fold(events).items, step.id, n)
             || (n == 0 && (outcome == FAILURE || outcome == EXHAUSTED))
    ensures Justified(w, events, step, outcome) && Settled(w, Fold(events), step.id)
  {
    hide Fold, Here, CapsReached, Snapshot, JoinOutcome;
  }

  // ---- the summary of a failed group ------------------------------------------------

  function SummaryOf(step: StepDecl, attempt: int, check: Check): Event {
    Postcondition(step.id, attempt, "", check.ok, if check.ok then "" else check.text, true, "", None)
  }

  lemma SummaryAllowed(w: Workflow, events: seq<Event>, step: StepDecl, check: Check)
    requires Entered(w, events, step) && step.kind.Parallel?
    requires check.ok || !Summarised(events, step.id)
    ensures CanAppend(w, events, SummaryOf(step, Here(w, events).attempt, check))
  {
    hide Fold, Here;
  }

  /** Each branch's latest failure text since the group was last entered. */
  function BranchTexts(events: seq<Event>, id: string): map<string, string> {
    if |events| == 0 then map[]
    else
      var e := Last(events);
      if IsEntry(e) && e.step == id then map[]
      else if e.Postcondition? && !e.ok && e.group == id && e.item.None? then
        BranchTexts(Front(events), id)[e.step := e.text]
      else BranchTexts(Front(events), id)
  }

  /** One part per branch that did not succeed, in declared order. */
  function SummaryText(branches: seq<string>, b: Branches, texts: map<string, string>): string {
    if |branches| == 0 then ""
    else
      var rest := SummaryText(branches[1..], b, texts);
      var id := branches[0];
      if Lookup(b.outcome, id, "") == SUCCESS then rest
      else
        var part := if Lookup(texts, id, "") != "" then "branch \"" + id + "\": " + texts[id]
                    else "branch \"" + id + "\" failed";
        if rest == "" then part else part + "; " + rest
  }

  /** Exactly these dispatches stand for the awaited branches of a group. */
  ghost predicate Handed(b: Branches, group: string, ds: seq<Dispatch>) {
    && (forall d :: d in ds ==> d.item.None? && BranchRef(group, d.step) in b.pending)
    && (forall r :: r in b.pending && r.group == group ==> HandsOutBranch(ds, r))
  }

  // ---- why each route of a deterministic step is justified ---------------------------

  lemma ExhaustedOnArrival(w: Workflow, events: seq<Event>, step: StepDecl)
    requires At(w, events, step) && Arrived(events) && CapsReached(w, CoreOf(events), step)
    requires Settled(w, Fold(events), step.id) || !(step.kind.Parallel? || step.kind.Foreach?)
    ensures Justified(w, events, step, EXHAUSTED)
  {
    hide Fold, Here, CapsReached;
  }

  lemma ExhaustedAfterFailure(w: Workflow, events: seq<Event>, step: StepDecl)
    requires At(w, events, step) && IsFailedVerdict(Last(events), step.id) && CapsReached(w, CoreOf(events), step)
    requires step.kind.Deterministic? || step.kind.Agentic?
    ensures Justified(w, events, step, EXHAUSTED) && Settled(w, Fold(events), step.id)
  {
    hide Fold, Here, CapsReached;
  }

  lemma FailureMayLeave(w: Workflow, events: seq<Event>, step: StepDecl)
    requires At(w, events, step) && (step.kind.Deterministic? || step.kind.Agentic? || step.kind.Waiting?)
    ensures Justified(w, events, step, FAILURE) && Settled(w, Fold(events), step.id)
  {
    hide Fold, Here, CapsReached;
    assert FAILURE[0] != EXHAUSTED[0];
  }

  lemma PassedMayLeave(w: Workflow, events: seq<Event>, step: StepDecl, outcome: string)
    requires At(w, events, step) && step.kind.Deterministic? && outcome != EXHAUSTED
    requires Lookup(CoreOf(events).ledger.lastOk, step.id, false)
    ensures Justified(w, events, step, outcome) && Settled(w, Fold(events), step.id)
  {
    hide Fold, Here, CapsReached;
  }

  lemma FirstTryAllowed(w: Workflow, events: seq<Event>, step: StepDecl, cur: Cursor, rendered: Key)
    requires At(w, events, step) && step.kind.Deterministic? && step.id != ""
    requires Arrived(events) && Here(w, events) == cur && !CapsReached(w, CoreOf(events), step)
    requires cur.hardRetry == 0 || CoreOf(events).place.resumedInFlight == step.id
    ensures var (attempt, key) := BeginAttempt(step, CoreOf(events), cur, rendered);
            CanAppend(w, events, Entry(step, attempt, key, false, cur.hardRetry))
            && Fuel(w, StepCore(CoreOf(events), Entry(step, attempt, key, false, cur.hardRetry)))
               < Fuel(w, CoreOf(events))
  {
    hide Fold, Here, CapsReached, Fuel, StepCore;
    var (attempt, key) := BeginAttempt(step, CoreOf(events), cur, rendered);
    EntryUsesFuel(w, CoreOf(events), step, Entry(step, attempt, key, false, cur.hardRetry));
  }

  lemma JudgeAllowed(w: Workflow, events: seq<Event>, step: StepDecl, cur: Cursor, retry: bool, key: string, check: Check)
    requires Tried(w, events, step, cur, retry) && step.kind.Deterministic?
    ensures CanAppend(w, events, Judged(step, cur.attempt, key, check, Plain))
  {
    hide Fold, LatestEntry, Inside;
  }

  lemma NextAttemptAllowed(w: Workflow, events: seq<Event>, step: StepDecl, cur: Cursor, retry: bool,
                           key: string, next: int)
    requires Tried(w, events, step, cur, retry) && step.kind.Deterministic? && !CapsReached(w, CoreOf(events), step)
    requires exists check: Check :: !check.ok && Last(events) == Judged(step, cur.attempt, key, check, Plain)
    requires next == NextTry(cur.attempt, Lookup(CoreOf(events).ledger.attempts, AttemptRef(step.id, key), 0))
    requires next <= step.attempts && (step.keyed ==> key == cur.key)
    ensures CanAppend(w, events, Entry(step, next, key, true, 0))
    ensures Fuel(w, StepCore(CoreOf(events), Entry(step, next, key, true, 0))) <= Fuel(w, CoreOf(events))
  {
    hide Fold, LatestEntry, CapsReached;
  }

  lemma TokenIsNotExhausted(step: StepDecl, token: string)
    ensures RoutableToken(step, token) ==> token != EXHAUSTED && (token == FAILURE || token in step.outcomes)
    ensures SUCCESS != FAILURE && SUCCESS != EXHAUSTED
  {
    assert SUCCESS[0] != FAILURE[0] && FAILURE[0] != EXHAUSTED[0] && SUCCESS[0] != EXHAUSTED[0];
  }

  /** A verdict on one run of a body, stamped with what it belongs to. */
  function Judged(step: StepDecl, attempt: int, key: string, check: Check, scope: Scope): Event {
    Postcondition(step.id, attempt, key, check.ok, if check.ok then "" else check.text, false,
                  match scope case Plain => "" case InBranch(group) => group case InItem(ref) => ref.group,
                  if scope.InItem? then Some(scope.ref.index) else None)
  }

  function Written(step: StepDecl, attempt: int, writes: map<string, Json>, scope: Scope): Event {
    Writes(step.id, attempt, writes, if scope.InItem? then scope.ref.group else "",
           if scope.InItem? then Some(scope.ref.index) else None)
  }

  // ---- what an instruction says about the journal ------------------------------------

  ghost predicate InKind(w: Workflow, events: seq<Event>, id: string, attempt: int, kind: Kind) {
    var p := CoreOf(events).place;
    Running(events) && p.inFlight && CursorOf(CoreOf(events)).step == id && CursorOf(CoreOf(events)).attempt == attempt
    && IsStep(w, id) && StepById(w, id).value.kind == kind
  }

  /** A branch or an item that has been handed out and not reported. */
  ghost predicate MemberAwaited(w: Workflow, events: seq<Event>, group: string, d: Dispatch) {
    if d.item.None? then BranchRef(group, d.step) in Fold(events).branches.pending
    else
      var ref := ItemRef(group, d.item.value);
      ref in Fold(events).items.pending && Lookup(Fold(events).items.attempt, ref, 0) == d.attempt
  }

  /** Every item of a foreach step has been handed out: none still waits for its
      first entry. */
  ghost predicate HandedOut(w: Workflow, events: seq<Event>, group: string) {
    IsStep(w, group) && StepById(w, group).value.kind.Foreach? ==>
      Covered(Fold(events).items, group, |Snapshot(events, group)|)
  }

  /** Some dispatch stands for the awaited branch or item. */
  ghost predicate HandsOutBranch(ds: seq<Dispatch>, r: BranchRef) {
    exists d :: d in ds && d.item.None? && d.step == r.step
  }

  ghost predicate HandsOutItem(ds: seq<Dispatch>, r: ItemRef) {
    exists d :: d in ds && d.item == Some(r.index)
  }

  /** Nothing awaited of the group is left out, unless one item alone is handed out
      again. */
  ghost predicate NoneLeftOut(events: seq<Event>, group: string, ds: seq<Dispatch>) {
    && (forall r :: r in Fold(events).branches.pending && r.group == group ==> HandsOutBranch(ds, r))
    && (|ds| == 1 || forall r :: r in Fold(events).items.pending && r.group == group ==> HandsOutItem(ds, r))
  }

  /** An instruction handed back is what the journal is waiting for. */
  ghost predicate IsAwaited(w: Workflow, events: seq<Event>, instruction: Instruction) {
    match instruction
    case DispatchOne(d) => d.item.None? && InKind(w, events, d.step, d.attempt, Agentic)
    case DispatchMany(group, attempt, agentic) =>
      Running(events) && CursorOf(CoreOf(events)).step == group && CursorOf(CoreOf(events)).attempt == attempt
      && |agentic| > 0 && (forall d :: d in agentic ==> MemberAwaited(w, events, group, d))
      && NoneLeftOut(events, group, agentic)
    case BranchRecorded(group, branch, remaining) =>
      Running(events) && remaining != {} && remaining == AwaitedBranches(Fold(events).branches, group)
    case ItemRecorded(group, index, awaited) =>
      Running(events) && awaited != {} && awaited == AwaitedItems(Fold(events).items, group)
    case Wait(step) => InKind(w, events, step, CursorOf(CoreOf(events)).attempt, Waiting)
    case Ask(step, attempt) => InKind(w, events, step, attempt, Human)
    case Done(status, _, _) => CoreOf(events).ending.ended && CoreOf(events).ending.status == status
  }

  /** And if it is of a foreach step, every item was handed out before. */
  ghost predicate Stands(w: Workflow, events: seq<Event>, instruction: Instruction) {
    IsAwaited(w, events, instruction) &&
    match instruction
    case DispatchMany(group, _, _) => HandedOut(w, events, group)
    case ItemRecorded(group, _, _) => HandedOut(w, events, group)
    case _ => true
  }

  lemma StandingIsAwaited(w: Workflow, events: seq<Event>, r: Result<Instruction, EngineError>)
    requires r.Success? ==> Stands(w, events, r.value)
    ensures r.Success? ==> IsAwaited(w, events, r.value)
  {}

  function AwaitedBranches(b: Branches, group: string): set<string> {
    set r | r in b.pending && r.group == group :: r.step
  }

  function AwaitedItems(i: Items, group: string): set<int> {
    set r | r in i.pending && r.group == group :: r.index
  }

  lemma EndedStands(w: Workflow, events: seq<Event>, instruction: Instruction)
    requires |events| > 0 && Last(events).RunEnd? && instruction.Done? && instruction.status == Last(events).status
    ensures Stands(w, events, instruction)
  {}
}
