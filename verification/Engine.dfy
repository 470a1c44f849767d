/**
  The engine (internal/engine): every call replays the journal, decides, and
  appends. `Append` demands that the protocol allows the event, so each method
  is verified to write legal journals only, at every point where a crash may
  fall; termination of every call is part of the verification.

  What commands, checks, people and the clock answer is the environment's, which is
  arbitrary and may change between calls.
 */
module EngineModel {
  import opened Wrappers
  import opened JsonValues
  import opened Journal
  import opened Workflows
  import opened Protocol
  import opened EngineRules
  import opened SubmitRules
  import RunTheorems
  import GroupTheorems

  class Engine {
    const w: Workflow
    const hash: string -> Key
    ghost const rank: string -> nat
    var env: Environment
    var events: seq<Event>

    ghost predicate Valid()
      reads this
    {
      Legal(w, events) && ExhaustedDescends(w, rank) && Sound(w)
    }

    constructor (w: Workflow, hash: string -> Key, env: Environment, ghost rank: string -> nat)
      requires ExhaustedDescends(w, rank) && Sound(w)
      ensures Valid() && events == [] && this.w == w && this.hash == hash && this.rank == rank
    {
      this.w, this.hash, this.env, this.rank, this.events := w, hash, env, rank, [];
    }

    /** Journal one event: it must be one the protocol allows. */
    method Append(e: Event)
      requires Valid() && CanAppend(w, events, e)
      modifies this`events
      ensures Valid() && events == old(events) + [e]
      ensures Front(events) == old(events) && Last(events) == e
      ensures Fold(events) == Step(old(Fold(events)), e)
    {
      AppendIsLegal(w, events, e);
      events := events + [e];
    }

    /** A crash loses whatever was not yet appended. */
    method Crash(survives: nat)
      requires Valid() && survives <= |events|
      modifies this`events
      ensures Valid() && events == old(events)[..survives]
    {
      PrefixIsLegal(w, events, survives);
      events := events[..survives];
    }

    /** Evaluate the invariants in order; the first violated one blocks the run
        before any transition is journaled. */
    method InvariantBlock(step: StepDecl) returns (blocked: Option<Instruction>)
      requires Valid() && At(w, events, step) && Settled(w, Fold(events), step.id)
      modifies this`events
      ensures Valid()
      ensures match Violation(env, old(events), w.invariants)
              case None => blocked.None? && events == old(events)
              case Some(reason) =>
                blocked == Some(Done(BLOCKED, step.id, "invariant"))
                && events == old(events) + [RunEnd(step.id, BLOCKED, reason, "")] && Blocked(CoreOf(events))
    {
      hide ExhaustedDescends, Sound;
      var i := 0;
      while i < w.invariants
        invariant 0 <= i <= w.invariants && events == old(events)
        invariant Violation(env, events, i).None?
      {
        var violation := env.violated(events, i);
        if violation.Some? {
          ViolationStays(env, events, i + 1, w.invariants);
          Append(RunEnd(step.id, BLOCKED, violation.value, ""));
          return Some(Done(BLOCKED, step.id, "invariant"));
        }
        i := i + 1;
      }
      blocked := None;
    }

    /** Take the route of an outcome: journal the step's own transition, and the
        end of the run when the target is a terminal. */
    method LeaveBy(step: StepDecl, outcome: string) returns (r: Advance)
      requires Valid() && At(w, events, step) && Justified(w, events, step, outcome)
      modifies this`events
      ensures Valid() && old(events) <= events
      ensures r.Fail? <==> ResolveTarget(step, outcome).None?
      ensures r.Fail? ==> r.error == NoRoute && events == old(events)
      ensures !r.Fail? ==>
                var route := ResolveTarget(step, outcome).value;
                var exit := Transition(step.id, old(Here(w, events)).attempt, route.target, outcome, route.viaCatch,
                                       "", None);
                if IsStep(w, route.target) then
                  r == Go(route.target) && events == old(events) + [exit] && Arriving(w, events, route.target)
                  && Fuel(w, CoreOf(events)) <= old(Fuel(w, CoreOf(events)))
                else
                  var status := EndStatusOf(w, route.target);
                  r == Stop(Done(status, route.target, outcome))
                  && events == old(events) + [exit]
                       + [RunEnd(step.id, status,
                                 if status == BLOCKED then BlockReason(step.id, outcome) else "", "")]
      ensures r.Stop? && r.instruction.Done? ==>
                var target := ResolveTarget(step, outcome).value.target;
                r.instruction.status == (if target in w.terminals then w.terminals[target]
                                         else if target == BLOCKED then BLOCKED else "ok")
      ensures Unnamed(step, outcome) && (outcome == FAILURE || outcome == EXHAUSTED) && BlockedIsImplicit() ==>
                r == Stop(Done(BLOCKED, BLOCKED, outcome)) && Blocked(CoreOf(events))
                && BlocksAt(old(events), events, step, outcome)
      ensures Unnamed(step, outcome) && outcome != FAILURE && outcome != EXHAUSTED && IsStep(w, step.next) && step.next != "" ==>
                r == Go(step.next)
                && events == old(events) + [Transition(step.id, old(Here(w, events)).attempt, step.next, outcome, false, "", None)]
    {
      hide ExhaustedDescends, Sound, Justified, ResolveTarget;
      RoutingTable(step, outcome);
      var route := ResolveTarget(step, outcome);
      if route.None? {
        return Fail(NoRoute);
      }
      var target := route.value.target;
      Append(Transition(step.id, CursorHere().attempt, target, outcome, route.value.viaCatch, "", None));
      if StepById(w, target).Some? {
        return Go(target);
      }
      var status := EndStatusOf(w, target);
      Append(RunEnd(step.id, status, if status == BLOCKED then BlockReason(step.id, outcome) else "", ""));
      r := Stop(Done(status, target, outcome));
    }

    function CursorHere(): Cursor
      reads this
    {
      Here(w, events)
    }

    /** The workflow says nothing of `blocked`: it names neither a step nor a declared
        terminal. */
    predicate BlockedIsImplicit() {
      !IsStep(w, BLOCKED) && BLOCKED !in w.terminals
    }

    /** The run ends blocked at the step, for the outcome. */
    predicate BlocksAt(before: seq<Event>, after: seq<Event>, step: StepDecl, outcome: string) {
      after == before + [Transition(step.id, Here(w, before).attempt, BLOCKED, outcome, true, "", None)]
                      + [RunEnd(step.id, BLOCKED, step.id + ": " + outcome, "")]
    }

    /** Leave with an outcome, evaluating invariants first unless the body has not
        run at all this visit. */
    method RouteReserved(step: StepDecl, outcome: string, withInvariants: bool) returns (r: Advance)
      requires Valid() && At(w, events, step) && Justified(w, events, step, outcome)
      requires withInvariants ==> Settled(w, Fold(events), step.id)
      modifies this`events
      ensures Valid() && old(events) <= events
      ensures r.Go? ==>
                Arriving(w, events, r.step) && IsStep(w, r.step)
                && Fuel(w, CoreOf(events)) <= old(Fuel(w, CoreOf(events)))
                && ResolveTarget(step, outcome).Some? && r.step == ResolveTarget(step, outcome).value.target
      ensures r.Stop? ==> Stands(w, events, r.instruction)
      ensures r.Fail? ==> StoppedShort(w, env, events, r.error)
      ensures if r.Fail? then events == old(events) && ResolveTarget(step, outcome).None? && r.error == NoRoute
              else LeftBy(w, env, old(events), events, step, outcome, withInvariants) && |events| > |old(events)|
      ensures withInvariants && Violation(env, old(events), w.invariants).Some? ==>
                r == Stop(Done(BLOCKED, step.id, "invariant")) && |events| == |old(events)| + 1
      ensures !(withInvariants && Violation(env, old(events), w.invariants).Some?) && Unnamed(step, outcome)
              && (outcome == FAILURE || outcome == EXHAUSTED) && BlockedIsImplicit() ==>
                r == Stop(Done(BLOCKED, BLOCKED, outcome)) && BlocksAt(old(events), events, step, outcome)
    {
      hide Justified, Settled, Legal, CanAppend, Here, Fold;
      if withInvariants {
        var blocked := InvariantBlock(step);
        if blocked.Some? {
          return Stop(blocked.value);
        }
      }
      r := LeaveBy(step, outcome);
      if r.Stop? {
        EndedStands(w, events, r.instruction);
      }
    }

    // ---- one attempt of a deterministic body ----------------------------------------

    /** Journal the text of a failure that no postcondition judged. */
    method Diagnose(step: StepDecl, attempt: int, scope: Scope, text: string)
      requires Valid() && ScopeOpen(w, events, step, attempt, scope)
      modifies this`events
      ensures Valid() && ScopeOpen(w, events, step, attempt, scope)
      ensures events == old(events) + [Judged(step, attempt, "", Check(false, text), scope)]
    {
      hide Fold, Legal, CanAppend, ScopeOpen;
      ScopeAllows(w, events, step, attempt, scope, Judged(step, attempt, "", Check(false, text), scope));
      Append(Judged(step, attempt, "", Check(false, text), scope));
      ScopeStaysOpen(w, old(events), events, step, attempt, scope);
    }

    /** Journal what a body wrote: an item's writes stay with the item, any
        other body's become state of the run. */
    method JournalWrites(step: StepDecl, attempt: int, scope: Scope, writes: map<string, Json>)
      requires Valid() && ScopeOpen(w, events, step, attempt, scope)
      modifies this`events
      ensures Valid() && ScopeOpen(w, events, step, attempt, scope)
      ensures events == old(events) + [Written(step, attempt, writes, scope)]
      ensures CoreOf(events).ledger.lastOk == old(CoreOf(events).ledger.lastOk)
    {
      hide Fold, Legal, CanAppend, ScopeOpen;
      ScopeAllows(w, events, step, attempt, scope, Written(step, attempt, writes, scope));
      Append(Written(step, attempt, writes, scope));
      ScopeStaysOpen(w, old(events), events, step, attempt, scope);
    }

    /** Run a body once: its writes, and the diagnostic of a hard failure, are
        journaled; the postcondition is evaluated but not yet journaled. */
    method RunAttempt(step: StepDecl, attempt: int, scope: Scope, b: Body) returns (at: Attempt)
      requires Valid() && ScopeOpen(w, events, step, attempt, scope)
      modifies this`events
      ensures Valid() && ScopeOpen(w, events, step, attempt, scope)
      ensures at == AttemptOf(step, b) && events == old(events) + AttemptEvents(step, attempt, scope, b)
      ensures !at.HardFailed? ==> CoreOf(events).ledger.lastOk == old(CoreOf(events).ledger.lastOk)
    {
      hide Fold, ScopeOpen, Legal, CanAppend, RoutableToken, NamesOutcomes;
      match b.result
      case NotRun =>
        at := Broken;
      case BadOutput(text) =>
        Diagnose(step, attempt, scope, text);
        at := HardFailed(true);
      case Overran(text) =>
        Diagnose(step, attempt, scope, text);
        at := HardFailed(true);
      case Exited(code, token, writes, text) =>
        var outcome := if code != 0 then FAILURE else if NamesOutcomes(step) then token else SUCCESS;
        if code == 0 && NamesOutcomes(step) && !RoutableToken(step, token) {
          // a line that names no routable outcome is unintelligible output
          Diagnose(step, attempt, scope, text);
          return HardFailed(true);
        }
        if code == 0 && writes.Some? {
          JournalWrites(step, attempt, scope, writes.value);
        }
        if outcome == FAILURE {
          Diagnose(step, attempt, scope, text);
          return HardFailed(code != 0);
        }
        if !step.checked {
          at := Finished(outcome, Check(true, ""));
        } else if b.check.Some? {
          at := Finished(outcome, b.check.value);
        } else {
          at := Broken;
        }
    }

    // ---- deterministic steps ----------------------------------------------------------

    /** Run the body of one attempt, and run it again after a hard failure as often
        as the retry block allows. Each try is journaled before it runs. */
    method RunTries(step: StepDecl, attempt: int, key: string, retry: bool, firstTry: int)
      returns (at: Attempt, tried: int)
      requires Valid() && StepById(w, step.id) == Some(step) && step.kind.Deterministic? && firstTry >= 0
      requires Running(events) && CanAppend(w, events, Entry(step, attempt, key, retry, firstTry))
      modifies this`events
      ensures Valid() && old(events) <= events
      ensures Tried(w, events, step, Cursor(step.id, attempt, key, tried), retry) && tried >= firstTry
      ensures old(events) + [Entry(step, attempt, key, retry, firstTry)] <= events
      ensures Fuel(w, CoreOf(events)) <= old(Fuel(w, StepCore(CoreOf(events), Entry(step, attempt, key, retry, firstTry))))
      ensures at.Finished? ==> Lookup(CoreOf(events).ledger.lastOk, step.id, false)
      ensures at.Finished? ==> at.outcome != FAILURE && at.outcome != EXHAUSTED && (!step.checked ==> at.check.ok)
      ensures var pass := Pass(old(events), Entry(step, attempt, key, retry, firstTry), tried, at);
              Ran(env, step, pass) && events == PassEnd(env, step, pass)
    {
      hide Fold, Legal, CanAppend, Here, Fuel, AttemptOf, AttemptEvents, ScopeOpen, Inside, LatestEntry, StepCore,
           IsFailedVerdict, AfterTries, EnteredTry, TryOf, ExhaustedDescends, Sound, CursorOf;
      tried := firstTry;
      ghost var first := Entry(step, attempt, key, retry, firstTry);
      ghost var fuel := Fuel(w, StepCore(CoreOf(events), first));
      ghost var body;
      NoTries(env, step, old(events), first);
      OneMoreTry(env, step, old(events), first, 0);
      at, body := RunTry(step, attempt, key, retry, tried);
      while at.HardFailed? && at.retryable && step.retryMax.Some? && tried + 1 < step.retryMax.value
        invariant Valid() && old(events) + [first] <= events
        invariant Tried(w, events, step, Cursor(step.id, attempt, key, tried), retry) && tried >= firstTry
        invariant Fuel(w, CoreOf(events)) <= fuel
        invariant at.HardFailed? ==> Running(events) && IsFailedVerdict(Last(events), step.id)
        invariant at.Finished? ==> Lookup(CoreOf(events).ledger.lastOk, step.id, false)
        invariant at.Finished? ==> at.outcome != FAILURE && at.outcome != EXHAUSTED && (!step.checked ==> at.check.ok)
        invariant events == AfterTries(env, step, old(events), first, tried - firstTry + 1)
        invariant at == TryOf(env, step, old(events), first, tried - firstTry)
        invariant forall k :: 0 <= k < tried - firstTry ==> TryOf(env, step, old(events), first, k) == HardFailed(true)
        decreases if step.retryMax.Some? then step.retryMax.value - tried else 0
      {
        hide Tried;
        HardRetryAllowed(w, events, step, Cursor(step.id, attempt, key, tried), retry);
        tried := tried + 1;
        OneMoreTry(env, step, old(events), first, tried - firstTry);
        at, body := RunTry(step, attempt, key, retry, tried);
      }
    }

    /** Enter the step for one try and run the body once. */
    method RunTry(step: StepDecl, attempt: int, key: string, retry: bool, hardRetry: int)
      returns (at: Attempt, ghost body: Body)
      requires Valid() && StepById(w, step.id) == Some(step) && step.kind.Deterministic?
      requires Running(events) && CanAppend(w, events, Entry(step, attempt, key, retry, hardRetry))
      modifies this`events
      ensures Valid() && old(events) <= events
      ensures Tried(w, events, step, Cursor(step.id, attempt, key, hardRetry), retry)
      ensures old(events) + [Entry(step, attempt, key, retry, hardRetry)] <= events
      ensures Fuel(w, CoreOf(events)) == old(Fuel(w, StepCore(CoreOf(events), Entry(step, attempt, key, retry, hardRetry))))
      ensures at.HardFailed? ==> Running(events) && IsFailedVerdict(Last(events), step.id)
      ensures at.Finished? ==> Lookup(CoreOf(events).ledger.lastOk, step.id, false)
      ensures at.Finished? ==> at.outcome != FAILURE && at.outcome != EXHAUSTED && (!step.checked ==> at.check.ok)
      ensures at == AttemptOf(step, body)
      ensures body == env.body(old(events) + [Entry(step, attempt, key, retry, hardRetry)], step.id)
      ensures events == old(events) + [Entry(step, attempt, key, retry, hardRetry)] + AttemptEvents(step, attempt, Plain, body)
    {
      hide Fold, Legal, CanAppend, LatestEntry, Total, StepData, StepEnding, AttemptOf, AttemptEvents, ReportsOnly;
      Append(Entry(step, attempt, key, retry, hardRetry));
      EntryIsLatest(events);
      ghost var entered := events;
      EnteredHere(w, old(events), entered);
      var answer := env.body(events, step.id);
      body := answer;
      at := RunAttempt(step, attempt, Plain, answer);
      AttemptReports(step, attempt, Plain, answer, entered, events);
      ReportsKeep(w, entered, events, step.id);
    }

    /** Run one visit of a deterministic step: attempts of the body until one
        passes, the budget is spent or the caps are hit, then the outcome's route. */
    method AdvanceDeterministic(step: StepDecl, cur: Cursor) returns (r: Advance, ghost passes: seq<Pass>)
      requires Valid() && At(w, events, step) && step.kind.Deterministic? && step.id != ""
      requires Arrived(events) && Here(w, events) == cur && cur.hardRetry >= 0
      requires cur.hardRetry == 0 || CoreOf(events).place.resumedInFlight == step.id
      modifies this`events
      ensures Valid() && old(events) <= events
      ensures r.Go? ==> Arriving(w, events, r.step) && IsStep(w, r.step)
      ensures r.Go? ==> Descends(old(events), events, step.id, r.step) && |events| > |old(events)|
      ensures r.Stop? ==> Stands(w, events, r.instruction)
      ensures r.Fail? ==> StoppedShort(w, env, events, r.error)
      ensures EntersOrExhausts(w, env, old(events), events, step)
      ensures !CapsReached(w, old(CoreOf(events)), step) ==>
                var (attempt, key) := BeginAttempt(step, old(CoreOf(events)), cur, env.key(old(events), step.id));
                IsVisit(w, env, hash, old(events), events, step, Entry(step, attempt, key, false, cur.hardRetry), passes)
    {
      hide Fold, Legal, CanAppend, Here, BeginAttempt, Arrived, CapsReached, Fuel, Stands, Justified, Settled,
           Tried, StepCore, LatestEntry, ResolveTarget, IsFailedVerdict, Inside, Arriving, VisitSoFar, IsVisit,
           PassConcluded, AttemptConcluded, MayGoOn, Ran, PassEnd, PassFollows, LeftBy, Sound,
           StoppedShort,
           NextEntry, CursorOf;
      passes := [];
      ghost var fuel := Fuel(w, CoreOf(events));
      var capped := CheckCaps(w, CoreOf(events), step);
      if capped {
        ExhaustedOnArrival(w, events, step);
        ReservedIsRouted(step);
        r := RouteReserved(step, EXHAUSTED, false);
        return;
      }
      var rendered := env.key(events, step.id);
      var (attempt, key) := BeginAttempt(step, CoreOf(events), cur, rendered);
      var retry, hardRetry := false, cur.hardRetry;
      FirstTryAllowed(w, events, step, cur, rendered);
      ghost var first := Entry(step, attempt, key, retry, hardRetry);
      VisitBegins(w, env, hash, events, step, first);
      while true
        invariant Valid() && hardRetry >= 0
        invariant Running(events) && StepById(w, step.id) == Some(step)
        invariant CanAppend(w, events, Entry(step, attempt, key, retry, hardRetry))
        invariant Fuel(w, StepCore(CoreOf(events), Entry(step, attempt, key, retry, hardRetry))) < fuel
        invariant old(events) + [first] <= events + [Entry(step, attempt, key, retry, hardRetry)]
        invariant VisitSoFar(w, env, hash, old(events), events, step, first, passes, Entry(step, attempt, key, retry, hardRetry))
        decreases step.attempts - attempt
      {
        ghost var before := events;
        var next: Option<Cursor>;
        ghost var pass;
        r, next, pass := RunOneAttempt(step, attempt, key, retry, hardRetry);
        if next.None? {
          EntersLater(w, env, old(events), old(events) + [first], events, step);
          VisitEnds(w, env, hash, old(events), before, events, step, first, passes, pass);
          passes := passes + [pass];
          return;
        }
        attempt, key, retry, hardRetry := next.value.attempt, next.value.key, true, 0;
        VisitGoesOn(w, env, hash, old(events), before, events, step, first, passes, pass, Entry(step, attempt, key, true, 0));
        passes := passes + [pass];
      }
    }

    /** One attempt of a visit: its tries, and what it comes to. */
    method RunOneAttempt(step: StepDecl, attempt: int, key: string, retry: bool, firstTry: int)
      returns (r: Advance, next: Option<Cursor>, ghost pass: Pass)
      requires Valid() && StepById(w, step.id) == Some(step) && step.kind.Deterministic? && firstTry >= 0
      requires Running(events) && CanAppend(w, events, Entry(step, attempt, key, retry, firstTry))
      modifies this`events
      ensures Valid() && old(events) + [Entry(step, attempt, key, retry, firstTry)] <= events
      ensures next.None? && r.Go? ==>
                Arriving(w, events, r.step) && IsStep(w, r.step)
                && Fuel(w, CoreOf(events)) <= old(Fuel(w, StepCore(CoreOf(events), Entry(step, attempt, key, retry, firstTry))))
      ensures next.None? && r.Stop? ==> Stands(w, events, r.instruction)
      ensures next.None? && r.Fail? ==> StoppedShort(w, env, events, r.error)
      ensures next.Some? ==>
                var again := Entry(step, next.value.attempt, next.value.key, true, 0);
                Running(events) && CanAppend(w, events, again) && attempt < next.value.attempt <= step.attempts
                && Fuel(w, StepCore(CoreOf(events), again))
                   <= old(Fuel(w, StepCore(CoreOf(events), Entry(step, attempt, key, retry, firstTry))))
                && PassConcluded(w, env, hash, events + [again], step, pass)
                && PassFollows(env, hash, step, pass, Pass(events, again, 0, Broken))
      ensures pass.before == old(events) && pass.first == Entry(step, attempt, key, retry, firstTry)
      ensures Ran(env, step, pass)
      ensures next.None? ==> PassConcluded(w, env, hash, events, step, pass)
      ensures next.Some? <==> MayGoOn(w, hash, PassEnd(env, step, pass), step, CursorOfPass(step, pass), pass.at)
    {
      hide Fold, Legal, CanAppend, Here, Fuel, Stands, Tried, StepCore, LatestEntry, Arriving, PassConcluded,
           AttemptConcluded, MayGoOn, Ran, PassEnd, PassFollows, StoppedShort, ExhaustedDescends, Sound;
      var at, tried := RunTries(step, attempt, key, retry, firstTry);
      pass := Pass(old(events), Entry(step, attempt, key, retry, firstTry), tried, at);
      PassTried(env, step, pass);
      if at.Broken? {
        PassBroke(w, env, step, pass);
      }
      r, next := ResolveAttempt(step, Cursor(step.id, attempt, key, tried), retry, at);
      if next.None? {
        PassIsConcluded(w, env, hash, events, step, pass);
      } else {
        PassGoesOn(w, env, hash, events, step, pass, Entry(step, next.value.attempt, next.value.key, true, 0));
      }
    }

    /** What an attempt comes to: its route, or another attempt after a failed
        check while the caps and the budget allow one. */
    method ResolveAttempt(step: StepDecl, cur: Cursor, ghost retry: bool, at: Attempt)
      returns (r: Advance, next: Option<Cursor>)
      requires Valid() && Tried(w, events, step, cur, retry) && step.kind.Deterministic?
      requires at.Finished? ==> Lookup(CoreOf(events).ledger.lastOk, step.id, false)
      requires at.Finished? ==> at.outcome != FAILURE && at.outcome != EXHAUSTED && (!step.checked ==> at.check.ok)
      modifies this`events
      ensures Valid() && old(events) <= events
      ensures next.None? && r.Go? ==>
                Arriving(w, events, r.step) && IsStep(w, r.step)
                && Fuel(w, CoreOf(events)) <= old(Fuel(w, CoreOf(events)))
      ensures next.None? && r.Stop? ==> Stands(w, events, r.instruction)
      ensures next.Some? ==>
                var again := Entry(step, next.value.attempt, next.value.key, true, 0);
                Running(events) && StepById(w, step.id) == Some(step) && CanAppend(w, events, again)
                && Fuel(w, StepCore(CoreOf(events), again)) <= old(Fuel(w, CoreOf(events)))
                && cur.attempt < next.value.attempt <= step.attempts
      ensures next.None? ==> AttemptConcluded(w, env, hash, old(events), events, step, cur, at)
      ensures next.Some? ==>
                var again := Entry(step, next.value.attempt, next.value.key, true, 0);
                next.value == EnteredAs(again) && |events| == |old(events)| + 1
                && AttemptConcluded(w, env, hash, old(events), events + [again], step, cur, at)
      ensures next.Some? <==> MayGoOn(w, hash, old(events), step, cur, at)
      ensures at.Broken? ==> events == old(events)
      ensures next.None? && r.Fail? ==>
                if at.Broken? then r.error == Aborted else StoppedShort(w, env, events, r.error)
    {
      hide Fold, Legal, CanAppend, Here, Arrived, CapsReached, Fuel, Stands, Justified, Settled,
           Tried, StepCore, LatestEntry, ResolveTarget, IsFailedVerdict, Inside, Arriving, LeftBy, NextEntry;
      next, r := None, Fail(Aborted);
      TriedHere(w, events, step, cur, retry);
      ReservedIsRouted(step);
      if at.Broken? {
        return;
      }
      if at.HardFailed? {
        FailureMayLeave(w, events, step);
        r := RouteReserved(step, FAILURE, true);
        return;
      }
      if at.check.ok {
        // a recovered hard failure left its diagnostic behind: a pass clears it
        if step.checked || cur.hardRetry > 0 {
          Judge(step, cur, retry, cur.key, at.check);
        }
        assert events == old(events) + PassVerdict(step, cur, at.check);
        PassedMayLeave(w, events, step, at.outcome);
        r := RouteReserved(step, at.outcome, true);
        return;
      }
      var nextKey := if step.keyed then cur.key else hash(at.check.text);
      Judge(step, cur, retry, nextKey, at.check);
      JudgedIsFailed(events, step, cur.attempt, nextKey, at.check);
      ghost var judged := events;
      JudgedKeeps(w, old(events), judged, step, cur.attempt, nextKey, at.check);
      var capped := CheckCaps(w, CoreOf(events), step);
      if capped {
        CappedIsNotEntered(w, events, step, NextEntry(old(events), step, cur.attempt, nextKey).attempt, nextKey);
        ExhaustedAfterFailure(w, events, step);
        r := RouteReserved(step, EXHAUSTED, true);
        return;
      }
      var recorded := Lookup(CoreOf(events).ledger.attempts, AttemptRef(step.id, nextKey), 0);
      var nextAttempt := NextTry(cur.attempt, recorded);
      if nextAttempt > step.attempts {
        FailureMayLeave(w, events, step);
        r := RouteReserved(step, FAILURE, true);
        return;
      }
      NextAttemptAllowed(w, events, step, cur, retry, nextKey, nextAttempt);
      TriedHere(w, events, step, cur, retry);
      next := Some(Cursor(step.id, nextAttempt, nextKey, 0));
    }

    /** Journal the verdict of a check on the attempt just made. */
    method Judge(step: StepDecl, ghost cur: Cursor, ghost retry: bool, key: string, check: Check)
      requires Valid() && Tried(w, events, step, cur, retry) && step.kind.Deterministic?
      modifies this`events
      ensures Valid() && Tried(w, events, step, cur, retry) && At(w, events, step)
      ensures events == old(events) + [Judged(step, cur.attempt, key, check, Plain)]
      ensures Last(events) == Judged(step, cur.attempt, key, check, Plain)
      ensures Lookup(CoreOf(events).ledger.lastOk, step.id, false) == check.ok
      ensures Fuel(w, CoreOf(events)) == old(Fuel(w, CoreOf(events)))
    {
      hide Fold, Legal, CanAppend, LatestEntry, Total, StepData, StepEnding;
      JudgeAllowed(w, events, step, cur, retry, key, check);
      Append(Judged(step, CursorHere().attempt, key, check, Plain));
      ReportsKeep(w, old(events), events, step.id);
    }

    /** Going on at a step uses up fuel, or follows an `exhausted` route. */
    ghost predicate Descends(before: seq<Event>, after: seq<Event>, from: string, to: string)
      reads this
    {
      Fuel(w, CoreOf(after)) < Fuel(w, CoreOf(before))
      || (Fuel(w, CoreOf(after)) <= Fuel(w, CoreOf(before)) && rank(to) < rank(from))
    }

    // ---- the run loop -----------------------------------------------------------------

    /** Execute consecutive deterministic steps, and hand over at the first step of
        another kind or at a terminal. */
    method RunFrom(id: string) returns (r: Result<Instruction, EngineError>)
      requires Valid() && Arriving(w, events, id) && IsStep(w, id)
      modifies this`events
      ensures Valid() && old(events) <= events
      ensures r.Success? ==> Stands(w, events, r.value)
      ensures EntersOrExhausts(w, env, old(events), events, StepById(w, id).value)
      ensures r.Failure? ==> StoppedShort(w, env, events, r.error)
      decreases Fuel(w, CoreOf(events)), 0, rank(id), 3
    {
      hide Fold, Legal, CanAppend, Fuel, Stands, Settled, EntersOrExhausts;
      var cur := id;
      while true
        invariant Valid() && old(events) <= events && Arriving(w, events, cur) && IsStep(w, cur)
        invariant (cur == id && Fuel(w, CoreOf(events)) == old(Fuel(w, CoreOf(events))))
                  || Descends(old(events), events, id, cur)
        invariant if events == old(events) then cur == id
                  else EntersOrExhausts(w, env, old(events), events, StepById(w, id).value)
        decreases Fuel(w, CoreOf(events)), rank(cur)
      {
        var step := StepById(w, cur).value;
        if !step.kind.Deterministic? {
          ghost var before := events;
          r := HandOver(step);
          BegunOn(w, env, old(events), before, events, StepById(w, id).value, step);
          return;
        }
        ghost var before := events;
        var advance;
        ghost var passes;
        advance, passes := AdvanceDeterministic(step, Cursor(cur, 1, "", 0));
        BegunOn(w, env, old(events), before, events, StepById(w, id).value, step);
        if advance.Fail? {
          return Failure(advance.error);
        }
        if advance.Stop? {
          return Success(advance.instruction);
        }
        assert Descends(before, events, cur, advance.step);
        cur := advance.step;
      }
    }

    /** Dispatch, park or ask at a step the run loop does not execute itself. */
    method HandOver(step: StepDecl) returns (r: Result<Instruction, EngineError>)
      requires Valid() && Arriving(w, events, step.id) && StepById(w, step.id) == Some(step)
      requires !step.kind.Deterministic?
      modifies this`events
      ensures Valid() && old(events) <= events
      ensures r.Success? ==> Stands(w, events, r.value)
      ensures EntersOrExhausts(w, env, old(events), events, step)
      ensures r.Failure? ==> StoppedShort(w, env, events, r.error)
      decreases Fuel(w, CoreOf(events)), 0, rank(step.id), 2
    {
      hide Fold, Legal, CanAppend, Fuel, Stands, Settled, EntersOrExhausts;
      var here := Cursor(step.id, 1, "", 0);
      match step.kind
      case Agentic => r := DispatchAgentic(step, here, false);
      case Waiting => r := ParkWait(step, here, false);
      case Human => r := DispatchHuman(step, here);
      case Parallel(_) =>
        NothingAwaitedOnArrival(w, events, step);
        ghost var ran;
        r, ran := DispatchParallel(step, here, false);
      case Foreach(_, _, _, _) =>
        NothingAwaitedOnArrival(w, events, step);
        r := DispatchForeach(step, here);
    }

    /** The top-of-visit cap: leave as exhausted without entering the step. */
    method LeaveExhausted(step: StepDecl) returns (r: Result<Instruction, EngineError>)
      requires Valid() && At(w, events, step) && Arrived(events) && CapsReached(w, CoreOf(events), step)
      requires Settled(w, Fold(events), step.id)
      modifies this`events
      ensures Valid() && old(events) <= events
      ensures r.Success? ==> Stands(w, events, r.value)
      ensures LeftBy(w, env, old(events), events, step, EXHAUSTED, false)
      ensures r.Failure? ==> StoppedShort(w, env, events, r.error)
      decreases Fuel(w, CoreOf(events)), 0, rank(step.id), 0
    {
      hide Fold, Legal, CanAppend, Fuel, Stands, Settled, Justified, CapsReached, ResolveTarget, Arriving, Arrived, Here,
           LeftBy;
      ExhaustedOnArrival(w, events, step);
      ReservedIsRouted(step);
      var advance := RouteReserved(step, EXHAUSTED, false);
      ghost var left := events;
      match advance {
        case Go(next) => r := RunFrom(next);
        case Stop(instruction) => r := Success(instruction);
        case Fail(error) => return Failure(error);
      }
      LeftByLater(w, env, old(events), left, events, step, EXHAUSTED, false);
    }

    /** Leave a step that has done its work, and go on. */
    method RouteOn(step: StepDecl, outcome: string) returns (r: Result<Instruction, EngineError>)
      requires Valid() && At(w, events, step) && Justified(w, events, step, outcome)
      requires Settled(w, Fold(events), step.id)
      modifies this`events
      ensures Valid() && old(events) <= events
      ensures r.Success? ==> Stands(w, events, r.value)
      ensures if events == old(events) then r == Failure(NoRoute) && ResolveTarget(step, outcome).None?
              else LeftBy(w, env, old(events), events, step, outcome, true)
      ensures r.Failure? ==> StoppedShort(w, env, events, r.error)
      decreases Fuel(w, CoreOf(events)), 1, 0, 0
    {
      hide Fold, Legal, CanAppend, Fuel, Stands, Settled, Justified, ResolveTarget, Arriving, Here, LeftBy;
      var advance := RouteReserved(step, outcome, true);
      ghost var left := events;
      match advance {
        case Go(next) => r := RunFrom(next);
        case Stop(instruction) => r := Success(instruction);
        case Fail(error) => return Failure(error);
      }
      LeftByLater(w, env, old(events), left, events, step, outcome, true);
    }

    /** The entry every kind but the deterministic one makes, at the attempt and key
        its cursor and its attempt_key give. */
    method EnterStep(step: StepDecl, cur: Cursor)
      requires Valid() && At(w, events, step) && !step.kind.Deterministic? && step.id != ""
      requires Arrived(events) && Here(w, events) == cur && !CapsReached(w, CoreOf(events), step)
      requires step.kind.Foreach? ==> NoItemPending(Fold(events).items, step.id)
      requires step.kind.Parallel? ==> NoBranchPending(Fold(events).branches, step.id)
      modifies this`events
      ensures Valid() && old(events) <= events && Entered(w, events, step)
      ensures Front(events) == old(events) && IsEntry(Last(events)) && Here(w, events) == EnteredAs(Last(events))
      ensures var (attempt, key) := BeginAttempt(step, old(CoreOf(events)), cur, env.key(old(events), step.id));
              Last(events) == FirstEntry(w, old(CoreOf(events)), step, attempt, key)
      ensures LatestEntry(events, step.id) == Some(Last(events)) && EnteredBranches(events, step.id) == []
      ensures !Summarised(events, step.id)
      ensures Fold(events).branches == old(Fold(events).branches)
      ensures Last(events).items.None? ==> Fold(events).items == old(Fold(events).items)
      ensures Last(events).items.Some? ==> NoneTracked(Fold(events).items, step.id)
      ensures Lookup(CoreOf(events).ledger.lastOk, step.id, false)
      ensures Fuel(w, CoreOf(events)) < old(Fuel(w, CoreOf(events)))
    {
      hide Fold, Legal, CanAppend, Fuel, Here, CapsReached, BeginAttempt, ListToFreeze, Entered, Summarised,
           EnteredBranches, LatestEntry, StepCore;
      var rendered := env.key(events, step.id);
      var (attempt, key) := BeginAttempt(step, CoreOf(events), cur, rendered);
      FirstEntryAllowed(w, events, step, cur, rendered);
      Append(FirstEntry(w, CoreOf(events), step, attempt, key));
      FreshlyEntered(w, old(events), events, step);
    }

    // ---- agentic, wait and human steps --------------------------------------------------

    /** Enter an agentic step and hand its dispatch to the caller; a context that
        cannot be gathered is a failure of the step, not of the call. */
    method DispatchAgentic(step: StepDecl, cur: Cursor, interrupted: bool)
      returns (r: Result<Instruction, EngineError>)
      requires Valid() && At(w, events, step) && step.kind.Agentic? && step.id != ""
      requires Arrived(events) && Here(w, events) == cur
      modifies this`events
      ensures Valid() && old(events) <= events
      ensures r.Success? ==> Stands(w, events, r.value)
      ensures EntersOrExhausts(w, env, old(events), events, step)
      ensures !CapsReached(w, old(CoreOf(events)), step) ==>
                |events| > |old(events)| &&
                if env.ready(events[..|old(events)| + 1], step.id)
                then |events| == |old(events)| + 1
                     && r == Success(DispatchOne(Dispatch(step.id, Here(w, events).attempt, None, interrupted,
                                                       PreviousFailure(events, step.id))))
                else |events| > |old(events)| + 1
                     && events[|old(events)| + 1]
                        == Judged(step, events[|old(events)|].attempt, "", Check(false, NO_CONTEXT), Plain)
      ensures r.Failure? ==> StoppedShort(w, env, events, r.error)
      decreases Fuel(w, CoreOf(events)), 0, rank(step.id), 1
    {
      hide Fold, Legal, CanAppend, Fuel, Here, Arrived, CapsReached, LatestEntry, EnteredBranches, Summarised,
           Justified, Entered, ExhaustedDescends, Sound, LeftBy, Judged, FirstEntry, BeginAttempt, InKind;
      var capped := CheckCaps(w, CoreOf(events), step);
      if capped {
        r := LeaveExhausted(step);
        return;
      }
      EnterStep(step, cur);
      ghost var entered := events;
      EnteredIsAt(w, events, step);
      EnteredCursor(w, events, step);
      assert entered == events[..|old(events)| + 1];
      if !env.ready(events, step.id) {
        r := GiveUp(step, NO_CONTEXT);
        EntersLater(w, env, old(events), entered, events, step);
        assert entered == events[..|old(events)| + 1];
        return;
      }
      var failure := PreviousFailureText(step.id);
      r := Success(DispatchOne(Dispatch(step.id, CursorHere().attempt, None, interrupted, failure)));
      EntersLater(w, env, old(events), entered, events, step);
    }

    /** Look for an open budget of the step, then scan back for its latest failure. */
    method PreviousFailureText(id: string) returns (text: string)
      ensures text == PreviousFailure(events, id)
    {
      hide Fold;
      var lingering := false;
      var refs := CoreOf(events).ledger.attempts.Keys;
      while refs != {} && !lingering
        invariant refs <= CoreOf(events).ledger.attempts.Keys
        invariant lingering ==> Lingering(CoreOf(events), id)
        invariant !lingering ==>
                    forall ref :: ref in CoreOf(events).ledger.attempts && ref !in refs ==> ref.step != id || ref.key == ""
        decreases |refs|, !lingering
      {
        var ref :| ref in refs;
        if ref.step == id && ref.key != "" {
          lingering := true;
        }
        refs := refs - {ref};
      }
      if !lingering {
        return "";
      }
      var i := |events|;
      assert events[..i] == events;
      while i > 0
        invariant 0 <= i <= |events|
        invariant LatestFailure(events, id) == LatestFailure(events[..i], id)
      {
        var e := events[i - 1];
        assert Front(events[..i]) == events[..i - 1];
        if e.Postcondition? && e.step == id && !e.ok {
          return e.text;
        }
        i := i - 1;
      }
      text := "";
    }

    method ItemFailureText(ref: ItemRef, attempt: int) returns (text: string)
      ensures text == ItemFailure(events, ref, attempt)
    {
      text := "";
      if attempt >= 2 {
        var found := FindItemError(ref);
        if found.Some? {
          text := found.value;
        }
      }
    }

    /** A step whose dispatch or question cannot be built fails, its check unrun. */
    method GiveUp(step: StepDecl, text: string) returns (r: Result<Instruction, EngineError>)
      requires Valid() && At(w, events, step) && (step.kind.Agentic? || step.kind.Human?)
      modifies this`events
      ensures Valid() && |events| > |old(events)| && old(events) <= events
      ensures events[|old(events)|] == Judged(step, old(Here(w, events)).attempt, "", Check(false, text), Plain)
      ensures r.Success? ==> Stands(w, events, r.value)
      ensures LeftBy(w, env, old(events) + [Judged(step, old(Here(w, events)).attempt, "", Check(false, text), Plain)],
                     events, step, FAILURE, true)
      ensures r.Failure? ==> StoppedShort(w, env, events, r.error)
      decreases Fuel(w, CoreOf(events)), 1, 0, 1
    {
      hide Fold, Legal, CanAppend, Fuel, Here, Justified, Entered, ExhaustedDescends, Sound, LeftBy, Settled, Stands;
      JudgeStep(step, "", Check(false, text));
      ghost var judged := events;
      ReservedIsRouted(step);
      if step.kind.Human? {
        HumanMayLeave(w, events, step, FAILURE);
      } else {
        FailureMayLeave(w, events, step);
      }
      r := RouteOn(step, FAILURE);
      assert events[|old(events)|] == judged[|old(events)|];
    }

    /** Journal a verdict on the step the run is at. */
    method JudgeStep(step: StepDecl, key: string, check: Check)
      requires Valid() && At(w, events, step) && !step.kind.Parallel?
      modifies this`events
      ensures Valid() && At(w, events, step) && SameRun(old(events), events)
      ensures events == old(events) + [Judged(step, old(Here(w, events)).attempt, key, check, Plain)]
      ensures Last(events) == Judged(step, old(Here(w, events)).attempt, key, check, Plain)
      ensures Here(w, events) == old(Here(w, events)) && Fuel(w, CoreOf(events)) == old(Fuel(w, CoreOf(events)))
      ensures Lookup(CoreOf(events).ledger.lastOk, step.id, false) == check.ok
      ensures Fold(events).items == old(Fold(events).items) && Fold(events).branches == old(Fold(events).branches)
      ensures old(Entered(w, events, step)) ==> Entered(w, events, step)
    {
      hide Fold, Legal, CanAppend, Fuel, Here, StepData, StepPlace, StepEnding, Entered;
      StepVerdict(w, events, step, key, check);
      Append(Judged(step, CursorHere().attempt, key, check, Plain));
      ReportsKeep(w, old(events), events, step.id);
      SameRunStays(w, old(events), events, step);
    }

    /** Park at a wait step: a real arrival is a counted entry, a re-run of a run
        already parked only prints the same line again. */
    method ParkWait(step: StepDecl, cur: Cursor, reentry: bool) returns (r: Result<Instruction, EngineError>)
      requires Valid() && At(w, events, step) && step.kind.Waiting? && step.id != ""
      requires Arrived(events) && Here(w, events) == cur
      requires reentry ==> Entered(w, events, step)
      modifies this`events
      ensures Valid() && old(events) <= events
      ensures r.Success? ==> Stands(w, events, r.value)
      ensures reentry ==> events == old(events) && r == Success(Wait(step.id))
      ensures !reentry ==> EntersOrExhausts(w, env, old(events), events, step)
      ensures !reentry && !CapsReached(w, old(CoreOf(events)), step) ==>
                |events| == |old(events)| + 1 && r == Success(Wait(step.id))
      ensures r.Failure? ==> StoppedShort(w, env, events, r.error)
      decreases Fuel(w, CoreOf(events)), 0, rank(step.id), 1
    {
      hide Fold, Legal, CanAppend, Fuel, Here, Arrived, CapsReached, Entered, LatestEntry, EnteredBranches, Summarised;
      if reentry {
        EnteredCursor(w, events, step);
        return Success(Wait(step.id));
      }
      var capped := CheckCaps(w, CoreOf(events), step);
      if capped {
        r := LeaveExhausted(step);
        return;
      }
      EnterStep(step, cur);
      ghost var entered := events;
      EnteredCursor(w, events, step);
      r := Success(Wait(step.id));
      EntersLater(w, env, old(events), entered, events, step);
    }

    /** Enter a human step and ask; options that cannot be resolved are a failure
        of the step. */
    method DispatchHuman(step: StepDecl, cur: Cursor) returns (r: Result<Instruction, EngineError>)
      requires Valid() && At(w, events, step) && step.kind.Human? && step.id != ""
      requires Arrived(events) && Here(w, events) == cur
      modifies this`events
      ensures Valid() && old(events) <= events
      ensures r.Success? ==> Stands(w, events, r.value)
      ensures EntersOrExhausts(w, env, old(events), events, step)
      ensures !CapsReached(w, old(CoreOf(events)), step) ==>
                |events| > |old(events)| + 1 &&
                var attempt, second := events[|old(events)|].attempt, events[|old(events)| + 1];
                if env.ready(events[..|old(events)| + 1], step.id) then
                  second == HumanAsked(step.id, attempt) && |events| == |old(events)| + 2
                  && r == Success(Ask(step.id, attempt))
                else second == Judged(step, attempt, "", Check(false, NO_OPTIONS), Plain)
      ensures r.Failure? ==> StoppedShort(w, env, events, r.error)
      decreases Fuel(w, CoreOf(events)), 0, rank(step.id), 1
    {
      hide Fold, Legal, CanAppend, Fuel, Here, Arrived, CapsReached, LatestEntry, EnteredBranches, Summarised,
           Justified, Entered, ExhaustedDescends, Sound, LeftBy, Judged, FirstEntry, BeginAttempt, InKind;
      var capped := CheckCaps(w, CoreOf(events), step);
      if capped {
        r := LeaveExhausted(step);
        return;
      }
      EnterStep(step, cur);
      ghost var entered := events;
      EnteredIsAt(w, events, step);
      assert entered == events[..|old(events)| + 1];
      if !env.ready(events, step.id) {
        r := GiveUp(step, NO_OPTIONS);
        EntersLater(w, env, old(events), entered, events, step);
        assert entered == events[..|old(events)| + 1];
        return;
      }
      r := AskQuestion(step);
      EntersLater(w, env, old(events), entered, events, step);
      assert entered == events[..|old(events)| + 1];
    }

    /** Journal the question, right after the entry, and hand it to the caller. */
    method AskQuestion(step: StepDecl) returns (r: Result<Instruction, EngineError>)
      requires Valid() && Entered(w, events, step) && step.kind.Human?
      requires IsEntry(Last(events)) && Last(events).step == step.id
      modifies this`events
      ensures Valid() && events == old(events) + [HumanAsked(step.id, old(Here(w, events)).attempt)]
      ensures r == Success(Ask(step.id, old(Here(w, events)).attempt)) && Stands(w, events, r.value)
    {
      hide Fold, Legal, CanAppend, Here, Entered, ExhaustedDescends, Sound, InKind;
      AskAllowed(w, events, step);
      Append(HumanAsked(step.id, CursorHere().attempt));
      Asked(w, events, step);
      EnteredCursor(w, events, step);
      r := Success(Ask(step.id, CursorHere().attempt));
    }

    // ---- parallel steps ------------------------------------------------------------------

    /** Enter a parallel step and all its branches: deterministic ones run at once,
        agentic ones are handed out together. */
    method DispatchParallel(step: StepDecl, cur: Cursor, interrupted: bool)
      returns (r: Result<Instruction, EngineError>, ghost ran: seq<Event>)
      requires Valid() && At(w, events, step) && step.kind.Parallel? && step.id != ""
      requires Arrived(events) && Here(w, events) == cur && !CoreOf(events).place.inFlight
      modifies this`events
      ensures Valid() && old(events) <= events
      ensures r.Success? ==> Stands(w, events, r.value)
      ensures EntersOrExhausts(w, env, old(events), events, step)
      ensures r.Success? && !CapsReached(w, old(CoreOf(events)), step) ==>
                ran <= events && EnteredBranches(ran, step.id) == step.kind.branches
                && GroupGoesOn(w, env, ran, events, step, r.value, interrupted)
      ensures r.Failure? ==> StoppedShort(w, env, events, r.error)
      decreases Fuel(w, CoreOf(events)), 0, rank(step.id), 1
    {
      hide Fold, Legal, CanAppend, Fuel, Here, Arrived, CapsReached, LatestEntry, EnteredBranches, Summarised,
           Justified, Entered, ExhaustedDescends, Sound, LeftBy, GroupOutcome;
      ran := events;
      NoBranchAwaitedOutside(w, events, step.id);
      var capped := CheckCaps(w, CoreOf(events), step);
      if capped {
        r := LeaveExhausted(step);
        return;
      }
      EnterStep(step, cur);
      ghost var entered := events;
      var agentic := EnterAndRunBranches(step, interrupted);
      if agentic.Failure? {
        EntersLater(w, env, old(events), entered, events, step);
        return Failure(agentic.error), ran;
      }
      ran := events;
      if |agentic.value| == 0 {
        r := RouteParallel(step);
        EntersLater(w, env, old(events), entered, events, step);
      } else {
        GroupStands(w, events, step, agentic.value);
        r := Success(DispatchMany(step.id, CursorHere().attempt, agentic.value));
        EntersLater(w, env, old(events), entered, events, step);
      }
    }

    /** Enter every branch in declared order, and run or hand out each. */
    method EnterAndRunBranches(step: StepDecl, interrupted: bool) returns (r: Result<seq<Dispatch>, EngineError>)
      requires Valid() && Entered(w, events, step) && step.kind.Parallel? && step.id != ""
      requires EnteredBranches(events, step.id) == [] && NoBranchPending(Fold(events).branches, step.id)
      modifies this`events
      ensures Valid() && SameRun(old(events), events) && Entered(w, events, step)
      ensures Fuel(w, CoreOf(events)) == old(Fuel(w, CoreOf(events)))
      ensures r.Failure? ==> StoppedShort(w, env, events, r.error)
      ensures r.Success? ==> Handed(Fold(events).branches, step.id, r.value)
      ensures r.Success? ==> EnteredBranches(events, step.id) == step.kind.branches
      ensures r.Success? ==> forall d :: d in r.value ==> d.interrupted == interrupted
      ensures r.Success? ==> (|r.value| == 0 <==> NoBranchPending(Fold(events).branches, step.id))
    {
      hide Fold, Legal, CanAppend, Fuel, Here, LatestEntry, EnteredBranches, Entered, SameRun, ExhaustedDescends, Sound;
      EnteredIsAt(w, events, step);
      SameRunRefl(events);
      var agentic := [];
      var i := 0;
      while i < |step.kind.branches|
        invariant 0 <= i <= |step.kind.branches|
        invariant Valid() && SameRun(old(events), events) && Entered(w, events, step)
        invariant EnteredBranches(events, step.id) == step.kind.branches[..i]
        invariant Handed(Fold(events).branches, step.id, agentic)
        invariant forall d :: d in agentic ==> d.step in step.kind.branches[..i] && d.interrupted == interrupted
      {
        ghost var before := events;
        BranchIsNew(w, step, i);
        var one := EnterBranch(step, i, interrupted);
        SameRunOn(old(events), before, events);
        if one.Failure? {
          SameRunStays(w, old(events), events, step);
          return Failure(one.error);
        }
        assert step.kind.branches[..i + 1] == step.kind.branches[..i] + [step.kind.branches[i]];
        if one.value.Some? {
          agentic := agentic + [one.value.value];
        }
        i := i + 1;
      }
      SameRunStays(w, old(events), events, step);
      assert step.kind.branches[..i] == step.kind.branches;
      if |agentic| > 0 {
        assert BranchRef(step.id, agentic[0].step) in Fold(events).branches.pending;
      }
      r := Success(agentic);
    }

    /** Enter the next branch, and run or hand it out. */
    method EnterBranch(step: StepDecl, i: nat, interrupted: bool) returns (one: Result<Option<Dispatch>, EngineError>)
      requires Valid() && Entered(w, events, step) && step.kind.Parallel? && step.id != ""
      requires i < |step.kind.branches| && EnteredBranches(events, step.id) == step.kind.branches[..i]
      modifies this`events
      ensures Valid() && SameRun(old(events), events) && Entered(w, events, step)
      ensures EnteredBranches(events, step.id) == step.kind.branches[..i] + [step.kind.branches[i]]
      ensures one.Failure? ==> StoppedShort(w, env, events, one.error)
      ensures one.Success? && one.value.Some? ==>
                one.value.value.item.None? && one.value.value.interrupted == interrupted
                && one.value.value.step == step.kind.branches[i]
                && Fold(events).branches.pending
                   == old(Fold(events).branches.pending) + {BranchRef(step.id, step.kind.branches[i])}
      ensures one.Success? && one.value.None? ==>
                Fold(events).branches.pending
                  == old(Fold(events).branches.pending) - {BranchRef(step.id, step.kind.branches[i])}
    {
      hide Fold, Legal, CanAppend, Fuel, Here, LatestEntry, EnteredBranches, Entered, AttemptOf, BranchOutcomeOf, SameRun,
           ExhaustedDescends;
      EnteredIsAt(w, events, step);
      BranchIsRunnable(w, step, step.kind.branches[i]);
      var branch := StepById(w, step.kind.branches[i]).value;
      BranchEntryAllowed(w, events, step, i);
      Append(BranchEntry(step.id, branch.id));
      BranchEntryDone(w, events, step, branch.id);
      ghost var entered := events;
      ghost var body;
      one, body := RunOneBranch(step, branch, interrupted);
      SameRunOn(old(events), entered, events);
    }

    /** Run an entered deterministic branch to its report, or hand out an agentic
        one. */
    method RunOneBranch(step: StepDecl, branch: StepDecl, interrupted: bool)
      returns (r: Result<Option<Dispatch>, EngineError>, ghost body: Option<Body>)
      requires Valid() && Entered(w, events, step) && step.kind.Parallel? && step.id != ""
      requires StepById(w, branch.id) == Some(branch) && (branch.kind.Deterministic? || branch.kind.Agentic?)
      requires branch.id in step.kind.branches && BranchRef(step.id, branch.id) in Fold(events).branches.pending
      modifies this`events
      ensures Valid() && SameRun(old(events), events) && Entered(w, events, step)
      ensures EnteredBranches(events, step.id) == old(EnteredBranches(events, step.id))
      ensures r.Failure? ==> StoppedShort(w, env, events, r.error)
      ensures r.Success? && r.value.Some? ==>
                r.value.value == Dispatch(branch.id, 1, None, interrupted, PreviousFailure(events, branch.id))
                && events == old(events)
      ensures r.Success? && r.value.None? ==>
                Fold(events).branches.pending == old(Fold(events).branches.pending) - {BranchRef(step.id, branch.id)}
      ensures r.Success? && r.value.None? ==>
                Lookup(Fold(events).branches.outcome, branch.id, "")
                  == if body.Some? then BranchOutcomeOf(AttemptOf(branch, body.value)) else FAILURE
      ensures body == if branch.kind.Deterministic? then Some(env.body(old(events), branch.id)) else None
      ensures branch.kind.Agentic? ==> r.Success? && (r.value.Some? <==> env.ready(old(events), branch.id))
    {
      hide AttemptOf, AttemptEvents, ReportsOnly, Fold, Legal, CanAppend, Fuel, Here, LatestEntry, EnteredBranches, Entered, ScopeOpen;
      if branch.kind.Agentic? {
        if env.ready(events, branch.id) {
          var failure := PreviousFailureText(branch.id);
          return Success(Some(Dispatch(branch.id, 1, None, interrupted, failure))), None;
        }
        ReportBranch(step, branch, 1, Some(Check(false, NO_CONTEXT)), FAILURE);
        return Success(None), None;
      }
      EnteredIsAt(w, events, step);
      BranchScopeOpen(w, events, step, branch, 1);
      var answer := env.body(events, branch.id);
      body := Some(answer);
      var at := RunAttempt(branch, 1, InBranch(step.id), answer);
      AttemptReports(branch, 1, InBranch(step.id), answer, old(events), events);
      ReportsStay(w, old(events), events, step);
      if at.Broken? {
        BrokeThere(w, env, old(events), branch, 1, InBranch(step.id));
        return Failure(Aborted), body;
      }
      if at.HardFailed? {
        ReportBranch(step, branch, 1, None, FAILURE);
      } else if at.check.ok {
        ReportBranch(step, branch, 1, if branch.checked then Some(at.check) else None, at.outcome);
      } else {
        ReportBranch(step, branch, 1, Some(at.check), FAILURE);
      }
      r := Success(None);
    }

    /** Journal a branch's verdict, if it has one to journal, and its transition. */
    method ReportBranch(step: StepDecl, branch: StepDecl, attempt: int, check: Option<Check>, outcome: string)
      requires Valid() && Entered(w, events, step) && step.kind.Parallel? && step.id != ""
      requires branch.id in step.kind.branches && BranchRef(step.id, branch.id) in Fold(events).branches.pending
      modifies this`events
      ensures Valid() && SameRun(old(events), events) && Entered(w, events, step)
      ensures EnteredBranches(events, step.id) == old(EnteredBranches(events, step.id))
      ensures Fold(events).branches.pending == old(Fold(events).branches.pending) - {BranchRef(step.id, branch.id)}
      ensures Lookup(Fold(events).branches.outcome, branch.id, "") == outcome
      ensures events == old(events)
                + (if check.Some? then [Judged(branch, attempt, "", check.value, InBranch(step.id))] else [])
                + [BranchTransition(step.id, branch.id, attempt, outcome)]
    {
      hide Fold, Legal, CanAppend, Here, LatestEntry, EnteredBranches, Entered;
      EnteredIsAt(w, events, step);
      if check.Some? {
        BranchVerdictAllowed(w, events, step, branch, attempt, check.value);
        Append(Judged(branch, attempt, "", check.value, InBranch(step.id)));
        ReportsStay(w, old(events), events, step);
      }
      EnteredIsAt(w, events, step);
      BranchTransitionAllowed(w, events, step, branch.id, attempt, outcome);
      Append(BranchTransition(step.id, branch.id, attempt, outcome));
      BranchTransitionDone(w, events, step, branch.id, attempt, outcome);
    }

    /** Resolve a group none of whose branches is awaited: success when every
        branch succeeded. A failed group journals one summary, a passing one
        clears the last error. */
    method RouteParallel(step: StepDecl) returns (r: Result<Instruction, EngineError>)
      requires Valid() && Entered(w, events, step) && step.kind.Parallel? && step.id != ""
      requires NoBranchPending(Fold(events).branches, step.id)
      modifies this`events
      ensures Valid() && old(events) <= events
      ensures r.Success? ==> Stands(w, events, r.value)
      ensures r.Success? ==> GroupLeft(w, env, old(events), events, step)
      ensures r.Failure? ==> StoppedShort(w, env, events, r.error)
      decreases Fuel(w, CoreOf(events)), 1, 0, 1
    {
      hide Fold, Legal, CanAppend, Here, LatestEntry, EnteredBranches, Entered, Fuel, Justified, Settled, Summarised, LeftBy;
      SameRunRefl(events);
      var outcome := SUCCESS;
      var i := 0;
      while i < |step.kind.branches|
        invariant 0 <= i <= |step.kind.branches|
        invariant forall k :: 0 <= k < i ==>
                    Lookup(Fold(events).branches.outcome, step.kind.branches[k], "") == SUCCESS
        invariant outcome == SUCCESS
      {
        if Lookup(Fold(events).branches.outcome, step.kind.branches[i], "") != SUCCESS {
          outcome := FAILURE;
          break;
        }
        i := i + 1;
      }
      assert outcome == GroupOutcome(Fold(events).branches, step.kind.branches);
      if outcome == FAILURE {
        JournalGroupFailureSummary(step);
      } else if CoreOf(events).data.lastError != "" {
        Summarise(step, Check(true, ""));
      }
      assert events == old(events) + GroupSummary(w, old(events), step);
      ParallelMayLeave(w, events, step, outcome);
      r := RouteOn(step, outcome);
    }

    /** Journal a summary verdict on a parallel step itself. */
    method Summarise(step: StepDecl, check: Check)
      requires Valid() && Entered(w, events, step) && step.kind.Parallel? && step.id != ""
      requires check.ok || !Summarised(events, step.id)
      modifies this`events
      ensures Valid() && SameRun(old(events), events) && Entered(w, events, step)
      ensures Fold(events).branches == old(Fold(events).branches) && Summarised(events, step.id)
      ensures Fuel(w, CoreOf(events)) == old(Fuel(w, CoreOf(events)))
      ensures events == old(events) + [SummaryOf(step, old(Here(w, events)).attempt, check)]
    {
      hide Fold, Legal, CanAppend, Here, Entered, Fuel;
      EnteredIsAt(w, events, step);
      SummaryAllowed(w, events, step, check);
      Append(SummaryOf(step, CursorHere().attempt, check));
      ReportsStay(w, old(events), events, step);
    }

    /** Name every failed branch with its own latest failure text, at most once per
        entry of the group. */
    method JournalGroupFailureSummary(step: StepDecl)
      requires Valid() && Entered(w, events, step) && step.kind.Parallel? && step.id != ""
      modifies this`events
      ensures Valid() && SameRun(old(events), events) && Entered(w, events, step)
      ensures Fold(events).branches == old(Fold(events).branches) && Summarised(events, step.id)
      ensures Fuel(w, CoreOf(events)) == old(Fuel(w, CoreOf(events)))
      ensures old(Summarised(events, step.id)) ==> events == old(events)
      ensures !old(Summarised(events, step.id)) ==>
                events == old(events) + [SummaryOf(step, old(Here(w, events)).attempt,
                            Check(false, SummaryText(step.kind.branches, old(Fold(events).branches),
                                                     old(BranchTexts(events, step.id)))))]
    {
      hide Fold, Legal, CanAppend, Here, LatestEntry, EnteredBranches, Entered, Fuel, BranchTexts, Summarised;
      var summarised, texts := GroupFailures(step.id);
      if summarised {
        SameRunRefl(events);
        return;
      }
      Summarise(step, Check(false, SummaryText(step.kind.branches, Fold(events).branches, texts)));
    }

    /** Scan back to the group's latest entry: whether it has been summarised, and
        each branch's latest failure text. */
    method GroupFailures(id: string) returns (summarised: bool, texts: map<string, string>)
      ensures summarised <==> Summarised(events, id)
      ensures !summarised ==> texts == BranchTexts(events, id)
    {
      texts := map[];
      var i := |events|;
      assert events[..i] == events;
      while i > 0
        invariant 0 <= i <= |events|
        invariant Summarised(events, id) == Summarised(events[..i], id)
        invariant BranchTexts(events, id) == BranchTexts(events[..i], id) + texts
      {
        var e := events[i - 1];
        assert Front(events[..i]) == events[..i - 1];
        if GroupOf(e) == "" && e.Postcondition? && e.summary && e.step == id {
          return true, texts;
        }
        if IsEntry(e) && e.step == id {
          return false, texts;
        }
        if e.Postcondition? && !e.ok && e.group == id && e.item.None? && e.step !in texts {
          texts := texts[e.step := e.text];
        }
        i := i - 1;
      }
      summarised := false;
    }

    // ---- foreach steps -------------------------------------------------------------------

    /** Enter a foreach step, freezing its list; a value that is no list, or a list
        over the cap, resolves the step at once with an empty collect. */
    method DispatchForeach(step: StepDecl, cur: Cursor) returns (r: Result<Instruction, EngineError>)
      requires Valid() && At(w, events, step) && step.kind.Foreach? && step.id != ""
      requires Arrived(events) && Here(w, events) == cur && NoItemPending(Fold(events).items, step.id)
      modifies this`events
      ensures Valid() && old(events) <= events
      ensures r.Success? ==> Stands(w, events, r.value)
      ensures EntersOrExhausts(w, env, old(events), events, step)
      ensures r.Success? && !CapsReached(w, old(CoreOf(events)), step) && |events| > |old(events)| ==>
                var value := RawValue(w, old(CoreOf(events)), step.kind.over);
                var entered := events[..|old(events)| + 1];
                && (!value.Arr? ==> RefusedBy(w, env, entered, events, step, FAILURE, NO_ARRAY))
                && (value.Arr? && |value.elems| > step.kind.maxItems ==>
                      RefusedBy(w, env, entered, events, step, EXHAUSTED, OVER_CAP))
                && (value.Arr? && |value.elems| == 0 <= step.kind.maxItems ==> JoinedBy(w, env, entered, events, step))
      ensures r.Failure? ==> StoppedShort(w, env, events, r.error)
      decreases Fuel(w, CoreOf(events)), 0, rank(step.id), 1
    {
      hide Fold, Legal, CanAppend, Fuel, Here, Arrived, CapsReached, LatestEntry, EnteredBranches, Summarised,
           Justified, Entered, ExhaustedDescends, Stands, RawValue, Iterating, LeftBy, BeginAttempt, Sound;
      var capped := CheckCaps(w, CoreOf(events), step);
      if capped {
        r := LeaveExhausted(step);
        return;
      }
      var value := RawValue(w, CoreOf(events), step.kind.over);
      EnterStep(step, cur);
      ghost var entered := events;
      assert entered == old(events) + [Last(entered)];
      EnteredForeach(w, events, step);
      if !value.Arr? {
        r := RefuseList(step, FAILURE, NO_ARRAY);
        EntersLater(w, env, old(events), entered, events, step);
        assert events[..|entered|] == entered;
        return;
      }
      if |value.elems| > step.kind.maxItems {
        r := RefuseList(step, EXHAUSTED, OVER_CAP);
        EntersLater(w, env, old(events), entered, events, step);
        assert events[..|entered|] == entered;
        return;
      }
      if |value.elems| == 0 {
        r := JoinForeach(step, []);
        EntersLater(w, env, old(events), entered, events, step);
        assert events[..|entered|] == entered;
        return;
      }
      BodyIsRunnable(w, step);
      var body := StepById(w, step.kind.body).value;
      if body.kind.Agentic? {
        ghost var dispatched;
        r, dispatched := DispatchAgenticItems(step, body, value.elems, {}, false);
        EntersLater(w, env, old(events), entered, events, step);
        assert events[..|entered|] == entered;
      } else {
        ghost var ran;
        r, ran := RunForeachItems(step, body, value.elems, {});
        EntersLater(w, env, old(events), entered, events, step);
        assert events[..|entered|] == entered;
      }
    }

    /** Resolve a foreach step at entry, leaving an empty collect behind. */
    method RefuseList(step: StepDecl, outcome: string, text: string) returns (r: Result<Instruction, EngineError>)
      requires Valid() && InForeach(w, events, step) && NoItemPending(Fold(events).items, step.id)
      requires Snapshot(events, step.id) == [] && (outcome == FAILURE || outcome == EXHAUSTED)
      modifies this`events
      ensures Valid() && old(events) <= events
      ensures r.Success? ==> Stands(w, events, r.value)
      ensures RefusedBy(w, env, old(events), events, step, outcome, text)
      ensures r.Failure? ==> StoppedShort(w, env, events, r.error)
      decreases Fuel(w, CoreOf(events)), 1, 0, 2
    {
      hide Fold, Legal, CanAppend, Fuel, Here, LatestEntry, Justified, ExhaustedDescends, Stands, Snapshot, Settled, LeftBy;
      InForeachCursor(w, events, step);
      JudgeStep(step, "", Check(false, text));
      ReportsKeep(w, old(events), events, step.id);
      CollectAllowed(w, events, step);
      EmptyJoin(events, step.id);
      Append(CollectEvent(step, CursorHere().attempt, []));
      CollectDone(w, events, step);
      ghost var collected := events;
      ReservedIsRouted(step);
      ForeachMayLeave(w, events, step, outcome);
      r := RouteOn(step, outcome);
      assert collected == old(events) + [Judged(step, old(Here(w, events)).attempt, "", Check(false, text), Plain),
                                         CollectEvent(step, old(Here(w, events)).attempt, [])];
    }

    /** Join a foreach step none of whose items is awaited: journal the collected
        list, then leave with the three-way outcome. */
    method JoinForeach(step: StepDecl, items: seq<Json>) returns (r: Result<Instruction, EngineError>)
      requires Valid() && InForeach(w, events, step) && items == Snapshot(events, step.id)
      requires MayJoin(events, step.id, |items|)
      modifies this`events
      ensures Valid() && old(events) <= events
      ensures r.Success? ==> Stands(w, events, r.value)
      ensures r.Success? ==> JoinedBy(w, env, old(events), events, step)
      ensures r.Failure? ==> StoppedShort(w, env, events, r.error)
      decreases Fuel(w, CoreOf(events)), 1, 0, 2
    {
      hide Fold, Legal, CanAppend, Fuel, Here, LatestEntry, Justified, ExhaustedDescends, Stands, Snapshot, Settled,
           JoinEntry, MayJoin, LeftBy;
      InForeachCursor(w, events, step);
      JoinedNoneAwaited(w, events, step);
      var collect, outcome := Collect(step.id, items);
      CollectAllowed(w, events, step);
      Append(CollectEvent(step, CursorHere().attempt, collect));
      CollectDone(w, events, step);
      ForeachMayLeave(w, events, step, outcome);
      r := RouteOn(step, outcome);
    }

    /** Build the collected list and the three-way outcome. */
    method Collect(id: string, items: seq<Json>) returns (collect: seq<Json>, outcome: string)
      ensures collect == JoinList(events, id, items)
      ensures outcome == JoinOutcome(Fold(events).items, id, |items|)
    {
      hide Fold, JoinEntry;
      collect := [];
      var succeeded := 0;
      var i := 0;
      while i < |items|
        invariant 0 <= i <= |items|
        invariant |collect| == i && forall k :: 0 <= k < i ==> collect[k] == JoinEntry(events, ItemRef(id, k), items[k])
        invariant succeeded == Successes(Fold(events).items, id, i)
      {
        var entry, success := CollectOne(ItemRef(id, i), items[i]);
        if success {
          succeeded := succeeded + 1;
        }
        collect := collect + [entry];
        i := i + 1;
      }
      outcome := if succeeded == |items| then SUCCESS else if succeeded == 0 then FAILURE else PARTIAL;
    }

    /** Build one collected entry. */
    method CollectOne(ref: ItemRef, item: Json) returns (entry: Json, success: bool)
      requires ref.index >= 0
      ensures entry == JoinEntry(events, ref, item)
      ensures success <==> Verdict(Fold(events).items, ref) == SUCCESS
    {
      hide Fold, LastItemError;
      var i := Fold(events).items;
      success := Lookup(i.outcome, ref, "") == SUCCESS;
      var outcome := if success then SUCCESS else FAILURE;
      var errorText := Null;
      if !success {
        var text := FindItemError(ref);
        if text.Some? {
          errorText := Str(text.value);
        }
      }
      assert SUCCESS[0] != FAILURE[0];
      entry := Obj(map["index" := Number(Decimal(ref.index)), "item" := item, "outcome" := Str(outcome),
                       "writes" := Obj(Lookup(i.writes, ref, map[])), "error" := errorText]);
    }

    /** Scan back to the item's latest fresh try for its latest failure. */
    method FindItemError(ref: ItemRef) returns (text: Option<string>)
      ensures text == LastItemError(events, ref)
    {
      var i := |events|;
      assert events[..i] == events;
      while i > 0
        invariant 0 <= i <= |events|
        invariant LastItemError(events, ref) == LastItemError(events[..i], ref)
      {
        var e := events[i - 1];
        assert Front(events[..i]) == events[..i - 1];
        if IsItemEvent(e) && RefOf(e) == ref && IsFreshEntry(e) {
          return None;
        }
        if IsItemEvent(e) && RefOf(e) == ref && e.Postcondition? && !e.ok {
          return Some(e.text);
        }
        i := i - 1;
      }
      text := None;
    }

    /** Run every item not yet resolved, in order, then join. */
    method RunForeachItems(step: StepDecl, body: StepDecl, items: seq<Json>, done: set<int>)
      returns (r: Result<Instruction, EngineError>, ghost ran: seq<Event>)
      requires Valid() && InForeach(w, events, step) && items == Snapshot(events, step.id) && |items| > 0
      requires StepById(w, body.id) == Some(body) && step.kind.body == body.id && body.kind.Deterministic?
      requires forall k :: 0 <= k < |items| ==> (k in done <==> Resolved(Fold(events).items, step.id, k))
      modifies this`events
      ensures Valid() && old(events) <= events
      ensures r.Success? ==> Stands(w, events, r.value)
      ensures ran <= events && SameRun(old(events), ran) && Snapshot(ran, step.id) == items
      ensures r.Success? ==> AllResolved(Fold(ran).items, step.id, |items|) && JoinedBy(w, env, ran, events, step)
      ensures old(AllResolved(Fold(events).items, step.id, |items|)) ==> ran == old(events)
      ensures r.Failure? ==> StoppedShort(w, env, events, r.error)
      decreases Fuel(w, CoreOf(events)), 1, 0, 3
    {
      hide Fold, Legal, CanAppend, Fuel, Here, LatestEntry, Justified, ExhaustedDescends, Stands, Snapshot, LeftBy, JoinedBy, Sound;
      ghost var start := events;
      var i := 0;
      while i < |items|
        invariant 0 <= i <= |items|
        invariant Valid() && SameRun(start, events) && InForeach(w, events, step)
        invariant Snapshot(events, step.id) == items
        invariant AllResolved(Fold(events).items, step.id, i)
        invariant (forall k :: 0 <= k < |items| ==> k in done) ==> events == start
        invariant forall k :: i <= k < |items| ==> (k in done <==> Resolved(Fold(events).items, step.id, k))
      {
        if i !in done {
          ghost var before := Fold(events).items;
          var ok;
          ghost var at, tried;
          ok, at, tried := RunForeachItem(step, body, ItemRef(step.id, i));
          if !ok {
            return Failure(Aborted), events;
          }
          OnlyResolved(before, Fold(events).items, step.id, i);
        }
        i := i + 1;
      }
      SameRunForeach(w, start, events, step);
      ran := events;
      r := JoinForeach(step, items);
    }

    /** Run one item to its own transition, honouring the body's retry block. */
    method RunForeachItem(step: StepDecl, body: StepDecl, ref: ItemRef)
      returns (ok: bool, ghost at: Attempt, ghost tried: nat)
      requires Valid() && Iterating(w, events, step, body, ref) && body.kind.Deterministic?
      requires ref !in Fold(events).items.outcome
      modifies this`events
      ensures Valid() && SameRun(old(events), events) && Iterating(w, events, step, body, ref)
      ensures Snapshot(events, step.id) == old(Snapshot(events, step.id))
      ensures var pass := Pass(old(events), ItemEntry(ref, body.id, 1, "", false, 0), tried, at);
              Ran(env, body, pass) &&
              events == PassEnd(env, body, pass)
                        + if ok then ItemReport(body, ref, 1, ItemVerdictOf(body, at, tried), ItemOutcomeOf(at)) else []
      ensures if ok then !at.Broken? else StoppedShort(w, env, events, Aborted)
      ensures ok ==> Fold(events).items.outcome == old(Fold(events).items.outcome)[ref := ItemOutcomeOf(at)]
    {
      hide Fold, Legal, CanAppend, Here, LatestEntry, Snapshot, Iterating, ScopeOpen, IsFailedItemVerdict, AttemptOf,
           ExhaustedDescends, Sound, AttemptEvents, AfterTries, EnteredTry, SameRun, ItemVerdictOf, ItemOutcomeOf, ItemReport;
      ghost var start := events;
      ghost var first := ItemEntry(ref, body.id, 1, "", false, 0);
      IteratingGroup(w, events, step, body, ref);
      assert ScopeOf(first) == InItem(ref);
      FreshItemAllowed(w, events, step, body, ref, "");
      NoTries(env, body, start, first);
      OneMoreTry(env, body, start, first, 0);
      var last;
      ghost var answer;
      last, answer := RunItemTry(step, body, ref, 0);
      var hardRetry := 0;
      while last.HardFailed? && last.retryable && body.retryMax.Some? && hardRetry + 1 < body.retryMax.value
        invariant Valid() && SameRun(start, events) && Iterating(w, events, step, body, ref)
        invariant Snapshot(events, step.id) == old(Snapshot(events, step.id)) && hardRetry >= 0
        invariant ref in Fold(events).items.pending && Fold(events).items.outcome == old(Fold(events).items.outcome)
        invariant last.HardFailed? ==> |events| > 0 && IsFailedItemVerdict(Last(events), ref)
        invariant events == AfterTries(env, body, start, first, hardRetry + 1)
        invariant last == TryOf(env, body, start, first, hardRetry)
        invariant forall k :: 0 <= k < hardRetry ==> TryOf(env, body, start, first, k) == HardFailed(true)
        decreases if body.retryMax.Some? then body.retryMax.value - hardRetry else 0
      {
        ghost var before := events;
        hardRetry := hardRetry + 1;
        HardItemAllowed(w, events, step, body, ref, hardRetry);
        OneMoreTry(env, body, start, first, hardRetry);
        last, answer := RunItemTry(step, body, ref, hardRetry);
        SameRunOn(start, before, events);
      }
      at, tried := last, hardRetry;
      if last.Broken? {
        PassBroke(w, env, body, Pass(start, first, tried, last));
        return false, at, tried;
      }
      ghost var ran := events;
      ResolveRun(step, body, ref, last, hardRetry);
      SameRunOn(start, ran, events);
      ok := true;
    }

    /** Resolve an item whose body has run to its last try. */
    method ResolveRun(step: StepDecl, body: StepDecl, ref: ItemRef, at: Attempt, hardRetry: nat)
      requires Valid() && Iterating(w, events, step, body, ref) && ref in Fold(events).items.pending && !at.Broken?
      modifies this`events
      ensures Valid() && SameRun(old(events), events) && Iterating(w, events, step, body, ref)
      ensures Snapshot(events, step.id) == old(Snapshot(events, step.id))
      ensures Fold(events).items.outcome == old(Fold(events).items.outcome)[ref := ItemOutcomeOf(at)]
      ensures events == old(events) + ItemReport(body, ref, 1, ItemVerdictOf(body, at, hardRetry), ItemOutcomeOf(at))
    {
      hide Fold, Legal, CanAppend, Here, LatestEntry, Snapshot, Iterating, SameRun;
      if at.HardFailed? {
        ResolveItem(step, body, ref, 1, "", None, FAILURE);
      } else if at.check.ok && at.outcome == SUCCESS {
        var verdict := if body.checked || hardRetry > 0 then Some(at.check) else None;
        ResolveItem(step, body, ref, 1, "", verdict, SUCCESS);
      } else if at.check.ok {
        ResolveItem(step, body, ref, 1, "", Some(Check(false, NOT_SUCCESS)), FAILURE);
      } else {
        ResolveItem(step, body, ref, 1, "", Some(at.check), FAILURE);
      }
    }

    /** Enter an item for one try of its body and run it. */
    method RunItemTry(step: StepDecl, body: StepDecl, ref: ItemRef, hardRetry: int)
      returns (at: Attempt, ghost answer: Body)
      requires Valid() && Iterating(w, events, step, body, ref) && body.kind.Deterministic?
      requires ref !in Fold(events).items.outcome
      requires CanAppend(w, events, ItemEntry(ref, body.id, 1, "", false, hardRetry))
      modifies this`events
      ensures Valid() && SameRun(old(events), events) && Iterating(w, events, step, body, ref)
      ensures Snapshot(events, step.id) == old(Snapshot(events, step.id))
      ensures ref in Fold(events).items.pending && Fold(events).items.outcome == old(Fold(events).items.outcome)
      ensures at.HardFailed? ==> |events| > 0 && IsFailedItemVerdict(Last(events), ref)
      ensures at == AttemptOf(body, answer)
      ensures answer == env.body(old(events) + [ItemEntry(ref, body.id, 1, "", false, hardRetry)], body.id)
      ensures events == old(events) + [ItemEntry(ref, body.id, 1, "", false, hardRetry)]
                        + AttemptEvents(body, 1, InItem(ref), answer)
    {
      hide AttemptOf, AttemptEvents, ReportsOnly, Fold, Legal, CanAppend, Here, LatestEntry, Snapshot, Iterating, ScopeOpen;
      IteratingGroup(w, events, step, body, ref);
      Append(ItemEntry(ref, body.id, 1, "", false, hardRetry));
      ghost var entered := events;
      ItemEntryDone(w, entered, step, body, ref);
      ItemScopeOpen(w, events, step, body, ref, 1);
      var b := env.body(events, body.id);
      answer := b;
      at := RunAttempt(body, 1, InItem(ref), b);
      AttemptReports(body, 1, InItem(ref), b, entered, events);
      ItemReportsStay(w, entered, events, step, body, ref);
    }

    /** Journal an item's verdict, if it has one to journal, and its transition. */
    method ResolveItem(step: StepDecl, body: StepDecl, ref: ItemRef, attempt: int, key: string,
                       check: Option<Check>, outcome: string)
      requires Valid() && Iterating(w, events, step, body, ref) && ref in Fold(events).items.pending
      requires outcome == SUCCESS || outcome == FAILURE
      modifies this`events
      ensures Valid() && SameRun(old(events), events) && Iterating(w, events, step, body, ref)
      ensures Snapshot(events, step.id) == old(Snapshot(events, step.id))
      ensures Fold(events).items.outcome == old(Fold(events).items.outcome)[ref := outcome]
      ensures Fold(events).items.pending == old(Fold(events).items.pending) - {ref}
      ensures Fold(events).items.attempt == old(Fold(events).items.attempt)
      ensures events == old(events)
                + (if check.Some? then [Judged(body, attempt, key, check.value, InItem(ref))] else [])
                + [ItemTransition(ref, body.id, attempt, outcome)]
    {
      hide Fold, Legal, CanAppend, Here, LatestEntry, Snapshot, Iterating, ExhaustedDescends, Sound, SameRun;
      ghost var start := events;
      IteratingGroup(w, events, step, body, ref);
      if check.Some? {
        var verdict := Judged(body, attempt, key, check.value, InItem(ref));
        ItemReportAllowed(w, events, step, body, ref, verdict);
        Append(verdict);
        ItemVerdictDone(w, events, step, body, ref);
      } else {
        SameRunRefl(events);
      }
      ghost var judged := events;
      var transition := ItemTransition(ref, body.id, attempt, outcome);
      ItemReportAllowed(w, events, step, body, ref, transition);
      Append(transition);
      ItemTransitionDone(w, events, step, body, ref);
      SameRunOn(start, judged, events);
    }

    /** Enter every item not yet resolved and hand them out together. An item a
        crash interrupted beyond its first attempt is re-entered at that same
        attempt and key. */
    method DispatchAgenticItems(step: StepDecl, body: StepDecl, items: seq<Json>, done: set<int>, interrupted: bool)
      returns (r: Result<Instruction, EngineError>, ghost entered: seq<Event>)
      requires Valid() && InForeach(w, events, step) && items == Snapshot(events, step.id) && |items| > 0
      requires StepById(w, body.id) == Some(body) && step.kind.body == body.id && body.kind.Agentic?
      requires forall k :: 0 <= k < |items| ==> (k in done <==> Resolved(Fold(events).items, step.id, k))
      modifies this`events
      ensures Valid() && old(events) <= events
      ensures r.Success? ==> Stands(w, events, r.value)
      ensures entered <= events && SameRun(old(events), entered) && Snapshot(entered, step.id) == items
      ensures old(AllResolved(Fold(events).items, step.id, |items|)) ==> entered == old(events)
      ensures r.Success? ==>
                if AllResolved(Fold(entered).items, step.id, |items|) then JoinedBy(w, env, entered, events, step)
                else events == entered && r.value.DispatchMany?
                     && forall d :: d in r.value.agentic ==> d.step == body.id && d.interrupted == interrupted
      ensures r.Failure? ==> StoppedShort(w, env, events, r.error)
      decreases Fuel(w, CoreOf(events)), 1, 0, 3
    {
      hide Fold, Legal, CanAppend, Fuel, Here, LatestEntry, Justified, ExhaustedDescends, Snapshot, Sound, Stands, LeftBy, JoinedBy;
      ghost var start := events;
      var agentic: seq<Dispatch> := [];
      var i := 0;
      while i < |items|
        invariant 0 <= i <= |items|
        invariant Valid() && SameRun(start, events) && InForeach(w, events, step)
        invariant Snapshot(events, step.id) == items
        invariant forall d :: d in agentic ==> HandedItem(Fold(events).items, step.id, d, i)
        invariant (forall k :: 0 <= k < |items| ==> k in done) ==> events == start
        invariant |agentic| == 0 ==> AllResolved(Fold(events).items, step.id, i)
        invariant forall d :: d in agentic ==> d.step == body.id && d.interrupted == interrupted
        invariant Covered(Fold(events).items, step.id, i) && AllItemsHanded(Fold(events).items, step.id, agentic, i)
        invariant forall k :: i <= k < |items| ==> (k in done <==> Resolved(Fold(events).items, step.id, k))
      {
        ghost var handed := agentic;
        if i !in done {
          ghost var before := Fold(events).items;
          var one := EnterAgenticItem(step, body, ItemRef(step.id, i), interrupted);
          OthersStand(before, Fold(events).items, step.id, i, agentic);
          if one.Some? {
            agentic := agentic + [one.value];
            assert one.value in agentic && HandsOutItem(agentic, ItemRef(step.id, i));
          }
        }
        OneMoreItem(w, events, step.id, handed, agentic, i);
        i := i + 1;
      }
      SameRunForeach(w, start, events, step);
      entered := events;
      InForeachCursor(w, events, step);
      if |agentic| == 0 {
        r := JoinForeach(step, items);
      } else {
        AllItemsStand(w, events, step, agentic);
        r := Success(DispatchMany(step.id, CursorHere().attempt, agentic));
      }
    }

    /** Enter one item of an agentic body; a context that cannot be gathered
        resolves the item as failed. */
    method EnterAgenticItem(step: StepDecl, body: StepDecl, ref: ItemRef, interrupted: bool)
      returns (d: Option<Dispatch>)
      requires Valid() && Iterating(w, events, step, body, ref) && body.kind.Agentic?
      requires ref !in Fold(events).items.outcome
      modifies this`events
      ensures Valid() && SameRun(old(events), events) && Iterating(w, events, step, body, ref)
      ensures Snapshot(events, step.id) == old(Snapshot(events, step.id))
      ensures d.Some? ==>
                d.value.item == Some(ref.index) && d.value.step == body.id && d.value.interrupted == interrupted && ref in Fold(events).items.pending
                && Lookup(Fold(events).items.attempt, ref, 0) == d.value.attempt
                && ref !in Fold(events).items.outcome
      ensures d.None? ==> ref in Fold(events).items.outcome
      ensures old(events) <= events && |events| > |old(events)|
      ensures d.Some? <==> env.ready(events[..|old(events)| + 1], body.id)
      ensures forall r :: r != ref ==> SameItem(old(Fold(events).items), Fold(events).items, r)
      ensures old(Lookup(Fold(events).items.attempt, ref, 0)) > 1 && d.Some? ==>
                d.value.attempt == old(Lookup(Fold(events).items.attempt, ref, 0))
    {
      hide Fold, Legal, CanAppend, Here, LatestEntry, Snapshot, Iterating;
      var attempt := EnterItemAgain(step, body, ref);
      ghost var entered := events;
      assert entered == events[..|old(events)| + 1];
      if env.ready(events, body.id) {
        var failure := ItemFailureText(ref, attempt);
        return Some(Dispatch(body.id, attempt, Some(ref.index), interrupted, failure));
      }
      ResolveItem(step, body, ref, attempt, "", Some(Check(false, NO_CONTEXT)), FAILURE);
      d := None;
      assert entered == events[..|old(events)| + 1];
    }

    /** Journal an item's entry: fresh, or at the attempt and key a crash
        interrupted it at. */
    method EnterItemAgain(step: StepDecl, body: StepDecl, ref: ItemRef) returns (attempt: int)
      requires Valid() && Iterating(w, events, step, body, ref) && body.kind.Agentic?
      requires ref !in Fold(events).items.outcome
      modifies this`events
      ensures Valid() && SameRun(old(events), events) && Iterating(w, events, step, body, ref)
      ensures Snapshot(events, step.id) == old(Snapshot(events, step.id))
      ensures ref in Fold(events).items.pending && Fold(events).items.outcome == old(Fold(events).items.outcome)
      ensures Fold(events).items.pending == old(Fold(events).items.pending) + {ref}
      ensures Fold(events).items.attempt == old(Fold(events).items.attempt)[ref := attempt]
      ensures var key := if attempt > 1 then old(Lookup(Fold(events).items.attemptKey, ref, ""))
                         else if body.keyed then env.key(old(events), body.id) else "";
              events == old(events) + [ItemEntry(ref, body.id, attempt, key, attempt > 1, 0)]
      ensures attempt == if old(Lookup(Fold(events).items.attempt, ref, 0)) > 1
                         then old(Lookup(Fold(events).items.attempt, ref, 0)) else 1
    {
      hide Fold, Legal, CanAppend, Here, LatestEntry, Snapshot, Iterating, ExhaustedDescends, Sound;
      attempt := Lookup(Fold(events).items.attempt, ref, 0);
      var key, retry := "", false;
      if attempt > 1 {
        key, retry := Lookup(Fold(events).items.attemptKey, ref, ""), true;
        ResumedItemAllowed(w, events, step, body, ref);
      } else {
        attempt := 1;
        if body.keyed {
          key := env.key(events, body.id);
        }
        FreshItemAllowed(w, events, step, body, ref, key);
      }
      IteratingGroup(w, events, step, body, ref);
      Append(ItemEntry(ref, body.id, attempt, key, retry, 0));
      ItemEntryDone(w, events, step, body, ref);
    }

    // ---- starting and resuming -------------------------------------------------------------

    /** Begin a run: journal RUN_START and run from the start step. */
    method Start(enforcement: string, args: map<string, Json>) returns (r: Result<Instruction, CallError>)
      requires Valid() && events == []
      modifies this`events
      ensures Valid() && [RunStart(FORMAT, enforcement, args)] <= events
      ensures r.Success? ==> Stands(w, events, r.value)
      ensures r.Failure? && r.error.Stopped? ==> StoppedShort(w, env, events, r.error.error)
      ensures r == Failure(UnknownStep) <==> !IsStep(w, w.start)
      ensures StepById(w, w.start).Some? ==>
                EntersOrExhausts(w, env, [RunStart(FORMAT, enforcement, args)], events, StepById(w, w.start).value)
    {
      hide Legal, CanAppend, Fuel, Stands, EntersOrExhausts;
      StartAllowed(w, FORMAT, enforcement, args);
      Append(RunStart(FORMAT, enforcement, args));
      StartArrives(w, events);
      if StepById(w, w.start).None? {
        return Failure(UnknownStep);
      }
      ghost var started := events;
      assert started == [RunStart(FORMAT, enforcement, args)];
      var taken := RunFrom(w.start);
      r := Taken(taken);
    }

    /** Continue a run that is not over: journal the RESUME, then re-run, re-print
        or finish the step the cursor is at. */
    method Resume() returns (r: Result<Instruction, CallError>)
      requires Valid()
      modifies this`events
      ensures Valid() && old(events) <= events
      ensures r.Success? ==> Stands(w, events, r.value)
      ensures r.Failure? && r.error.Stopped? ==> StoppedShort(w, env, events, r.error.error)
      ensures Terminal(old(CoreOf(events))) ==> r == Failure(AlreadyTerminal) && events == old(events)
      ensures !Terminal(old(CoreOf(events))) ==>
                |events| > |old(events)| && events[|old(events)|] == ResumeEvent(old(CoreOf(events)))
      ensures old(ParkedInFlight(w, events)) ==>
                events == old(events) + [ResumeEvent(old(CoreOf(events)))]
                && r == Success(Wait(old(CursorOf(CoreOf(events))).step))
      ensures r == Failure(UnknownStep) <==>
                var c := old(CoreOf(events)); !Terminal(c) && !Blocked(c) && !RunTheorems.OnGraph(w, old(events))
      ensures r == Failure(UnknownStep) ==>
                events == old(events) + [ResumeEvent(old(CoreOf(events)))] && RunTheorems.ResumedOffTheGraph(w, events)
      ensures var c := old(CoreOf(events));
              var step := StepById(w, CursorOf(c).step);
              !Terminal(c) && step.Some? && EntersAnew(step.value.kind, GroupTheorems.InFlight(c.place), Blocked(c)) ==>
                EntersOrExhausts(w, env, old(events) + [ResumeEvent(c)], events, step.value)
    {
      hide Fold, Legal, CanAppend, Fuel, Stands, Here, CursorOf, Entered, Arrived, At, EntersOrExhausts, ExhaustedDescends;
      if Terminal(CoreOf(events)) {
        return Failure(AlreadyTerminal);
      }
      ghost var before := events;
      var e := ResumeEvent(CoreOf(events));
      ResumeAllowed(w, events);
      RunTheorems.ResumeLeavesGraphIff(w, events, e);
      Append(e);
      ghost var resumed := events;
      if ParkedInFlight(w, before) {
        ParkedResumes(w, before, events);
      }
      if StepById(w, e.step).None? {
        return Failure(UnknownStep);
      }
      var step := StepById(w, e.step).value;
      ResumedPlace(w, before, events, step);
      if e.intervention {
        NoItemOfBlocked(w, before, step.id);
      }
      var taken := ResumeStep(step, e.intervention);
      r := Taken(taken);
      assert events[|before|] == resumed[|before|];
    }

    /** What a RESUME does at each kind of step. */
    method ResumeStep(step: StepDecl, intervention: bool) returns (r: Result<Instruction, EngineError>)
      requires Valid() && ResumedAt(w, events, step) && step.id != ""
      requires intervention ==> CoreOf(events).place.resumedInFlight == ""
      requires intervention && step.kind.Foreach? ==> NoItemPending(Fold(events).items, step.id)
      modifies this`events
      ensures Valid() && old(events) <= events
      ensures r.Success? ==> Stands(w, events, r.value)
      ensures EntersAnew(step.kind, old(CoreOf(events).place.resumedInFlight) == step.id, intervention) ==>
                EntersOrExhausts(w, env, old(events), events, step)
      ensures step.kind.Waiting? && !intervention && old(CoreOf(events).place.resumedInFlight) == step.id ==>
                events == old(events) && r == Success(Wait(step.id))
      ensures r.Failure? ==> StoppedShort(w, env, events, r.error)
    {
      hide Fold, Legal, CanAppend, Fuel, Stands, Here, Entered, Arrived, At, ResumedAt, Arriving, Inside,
           EntersOrExhausts, ExhaustedDescends, Sound, LeftBy;
      ResumedEntered(w, events, step);
      var cur := CursorHere();
      var inFlight := CoreOf(events).place.resumedInFlight == step.id;
      match step.kind
      case Agentic =>
        r := DispatchAgentic(step, cur, inFlight || intervention || CoreOf(events).place.pendingIntervention);
      case Human =>
        r := ResumeHuman(step, cur, inFlight && !intervention);
      case Deterministic =>
        var advance;
        ghost var passes;
        advance, passes := AdvanceDeterministic(step, cur);
        ghost var advanced := events;
        match advance {
          case Go(next) =>
            r := RunFrom(next);
            BegunOn(w, env, old(events), advanced, events, step, StepById(w, next).value);
          case Stop(instruction) => r := Success(instruction);
          case Fail(error) => r := Failure(error);
        }
      case Waiting =>
        r := ParkWait(step, cur, !intervention && inFlight);
      case Parallel(_) =>
        if intervention {
          ghost var ran;
          r, ran := DispatchParallel(step, cur, true);
        } else if !inFlight {
          ghost var ran;
          r, ran := DispatchParallel(step, cur, CoreOf(events).place.pendingIntervention);
        } else {
          ghost var reran;
          r, reran := ResumeParallel(step);
        }
      case Foreach(_, _, _, _) =>
        if intervention {
          r := DispatchForeach(step, cur);
        } else {
          ghost var reran;
          r, reran := ResumeForeach(step, cur);
        }
    }

    /** A question already asked in this entry is printed again, not asked again. */
    method ResumeHuman(step: StepDecl, cur: Cursor, inFlight: bool) returns (r: Result<Instruction, EngineError>)
      requires Valid() && At(w, events, step) && step.kind.Human? && step.id != ""
      requires Arrived(events) && Here(w, events) == cur && (inFlight ==> Entered(w, events, step))
      modifies this`events
      ensures Valid() && old(events) <= events
      ensures r.Success? ==> Stands(w, events, r.value)
      ensures !(inFlight && old(AskedSinceEnter(events, step.id, cur.attempt))) ==>
                EntersOrExhausts(w, env, old(events), events, step)
      ensures inFlight && old(AskedSinceEnter(events, step.id, cur.attempt)) ==>
                if env.ready(old(events), step.id) then events == old(events) && r == Success(Ask(step.id, cur.attempt))
                else |events| > |old(events)|
                     && events[|old(events)|] == Judged(step, cur.attempt, "", Check(false, NO_OPTIONS), Plain)
      ensures r.Failure? ==> StoppedShort(w, env, events, r.error)
    {
      hide Fold, Legal, CanAppend, Fuel, Here, Arrived, Entered, Justified, InKind, EntersOrExhausts;
      if inFlight {
        var asked := QuestionAsked(step.id, cur.attempt);
        if asked {
          EnteredCursor(w, events, step);
          if env.ready(events, step.id) {
            return Success(Ask(step.id, cur.attempt));
          }
          r := GiveUp(step, NO_OPTIONS);
          return;
        }
      }
      r := DispatchHuman(step, cur);
    }

    /** Scan back for an outstanding question. */
    method QuestionAsked(id: string, attempt: int) returns (asked: bool)
      ensures asked <==> AskedSinceEnter(events, id, attempt)
    {
      var i := |events|;
      assert events[..i] == events;
      while i > 0
        invariant 0 <= i <= |events|
        invariant AskedSinceEnter(events, id, attempt) == AskedSinceEnter(events[..i], id, attempt)
      {
        var e := events[i - 1];
        assert Front(events[..i]) == events[..i - 1];
        if e.RunEnd? || (e.Resume? && e.intervention) || (IsExit(e) && e.step == id) {
          return false;
        }
        if e.HumanAsked? && e.step == id && e.attempt == attempt {
          return true;
        }
        if IsEntry(e) && e.step == id {
          return false;
        }
        i := i - 1;
      }
      asked := false;
    }

    /** Re-run or hand out again the branches still awaited, and resolve the group
        when none is. */
    method ResumeParallel(step: StepDecl) returns (r: Result<Instruction, EngineError>, ghost reran: seq<Event>)
      requires Valid() && Entered(w, events, step) && step.kind.Parallel? && step.id != ""
      modifies this`events
      ensures Valid() && old(events) <= events
      ensures r.Success? ==> Stands(w, events, r.value)
      ensures reran <= events && SameRun(old(events), reran)
      ensures r.Success? ==> GroupGoesOn(w, env, reran, events, step, r.value, true)
      ensures r.Failure? ==> StoppedShort(w, env, events, r.error)
    {
      hide Fold, Legal, CanAppend, Fuel, Here, Entered, LatestEntry, EnteredBranches, Stands, AttemptOf, BranchOutcomeOf,
           ExhaustedDescends, Sound, LeftBy, GroupOutcome;
      SameRunRefl(events);
      EnteredIsAt(w, events, step);
      var agentic: seq<Dispatch> := [];
      ghost var start := events;
      var i := 0;
      while i < |step.kind.branches|
        invariant 0 <= i <= |step.kind.branches|
        invariant Valid() && SameRun(start, events) && Entered(w, events, step)
        invariant forall d :: d in agentic ==> AwaitedAgain(Fold(events).branches, step, d, i)
        invariant AllAgain(Fold(events).branches, step, agentic, i)
      {
        hide SameRun;
        ghost var at := events;
        var id := step.kind.branches[i];
        ghost var handed := agentic;
        if BranchRef(step.id, id) in Fold(events).branches.pending {
          BranchIsRunnable(w, step, id);
          ghost var before := Fold(events).branches;
          var one;
          ghost var body;
          one, body := RunOneBranch(step, StepById(w, id).value, true);
          SameRunOn(start, at, events);
          if one.Failure? {
            return Failure(one.error), events;
          }
          OtherBranchesStand(w, before, Fold(events).branches, step, agentic, i);
          if one.value.Some? {
            agentic := agentic + [one.value.value];
          }
        }
        OneMoreAgain(Fold(events).branches, step, handed, agentic, i);
        i := i + 1;
      }
      reran := events;
      AllAgainIsHanded(w, events, step, agentic);
      if |agentic| == 0 {
        r := RouteParallel(step);
      } else {
        GroupStands(w, events, step, agentic);
        r := Success(DispatchMany(step.id, CursorHere().attempt, agentic));
      }
    }

    /** Items already resolved are never run again; without a frozen list the step
        is entered afresh. The list is that of the step's latest entry, even if that was
        an earlier visit's: all of whose items are resolved, it is joined at once. */
    method ResumeForeach(step: StepDecl, cur: Cursor)
      returns (r: Result<Instruction, EngineError>, ghost reran: seq<Event>)
      requires Valid() && InForeach(w, events, step) && Arrived(events) && Here(w, events) == cur
      modifies this`events
      ensures Valid() && old(events) <= events
      ensures r.Success? ==> Stands(w, events, r.value)
      ensures reran <= events && SameRun(old(events), reran)
      ensures old(|Snapshot(events, step.id)|) == 0 ==> EntersOrExhausts(w, env, old(events), events, step)
      ensures r.Success? && old(|Snapshot(events, step.id)|) > 0 ==> ItemsResumed(w, env, reran, events, step, r.value)
      ensures var n := old(|Snapshot(events, step.id)|);
              n > 0 && old(AllResolved(Fold(events).items, step.id, |Snapshot(events, step.id)|)) ==> reran == old(events)
      ensures old(|Snapshot(events, step.id)|) > 0 ==> Snapshot(reran, step.id) == old(Snapshot(events, step.id))
      ensures r.Failure? ==> StoppedShort(w, env, events, r.error)
    {
      hide Fold, Legal, CanAppend, Fuel, Here, Arrived, LatestEntry, Stands, Snapshot, JoinedBy, EntersOrExhausts, SameRun;
      if |Snapshot(events, step.id)| == 0 {
        reran := events;
        SameRunRefl(events);
        NoListNoneAwaited(w, events, step.id);
        r := DispatchForeach(step, cur);
        return;
      }
      ListIsSnapshot(events, step.id);
      var items := Lookup(CoreOf(events).data.foreachItems, step.id, []);
      var done := set k | 0 <= k < |items| && Resolved(Fold(events).items, step.id, k);
      BodyIsRunnable(w, step);
      var body := StepById(w, step.kind.body).value;
      if body.kind.Agentic? {
        r, reran := DispatchAgenticItems(step, body, items, done, true);
      } else {
        r, reran := RunForeachItems(step, body, items, done);
      }
    }

    // ---- submitting ------------------------------------------------------------------------

    /** The foreach step that owns a body, the first declared one. */
    method FindOwner(body: string) returns (owner: Option<StepDecl>)
      ensures owner == OwnerIn(w.steps, body)
    {
      var i := 0;
      while i < |w.steps|
        invariant 0 <= i <= |w.steps|
        invariant OwnerIn(w.steps, body) == OwnerIn(w.steps[i..], body)
      {
        if w.steps[i].kind.Foreach? && w.steps[i].kind.body == body {
          return Some(w.steps[i]);
        }
        assert w.steps[i..][1..] == w.steps[i + 1..];
        i := i + 1;
      }
      owner := None;
    }

    /** Evaluate a step's postcondition; None is a check that could not be run. */
    method EvaluateCheck(step: StepDecl) returns (check: Option<Check>)
      ensures check == if step.checked then env.check(events, step.id) else Some(Check(true, ""))
    {
      if !step.checked {
        return Some(Check(true, ""));
      }
      check := env.check(events, step.id);
    }

    /** Apply a submitted result. It is taken exactly when the journal is waiting for
        that step, attempt and item, and refused without a trace otherwise. */
    method Submit(id: string, attempt: int, item: Option<int>, submission: Submission)
      returns (r: Result<Instruction, CallError>, ghost verdict: Check)
      requires Valid() && !Blocked(CoreOf(events))
      modifies this`events
      ensures Valid() && old(events) <= events
      ensures r.Success? ==> IsAwaited(w, events, r.value)
      ensures r.Success? && old(AllHandedOut(w, events)) ==> Stands(w, events, r.value)
      ensures r.Success? ==> Applied(w, env, hash, old(events), events, id, attempt, item, submission, verdict)
      ensures r.Failure? && r.error.Stopped? ==>
                StoppedShort(w, env, events, r.error.error)
                || (StepById(w, id).Some? && r.error.error.Aborted? && CheckBroke(env, StepById(w, id).value, events))
      ensures Terminal(old(CoreOf(events))) <==> r == Failure(AlreadyTerminal)
      ensures r == Failure(Refused) <==>
                !Terminal(old(CoreOf(events))) && !Expects(w, old(events), id, attempt, item)
      ensures r == Failure(Refused) || r == Failure(AlreadyTerminal) ==> events == old(events)
    {
      hide Fold, Legal, CanAppend, Fuel, Here, Stands, IsAwaited, CursorOf, At, Arrived, OwnerIn, Entered, AllHandedOut,
           HandedOut, StepApplied, BranchApplied, ItemApplied;
      verdict := Check(false, "");
      if Terminal(CoreOf(events)) {
        return Failure(AlreadyTerminal), verdict;
      }
      var a := Fold(events);
      var cur := CursorOf(a.core);
      var found := StepById(w, id);
      if found.None? || found.value.kind.Waiting? {
        return Failure(Refused), verdict;
      }
      var step := found.value;
      var owner := FindOwner(id);
      if owner.None? && item.Some? {
        return Failure(Refused), verdict;
      }
      if owner.Some? {
        if !step.kind.Agentic? || item.None? || cur.step != owner.value.id {
          return Failure(Refused), verdict;
        }
        var n := |Lookup(a.core.data.foreachItems, cur.step, [])|;
        var ref := ItemRef(cur.step, item.value);
        if !(0 <= item.value < n) || ref !in a.items.pending || attempt != Lookup(a.items.attempt, ref, 0) {
          return Failure(Refused), verdict;
        }
        OwnerIsForeach(w, id);
        AwaitedItemPlace(w, events, owner.value, step, ref);
        var taken;
        taken, verdict := SubmitItem(owner.value, step, ref, attempt, submission);
        r := Taken(taken);
        return;
      }
      if cur.step == id && cur.attempt == attempt {
        if !step.kind.Agentic? {
          return Failure(Refused), verdict;
        }
        NamedCursorRuns(w, events, step);
        CursorIsHere(w, events, step);
        var taken;
        taken, verdict := SubmitStep(step, submission);
        StandingIsAwaited(w, events, taken);
        r := Taken(taken);
        return;
      }
      if BranchRef(cur.step, id) in a.branches.pending && StepById(w, cur.step).Some?
         && StepById(w, cur.step).value.kind.Parallel? && step.kind.Agentic?
      {
        var taken;
        taken, verdict := SubmitBranch(StepById(w, cur.step).value, step, attempt, submission);
        StandingIsAwaited(w, events, taken);
        r := Taken(taken);
        return;
      }
      r := Failure(Refused);
    }

    /** A result for the step the run is at: route on success, and on a failed check
        hand the step out again while the caps and its budget allow. */
    method SubmitStep(step: StepDecl, submission: Submission)
      returns (r: Result<Instruction, EngineError>, ghost verdict: Check)
      requires Valid() && At(w, events, step) && step.kind.Agentic? && step.id != ""
      modifies this`events
      ensures Valid() && old(events) <= events
      ensures r.Success? ==> Stands(w, events, r.value)
      ensures r.Success? ==> StepApplied(w, env, hash, old(events), events, step, submission, verdict)
      ensures r.Failure? ==> StoppedShort(w, env, events, r.error) || (r.error.Aborted? && CheckBroke(env, step, events))
    {
      hide Fold, Legal, CanAppend, Fuel, Here, Stands, At, Justified, Settled, LeftBy, RetriedOrLeft, LatestEntry;
      verdict := Check(false, "");
      var check := TakeResult(step, submission);
      ghost var written := events;
      WritesReported(w, old(events), written, step, submission);
      if check.None? {
        return Failure(Aborted), verdict;
      }
      verdict := check.value;
      if check.value.ok {
        r := PassStep(step, check.value);
      } else {
        r := RetryStep(step, check.value);
      }
      assert written <= events;
    }

    /** Journal a result's writes and evaluate the check; a result that cannot be
        used fails without either. */
    method TakeResult(step: StepDecl, submission: Submission) returns (check: Option<Check>)
      requires Valid() && At(w, events, step) && step.kind.Agentic?
      modifies this`events
      ensures Valid() && At(w, events, step)
      ensures events == old(events) + ResultWrites(step, old(Here(w, events)).attempt, Plain, submission)
      ensures check.None? ==> CheckBroke(env, step, events)
      ensures check.Some? ==> JudgedBy(env, step, submission, events, check.value)
    {
      hide Fold, Legal, CanAppend, Here, At;
      if submission.Unusable? {
        return Some(Check(false, submission.text));
      }
      if |submission.writes| > 0 {
        WriteStep(step, submission.writes);
      }
      check := EvaluateCheck(step);
    }

    method PassStep(step: StepDecl, cr: Check) returns (r: Result<Instruction, EngineError>)
      requires Valid() && At(w, events, step) && step.kind.Agentic? && cr.ok
      modifies this`events
      ensures Valid() && old(events) <= events
      ensures r.Success? ==>
                Stands(w, events, r.value)
                && LeftBy(w, env, old(events) + Verdicts(w, old(events), step, cr), events, step, SUCCESS, true)
      ensures r.Failure? ==> StoppedShort(w, env, events, r.error)
    {
      hide Fold, Legal, CanAppend, Fuel, Here, Stands, At, Justified, Settled, Entered, LeftBy;
      if step.checked {
        JudgeStep(step, CursorHere().key, cr);
      }
      SuccessMayLeave(w, events, step);
      assert events == old(events) + Verdicts(w, old(events), step, cr);
      r := RouteOn(step, SUCCESS);
    }

    /** Journal what a step wrote as state of the run. */
    method WriteStep(step: StepDecl, writes: map<string, Json>)
      requires Valid() && At(w, events, step) && (step.kind.Agentic? || step.kind.Waiting? || step.kind.Human?)
      modifies this`events
      ensures Valid() && At(w, events, step) && SameRun(old(events), events)
      ensures events == old(events) + [StepWrites(step, old(Here(w, events)).attempt, writes)]
      ensures Here(w, events) == old(Here(w, events))
      ensures CoreOf(events).ledger == old(CoreOf(events).ledger)
      ensures CoreOf(events).data.state == old(CoreOf(events).data.state) + writes
    {
      hide Fold, Legal, CanAppend, Here;
      StepWritesAllowed(w, events, step, writes);
      Append(StepWrites(step, CursorHere().attempt, writes));
      ReportsKeep(w, old(events), events, step.id);
      SameRunStays(w, old(events), events, step);
    }

    /** A failed check of an agentic step: exhausted, failed, or handed out again at
        the next attempt under the failure's key. */
    method RetryStep(step: StepDecl, cr: Check) returns (r: Result<Instruction, EngineError>)
      requires Valid() && At(w, events, step) && step.kind.Agentic? && step.id != "" && !cr.ok
      modifies this`events
      ensures Valid() && old(events) <= events
      ensures r.Success? ==> Stands(w, events, r.value)
      ensures var cur := old(Here(w, events));
              RetriedOrLeft(w, env, old(events), events, step, cur.attempt, FailureKey(hash, step, cur, cr), cr)
      ensures var cur := old(Here(w, events));
              var key := FailureKey(hash, step, cur, cr);
              var again := NextEntry(old(events), step, cur.attempt, key);
              var entered := old(events) + [Judged(step, cur.attempt, key, cr, Plain), again];
              entered <= events && key != "" && env.ready(entered, step.id) ==>
                events == entered && r == Success(DispatchOne(Dispatch(step.id, again.attempt, None, false, cr.text)))
      ensures r.Failure? ==> StoppedShort(w, env, events, r.error)
    {
      hide Fold, Legal, CanAppend, Fuel, Here, At, Justified, Settled, Entered, InKind, CapsReached, IsFailedVerdict,
           StepCore, LatestEntry, EnteredBranches, Summarised, NextEntry;
      var cur := CursorHere();
      var nextKey := if step.keyed then cur.key else hash(cr.text);
      JudgeStep(step, nextKey, cr);
      JudgedIsFailed(events, step, cur.attempt, nextKey, cr);
      ghost var judged := events;
      ghost var again := NextEntry(old(events), step, cur.attempt, nextKey);
      JudgedKeeps(w, old(events), judged, step, cur.attempt, nextKey, cr);
      ReservedIsRouted(step);
      assert judged + [again] == old(events) + [Judged(step, cur.attempt, nextKey, cr, Plain), again];
      var capped := CheckCaps(w, CoreOf(events), step);
      if capped {
        AtMeansRunning(w, events, step);
        CappedIsNotEntered(w, events, step, again.attempt, nextKey);
        ExhaustedAfterFailure(w, events, step);
        r := RouteOn(step, EXHAUSTED);
        return;
      }
      var next := NextTry(cur.attempt, Lookup(CoreOf(events).ledger.attempts, AttemptRef(step.id, nextKey), 0));
      if next > step.attempts {
        FailureMayLeave(w, events, step);
        r := RouteOn(step, FAILURE);
        return;
      }
      AgenticRetryAllowed(w, events, step, nextKey, next);
      r := EnterAgain(step, next, nextKey);
      if |events| == |judged| + 1 && nextKey != "" {
        RetryIsToldItsFailure(w, old(events), events, step, cur.attempt, nextKey, cr, next);
      }
    }

    /** Enter an agentic step for its next attempt and hand it out again. */
    method EnterAgain(step: StepDecl, next: int, key: string) returns (r: Result<Instruction, EngineError>)
      requires Valid() && At(w, events, step) && step.kind.Agentic? && step.id != ""
      requires CanAppend(w, events, Entry(step, next, key, true, 0))
      modifies this`events
      ensures Valid() && old(events) + [Entry(step, next, key, true, 0)] <= events
      ensures r.Success? ==> Stands(w, events, r.value)
      ensures env.ready(old(events) + [Entry(step, next, key, true, 0)], step.id) ==>
                |events| == |old(events)| + 1
                && r == Success(DispatchOne(Dispatch(step.id, next, None, false, PreviousFailure(events, step.id))))
      ensures r.Failure? ==> StoppedShort(w, env, events, r.error)
    {
      hide Fold, Legal, CanAppend, Fuel, Here, At, Justified, Settled, Entered, InKind, LatestEntry, EnteredBranches,
           Summarised, LeftBy;
      AtMeansRunning(w, events, step);
      Append(Entry(step, next, key, true, 0));
      FreshlyEntered(w, old(events), events, step);
      EnteredIsAt(w, events, step);
      EnteredCursor(w, events, step);
      if !env.ready(events, step.id) {
        r := GiveUp(step, NO_CONTEXT);
        return;
      }
      var failure := PreviousFailureText(step.id);
      r := Success(DispatchOne(Dispatch(step.id, next, None, false, failure)));
    }

    /** A branch's report: recorded while siblings are awaited, and the last one to
        land resolves the group. */
    method SubmitBranch(group: StepDecl, branch: StepDecl, attempt: int, submission: Submission)
      returns (r: Result<Instruction, EngineError>, ghost verdict: Check)
      requires Valid() && StepById(w, group.id) == Some(group) && StepById(w, branch.id) == Some(branch)
      requires BranchRef(group.id, branch.id) in Fold(events).branches.pending && branch.kind.Agentic?
      requires group.kind.Parallel?
      modifies this`events
      ensures Valid() && old(events) <= events
      ensures r.Success? ==> Stands(w, events, r.value)
      ensures r.Success? ==> BranchApplied(w, env, old(events), events, group, branch, attempt, submission, verdict)
      ensures r.Success? && old(AwaitsAnother(Fold(events).branches, group.id, branch.id)) ==> r.value.BranchRecorded?
      ensures r.Failure? ==> StoppedShort(w, env, events, r.error) || (r.error.Aborted? && CheckBroke(env, branch, events))
    {
      hide Fold, Legal, CanAppend, Fuel, Here, Stands, At, Entered, LatestEntry, EnteredBranches, LeftBy, JudgedBy,
           AwaitsAnother, ExhaustedDescends, Sound, AwaitedBranches, NoBranchPending, GroupOutcome, SameRun;
      verdict := Check(false, "");
      AwaitedBranchPlace(w, events, group, branch.id);
      SoundIds(w, group);
      var check := TakeBranchResult(group, branch, attempt, submission);
      if check.None? {
        return Failure(Aborted), verdict;
      }
      verdict := check.value;
      var journaled := if check.value.ok && !branch.checked then None else check;
      ReportBranch(group, branch, attempt, journaled, if check.value.ok then SUCCESS else FAILURE);
      ghost var reported := events;
      assert reported == old(events) + BranchReported(group, branch, attempt, submission, verdict);
      RemainingIsAnother(old(Fold(events).branches), Fold(events).branches, group.id, branch.id);
      var remaining := AwaitedBranches(Fold(events).branches, group.id);
      if remaining != {} {
        BranchStands(w, events, group, branch.id);
        return Success(BranchRecorded(group.id, branch.id, remaining)), verdict;
      }
      NoneRemaining(Fold(events).branches, group.id);
      r := RouteParallel(group);
    }

    /** A branch's writes become state of the run. */
    method TakeBranchResult(group: StepDecl, branch: StepDecl, attempt: int, submission: Submission)
      returns (check: Option<Check>)
      requires Valid() && Entered(w, events, group) && group.kind.Parallel? && branch.id in group.kind.branches
      requires BranchRef(group.id, branch.id) in Fold(events).branches.pending
      modifies this`events
      ensures Valid() && old(events) <= events && Entered(w, events, group)
      ensures Fold(events).branches == old(Fold(events).branches)
      ensures events == old(events) + ResultWrites(branch, attempt, InBranch(group.id), submission)
      ensures check.None? ==> CheckBroke(env, branch, events)
      ensures check.Some? ==> JudgedBy(env, branch, submission, events, check.value)
    {
      hide Fold, Legal, CanAppend, Here, At, Entered, ScopeOpen, LatestEntry, EnteredBranches;
      if submission.Unusable? {
        return Some(Check(false, submission.text));
      }
      if |submission.writes| > 0 {
        EnteredIsAt(w, events, group);
        BranchScopeOpen(w, events, group, branch, attempt);
        JournalWrites(branch, attempt, InBranch(group.id), submission.writes);
        ReportsStay(w, old(events), events, group);
      }
      check := EvaluateCheck(branch);
    }

    /** An item's report: a failure is tried again within the item's own budget, and
        the last item to be resolved runs the join. While a sibling is awaited,
        nothing but this item's own events is journaled. */
    method SubmitItem(step: StepDecl, body: StepDecl, ref: ItemRef, attempt: int, submission: Submission)
      returns (r: Result<Instruction, EngineError>, ghost verdict: Check)
      requires Valid() && AwaitedItem(w, events, step, body, ref, attempt) && step.kind.Foreach?
      modifies this`events
      ensures Valid() && old(events) <= events
      ensures r.Success? ==> IsAwaited(w, events, r.value)
      ensures r.Success? && old(HandedOut(w, events, step.id)) ==> Stands(w, events, r.value)
      ensures r.Success? ==> ItemApplied(w, env, hash, old(events), events, step, body, ref, attempt, submission, verdict)
      ensures old(AwaitsSibling(Fold(events).items, ref)) ==> OnlyItem(old(events), events, ref)
      ensures r.Failure? ==> StoppedShort(w, env, events, r.error) || (r.error.Aborted? && CheckBroke(env, body, events))
    {
      hide Fold, Legal, CanAppend, Fuel, Here, Stands, IsAwaited, Iterating, Snapshot, LatestEntry, AwaitedItem, OnlyItem, JudgedBy,
           ItemResolvedBy, ItemFailedBy, ResultWrites;
      verdict := Check(false, "");
      var check := TakeItemResult(step, body, ref, attempt, submission);
      ghost var taken := events;
      if check.None? {
        return Failure(Aborted), verdict;
      }
      verdict := check.value;
      if check.value.ok {
        AwaitedItemIterates(w, events, step, body, ref, attempt);
        r := ItemResolves(step, body, ref, attempt, if body.checked then check else None, SUCCESS);
      } else {
        r := FailItem(step, body, ref, attempt, check.value);
      }
      if old(AwaitsSibling(Fold(events).items, ref)) {
        OnlyItemOn(old(events), taken, events, ref);
      }
    }

    /** An item's writes stay with the item. */
    method TakeItemResult(step: StepDecl, body: StepDecl, ref: ItemRef, attempt: int, submission: Submission)
      returns (check: Option<Check>)
      requires Valid() && AwaitedItem(w, events, step, body, ref, attempt)
      modifies this`events
      ensures Valid() && AwaitedItem(w, events, step, body, ref, attempt)
      ensures events == old(events) + ResultWrites(body, attempt, InItem(ref), submission)
      ensures check.None? ==> CheckBroke(env, body, events)
      ensures check.Some? ==> JudgedBy(env, body, submission, events, check.value)
      ensures Fold(events).items.pending == old(Fold(events).items.pending)
      ensures old(HandedOut(w, events, step.id)) ==> HandedOut(w, events, step.id)
      ensures OnlyItem(old(events), events, ref)
    {
      hide Fold, Legal, CanAppend, Here, Iterating, Snapshot, LatestEntry, ScopeOpen, HandedOut;
      if submission.Unusable? {
        return Some(Check(false, submission.text));
      }
      if |submission.writes| > 0 {
        IteratingGroup(w, events, step, body, ref);
        ItemScopeOpen(w, events, step, body, ref, attempt);
        JournalWrites(body, attempt, InItem(ref), submission.writes);
        ItemReportsStay(w, old(events), events, step, body, ref);
        StillHandedOut(w, old(events), events, step.id);
      }
      check := EvaluateCheck(body);
    }

    /** A failed check of an item. */
    method FailItem(step: StepDecl, body: StepDecl, ref: ItemRef, attempt: int, cr: Check)
      returns (r: Result<Instruction, EngineError>)
      requires Valid() && AwaitedItem(w, events, step, body, ref, attempt) && !cr.ok && step.kind.Foreach?
      modifies this`events
      ensures Valid() && old(events) <= events
      ensures r.Success? ==> IsAwaited(w, events, r.value)
      ensures r.Success? && old(HandedOut(w, events, step.id)) ==> Stands(w, events, r.value)
      ensures old(AwaitsSibling(Fold(events).items, ref)) ==> OnlyItem(old(events), events, ref)
      ensures r.Success? ==> ItemFailedBy(w, env, hash, old(events), events, step, body, ref, attempt, cr)
      ensures var key := if body.keyed then Lookup(old(Fold(events).items.attemptKey), ref, "") else hash(cr.text);
              var again := NextItemEntry(old(Fold(events).items), body, ref, attempt, key);
              var entered := old(events) + [Judged(body, attempt, key, cr, InItem(ref)), again];
              entered <= events && env.ready(entered, body.id) ==>
                events == entered && r.Success? && r.value.DispatchMany?
                && r.value.agentic == [Dispatch(body.id, again.attempt, Some(ref.index), false, cr.text)]
      ensures r.Failure? ==> StoppedShort(w, env, events, r.error)
    {
      hide Fold, Legal, CanAppend, Fuel, Here, Stands, IsAwaited, Iterating, Snapshot, LatestEntry, AwaitsSibling, HandedOut,
           ItemResolvedBy, NextItemEntry, StoppedShort, ExhaustedDescends, Sound, ItemReport, Judged, OnlyItem;
      var nextKey := if body.keyed then Lookup(Fold(events).items.attemptKey, ref, "") else hash(cr.text);
      JudgeItem(step, body, ref, attempt, nextKey, cr);
      StillHandedOut(w, old(events), events, step.id);
      var i := Fold(events).items;
      ghost var judged := events;
      ghost var again := NextItemEntry(old(Fold(events).items), body, ref, attempt, nextKey);
      ItemRetryAllowed(w, events, step, body, ref, attempt, nextKey, cr);
      assert judged + [again] == old(events) + [Judged(body, attempt, nextKey, cr, InItem(ref)), again];
      var next := NextTry(attempt, Lookup(Lookup(i.keyAttempts, ref, map[]), nextKey, 0));
      if body.attempts > 1 && (next > step.maxVisits || next > body.attempts) {
        r := ItemResolves(step, body, ref, attempt, Some(Check(false, SPENT)), FAILURE);
        ReportIsNoEntry(judged, events, body, ref, attempt, Some(Check(false, SPENT)), again);
      } else if next <= body.attempts {
        r := RetryItem(step, body, ref, next, nextKey);
        if |events| == |old(events)| + 2 {
          ItemRetryIsToldItsFailure(old(events), events, body, ref, attempt, nextKey, cr, next);
        }
      } else {
        r := ItemResolves(step, body, ref, attempt, None, FAILURE);
        ReportIsNoEntry(judged, events, body, ref, attempt, None, again);
      }
      if old(AwaitsSibling(Fold(events).items, ref)) {
        OnlyItemOn(old(events), judged, events, ref);
      }
    }

    /** Journal an item's verdict. */
    method JudgeItem(step: StepDecl, body: StepDecl, ref: ItemRef, attempt: int, key: string, check: Check)
      requires Valid() && Iterating(w, events, step, body, ref) && ref in Fold(events).items.pending
      modifies this`events
      ensures Valid() && Iterating(w, events, step, body, ref) && Fold(events).items == old(Fold(events).items)
      ensures Snapshot(events, step.id) == old(Snapshot(events, step.id))
      ensures events == old(events) + [Judged(body, attempt, key, check, InItem(ref))]
      ensures Last(events) == Judged(body, attempt, key, check, InItem(ref)) && IsItemEvent(Last(events))
      ensures OnlyItem(old(events), events, ref) && ref.group != ""
    {
      hide Fold, Legal, CanAppend, Here, Iterating, Snapshot, LatestEntry;
      IteratingGroup(w, events, step, body, ref);
      var verdict := Judged(body, attempt, key, check, InItem(ref));
      ItemReportAllowed(w, events, step, body, ref, verdict);
      Append(verdict);
      ItemVerdictDone(w, events, step, body, ref);
    }

    /** Enter an item for its next attempt and hand out that item alone. */
    method RetryItem(step: StepDecl, body: StepDecl, ref: ItemRef, next: int, key: string)
      returns (r: Result<Instruction, EngineError>)
      requires Valid() && Iterating(w, events, step, body, ref) && ref in Fold(events).items.pending
      requires ref !in Fold(events).items.outcome && CanAppend(w, events, ItemEntry(ref, body.id, next, key, true, 0))
      modifies this`events
      ensures Valid() && old(events) + [ItemEntry(ref, body.id, next, key, true, 0)] <= events
      ensures r.Success? ==> IsAwaited(w, events, r.value)
      ensures r.Success? && old(HandedOut(w, events, step.id)) ==> Stands(w, events, r.value)
      ensures env.ready(old(events) + [ItemEntry(ref, body.id, next, key, true, 0)], body.id) ==>
                |events| == |old(events)| + 1 && r.Success? && r.value.DispatchMany?
                && r.value.agentic == [Dispatch(body.id, next, Some(ref.index), false, ItemFailure(events, ref, next))]
      ensures old(AwaitsSibling(Fold(events).items, ref)) ==> OnlyItem(old(events), events, ref)
      ensures r.Failure? ==> StoppedShort(w, env, events, r.error)
    {
      hide Fold, Legal, CanAppend, Fuel, Here, Stands, IsAwaited, Iterating, Snapshot, LatestEntry, HandedOut, ExhaustedDescends, Sound, JoinedBy,
           ItemFailure;
      IteratingGroup(w, events, step, body, ref);
      Append(ItemEntry(ref, body.id, next, key, true, 0));
      ItemEntryDone(w, events, step, body, ref);
      ghost var entered := events;
      StillHandedOut(w, old(events), events, step.id);
      if env.ready(events, body.id) {
        var failure := ItemFailureText(ref, next);
        var d := Dispatch(body.id, next, Some(ref.index), false, failure);
        RetriedStands(w, events, step, body, ref, d);
        return Success(DispatchMany(step.id, CursorHere().attempt, [d]));
      }
      r := ItemResolves(step, body, ref, next, Some(Check(false, NO_CONTEXT)), FAILURE);
      assert entered <= events;
    }

    /** Resolve an item; while others are awaited report which, else join. */
    method ItemResolves(step: StepDecl, body: StepDecl, ref: ItemRef, attempt: int, check: Option<Check>, outcome: string)
      returns (r: Result<Instruction, EngineError>)
      requires Valid() && Iterating(w, events, step, body, ref) && ref in Fold(events).items.pending
      requires (outcome == SUCCESS || outcome == FAILURE) && step.kind.Foreach?
      modifies this`events
      ensures Valid() && old(events) <= events
      ensures r.Success? ==> IsAwaited(w, events, r.value)
      ensures r.Success? && old(HandedOut(w, events, step.id)) ==> Stands(w, events, r.value)
      ensures r.Success? ==> ItemResolvedBy(w, env, old(events), events, step, body, ref, attempt, check, outcome)
      ensures old(events) + ItemReport(body, ref, attempt, check, outcome) <= events
      ensures old(AwaitsSibling(Fold(events).items, ref)) ==>
                OnlyItem(old(events), events, ref) && r.Success? && r.value.ItemRecorded?
      ensures r.Failure? ==> StoppedShort(w, env, events, r.error)
    {
      hide Fold, Legal, CanAppend, Fuel, Here, Stands, IsAwaited, Iterating, Snapshot, LatestEntry, AwaitsSibling, HandedOut, JoinedBy,
           ExhaustedDescends, Sound, AwaitedItems;
      ghost var before := Fold(events).items;
      IteratingGroup(w, events, step, body, ref);
      ResolveItem(step, body, ref, attempt, "", check, outcome);
      ghost var resolved := events;
      assert resolved == old(events) + ItemReport(body, ref, attempt, check, outcome);
      StillHandedOut(w, old(events), events, step.id);
      if old(AwaitsSibling(Fold(events).items, ref)) {
        SiblingRemains(before, Fold(events).items, ref);
      } else {
        NoSiblingRemains(before, Fold(events).items, ref);
      }
      r := AfterItemResolved(step, body, ref);
    }

    /** Report which items are still awaited, or join once none is. */
    method AfterItemResolved(step: StepDecl, body: StepDecl, ref: ItemRef) returns (r: Result<Instruction, EngineError>)
      requires Valid() && Iterating(w, events, step, body, ref) && step.kind.Foreach? && JustResolved(events, step.id)
      modifies this`events
      ensures Valid() && old(events) <= events
      ensures r.Success? ==> IsAwaited(w, events, r.value)
      ensures r.Success? && old(HandedOut(w, events, step.id)) ==> Stands(w, events, r.value)
      ensures var awaited := old(AwaitedItems(Fold(events).items, step.id));
              if awaited != {} then events == old(events) && r == Success(ItemRecorded(step.id, ref.index, awaited))
              else r.Success? ==> JoinedBy(w, env, old(events), events, step)
      ensures r.Failure? ==> StoppedShort(w, env, events, r.error)
    {
      hide Fold, Legal, CanAppend, Fuel, Here, Stands, IsAwaited, Iterating, Snapshot, LatestEntry, HandedOut, LeftBy, JoinList;
      var awaited := AwaitedItems(Fold(events).items, step.id);
      if awaited != {} {
        ItemsStand(w, events, step, body, ref);
        return Success(ItemRecorded(step.id, ref.index, awaited));
      }
      NoItemRemaining(Fold(events).items, step.id);
      IteratingList(w, events, step, body, ref);
      r := JoinForeach(step, Lookup(CoreOf(events).data.foreachItems, step.id, []));
      StandingIsAwaited(w, events, r);
    }

    // ---- answers and polls ----------------------------------------------------------------

    /** Apply the answer to the question the run is waiting on. Past the deadline
        the step times out and nothing is written, unless an answer to this very
        question was already accepted before a crash. */
    method SubmitHuman(id: string, attempt: int, answer: Answer)
      returns (r: Result<Instruction, CallError>)
      requires Valid() && !Blocked(CoreOf(events))
      modifies this`events
      ensures Valid() && old(events) <= events
      ensures r.Success? ==> Stands(w, events, r.value)
      ensures r.Failure? && r.error.Stopped? ==>
                StoppedShort(w, env, events, r.error.error)
                || (r.error.error.Aborted? && env.late(old(events), id).None? && events == old(events))
      ensures Terminal(old(CoreOf(events))) <==> r == Failure(AlreadyTerminal)
      ensures r == Failure(Refused) <==>
                !Terminal(old(CoreOf(events))) && !AwaitsAnswer(w, old(events), id, attempt)
      ensures r == Failure(Refused) || r == Failure(AlreadyTerminal) ==> events == old(events)
      ensures r.Success? ==>
                StepById(w, id).Some? && env.late(old(events), id).Some? &&
                AnswerApplied(w, env, old(events), events, StepById(w, id).value, answer,
                              env.late(old(events), id).value && !old(AnsweredSinceAsked(events, id, attempt)))
    {
      hide Fold, Legal, CanAppend, Fuel, Here, Stands, CursorOf, At, Arrived, LeftBy, Justified, Settled, AnsweredSinceAsked,
           AnswerApplied;
      if Terminal(CoreOf(events)) {
        return Failure(AlreadyTerminal);
      }
      var cur := CursorOf(CoreOf(events));
      if cur.step != id || cur.attempt != attempt || StepById(w, id).None? || !StepById(w, id).value.kind.Human? {
        return Failure(Refused);
      }
      var step := StepById(w, id).value;
      NamedCursorRuns(w, events, step);
      CursorIsHere(w, events, step);
      var answered := AnswerAccepted(id, attempt);
      var late := env.late(events, id);
      if late.None? {
        return Failure(Stopped(Aborted));
      }
      var taken := TakeAnswer(step, answer, late.value && !answered);
      r := Taken(taken);
    }

    /** Time out, or journal the answer and take its route. */
    method TakeAnswer(step: StepDecl, answer: Answer, timedOut: bool)
      returns (r: Result<Instruction, EngineError>)
      requires Valid() && At(w, events, step) && step.kind.Human?
      modifies this`events
      ensures Valid() && old(events) <= events
      ensures r.Success? ==> Stands(w, events, r.value)
      ensures r.Success? ==> AnswerApplied(w, env, old(events), events, step, answer, timedOut)
      ensures r.Failure? ==> StoppedShort(w, env, events, r.error)
    {
      hide Fold, Legal, CanAppend, Fuel, Here, Stands, At, LeftBy, Justified, Settled, Entered, ExhaustedDescends, Sound;
      if timedOut {
        HumanMayLeave(w, events, step, TIMEOUT);
        r := RouteOn(step, TIMEOUT);
        return;
      }
      var outcome := if answer.Invalid? then FAILURE else answer.outcome;
      if answer.Invalid? || (answer.write.Some? && !env.fits(events, step.id)) {
        outcome := FAILURE;
        JudgeStep(step, "", Check(false, if answer.Invalid? then answer.text else MISFIT));
      } else if answer.write.Some? {
        WriteStep(step, answer.write.value);
      }
      HumanMayLeave(w, events, step, outcome);
      ghost var reported := events;
      assert answer.Chosen? && answer.write.None? ==> reported == old(events) + [];
      r := RouteOn(step, outcome);
    }

    /** Scan back for an answer already accepted for the latest question. */
    method AnswerAccepted(id: string, attempt: int) returns (answered: bool)
      ensures answered <==> AnsweredSinceAsked(events, id, attempt)
    {
      var i := |events|;
      assert events[..i] == events;
      while i > 0
        invariant 0 <= i <= |events|
        invariant AnsweredSinceAsked(events, id, attempt) == AnsweredSinceAsked(events[..i], id, attempt)
      {
        var e := events[i - 1];
        assert Front(events[..i]) == events[..i - 1];
        if e.Writes? && e.step == id && e.attempt == attempt {
          return true;
        }
        if e.HumanAsked? && e.step == id && e.attempt == attempt {
          return false;
        }
        i := i - 1;
      }
      answered := false;
    }

    /** What a poller does with its final observation: re-confirm that the run is
        parked here and has a clock, journal what was observed, check it and take the
        route. */
    method CompleteWait(id: string, outcome: string, writes: map<string, Json>, failure: Option<string>)
      returns (r: Result<Instruction, CallError>, ghost verdict: Check)
      requires Valid() && outcome != EXHAUSTED
      modifies this`events
      ensures Valid() && old(events) <= events
      ensures r.Success? ==> Stands(w, events, r.value)
      ensures r == Failure(NotCurrent) <==>
                old(CoreOf(events)).ending.ended || old(CursorOf(CoreOf(events))).step != id
      ensures var refusal := Precheck(w, old(events), id);
              if refusal.Some? then r == Failure(refusal.value) && events == old(events)
              else r.Failure? ==>
                     r.error.Stopped?
                     && (StoppedShort(w, env, events, r.error.error)
                         || (r.error.error.Aborted? && CheckBroke(env, StepById(w, id).value, events)))
      ensures r == Failure(NotCurrent) || r == Failure(Refused) ==> events == old(events)
      ensures r.Success? ==>
                StepById(w, id).Some?
                && WaitCompleted(w, env, old(events), events, StepById(w, id).value, outcome, writes, failure, verdict)
    {
      hide Fold, Legal, CanAppend, Fuel, Here, Stands, CursorOf, At, Arrived, LeftBy, Justified, Settled, WaitCompleted;
      verdict := Check(false, "");
      var refusal := Precheck(w, events, id);
      if refusal.Some? {
        return Failure(refusal.value), verdict;
      }
      var step := StepById(w, id).value;
      NamedCursorRuns(w, events, step);
      CursorIsHere(w, events, step);
      var taken;
      taken, verdict := LeaveWait(step, outcome, writes, failure);
      r := Taken(taken);
    }

    /** Journal the observation and leave: by its outcome if the check passes, as
        failed if it does not. */
    method LeaveWait(step: StepDecl, outcome: string, writes: map<string, Json>, failure: Option<string>)
      returns (r: Result<Instruction, EngineError>, ghost verdict: Check)
      requires Valid() && At(w, events, step) && step.kind.Waiting? && outcome != EXHAUSTED
      modifies this`events
      ensures Valid() && old(events) <= events
      ensures r.Success? ==> Stands(w, events, r.value)
      ensures r.Success? ==> WaitCompleted(w, env, old(events), events, step, outcome, writes, failure, verdict)
      ensures r.Failure? ==> StoppedShort(w, env, events, r.error) || (r.error.Aborted? && CheckBroke(env, step, events))
    {
      hide Fold, Legal, CanAppend, Fuel, Here, Stands, At, LeftBy, Justified, Settled, Entered, ReportsOnly, Noted, Verdicts,
           ExhaustedDescends, Sound;
      verdict := Check(false, "");
      var check := ObserveWait(step, writes, failure);
      if check.None? {
        return Failure(Aborted), verdict;
      }
      verdict := check.value;
      assert FAILURE[0] != EXHAUSTED[0];
      var leaving := if check.value.ok then outcome else FAILURE;
      WaitMayLeave(w, events, step, leaving);
      r := RouteOn(step, leaving);
    }

    /** Journal what a poll observed, and its check if the step declares one. */
    method ObserveWait(step: StepDecl, writes: map<string, Json>, failure: Option<string>) returns (check: Option<Check>)
      requires Valid() && At(w, events, step) && step.kind.Waiting?
      modifies this`events
      ensures Valid() && old(events) <= events && At(w, events, step)
      ensures var noted := old(events) + Noted(w, old(events), step, writes, failure);
              check == (if step.checked then env.check(noted, step.id) else Some(Check(true, "")))
              && events == noted + if check.Some? then Verdicts(w, old(events), step, check.value) else []
      ensures check.Some? && step.checked ==> Lookup(CoreOf(events).ledger.lastOk, step.id, false) == check.value.ok
      ensures check.None? ==> CheckBroke(env, step, events)
    {
      hide Fold, Legal, CanAppend, Fuel, Here, Stands, At, Entered, SameRun, ExhaustedDescends, Sound, Judged, StepWrites;
      NoteFailure(step, failure);
      NoteWrites(step, writes);
      ghost var noted := events;
      assert noted == old(events) + Noted(w, old(events), step, writes, failure);
      check := EvaluateCheck(step);
      if step.checked && check.Some? {
        JudgeStep(step, CursorHere().key, check.value);
      }
    }

    /** Journal what a poll that succeeded wrote. */
    method NoteWrites(step: StepDecl, writes: map<string, Json>)
      requires Valid() && At(w, events, step) && step.kind.Waiting?
      modifies this`events
      ensures Valid() && At(w, events, step) && Here(w, events) == old(Here(w, events))
      ensures events == old(events)
                + if |writes| > 0 then [StepWrites(step, old(Here(w, events)).attempt, writes)] else []
    {
      hide Fold, Legal, CanAppend, Fuel, Here, Stands, At, Entered, SameRun, ExhaustedDescends, Sound, StepWrites;
      if |writes| > 0 {
        WriteStep(step, writes);
      }
    }

    /** Journal the text of a poll that failed. */
    method NoteFailure(step: StepDecl, failure: Option<string>)
      requires Valid() && At(w, events, step) && step.kind.Waiting?
      modifies this`events
      ensures Valid() && At(w, events, step) && Here(w, events) == old(Here(w, events))
      ensures events == old(events)
                + if failure.Some? then [Judged(step, old(Here(w, events)).attempt, "", Check(false, failure.value), Plain)]
                  else []
    {
      hide Fold, Legal, CanAppend, Fuel, Here, Stands, At, Entered, SameRun, ExhaustedDescends, Sound, Judged;
      if failure.Some? {
        JudgeStep(step, "", Check(false, failure.value));
      }
    }
  }
}
