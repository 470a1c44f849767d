/**
  A wait from end to end (internal/engine/poll.go): the poll loop against a journal that
  other processes may write to meanwhile, and the completion of the wait by what the
  loop came to.
 */
module Waits {
  import opened Wrappers
  import opened JsonValues
  import opened Journal
  import opened Workflows
  import opened Protocol
  import opened EngineRules
  import opened SubmitRules
  import opened EngineModel
  import Boundaries
  import GroupTheorems
  import P = Polling

  /** What one iteration finds: the journal as it then is, and what the command comes to. */
  datatype Reading = Reading(records: seq<Record>, cost: nat, tick: P.Tick)

  function Observed(w: Workflow, id: string, readings: nat -> Reading): nat -> P.Observation {
    (n: nat) => P.Observation(Precheck(w, EventsOf(readings(n).records), id).None?, readings(n).cost, readings(n).tick)
  }

  /** A command routes by the names its step declares, by `success` where it need not
      name any, and by `failure`, which alone carries a text. */
  predicate CanRoute(w: Workflow, id: string, tick: P.Tick) {
    tick.Routes? ==>
      && (tick.outcome == SUCCESS
          || (StepById(w, id).Some? && RoutableToken(StepById(w, id).value, tick.outcome)))
      && (tick.failure.Some? <==> tick.outcome == FAILURE)
  }

  /** What is reported for the step, if the loop ended with something to report. */
  datatype Report = Report(outcome: string, writes: map<string, Json>, failure: Option<string>)

  function ReportOf(end: P.PollResult): Option<Report> {
    match end
    case TimedOut => Some(Report(TIMEOUT, map[], None))
    case RoutedTo(outcome, writes, failure) => Some(Report(outcome, writes, failure))
    case Failed(text) => Some(Report(FAILURE, map[], if text == "" then None else Some(text)))
    case NotCurrent => None
    case Stuck => None
  }

  lemma {:induction false} AnchorIffParked(records: seq<Record>, id: string)
    ensures P.AnchorOf(records, id).Some? <==> HasParked(EventsOf(records), id)
  {
    var n := |records| - 1;
    if n >= 0 {
      AnchorIffParked(records[..n], id);
      assert forall i :: 0 <= i < n ==> EventsOf(records[..n])[i] == EventsOf(records)[i];
      if Anchors(records[n].event, id) {
        assert Anchors(EventsOf(records)[n], id);
      }
    }
  }

  /** The loop as it went, for a deadline: what it saw, when it ended, and why. */
  ghost predicate Polled(script: nat -> P.Observation, p: P.PollStep, deadline: int, start: int, ceiling: nat,
                         end: P.PollResult, ticks: seq<P.Tick>, looks: seq<int>, now: int)
    requires P.Positive(p)
  {
    && P.Follows(script, ticks) && P.Paced(p, script, start, ticks, looks)
    && (forall k :: 0 <= k < |ticks| ==> looks[k] < deadline)
    && now == (if |looks| > |ticks| then looks[|ticks|] else looks[|ticks| - 1] + script(|ticks|).cost)
    && start <= now <= (if start < deadline then deadline else start) + ceiling + P.Longest(p)
    && (if |ticks| == 0 then now == start else start < deadline)
    && (end.TimedOut? <==> |looks| > |ticks| && script(|ticks| + 1).current)
    && (end.NotCurrent? <==> |looks| > |ticks| && !script(|ticks| + 1).current)
    && (end.TimedOut? ==> now >= deadline)
    && (end.Failed? <==> P.Streak(ticks) == P.Most(p))
    && (end.RoutedTo? <==> |ticks| > 0 && ticks[|ticks| - 1].Routes?)
    && (end.RoutedTo? ==> ticks[|ticks| - 1] == P.Routes(end.outcome, end.writes, end.failure))
    && (end.Stuck? <==> |ticks| > 0 && ticks[|ticks| - 1].Broken?)
    && (forall k :: 0 <= k < |ticks| - 1 ==> !ticks[k].Routes? && !ticks[k].Broken?)
    && (forall k :: 0 <= k < |ticks| ==> P.Streak(ticks[..k]) < P.Most(p))
  }

  /** What is journaled after `last`, the journal once the lock is taken: the report, if
      the run still waits there. */
  ghost predicate Reported(w: Workflow, env: Environment, id: string, report: Report, last: seq<Event>, after: seq<Event>,
                           r: Result<Instruction, CallError>, verdict: Check)
  {
    var refusal := Precheck(w, last, id);
    if refusal.Some? then r == Failure(refusal.value) && after == last
    else r.Success? ==> StepById(w, id).Some?
                        && WaitCompleted(w, env, last, after, StepById(w, id).value, report.outcome, report.writes,
                                         report.failure, verdict)
  }

  /** A whole poll. `last` is the journal once the lock is taken. The run leaves the step
      by `timeout` only at the deadline of the visit that the poller found, as failed only
      after the hard failures in a row that use up the retries, and otherwise by what a
      tick named, with what it wrote; a check that fails turns each of these into a
      failure. If the run has moved on, at any iteration or before the lock, or the
      command is broken, nothing is journaled. */
  method PollWait(engine: Engine, p: P.PollStep, id: string, readings: nat -> Reading, last: seq<Record>,
                  start: int, ceiling: nat)
    returns (r: Result<Instruction, CallError>, end: P.PollResult, ticks: seq<P.Tick>, ghost looks: seq<int>, now: int,
            ghost verdict: Check)
    requires engine.Valid() && P.Positive(p) && Legal(engine.w, EventsOf(last))
    requires forall n :: readings(n).cost <= ceiling && CanRoute(engine.w, id, readings(n).tick)
    modifies engine`events
    ensures engine.Valid()
    ensures var parkedAt := P.AnchorOf(readings(0).records, id);
            var refusal := Precheck(engine.w, EventsOf(readings(0).records), id);
            if refusal.Some? then r == Failure(refusal.value) && engine.events == old(engine.events)
            else parkedAt.Some?
                 && Polled(Observed(engine.w, id, readings), p, parkedAt.value + p.timeout, start, ceiling, end, ticks, looks,
                           now)
    ensures Precheck(engine.w, EventsOf(readings(0).records), id).None? ==>
              match end
              case TimedOut =>
                Reported(engine.w, engine.env, id, Report(TIMEOUT, map[], None), EventsOf(last), engine.events, r, verdict)
              case RoutedTo(outcome, writes, failure) =>
                Reported(engine.w, engine.env, id, Report(outcome, writes, failure), EventsOf(last), engine.events, r, verdict)
              case Failed(text) =>
                Reported(engine.w, engine.env, id, Report(FAILURE, map[], if text == "" then None else Some(text)),
                         EventsOf(last), engine.events, r, verdict)
              case NotCurrent => r.Failure? && engine.events == old(engine.events)
              case Stuck => r == Failure(Stopped(Aborted)) && engine.events == old(engine.events)
  {
    hide Legal, Precheck, CanRoute, WaitCompleted, ExhaustedDescends, Sound, P.Follows, P.Streak, P.Longest, P.Shortest, P.AnchorOf, StepById;
    verdict := Check(false, "");
    var refusal := Precheck(engine.w, EventsOf(readings(0).records), id);
    if refusal.Some? {
      return Failure(refusal.value), P.NotCurrent, [], [], start, verdict;
    }
    var parked := P.ParkedAt(readings(0).records, id);
    PassedIsParked(engine.w, readings(0).records, id);
    var script := Observed(engine.w, id, readings);
    end, ticks, looks, now := P.Poll(p, parked.value, start, ceiling, script);
    var report := ReportOf(end);
    if report.None? {
      r := Failure(if end.NotCurrent? then Precheck(engine.w, EventsOf(readings(|ticks| + 1).records), id).value
                   else Stopped(Aborted));
    } else {
      ReportIsNotExhausted(engine.w, id, readings, ticks, end);
      engine.events := EventsOf(last);
      r, verdict := engine.CompleteWait(id, report.value.outcome, report.value.writes, report.value.failure);
    }
  }

  lemma PassedIsParked(w: Workflow, records: seq<Record>, id: string)
    requires Precheck(w, EventsOf(records), id).None?
    ensures P.AnchorOf(records, id).Some?
  {
    AnchorIffParked(records, id);
  }

  lemma ReportIsNotExhausted(w: Workflow, id: string, readings: nat -> Reading, ticks: seq<P.Tick>, end: P.PollResult)
    requires P.Follows(Observed(w, id, readings), ticks) && forall n :: CanRoute(w, id, readings(n).tick)
    requires end.RoutedTo? ==> |ticks| > 0 && ticks[|ticks| - 1] == P.Routes(end.outcome, end.writes, end.failure)
    requires ReportOf(end).Some?
    ensures ReportOf(end).value.outcome != EXHAUSTED
  {
    assert TIMEOUT[0] != EXHAUSTED[0] && FAILURE[0] != EXHAUSTED[0];
    if end.RoutedTo? {
      assert CanRoute(w, id, readings(|ticks|).tick);
    }
  }

  // ---- a poller that outlives its visit ---------------------------------------------------

  /** The clock was started again by what was journaled after the poller read it. */
  predicate StartedAgain(found: seq<Record>, last: seq<Record>, id: string)
    requires found <= last
  {
    exists k :: |found| <= k < |last| && Anchors(last[k].event, id)
  }

  /** Its latest start is then one of those, and the one found otherwise. */
  lemma {:induction false} AnchorOfGrown(found: seq<Record>, last: seq<Record>, id: string)
    requires found <= last
    ensures P.AnchorOf(last, id) ==
            if StartedAgain(found, last, id) then P.AnchorOf(last[|found|..], id) else P.AnchorOf(found, id)
    ensures StartedAgain(found, last, id) ==>
              P.AnchorOf(last, id).Some? && exists k :: |found| <= k < |last| && P.AnchorOf(last, id) == Some(last[k].time)
  {
    var n := |last| - 1;
    if n < |found| {
      assert last == found;
    } else {
      var front := last[..n];
      assert last[|found|..][..n - |found|] == front[|found|..] && last[|found|..][n - |found|] == last[n];
      AnchorOfGrown(found, front, id);
      assert forall k :: |found| <= k < n ==> front[k] == last[k];
      if Anchors(last[n].event, id) {
        assert StartedAgain(found, last, id);
      } else if StartedAgain(found, front, id) {
        var k :| |found| <= k < n && Anchors(front[k].event, id);
        assert Anchors(last[k].event, id);
      }
    }
  }

  /** A poller that found this journal times out. */
  ghost predicate TimesOut(w: Workflow, id: string, p: P.PollStep, found: seq<Record>, readings: nat -> Reading, start: int,
                           ceiling: nat, ticks: seq<P.Tick>, looks: seq<int>, now: int)
    requires P.Positive(p) && P.AnchorOf(found, id).Some?
  {
    readings(0).records == found
    && Polled(Observed(w, id, readings), p, P.AnchorOf(found, id).value + p.timeout, start, ceiling, P.TimedOut, ticks,
              looks, now)
  }

  /** Whatever a poller sees that found one journal, and whenever it starts: a timeout it
      reports to the other is not before the other's own deadline. */
  ghost predicate TimeoutsAreInTime(w: Workflow, id: string, p: P.PollStep, found: seq<Record>, last: seq<Record>)
    requires P.Positive(p) && P.AnchorOf(found, id).Some? && P.AnchorOf(last, id).Some?
  {
    forall readings, start, ceiling, ticks, looks, now ::
      TimesOut(w, id, p, found, readings, start, ceiling, ticks, looks, now) && P.AnchorOf(last, id).value <= now ==>
        P.AnchorOf(last, id).value + p.timeout <= now
  }

  lemma SeesItWait(w: Workflow, id: string, readings: nat -> Reading, n: nat)
    requires Precheck(w, EventsOf(readings(n).records), id).None?
    ensures Observed(w, id, readings)(n).current
  {}

  /** A poller that looks first at or after its deadline times out there and then. */
  lemma TimedOutAtOnce(script: nat -> P.Observation, p: P.PollStep, deadline: int, start: int)
    requires P.Positive(p) && script(1).current && deadline <= start
    ensures Polled(script, p, deadline, start, 0, P.TimedOut, [], [start], start)
  {
    P.NothingFollows(script);
    P.PacedAtFirst(p, script, start);
    P.StreakOfNone();
  }

  /** The condition is exact: for any journal in which the run waits, every timeout of a
      poller that found it is in time if and only if the clock has not been started again
      since the poller read it. */
  lemma TimeoutFitsTheVisit(w: Workflow, id: string, p: P.PollStep, found: seq<Record>, last: seq<Record>)
    requires P.Positive(p) && p.timeout > 0 && found <= last
    requires Precheck(w, EventsOf(found), id).None? && P.AnchorOf(found, id).Some?
    requires forall k :: |found| <= k < |last| ==> last[k].time > P.AnchorOf(found, id).value
    ensures P.AnchorOf(last, id).Some?
    ensures TimeoutsAreInTime(w, id, p, found, last) <==> !StartedAgain(found, last, id)
  {
    hide P.AnchorOf, P.Longest, P.Paced, P.Follows, P.Streak, Observed, Precheck;
    AnchorOfGrown(found, last, id);
    var parkedAt, later := P.AnchorOf(found, id).value, P.AnchorOf(last, id).value;
    if StartedAgain(found, last, id) {
      var readings := (n: nat) => Reading(found, 0, P.NotYet);
      var start := LaterOf(parkedAt + p.timeout, later);
      SeesItWait(w, id, readings, 1);
      TimedOutAtOnce(Observed(w, id, readings), p, parkedAt + p.timeout, start);
      assert TimesOut(w, id, p, found, readings, start, 0, [], [start], start) && later <= start < later + p.timeout;
    }
  }

  function LaterOf(a: int, b: int): int {
    if a < b then b else a
  }

  /** And it is a real poll that comes too early: for any two journals in which the run
      waits at the step, the clock of the second started later, a poller that read the
      first and goes on at its deadline reports the timeout to the second. */
  method OldPollerIsEarly(engine: Engine, p: P.PollStep, id: string, found: seq<Record>, last: seq<Record>)
    returns (r: Result<Instruction, CallError>, end: P.PollResult, now: int, ghost verdict: Check)
    requires engine.Valid() && P.Positive(p) && p.timeout > 0 && Legal(engine.w, EventsOf(last))
    requires Precheck(engine.w, EventsOf(found), id).None? && Precheck(engine.w, EventsOf(last), id).None?
    requires P.AnchorOf(found, id).Some? && P.AnchorOf(last, id).Some?
    requires P.AnchorOf(found, id).value < P.AnchorOf(last, id).value
    modifies engine`events
    ensures engine.Valid() && end == P.TimedOut
    ensures P.AnchorOf(last, id).value <= now < P.AnchorOf(last, id).value + p.timeout
    ensures Reported(engine.w, engine.env, id, Report(TIMEOUT, map[], None), EventsOf(last), engine.events, r, verdict)
  {
    hide Legal, Precheck, WaitCompleted, Reported, P.AnchorOf, P.Streak, P.Longest, ExhaustedDescends, Sound, StepById;
    var deadline, again := P.AnchorOf(found, id).value + p.timeout, P.AnchorOf(last, id).value;
    var readings := (n: nat) => Reading(if n == 0 then found else last, 0, P.NotYet);
    var ticks;
    ghost var looks;
    r, end, ticks, looks, now, verdict := PollWait(engine, p, id, readings, last, LaterOf(deadline, again), 0);
    P.StreakOfNone();
  }

  /** A wait step that can be returned to, and a run that did return to it. */
  const RETURNING := Workflow("w", [StepDecl("w", Waiting, "w", map[], [], 1, 2, false, false, None)], map[], map[], 2, 0)

  const WAIT := RETURNING.steps[0]

  const FIRST_WAIT := [Record(0, 0, RunStart(FORMAT, "", map[])), Record(1, 0, Entry(WAIT, 1, "", false, 0))]

  const SECOND_WAIT := FIRST_WAIT + [Record(2, 99, Transition("w", 1, "w", SUCCESS, false, "", None)),
                                     Record(3, 99, Entry(WAIT, 1, "", false, 0))]

  lemma ReturningIsSound()
    ensures Sound(RETURNING) && StepById(RETURNING, "w") == Some(WAIT)
    ensures ResolveTarget(WAIT, SUCCESS) == Some(Route("w", false)) && !IsStep(RETURNING, "")
  {
    assert SUCCESS[0] != FAILURE[0] && SUCCESS[0] != EXHAUSTED[0];
  }

  /** The wait step is entered, for the first time or again. */
  lemma WaitBegins(events: seq<Event>)
    requires Legal(RETURNING, events) && Arriving(RETURNING, events, "w")
    requires Total(CoreOf(events).ledger.visits) < 2 && Lookup(CoreOf(events).ledger.visits, "w", 0) < 2
    ensures var s, visits := events + [Entry(WAIT, 1, "", false, 0)], CoreOf(events).ledger.visits;
            && Legal(RETURNING, s) && Entered(RETURNING, s, WAIT) && Here(RETURNING, s) == Cursor("w", 1, "", 0)
            && CoreOf(s).ledger.visits == visits["w" := Lookup(visits, "w", 0) + 1]
            && Precheck(RETURNING, s, "w").None?
  {
    hide Fold, Legal, CanAppend, Here, Total, LatestEntry, Entered, StepData, StepEnding, StepItems, StepBranches, Precheck;
    ReturningIsSound();
    var entry := Entry(WAIT, 1, "", false, 0);
    FirstEntryAllowed(RETURNING, events, WAIT, Cursor("w", 1, "", 0), "k");
    Boundaries.Grow(RETURNING, events, entry);
    var s := events + [entry];
    FreshlyEntered(RETURNING, events, s, WAIT);
    EnteredIsWaiting(s);
  }

  lemma EnteredIsWaiting(events: seq<Event>)
    requires Entered(RETURNING, events, WAIT) && |events| > 0 && Last(events) == Entry(WAIT, 1, "", false, 0)
    ensures Precheck(RETURNING, events, "w").None?
  {
    hide Fold;
    ReturningIsSound();
    EnteredCursor(RETURNING, events, WAIT);
    assert Anchors(events[|events| - 1], "w");
  }

  lemma WaitEvents()
    ensures EventsOf(FIRST_WAIT) == [RunStart(FORMAT, "", map[])] + [Entry(WAIT, 1, "", false, 0)]
    ensures EventsOf(SECOND_WAIT) == EventsOf(FIRST_WAIT) + [Transition("w", 1, "w", SUCCESS, false, "", None)]
                                     + [Entry(WAIT, 1, "", false, 0)]
  {}

  /** The run waits in both journals. */
  lemma BothWait()
    ensures Legal(RETURNING, EventsOf(FIRST_WAIT)) && Legal(RETURNING, EventsOf(SECOND_WAIT))
    ensures Precheck(RETURNING, EventsOf(FIRST_WAIT), "w").None? && Precheck(RETURNING, EventsOf(SECOND_WAIT), "w").None?
  {
    hide Fold, Legal, CanAppend, Here, Total, LatestEntry, Entered, StepCore, Sound, Justified, Arriving, Precheck,
         EventsOf;
    ReturningIsSound();
    var start := RunStart(FORMAT, "", map[]);
    StartAllowed(RETURNING, FORMAT, "", map[]);
    Boundaries.Grow(RETURNING, [], start);
    assert [] + [start] == [start];
    StartArrives(RETURNING, [start]);
    Boundaries.NoVisits();
    NothingVisited([start]);
    WaitBegins([start]);
    var one := [start] + [Entry(WAIT, 1, "", false, 0)];
    EnteredIsAt(RETURNING, one, WAIT);
    WaitMayLeave(RETURNING, one, WAIT, SUCCESS);
    Boundaries.LeaveAllowed(RETURNING, one, WAIT, SUCCESS);
    var around := Transition("w", 1, "w", SUCCESS, false, "", None);
    Boundaries.Grow(RETURNING, one, around);
    var two := one + [around];
    Boundaries.LeaveArrives(RETURNING, two);
    TotalOfUpdate(map[], "w", 1);
    WaitBegins(two);
    WaitEvents();
  }

  lemma NothingVisited(events: seq<Event>)
    requires |events| == 1 && events[0].RunStart?
    ensures CoreOf(events).ledger.visits == map[]
  {
    hide StepData, StepPlace, StepEnding, StepItems, StepBranches;
    GroupTheorems.FoldOfLast(events);
    assert Front(events) == [];
    Boundaries.FoldOfNothing();
  }

  /** The wait is to time out after 100. A poller starts at 99; then the run leaves the
      step and returns to it, and waits there anew. The poller goes on, and reports a
      timeout for a visit that has just begun. */
  method OldPollerCutsVisitShort(engine: Engine)
    returns (r: Result<Instruction, CallError>, end: P.PollResult, now: int, ghost verdict: Check)
    requires engine.Valid() && engine.w == RETURNING
    modifies engine`events
    ensures Precheck(RETURNING, EventsOf(SECOND_WAIT), "w").None?
    ensures end == P.TimedOut && P.AnchorOf(SECOND_WAIT, "w") == Some(99) && now < 99 + 100
    ensures r.Success? ==>
              WaitCompleted(RETURNING, engine.env, EventsOf(SECOND_WAIT), engine.events, WAIT, TIMEOUT, map[], None, verdict)
  {
    hide Legal, Precheck, WaitCompleted, P.Streak;
    ReturningIsSound();
    BothWait();
    var p := P.PollStep(1, 100, None);
    var readings := (n: nat) => Reading(if n == 0 then FIRST_WAIT else SECOND_WAIT, 0, P.NotYet);
    var ticks;
    ghost var looks;
    r, end, ticks, looks, now, verdict := PollWait(engine, p, "w", readings, SECOND_WAIT, 99, 0);
    OnlyTheDeadlineEnds(Observed(RETURNING, "w", readings), p, 100, 99, 0, end, ticks, looks, now);
  }

  /** Where every command says that it is too early, and the run always waits, a poll can
      only time out. */
  lemma OnlyTheDeadlineEnds(script: nat -> P.Observation, p: P.PollStep, deadline: int, start: int, ceiling: nat,
                            end: P.PollResult, ticks: seq<P.Tick>, looks: seq<int>, now: int)
    requires P.Positive(p) && Polled(script, p, deadline, start, ceiling, end, ticks, looks, now)
    requires forall n :: n > 0 ==> script(n).current && script(n).tick.NotYet?
    ensures end.TimedOut? && deadline <= now <= (if start < deadline then deadline else start) + ceiling + P.Longest(p)
  {
    hide P.Longest;
    assert |ticks| > 0 ==> ticks[|ticks| - 1] == script(|ticks|).tick;
  }
}
