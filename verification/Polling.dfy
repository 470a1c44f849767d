/**
  The poll loop of a wait step (internal/engine/poll.go): it ends at the first routed
  tick, at the deadline, or when hard failures in a row have used up the retries.
  Times are in whole units of the clock; a sleep advances it by what was asked.
 */
module Polling {
  import opened Wrappers
  import opened JsonValues
  import opened Journal
  import opened Protocol

  /** What one run of the poll command comes to. An outcome the command itself names is
      routed, `failure` included, and with it what it wrote, or said of its failure; a
      non-zero exit, an overrun and output that cannot be read are hard failures. A
      command that cannot be rendered or started at all is broken. */
  datatype Tick =
    | NotYet
    | Routes(outcome: string, writes: map<string, Json>, failure: Option<string>)
    | Hard(text: string)
    | Broken

  /** One iteration as the poller finds it: whether the run still waits at this step,
      how long the command takes, and what it comes to. */
  datatype Observation = Observation(current: bool, cost: nat, tick: Tick)

  datatype Retry = Retry(maxAttempts: int, backoff: nat)

  datatype PollStep = PollStep(every: nat, timeout: nat, retry: Option<Retry>)

  datatype PollResult =
    | NotCurrent
    | TimedOut
    | RoutedTo(outcome: string, writes: map<string, Json>, failure: Option<string>)
    | Failed(text: string)
    | Stuck

  /** Validated durations are positive. */
  predicate Positive(p: PollStep) {
    p.every > 0 && (p.retry.Some? ==> p.retry.value.backoff > 0)
  }

  /** How many hard failures in a row end the loop. */
  function Most(p: PollStep): (n: int)
    ensures n >= 1
  {
    if p.retry.Some? && p.retry.value.maxAttempts > 1 then p.retry.value.maxAttempts else 1
  }

  /** The shortest and the longest sleep between two ticks. */
  function Shortest(p: PollStep): nat {
    if p.retry.Some? && p.retry.value.backoff < p.every then p.retry.value.backoff else p.every
  }

  function Longest(p: PollStep): nat {
    var last := if p.retry.Some? then p.retry.value.backoff * (Most(p) - 1) else 0;
    if last > p.every then last else p.every
  }

  /** Hard failures at the end of a run of ticks. */
  function Streak(ticks: seq<Tick>): nat {
    if |ticks| > 0 && ticks[|ticks| - 1].Hard? then 1 + Streak(ticks[..|ticks| - 1]) else 0
  }

  lemma StreakOf(ticks: seq<Tick>, tick: Tick)
    ensures Streak(ticks + [tick]) == if tick.Hard? then Streak(ticks) + 1 else 0
  {
    assert (ticks + [tick])[..|ticks|] == ticks;
  }

  /** They are all the hard failures since the last tick that was none. */
  lemma {:induction false} StreakIsRun(ticks: seq<Tick>)
    ensures Streak(ticks) <= |ticks|
    ensures forall k :: |ticks| - Streak(ticks) <= k < |ticks| ==> ticks[k].Hard?
    ensures Streak(ticks) < |ticks| ==> !ticks[|ticks| - Streak(ticks) - 1].Hard?
  {
    if |ticks| > 0 && ticks[|ticks| - 1].Hard? {
      StreakIsRun(ticks[..|ticks| - 1]);
    }
  }

  /** When the poller looks: first at `start`, and then, once the command is done, `every`
      after a tick that was too early, and m times the backoff after the m-th hard failure
      in a row. */
  ghost predicate Paced(p: PollStep, script: nat -> Observation, start: int, ticks: seq<Tick>, looks: seq<int>) {
    && |ticks| <= |looks| <= |ticks| + 1 && |looks| > 0 && looks[0] == start
    && forall k: nat :: k < |looks| - 1 ==> LooksAfter(p, script, ticks[..k + 1], looks[k], looks[k + 1])
  }

  /** The look after the latest of the ticks. */
  ghost predicate LooksAfter(p: PollStep, script: nat -> Observation, ticks: seq<Tick>, look: int, next: int)
    requires |ticks| > 0
  {
    var tick, cost := ticks[|ticks| - 1], script(|ticks|).cost;
    && (tick.NotYet? ==> next == look + cost + p.every)
    && (tick.Hard? ==> p.retry.Some? && next == look + cost + p.retry.value.backoff * Streak(ticks))
  }

  function Costs(script: nat -> Observation, n: nat): nat {
    if n == 0 then 0 else Costs(script, n - 1) + script(n).cost
  }

  /** As long as every tick is too early, the poller looks `every` after the end of each
      command. */
  lemma {:induction false} SteadyLooks(p: PollStep, script: nat -> Observation, start: int, ticks: seq<Tick>, looks: seq<int>,
                                       n: nat)
    requires Paced(p, script, start, ticks, looks) && n < |looks|
    requires forall k :: 0 <= k < n ==> ticks[k].NotYet?
    ensures looks[n] == start + Costs(script, n) + n * p.every
  {
    if n > 0 {
      SteadyLooks(p, script, start, ticks, looks, n - 1);
      assert LooksAfter(p, script, ticks[..n - 1 + 1], looks[n - 1], looks[n - 1 + 1]);
      assert n * p.every == (n - 1) * p.every + p.every;
    }
  }

  /** While the retries last, every command fails, and costs nothing, the pauses add up to
      the backoff times 1, 2, 3 and so on. */
  lemma {:induction false} FailingLooks(p: PollStep, script: nat -> Observation, start: int, ticks: seq<Tick>, looks: seq<int>,
                                        n: nat)
    requires Paced(p, script, start, ticks, looks) && n < |looks| && p.retry.Some?
    requires forall k :: 0 <= k < n ==> ticks[k].Hard?
    requires forall k :: 0 < k <= n ==> script(k).cost == 0
    ensures 2 * (looks[n] - start) == p.retry.value.backoff * (n * (n + 1))
  {
    if n > 0 {
      FailingLooks(p, script, start, ticks, looks, n - 1);
      AllHard(ticks[..n]);
      assert LooksAfter(p, script, ticks[..n - 1 + 1], looks[n - 1], looks[n - 1 + 1]);
      OneMoreBackoff(p.retry.value.backoff, n);
    }
  }

  lemma OneMoreBackoff(b: nat, n: nat)
    requires n > 0
    ensures b * ((n - 1) * n) + 2 * (b * n) == b * (n * (n + 1))
  {
    assert n * (n + 1) == (n - 1) * n + 2 * n;
    assert b * ((n - 1) * n + 2 * n) == b * ((n - 1) * n) + b * (2 * n);
    assert b * (2 * n) == 2 * (b * n);
  }

  lemma {:induction false} AllHard(ticks: seq<Tick>)
    requires forall k :: 0 <= k < |ticks| ==> ticks[k].Hard?
    ensures Streak(ticks) == |ticks|
  {
    if |ticks| > 0 {
      AllHard(ticks[..|ticks| - 1]);
    }
  }

  lemma BackoffBounds(p: PollStep, streak: nat)
    requires Positive(p) && p.retry.Some? && 1 <= streak < Most(p)
    ensures Shortest(p) <= p.retry.value.backoff * streak <= Longest(p)
  {
    var b := p.retry.value.backoff;
    Product(b, 1, streak);
    Product(b, streak, Most(p) - 1);
  }

  lemma Product(b: nat, m: nat, n: nat)
    requires m <= n
    ensures b * m <= b * n
  {}

  lemma OneMoreSleep(n: nat, shortest: nat, spent: int, sleep: nat)
    requires n * shortest <= spent && shortest <= sleep
    ensures (n + 1) * shortest <= spent + sleep
  {}

  /** The ticks are those the poller saw, in order, while the run still waited. */
  ghost predicate Follows(script: nat -> Observation, ticks: seq<Tick>) {
    |ticks| > 0 ==>
      Follows(script, ticks[..|ticks| - 1])
      && script(|ticks|).current && ticks[|ticks| - 1] == script(|ticks|).tick
  }

  lemma NothingFollows(script: nat -> Observation)
    ensures Follows(script, [])
  {}

  lemma OneMoreFollows(script: nat -> Observation, ticks: seq<Tick>, n: nat)
    requires Follows(script, ticks) && n == |ticks| + 1 && script(n).current
    ensures Follows(script, ticks + [script(n).tick])
  {
    assert (ticks + [script(n).tick])[..|ticks|] == ticks;
  }

  /** The loop, from the clock's `start`, for a run that parked at `parkedAt`. It reports
      the ticks it saw, when it looked, and the time it ended at.
      It looks exactly when it is due to. The first look at which the run no longer waits
      ends it, and so does the first at or after the deadline, by a timeout; any other look
      is followed by a tick. It ends within one command and one sleep after the deadline, having ticked no
      more often than the time to the deadline allows; it fails at exactly the hard
      failure in a row that uses up the retries, and at no earlier one; it times out
      only at the deadline, and a tick it acts on began before it. A broken command ends
      it at once, with nothing to complete. */
  method Poll(p: PollStep, parkedAt: int, start: int, ceiling: nat, script: nat -> Observation)
    returns (r: PollResult, ticks: seq<Tick>, ghost looks: seq<int>, end: int)
    requires Positive(p) && forall n :: script(n).cost <= ceiling
    ensures var deadline := parkedAt + p.timeout;
            && start <= end <= (if start < deadline then deadline else start) + ceiling + Longest(p)
            && (|ticks| > 0 ==> start < deadline && (|ticks| - 1) * Shortest(p) < deadline - start)
            && (|ticks| == 0 ==> end == start)
            && Paced(p, script, start, ticks, looks)
            && (forall k :: 0 <= k < |ticks| ==> looks[k] < deadline)
            && end == (if |looks| > |ticks| then looks[|ticks|] else looks[|ticks| - 1] + script(|ticks|).cost)
            && (r.NotCurrent? <==> |looks| > |ticks| && !script(|ticks| + 1).current)
            && (r.TimedOut? <==> |looks| > |ticks| && script(|ticks| + 1).current)
            && (r.TimedOut? ==> end >= deadline)
            && (r.Failed? <==> Streak(ticks) == Most(p))
            && (forall k :: 0 <= k < |ticks| ==> Streak(ticks[..k]) < Most(p))
            && (r.RoutedTo? <==> |ticks| > 0 && ticks[|ticks| - 1].Routes?)
            && (r.RoutedTo? ==> ticks[|ticks| - 1] == Routes(r.outcome, r.writes, r.failure))
            && (r.Stuck? <==> |ticks| > 0 && ticks[|ticks| - 1].Broken?)
            && (forall k :: 0 <= k < |ticks| - 1 ==> !ticks[k].Routes? && !ticks[k].Broken?)
            && (r.Failed? ==> |ticks| > 0 && ticks[|ticks| - 1] == Hard(r.text))
            && Follows(script, ticks)
  {
    hide Streak, Shortest, Longest, Follows, Paced;
    NothingFollows(script);
    var deadline := parkedAt + p.timeout;
    var now := start;
    var hardFailStreak := 0;
    var n := 1;
    ticks, looks := [], [start];
    PacedAtFirst(p, script, start);
    StreakOfNone();
    SleepBounds(p);
    while true
      invariant n == |ticks| + 1 && start <= now && hardFailStreak == Streak(ticks) && hardFailStreak < Most(p)
      invariant (n - 1) * Shortest(p) <= now - start
      invariant n == 1 ==> now == start
      invariant n > 1 ==> start < deadline && now <= deadline + ceiling + Longest(p)
      invariant n > 1 ==> (n - 2) * Shortest(p) < deadline - start
      invariant forall k :: 0 <= k < |ticks| ==> Streak(ticks[..k]) < Most(p) && !ticks[k].Routes? && !ticks[k].Broken?
      invariant Follows(script, ticks)
      invariant Paced(p, script, start, ticks, looks) && |looks| == n && looks[n - 1] == now
      invariant forall k :: 0 <= k < |ticks| ==> looks[k] < deadline
      decreases deadline - now
    {
      var seen := script(n);
      if !seen.current {
        return NotCurrent, ticks, looks, now;
      }
      if now >= deadline {
        return TimedOut, ticks, looks, now;
      }
      ghost var before := ticks;
      ticks := ticks + [seen.tick];
      StreakOf(before, seen.tick);
      PrefixesStay(before, seen.tick, Most(p));
      OneMoreFollows(script, before, n);
      TickSeen(p, script, start, before, looks, seen.tick);
      now := now + seen.cost;
      match seen.tick {
        case NotYet =>
          hardFailStreak := 0;
          OneMoreSleep(n - 1, Shortest(p), now - start, p.every);
          now := now + p.every;
          OneMoreLook(p, script, start, ticks, looks, now);
          looks := looks + [now];
        case Routes(outcome, writes, failure) =>
          return RoutedTo(outcome, writes, failure), ticks, looks, now;
        case Broken =>
          return Stuck, ticks, looks, now;
        case Hard(text) =>
          hardFailStreak := hardFailStreak + 1;
          if p.retry.None? || hardFailStreak >= p.retry.value.maxAttempts {
            return Failed(text), ticks, looks, now;
          }
          BackoffBounds(p, hardFailStreak);
          OneMoreSleep(n - 1, Shortest(p), now - start, p.retry.value.backoff * hardFailStreak);
          now := now + p.retry.value.backoff * hardFailStreak;
          OneMoreLook(p, script, start, ticks, looks, now);
          looks := looks + [now];
      }
      n := n + 1;
    }
  }

  lemma PacedAtFirst(p: PollStep, script: nat -> Observation, start: int)
    ensures Paced(p, script, start, [], [start])
  {}

  lemma TickSeen(p: PollStep, script: nat -> Observation, start: int, ticks: seq<Tick>, looks: seq<int>, tick: Tick)
    requires Paced(p, script, start, ticks, looks) && |looks| == |ticks| + 1
    ensures Paced(p, script, start, ticks + [tick], looks)
  {
    hide LooksAfter;
    forall k: nat | k < |looks| - 1
      ensures LooksAfter(p, script, (ticks + [tick])[..k + 1], looks[k], looks[k + 1])
    {
      assert (ticks + [tick])[..k + 1] == ticks[..k + 1];
    }
  }

  lemma OneMoreLook(p: PollStep, script: nat -> Observation, start: int, ticks: seq<Tick>, looks: seq<int>, now: int)
    requires Paced(p, script, start, ticks, looks) && |looks| == |ticks| > 0
    requires LooksAfter(p, script, ticks, looks[|ticks| - 1], now)
    ensures Paced(p, script, start, ticks, looks + [now])
  {
    hide LooksAfter;
    var more := looks + [now];
    assert ticks[..|ticks|] == ticks;
    forall k: nat | k < |more| - 1
      ensures LooksAfter(p, script, ticks[..k + 1], more[k], more[k + 1])
    {
      if k < |looks| - 1 {
        assert more[k] == looks[k] && more[k + 1] == looks[k + 1];
      }
    }
  }

  lemma StreakOfNone()
    ensures Streak([]) == 0
  {}

  lemma SleepBounds(p: PollStep)
    requires Positive(p)
    ensures 0 < Shortest(p) <= p.every <= Longest(p)
  {}

  lemma PrefixesStay(ticks: seq<Tick>, tick: Tick, most: int)
    requires Streak(ticks) < most && forall k :: 0 <= k < |ticks| ==> Streak(ticks[..k]) < most
    ensures forall k :: 0 <= k < |ticks + [tick]| ==> Streak((ticks + [tick])[..k]) < most
  {
    hide Streak;
    forall k | 0 <= k < |ticks + [tick]|
      ensures Streak((ticks + [tick])[..k]) < most
    {
      if k == |ticks| {
        assert (ticks + [tick])[..k] == ticks;
      } else {
        assert (ticks + [tick])[..k] == ticks[..k];
      }
    }
  }

  // ---- the deadline's anchor ------------------------------------------------------------------

  /** When the run parked at the step. */
  function AnchorOf(records: seq<Record>, id: string): Option<int> {
    if |records| == 0 then None
    else if Anchors(records[|records| - 1].event, id) then Some(records[|records| - 1].time)
    else AnchorOf(records[..|records| - 1], id)
  }

  /** Scan back for it. */
  method ParkedAt(records: seq<Record>, id: string) returns (at: Option<int>)
    ensures at == AnchorOf(records, id)
  {
    var i := |records|;
    assert records[..i] == records;
    while i > 0
      invariant 0 <= i <= |records| && AnchorOf(records, id) == AnchorOf(records[..i], id)
    {
      assert records[..i][..i - 1] == records[..i - 1];
      if Anchors(records[i - 1].event, id) {
        return Some(records[i - 1].time);
      }
      i := i - 1;
    }
    at := None;
  }

  /** A poller restarts, and a crash RESUME of a parked run prints its WAIT line again:
      neither moves the deadline, however often. */
  lemma {:induction false} CrashesKeepTheDeadline(records: seq<Record>, more: seq<Record>, id: string)
    requires forall k :: 0 <= k < |more| ==> more[k].event.Resume? && !more[k].event.intervention
    ensures AnchorOf(records + more, id) == AnchorOf(records, id)
  {
    if |more| == 0 {
      assert records + more == records;
    } else {
      var fewer := more[..|more| - 1];
      assert (records + more)[..|records + more| - 1] == records + fewer;
      CrashesKeepTheDeadline(records, fewer, id);
    }
  }

  /** An intervention is a fresh visit and starts the clock anew. */
  lemma InterventionMovesTheDeadline(records: seq<Record>, r: Record)
    requires r.event.Resume? && r.event.intervention
    ensures AnchorOf(records + [r], r.event.step) == Some(r.time)
  {}
}
