/**
  The parts of a workflow definition the engine reads (internal/spec/spec.go,
  internal/spec/step.go), the routing table (internal/engine/outcome.go) and
  the visit and attempt arithmetic (internal/engine/engine.go).
 */
module Workflows {
  import opened Wrappers
  import opened JsonValues
  import opened Journal

  datatype Kind =
    | Deterministic
    | Agentic
    | Waiting
    | Human
    | Parallel(branches: seq<string>)
    | Foreach(over: string, body: string, collect: string, maxItems: int)

  datatype Catch = Catch(on: string, next: string)

  /** `keyed`: declares attempt_key. `checked`: declares a postcondition.
      `retryMax`: max_attempts of its retry block. */
  datatype StepDecl = StepDecl(
    id: string,
    kind: Kind,
    next: string,
    outcomes: map<string, string>,
    catches: seq<Catch>,
    attempts: int,
    maxVisits: int,
    keyed: bool,
    checked: bool,
    retryMax: Option<int>)

  datatype Workflow = Workflow(
    start: string,
    steps: seq<StepDecl>,
    terminals: map<string, string>,
    defaults: map<string, Json>,
    maxSteps: int,
    invariants: nat)

  const SUCCESS := "success"
  const FAILURE := "failure"
  const EXHAUSTED := "exhausted"
  const PARTIAL := "partial"
  const TIMEOUT := "timeout"
  const CHOSEN := "chosen"

  const RESERVED: set<string> := {SUCCESS, FAILURE, TIMEOUT, EXHAUSTED, PARTIAL, CHOSEN}

  // ---- lookup -----------------------------------------------------------------

  function FindIn(steps: seq<StepDecl>, id: string): (r: Option<StepDecl>)
    ensures r.Some? ==> r.value in steps && r.value.id == id
    ensures r.None? ==> forall s :: s in steps ==> s.id != id
  {
    if |steps| == 0 then None
    else if steps[0].id == id then Some(steps[0])
    else FindIn(steps[1..], id)
  }

  function StepById(w: Workflow, id: string): (r: Option<StepDecl>)
    ensures r.Some? ==> r.value in w.steps && r.value.id == id
  {
    FindIn(w.steps, id)
  }

  predicate IsStep(w: Workflow, id: string) {
    StepById(w, id).Some?
  }

  predicate Runnable(w: Workflow, id: string) {
    IsStep(w, id) && (StepById(w, id).value.kind.Deterministic? || StepById(w, id).value.kind.Agentic?)
  }

  /** What validation establishes about ids and fan-outs: ids are distinct and not
      empty, a parallel step names at least one branch, each once, and branches and
      bodies are deterministic or agentic steps. */
  predicate Sound(w: Workflow) {
    && !IsStep(w, "")
    && (forall i, j :: 0 <= i < j < |w.steps| ==> w.steps[i].id != w.steps[j].id)
    && forall s :: s in w.steps ==>
         && (s.kind.Parallel? ==>
               && |s.kind.branches| > 0
               && (forall i, j :: 0 <= i < j < |s.kind.branches| ==> s.kind.branches[i] != s.kind.branches[j])
               && (forall b :: b in s.kind.branches ==> Runnable(w, b)))
         && (s.kind.Foreach? ==> Runnable(w, s.kind.body))
  }

  // ---- routing ----------------------------------------------------------------

  predicate ReservedRoutable(outcome: string) {
    outcome == FAILURE || outcome == EXHAUSTED
  }

  function FirstCatch(catches: seq<Catch>, outcome: string): Option<string> {
    if |catches| == 0 then None
    else if catches[0].on == outcome then Some(catches[0].next)
    else FirstCatch(catches[1..], outcome)
  }

  datatype Route = Route(target: string, viaCatch: bool)

  /** The routing table every exit of a step goes through. */
  function ResolveTarget(step: StepDecl, outcome: string): Option<Route> {
    if outcome in step.outcomes then Some(Route(step.outcomes[outcome], ReservedRoutable(outcome)))
    else
      var caught := FirstCatch(step.catches, outcome);
      if caught.Some? then Some(Route(caught.value, true))
      else if ReservedRoutable(outcome) then Some(Route(BLOCKED, true))
      else if step.next != "" then Some(Route(step.next, false))
      else None
  }

  /** The catch an outcome falls to: the first in declared order that names it. */
  predicate CaughtAt(step: StepDecl, outcome: string, k: nat) {
    outcome !in step.outcomes && k < |step.catches| && step.catches[k].on == outcome
    && forall i :: 0 <= i < k ==> step.catches[i].on != outcome
  }

  /** Nothing the step declares names the outcome. */
  predicate Unnamed(step: StepDecl, outcome: string) {
    outcome !in step.outcomes && forall c :: c in step.catches ==> c.on != outcome
  }

  /** Where each outcome goes, and by which kind of edge. A declared outcome goes to its
      declared target, any other to the target of the first catch that names it. One that
      nothing names goes to `blocked` if it is a failure or exhausted and to `next`
      otherwise, and has no route where there is no `next`. */
  lemma RoutingTable(step: StepDecl, outcome: string)
    ensures outcome in step.outcomes ==>
              ResolveTarget(step, outcome)
                == Some(Route(step.outcomes[outcome], outcome == FAILURE || outcome == EXHAUSTED))
    ensures forall k: nat :: CaughtAt(step, outcome, k) ==>
              ResolveTarget(step, outcome) == Some(Route(step.catches[k].next, true))
    ensures Unnamed(step, outcome) && (outcome == FAILURE || outcome == EXHAUSTED) ==>
              ResolveTarget(step, outcome) == Some(Route(BLOCKED, true))
    ensures Unnamed(step, outcome) && outcome != FAILURE && outcome != EXHAUSTED ==>
              ResolveTarget(step, outcome) == if step.next == "" then None else Some(Route(step.next, false))
    ensures outcome in step.outcomes || Unnamed(step, outcome) || exists k: nat :: CaughtAt(step, outcome, k)
  {
    FirstCatchFinds(step.catches, outcome);
    if outcome !in step.outcomes && !Unnamed(step, outcome) {
      var k: nat :| k < |step.catches| && step.catches[k].on == outcome
                    && forall i :: 0 <= i < k ==> step.catches[i].on != outcome;
      assert CaughtAt(step, outcome, k);
    }
  }

  lemma {:induction false} FirstCatchFinds(catches: seq<Catch>, outcome: string)
    ensures FirstCatch(catches, outcome).None? <==> forall c :: c in catches ==> c.on != outcome
    ensures FirstCatch(catches, outcome).Some? ==>
              exists k :: 0 <= k < |catches| && catches[k].on == outcome
                          && (forall i :: 0 <= i < k ==> catches[i].on != outcome)
    ensures forall k :: 0 <= k < |catches| && catches[k].on == outcome
                        && (forall i :: 0 <= i < k ==> catches[i].on != outcome) ==>
              FirstCatch(catches, outcome) == Some(catches[k].next)
  {
    if |catches| > 0 {
      var rest := catches[1..];
      FirstCatchFinds(rest, outcome);
      assert forall c :: c in catches <==> c == catches[0] || c in rest;
      if catches[0].on != outcome {
        forall k | 0 <= k < |catches| && catches[k].on == outcome && forall i :: 0 <= i < k ==> catches[i].on != outcome
          ensures FirstCatch(catches, outcome) == Some(catches[k].next)
        {
          assert rest[k - 1] == catches[k] && forall i :: 0 <= i < k - 1 ==> rest[i] == catches[i + 1];
        }
        if FirstCatch(rest, outcome).Some? {
          var k :| 0 <= k < |rest| && rest[k].on == outcome && forall i :: 0 <= i < k ==> rest[i].on != outcome;
          assert catches[k + 1] == rest[k];
          assert forall i :: 0 < i < k + 1 ==> catches[i] == rest[i - 1];
        }
      }
    }
  }

  /** The status a run ends with on leaving a step for `target`. */
  function EndStatusOf(w: Workflow, target: string): string {
    if target in w.terminals then w.terminals[target]
    else if target == BLOCKED then BLOCKED
    else "ok"
  }

  // ---- stdout tokens ------------------------------------------------------------

  predicate NamesOutcomes(step: StepDecl) {
    exists o :: o in step.outcomes && o !in RESERVED
  }

  /** Outcomes a command may announce on stdout (internal/emit/emit.go). */
  predicate RoutableToken(step: StepDecl, token: string) {
    (token in step.outcomes && token !in RESERVED) || token == FAILURE
    || (token == SUCCESS && SUCCESS in step.outcomes)
  }

  // ---- visits -------------------------------------------------------------------

  /** The sum of all visits. */
  ghost function Total(visits: map<string, int>): int {
    if visits == map[] then 0
    else
      var k :| k in visits;
      visits[k] + Total(visits - {k})
  }

  lemma {:induction false} TotalWithout(visits: map<string, int>, k: string)
    requires k in visits
    ensures Total(visits) == visits[k] + Total(visits - {k})
    decreases |visits|
  {
    var p :| p in visits && Total(visits) == visits[p] + Total(visits - {p});
    if p != k {
      var less := visits - {p};
      assert |less| < |visits| by { assert less.Keys == visits.Keys - {p}; }
      TotalWithout(less, k);
      assert less - {k} == (visits - {k}) - {p};
      assert |visits - {k}| < |visits| by { assert (visits - {k}).Keys == visits.Keys - {k}; }
      TotalWithout(visits - {k}, p);
    }
  }

  lemma TotalOfUpdate(visits: map<string, int>, k: string, n: int)
    ensures Total(visits[k := n]) == Total(visits) - Lookup(visits, k, 0) + n
  {
    var after := visits[k := n];
    TotalWithout(after, k);
    if k in visits {
      TotalWithout(visits, k);
      assert after - {k} == visits - {k};
    } else {
      assert after - {k} == visits;
    }
  }

  /** Entering `step` would exceed its max_visits or the workflow's max_steps.
      Re-entering the step a crash left in flight is never capped. */
  ghost predicate CapsReached(w: Workflow, c: Core, step: StepDecl) {
    c.place.resumedInFlight != step.id
    && (Lookup(c.ledger.visits, step.id, 0) >= step.maxVisits || Total(c.ledger.visits) >= w.maxSteps)
  }

  /** The cap check: the total is summed key by key. */
  method CheckCaps(w: Workflow, c: Core, step: StepDecl) returns (capped: bool)
    ensures capped <==> CapsReached(w, c, step)
  {
    if c.place.resumedInFlight == step.id {
      return false;
    }
    if Lookup(c.ledger.visits, step.id, 0) >= step.maxVisits {
      return true;
    }
    var total := 0;
    var left := c.ledger.visits;
    while left != map[]
      invariant total + Total(left) == Total(c.ledger.visits)
      decreases |left|
    {
      var k :| k in left;
      TotalWithout(left, k);
      total := total + left[k];
      ghost var fewer := left.Keys - {k};
      left := left - {k};
      assert left.Keys == fewer;
    }
    capped := total >= w.maxSteps;
  }

  // ---- attempts -------------------------------------------------------------------

  /** The try number after a failed one: past both the try just used and any
      budget already recorded under the failure's key. */
  function NextTry(justUsed: int, recorded: int): (n: int)
    ensures n > justUsed && n > recorded
    ensures n == justUsed + 1 || n == recorded + 1
  {
    if recorded > justUsed then recorded + 1 else justUsed + 1
  }

  /** How a visit's first try is numbered and keyed. `rendered` is what the
      step's attempt_key template renders to. */
  function BeginAttempt(step: StepDecl, c: Core, cur: Cursor, rendered: string): (int, string) {
    if cur.key == "" && step.keyed then (Lookup(c.ledger.attempts, AttemptRef(step.id, rendered), 0) + 1, rendered)
    else (if cur.attempt == 0 then 1 else cur.attempt, cur.key)
  }

  /** A text for a non-negative index. */
  function Decimal(n: nat): string {
    var digit := ['0' + (n % 10) as char];
    if n < 10 then digit else Decimal(n / 10) + digit
  }

  function NumberOf(text: string): int {
    if |text| == 0 then 0 else 10 * NumberOf(text[..|text| - 1]) + (text[|text| - 1] as int - '0' as int)
  }

  /** It is read back as that index, and has no digit too many. */
  lemma {:induction false} DecimalReadsBack(n: nat)
    ensures NumberOf(Decimal(n)) == n && |Decimal(n)| > 0 && (|Decimal(n)| > 1 ==> Decimal(n)[0] != '0')
  {
    var digit := ['0' + (n % 10) as char];
    if n >= 10 {
      DecimalReadsBack(n / 10);
      assert Decimal(n)[..|Decimal(n)| - 1] == Decimal(n / 10);
    } else {
      assert digit[..0] == "";
    }
  }
}
