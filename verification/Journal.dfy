/**
  The run journal and its replay (internal/journal/replay.go).

  An `Event` is one line of events.jsonl without its sequence number and time
  stamp; a `Record` adds those two. `Replay` is the loop of the source;
  `Fold` is the left fold it refines. The state a replay carries falls into
  three parts that never read one another: what ungrouped events decide
  (`Core`), what a parallel step's branches have reported (`Branches`) and what
  a foreach step's items have reported (`Items`). The source keeps the last two
  in maps of maps; here they are maps keyed by the pair.
 */
module Journal {
  import opened Wrappers
  import opened JsonValues

  /** The journal format this build writes and the newest it reads. */
  const FORMAT := 2

  const BLOCKED := "blocked"

  datatype Event =
    | RunStart(format: int, enforcement: string, args: map<string, Json>)
    | Resume(step: string, attempt: int, key: string, hardRetry: int, intervention: bool)
    | StepEnter(step: string, attempt: int, key: string, retry: bool, hardRetry: int,
                group: string, item: Option<int>, items: Option<seq<Json>>)
    | Writes(step: string, attempt: int, writes: map<string, Json>, group: string, item: Option<int>)
    | Postcondition(step: string, attempt: int, key: string, ok: bool, text: string, summary: bool,
                    group: string, item: Option<int>)
    | Transition(step: string, attempt: int, target: string, outcome: string, viaCatch: bool,
                 group: string, item: Option<int>)
    | HumanAsked(step: string, attempt: int)
    | RunEnd(step: string, status: string, reason: string, note: string)
    | UnknownKind(kind: string)

  datatype Record = Record(seqNo: int, time: int, event: Event)

  datatype AttemptRef = AttemptRef(step: string, key: string)

  datatype BranchRef = BranchRef(group: string, step: string)

  datatype ItemRef = ItemRef(group: string, index: int)

  datatype Cursor = Cursor(step: string, attempt: int, key: string, hardRetry: int)

  /** What steps have written and reported. */
  datatype Data = Data(
    args: map<string, Json>,
    state: map<string, Json>,
    lastError: string,
    attemptLastError: string,
    foreachItems: map<string, seq<Json>>,
    enforcement: string)

  /** The counters, and the key and verdict each step was last entered under. */
  datatype Ledger = Ledger(
    attempts: map<AttemptRef, int>,
    visits: map<string, int>,
    lastKey: map<string, string>,
    lastOk: map<string, bool>)

  /** Where the run is: the loop variables of the replay and the two marks a
      RESUME leaves behind. */
  datatype Place = Place(
    lastEnter: Cursor,
    haveEnter: bool,
    transitioned: bool,
    inFlight: bool,
    lastTarget: string,
    resumedInFlight: string,
    pendingIntervention: bool)

  datatype Ending = Ending(
    ended: bool,
    status: string,
    reason: string,
    note: string,
    blockedReason: string,
    blockedStep: string)

  /** Everything ungrouped events decide. */
  datatype Core = Core(data: Data, ledger: Ledger, place: Place, ending: Ending)

  datatype Branches = Branches(pending: set<BranchRef>, outcome: map<string, string>)

  datatype Items = Items(
    pending: set<ItemRef>,
    outcome: map<ItemRef, string>,
    writes: map<ItemRef, map<string, Json>>,
    attempt: map<ItemRef, int>,
    attemptKey: map<ItemRef, string>,
    keyAttempts: map<ItemRef, map<string, int>>)

  datatype Acc = Acc(core: Core, branches: Branches, items: Items)

  datatype RunState = RunState(core: Core, branches: Branches, items: Items, cursor: Cursor)

  const NO_CURSOR := Cursor("", 0, "", 0)

  const INIT := Acc(
    Core(Data(map[], map[], "", "", map[], ""),
         Ledger(map[], map[], map[], map[]),
         Place(NO_CURSOR, false, false, false, "", "", false),
         Ending(false, "", "", "", "", "")),
    Branches({}, map[]),
    Items({}, map[], map[], map[], map[], map[]))

  // ---- event scopes ---------------------------------------------------------

  function GroupOf(e: Event): string {
    match e
    case StepEnter(_, _, _, _, _, g, _, _) => g
    case Writes(_, _, _, g, _) => g
    case Postcondition(_, _, _, _, _, _, g, _) => g
    case Transition(_, _, _, _, _, g, _) => g
    case _ => ""
  }

  function ItemOf(e: Event): Option<int> {
    match e
    case StepEnter(_, _, _, _, _, _, i, _) => i
    case Writes(_, _, _, _, i) => i
    case Postcondition(_, _, _, _, _, _, _, i) => i
    case Transition(_, _, _, _, _, _, i) => i
    case _ => None
  }

  /** The event belongs to one foreach item. */
  predicate IsItemEvent(e: Event) {
    GroupOf(e) != "" && ItemOf(e).Some?
  }

  /** The event belongs to one branch of a parallel step. */
  predicate IsBranchEvent(e: Event) {
    GroupOf(e) != "" && ItemOf(e).None?
  }

  function RefOf(e: Event): ItemRef
    requires IsItemEvent(e)
  {
    ItemRef(GroupOf(e), ItemOf(e).value)
  }

  /** A try of an item that starts it over, rather than continuing it. */
  predicate IsFreshEntry(e: Event) {
    e.StepEnter? && e.hardRetry == 0 && !e.retry
  }

  /** The ungrouped entry of a foreach step that carries its list. */
  predicate IsSnapshot(e: Event) {
    e.StepEnter? && e.group == "" && e.items.Some?
  }

  /** An ungrouped entry of a step. */
  predicate IsEntry(e: Event) {
    e.StepEnter? && e.group == ""
  }

  /** The ungrouped transition by which a step is left. */
  predicate IsExit(e: Event) {
    e.Transition? && e.group == ""
  }

  // ---- the fold -------------------------------------------------------------

  function EnteredAs(e: Event): Cursor
    requires e.StepEnter? || e.Resume?
  {
    Cursor(e.step, e.attempt, e.key, e.hardRetry)
  }

  function StepData(d: Data, e: Event): Data {
    if e.RunStart? then d.(enforcement := e.enforcement, args := d.args + e.args)
    else if IsEntry(e) || e.Resume? then
      d.(attemptLastError := if e.hardRetry == 0 then d.lastError else d.attemptLastError,
         foreachItems := if e.StepEnter? && e.items.Some? then d.foreachItems[e.step := e.items.value]
                         else d.foreachItems)
    else if e.Writes? && !IsItemEvent(e) then d.(state := d.state + e.writes)
    else if e.Postcondition? && e.group == "" then d.(lastError := if e.ok then "" else e.text)
    else d
  }

  /** An entry counts as a visit unless it continues one: a retry, a hard retry,
      or the re-entry a crash RESUME of an in-flight step asked for. */
  predicate CountsAsVisit(p: Place, e: Event) {
    IsEntry(e) && p.resumedInFlight != e.step && !e.retry && e.hardRetry == 0
  }

  function StepLedger(l: Ledger, p: Place, e: Event): Ledger {
    if IsEntry(e) || e.Resume? then
      Ledger(l.attempts[AttemptRef(e.step, e.key) := e.attempt],
             if CountsAsVisit(p, e) then l.visits[e.step := Lookup(l.visits, e.step, 0) + 1] else l.visits,
             l.lastKey[e.step := e.key],
             l.lastOk[e.step := true])
    else if e.Postcondition? && e.group == "" && !e.summary then l.(lastOk := l.lastOk[e.step := e.ok])
    else if IsExit(e) && !e.viaCatch && Lookup(l.lastOk, e.step, false) then
      l.(attempts := l.attempts - {AttemptRef(e.step, Lookup(l.lastKey, e.step, ""))})
    else l
  }

  function StepPlace(p: Place, e: Event): Place {
    if IsEntry(e) then
      Place(EnteredAs(e), true, false, true, p.lastTarget,
            if p.resumedInFlight == e.step then "" else p.resumedInFlight, false)
    else if e.Resume? then
      Place(EnteredAs(e), true, false, p.inFlight && !e.intervention, p.lastTarget,
            if !e.intervention && p.inFlight && p.lastEnter.step == e.step then e.step else "",
            p.pendingIntervention || e.intervention)
    else if IsExit(e) then
      Place(p.lastEnter, p.haveEnter, true, false, e.target, "", false)
    else p
  }

  function StepEnding(n: Ending, p: Place, e: Event): Ending {
    if e.RunEnd? then
      Ending(true, e.status, e.reason, e.note,
             if e.status == BLOCKED then e.reason else n.blockedReason,
             if e.status != BLOCKED then n.blockedStep
             else if e.step == "" then p.lastEnter.step else e.step)
    else if e.Resume? && n.ended && n.status == BLOCKED then n.(ended := false, status := "")
    else n
  }

  function StepCore(c: Core, e: Event): Core {
    Core(StepData(c.data, e), StepLedger(c.ledger, c.place, e), StepPlace(c.place, e),
         StepEnding(c.ending, c.place, e))
  }

  function StepBranches(b: Branches, e: Event): Branches {
    if !IsBranchEvent(e) then b
    else if e.StepEnter? then b.(pending := b.pending + {BranchRef(e.group, e.step)})
    else if e.Transition? then
      b.(pending := b.pending - {BranchRef(e.group, e.step)}, outcome := b.outcome[e.step := e.outcome])
    else b
  }

  /** Drop every item of one foreach step. */
  function ResetGroup(i: Items, group: string): Items {
    Items(
      set r | r in i.pending && r.group != group,
      map r | r in i.outcome && r.group != group :: i.outcome[r],
      map r | r in i.writes && r.group != group :: i.writes[r],
      map r | r in i.attempt && r.group != group :: i.attempt[r],
      map r | r in i.attemptKey && r.group != group :: i.attemptKey[r],
      map r | r in i.keyAttempts && r.group != group :: i.keyAttempts[r])
  }

  function EnterItem(i: Items, e: Event): Items
    requires e.StepEnter? && IsItemEvent(e)
  {
    var r := RefOf(e);
    var known := if IsFreshEntry(e) then map[] else Lookup(i.keyAttempts, r, map[]);
    i.(pending := i.pending + {r},
       outcome := if IsFreshEntry(e) then i.outcome - {r} else i.outcome,
       writes := if IsFreshEntry(e) then i.writes - {r} else i.writes,
       attempt := i.attempt[r := e.attempt],
       attemptKey := i.attemptKey[r := e.key],
       keyAttempts := i.keyAttempts[r := known[e.key := e.attempt]])
  }

  function StepItems(i: Items, e: Event): Items {
    if IsSnapshot(e) then ResetGroup(i, e.step)
    else if !IsItemEvent(e) then i
    else if e.StepEnter? then EnterItem(i, e)
    else if e.Writes? then i.(writes := i.writes[RefOf(e) := Lookup(i.writes, RefOf(e), map[]) + e.writes])
    else if e.Transition? then
      i.(pending := i.pending - {RefOf(e)}, outcome := i.outcome[RefOf(e) := e.outcome])
    else i
  }

  function Step(a: Acc, e: Event): Acc {
    Acc(StepCore(a.core, e), StepBranches(a.branches, e), StepItems(a.items, e))
  }

  function FoldFrom(a: Acc, events: seq<Event>): Acc {
    if |events| == 0 then a
    else Step(FoldFrom(a, events[..|events| - 1]), events[|events| - 1])
  }

  function Fold(events: seq<Event>): Acc {
    FoldFrom(INIT, events)
  }

  /** The final choice of the replay: where a resumed run continues. */
  function CursorOf(c: Core): Cursor {
    if Blocked(c) then
      var step := if c.ending.blockedStep == "" then c.place.lastEnter.step else c.ending.blockedStep;
      var key := Lookup(c.ledger.lastKey, step, "");
      Cursor(step, Lookup(c.ledger.attempts, AttemptRef(step, key), 0), key, 0)
    else if c.place.transitioned then Cursor(c.place.lastTarget, 1, "", 0)
    else if c.place.haveEnter then c.place.lastEnter
    else NO_CURSOR
  }

  function StateOf(events: seq<Event>): RunState {
    var a := Fold(events);
    RunState(a.core, a.branches, a.items, CursorOf(a.core))
  }

  /** The run is over: ended, and not merely blocked. */
  predicate Terminal(c: Core) {
    c.ending.ended && c.ending.status != BLOCKED
  }

  predicate Blocked(c: Core) {
    c.ending.ended && c.ending.status == BLOCKED
  }

  // ---- replay ---------------------------------------------------------------

  datatype ReplayError = NewerFormat | SeqGap(index: nat) | BadKind(index: nat)

  function EventsOf(records: seq<Record>): (events: seq<Event>)
    ensures |events| == |records|
    ensures forall i :: 0 <= i < |events| ==> events[i] == records[i].event
  {
    seq(|records|, i requires 0 <= i < |records| => records[i].event)
  }

  /** A stamp of 0 is an unstamped journal, which is format 1. */
  predicate ReadableFormat(records: seq<Record>) {
    |records| > 0 && records[0].event.RunStart? ==>
      (if records[0].event.format == 0 then 1 else records[0].event.format) <= FORMAT
  }

  predicate GapAt(records: seq<Record>, i: nat)
    requires i < |records|
  {
    0 < i && records[i].seqNo != records[i - 1].seqNo + 1
  }

  /** The first n records follow one another and are of known kinds. */
  ghost predicate WellFormed(records: seq<Record>, n: nat)
    requires n <= |records|
  {
    forall i :: 0 <= i < n ==> !GapAt(records, i) && !records[i].event.UnknownKind?
  }

  lemma FoldSnoc(a: Acc, events: seq<Event>, i: nat)
    requires i < |events|
    ensures FoldFrom(a, events[..i + 1]) == Step(FoldFrom(a, events[..i]), events[i])
  {
    assert events[..i + 1][..i] == events[..i];
  }

  /** One event of a known kind, dispatched as the replay loop dispatches it. */
  method ReplayEvent(a: Acc, e: Event) returns (next: Acc)
    requires !e.UnknownKind?
    ensures next == Step(a, e)
  {
    var branches, items := a.branches, a.items;
    var data, ledger, place, ending := a.core.data, a.core.ledger, a.core.place, a.core.ending;
    match e {
      case RunStart(_, enforcement, args) =>
        data := data.(enforcement := enforcement, args := data.args + args);
      case Resume(step, attempt, key, hardRetry, intervention) =>
        var inFlight := place.inFlight;
        if !intervention && inFlight && place.lastEnter.step == step {
          place := place.(resumedInFlight := step);
        } else {
          place := place.(resumedInFlight := "");
        }
        if intervention {
          place := place.(pendingIntervention := true, inFlight := false);
        }
        place := place.(lastEnter := Cursor(step, attempt, key, hardRetry), haveEnter := true, transitioned := false);
        ledger := ledger.(attempts := ledger.attempts[AttemptRef(step, key) := attempt],
                          lastKey := ledger.lastKey[step := key], lastOk := ledger.lastOk[step := true]);
        if hardRetry == 0 {
          data := data.(attemptLastError := data.lastError);
        }
        if ending.ended && ending.status == BLOCKED {
          ending := ending.(ended := false, status := "");
        }
      case StepEnter(step, attempt, key, retry, hardRetry, group, item, snapshot) =>
        if group != "" && item.Some? {
          items := EnterItem(items, e);
        } else if group != "" {
          branches := branches.(pending := branches.pending + {BranchRef(group, step)});
        } else {
          if snapshot.Some? {
            data := data.(foreachItems := data.foreachItems[step := snapshot.value]);
            items := ResetGroup(items, step);
          }
          ledger := ledger.(attempts := ledger.attempts[AttemptRef(step, key) := attempt],
                            lastKey := ledger.lastKey[step := key], lastOk := ledger.lastOk[step := true]);
          if hardRetry == 0 {
            data := data.(attemptLastError := data.lastError);
          }
          if place.resumedInFlight == step {
            place := place.(resumedInFlight := "");
          } else if !retry && hardRetry == 0 {
            ledger := ledger.(visits := ledger.visits[step := Lookup(ledger.visits, step, 0) + 1]);
          }
          place := place.(lastEnter := Cursor(step, attempt, key, hardRetry), haveEnter := true,
                          transitioned := false, pendingIntervention := false, inFlight := true);
        }
      case Writes(_, _, writes, group, item) =>
        if group != "" && item.Some? {
          var ref := ItemRef(group, item.value);
          items := items.(writes := items.writes[ref := Lookup(items.writes, ref, map[]) + writes]);
        } else {
          data := data.(state := data.state + writes);
        }
      case Postcondition(step, _, _, ok, text, summary, group, _) =>
        if group == "" {
          if !summary {
            ledger := ledger.(lastOk := ledger.lastOk[step := ok]);
          }
          data := data.(lastError := if ok then "" else text);
        }
      case Transition(step, _, target, outcome, viaCatch, group, item) =>
        if group != "" && item.Some? {
          var ref := ItemRef(group, item.value);
          items := items.(pending := items.pending - {ref}, outcome := items.outcome[ref := outcome]);
        } else if group != "" {
          branches := branches.(pending := branches.pending - {BranchRef(group, step)},
                                outcome := branches.outcome[step := outcome]);
        } else {
          place := place.(transitioned := true, inFlight := false, resumedInFlight := "",
                          pendingIntervention := false, lastTarget := target);
          if !viaCatch && Lookup(ledger.lastOk, step, false) {
            ledger := ledger.(attempts := ledger.attempts - {AttemptRef(step, Lookup(ledger.lastKey, step, ""))});
          }
        }
      case HumanAsked(_, _) =>
      case RunEnd(step, status, reason, note) =>
        ending := ending.(ended := true, status := status, reason := reason, note := note);
        if status == BLOCKED {
          ending := ending.(blockedReason := reason, blockedStep := if step == "" then place.lastEnter.step else step);
        }
    }
    next := Acc(Core(data, ledger, place, ending), branches, items);
  }

  /** The replay loop. It succeeds on exactly the readable, gap-free journals of
      known kinds, and otherwise names the first record at fault. */
  method Replay(records: seq<Record>) returns (r: Result<RunState, ReplayError>)
    ensures r.Success? <==> ReadableFormat(records) && WellFormed(records, |records|)
    ensures r.Success? ==> r.value == StateOf(EventsOf(records))
    ensures r.Failure? ==>
      match r.error
      case NewerFormat => !ReadableFormat(records)
      case SeqGap(i) => i < |records| && WellFormed(records, i) && GapAt(records, i)
      case BadKind(i) => i < |records| && WellFormed(records, i) && !GapAt(records, i)
                         && records[i].event.UnknownKind?
  {
    if |records| > 0 && records[0].event.RunStart? {
      var format := records[0].event.format;
      if (if format == 0 then 1 else format) > FORMAT {
        return Failure(NewerFormat);
      }
    }
    var acc := INIT;
    ghost var events := EventsOf(records);
    var i := 0;
    while i < |records|
      invariant 0 <= i <= |records|
      invariant WellFormed(records, i)
      invariant acc == Fold(events[..i])
    {
      if i > 0 && records[i].seqNo != records[i - 1].seqNo + 1 {
        return Failure(SeqGap(i));
      }
      if records[i].event.UnknownKind? {
        return Failure(BadKind(i));
      }
      acc := ReplayEvent(acc, records[i].event);
      FoldSnoc(INIT, events, i);
      i := i + 1;
    }
    assert events[..i] == events;
    r := Success(RunState(acc.core, acc.branches, acc.items, CursorOf(acc.core)));
  }
}
