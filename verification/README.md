# pawl, modelled and proved in Dafny

pawl drives an agent through a workflow written as a state machine. Every call
replays an append-only journal, decides what the journal is waiting for, and
appends events; a crash may fall between any two appends, and `resume` goes on
from what is left. This project models that engine, the journal file under it and
the self-contained algorithms around it, and proves what each is for.

Verify everything with `dafny verify dfyconfig.toml`.

## How the run machine is modelled

- `Journal.dfy` is the journal: an `Event` per line, the replay loop, and the left
  fold it refines. The replayed state falls into three parts that never read one
  another (run, branches, items); `Interleaving.dfy` draws the consequences.
  `ReplayMeaning.dfy` reads every replayed field off the journal without the fold: it is
  what the latest event of some kind says, or a count of events.
- `Protocol.dfy` says, over the journal alone, which event may follow which
  (`CanAppend`); a journal built by that rule is `Legal`, and so is each of its
  prefixes.
- `Engine.dfy` is the engine as a class whose one mutable field is the journal.
  `Engine.Append` requires `CanAppend`, so a method that verifies writes legal
  journals only, at every point where a crash may fall. The methods follow the
  source function by function; each states what it appended and what it returned,
  and each is proved to terminate. What commands, checks, people and the clock answer
  is the environment's (`EngineRules.Environment`): arbitrary functions of all that has
  been journaled so far, free to change between calls.
- `RunTheorems.dfy` and `GroupTheorems.dfy` prove what holds of every legal journal,
  hence of every sequence of calls, crashes, resumes and interventions. `RunGraph.dfy`
  proves that they walk along the step graph, and so what the checks on that graph mean.
  `JournalFile.TornRunIsLegal` carries this down to the bytes of the file.
- `EngineRules.dfy` and `SubmitRules.dfy` hold the engine's vocabulary, the measures
  and the small lemmas that justify each append; `Effects.dfy` says what the events they
  speak of come to once replayed. `Boundaries.dfy`, `LastVisit.dfy` and
  `UnenteredItems.dfy` show how exact the conditions of the theorems are.

The remaining files stand alone: step graph and strongly connected components,
edit distance, pattern width, shell lexer and hook rules, template rendering, the
journal file, legacy plans, the live-run index, printed blocks, polling, versions.
`Waits.dfy` joins the poll loop to the engine.

## What the proofs assume

- The workflow passed validation: ids are distinct and not empty, a parallel step
  names at least one branch, each once, and branches and bodies are deterministic or
  agentic steps (`Workflows.Sound`).
- No step is named `blocked` (rule 37, internal/spec/validate_names.go:42-58), where a step
  graph is compared with runs.
- Commands terminate, and following `exhausted` routes never comes back to a step. No
  validation rule checks the latter; `Boundaries.RankExistsIffNoLoop` gives the exact
  condition and `Boundaries.ExhaustedRoutesGoOn` the run that never ends without it.
- A rendered `attempt_key`, and the hash that stands in for one, is not empty.
- Runs are serialised: one call at a time.
- A submit or an answer comes to a run that is not blocked; the code does not check.

## Where the code and what is said of it differ

- The cap check repeated before every further attempt is called a no-op
  (internal/engine/deterministic.go:355-361, internal/engine/submit.go:217-221). It is
  not: the counters already include the running visit, so a failed check is tried again
  if and only if one more visit would be permitted too, or a crash RESUME found the step
  in flight and it has not been entered since (`LastVisit.NextAttemptIffUncapped`). On the
  last permitted visit the next attempt is refused, within the step's attempts though it
  is (`LastVisit.LastVisitRefusesNextAttempt`), and a crash at the right moment grants it
  (`LastVisit.ResumedVisitGrantsNextAttempt`).
- A parallel step joins on the outcomes on record, and those of an earlier visit are
  not forgotten on re-entry: it succeeds exactly when every branch's latest report, of
  any visit, is a success (`GroupTheorems.ParallelJoinsByLastReports`). A visit cut short
  by a crash before a branch was entered counts that branch's old outcome
  (`Boundaries.StaleBranchStillCounts`); it is all-or-nothing if and only if every branch
  was entered in this visit, or not every latest report is a success
  (`GroupTheorems.ParallelJoinsAllOrNothing`).
- A run that is not over is said to be resumable at its cursor (DESIGN.md:274-288). Not
  if nothing was entered yet, or it left for a terminal whose RUN_END was not journaled:
  the RESUME is journaled and the call fails, every time (`RunTheorems.OffTheGraphIsStuck`,
  `Boundaries.LostStartAndLostEndAreStuck`). It is so if and only if the run is not blocked
  and the latest entry, exit or intervention did not leave it at a step
  (`RunTheorems.ResumeLeavesGraphIff`).
- A foreach step that is arrived at again and crashes before its own entry is resumed
  under the list of its previous visit, and joins at once with that list again if all of
  its items are resolved (`Boundaries.StaleListIsJoined`). A joined list is this visit's
  if and only if the step is in flight (`GroupTheorems.JoinedListIsThisVisits`).
- A joined list has an element per item, each said to be the item's own outcome, writes
  and error (internal/engine/foreach.go:412-415, 497-503). An item answered after a crash
  in the middle of a dispatch, before any RESUME, may be the only one awaited; then the
  list is joined at once, and an item that was never entered is listed as a failure, with
  the text that failed last at its index under an earlier list if there is one
  (`UnenteredItems.UnenteredItemIsJoined`). All items were entered if and only if all had
  been handed out (`GroupTheorems.JoinCollectsEveryItem`). The same condition decides what
  a crash between the join and the exit does: if it holds the same list is written again,
  and otherwise an item left out is entered before the list is joined again
  (`GroupTheorems.RejoinWritesTheSameList`), and may then be listed with another outcome
  than the one already written (`UnenteredItems.UncoveredJoinIsNotRepeated`).
- An interrupted step re-enters at its attempt and key (DESIGN.md:286-292). Not if it has
  an attempt_key and was in flight under no key: then the key is rendered anew and the
  attempt counts on under it (`RunTheorems.CrashKeepsCounters`). That happens when a step
  is answered after the run arrived at it and before it was entered, and its check fails
  (`Boundaries.AnsweredBeforeEntered`), and only when a further attempt is entered from
  outside a visit (`RunTheorems.KeyedTriesHaveKeys`).
- An answer to a blocked run is taken. What follows from it is journaled, and yet the run
  is found blocked at the same step, and resumed there: replay does not ask, as
  DESIGN.md:293-296 has it, whether the end is the last event
  (`Boundaries.AnswerToBlockedRunIsForgotten`). Short of a RESUME the run stays blocked if
  and only if no other end is journaled or the last one blocks it too, and is over
  otherwise (`Boundaries.BlockedByLastEnd`).
- The deadline of a wait is tied to the visit (DESIGN.md:139-141). A poller keeps the one
  it found when it started: every timeout it may report is in time if and only if the
  clock was not started again since it was read (`Waits.TimeoutFitsTheVisit`). If it was,
  by whatever little, the old poller can time the new visit out early
  (`Waits.OldPollerIsEarly`, and concretely `Waits.OldPollerCutsVisitShort`).
- A value substituted into a command is called one token wherever it stands
  (internal/render/render.go:128-136). It is one if and only if it stands outside quotes
  and not behind a backslash (`Rendering.OneTokenIffOutside`); in each of the other
  places a rendered template lets one out (`Rendering.SingleQuotesLetValueOut`,
  `Rendering.DoubleQuotesLetValueOut`, `Rendering.BackslashLetsValueOut`).
  The documented format asks for it to stand outside any quotes and does not mention the
  backslash; nothing enforces either.
- Slugs are kept apart by a double underscore (internal/journal/enforce.go:294), and yet
  one working copy's sync can remove another's live entry: it does so if and only if the
  run's name starts with the synced prefix (`LiveIndex.KeptIffOutsidePrefix`, and
  `LiveIndex.SyncAll` for any order of syncs), as it does where one slug is the other with
  an underscore after it, or continues the other's prefix
  (`LiveIndex.UnderscoredSlugIsDropped`).
- Reserving a sequence number before the write is to make the next append safe after a
  failed one (internal/journal/log.go:68-72). On the same handle it never is where
  anything came before: if part of the line was written the file is corrupt from there,
  and if none of it was the numbers have a gap, which replay refuses
  (`JournalFile.AppendAfterFailure`). Only a line whose sync alone failed is followed
  safely. Opening the log again recovers (`JournalFile.RecoverAndAppend`).

## Model

| member | source | states |
|---|---|---|
| `Journal.Replay` | internal/journal/replay.go:220-531 | succeeds on exactly the readable, gap-free journals of known kinds, with the state of the left fold and the final cursor choice; otherwise names the first record at fault. What that state is, is said off the journal by the `ReplayMeaning` rows |
| `Journal.ReplayEvent` | internal/journal/replay.go:267-489 | one event of the loop makes exactly one step of the fold, for every kind and scope |
| `ReplayMeaning.ValuesAreLatest` | internal/journal/replay.go:391-439 | the state holds for a key what the latest write of it to the run says, the arguments what the latest RUN_START says |
| `ReplayMeaning.ReadsLatest` | internal/engine/engine.go:474-494 | so a step reads an argument, else what was written last, else the declared default |
| `ReplayMeaning.ErrorsAreLatest` | internal/journal/replay.go:391-439 | the last error is the text of the run's latest verdict if that failed; an attempt and its hard retries are told what it was when the attempt began |
| `ReplayMeaning.ListsAreLatest` | internal/journal/replay.go:302-353 | the list of a foreach step is the one its latest entry with a list froze |
| `ReplayMeaning.KeysAndVerdicts` | internal/journal/replay.go:473-489 | the last key of a step is that of its latest entry or RESUME, and it has passed unless the latest of these and its verdicts is a failure |
| `ReplayMeaning.BudgetsAreOfTheJournal` | internal/journal/replay.go:473-489 | a budget is the attempt of the step's latest entry or RESUME under that key, unless a passing exit cleared it since, and there is none otherwise |
| `ReplayMeaning.ExitClearsBudget` | internal/journal/replay.go:473-489 | an exit takes away exactly one budget, that under the key of the step's latest entry or RESUME, if it is by no catch edge and the step has passed, and none otherwise; every other budget stays |
| `ReplayMeaning.VisitsAreCounted` | internal/engine/engine.go:406-418 | in every journal the engine can write, the visits of a step are the entries that began one, and their total is what max_steps counts |
| `ReplayMeaning.VisitsAreCapped` | internal/engine/engine.go:406-418 | so no step begins more visits than its max_visits, and all together no more than max_steps |
| `ReplayMeaning.PlaceIsLatest` | internal/journal/replay.go:267-300 | the cursor is that of the latest entry or RESUME, and whether and for where it was left that of the latest exit |
| `ReplayMeaning.FlightIsLatest` | internal/journal/replay.go:267-300 | a step is in flight exactly if the latest entry, exit or intervention is an entry |
| `ReplayMeaning.EndIsLatest` | internal/journal/replay.go:490-531 | a run is over, or blocked, exactly as its latest end or RESUME says, with the status of that end |
| `ReplayMeaning.BlockIsLatest` | internal/journal/replay.go:490-531 | what blocked the run last and where, which is a step |
| `ReplayMeaning.ResumesWhereItWas` | internal/journal/replay.go:490-531 | where a RESUME goes on: a blocked run at the step of its end, under that step's latest key and budget; any other at the target of the latest exit for its first attempt, or at the very try of the latest entry or RESUME, whichever came last |
| `ReplayMeaning.VisitStartsAt` | internal/engine/engine.go:428-467 | the entry after an exit is of its target and no retry: at attempt 1 under no key, or where the step declares one, one above the budget under the key rendered |
| `ReplayMeaning.BranchesAreLatest` | internal/journal/replay.go:302-353 | a branch is awaited exactly from its entry to its transition, and its outcome is that of its latest transition, in any group |
| `ReplayMeaning.ItemTriesAreLatest` | internal/journal/replay.go:302-353 | an item is at the attempt and key of its latest entry under the current list, and at none if it has none |
| `ReplayMeaning.ItemBudgetsAreLatest` | internal/journal/replay.go:302-353 | and its budget under a key is the attempt of its latest entry under that key and list, unless it was begun afresh under another since |
| `Interleaving.InterleavingIndependence` | internal/journal/replay.go:302-467 | two journals in which the run, every branch and every item see the same events in the same order replay to the same state, however they are interleaved |
| `Interleaving.GroupedEventsAreConfined` | internal/journal/replay.go:302-353 | deleting every event of a branch or an item changes neither cursor, visits, attempts, state, errors, foreach lists nor end status |
| `GroupTheorems.GroupedEventsDoNotMoveTheRun` | internal/journal/replay.go:302-353 | and in every journal the engine can write these are all the grouped events |
| `Interleaving.IndependentEventsCommute` | internal/journal/replay.go:391-467 | neighbouring events with no owner in common may trade places anywhere in a journal |
| `Interleaving.ProjectionSuffices` | internal/journal/replay.go:267-489 | what the run, a branch or an item looks like after a journal depends only on its own part of the journal |
| `Interleaving.ViewsDetermineState` | internal/journal/replay.go:36-168 | nothing in a replayed state escapes those views |
| `Interleaving.ItemStepView` | internal/journal/replay.go:302-353 | how one event changes what is known of the item it concerns: a fresh entry forgets, a retry keeps, a snapshot of the list clears |
| `Interleaving.OtherItemUntouched` | internal/journal/replay.go:302-353 | an event of one item leaves every other item as it was |
| `Workflows.RoutingTable` | internal/engine/outcome.go:37-53 | a declared outcome goes to its declared target; an undeclared one that a catch names goes to the target of the first catch that does; a failure or exhausted that is neither goes to blocked; anything else goes to `next`, and has no route where there is none. Only the second is by a catch edge |
| `Workflows.CheckCaps` | internal/engine/engine.go:406-418 | true exactly when the step has used its max_visits or the run its max_steps, except for the step a crash left in flight |
| `Workflows.NextTry` | internal/engine/engine.go:462-467 | the next try number is above both the try just used and the budget recorded under the failure's key, and no higher |
| `Protocol.PrefixIsLegal` | internal/engine/engine.go:178-320 | every prefix of a journal the engine can write is one: a crash may fall between any two appends |
| `RunTheorems.CapsHold` | internal/engine/engine.go:406-418 | in every journal the engine can write, crashes and interventions included, no step is visited more often than its max_visits and all together no more often than max_steps |
| `RunTheorems.NextEntryIsLater` | internal/engine/deterministic.go:213-376 | within one uninterrupted visit every next entry is of the same step and a strictly later try, within retry max_attempts and attempts |
| `RunTheorems.VisitIsBounded` | internal/engine/deterministic.go:213-376 | in every journal the engine can write, a step is entered at most attempts times max_attempts times within one uninterrupted visit |
| `RunTheorems.TriesAreSane` | internal/engine/deterministic.go:213-376 | in every journal the engine can write, a step in flight has an attempt of at least 1 and hard retries within max_attempts, none unless it is deterministic |
| `RunTheorems.EntriesAreSane` | internal/engine/deterministic.go:213-376 | and so has every entry in it |
| `RunTheorems.BudgetNeverDecreases` | internal/journal/replay.go:473-489 | a budget under a real key is lowered only by an intervention, which restarts it at 1, or by a passing exit by a non-catch edge under that key |
| `RunTheorems.BudgetMatches` | internal/journal/replay.go:267-300 | the cursor a replay remembers is the one recorded in its budgets |
| `RunTheorems.ResumesKeepCounters` | internal/journal/replay.go:368-389 | any number of crash RESUMEs leave visits, budgets, state and cursor alone, and the frozen last error of a hard retry too |
| `RunTheorems.CrashKeepsCounters` | internal/journal/replay.go:267-300 | the entry after any number of crash RESUMEs counts no visit and moves no state; it is the interrupted try, under the same attempt and key, if and only if that try had a key or the step declares none |
| `RunTheorems.KeyedTriesHaveKeys` | internal/engine/engine.go:424-467 | if every further attempt was entered from within its visit, a step with an attempt_key is only in flight under a key |
| `RunTheorems.ResumesKeepIntervention` | internal/journal/replay.go:368-389 | after an intervention, any number of crash RESUMEs leave the step not in flight, at the try the intervention set, and count no visit |
| `RunTheorems.InterventionRestarts` | internal/engine/engine.go:221-236 | the RESUME of a blocked run is an intervention; whatever number of crash RESUMEs follows, the next entry is a counted visit with no hard retry spent, at attempt 1 under the same key (or under a key rendered anew where the step declares one and was blocked under none) |
| `RunTheorems.OffTheGraphIsStuck` | internal/engine/engine.go:242-245 | a run resumed before its first entry, or at a terminal whose RUN_END was lost, can append nothing but further RESUMEs |
| `RunTheorems.ResumeLeavesGraphIff` | internal/engine/engine.go:221-245 | a RESUME takes a run off the graph if and only if it is not blocked and the latest entry, exit or intervention, if any, did not leave it at a step |
| `Boundaries.LostStartAndLostEndAreStuck` | internal/engine/engine.go:242-245 | two concrete runs, one crashed after RUN_START and one before RUN_END: after the RESUME nothing but RESUMEs can follow |
| `RunTheorems.TerminalIsFinal` | internal/engine/engine.go:213-219 | nothing is ever appended after a RUN_END that did not block the run |
| `GroupTheorems.ReplayKeepsHistory` | internal/journal/replay.go:302-353 | what replay keeps of an item is exactly what the item's own events since its latest fresh try say |
| `GroupTheorems.ErrorIsOwn` | internal/engine/foreach.go:497-508 | the failure text a join reports for an item is that of its own latest try |
| `GroupTheorems.PendingAndResolvedAreDisjoint` | internal/journal/replay.go:302-353 | no item is both awaited and resolved |
| `GroupTheorems.PendingItemsAreHere` | internal/engine/foreach.go:192-244 | an item is awaited only while the run is at its foreach step, under a list that has the item |
| `GroupTheorems.ResolvedItemNeverRuns` | internal/engine/foreach.go:303-317 | between an item's transition and any later event of it lies a fresh entry of its foreach step |
| `GroupTheorems.ItemsAreIsolated` | internal/engine/foreach.go:326-411 | what is journaled for one item touches neither the run, nor a branch, nor any other item |
| `GroupTheorems.HistoriesStartFresh` | internal/engine/foreach.go:192-244 | every item's history under the current list begins with a fresh entry |
| `GroupTheorems.JoinCollectsEveryItem` | internal/engine/foreach.go:423-490 | a journaled join lists every item of the frozen list once, in list order: one entered under this list has reported, and is listed with its own outcome, writes and error; one not entered as a failure without writes, with the latest error at its index under an earlier list, if any; all were entered if and only if all were handed out |
| `GroupTheorems.UnenteredError` | internal/engine/foreach.go:497-508 | the error found for an item that was not entered is exactly that of the latest failure at its index since its latest fresh entry, which was under an earlier list, and none if there is none |
| `UnenteredItems.UnenteredItemIsJoined` | internal/engine/submit.go:430-444 | a concrete run: a crash in the middle of a dispatch, the answer to the one item entered is taken, and the list is joined with the item never entered as failed, under the text of the visit before |
| `GroupTheorems.JoinIsOrderIndependent` | internal/engine/foreach.go:423-490 | two journals that agree on every item's own events collect the same list, whatever the order of submits |
| `GroupTheorems.RejoinWritesTheSameList` | internal/engine/foreach.go:520-540 | two joins of a foreach step without an entry of it in between: the list is the same, and so is the element of every item that was entered before the first or has no event in between; no item has one, and the same list is written again, if and only if all items had been handed out at the first join |
| `UnenteredItems.UncoveredJoinIsNotRepeated` | internal/engine/foreach.go:520-540 | a concrete run: a list joined with an item never entered, a crash, a RESUME that enters it, and a join of another list |
| `GroupTheorems.JoinedListIsThisVisits` | internal/engine/foreach.go:520-540 | the list a foreach step joins was frozen since the run last arrived at it if and only if the step is in flight; otherwise it is that of an earlier visit |
| `GroupTheorems.SuccessesCount` | internal/engine/foreach.go:433-459 | the count behind the three-way outcome is full exactly when every item succeeded and zero exactly when none did |
| `GroupTheorems.ForeachLeavesSettled` | internal/engine/foreach.go:423-490 | a foreach step leaves with no item awaited, as success, failure or partial exactly by what its items' own latest tries reported |
| `GroupTheorems.PendingBranchesAreHere` | internal/engine/parallel.go:78-100 | a branch is awaited only while its parallel step is in flight |
| `GroupTheorems.BranchesAccounted` | internal/engine/parallel.go:213-262 | a branch entered in this visit is awaited, or its recorded outcome is what it reported in this visit |
| `GroupTheorems.ParallelJoinsByLastReports` | internal/engine/parallel.go:213-262 | a parallel step leaves with no branch awaited, as a success exactly when every branch's latest report, of any visit, is one |
| `GroupTheorems.ParallelJoinsAllOrNothing` | internal/engine/parallel.go:213-262 | a parallel step succeeds exactly when every branch reported success in this visit, if and only if every branch was entered in this visit or some branch's latest report of any visit is no success |
| `GroupTheorems.OneSummaryPerEntry` | internal/engine/parallel.go:281-323 | between two failure summaries of a group lies a new entry of it, however often the join is re-entered |
| `Boundaries.StaleBranchStillCounts` | internal/engine/parallel.go:342-345 | a concrete run of a sound workflow whose group joins as a success though its branch was never entered in that visit |
| `Boundaries.StaleListIsJoined` | internal/engine/engine.go:297-305 | a concrete run of a sound workflow whose foreach step joins the list of its earlier visit, without an entry in this one |
| `Boundaries.AnsweredBeforeEntered` | internal/engine/submit.go:129-132 | a concrete run in which a step is answered before it was entered, and so is in flight at its next attempt under no key although it declares one |
| `Boundaries.BlockedByLastEnd` | internal/journal/replay.go:490-515 | whatever is journaled after a blocked end, short of a RESUME, the run is found blocked if and only if no other end follows or the last one blocks it too, at that end's step and for its reason, and over otherwise |
| `Boundaries.AnswerToBlockedRunIsForgotten` | internal/engine/submit.go:58-132 | a concrete blocked run waits for the answer to its dispatch, and whatever the answer leads to is found blocked at that step, unless another end that does not block it there is journaled |
| `LastVisit.NextAttemptIffUncapped` | internal/engine/deterministic.go:355-372 | after a failed check the next attempt, within the step's attempts, may be entered if and only if both caps would permit one more visit, or a crash RESUME found the step in flight and it was not entered since; exactly otherwise the step leaves as exhausted |
| `LastVisit.MarksOfFlight` | internal/journal/replay.go:267-300 | what replay marks as in flight and as resumed in flight is what the journal's entries, exits and RESUMEs say |
| `LastVisit.LastVisitRefusesNextAttempt` | internal/engine/submit.go:215-228 | a concrete run whose check fails on the last permitted visit: the second of two attempts is refused |
| `LastVisit.ResumedVisitGrantsNextAttempt` | internal/engine/engine.go:406-409 | a concrete run with both caps spent, resumed and cut short again before its step was re-entered: the answer is taken, fails, and the second attempt is entered |
| `Boundaries.CapAboveTheRunNeverBinds` | internal/spec/validate.go:1190-1216 | a max_visits above max_steps never binds: such a step is capped exactly when the run is |
| `Boundaries.ExhaustedRoutesGoOn` | internal/engine/deterministic.go:386-405 | once max_steps is spent, a closed set of exhausted routes is followed for any number of exits, entering no step |
| `Boundaries.RankExistsIffNoLoop` | internal/engine/deterministic.go:386-405 | the rank that makes the run loop terminate exists if and only if no non-empty set of steps is closed under exhausted routes |
| `EngineRules.EntryUsesFuel` | internal/engine/engine.go:370-399 | an entry the cap check let through uses up fuel: what max_steps leaves and the one uncounted re-entry after a crash |
| `EngineRules.ReportsKeep` | internal/journal/replay.go:391-439 | writes and verdicts move neither place, visits, budgets, branches nor awaited items |
| `EngineRules.AllResolvedNoneAwaited` | internal/engine/foreach.go:423-490 | once every item of the frozen list is resolved, none is awaited |
| `EngineRules.RetryIsToldItsFailure` | internal/engine/engine.go:656-686 | the dispatch of the next attempt carries the text of the check that failed |
| `EngineRules.ItemRetryIsToldItsFailure` | internal/engine/foreach.go:497-508 | and so does that of an item's next attempt |
| `SubmitRules.HardRetriesAreInFlight` | internal/journal/replay.go:490-531 | a cursor with hard retries spent is that of a step in flight |
| `SubmitRules.ListIsKept` | internal/journal/replay.go:302-353 | the list replay keeps for a foreach step is the one its latest entry froze |
| `SubmitRules.DispatchIsExpected` | internal/engine/submit.go:41-253 | a dispatch handed out is the one submit its journal accepts: no other step, attempt or item |
| `SubmitRules.BranchIsExpected` | internal/engine/submit.go:269-308 | every branch of a group handed out together may be answered |
| `SubmitRules.ItemIsExpected` | internal/engine/submit.go:337-393 | every item handed out together may be answered, at its own attempt |
| `SubmitRules.StandingIsHandedOut` | internal/engine/foreach.go:192-244 | whatever instruction stands, every item of the group it is in was handed out |
| `SubmitRules.AllAgainIsHanded` | internal/engine/parallel.go:339-362 | re-running the awaited branches hands out exactly the awaited ones |
| `SubmitRules.ResumedPlace` | internal/engine/engine.go:221-245 | a RESUME leaves the run at the step in flight, or at a step that was arrived at and never entered |
| `EngineModel.Engine.constructor` | internal/engine/engine.go:117-122 | an engine over a workflow that validation accepted, with an empty journal |
| `EngineModel.Engine.Append` | internal/journal/log.go:73-91 | journals one event the protocol allows, and nothing else |
| `EngineModel.Engine.Crash` | internal/engine/engine.go:178-320 | keeps any prefix of the journal; what remains is legal |
| `EngineModel.Engine.InvariantBlock` | internal/engine/invariants.go:84-127 | journals a blocked RUN_END for the first violated invariant, before any transition, and nothing exactly when all hold |
| `EngineRules.ViolationIsFirst` | internal/engine/invariants.go:84-127 | the invariant named is violated and every one declared before it holds |
| `EngineModel.Engine.LeaveBy` | internal/engine/engine.go:496-529 | journals the step's exit by the routing table, and the run's end with its status exactly when the target is no step; a failure or exhausted that no outcome or catch names ends the run blocked at this step, any other outcome that none names goes to `next` |
| `EngineModel.Engine.RouteReserved` | internal/engine/deterministic.go:386-405 | the violated invariant comes before the outcome's exit; a missing route is reported and journals nothing; a failure or exhausted that no outcome or catch names ends the run blocked at this step |
| `EngineModel.Engine.RunAttempt` | internal/engine/deterministic.go:93-173 | one run of a body journals its writes before the diagnostic of its failure; only a failure it did not announce may be run again |
| `EngineRules.ExitCodes` | internal/engine/deterministic.go:93-173 | what a run comes to: an exit with code 0 is the outcome its output names, or success where the step has none of its own; any other code, an overrun and output that names none of them is a failure that may be run again; a failure the output names itself is one that may not |
| `EngineModel.Engine.Diagnose` | internal/engine/engine.go:698-704 | journals the text of a failure no check judged, within the scope it belongs to |
| `EngineModel.Engine.JournalWrites` | internal/engine/deterministic.go:132-147 | an item's writes stay with the item, any other body's become state of the run |
| `EngineModel.Engine.RunTry` | internal/engine/deterministic.go:213-290 | the entry is journaled before the body runs, and exactly what the run came to after it |
| `EngineModel.Engine.RunTries` | internal/engine/deterministic.go:213-290 | a body is run again exactly after a retryable hard failure within max_attempts, each run at its own entry, and the runs stop at the first other result; the journal grows by exactly those entries and runs |
| `EngineModel.Engine.ResolveAttempt` | internal/engine/deterministic.go:290-376 | what an attempt comes to. Its outcome is left by if no check fails; after a failed check the next event is the entry at the number above the attempt used and the budget under the failure's key, if that is within the step's attempts and may be appended; the step leaves as failure only if it is above them, as exhausted only if a cap is spent |
| `EngineModel.Engine.RunOneAttempt` | internal/engine/deterministic.go:213-376 | one attempt with its hard retries and its check: exactly the events of it, and whether another was entered or by what the step leaves |
| `EngineRules.CappedIsNotEntered` | internal/engine/deterministic.go:355-372 | while a cap is spent, no next attempt may be entered |
| `EngineModel.Engine.AdvanceDeterministic` | internal/engine/deterministic.go:181-377 | a whole visit: the entry, then attempt after attempt, each after the first for a failed check within the attempts and the caps, each with the entries, runs and verdict the body and the check answered, then one exit; or one exhausted exit when capped. Terminates; going on uses fuel or follows an exhausted route down its rank |
| `EngineModel.Engine.RunFrom` | internal/engine/engine.go:370-399 | the run loop terminates by fuel and rank, begins the named step, and ends at an instruction the journal stands for; it fails only where an outcome has no route or a body or check could not be run |
| `EngineModel.Engine.HandOver` | internal/engine/engine.go:387-396 | dispatches, parks or asks at a step of any other kind |
| `EngineModel.Engine.LeaveExhausted` | internal/engine/agentic.go:19-31 | a capped step is left by its exhausted route without being entered |
| `EngineModel.Engine.RouteOn` | internal/engine/agentic.go:66-90 | a step that is done leaves by its outcome, or the run ends for a violated invariant, and the run goes on at the target if that is a step |
| `EngineModel.Engine.EnterStep` | internal/engine/engine.go:428-443 | one entry, at the attempt and key its cursor and attempt_key give, freezing a foreach list where there is one |
| `EngineModel.Engine.DispatchAgentic` | internal/engine/agentic.go:14-60 | enters and hands out exactly one dispatch, with the previous failure, or fails the step exactly when its context cannot be gathered |
| `EngineModel.Engine.PreviousFailureText` | internal/engine/engine.go:656-686 | the latest failure of the step, told exactly while a budget under a real key is open |
| `EngineModel.Engine.ItemFailureText` | internal/engine/engine.go:571-581 | an item is told of its own latest failure from its second attempt on |
| `EngineModel.Engine.GiveUp` | internal/engine/agentic.go:42-58 | a dispatch or question that cannot be built journals why and fails the step |
| `EngineModel.Engine.ParkWait` | internal/engine/wait.go:38-70 | an arrival is one counted entry; a re-run of a parked run journals nothing and prints the same instruction |
| `EngineModel.Engine.DispatchHuman` | internal/engine/human.go:19-78 | enters, then asks, or fails the step exactly when its options cannot be resolved |
| `EngineModel.Engine.DispatchParallel` | internal/engine/parallel.go:33-72 | every branch is entered; the group hands out exactly the awaited ones, or leaves by its outcome when none is |
| `EngineModel.Engine.EnterAndRunBranches` | internal/engine/parallel.go:78-100 | enters all branches in declared order and returns a dispatch for exactly those still awaited |
| `EngineModel.Engine.RunOneBranch` | internal/engine/parallel.go:109-138 | a deterministic branch is run once and reports its outcome, an agentic one is handed out |
| `EngineModel.Engine.ReportBranch` | internal/engine/parallel.go:181-187 | journals a branch's verdict and its transition, and records that outcome |
| `EngineModel.Engine.RouteParallel` | internal/engine/parallel.go:213-262 | leaves by success exactly when every branch is recorded as one |
| `EngineModel.Engine.JournalGroupFailureSummary` | internal/engine/parallel.go:281-323 | one summary per entry, naming every failed branch with its own latest failure text |
| `EngineModel.Engine.GroupFailures` | internal/engine/parallel.go:286-302 | the scan back to the group's entry finds a summary if there is one, and each branch's latest failure |
| `EngineModel.Engine.DispatchForeach` | internal/engine/foreach.go:117-177 | a value that is no list fails, a list over max_items exhausts, an empty one succeeds at once, each after an empty collect, and any other is frozen as it was read |
| `EngineModel.Engine.RefuseList` | internal/engine/foreach.go:262-282 | leaves by failure or exhausted after an empty collect and the reason |
| `EngineModel.Engine.RunForeachItems` | internal/engine/foreach.go:303-317 | runs exactly the items not yet resolved, then joins |
| `EngineModel.Engine.RunForeachItem` | internal/engine/foreach.go:326-411 | one item: the events are those of run after run, another only after a retryable hard failure up to max_attempts, then its verdict and its transition by what its last run came to; no other item moves |
| `EngineModel.Engine.RunItemTry` | internal/engine/foreach.go:327-355 | an item's entry is journaled before its body runs, and exactly what the run came to after it |
| `EngineModel.Engine.ResolveRun` | internal/engine/foreach.go:378-410 | an item succeeds only by a passing success of its body |
| `EngineModel.Engine.ResolveItem` | internal/engine/foreach.go:248-256 | journals an item's verdict and its transition |
| `EngineModel.Engine.DispatchAgenticItems` | internal/engine/foreach.go:192-244 | enters exactly the items not yet resolved and hands out all of them, or joins when none is awaited |
| `EngineModel.Engine.EnterItemAgain` | internal/engine/foreach.go:203-224 | an item interrupted beyond its first attempt re-enters at that attempt and key, any other afresh |
| `EngineModel.Engine.JoinForeach` | internal/engine/foreach.go:423-490 | a list none of whose items is awaited: journals the collected list first, then leaves by the three-way outcome |
| `EngineModel.Engine.Collect` | internal/engine/foreach.go:432-459 | the collected list and the outcome of the items, in list order |
| `EngineModel.Engine.FindItemError` | internal/engine/foreach.go:497-508 | the backward scan for an item's latest failure since its fresh entry |
| `EngineModel.Engine.Start` | internal/engine/engine.go:129-169 | RUN_START comes first and the start step is begun; fails exactly if there is no such step |
| `EngineModel.Engine.Resume` | internal/engine/engine.go:178-320 | a run that is over is refused without a trace; otherwise one RESUME at the cursor, then the step is entered anew, re-printed or finished; it stops there if and only if the run is off the graph |
| `EngineModel.Engine.ResumeStep` | internal/engine/engine.go:246-318 | which kinds enter anew on a RESUME and which go on where they were |
| `EngineModel.Engine.ResumeHuman` | internal/engine/human.go:139-156 | a question already asked in this entry is printed again, not asked again |
| `EngineModel.Engine.QuestionAsked` | internal/engine/human.go:106-129 | the backward scan for an outstanding question |
| `EngineModel.Engine.ResumeParallel` | internal/engine/parallel.go:339-362 | re-runs or hands out again exactly the awaited branches, and resolves the group when none is left |
| `EngineModel.Engine.ResumeForeach` | internal/engine/foreach.go:520-540 | resolved items are not run again, and with none left the list is joined at once; without a frozen list the step is entered afresh. The list may be an earlier visit's |
| `EngineModel.Engine.Submit` | internal/engine/submit.go:41-253 | a result is taken exactly when the journal waits for that step, attempt and item, refused without a trace otherwise, and applied in that one role, whether or not the item's siblings were handed out; what it returns is awaited, and all of it handed out if that was so before; once taken it fails only where an outcome has no route or a body or check could not be run |
| `EngineModel.Engine.SubmitStep` | internal/engine/submit.go:146-253 | writes first, then the success route if the check passes; after a failed check the entry at the number above the attempt and the budget under the failure's key is the next event after the verdict if it is within the step's attempts and may be appended; it leaves as failure only if that number is above them, as exhausted only if a cap is spent |
| `EngineModel.Engine.RetryStep` | internal/engine/submit.go:201-253 | after the verdict the next attempt is entered and handed out with the failure's text exactly if it is within the step's attempts and may be appended; failed only past the attempts, exhausted only at a cap |
| `EngineModel.Engine.SubmitBranch` | internal/engine/submit.go:269-308 | exactly the branch's own writes, verdict and transition; the group leaves, by its outcome, exactly when no sibling is awaited |
| `EngineModel.Engine.SubmitItem` | internal/engine/submit.go:337-393 | while a sibling is awaited nothing but this item's own events is journaled; the last one runs the join |
| `EngineModel.Engine.FailItem` | internal/engine/submit.go:347-392 | an item's failure is tried again under the failure's key exactly if the number above its attempt and its own budget is within the body's attempts and the foreach step's max_visits, and told what failed; otherwise it is reported failed |
| `EngineModel.Engine.RetryItem` | internal/engine/submit.go:399-426 | that item alone is entered and handed out again |
| `EngineModel.Engine.AfterItemResolved` | internal/engine/submit.go:430-444 | reports which items are awaited, and joins exactly when none is |
| `EngineModel.Engine.SubmitHuman` | internal/engine/human.go:250-350 | an answer is taken exactly when its question is outstanding; past the deadline it times out unless it was accepted before a crash |
| `EngineModel.Engine.TakeAnswer` | internal/engine/human.go:274-350 | a timed-out answer writes nothing, an unusable one fails the step, any other is written first and takes its own route |
| `EngineModel.Engine.AnswerAccepted` | internal/engine/human.go:355-373 | the backward scan for an answer already accepted |
| `EngineModel.Engine.CompleteWait` | internal/engine/poll.go:333-412 | journals a poll's final observation and leaves by it, or by failure when its check fails; refused without a trace when the run has moved on, the step is no wait, or it never parked |
| `EngineModel.Engine.ObserveWait` | internal/engine/poll.go:360-402 | the failure text, the writes and the check are journaled in this order |
| `EngineModel.Engine.FindOwner` | internal/engine/submit.go:82-87 | the first declared foreach step a body belongs to |
| `Effects.OwnerIsFirst` | internal/engine/submit.go:82-87 | the owner of a body is the foreach step declared first that runs it |
| `Effects.ResultIsWritten` | internal/engine/submit.go:146-200 | what a usable result writes is what replay then knows, in the run or in that item alone; any other writes nothing |
| `Effects.RunIsTold` | internal/engine/deterministic.go:93-173 | after a run of a body replay knows the writes of a clean exit and the text of a hard failure, in the scope it ran in, and no more |
| `Effects.VerdictIsTold` | internal/engine/submit.go:146-253 | a check leaves its text as the last error if it failed and none if it passed, and no value moves; no check leaves no event |
| `Effects.PassClearsError` | internal/engine/deterministic.go:290-376 | a passed attempt that was checked or run again leaves no last error |
| `Effects.ObservationIsTold` | internal/engine/poll.go:360-402 | after a poll's observation its text and its writes are what replay knows |
| `Effects.GroupIsTold` | internal/engine/parallel.go:281-323 | a group that failed leaves its summary as the last error, one that succeeded leaves none, and a summary is not written twice |
| `Effects.SummaryNamesEveryFailure` | internal/engine/parallel.go:281-323 | the summary names every branch whose outcome is no success, with its text |
| `Effects.BranchTextIsLatest` | internal/engine/parallel.go:281-323 | and the text is that of the branch's latest failure since the group was entered |
| `Effects.BranchIsTold` | internal/engine/submit.go:269-308 | after its report a branch is no longer awaited, its outcome is what its check said, and a failure's text is its latest |
| `Effects.ItemIsTold` | internal/engine/foreach.go:326-411 | after its report an item is no longer awaited, has that outcome, and its latest failure is that of this check if it failed |
| `Effects.ItemRunIsTold` | internal/engine/foreach.go:326-411 | an item run by a command succeeds exactly by a passing success, and otherwise its failure text says why |
| `Effects.FailureToldIsLatest` | internal/engine/engine.go:656-686 | a step is told the text of its latest failed verdict exactly while a budget of it is open under a real key |
| `Effects.QuestionIsOutstanding` | internal/engine/human.go:106-129 | a question is outstanding exactly if the step asked it at this attempt and nothing took it back since |
| `Effects.AnswerIsAccepted` | internal/engine/human.go:355-373 | an answer was accepted exactly if the step has written at this attempt since it last asked |
| `StepGraph.EdgesOf` | internal/spec/validate.go:707-725 | lists exactly the targets of a step: next, outcomes, catches, branches and body (which are the ways a run can go: `RunGraph.EdgesAreWays`) |
| `StepGraph.Walk` | internal/spec/validate.go:856-882 | the walk from start visits exactly what a path from start reaches |
| `StepGraph.Unreachable` | internal/spec/validate.go:856-882 | rule 2 reports exactly the steps no path from start reaches, in declared order (none of which any run enters: `RunGraph.ReportedNeverRuns`) |
| `RunGraph.EdgesAreWays` | internal/spec/validate.go:707-725 | an edge is exactly a route some outcome takes, a declared catch, or a branch or body the step runs; every route is an edge, except that of an unnamed failure or exhausted to blocked |
| `RunGraph.EnteredIsReachable` | internal/spec/validate.go:856-882 | in every journal the engine can write, each step, branch or body entered is reachable from the start step |
| `RunGraph.RunStaysReachable` | internal/spec/validate.go:856-882 | and so is wherever the run is, crashes and interventions included |
| `RunGraph.ReportedNeverRuns` | internal/spec/validate.go:856-882 | a step rule 2 reports is entered in no run |
| `RunGraph.ReenteredIsOnCycle` | internal/spec/validate.go:1190-1216 | a step that was left and is entered again, with no intervention between, lies on a cycle of the graph |
| `StepGraph.ComponentsAreDisjoint` | internal/spec/validate.go:1221-1286 | two strongly connected components that share a step are equal |
| `StepGraph.CyclicIffOnCycle` | internal/spec/validate.go:1221-1286 | a step lies on a cycle if and only if its component has several steps or a self-loop |
| `StepCycles.FindCycles` | internal/spec/validate.go:1221-1286 | returns exactly the cyclic components, each once, no two sharing a step; a step lies on a cycle exactly when it is in one of them (as every step does that a run comes back to: `RunGraph.ReenteredIsOnCycle`) |
| `StepCycles.CycleFinder.StrongConnect` | internal/spec/validate.go:1230-1278 | one call numbers its node, leaves its lowest link, and keeps on the stack only what leads no lower |
| `StepCycles.CycleFinder.VisitEdge` | internal/spec/validate.go:1238-1252 | one edge lowers the link exactly by a stacked successor or by the call for a new one |
| `StepCycles.CycleFinder.Finish` | internal/spec/validate.go:1255-1277 | a root pops its component, any other node stays on the stack, and the invariants of the search hold again |
| `StepCycles.CycleFinder.PopComponent` | internal/spec/validate.go:1256-1266 | pops down to and including the root, each node once |
| `StepCycles.CycleFinder.Record` | internal/spec/validate.go:1267-1276 | keeps a component exactly if it has several steps or a self-loop |
| `StepCycles.CycleFinder.Search` | internal/spec/validate.go:1280-1285 | every step is closed in the end |
| `StepCycles.PushIsSane` | internal/spec/validate.go:1231-1235 | numbering and pushing a node keeps the invariants of the search |
| `StepCycles.Descended` | internal/spec/validate.go:1242-1246 | the lowest link of a finished call carries over to its caller |
| `StepCycles.AboveIsComponent` | internal/spec/validate.go:1255-1266 | the nodes from a root up are one strongly connected component |
| `StepCycles.PopIsSane` | internal/spec/validate.go:1255-1277 | popping them keeps the invariants of the search |
| `StepCycles.UnboundCycles` | internal/spec/validate.go:1190-1216 | rule 12 reports exactly the cycles whose steps all have a max_visits above max_steps |
| `EditDistance.Levenshtein` | internal/spec/validate.go:548-580 | the two-row table computes the distance recurrence |
| `EditDistance.FillRow` | internal/spec/validate.go:559-577 | one row, from the row before it |
| `EditDistance.NoScriptIsCheaper` | internal/spec/validate.go:548-580 | no script of single-character edits from one text to the other costs less than the distance |
| `EditDistance.SomeScriptCostsIt` | internal/spec/validate.go:548-580 | and some script costs exactly that |
| `EditDistance.ZeroIffEqual` | internal/spec/validate.go:549-551 | the distance is zero exactly for equal texts |
| `EditDistance.ClosestField` | internal/spec/validate.go:536-546 | the first of the closest candidates if it is within two edits, else nothing |
| `PatternWidth.MinMatchWidth` | internal/spec/validate.go:371-422 | the walk over the syntax tree computes the width |
| `PatternWidth.WidthIsLowerBound` | internal/spec/validate.go:340-422 | no match of any pattern, anchors and word boundaries included, anywhere in a text, is shorter than its width |
| `PatternWidth.WidthIsAttained` | internal/spec/validate.go:340-422 | without assertions, a width below the impossible one is the length of a text the pattern matches |
| `PatternWidth.MatchMoves` | internal/spec/validate.go:340-422 | without assertions a match depends on nothing around it |
| `PatternWidth.ZeroWidthIffMatchesEmpty` | internal/spec/validate.go:280-328 | without assertions a guard is refused for width zero exactly when its pattern matches the empty text |
| `PatternWidth.BoundaryNeverMatchesEmpty` | internal/spec/validate.go:280-328 | a word boundary has width zero and never matches the empty text: with assertions zero says less |
| `ShellLexer.Lex` | internal/hook/classify.go:47-148 | the lexer loop computes the lexer's state machine |
| `ShellLexer.QuoteRoundTrip` | internal/render/render.go:64-66 | for every byte string, lexing its quotation gives one segment of that single word, nothing run and nothing in doubt (section 2.2.2 of POSIX XCU Shell Command Language) |
| `ShellLexer.QuoteIsSpliced` | internal/render/render.go:64-66 | outside quotes a quotation is added to the current word byte for byte, whatever follows |
| `ShellLexer.LineRoundTrip` | internal/hook/classify.go:47-148 | a line of bare and quoted words is lexed into exactly those words |
| `ShellLexer.ScriptRoundTrip` | internal/hook/classify.go:47-148 | a script of such lines, joined by any separators, is lexed into a segment per line, in order |
| `ShellLexer.SubstitutionIsSeen` | internal/hook/classify.go:47-148 | a command substitution anywhere outside single quotes is noticed, whatever follows |
| `ShellLexer.ProcessSubstitutionIsSeen` | internal/hook/classify.go:47-148 | and so is a process substitution outside quotes |
| `HookRules.Analyze` | internal/hook/classify.go:179-203 | every segment is stripped to its command word, and doubt is reported for wrappers and expansions |
| `HookRules.StripSegment` | internal/hook/classify.go:179-203 | leading assignments and reserved words are dropped, `time -p` whole |
| `HookRules.IsPawlOnlyCommand` | internal/hook/classify.go:237-249 | the loop decides that every segment is pawl or cd, nothing is substituted and nothing is in doubt |
| `HookRules.BranchOrTagMutates` | internal/hook/classify.go:394-422 | the option scan of git branch and git tag: exactly the invocations with an option that is no listing's, or a name with no -l or --list before it, mutate; values of options count as neither |
| `HookRules.MutatesIffSomethingChanges` | internal/hook/classify.go:394-422 | and so it is from any argument on that stands for itself |
| `HookRules.IsVCSMutation` | internal/hook/classify.go:256-274 | by segments when the lexer vouches for the command, by raw tokens when it does not |
| `HookRules.DecideGuards` | internal/hook/decide.go:130-169 | allows exactly when every denying guard's pattern is permitted by some live run's active step, else names one that is not |
| `HookRules.DecidePre` | internal/hook/decide.go:85-121 | allows exactly by the union rule, the pawl-only exemption and the subagent rule |
| `HookRules.PawlLine` | internal/hook/classify.go:237-249 | a line that starts with pawl is pawl-only and no mutation, whatever its other words hold |
| `HookRules.QuotedGitIsJudged` | internal/hook/classify.go:426-473 | a git command with quoted arguments is judged by exactly those arguments |
| `HookRules.SubmitIsAlwaysAllowed` | internal/hook/decide.go:85-121 | a submit with any text for its result is pawl-only, no mutation, and allowed under any live runs and guards |
| `HookRules.WhatIsDenied` | internal/hook/decide.go:85-121 | a subagent's mutation is denied, and so is a command that is not pawl's when a guard or a broken guard forbids it; a pawl-only command and what no guard forbids is allowed, and everything where no run is live |
| `HookRules.ScriptIsJudged` | internal/hook/classify.go:256-274 | a script of lines that start with a plain word mutates exactly when one of them is a git or jj command that does, and is pawl-only exactly when each is pawl or cd |
| `HookRules.GitMutatesUnlessItReads` | internal/hook/classify.go:426-473 | a git command mutates exactly when it has a subcommand that is neither asked for help nor one that only reads with its arguments |
| `HookRules.JjMutatesUnlessItReads` | internal/hook/classify.go:498-518 | and the same for jj |
| `HookRules.RawTokensSplit` | internal/hook/classify.go:284-305 | the raw tokens are the stretches between separators without their quotes, none empty, in order |
| `HookRules.StripsToCommandWord` | internal/hook/classify.go:179-203 | what is left of a segment is its end, from the first word on that is neither assignment nor reserved |
| `HookRules.ContinuationsAreJoined` | internal/guard/guard.go:71-76 | a text without backslashes stays, and the first backslash at a line's end joins the lines, carriage return or not |
| `HookRules.NameInDirectory` | internal/hook/classify.go:256-274 | a command named by a path is judged as the command named last in it |
| `Rendering.Render` | internal/render/render.go:91-123 | the substitution loop renders element by element and stops at the first error |
| `Rendering.Keys` | internal/render/render.go:163-189 | the scan for keys, in order of first appearance |
| `Rendering.KeysAreThoseRead` | internal/render/render.go:163-189 | it finds exactly the keys a template reads, each once |
| `Rendering.RendersIffKeysKnown` | internal/render/render.go:91-123 | a template renders exactly when no key is left open and every key it reads has a value |
| `Rendering.PartsRender` | internal/render/render.go:91-123 | a template of texts and keys renders to the texts with the quoted values between them, in order |
| `Rendering.OnlyReadKeysMatter` | internal/render/render.go:91-123 | values of keys a template does not read change nothing |
| `Rendering.FirstTokenTemplate` | internal/render/render.go:206-232 | the first token and the rest, split before any substitution |
| `Rendering.TokenRendersApart` | internal/render/render.go:206-232 | the split never cuts a key: rendering the parts and rendering the whole come to the same, errors included |
| `Rendering.RendersApart` | internal/render/render.go:91-123 | and so for every split of a template between two of its elements |
| `Rendering.ResolveScriptPath` | internal/engine/scriptpath.go:35-60 | a first token that is a relative path is resolved and quoted once, anything else is rendered as it is |
| `Rendering.ScriptPathIsTheCommand` | internal/engine/scriptpath.go:35-60 | whatever path and values hold, the shell reads the resolved path as its command word, whole and alone |
| `Rendering.ValueStaysInItsWord` | internal/render/render.go:128-136 | a value outside quotes and not behind a backslash is one part of one word, whatever it holds and whatever follows |
| `Rendering.OneTokenIffOutside` | internal/render/render.go:128-136 | after a text every value is one part of one word if and only if the text ends outside quotes and not in a backslash |
| `Rendering.ValueIsPlaced` | internal/render/render.go:91-123 | where a template reads a key, its rendering has the quoted value, between the renderings of what comes before and after |
| `Rendering.RenderedValueStays` | internal/render/render.go:128-136 | so in a rendered command a value in such a place is one part of one word |
| `Rendering.SingleQuotesLetValueOut` | internal/render/render.go:128-136 | between single quotes it is not: a concrete template whose value ends the command |
| `Rendering.DoubleQuotesLetValueOut` | internal/render/render.go:128-136 | between double quotes it is not: a concrete template whose value is seen as a command substitution |
| `Rendering.BackslashLetsValueOut` | internal/render/render.go:128-136 | behind a backslash it is not: a concrete template whose value is read as the end of the command |
| `JournalFile.ParseJournal` | internal/journal/log.go:142-167 | the parse loop: terminated lines are records or blank, an unterminated tail is dropped |
| `JournalFile.TruncationKeepsWholeRecords` | internal/journal/log.go:142-167 | cut a written journal after any byte: exactly the records written whole are read, at exactly their length |
| `JournalFile.WholeRecordsFit` | internal/journal/log.go:142-167 | that many records fit into the cut, and one more does not |
| `JournalFile.CutIsAfterLastNewline` | internal/journal/opaque.go:153-182 | every readable file is cut after its last newline, which is where the raw append cuts too |
| `JournalFile.CutIsIdempotent` | internal/journal/log.go:32-61 | cutting the torn tail changes nothing that is read and leaves nothing to cut |
| `JournalFile.AppendAddsOne` | internal/journal/log.go:73-91 | appending a line to a complete file adds one record to what is read |
| `JournalFile.AppendedLine` | internal/journal/log.go:142-167 | what is read after a line was appended to any readable file: what was read before, and what the torn tail and the line spell together |
| `JournalFile.AppendedIsRead` | internal/journal/log.go:73-91 | a record appended to a readable file is read if and only if the tail and the record together decode to it; the file is corrupt if and only if they decode to nothing |
| `JournalFile.AppendedAfterTorn` | internal/journal/log.go:73-91 | where no record can continue the beginning of another, a record appended after a partial one is read if and only if none of that was written; otherwise the file is corrupt |
| `JournalFile.NextSeq` | internal/journal/log.go:32-61 | the next number is above every number in use |
| `JournalFile.NextOfConsecutive` | internal/journal/log.go:32-61 | and continues consecutive numbering |
| `JournalFile.Log.Open` | internal/journal/log.go:32-61 | cuts the torn tail and continues the numbering, or reports the corrupt line and changes nothing |
| `JournalFile.Log.Append` | internal/journal/log.go:73-91 | takes the number before the write; only a whole line with its newline that was also synced is a success |
| `JournalFile.Log.AppendRunEndRaw` | internal/journal/opaque.go:153-182 | cuts after the last newline and appends one line |
| `JournalFile.RecoverAndAppend` | internal/journal/log.go:32-91 | from a written log torn at any byte, opening and appending gives the records written whole and the new one, numbered next |
| `JournalFile.AppendAfterFailure` | internal/journal/log.go:63-91 | a failed append and another on the same handle: the journal can be replayed if and only if the line was written and only its sync failed, or nothing was and nothing came before |
| `JournalFile.TornRunIsLegal` | internal/journal/log.go:142-167 | a run's file torn at any byte parses, replays without error, and is the journal of a legal run |
| `JournalFile.ScanEvents` | internal/journal/opaque.go:89-135 | the lenient scan loop |
| `JournalFile.ScanTells` | internal/journal/opaque.go:89-135 | it counts the records, finds the highest number in use, and tells a status exactly if the last record ends the run over |
| `JournalFile.ScanFindsFormat` | internal/journal/opaque.go:89-135 | and the plan format is that of the first start, 1 where it names none |
| `JournalFile.ScanReadsTheSame` | internal/journal/opaque.go:89-135 | on a readable file the scan sees the same records as the strict reader |
| `JournalFile.ScanAgreesWithReplay` | internal/journal/opaque.go:89-135 | scan and replay agree on whether a run is over if and only if nothing follows the end of one that is |
| `JournalFile.ScanAgreesOnEngineJournals` | internal/journal/opaque.go:89-135 | and so they agree on every journal the engine writes |
| `JournalFile.RawEndIsOneRecord` | internal/journal/opaque.go:153-182 | ending a readable run the raw way adds that one record |
| `LegacyPlan.RenameLegacyKeys` | internal/journal/plan_legacy.go:93-160 | the walk along the type produces a renaming, whatever order keys are walked in |
| `LegacyPlan.RenamingTagsEverything` | internal/journal/plan_legacy.go:93-160 | for distinct names, renaming takes the Go-name encoding of any value to its tag encoding and leaves the tag encoding, user map keys and interface values as they are |
| `LegacyPlan.UnknownKeysStay` | internal/journal/plan_legacy.go:127-136 | a key that names no field is kept with its value |
| `LegacyPlan.ClashingNameIsRenamed` | internal/journal/plan_legacy.go:127-136 | where a Go name is another field's tag, the tag encoding of that other field is not left as it is |
| `LiveIndex.Index.SyncSlug` | internal/journal/enforce.go:273-321 | the slug's entries become the wanted links and every other entry is kept unless it dangles |
| `LiveIndex.Index.Prune` | internal/journal/enforce.go:290-314 | removes exactly what a sync does not keep, and leaves what is still missing |
| `LiveIndex.Index.LiveIndexed` | internal/journal/enforce.go:347-399 | finds exactly the runs that are not over and whose entry of their own name points at them, for any index |
| `LiveIndex.Wanted` | internal/journal/enforce.go:274-289 | the links of the slug's enforced live runs |
| `LiveIndex.NameIsInjective` | internal/journal/enforce.go:282-288 | run ids without underscores give different names |
| `LiveIndex.SyncIsIdempotent` | internal/journal/enforce.go:273-321 | syncing again changes nothing |
| `LiveIndex.SyncedRunsAreFound` | internal/journal/enforce.go:347-399 | a run of a synced slug is found exactly when it is live and enforced |
| `LiveIndex.SyncAll` | internal/journal/enforce.go:266-321 | after every slug is synced, in any order and from any index, exactly the live enforced runs that no later sync drops are found |
| `LiveIndex.KeptSinceOwnSync` | internal/journal/enforce.go:266-321 | a run is dropped by no later sync exactly when its slug was synced and none synced after that has a prefix of its name |
| `LiveIndex.UnderscoredSlugIsDropped` | internal/journal/enforce.go:294-313 | where one slug is another with an underscore after it, or continues another's prefix, syncing the shorter drops every run of the longer |
| `Blocks.NeutralizeControls` | internal/cli/format.go:674-707 | the loop over characters makes every control and break visible |
| `Blocks.SingleLineIsTame` | internal/cli/format.go:625-630 | no line break, control or reordering character survives on one line |
| `Blocks.PlainStays` | internal/cli/format.go:625-630 | plain text is printed as it is |
| `Blocks.BodyIsIndented` | internal/cli/format.go:638-649 | however many lines a body has, each is indented and tame |
| `Blocks.TextReadsBack` | internal/cli/format.go:82-101 | reading a printed text line by line gives back the lines it was printed from |
| `Blocks.BlockWriter.Line` | internal/cli/format.go:82-86 | adds exactly one line, its parts joined and neutralised together |
| `Blocks.BlockWriter.Body` | internal/cli/format.go:92-94 | adds a body one level deeper |
| `Blocks.BlockWriter.Field` | internal/cli/format.go:98-101 | adds a label and its body |
| `Blocks.WriteDispatchBody` | internal/cli/format.go:377-412 | everything a dispatch has to say, in order, all of it quiet |
| `Blocks.FormatDispatch` | internal/cli/format.go:358-365 | one block: the first line is an instruction of its kind and opens it, the last is an END and closes it, nothing between can be taken for either, nothing breaks or reorders a line, and each part of the dispatch can be read back from under its label |
| `Blocks.FormatDispatchParallel` | internal/cli/format.go:427-448 | the same, with every member's whole block nested in order |
| `Blocks.FormatAsk` | internal/cli/format.go:557-591 | the same for a question, its options in order and how to answer, which can be read back |
| `Blocks.FormatWait` | internal/cli/format.go:501-509 | the same for a wait |
| `Blocks.FormatTerminal` | internal/cli/format.go:724-742 | the same for an end, with the ways out of a blocked run, and its message can be read back |
| `Blocks.OpensWithItsName` | internal/cli/format.go:82-86 | the opening line of a block starts with its kind |
| `Blocks.IsNamed` | internal/cli/format.go:82-86 | so it is an instruction, and the closing line an END, whatever the names in it hold |
| `Blocks.DispatchReadsBack` | internal/cli/format.go:377-412 | what stands under each label of the block is the whole description, context, keys to return, previous failure and interruption of this dispatch, and of nothing else |
| `Blocks.EverySourceIsShown` | internal/cli/format.go:377-412 | every context source is shown, whole, under its number, with its size and status |
| `Blocks.EveryKeyIsListed` | internal/cli/format.go:377-412 | and every key it is to return, in order, each on a line of its own |
| `Blocks.EveryMemberIsShown` | internal/cli/format.go:427-448 | every member of a group is printed as a whole block of its own |
| `Blocks.AskReadsBack` | internal/cli/format.go:557-591 | under its labels stand the whole question and its options |
| `Blocks.EveryOptionIsListed` | internal/cli/format.go:557-591 | every option is listed under its own number |
| `Blocks.EndReadsBack` | internal/cli/format.go:724-742 | under its labels stand the whole message and reason, and a blocked run shows the way to abandon it |
| `Polling.Poll` | internal/engine/poll.go:101-233 | the tick after one that saw nothing begins that command's cost and `every` later, the one after the k-th hard failure in a row its cost and k times the backoff later; every tick begins before the deadline; it times out if and only if the next would not and the run still waits; fails at exactly the hard failure in a row that uses up the retries, and stops at a command that cannot be run; acts on no tick begun after the deadline |
| `Polling.StreakIsRun` | internal/engine/poll.go:126-233 | the streak that counts is the number of hard failures in a row up to this tick |
| `Polling.SteadyLooks` | internal/engine/poll.go:126-233 | as long as nothing is seen the ticks come at the command's cost plus `every` after one another |
| `Polling.FailingLooks` | internal/engine/poll.go:126-233 | while every tick fails hard the k-th pause is k times the backoff |
| `Polling.ParkedAt` | internal/engine/poll.go:247-295 | the backward scan for the moment the run parked |
| `Polling.CrashesKeepTheDeadline` | internal/engine/poll.go:247-295 | poller restarts and crash RESUMEs, any number, do not move the deadline |
| `Polling.InterventionMovesTheDeadline` | internal/engine/poll.go:247-295 | an intervention starts the clock anew |
| `Waits.PollWait` | internal/engine/poll.go:101-233 | a whole poll, other processes writing meanwhile: its ticks come when `Polling.Poll` says; the run leaves by timeout if and only if they reach the deadline of the visit found while it still waits, as failed, with the text, only after the failures in a row that use up the retries, else by what a tick named, with its writes; nothing is journaled when the run has moved on or the command cannot be run |
| `Waits.TimeoutFitsTheVisit` | internal/engine/poll.go:126-150 | every timeout a poller of a waiting run may report is in time if and only if the clock was not started again after the poller read it |
| `Waits.AnchorOfGrown` | internal/engine/poll.go:281-289 | the clock's latest start is the one found unless a later entry or intervention started it again |
| `Waits.OldPollerIsEarly` | internal/engine/poll.go:137-150 | for any two journals in which the run waits and the clock of the second started later, a poller that read the first reports a timeout to the second before its deadline |
| `Waits.OldPollerCutsVisitShort` | internal/engine/poll.go:137-150 | a concrete poller that times out, and reports it for a visit that began one unit before |
| `Versions.NumericByValue` | internal/selfupdate/version.go:124-142 | numeric identifiers of any length compare by integer value (section 11 of Semantic Versioning 2.0.0) |
| `Versions.SameLengthByValue` | internal/selfupdate/version.go:124-142 | of equally many digits, byte order is the order of the numbers |
| `Versions.CompareSign` | internal/selfupdate/version.go:65-95 | swapping the versions flips the sign, and only that |
| `Versions.CompareChains` | internal/selfupdate/version.go:65-142 | the comparison is transitive, strictly so when either step is strict |
| `Versions.LeadingZerosCompareEqual` | internal/selfupdate/version.go:124-142 | versions that differ only in leading zeros of an identifier compare equal |
| `Versions.CompareIsPrecedence` | internal/selfupdate/version.go:65-142 | the comparison is the precedence of section 11 of Semantic Versioning 2.0.0, by position: a larger major, minor or patch is later, a pre-release before its release, identifiers left to right, numbers below words, fewer fields below more |
| `Versions.SplitIsExact` | internal/selfupdate/version.go:65-142 | the parts of a pre-release are those between its dots: they hold no dot and join to it again |

## Left out

- Process execution, signals, output files, timeouts and backoff sleeps of commands: a run of a body is a value (`EngineRules.Body`).
- The file system, JSON, YAML and regular expressions as libraries: parameters with the few laws needed (`JournalFile.Lawful`, `JournalFile.Separate`, matchers, path joining); what a pattern matches is modelled on its syntax tree.
- The pid lock of a run and the removal of stale locks.
- Digests, plan pinning and heartbeats; hashes of failure texts are a function.
- The validator's remaining rules, which check fields one by one, and the coercion of submitted values against schemas: a submission is unusable with a text, or usable with its writes.
- How a human answer is resolved against its options and the source of those options: an answer is invalid with a text, or chosen with an outcome and a value to write.
- The stop hook, guard compilation, session stamps and subagent stop files.
- Command-line parsing, banners, status listings and exit codes; the download and replacement of the binary; parsing of version strings.
- The choice between plan formats around the legacy key rewrite.
- The messages a terminal instruction renders; its status, step and outcome are modelled.
- Output text that is not valid Unicode: printed blocks are modelled on characters.
- The replay's maps of maps are maps keyed by the pair of step and index; an entry for a step with no items left is not told apart from none.
- The stamps of engine events (run id, time, sequence number, soft failures): `Journal.Record` carries number and time where the file and the clock matter.
- Submit: calls on a blocked run are described only by what replay makes of what they journal (`Boundaries.BlockedByLastEnd`); the code takes them without a check.
- SubmitHuman: calls on a blocked run are described only by what replay makes of what they journal; the code takes them without a check.
- GitMutates, JjMutates and the raw token scan are functions where the source loops; they only scan their arguments, and the option loop of branch and tag, which keeps state, is a method.
