/**
  What the events of a call come to when they are replayed (internal/engine/submit.go,
  internal/engine/poll.go, internal/engine/parallel.go, internal/engine/foreach.go): what a
  step, a branch or an item wrote, and what is told of its failure.
 */
module Effects {
  import opened Wrappers
  import opened JsonValues
  import opened Journal
  import opened Workflows
  import opened Protocol
  import opened EngineRules
  import opened SubmitRules
  import GroupTheorems

  // ---- one event ------------------------------------------------------------------------------

  /** The state of the run, its last error, and what an item has written. */
  datatype View = View(state: map<string, Json>, lastError: string, own: map<string, Json>)

  function ViewOf(events: seq<Event>, ref: ItemRef): View {
    View(CoreOf(events).data.state, CoreOf(events).data.lastError, Lookup(Fold(events).items.writes, ref, map[]))
  }

  lemma OneMore(events: seq<Event>, e: Event)
    ensures Front(events + [e]) == events && Last(events + [e]) == e && Fold(events + [e]) == Step(Fold(events), e)
  {
    assert Front(events + [e]) == events;
  }

  lemma AfterWrites(events: seq<Event>, e: Event, ref: ItemRef)
    requires e.Writes?
    ensures var v := ViewOf(events, ref);
            ViewOf(events + [e], ref)
              == if !IsItemEvent(e) then v.(state := v.state + e.writes)
                 else if RefOf(e) == ref then v.(own := v.own + e.writes)
                 else v
  {
    hide Fold, StepLedger, StepPlace, StepEnding, StepBranches;
    OneMore(events, e);
  }

  lemma AfterVerdict(events: seq<Event>, e: Event, ref: ItemRef)
    requires e.Postcondition?
    ensures var v := ViewOf(events, ref);
            ViewOf(events + [e], ref) == if e.group != "" then v else v.(lastError := if e.ok then "" else e.text)
  {
    hide Fold, StepLedger, StepPlace, StepEnding, StepBranches;
    OneMore(events, e);
  }

  // ---- results and runs -------------------------------------------------------------------------

  /** What has been written in a scope is added to the state of the run, or to what the item
      has written. */
  function Added(v: View, scope: Scope, ref: ItemRef, writes: map<string, Json>): View {
    if !scope.InItem? then v.(state := v.state + writes)
    else if scope.ref == ref then v.(own := v.own + writes)
    else v
  }

  lemma AddedNothing(v: View, scope: Scope, ref: ItemRef)
    ensures Added(v, scope, ref, map[]) == v
  {
    assert v.state + map[] == v.state && v.own + map[] == v.own;
  }

  predicate ProperScope(scope: Scope) {
    (scope.InItem? ==> scope.ref.group != "") && (scope.InBranch? ==> scope.group != "")
  }

  /** A result that can be used becomes state of the run where the step or a branch writes
      it, and stays with the item where an item does; any other writes nothing. */
  lemma ResultIsWritten(before: seq<Event>, step: StepDecl, attempt: int, scope: Scope, submission: Submission, ref: ItemRef)
    requires ProperScope(scope)
    ensures ViewOf(before + ResultWrites(step, attempt, scope, submission), ref)
            == Added(ViewOf(before, ref), scope, ref, if submission.Usable? then submission.writes else map[])
  {
    hide ViewOf;
    AddedNothing(ViewOf(before, ref), scope, ref);
    var added := ResultWrites(step, attempt, scope, submission);
    if |added| == 0 {
      assert before + added == before;
    } else {
      AfterWrites(before, added[0], ref);
    }
  }

  /** What one run of a body does: a clean exit that does not fail adds its writes; a run
      that fails hard, be it by its own word, leaves its text as the last error of the run,
      or of its branch or item. */
  lemma RunIsTold(before: seq<Event>, step: StepDecl, attempt: int, scope: Scope, b: Body, ref: ItemRef)
    requires ProperScope(scope)
    ensures var after := before + AttemptEvents(step, attempt, scope, b);
            var v := Added(ViewOf(before, ref), scope, ref,
                           if CleanExit(step, b.result) && b.result.writes.Some? then b.result.writes.value else map[]);
            && ViewOf(after, ref) == (if AttemptOf(step, b).HardFailed? && scope.Plain? then v.(lastError := b.result.text) else v)
            && (AttemptOf(step, b).HardFailed? ==>
                  |after| > |before| && Last(after) == Judged(step, attempt, "", Check(false, b.result.text), scope))
  {
    hide ViewOf, RoutableToken, NamesOutcomes;
    ExitCodes(step, b);
    AddedNothing(ViewOf(before, ref), scope, ref);
    var added := AttemptEvents(step, attempt, scope, b);
    if |added| == 0 {
      assert before + added == before;
    } else {
      if added[0].Writes? {
        AfterWrites(before, added[0], ref);
      } else {
        AfterVerdict(before, added[0], ref);
      }
      if |added| == 1 {
        assert added == [added[0]];
      } else {
        AfterVerdict(before + [added[0]], added[1], ref);
        assert before + added == before + [added[0]] + [added[1]];
      }
    }
  }

  // ---- verdicts -----------------------------------------------------------------------------------

  /** The verdict of a checked step is on record for it, and its text, if it failed, is the
      last error; that of any other step is not journaled. */
  lemma VerdictIsTold(w: Workflow, before: seq<Event>, step: StepDecl, check: Check, ref: ItemRef)
    ensures var after, v := before + Verdicts(w, before, step, check), ViewOf(before, ref);
            && ViewOf(after, ref) == (if step.checked then v.(lastError := if check.ok then "" else check.text) else v)
            && (step.checked ==> Lookup(CoreOf(after).ledger.lastOk, step.id, false) == check.ok)
            && (!step.checked ==> after == before)
  {
    hide ViewOf, Here, StepData, StepPlace, StepEnding, StepItems, StepBranches;
    if step.checked {
      var e := Judged(step, Here(w, before).attempt, Here(w, before).key, check, Plain);
      AfterVerdict(before, e, ref);
      OneMore(before, e);
    } else {
      assert before + [] == before;
    }
  }

  /** A pass after a hard failure leaves no error behind. */
  lemma PassClearsError(before: seq<Event>, step: StepDecl, cur: Cursor, check: Check, ref: ItemRef)
    requires check.ok
    ensures var after, v := before + PassVerdict(step, cur, check), ViewOf(before, ref);
            ViewOf(after, ref) == if step.checked || cur.hardRetry > 0 then v.(lastError := "") else v
  {
    hide ViewOf;
    if step.checked || cur.hardRetry > 0 {
      AfterVerdict(before, Judged(step, cur.attempt, cur.key, check, Plain), ref);
    } else {
      assert before + [] == before;
    }
  }

  /** What a poll observed: its text is the last error if it failed, and what it wrote is
      state of the run. */
  lemma ObservationIsTold(w: Workflow, before: seq<Event>, step: StepDecl, writes: map<string, Json>,
                          failure: Option<string>, ref: ItemRef)
    ensures var after, v := before + Noted(w, before, step, writes, failure), ViewOf(before, ref);
            ViewOf(after, ref)
              == v.(state := v.state + writes, lastError := if failure.Some? then failure.value else v.lastError)
  {
    hide ViewOf, Here;
    var attempt := Here(w, before).attempt;
    var said := if failure.Some? then [Judged(step, attempt, "", Check(false, failure.value), Plain)] else [];
    var wrote := if |writes| > 0 then [StepWrites(step, attempt, writes)] else [];
    assert before + Noted(w, before, step, writes, failure) == before + said + wrote;
    if failure.Some? {
      AfterVerdict(before, said[0], ref);
    } else {
      assert before + said == before;
    }
    WroteOrNot(before + said, step, attempt, writes, ref);
  }

  lemma WroteOrNot(events: seq<Event>, step: StepDecl, attempt: int, writes: map<string, Json>, ref: ItemRef)
    ensures var v := ViewOf(events, ref);
            ViewOf(events + (if |writes| > 0 then [StepWrites(step, attempt, writes)] else []), ref)
              == v.(state := v.state + writes)
  {
    hide ViewOf;
    if |writes| > 0 {
      AfterWrites(events, StepWrites(step, attempt, writes), ref);
    } else {
      AddedNothing(ViewOf(events, ref), Plain, ref);
      assert events + [] == events && writes == map[];
    }
  }

  // ---- groups -------------------------------------------------------------------------------------

  /** A group that succeeded leaves no error behind, and one that failed its summary, unless
      this entry of it has one already. */
  lemma GroupIsTold(w: Workflow, before: seq<Event>, group: StepDecl, ref: ItemRef)
    requires group.kind.Parallel?
    ensures var after, v := before + GroupSummary(w, before, group), ViewOf(before, ref);
            var b := Fold(before).branches;
            if forall i :: 0 <= i < |group.kind.branches| ==> Lookup(b.outcome, group.kind.branches[i], "") == SUCCESS
            then ViewOf(after, ref) == v.(lastError := "")
            else if Summarised(before, group.id) then after == before
            else ViewOf(after, ref)
                 == v.(lastError := SummaryText(group.kind.branches, b, BranchTexts(before, group.id)))
  {
    hide ViewOf, Here, Fold, BranchTexts, SummaryText, Summarised;
    assert SUCCESS[0] != FAILURE[0];
    LastErrorSeen(before, ref);
    var added := GroupSummary(w, before, group);
    if |added| == 0 {
      assert before + added == before;
    } else {
      AfterVerdict(before, added[0], ref);
    }
  }

  lemma LastErrorSeen(events: seq<Event>, ref: ItemRef)
    ensures ViewOf(events, ref).lastError == CoreOf(events).data.lastError
    ensures ViewOf(events, ref).(lastError := CoreOf(events).data.lastError) == ViewOf(events, ref)
  {}

  /** A part of a text. */
  ghost predicate Within(text: string, part: string) {
    exists a, b :: Surrounded(text, a, part, b)
  }

  predicate Surrounded(text: string, a: string, part: string, b: string) {
    text == a + part + b
  }

  function FailurePart(id: string, texts: map<string, string>): string {
    if id in texts && texts[id] != "" then "branch \"" + id + "\": " + texts[id] else "branch \"" + id + "\" failed"
  }

  /** A summary names every branch that did not succeed, with its own text if it left one;
      where all succeeded it is empty. */
  lemma {:induction false} SummaryNamesEveryFailure(branches: seq<string>, b: Branches, texts: map<string, string>, i: nat)
    requires i < |branches| && Lookup(b.outcome, branches[i], "") != SUCCESS
    ensures Within(SummaryText(branches, b, texts), FailurePart(branches[i], texts))
  {
    hide Within;
    var rest := SummaryText(branches[1..], b, texts);
    var part := FailurePart(branches[i], texts);
    if i == 0 {
      WithinStart(part, if rest == "" then "" else "; " + rest);
      assert part + "" == part && part + "; " + rest == part + ("; " + rest);
    } else {
      SummaryNamesEveryFailure(branches[1..], b, texts, i - 1);
      if Lookup(b.outcome, branches[0], "") != SUCCESS {
        NotEmpty(rest, part);
        WithinLater(FailurePart(branches[0], texts) + "; ", rest, part);
      }
    }
  }

  lemma {:induction false} SummaryOfSuccesses(branches: seq<string>, b: Branches, texts: map<string, string>)
    requires forall i :: 0 <= i < |branches| ==> Lookup(b.outcome, branches[i], "") == SUCCESS
    ensures SummaryText(branches, b, texts) == ""
  {
    if |branches| > 0 {
      SummaryOfSuccesses(branches[1..], b, texts);
    }
  }

  lemma WithinStart(part: string, more: string)
    ensures Within(part + more, part)
  {
    assert Surrounded(part + more, "", part, more) by {
      assert "" + part + more == part + more;
    }
  }

  lemma WithinLater(front: string, text: string, part: string)
    requires Within(text, part)
    ensures Within(front + text, part)
  {
    var a, b :| Surrounded(text, a, part, b);
    assert Surrounded(front + text, front + a, part, b);
  }

  lemma NotEmpty(text: string, part: string)
    requires Within(text, part) && part != ""
    ensures text != ""
  {}

  /** The text a branch left is that of its own latest failure since the group was entered. */
  predicate LatestBranchFailure(events: seq<Event>, group: string, branch: string, k: nat) {
    k < |events| && IsBranchFailure(events[k], group, branch)
    && forall j :: k < j < |events| ==> !IsBranchFailure(events[j], group, branch) && !(IsEntry(events[j]) && events[j].step == group)
  }

  predicate IsBranchFailure(e: Event, group: string, branch: string) {
    e.Postcondition? && !e.ok && e.group == group && e.item.None? && e.step == branch
  }

  lemma {:induction false} BranchTextIsLatest(events: seq<Event>, group: string, branch: string, k: nat)
    requires group != "" && LatestBranchFailure(events, group, branch, k)
    ensures branch in BranchTexts(events, group) && BranchTexts(events, group)[branch] == events[k].text
  {
    if k < |events| - 1 {
      BranchTextIsLatest(Front(events), group, branch, k);
    }
  }

  /** And there is none without one. */
  lemma {:induction false} BranchTextIsOwn(events: seq<Event>, group: string, branch: string) returns (k: nat)
    requires group != "" && branch in BranchTexts(events, group)
    ensures LatestBranchFailure(events, group, branch, k)
  {
    k := |events| - 1;
    if !IsBranchFailure(events[k], group, branch) {
      k := BranchTextIsOwn(Front(events), group, branch);
    }
  }

  /** A branch that has reported is awaited no longer, its outcome is that of its check, and
      the group is told the text of a failed one. */
  lemma BranchIsTold(before: seq<Event>, group: StepDecl, branch: StepDecl, attempt: int, submission: Submission, check: Check)
    requires group.id != ""
    ensures var after := before + BranchReported(group, branch, attempt, submission, check);
            && BranchRef(group.id, branch.id) !in Fold(after).branches.pending
            && Lookup(Fold(after).branches.outcome, branch.id, "") == (if check.ok then SUCCESS else FAILURE)
            && (!check.ok ==>
                  |after| > 1 && LatestBranchFailure(after, group.id, branch.id, |after| - 2)
                  && after[|after| - 2].text == check.text)
  {
    hide Fold, ResultWrites;
    var judged := before + ResultWrites(branch, attempt, InBranch(group.id), submission)
                  + if check.ok && !branch.checked then [] else [Judged(branch, attempt, "", check, InBranch(group.id))];
    var outcome := if check.ok then SUCCESS else FAILURE;
    assert before + BranchReported(group, branch, attempt, submission, check)
           == judged + [BranchTransition(group.id, branch.id, attempt, outcome)];
    BranchIsDone(judged, group.id, branch.id, attempt, outcome);
  }

  lemma BranchIsDone(events: seq<Event>, group: string, branch: string, attempt: int, outcome: string)
    requires group != ""
    ensures var b := Fold(events + [BranchTransition(group, branch, attempt, outcome)]).branches;
            BranchRef(group, branch) !in b.pending && Lookup(b.outcome, branch, "") == outcome
  {
    hide StepCore, StepItems;
    OneMore(events, BranchTransition(group, branch, attempt, outcome));
  }

  // ---- items --------------------------------------------------------------------------------------

  /** An item that has been resolved has its outcome, and is told the text of the check that
      failed it. */
  lemma ItemIsTold(before: seq<Event>, body: StepDecl, ref: ItemRef, attempt: int, check: Option<Check>, outcome: string)
    requires ref.group != ""
    ensures var after := before + ItemReport(body, ref, attempt, check, outcome);
            && ref !in Fold(after).items.pending && Lookup(Fold(after).items.outcome, ref, "") == outcome
            && LastItemError(after, ref)
               == (if check.Some? && !check.value.ok then Some(check.value.text) else LastItemError(before, ref))
  {
    hide StepCore, StepBranches;
    var judged := if check.Some? then before + [Judged(body, attempt, "", check.value, InItem(ref))] else before;
    var exit := ItemTransition(ref, body.id, attempt, outcome);
    assert before + ItemReport(body, ref, attempt, check, outcome) == judged + [exit];
    OneMore(judged, exit);
    if check.Some? {
      OneMore(before, Judged(body, attempt, "", check.value, InItem(ref)));
    }
  }

  /** An item whose body was run succeeds if and only if its last run finished as a success
      and passed its check. Otherwise it is told why: the text of the hard failure, of the
      check, or that its outcome is none an item can take. */
  lemma ItemRunIsTold(before: seq<Event>, body: StepDecl, ref: ItemRef, b: Body, tried: int)
    requires ref.group != "" && AttemptOf(body, b) != Broken
    ensures var at := AttemptOf(body, b);
            var run := before + AttemptEvents(body, 1, InItem(ref), b);
            var after := run + ItemReport(body, ref, 1, ItemVerdictOf(body, at, tried), ItemOutcomeOf(at));
            var succeeded := at.Finished? && at.check.ok && at.outcome == SUCCESS;
            && (Lookup(Fold(after).items.outcome, ref, "") == SUCCESS <==> succeeded)
            && (!succeeded ==>
                  LastItemError(after, ref)
                    == Some(if at.HardFailed? then b.result.text else if !at.check.ok then at.check.text else NOT_SUCCESS))
  {
    hide Fold, LastItemError, AttemptEvents, AttemptOf, ItemReport, ViewOf;
    var at := AttemptOf(body, b);
    var run := before + AttemptEvents(body, 1, InItem(ref), b);
    assert SUCCESS[0] != FAILURE[0];
    RunIsTold(before, body, 1, InItem(ref), b, ref);
    ItemIsTold(run, body, ref, 1, ItemVerdictOf(body, at, tried), ItemOutcomeOf(at));
    if at.HardFailed? {
      HardFailureHasText(body, b);
      FailedRunIsLast(run, body, ref, b.result.text);
    }
  }

  lemma HardFailureHasText(step: StepDecl, b: Body)
    requires AttemptOf(step, b).HardFailed?
    ensures !b.result.NotRun?
  {}

  lemma FailedRunIsLast(events: seq<Event>, body: StepDecl, ref: ItemRef, text: string)
    requires ref.group != "" && |events| > 0 && Last(events) == Judged(body, 1, "", Check(false, text), InItem(ref))
    ensures LastItemError(events, ref) == Some(text)
  {}

  // ---- what a dispatch is told ----------------------------------------------------------------------

  predicate IsFailureOf(e: Event, id: string) {
    e.Postcondition? && e.step == id && !e.ok
  }

  /** A step is told the text of its latest failed verdict exactly while a budget of it is
      open under a real key. */
  lemma {:induction false} FailureToldIsLatest(events: seq<Event>, id: string, k: nat)
    requires k < |events| && IsFailureOf(events[k], id) && forall j :: k < j < |events| ==> !IsFailureOf(events[j], id)
    ensures LatestFailure(events, id) == events[k].text
    ensures PreviousFailure(events, id)
            == if exists ref :: ref in CoreOf(events).ledger.attempts && ref.step == id && ref.key != "" then events[k].text
               else ""
  {
    hide Fold;
    LatestFailureAt(events, id, k);
  }

  lemma {:induction false} LatestFailureAt(events: seq<Event>, id: string, k: nat)
    requires k < |events| && IsFailureOf(events[k], id) && forall j :: k < j < |events| ==> !IsFailureOf(events[j], id)
    ensures LatestFailure(events, id) == events[k].text
  {
    if k < |events| - 1 {
      LatestFailureAt(Front(events), id, k);
    }
  }

  // ---- questions and answers ----------------------------------------------------------------------------

  /** What takes a question back: an end, an intervention, the step's exit or its next entry. */
  predicate TakesBack(e: Event, id: string) {
    e.RunEnd? || (e.Resume? && e.intervention) || ((IsExit(e) || IsEntry(e)) && e.step == id)
  }

  predicate AskedAt(events: seq<Event>, id: string, attempt: int, k: nat) {
    k < |events| && events[k] == HumanAsked(id, attempt) && forall j :: k < j < |events| ==> !TakesBack(events[j], id)
  }

  /** A question is outstanding if and only if it was asked for this attempt and not taken
      back since. */
  lemma {:induction false} QuestionIsOutstanding(events: seq<Event>, id: string, attempt: int)
    ensures AskedSinceEnter(events, id, attempt) <==> exists k: nat :: AskedAt(events, id, attempt, k)
  {
    if |events| > 0 {
      var front, e := Front(events), Last(events);
      QuestionIsOutstanding(front, id, attempt);
      if e == HumanAsked(id, attempt) {
        assert AskedAt(events, id, attempt, |events| - 1);
      }
      if k: nat :| AskedAt(front, id, attempt, k) {
        assert !TakesBack(e, id) ==> AskedAt(events, id, attempt, k);
      }
      if k: nat :| AskedAt(events, id, attempt, k) {
        assert k < |front| ==> AskedAt(front, id, attempt, k);
      }
    }
  }

  predicate AcceptedAt(events: seq<Event>, id: string, attempt: int, k: nat) {
    k < |events| && events[k].Writes? && events[k].step == id && events[k].attempt == attempt
    && forall j :: k < j < |events| ==> events[j] != HumanAsked(id, attempt)
  }

  /** An answer was accepted if and only if the step has written at this attempt since it
      last asked. */
  lemma {:induction false} AnswerIsAccepted(events: seq<Event>, id: string, attempt: int)
    ensures AnsweredSinceAsked(events, id, attempt) <==> exists k: nat :: AcceptedAt(events, id, attempt, k)
  {
    if |events| > 0 {
      var front, e := Front(events), Last(events);
      AnswerIsAccepted(front, id, attempt);
      if e.Writes? && e.step == id && e.attempt == attempt {
        assert AcceptedAt(events, id, attempt, |events| - 1);
      }
      if k: nat :| AcceptedAt(front, id, attempt, k) {
        assert e != HumanAsked(id, attempt) ==> AcceptedAt(events, id, attempt, k);
      }
      if k: nat :| AcceptedAt(events, id, attempt, k) {
        assert k < |front| ==> AcceptedAt(front, id, attempt, k);
      }
    }
  }

  /** The owner of a body is the first declared foreach step that names it. */
  lemma {:induction false} OwnerIsFirst(steps: seq<StepDecl>, body: string, k: nat)
    requires k < |steps| && steps[k].kind.Foreach? && steps[k].kind.body == body
    requires forall i :: 0 <= i < k ==> !(steps[i].kind.Foreach? && steps[i].kind.body == body)
    ensures OwnerIn(steps, body) == Some(steps[k])
  {
    if k > 0 {
      OwnerIsFirst(steps[1..], body, k - 1);
    }
  }
}
