/** What a delivery stores, and what it does to a write that came between. */
module PipelineDelivery {
  import opened Options
  import opened Text
  import opened PipelineStatus
  import opened PipelineEngine
  import opened PipelineEngineProofs
  import opened PipelineAdvance

  // ---- Undisturbed deliveries -------------------------------------------------------------------------------

  /** The history holds a result of the same stage, agent and outcome, from the same task; without a task, from the
      same issue. */
  predicate OnRecord(run: Run, r: StepResult) {
    && r.stage != 0 && !Blank(r.agent)
    && exists i :: 0 <= i < |run.history| && run.history[i].from == r.stage && run.history[i].agent == r.agent
                   && run.history[i].outcome == r.outcome
                   && (if r.task == "" then r.issue != "" && run.history[i].issue == r.issue else run.history[i].task == r.task)
  }

  lemma OnRecordIff(run: Run, r: StepResult)
    ensures AlreadyApplied(run, r) <==> OnRecord(run, r)
  {
    hide Blank;
    if i :| 0 <= i < |run.history| && Matches(run.history[i], r) {
      assert run.history[i].from == r.stage;
    }
    if OnRecord(run, r) {
      var i :| 0 <= i < |run.history| && run.history[i].from == r.stage && run.history[i].agent == r.agent
               && run.history[i].outcome == r.outcome
               && (if r.task == "" then r.issue != "" && run.history[i].issue == r.issue else run.history[i].task == r.task);
      assert Matches(run.history[i], r);
    }
  }

  /** The result as the engine gets it: without an issue of its own it takes the run's. */
  function Filled(run: Run, r: StepResult): StepResult {
    r.(issue := if r.issue != "" then r.issue else run.issue)
  }

  /** The delivery gets through: it is new, belongs to the active issue if there is one, and the engine accepts it. */
  predicate Welcome(run: Run, r: StepResult) {
    !OnRecord(run, r) && (run.issue == "" || Filled(run, r).issue == run.issue) && Apply(run, Filled(run, r)).Ok?
  }

  predicate AsksApproval(run: Run, next: Run) {
    next.status == WaitingApproval && run.approvalId == ""
  }

  predicate LinksBug(run: Run, r: StepResult, bug: string) {
    run.stage == INTEGRATION && r.outcome == "fail" && bug != ""
  }

  function One(b: bool): int {
    if b then 1 else 0
  }

  /** The run a delivery leaves: the engine's, without an active issue or task; with a pending approval if it begins to
      wait for one, and linked to the bug of a failed integration. Each of these is a version of its own. */
  function Delivered(run: Run, r: StepResult, approvalId: string, bug: string): Run
    requires Apply(run, Filled(run, r)).Ok?
  {
    var next := Apply(run, Filled(run, r)).value;
    var asks, links := AsksApproval(run, next), LinksBug(run, r, bug);
    next.(issue := "", task := "", approvalId := if asks then approvalId else run.approvalId,
          approvalStatus := if asks then "pending" else run.approvalStatus,
          bugId := if links then bug else run.bugId, version := run.version + 1 + One(asks) + One(links))
  }

  lemma ReduceIff(run: Run, r: StepResult)
    ensures Reduce(run, r).Some? <==> Welcome(run, r)
    ensures Welcome(run, r) ==> Reduce(run, r).value == Apply(run, Filled(run, r)).value.(issue := "", task := "")
  {
    hide Apply, AlreadyApplied, OnRecord;
    OnRecordIff(run, r);
    assert WithIssue(run, r) == Filled(run, r);
  }

  lemma ApplyKeepsLinks(run: Run, r: StepResult)
    requires Apply(run, r).Ok?
    ensures Apply(run, r).value.bugId == run.bugId
  {
    hide NextStage, Merge, AgentFor, HasStage;
  }

  /** What an undisturbed delivery does, by how it ends. One that is not welcome changes nothing. */
  lemma DeliveryStores(s: Server, r: StepResult, finish: Finish)
    requires Inv(s) && s.lock == Free
    ensures var after := Take(Take(s, BeginAdvance(r)), FinishAdvance(finish));
            if !Welcome(s.stored, r) then after == s
            else
              && after.lock == Free
              && match finish
                 case Abandon => after.stored == s.stored
                 case GraphRejected(reason) =>
                   after.stored == Apply(s.stored, Filled(s.stored, r)).value.(
                     issue := "", task := "", status := Suspended, suspendReason := reason)
                 case Save(approvalId, bug) => after.stored == Delivered(s.stored, r, approvalId, bug)
  {
    hide Apply, NoRepeats, ValidRun, OnRecord, Reduce;
    ReduceIff(s.stored, r);
    if Welcome(s.stored, r) {
      ApplyShape(s.stored, Filled(s.stored, r));
      ApplyKeepsLinks(s.stored, Filled(s.stored, r));
      SavedVersion(s);
    }
  }

  lemma SavedVersion(s: Server)
    requires Inv(s)
    ensures s.stored.version >= 1
  {
    hide NoRepeats, ValidRun, Reduce;
  }

  /** A watcher suspends the run if it is waiting on the watcher's task, and leaves it alone otherwise. */
  lemma WatcherSuspends(s: Server, task: string, reason: string)
    requires Inv(s) && s.lock == Free
    ensures Take(Take(s, BeginSuspend(task)), FinishSuspend(reason)) ==
            if s.stored.status == Waiting && s.stored.task == task
            then s.(stored := s.stored.(status := Suspended, suspendReason := reason, version := s.stored.version + 1))
            else s
  {
    hide NoRepeats, ValidRun, Reduce;
  }

  /** A dispatch makes a running run wait on its task, and does nothing to any other. */
  lemma DispatchWaits(s: Server, task: string, issue: string)
    ensures Take(s, Dispatch(task, issue)) ==
            if s.stored.status == Running
            then s.(stored := s.stored.(status := Waiting, task := task, issue := issue, version := s.stored.version + 1))
            else s
  {
  }

  // ---- A write that came between -------------------------------------------------------------------------------

  /** A delivery whose run was written by somebody else since it was read leaves that write alone, with one exception:
      a failed integration with a bug record writes the link expecting the version after its own increment, and so
      replaces a write that raised the version by exactly one. */
  lemma OverwritesIff(s: Server, finish: Finish)
    requires Inv(s) && s.lock.Advancing? && s.stored.version != s.lock.snapshot.version
    ensures Take(s, FinishAdvance(finish)).stored != s.stored <==>
            finish.Save? && LinksBug(s.lock.snapshot, s.lock.result, finish.bug)
            && s.stored.version == s.lock.snapshot.version + 1
  {
    hide NoRepeats, ValidRun, Reduce, Apply;
    var snapshot, r := s.lock.snapshot, s.lock.result;
    ReduceAppends(snapshot, r);
    if snapshot.stage == INTEGRATION {
      NoWaitAtIntegration(snapshot, r);
    }
  }

  lemma NoWaitAtIntegration(run: Run, r: StepResult)
    requires ValidRun(run) && Reduce(run, r).Some? && run.stage == INTEGRATION
    ensures Reduce(run, r).value.status != WaitingApproval
  {
    hide Apply, AlreadyApplied, ValidRun;
    ApplyProgress(run, WithIssue(run, r));
  }

  /** Such a write is lost, whatever it says: the delivery stores what it would have stored without it. */
  lemma LostWrite(s: Server, run: Run, r: StepResult, bug: string)
    requires Inv(s) && s.lock == Free && Welcome(s.stored, r) && LinksBug(s.stored, r, bug)
    requires run.version == s.stored.version + 1 && run.history == s.stored.history && ValidRun(run)
    ensures var between := Take(Take(s, BeginAdvance(r)), OtherWrite(run));
            && between.stored == run
            && Take(between, FinishAdvance(Save("", bug))).stored == Delivered(s.stored, r, "", bug)
  {
    hide NoRepeats, ValidRun, Reduce, Apply, OnRecord;
    ReduceIff(s.stored, r);
    ApplyShape(s.stored, Filled(s.stored, r));
    ApplyKeepsLinks(s.stored, Filled(s.stored, r));
    SavedVersion(s);
    StoredValid(s);
    NoWaitAtIntegration(s.stored, r);
  }

  lemma StoredValid(s: Server)
    requires Inv(s)
    ensures ValidRun(s.stored)
  {
    hide NoRepeats, ValidRun, Reduce;
  }
}
