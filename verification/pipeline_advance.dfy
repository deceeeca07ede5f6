/** Delivering provider results to a stored pipeline: callbacks, watchers, the deadline handler and
    recovery all go through one lock, while dispatchers write beside it. */
module PipelineAdvance {
  import opened Options
  import opened Text
  import opened PipelineStatus
  import opened PipelineEngine
  import opened PipelineEngineProofs

  /** A history entry records this very result. */
  predicate Matches(t: Transition, r: StepResult) {
    && t.from == r.stage && t.agent == r.agent && t.outcome == r.outcome
    && if r.task != "" then t.task == r.task else r.issue != "" && t.issue == r.issue
  }

  predicate AlreadyApplied(run: Run, r: StepResult) {
    r.stage != 0 && !Blank(r.agent) && exists i | 0 <= i < |run.history| :: Matches(run.history[i], r)
  }

  /** The scan over the history. */
  method ResultAlreadyApplied(run: Run, r: StepResult) returns (found: bool)
    ensures found <==> AlreadyApplied(run, r)
  {
    if r.stage == 0 || Blank(r.agent) {
      return false;
    }
    for i := 0 to |run.history|
      invariant forall k | 0 <= k < i :: !Matches(run.history[k], r)
    {
      var t := run.history[i];
      if t.from != r.stage || t.agent != r.agent || t.outcome != r.outcome {
        continue;
      }
      if r.task != "" {
        if t.task == r.task {
          return true;
        }
        continue;
      }
      if r.issue != "" && t.issue == r.issue {
        return true;
      }
    }
    return false;
  }

  /** Who holds the advance lock, with the run it read. */
  datatype Lock =
    | Free
    | Advancing(snapshot: Run, result: StepResult, advanced: Run)
    | Suspending(watched: string, snapshot: Run)

  datatype Server = Server(stored: Run, lock: Lock)

  /** How a delivery ends after the engine has accepted the result. `bug` is the bug record made for a
      failed integration, if any. */
  datatype Finish = Abandon | GraphRejected(reason: string) | Save(approvalId: string, bug: string)

  datatype Step =
    | BeginAdvance(result: StepResult)
    | FinishAdvance(finish: Finish)
    | BeginSuspend(task: string)
    | FinishSuspend(reason: string)
    | Dispatch(newTask: string, newIssue: string)
    | OtherWrite(run: Run)
    | Restart

  function Swap(stored: Run, run: Run, expected: int): Run {
    if expected > 0 && stored.version != expected then stored else run
  }

  function WithIssue(run: Run, r: StepResult): StepResult {
    if r.issue == "" then r.(issue := run.issue) else r
  }

  /** The run a delivery would save, or None when it is a repeat or is rejected. */
  function Reduce(run: Run, r: StepResult): Option<Run> {
    var filled := WithIssue(run, r);
    if AlreadyApplied(run, r) || (run.issue != "" && filled.issue != run.issue) then None
    else
      match Apply(run, filled)
      case Err(_) => None
      case Ok(next) => Some(next.(issue := "", task := ""))
  }

  function WithApproval(run: Run, approvalId: string): Run {
    if run.status == WaitingApproval && run.approvalId == ""
    then run.(approvalId := approvalId, approvalStatus := "pending", version := run.version + 1) else run
  }

  /** The bug link is written first, expecting the version before it; the final write expects the
      version that was read. */
  function SaveAdvanced(stored: Run, snapshot: Run, r: StepResult, advanced: Run, bug: string): Run {
    if snapshot.stage == INTEGRATION && r.outcome == "fail" && bug != "" then
      var linked := advanced.(bugId := bug, version := advanced.version + 1);
      Swap(Swap(stored, linked, linked.version - 1), linked, snapshot.version)
    else Swap(stored, advanced, snapshot.version)
  }

  function Take(s: Server, step: Step): Server {
    match step
    case BeginAdvance(r) =>
      if s.lock != Free then s
      else
        (match Reduce(s.stored, r)
         case None => s
         case Some(advanced) => s.(lock := Advancing(s.stored, r, advanced)))
    case FinishAdvance(finish) =>
      if !s.lock.Advancing? then s
      else
        (match finish
         case Abandon => s.(lock := Free)
         case GraphRejected(reason) =>
           Server(Swap(s.stored, s.lock.advanced.(status := Suspended, suspendReason := reason), s.lock.snapshot.version), Free)
         case Save(approvalId, bug) =>
           Server(SaveAdvanced(s.stored, s.lock.snapshot, s.lock.result, WithApproval(s.lock.advanced, approvalId), bug), Free))
    case BeginSuspend(task) =>
      if s.lock == Free && s.stored.status == Waiting && s.stored.task == task
      then s.(lock := Suspending(task, s.stored)) else s
    case FinishSuspend(reason) =>
      if !s.lock.Suspending? then s
      else
        var snapshot := s.lock.snapshot;
        Server(Swap(s.stored, snapshot.(status := Suspended, suspendReason := reason, version := snapshot.version + 1),
                    snapshot.version), Free)
    case Dispatch(task, issue) =>
      if s.stored.status == Running
      then s.(stored := s.stored.(status := Waiting, task := task, issue := issue, version := s.stored.version + 1)) else s
    case OtherWrite(run) =>
      if run.version > s.stored.version && run.history == s.stored.history && ValidRun(run) then s.(stored := run) else s
    case Restart => s.(lock := Free)
  }

  function TakeAll(s: Server, steps: seq<Step>): Server {
    if steps == [] then s else Take(TakeAll(s, steps[..|steps| - 1]), steps[|steps| - 1])
  }

  // ---- Invariant ------------------------------------------------------------------

  /** Two entries record the same result of the same provider task. */
  predicate SameResult(a: Transition, b: Transition) {
    a.task != "" && a.task == b.task && a.from == b.from && a.agent == b.agent && a.outcome == b.outcome
  }

  predicate NoRepeats(history: seq<Transition>) {
    forall i, j | 0 <= i < j < |history| :: !SameResult(history[i], history[j])
  }

  /** A run read under the lock: the history cannot have moved since, and nothing else has while the
      version stands. */
  predicate ReadFrom(stored: Run, snapshot: Run) {
    && snapshot.history == stored.history && 1 <= snapshot.version <= stored.version
    && (snapshot.version == stored.version ==> snapshot == stored) && ValidRun(snapshot)
  }

  predicate Inv(s: Server) {
    && NoRepeats(s.stored.history) && s.stored.version >= 1 && ValidRun(s.stored)
    && match s.lock
       case Free => true
       case Advancing(snapshot, r, advanced) =>
         ReadFrom(s.stored, snapshot) && Reduce(snapshot, r) == Some(advanced)
       case Suspending(task, snapshot) =>
         ReadFrom(s.stored, snapshot) && snapshot.status == Waiting && snapshot.task == task
  }

  /** A new pipeline, before anything is delivered. */
  lemma NewRunInv(run: Run)
    requires run.history == [] && run.version == 1 && ValidRun(run)
    ensures Inv(Server(run, Free))
  {
  }

  /** An accepted delivery adds one entry, for this result, that was not there. */
  lemma ReduceAppends(run: Run, r: StepResult)
    requires Reduce(run, r).Some? && ValidRun(run)
    ensures var advanced := Reduce(run, r).value;
            && advanced.version == run.version + 1 && ValidRun(advanced)
            && r.stage == run.stage != 0 && !Blank(r.agent) && !AlreadyApplied(run, r)
            && advanced.history == run.history + [RecordOf(run, WithIssue(run, r), advanced.stage)]
  {
    hide Apply, Blank;
    ApplyShape(run, WithIssue(run, r));
    ApplyProgress(run, WithIssue(run, r));
  }

  lemma AppendedStaysUnique(run: Run, r: StepResult, t: Transition)
    requires NoRepeats(run.history) && !AlreadyApplied(run, r) && r.stage != 0 && !Blank(r.agent)
    requires t.from == r.stage && t.agent == r.agent && t.outcome == r.outcome && t.task == r.task
    ensures NoRepeats(run.history + [t])
  {
    hide Blank;
    forall i | 0 <= i < |run.history| ensures !SameResult(run.history[i], t) {
      assert !Matches(run.history[i], r);
    }
  }

  lemma ReduceUnique(run: Run, r: StepResult)
    requires Reduce(run, r).Some? && NoRepeats(run.history) && ValidRun(run)
    ensures NoRepeats(Reduce(run, r).value.history)
  {
    hide Apply, Blank, NoRepeats;
    ReduceAppends(run, r);
    AppendedStaysUnique(run, r, RecordOf(run, WithIssue(run, r), Reduce(run, r).value.stage));
  }

  // ---- Every step ------------------------------------------------------------------

  lemma SavedRun(stored: Run, snapshot: Run, r: StepResult, advanced: Run, approvalId: string, bug: string)
    requires ReadFrom(stored, snapshot)
    requires advanced.version == snapshot.version + 1 && ValidRun(advanced)
    ensures var after := SaveAdvanced(stored, snapshot, r, WithApproval(advanced, approvalId), bug);
            && after.version >= stored.version && ValidRun(after)
            && (after == stored || after.history == advanced.history)
            && (after != stored ==> after.version > stored.version)
            && (stored.version == snapshot.version ==> after.history == advanced.history && after.version > stored.version)
    requires ValidRun(stored)
  {
    hide ValidRun;
    LabelsOnly(advanced);
  }

  lemma LabelsOnly(run: Run)
    requires ValidRun(run)
    ensures forall approvalId: string, approvalStatus: string, version: int ::
              ValidRun(run.(approvalId := approvalId, approvalStatus := approvalStatus, version := version))
    ensures forall approvalId: string, approvalStatus: string, bugId: string, version: int ::
              ValidRun(run.(approvalId := approvalId, approvalStatus := approvalStatus, bugId := bugId, version := version))
    ensures forall bugId: string, version: int :: ValidRun(run.(bugId := bugId, version := version))
  {
  }

  /** One step keeps the invariant, and adds at most one entry to the history. */
  lemma TakeKeepsInv(s: Server, step: Step)
    requires Inv(s)
    ensures Inv(Take(s, step))
    ensures s.stored.history <= Take(s, step).stored.history
    ensures |Take(s, step).stored.history| <= |s.stored.history| + 1
    ensures Take(s, step).stored.history != s.stored.history ==> step.FinishAdvance?
  {
    hide Reduce, NoRepeats, SaveAdvanced, ValidRun;
    if step.FinishAdvance? && s.lock.Advancing? {
      var snapshot, r, advanced := s.lock.snapshot, s.lock.result, s.lock.advanced;
      ReduceAppends(snapshot, r);
      ReduceUnique(snapshot, r);
      if step.finish.Save? {
        SavedRun(s.stored, snapshot, r, advanced, step.finish.approvalId, step.finish.bug);
      } else {
        StatusOnly(advanced, Suspended);
      }
    } else {
      StatusOnly(s.stored, Suspended);
      StatusOnly(s.stored, Waiting);
    }
  }

  /** Validity does not depend on the fields a status change writes. */
  lemma StatusOnly(run: Run, status: Status)
    requires ValidRun(run)
    ensures forall reason: string, task: string, issue: string, version: int ::
              ValidRun(run.(status := status, suspendReason := reason, task := task, issue := issue, version := version))
  {
  }

  lemma {:induction false} TakeAllKeepsInv(s: Server, steps: seq<Step>)
    requires Inv(s)
    ensures Inv(TakeAll(s, steps)) && s.stored.history <= TakeAll(s, steps).stored.history
  {
    hide Inv, Take;
    if steps != [] {
      TakeAllKeepsInv(s, steps[..|steps| - 1]);
      TakeKeepsInv(TakeAll(s, steps[..|steps| - 1]), steps[|steps| - 1]);
    }
  }

  // ---- Theorems ----------------------------------------------------------------------

  /** Whatever is delivered, by whom and in whichever order, beside dispatches, suspensions, other
      writers and restarts: a result that carries a task id is on record at most once. */
  lemma ResultAppliedOnce(s: Server, steps: seq<Step>, r: StepResult, i: nat, j: nat)
    requires Inv(s) && r.task != ""
    requires var h := TakeAll(s, steps).stored.history; i < |h| && j < |h| && Matches(h[i], r) && Matches(h[j], r)
    ensures i == j
  {
    hide TakeAll, Reduce, ValidRun;
    TakeAllKeepsInv(s, steps);
    var h := TakeAll(s, steps).stored.history;
    assert SameResult(h[i], h[j]) && SameResult(h[j], h[i]);
  }

  /** The result agrees with `r` in all that identifies it, if it is for the same task. */
  predicate AgreesOn(r: StepResult, delivered: StepResult) {
    delivered.task == r.task ==> delivered.stage == r.stage && delivered.agent == r.agent && delivered.outcome == r.outcome
  }

  predicate RecordsAgree(history: seq<Transition>, r: StepResult) {
    forall i | 0 <= i < |history| ::
      history[i].task == r.task ==> history[i].from == r.stage && history[i].agent == r.agent && history[i].outcome == r.outcome
  }

  lemma TakeAgrees(s: Server, step: Step, r: StepResult)
    requires Inv(s) && RecordsAgree(s.stored.history, r) && (s.lock.Advancing? ==> AgreesOn(r, s.lock.result))
    requires step.BeginAdvance? ==> AgreesOn(r, step.result)
    ensures var t := Take(s, step);
            RecordsAgree(t.stored.history, r) && (t.lock.Advancing? ==> AgreesOn(r, t.lock.result))
  {
    hide Reduce, NoRepeats, SaveAdvanced, ValidRun, AgreesOn, RecordsAgree;
    TakeKeepsInv(s, step);
    if step.FinishAdvance? && s.lock.Advancing? {
      var snapshot, result, advanced := s.lock.snapshot, s.lock.result, s.lock.advanced;
      ReduceAppends(snapshot, result);
      RecordAgrees(snapshot, result, advanced.stage, r);
      if step.finish.Save? {
        SavedRun(s.stored, snapshot, result, advanced, step.finish.approvalId, step.finish.bug);
      }
    }
  }

  lemma RecordAgrees(run: Run, result: StepResult, to: int, r: StepResult)
    requires RecordsAgree(run.history, r) && AgreesOn(r, result) && result.stage == run.stage
    ensures RecordsAgree(run.history + [RecordOf(run, WithIssue(run, result), to)], r)
  {
  }

  lemma {:induction false} TakeAllAgrees(s: Server, steps: seq<Step>, r: StepResult)
    requires Inv(s) && RecordsAgree(s.stored.history, r) && (s.lock.Advancing? ==> AgreesOn(r, s.lock.result))
    requires forall k | 0 <= k < |steps| :: steps[k].BeginAdvance? ==> AgreesOn(r, steps[k].result)
    ensures var t := TakeAll(s, steps);
            RecordsAgree(t.stored.history, r) && (t.lock.Advancing? ==> AgreesOn(r, t.lock.result))
  {
    hide Inv, Take, RecordsAgree, AgreesOn;
    if steps != [] {
      TakeAllAgrees(s, steps[..|steps| - 1], r);
      TakeAllKeepsInv(s, steps[..|steps| - 1]);
      TakeAgrees(TakeAll(s, steps[..|steps| - 1]), steps[|steps| - 1], r);
    }
  }

  /** A task whose deliveries all agree in stage, agent and outcome is on record at most once, whatever else they
      carry and however often they come. */
  lemma TaskOnRecordOnce(s: Server, steps: seq<Step>, r: StepResult, i: nat, j: nat)
    requires Inv(s) && r.task != "" && (s.lock.Advancing? ==> AgreesOn(r, s.lock.result))
    requires forall k | 0 <= k < |s.stored.history| :: s.stored.history[k].task != r.task
    requires forall k | 0 <= k < |steps| :: steps[k].BeginAdvance? ==> AgreesOn(r, steps[k].result)
    requires var h := TakeAll(s, steps).stored.history; i < |h| && j < |h| && h[i].task == h[j].task == r.task
    ensures i == j
  {
    hide TakeAll, ValidRun, Reduce;
    TakeAllKeepsInv(s, steps);
    TakeAllAgrees(s, steps, r);
    var h := TakeAll(s, steps).stored.history;
    assert SameResult(h[i], h[j]) && SameResult(h[j], h[i]);
  }

  /** Once a result is on record, delivering it again at any later time changes nothing. */
  lemma RedeliveryChangesNothing(s: Server, steps: seq<Step>, r: StepResult)
    requires Inv(s) && AlreadyApplied(s.stored, r)
    ensures AlreadyApplied(TakeAll(s, steps).stored, r)
    ensures Take(TakeAll(s, steps), BeginAdvance(r)) == TakeAll(s, steps)
  {
    hide TakeAll, Inv, Blank, Matches;
    TakeAllKeepsInv(s, steps);
    var i :| 0 <= i < |s.stored.history| && Matches(s.stored.history[i], r);
    assert TakeAll(s, steps).stored.history[i] == s.stored.history[i];
  }

  /** A watcher for a task writes only over the run that is waiting on that task, and only its status. */
  lemma WatcherNeverOverwrites(s: Server, reason: string)
    requires Inv(s) && s.lock.Suspending? && Take(s, FinishSuspend(reason)).stored != s.stored
    ensures s.stored.status == Waiting && s.stored.task == s.lock.watched
    ensures Take(s, FinishSuspend(reason)).stored ==
            s.stored.(status := Suspended, suspendReason := reason, version := s.stored.version + 1)
  {
    hide Reduce, NoRepeats, ValidRun;
  }

  /** An undisturbed delivery advances the run exactly when the result is not on record, belongs to the
      active issue and the engine accepts it; then exactly this result is added. */
  lemma DeliveryAdvancesIff(s: Server, r: StepResult, approvalId: string, bug: string)
    requires Inv(s) && s.lock == Free
    ensures var after := Take(Take(s, BeginAdvance(r)), FinishAdvance(Save(approvalId, bug))).stored;
            var filled := WithIssue(s.stored, r);
            && (after != s.stored <==>
                !AlreadyApplied(s.stored, r) && (s.stored.issue == "" || filled.issue == s.stored.issue)
                && Apply(s.stored, filled).Ok?)
            && (after != s.stored ==>
                  exists to :: after.history == s.stored.history + [RecordOf(s.stored, filled, to)])
  {
    hide Apply, NoRepeats, AlreadyApplied, SaveAdvanced, ValidRun;
    if Reduce(s.stored, r).Some? {
      var advanced := Reduce(s.stored, r).value;
      ReduceAppends(s.stored, r);
      SavedRun(s.stored, s.stored, r, advanced, approvalId, bug);
    }
  }

  /** One task may still advance a run twice, by two results that differ in outcome: after a failed
      development the next attempt keeps stage, agent, session and issue, and the engine does not
      compare the task with the one that is active. */
  lemma TwoOutcomesAdvanceTwice(run: Run, failed: StepResult, passed: StepResult, newTask: string)
    requires ValidRun(run) && run.workflow == [] && run.stage == DEVELOPMENT && run.status == Waiting
    requires run.version >= 1
    requires NoRepeats(run.history) && !AlreadyApplied(run, failed) && !AlreadyApplied(run, passed)
    requires run.retryCount + 1 < run.maxRetries && run.issue != "" && failed.task == passed.task != ""
    requires failed.stage == passed.stage == DEVELOPMENT && failed.issue == passed.issue == run.issue
    requires failed.agent == passed.agent == AgentFor(run, DEVELOPMENT) && !Blank(failed.agent)
    requires failed.outcome == "fail" && passed.outcome == "pass" && !Blank(passed.codeVersion)
    requires !Blank(failed.session) && !Blank(failed.workDir)
    requires passed.session == failed.session && passed.workDir == failed.workDir
    requires run.parentSession == failed.session && run.workDir == failed.workDir && run.parentSession != ""
    ensures var s := Server(run, Free);
            var first := Take(Take(s, BeginAdvance(failed)), FinishAdvance(Save("", "")));
            var redispatched := Take(first, Dispatch(newTask, run.issue));
            var second := Take(Take(redispatched, BeginAdvance(passed)), FinishAdvance(Save("", "")));
            && |second.stored.history| == |run.history| + 2
            && second.stored.history[|run.history|].task == second.stored.history[|run.history| + 1].task == failed.task
  {
    hide AgentFor, Blank, Merge, AlreadyApplied, NoRepeats;
    var s := Server(run, Free);
    FailedOnce(run, failed);
    var first := Take(Take(s, BeginAdvance(failed)), FinishAdvance(Save("", "")));
    var redispatched := Take(first, Dispatch(newTask, run.issue));
    SameSteps(run, redispatched.stored);
    StillNew(run, redispatched.stored, failed, passed);
  }

  lemma FailedOnce(run: Run, failed: StepResult)
    requires run.workflow == [] && run.stage == DEVELOPMENT && run.status == Waiting && run.version >= 1
    requires !AlreadyApplied(run, failed) && run.retryCount + 1 < run.maxRetries && failed.issue == run.issue != ""
    requires failed.stage == DEVELOPMENT && failed.agent == AgentFor(run, DEVELOPMENT) && !Blank(failed.agent)
    requires failed.outcome == "fail" && !Blank(failed.session) && !Blank(failed.workDir)
    requires run.parentSession == failed.session && run.workDir == failed.workDir && run.parentSession != ""
    ensures Reduce(run, failed).Some?
    ensures var next := Reduce(run, failed).value;
            && next.status == Running && next.stage == DEVELOPMENT && next.version == run.version + 1
            && next.history == run.history + [RecordOf(run, failed, DEVELOPMENT)]
            && next.workflow == run.workflow && next.roles == run.roles && next.parentSession == run.parentSession
            && next.workDir == run.workDir && next.approvalId == run.approvalId
  {
    hide AgentFor, Blank, Merge, AlreadyApplied, HasStage;
  }

  lemma StillNew(run: Run, later: Run, failed: StepResult, passed: StepResult)
    requires !AlreadyApplied(run, passed) && failed.outcome != passed.outcome
    requires later.history == run.history + [RecordOf(run, failed, DEVELOPMENT)]
    ensures !AlreadyApplied(later, passed)
  {
    hide Blank;
  }
}
