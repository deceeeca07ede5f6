/** Progress, bounds and preserved evidence of the delivery engine, over every sequence of results. */
module PipelineEngineProofs {
  import opened Options
  import opened Text
  import opened PipelineStatus
  import opened PipelineEngine

  // ---- Workflow order -----------------------------------------------------------

  predicate StagesValid(steps: seq<WorkflowStep>) {
    forall i | 0 <= i < |steps| :: DESIGN <= steps[i].stage <= REPORT
  }

  predicate Sorted(steps: seq<WorkflowStep>) {
    forall i, j | 0 <= i < j < |steps| :: steps[i].stage <= steps[j].stage
  }

  predicate StagesDistinct(steps: seq<WorkflowStep>) {
    forall i, j | 0 <= i < j < |steps| :: steps[i].stage != steps[j].stage
  }

  /** What the store demands of every run it keeps. */
  predicate ValidRun(run: Run) {
    && DESIGN <= run.stage <= REPORT && run.maxRetries >= 1
    && StagesValid(run.workflow) && StagesDistinct(run.workflow)
    && (run.workflow != [] ==> exists i :: 0 <= i < |run.workflow| && run.workflow[i].stage == REPORT)
  }

  lemma {:induction false} InsertSorted(step: WorkflowStep, steps: seq<WorkflowStep>)
    requires Sorted(steps)
    ensures Sorted(InsertStep(step, steps))
  {
    if steps != [] && steps[|steps| - 1].stage > step.stage {
      var init := steps[..|steps| - 1];
      InsertSorted(step, init);
      var r := InsertStep(step, init);
      forall i | 0 <= i < |r| ensures r[i].stage <= steps[|steps| - 1].stage {
        assert r[i] in multiset(r);
        assert r[i] == step || r[i] in init;
      }
    }
  }

  lemma {:induction false} NormalizeSorted(steps: seq<WorkflowStep>)
    ensures Sorted(NormalizeWorkflow(steps))
  {
    if steps != [] {
      NormalizeSorted(steps[..|steps| - 1]);
      InsertSorted(steps[|steps| - 1], NormalizeWorkflow(steps[..|steps| - 1]));
    }
  }

  lemma MembersSame(steps: seq<WorkflowStep>, step: WorkflowStep)
    ensures step in NormalizeWorkflow(steps) <==> step in steps
  {
    assert step in NormalizeWorkflow(steps) <==> step in multiset(NormalizeWorkflow(steps));
  }

  lemma StepsFacts(run: Run)
    requires StagesValid(run.workflow)
    ensures Sorted(Steps(run)) && StagesValid(Steps(run))
    ensures run.workflow != [] ==> forall s :: s in Steps(run) <==> s in run.workflow
  {
    if run.workflow != [] {
      NormalizeSorted(run.workflow);
      forall s ensures s in Steps(run) <==> s in run.workflow {
        MembersSame(run.workflow, s);
      }
      forall i | 0 <= i < |Steps(run)| ensures DESIGN <= Steps(run)[i].stage <= REPORT {
        assert Steps(run)[i] in run.workflow;
      }
    }
  }

  lemma TwoInOrder(a: WorkflowStep, b: WorkflowStep)
    requires a.stage <= b.stage
    ensures NormalizeWorkflow([a, b]) == [a, b]
  {
    assert [a, b][..1] == [a] && [a][..0] == [];
    assert InsertStep(a, []) == [a] && InsertStep(b, [a]) == [a, b];
    assert NormalizeWorkflow([a]) == [a];
  }

  lemma FirstStep(run: Run)
    requires Steps(run) != []
    ensures StepFor(run, Steps(run)[0].stage) == Steps(run)[0]
  {
    hide Steps;
  }

  /** The selected successor is a later valid stage, or the stage itself. */
  lemma SuccessorLater(run: Run, stage: int)
    requires StagesValid(run.workflow)
    ensures var next := NextSelectedStage(run, stage); next == stage || (stage < next <= REPORT)
  {
    hide Steps, NormalizeWorkflow;
    StepsFacts(run);
  }

  // ---- Progress -----------------------------------------------------------------

  /** The order in which stages follow each other between two repairs. */
  function Rank(stage: int): int {
    if stage == REVALIDATION then 5 else if stage == ARBITRATION then 6 else stage
  }

  function Progress(run: Run): int {
    8 * (run.retryCount + run.unitRetryCount) + Rank(run.stage)
  }

  /** How the chosen stage relates to where the run was before its retries were counted. */
  ghost predicate StepsForward(before: Run, run: Run, r: StepResult, next: Next) {
    && DESIGN <= next.stage <= REPORT
    && (next.status == Running ==> Progress(run.(stage := next.stage)) > Progress(before))
    && (next.status == WaitingApproval ==> next.stage == run.stage == DESIGN && run == before)
    && (next.status == Completed ==> next.stage == run.stage == REPORT && r.outcome == "pass")
    && next.status != Waiting && next.status != Failed
  }

  lemma CustomStageForward(before: Run, r: StepResult)
    requires ValidRun(before) && (r.outcome == "pass" || r.outcome == "fail") && before.workflow != []
    requires NextCustomStage(CountRetries(before, r), r).Ok?
    ensures StepsForward(before, CountRetries(before, r), r, NextCustomStage(CountRetries(before, r), r).value)
  {
    hide StepFor, NextSelectedStage, Blank, RetryLimit;
    var run := CountRetries(before, r);
    SuccessorLater(run, run.stage);
    SameSteps(before, run);
  }

  lemma NextStageForward(before: Run, r: StepResult)
    requires ValidRun(before) && (r.outcome == "pass" || r.outcome == "fail")
    requires NextStage(CountRetries(before, r), r).Ok?
    ensures StepsForward(before, CountRetries(before, r), r, NextStage(CountRetries(before, r), r).value)
  {
    hide StepFor, NextCustomStage, Blank;
    if before.workflow != [] {
      CustomStageForward(before, r);
    }
  }

  lemma SameSteps(a: Run, b: Run)
    requires a.workflow == b.workflow && a.roles == b.roles
    ensures forall stage :: StepFor(a, stage) == StepFor(b, stage) && AgentFor(a, stage) == AgentFor(b, stage)
    ensures forall stage :: NextSelectedStage(a, stage) == NextSelectedStage(b, stage)
  {
    assert Steps(a) == Steps(b);
  }

  /** What an accepted result leaves alone and what it adds. */
  lemma ApplyShape(run: Run, r: StepResult)
    requires Apply(run, r).Ok?
    ensures var next := Apply(run, r).value;
            && !TerminalStatus(run.status) && r.stage == run.stage && !Blank(r.agent)
            && next.version == run.version + 1
            && next.history == run.history + [RecordOf(run, r, next.stage)]
            && next.workflow == run.workflow && next.roles == run.roles && next.maxRetries == run.maxRetries
            && next.needsApproval == run.needsApproval && next.approvalStatus == run.approvalStatus
            && next.approvalId == run.approvalId
  {
    hide NextStage, Merge, AgentFor, HasStage;
  }

  /** Every accepted result that leaves the run Running makes progress; none loses any. */
  lemma ApplyProgress(run: Run, r: StepResult)
    requires ValidRun(run) && Apply(run, r).Ok?
    ensures var next := Apply(run, r).value;
            && ValidRun(next)
            && (next.status == Running ==> Progress(next) > Progress(run))
            && (next.status == WaitingApproval ==>
                  next.stage == run.stage == DESIGN && Progress(next) == Progress(run))
            && (next.status == Completed ==> run.stage == REPORT && r.outcome == "pass")
            && next.status != Waiting && next.status != Failed
  {
    hide NextStage, Merge, AgentFor, StepFor, Blank;
    var merged := run.(context := Merge(run.context, r));
    var pinned := PinSession(merged, r).value;
    var counted := CountRetries(pinned, r);
    NextStageForward(pinned, r);
  }

  // ---- Bounded retries ------------------------------------------------------------

  function MaxLimit(steps: seq<WorkflowStep>, least: int): int {
    if steps == [] then least else Max(steps[0].retryLimit, MaxLimit(steps[1..], least))
  }

  /** The largest retry limit any stage of the run has. */
  function Limit(run: Run): int {
    MaxLimit(run.workflow, run.maxRetries)
  }

  lemma {:induction false} MaxLimitBounds(steps: seq<WorkflowStep>, least: int)
    ensures MaxLimit(steps, least) >= least && forall s | s in steps :: s.retryLimit <= MaxLimit(steps, least)
  {
    if steps != [] {
      MaxLimitBounds(steps[1..], least);
      assert forall s | s in steps :: s == steps[0] || s in steps[1..];
    }
  }

  lemma RetryLimitBounded(run: Run, stage: int)
    requires StagesValid(run.workflow)
    ensures RetryLimit(run, stage) <= Limit(run) && run.maxRetries <= Limit(run)
  {
    hide NormalizeWorkflow, MaxLimit;
    MaxLimitBounds(run.workflow, run.maxRetries);
    StepsFacts(run);
    var step := StepFor(run, stage);
    if step.retryLimit > 0 {
      if run.workflow != [] {
        assert step in Steps(run);
      } else {
        DefaultLimits(run.roles);
      }
    }
  }

  lemma DefaultLimits(r: Roles)
    ensures forall i | 0 <= i < |DefaultWorkflow(r)| :: DefaultWorkflow(r)[i].retryLimit == 0
  {
  }

  predicate Bounded(run: Run) {
    0 <= run.retryCount <= Limit(run) && 0 <= run.unitRetryCount <= Limit(run)
  }

  /** A run that is still going never exceeds its retry limits. */
  lemma ApplyBounded(run: Run, r: StepResult)
    requires ValidRun(run) && Bounded(run) && Apply(run, r).Ok?
    requires !TerminalStatus(Apply(run, r).value.status)
    ensures Bounded(Apply(run, r).value)
  {
    hide Merge, AgentFor, StepFor, Blank, RetryLimit, NextSelectedStage, MaxLimit;
    var merged := run.(context := Merge(run.context, r));
    var pinned := PinSession(merged, r).value;
    var counted := CountRetries(pinned, r);
    SameSteps(pinned, counted);
    RetryLimitBounded(counted, counted.stage);
    RetryLimitBounded(counted, DEVELOPMENT);
  }

  // ---- Whole runs -----------------------------------------------------------------

  datatype Event = Deliver(result: StepResult) | Approve | Reject(reason: string)

  /** One delivered result, or the decision on a design that waits for approval; anything else changes nothing. */
  function Advance(run: Run, e: Event): Run {
    match e
    case Deliver(r) => if Apply(run, r).Ok? then Apply(run, r).value else run
    case Approve =>
      if run.status != WaitingApproval then run
      else
        var stage := NextSelectedStage(run, DESIGN);
        run.(approvalStatus := "approved", stage := stage, status := Running, suspendReason := "",
             agent := AgentFor(run, stage), version := run.version + 1)
    case Reject(reason) =>
      if run.status != WaitingApproval then run
      else
        run.(approvalStatus := "rejected", status := Suspended, suspendReason := "design rejected: " + Trim(reason),
             version := run.version + 1)
  }

  lemma ApprovedLater(run: Run)
    requires ValidRun(run) && run.stage == DESIGN && HasStage(run, DESIGN)
    ensures DESIGN < NextSelectedStage(run, DESIGN) <= REPORT
  {
    if run.workflow == [] {
      assert Steps(run)[0].stage == DESIGN;
    } else {
      StepsFacts(run);
      SortedDistinct(run.workflow);
      var i := FindStep(Steps(run), DESIGN).value;
      var k :| 0 <= k < |run.workflow| && run.workflow[k].stage == REPORT;
      assert run.workflow[k] in Steps(run);
      var j :| 0 <= j < |Steps(run)| && Steps(run)[j] == run.workflow[k];
      assert i < j;
    }
  }

  lemma {:induction false} InsertDistinct(step: WorkflowStep, steps: seq<WorkflowStep>)
    requires StagesDistinct(steps) && forall s | s in steps :: s.stage != step.stage
    ensures StagesDistinct(InsertStep(step, steps))
  {
    if steps != [] && steps[|steps| - 1].stage > step.stage {
      var init := steps[..|steps| - 1];
      InsertDistinct(step, init);
      var r := InsertStep(step, init);
      forall i | 0 <= i < |r| ensures r[i].stage != steps[|steps| - 1].stage {
        assert r[i] in multiset(r);
        assert r[i] == step || r[i] in init;
      }
    }
  }

  lemma {:induction false} SortedDistinct(steps: seq<WorkflowStep>)
    requires StagesDistinct(steps)
    ensures StagesDistinct(NormalizeWorkflow(steps))
  {
    if steps != [] {
      var init := steps[..|steps| - 1];
      SortedDistinct(init);
      forall s | s in NormalizeWorkflow(init) ensures s.stage != steps[|steps| - 1].stage {
        MembersSame(init, s);
      }
      InsertDistinct(steps[|steps| - 1], NormalizeWorkflow(init));
    }
  }

  /** The current stage is one of the run's steps. */
  predicate OnStep(run: Run) {
    HasStage(run, run.stage)
  }

  lemma SuccessorOnStep(run: Run, stage: int)
    requires HasStage(run, stage)
    ensures HasStage(run, NextSelectedStage(run, stage))
  {
    hide Steps;
  }

  lemma DefaultHasStage(run: Run, stage: int)
    requires run.workflow == [] && DESIGN <= stage <= REPORT
    ensures HasStage(run, stage)
  {
    hide NormalizeWorkflow;
    assert DefaultWorkflow(run.roles)[stage - 1].stage == stage;
  }

  lemma ApplyOnStep(run: Run, r: StepResult)
    requires ValidRun(run) && OnStep(run) && Apply(run, r).Ok?
    ensures OnStep(Apply(run, r).value)
  {
    hide Merge, AgentFor, StepFor, Blank, RetryLimit, NextSelectedStage, StepsForward;
    var next := Apply(run, r).value;
    SameSteps(run, next);
    if run.workflow == [] {
      ApplyProgress(run, r);
      DefaultHasStage(run, next.stage);
    } else {
      var pinned := PinSession(run.(context := Merge(run.context, r)), r).value;
      var counted := CountRetries(pinned, r);
      SameSteps(run, counted);
      SuccessorOnStep(run, run.stage);
    }
  }

  ghost predicate Live(run: Run) {
    && ValidRun(run) && OnStep(run) && (!TerminalStatus(run.status) ==> Bounded(run))
    && (run.status == WaitingApproval ==> run.stage == DESIGN)
  }

  lemma AdvanceLive(run: Run, e: Event)
    requires Live(run)
    ensures TerminalStatus(Advance(run, e).status) || Progress(Advance(run, e)) >= Progress(run)
    ensures var next := Advance(run, e);
            && Live(next) && Limit(next) == Limit(run)
            && (next != run && next.status == Running ==> Progress(next) > Progress(run))
  {
    hide Apply, StepFor, NextSelectedStage, AgentFor, MaxLimit, ValidRun;
    match e
    case Deliver(r) =>
      if Apply(run, r).Ok? {
        ApplyShape(run, r);
        ApplyProgress(run, r);
        ApplyOnStep(run, r);
        if !TerminalStatus(Apply(run, r).value.status) {
          ApplyBounded(run, r);
        }
      }
    case Approve =>
      if run.status == WaitingApproval {
        ApprovedLater(run);
        SuccessorOnStep(run, DESIGN);
        SameSteps(run, Advance(run, e));
        ApprovedValid(run, Advance(run, e));
      }
    case Reject(_) =>
      SameSteps(run, Advance(run, e));
      ApprovedValid(run, Advance(run, e));
  }

  lemma ApprovedValid(run: Run, next: Run)
    requires ValidRun(run) && next.workflow == run.workflow && next.maxRetries == run.maxRetries
    requires next.stage == run.stage || DESIGN <= next.stage <= REPORT
    ensures ValidRun(next)
  {
  }

  /** What identifies a dispatch of the run: its stage and its total retry count. */
  datatype TurnKey = TurnKey(stage: int, retries: int)

  function KeyOf(run: Run): TurnKey {
    TurnKey(run.stage, run.retryCount + run.unitRetryCount)
  }

  function KeyProgress(k: TurnKey): int {
    8 * k.retries + Rank(k.stage)
  }

  /** The turn keys of the dispatches a sequence of events causes: one whenever the run becomes Running. */
  function Dispatches(run: Run, es: seq<Event>): seq<TurnKey>
    decreases |es|
  {
    if es == [] then []
    else
      var next := Advance(run, es[0]);
      (if next != run && next.status == Running then [KeyOf(next)] else []) + Dispatches(next, es[1..])
  }

  predicate Ascends(ks: seq<TurnKey>, low: int, high: int) {
    && (forall i | 0 <= i < |ks| :: low < KeyProgress(ks[i]) <= high)
    && (forall i, j | 0 <= i < j < |ks| :: KeyProgress(ks[i]) < KeyProgress(ks[j]))
  }

  lemma AscendsPrepend(k: TurnKey, rest: seq<TurnKey>, low: int, high: int)
    requires low < KeyProgress(k) <= high && Ascends(rest, KeyProgress(k), high)
    ensures Ascends([k] + rest, low, high)
  {
  }

  lemma AscendsNothing(low: int, high: int)
    ensures Ascends([], low, high)
  {
  }

  lemma AscendsFrom(ks: seq<TurnKey>, low: int, lower: int, high: int)
    requires Ascends(ks, low, high) && lower <= low
    ensures Ascends(ks, lower, high)
  {
  }

  lemma {:induction false} DispatchesAscend(run: Run, es: seq<Event>)
    requires Live(run)
    ensures Ascends(Dispatches(run, es), Progress(run), 16 * Limit(run) + 7)
    decreases |es|
  {
    hide Advance, Live, Limit, Rank, Ascends;
    assert Ascends([], Progress(run), 16 * Limit(run) + 7) by { AscendsNothing(Progress(run), 16 * Limit(run) + 7); }
    if es != [] {
      var next := Advance(run, es[0]);
      AdvanceLive(run, es[0]);
      DispatchesAscend(next, es[1..]);
      var rest := Dispatches(next, es[1..]);
      if TerminalStatus(next.status) {
        TerminalStops(next, es[1..]);
        assert Dispatches(run, es) == [];
      } else if next != run && next.status == Running {
        LiveProgress(next);
        AscendsPrepend(KeyOf(next), rest, Progress(run), 16 * Limit(run) + 7);
      } else {
        assert Dispatches(run, es) == rest;
        AscendsFrom(rest, Progress(next), Progress(run), 16 * Limit(run) + 7);
      }
    }
  }

  lemma LiveProgress(run: Run)
    requires Live(run) && !TerminalStatus(run.status)
    ensures Progress(run) <= 16 * Limit(run) + 7
  {
    hide HasStage, Limit;
  }

  lemma {:induction false} TerminalStops(run: Run, es: seq<Event>)
    requires TerminalStatus(run.status)
    ensures Dispatches(run, es) == []
    decreases |es|
  {
    hide AgentFor, NextStage, Merge, NextSelectedStage;
    if es != [] {
      assert Advance(run, es[0]) == run;
      TerminalStops(run, es[1..]);
    }
  }

  lemma {:induction false} AscendingCount(ks: seq<TurnKey>, low: int, high: int)
    requires Ascends(ks, low, high)
    ensures |ks| <= if high < low then 0 else high - low
    decreases |ks|
  {
    if ks != [] {
      AscendingCount(ks[1..], KeyProgress(ks[0]), high);
    }
  }

  /** Whatever results and approvals arrive, a run is dispatched a bounded number of times, and no two
      dispatches share a turn key: the idempotency key of a new stage never meets an old one. */
  lemma DispatchesBoundedAndFresh(run: Run, es: seq<Event>)
    requires Live(run) && run.retryCount >= 0 && run.unitRetryCount >= 0
    ensures var ks := Dispatches(run, es);
            && |ks| <= 16 * Max(0, Limit(run)) + 7
            && forall i, j | 0 <= i < j < |ks| :: ks[i] != ks[j]
  {
    hide Limit, Dispatches, HasStage;
    DispatchesAscend(run, es);
    AscendingCount(Dispatches(run, es), Progress(run), 16 * Limit(run) + 7);
  }

  // ---- Evidence --------------------------------------------------------------------

  /** Failure evidence, notes and tests are only added to; the baseline and the session, once set, stay. */
  predicate Preserves(before: Run, after: Run) {
    && before.context.errorLogs <= after.context.errorLogs && before.context.repairNotes <= after.context.repairNotes
    && before.context.passedTests <= after.context.passedTests && before.context.failedTests <= after.context.failedTests
    && (before.context.baselineCommit != "" ==> after.context.baselineCommit == before.context.baselineCommit)
    && (before.parentSession != "" ==> after.parentSession == before.parentSession && after.workDir == before.workDir)
    && before.history <= after.history
  }

  lemma {:induction false} UniqueGrows(existing: seq<string>, values: seq<string>)
    ensures existing <= AppendUnique(existing, values)
    decreases |values|
  {
    if values != [] {
      var item := Trim(values[0]);
      UniqueGrows(if item == "" || item in existing then existing else existing + [item], values[1..]);
    }
  }

  lemma AdvancePreserves(run: Run, e: Event)
    ensures Preserves(run, Advance(run, e))
  {
    hide AgentFor, NextStage, NextSelectedStage, AppendUnique, HasStage, Blank;
    if e.Deliver? {
      UniqueGrows(run.context.passedTests, e.result.passedTests);
      UniqueGrows(run.context.failedTests, e.result.failedTests);
    }
  }

  function AdvanceAll(run: Run, es: seq<Event>): Run {
    if es == [] then run else Advance(AdvanceAll(run, es[..|es| - 1]), es[|es| - 1])
  }

  /** Evidence survives every sequence of results and approvals. */
  lemma {:induction false} EvidenceKept(run: Run, es: seq<Event>)
    ensures Preserves(run, AdvanceAll(run, es))
  {
    hide Advance;
    if es != [] {
      EvidenceKept(run, es[..|es| - 1]);
      AdvancePreserves(AdvanceAll(run, es[..|es| - 1]), es[|es| - 1]);
    }
  }
}
