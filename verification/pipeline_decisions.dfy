/** What the engine decides, stated on the fields of a run: routes, counters, approvals and evidence. */
module PipelineDecisions {
  import opened Options
  import opened Text
  import opened PipelineStatus
  import opened PipelineEngine
  import opened PipelineEngineProofs

  // ---- The selected stages ------------------------------------------------------------------------------

  /** `next` is the first selected stage after `stage`. */
  predicate FirstAfter(run: Run, stage: int, next: int) {
    stage < next <= REPORT && HasStage(run, next) && forall s | stage < s < next :: !HasStage(run, s)
  }

  lemma SelectedAt(run: Run, i: nat)
    requires StagesValid(Steps(run)) && i < |Steps(run)|
    ensures HasStage(run, Steps(run)[i].stage)
  {
    hide Steps;
  }

  /** The successor of a selected stage is the first selected one after it; only without one it stays. */
  lemma SuccessorIsNext(run: Run, stage: int)
    requires StagesValid(run.workflow) && StagesDistinct(run.workflow) && stage >= DESIGN && HasStage(run, stage)
    ensures var next := NextSelectedStage(run, stage);
            FirstAfter(run, stage, next) || (next == stage && forall s | s > stage :: !HasStage(run, s))
  {
    hide NormalizeWorkflow, Steps;
    StepsFacts(run);
    AllDistinct(run);
    var steps := Steps(run);
    var i := FindStep(steps, stage).value;
    if i + 1 < |steps| {
      SelectedAt(run, i + 1);
    }
    forall s | s > stage && HasStage(run, s) ensures i + 1 < |steps| && steps[i + 1].stage <= s {
      var j := FindStep(steps, s).value;
      assert i < j;
    }
  }

  lemma AllDistinct(run: Run)
    requires StagesDistinct(run.workflow)
    ensures StagesDistinct(Steps(run))
  {
    if run.workflow != [] {
      SortedDistinct(run.workflow);
    }
  }

  // ---- Routes ----------------------------------------------------------------------------------------------

  /** The limit of a selected stage is its step's own, if that sets one, or the run's. */
  lemma LimitMeans(run: Run, stage: int)
    requires stage >= DESIGN && HasStage(run, stage)
    ensures exists step :: step in Steps(run) && step.stage == stage &&
              RetryLimit(run, stage) == if step.retryLimit >= 1 then step.retryLimit else run.maxRetries
  {
    hide Steps;
    assert StepFor(run, stage) in Steps(run);
  }

  predicate Stays(run: Run, next: Run, status: Status) {
    next.stage == run.stage && next.status == status
  }

  predicate GoesTo(next: Run, stage: int) {
    next.stage == stage && next.status == Running
  }

  /** A unit test passes only with the coverage the run asks for. */
  predicate Succeeds(run: Run, r: StepResult) {
    r.outcome == "pass" && (run.stage == UNIT_TEST ==> r.coverage >= run.coverageThreshold)
  }

  predicate CountsRepair(run: Run, r: StepResult) {
    || (run.stage == DEVELOPMENT && r.outcome == "fail") || (run.stage == ARBITRATION && r.outcome == "pass")
    || (run.stage == INTEGRATION && r.outcome == "fail" && run.workflow != [] && !HasStage(run, ARBITRATION))
  }

  predicate Counts(run: Run, r: StepResult, next: Run) {
    && next.retryCount == run.retryCount + (if CountsRepair(run, r) then 1 else 0)
    && next.unitRetryCount == run.unitRetryCount + (if run.stage == UNIT_TEST && !Succeeds(run, r) then 1 else 0)
  }

  /** Where a result that did not succeed leads. */
  predicate FailureRoute(run: Run, next: Run) {
    if run.stage == DEVELOPMENT then
      if next.retryCount >= RetryLimit(run, DEVELOPMENT) then Stays(run, next, Suspended) else GoesTo(next, DEVELOPMENT)
    else if run.stage == UNIT_TEST then
      if next.unitRetryCount >= RetryLimit(run, UNIT_TEST) then Stays(run, next, Suspended) else GoesTo(next, UNIT_TEST)
    else if (run.stage == INTEGRATION || run.stage == REVALIDATION) && HasStage(run, ARBITRATION) then GoesTo(next, ARBITRATION)
    else if run.stage == INTEGRATION && HasStage(run, DEVELOPMENT) && next.retryCount < RetryLimit(run, DEVELOPMENT) then
      GoesTo(next, DEVELOPMENT)
    else Stays(run, next, Suspended)
  }

  /** Where a result that succeeded leads. */
  ghost predicate SuccessRoute(run: Run, next: Run) {
    if run.stage == REPORT then Stays(run, next, Completed)
    else if run.stage == DESIGN && run.needsApproval && run.approvalStatus != "approved" then Stays(run, next, WaitingApproval)
    else if run.stage == ARBITRATION && next.retryCount > RetryLimit(run, ARBITRATION) then Stays(run, next, Suspended)
    else if run.stage == ARBITRATION && HasStage(run, DEVELOPMENT) then GoesTo(next, DEVELOPMENT)
    else if run.stage == INTEGRATION && run.workflow == [] then GoesTo(next, if run.retryCount > 0 then REVALIDATION else REPORT)
    else if exists later :: FirstAfter(run, run.stage, later) then next.status == Running && FirstAfter(run, run.stage, next.stage)
    else Stays(run, next, Suspended)
  }

  lemma CustomCounts(before: Run, r: StepResult)
    requires r.outcome == "pass" || r.outcome == "fail"
    ensures Counts(before, r, CountRetries(before, r))
  {
    hide HasStage;
  }

  lemma CustomSucceeds(before: Run, r: StepResult)
    requires ValidRun(before) && OnStep(before) && Succeeds(before, r) && before.workflow != []
    requires NextCustomStage(CountRetries(before, r), r).Ok?
    ensures var run := CountRetries(before, r);
            var n := NextCustomStage(run, r).value;
            SuccessRoute(before, run.(stage := n.stage, status := n.status))
  {
    hide StepFor, NextSelectedStage, Blank, RetryLimit, FirstAfter;
    var run := CountRetries(before, r);
    SameSteps(before, run);
    LimitsSame(before, run);
    SuccessorIsNext(before, before.stage);
    OnlySelf(before, before.stage);
  }

  lemma CustomFails(before: Run, r: StepResult)
    requires ValidRun(before) && !Succeeds(before, r) && (r.outcome == "pass" || r.outcome == "fail")
    requires before.workflow != []
    requires NextCustomStage(CountRetries(before, r), r).Ok?
    ensures var run := CountRetries(before, r);
            var n := NextCustomStage(run, r).value;
            FailureRoute(before, run.(stage := n.stage, status := n.status))
  {
    hide StepFor, NextSelectedStage, Blank, RetryLimit;
    var run := CountRetries(before, r);
    SameSteps(before, run);
    LimitsSame(before, run);
  }

  lemma OnlySelf(run: Run, stage: int)
    ensures (forall s | s > stage :: !HasStage(run, s)) ==> !exists later :: FirstAfter(run, stage, later)
    ensures forall later | FirstAfter(run, stage, later) :: later > stage
  {
    hide HasStage;
  }

  lemma LimitsSame(a: Run, b: Run)
    requires a.workflow == b.workflow && a.roles == b.roles && a.maxRetries == b.maxRetries
    ensures forall stage :: RetryLimit(a, stage) == RetryLimit(b, stage)
  {
    assert Steps(a) == Steps(b);
  }

  lemma StandardSelects(run: Run, stage: int)
    requires run.workflow == [] && DESIGN <= stage < REPORT
    ensures HasStage(run, ARBITRATION) && HasStage(run, DEVELOPMENT) && FirstAfter(run, stage, stage + 1)
    ensures RetryLimit(run, stage) == run.maxRetries
  {
    hide StepFor;
    DefaultHasStage(run, ARBITRATION);
    DefaultHasStage(run, DEVELOPMENT);
    DefaultHasStage(run, stage + 1);
    StandardLimit(run, stage);
  }

  lemma StandardLimit(run: Run, stage: int)
    requires run.workflow == []
    ensures StepFor(run, stage).retryLimit == 0
  {
    DefaultLimits(run.roles);
  }

  lemma StandardDecides(before: Run, r: StepResult)
    requires ValidRun(before) && (r.outcome == "pass" || r.outcome == "fail") && before.workflow == []
    requires NextStage(CountRetries(before, r), r).Ok?
    ensures var run := CountRetries(before, r);
            var n := NextStage(run, r).value;
            var next := run.(stage := n.stage, status := n.status);
            if Succeeds(before, r) then SuccessRoute(before, next) else FailureRoute(before, next)
  {
    hide HasStage, RetryLimit, NextCustomStage, Blank, FirstAfter;
    if before.stage < REPORT {
      StandardSelects(before, before.stage);
    }
  }

  /** The run as it is when its next stage is chosen. */
  lemma Counted(run: Run, r: StepResult) returns (before: Run, n: Next)
    requires Apply(run, r).Ok?
    ensures var counted, next := CountRetries(before, r), Apply(run, r).value;
            && (r.outcome == "pass" || r.outcome == "fail") && NextStage(counted, r) == Ok(n)
            && next.stage == n.stage && next.status == n.status
            && next.retryCount == counted.retryCount && next.unitRetryCount == counted.unitRetryCount
    ensures before == run.(context := before.context, parentSession := before.parentSession, workDir := before.workDir)
  {
    hide NextStage, Merge, AgentFor, HasStage, Blank;
    before := PinSession(run.(context := Merge(run.context, r)), r).value;
    n := NextStage(CountRetries(before, r), r).value;
  }

  /** Routes and counters do not depend on the evidence. */
  lemma RoutesSame(a: Run, b: Run, r: StepResult, an: Run, bn: Run)
    requires b == a.(context := b.context, parentSession := b.parentSession, workDir := b.workDir)
    requires an.stage == bn.stage && an.status == bn.status
    requires an.retryCount == bn.retryCount && an.unitRetryCount == bn.unitRetryCount
    ensures Counts(a, r, an) == Counts(b, r, bn) && Succeeds(a, r) == Succeeds(b, r)
    ensures SuccessRoute(a, an) == SuccessRoute(b, bn) && FailureRoute(a, an) == FailureRoute(b, bn)
  {
    hide StepFor, RetryLimit, FirstAfter;
    SameSteps(a, b);
    LimitsSame(a, b);
    SameFirst(a, b);
    assert forall stage :: HasStage(a, stage) == HasStage(b, stage);
  }

  /** Where every accepted result leads and what it counts. A result that succeeds leads to the next selected stage,
      but for approvals, repairs and the end; one that does not leads back, to arbitration, or suspends the run. */
  lemma ApplyDecides(run: Run, r: StepResult)
    requires Live(run) && Apply(run, r).Ok?
    ensures var next := Apply(run, r).value;
            Counts(run, r, next) && if Succeeds(run, r) then SuccessRoute(run, next) else FailureRoute(run, next)
  {
    hide Apply, NextStage, NextCustomStage, Counts, SuccessRoute, FailureRoute, Succeeds, StepFor, CountRetries, Bounded;
    var before, n := Counted(run, r);
    var counted := CountRetries(before, r);
    var chosen := counted.(stage := n.stage, status := n.status);
    RoutesSame(run, before, r, Apply(run, r).value, chosen);
    SameSteps(run, before);
    CustomCounts(before, r);
    CountsSame(before, r, counted, chosen);
    KeepsWorkflow(before, r);
    if run.workflow == [] {
      StandardDecides(before, r);
    } else {
      ByWorkflow(counted, r);
      if Succeeds(before, r) {
        CustomSucceeds(before, r);
      } else {
        CustomFails(before, r);
      }
    }
  }

  lemma CountsSame(run: Run, r: StepResult, a: Run, b: Run)
    requires a.retryCount == b.retryCount && a.unitRetryCount == b.unitRetryCount
    ensures Counts(run, r, a) == Counts(run, r, b)
  {
    hide CountsRepair, Succeeds;
  }

  lemma KeepsWorkflow(run: Run, r: StepResult)
    ensures CountRetries(run, r).workflow == run.workflow
  {
    hide HasStage;
  }

  lemma ByWorkflow(run: Run, r: StepResult)
    requires run.workflow != []
    ensures NextStage(run, r) == NextCustomStage(run, r)
  {
    hide NextCustomStage;
  }

  lemma SameFirst(a: Run, b: Run)
    requires forall stage :: StepFor(a, stage) == StepFor(b, stage)
    ensures forall stage, next :: FirstAfter(a, stage, next) == FirstAfter(b, stage, next)
  {
    hide StepFor;
    assert forall stage :: HasStage(a, stage) == HasStage(b, stage);
  }

  // ---- Approval ---------------------------------------------------------------------------------------------

  predicate HoldsForApproval(run: Run) {
    run.needsApproval && run.approvalStatus != "approved" && run.stage == DESIGN
  }

  lemma {:induction false} ApprovalGate(run: Run, es: seq<Event>)
    requires Live(run) && HoldsForApproval(run) && forall i | 0 <= i < |es| :: !es[i].Approve?
    ensures HoldsForApproval(AdvanceAll(run, es)) && Live(AdvanceAll(run, es))
  {
    hide Advance, Live;
    if es != [] {
      ApprovalGate(run, es[..|es| - 1]);
      var before := AdvanceAll(run, es[..|es| - 1]);
      AdvanceLive(before, es[|es| - 1]);
      GateStays(before, es[|es| - 1]);
    }
  }

  lemma GateStays(run: Run, e: Event)
    requires Live(run) && HoldsForApproval(run) && !e.Approve?
    ensures HoldsForApproval(Advance(run, e))
  {
    hide Apply, Live, AgentFor, NextSelectedStage, HasStage, RetryLimit, FirstAfter;
    if e.Deliver? && Apply(run, e.result).Ok? {
      ApplyShape(run, e.result);
      ApplyDecides(run, e.result);
    }
    assert "rejected"[0] == 'r' && "approved"[0] == 'a';
  }

  lemma {:induction false} NoApprovalNoWait(run: Run, es: seq<Event>)
    requires Live(run) && !run.needsApproval && run.status != WaitingApproval
    ensures var after := AdvanceAll(run, es); Live(after) && !after.needsApproval && after.status != WaitingApproval
  {
    hide Advance, Live;
    if es != [] {
      NoApprovalNoWait(run, es[..|es| - 1]);
      var before := AdvanceAll(run, es[..|es| - 1]);
      AdvanceLive(before, es[|es| - 1]);
      NoWaitStays(before, es[|es| - 1]);
    }
  }

  lemma NoWaitStays(run: Run, e: Event)
    requires Live(run) && !run.needsApproval && run.status != WaitingApproval
    ensures !Advance(run, e).needsApproval && Advance(run, e).status != WaitingApproval
  {
    hide Apply, Live, AgentFor, NextSelectedStage, HasStage, RetryLimit, FirstAfter;
    if e.Deliver? && Apply(run, e.result).Ok? {
      ApplyShape(run, e.result);
      ApplyDecides(run, e.result);
    }
  }

  /** A design that is to be approved is never left without an approval, whatever arrives; and a run that needs none
      never waits for one, but goes on to its first later stage with a passed design. */
  lemma DesignApproval(run: Run, es: seq<Event>, r: StepResult)
    requires Live(run) && run.stage == DESIGN
    ensures run.needsApproval && run.approvalStatus != "approved" && (forall i | 0 <= i < |es| :: !es[i].Approve?) ==>
              AdvanceAll(run, es).stage == DESIGN
    ensures !run.needsApproval && run.status != WaitingApproval ==> AdvanceAll(run, es).status != WaitingApproval
    ensures !run.needsApproval && Apply(run, r).Ok? && r.outcome == "pass" ==>
              Apply(run, r).value.status == Running && FirstAfter(run, DESIGN, Apply(run, r).value.stage)
  {
    hide Apply, AdvanceAll, Live, FirstAfter, HasStage;
    if HoldsForApproval(run) && (forall i | 0 <= i < |es| :: !es[i].Approve?) {
      ApprovalGate(run, es);
    }
    if !run.needsApproval && run.status != WaitingApproval {
      NoApprovalNoWait(run, es);
    }
    if Apply(run, r).Ok? {
      ApplyDecides(run, r);
      LaterThanDesign(run);
    }
  }

  lemma LaterThanDesign(run: Run)
    requires Live(run) && run.stage == DESIGN
    ensures exists later :: FirstAfter(run, DESIGN, later)
  {
    hide StepFor, NextSelectedStage;
    ApprovedLater(run);
    SuccessorIsNext(run, DESIGN);
    assert FirstAfter(run, DESIGN, NextSelectedStage(run, DESIGN));
  }

  /** An approval is taken only while the run waits for one, and leads to the first selected stage after design; a
      rejection suspends the run where it is. */
  lemma DecisionTaken(run: Run, reason: string)
    requires Live(run)
    ensures var yes, no := Advance(run, Approve), Advance(run, Reject(reason));
            if run.status == WaitingApproval then
              && FirstAfter(run, DESIGN, yes.stage)
              && yes == run.(status := Running, stage := yes.stage, approvalStatus := "approved", suspendReason := "",
                             agent := AgentFor(run, yes.stage), version := run.version + 1)
              && no == run.(status := Suspended, approvalStatus := "rejected",
                            suspendReason := "design rejected: " + Trim(reason), version := run.version + 1)
            else yes == run && no == run
  {
    hide AgentFor, StepFor, NextSelectedStage, FirstAfter;
    if run.status == WaitingApproval {
      ApprovedLater(run);
      SuccessorIsNext(run, DESIGN);
    }
  }

  // ---- Which results are accepted -------------------------------------------------------------------------------

  /** The evidence a passed stage has to bring. */
  predicate Evidenced(run: Run, r: StepResult) {
    r.outcome == "pass" ==>
      && (run.stage == DESIGN ==> !Blank(r.designDoc)) && (run.stage == DEVELOPMENT ==> !Blank(r.codeVersion))
      && (run.stage == REPORT ==> !Blank(r.report))
  }

  /** Development names its session and worktree, and from the second result on the ones of the first. */
  predicate Continues(run: Run, r: StepResult) {
    run.stage == DEVELOPMENT ==>
      && !Blank(r.session) && !Blank(r.workDir)
      && (run.parentSession != "" ==> r.session == run.parentSession && r.workDir == run.workDir)
  }

  lemma NextIff(run: Run, r: StepResult)
    requires DESIGN <= run.stage <= REPORT && (r.outcome == "pass" || r.outcome == "fail")
    ensures NextStage(run, r).Ok? <==> Evidenced(run, r)
  {
    hide HasStage, NextSelectedStage, RetryLimit, Blank, AwaitsApproval;
  }

  lemma PinIff(run: Run, r: StepResult)
    ensures PinSession(run, r).Ok? <==> Continues(run, r)
    ensures PinSession(run, r).Ok? ==>
              && PinSession(run, r).value.parentSession == (if run.stage == DEVELOPMENT then r.session else run.parentSession)
              && PinSession(run, r).value.workDir == (if run.stage == DEVELOPMENT then r.workDir else run.workDir)
  {
    hide Blank;
  }

  /** A result is accepted if and only if the run is still going, it is for the current stage, from the agent in
      charge, with a known outcome, in the pinned session, and with the evidence the stage asks for. */
  lemma AcceptedIff(run: Run, r: StepResult)
    requires ValidRun(run)
    ensures Apply(run, r).Ok? <==>
            && run.status != Completed && run.status != Suspended && run.status != Failed
            && r.stage == run.stage && !Blank(r.agent) && r.agent == AgentFor(run, run.stage)
            && (r.outcome == "pass" || r.outcome == "fail") && Continues(run, r) && Evidenced(run, r)
  {
    hide NextStage, Merge, AgentFor, Blank, HasStage, Continues, Evidenced;
    var merged := run.(context := Merge(run.context, r));
    PinIff(merged, r);
    ContinuesSame(run, merged, r);
    if Accept(run, r).None? && PinSession(merged, r).Ok? {
      var pinned := PinSession(merged, r).value;
      NextIff(CountRetries(pinned, r), r);
      EvidencedSame(run, CountRetries(pinned, r), r);
    }
  }

  lemma ContinuesSame(a: Run, b: Run, r: StepResult)
    requires a.stage == b.stage && a.parentSession == b.parentSession && a.workDir == b.workDir
    ensures Continues(a, r) == Continues(b, r)
  {
    hide Blank;
  }

  lemma EvidencedSame(a: Run, b: Run, r: StepResult)
    requires a.stage == b.stage
    ensures Evidenced(a, r) == Evidenced(b, r)
  {
    hide Blank;
  }

  /** Who is in charge of a stage: the agent its step names, and in the standard workflow the holder of the role. */
  lemma AgentInCharge(run: Run, stage: int)
    requires DESIGN <= stage <= REPORT && HasStage(run, stage)
    ensures exists step :: step in Steps(run) && step.stage == stage && (step.agent != "" ==> AgentFor(run, stage) == step.agent)
    ensures run.workflow == [] ==>
              AgentFor(run, stage) == (match stage
                                       case 1 => run.roles.designer
                                       case 2 => run.roles.developer
                                       case 5 => run.roles.arbitrator
                                       case _ => run.roles.tester)
  {
    assert StepFor(run, stage) in Steps(run);
    if run.workflow == [] {
      StandardStep(run, stage);
    }
  }

  lemma StandardStep(run: Run, stage: int)
    requires run.workflow == [] && DESIGN <= stage <= REPORT
    ensures StepFor(run, stage) == DefaultWorkflow(run.roles)[stage - 1]
  {
    var steps := DefaultWorkflow(run.roles);
    FirstWith(steps, stage, stage - 1);
  }

  lemma FirstWith(steps: seq<WorkflowStep>, stage: int, i: nat)
    requires i < |steps| && steps[i].stage == stage && StagesDistinct(steps)
    ensures FindStep(steps, stage) == Some(i)
  {
  }

  // ---- What is recorded ----------------------------------------------------------------------------------------------

  lemma {:induction false} UniqueMembers(existing: seq<string>, values: seq<string>, t: string)
    ensures t in AppendUnique(existing, values) <==>
            t in existing || (t != "" && exists i :: 0 <= i < |values| && Trim(values[i]) == t)
    decreases |values|
  {
    hide Trim;
    if values != [] {
      var item := Trim(values[0]);
      UniqueMembers(if item == "" || item in existing then existing else existing + [item], values[1..], t);
      if i :| 0 <= i < |values[1..]| && Trim(values[1..][i]) == t {
        assert Trim(values[i + 1]) == t;
      }
      if i :| 0 <= i < |values| && Trim(values[i]) == t {
        assert i > 0 ==> Trim(values[1..][i - 1]) == t;
      }
    }
  }

  /** The newest value, unless the result brings none. */
  predicate Newest(after: string, before: string, given: string) {
    if given == "" then after == before else after == given
  }

  predicate Appended(after: seq<string>, before: seq<string>, note: string) {
    after == if Blank(note) then before else before + [note]
  }

  /** What an accepted result leaves on record: the newest document, commit and coverage, the first commit for good,
      the tests it names, its notes, and itself as the next numbered entry of the history. */
  lemma ApplyRecords(run: Run, r: StepResult, test: string)
    requires ValidRun(run) && Apply(run, r).Ok?
    ensures var next := Apply(run, r).value;
            var was, now := run.context, next.context;
            && Newest(now.designDoc, was.designDoc, r.designDoc) && Newest(now.currentCommit, was.currentCommit, r.codeVersion)
            && now.baselineCommit == (if was.baselineCommit != "" then was.baselineCommit else r.codeVersion)
            && now.coverage == (if r.coverage > 0.0 then r.coverage else was.coverage)
            && Appended(now.errorLogs, was.errorLogs, r.errorLog) && Appended(now.repairNotes, was.repairNotes, r.repairNote)
            && (test in now.passedTests <==>
                test in was.passedTests || (test != "" && exists i :: 0 <= i < |r.passedTests| && Trim(r.passedTests[i]) == test))
            && (test in now.failedTests <==>
                test in was.failedTests || (test != "" && exists i :: 0 <= i < |r.failedTests| && Trim(r.failedTests[i]) == test))
    ensures var next := Apply(run, r).value;
            && |next.history| == |run.history| + 1 && next.history[..|run.history|] == run.history
            && var entry := next.history[|run.history|];
               && entry.sequence == |run.history| + 1 && entry.from == run.stage && entry.to == next.stage
               && entry.outcome == r.outcome && entry.agent == r.agent && entry.issue == r.issue && entry.task == r.task
               && entry.session == r.session && entry.workDir == r.workDir && entry.summary == r.summary
    ensures var next := Apply(run, r).value;
            && next.version == run.version + 1 && next.issue == r.issue
            && (next.status == Completed ==> next.finalReport == r.report && next.task == "" && next.agent == "")
            && (next.status != Completed ==> next.task == r.task && next.agent == AgentFor(run, next.stage))
            && (next.status != Completed ==>
                  next.finalReport == if next.stage == REPORT && r.report != "" then r.report else run.finalReport)
            && (run.stage == DEVELOPMENT ==> next.parentSession == r.session && next.workDir == r.workDir)
            && (run.stage != DEVELOPMENT ==> next.parentSession == run.parentSession && next.workDir == run.workDir)
            && (next.status == Suspended || next.status == WaitingApproval <==> next.suspendReason != "")
  {
    hide NextStage, AgentFor, Blank, AppendUnique, HasStage, Trim;
    UniqueMembers(run.context.passedTests, r.passedTests, test);
    UniqueMembers(run.context.failedTests, r.failedTests, test);
    var merged := run.(context := Merge(run.context, r));
    PinIff(merged, r);
    var counted := CountRetries(PinSession(merged, r).value, r);
    SameSteps(run, counted);
    ReasonGiven(counted, r);
  }

  /** A run stops with a reason, and only then. */
  lemma ReasonGiven(run: Run, r: StepResult)
    requires NextStage(run, r).Ok?
    ensures var n := NextStage(run, r).value; n.reason != "" <==> n.status == Suspended || n.status == WaitingApproval
  {
    hide HasStage, NextSelectedStage, RetryLimit, Blank, AwaitsApproval;
  }
}
