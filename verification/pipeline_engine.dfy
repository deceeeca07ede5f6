/** Pipeline statuses, shared by the engine and the dispatcher. */
module PipelineStatus {
  datatype Status = Running | Waiting | WaitingApproval | Suspended | Completed | Failed
}

/** The seven-stage delivery engine: one result moves a run along one edge. */
module PipelineEngine {
  import opened Options
  import opened Text
  import opened PipelineStatus

  const DESIGN := 1
  const DEVELOPMENT := 2
  const UNIT_TEST := 3
  const INTEGRATION := 4
  const ARBITRATION := 5
  const REVALIDATION := 6
  const REPORT := 7

  datatype Roles = Roles(designer: string, developer: string, tester: string, arbitrator: string)
  datatype WorkflowStep = WorkflowStep(stage: int, agent: string, retryLimit: int)

  datatype Context = Context(
    designDoc: string, baselineCommit: string, currentCommit: string, coverage: real,
    passedTests: seq<string>, failedTests: seq<string>, errorLogs: seq<string>, repairNotes: seq<string>)

  datatype Transition = Transition(
    sequence: nat, from: int, to: int, outcome: string, agent: string, issue: string, task: string,
    session: string, workDir: string, summary: string)

  datatype Run = Run(
    version: int, stage: int, status: Status, roles: Roles, workflow: seq<WorkflowStep>,
    needsApproval: bool, approvalStatus: string, approvalId: string, bugId: string, context: Context,
    maxRetries: int, retryCount: int, unitRetryCount: int, coverageThreshold: real,
    issue: string, task: string, agent: string, parentSession: string, workDir: string,
    finalReport: string, suspendReason: string, history: seq<Transition>)

  datatype StepResult = StepResult(
    stage: int, agent: string, outcome: string, summary: string, designDoc: string, codeVersion: string, coverage: real,
    passedTests: seq<string>, failedTests: seq<string>, errorLog: string, repairNote: string, report: string,
    issue: string, task: string, session: string, workDir: string)

  datatype EngineError = Terminal | StaleStage | WrongAgent | BadOutcome | MissingEvidence | SessionContinuity | InvalidStage

  datatype Next = Next(stage: int, status: Status, reason: string)

  // ---- Workflow ---------------------------------------------------------------

  function DefaultWorkflow(r: Roles): seq<WorkflowStep> {
    [WorkflowStep(DESIGN, r.designer, 0), WorkflowStep(DEVELOPMENT, r.developer, 0), WorkflowStep(UNIT_TEST, r.tester, 0),
     WorkflowStep(INTEGRATION, r.tester, 0), WorkflowStep(ARBITRATION, r.arbitrator, 0),
     WorkflowStep(REVALIDATION, r.tester, 0), WorkflowStep(REPORT, r.tester, 0)]
  }

  function InsertStep(step: WorkflowStep, steps: seq<WorkflowStep>): (r: seq<WorkflowStep>)
    ensures multiset(r) == multiset(steps) + multiset{step}
  {
    if steps == [] || steps[|steps| - 1].stage <= step.stage then steps + [step]
    else
      assert steps == steps[..|steps| - 1] + [steps[|steps| - 1]];
      InsertStep(step, steps[..|steps| - 1]) + [steps[|steps| - 1]]
  }

  /** The stable sort of the selected steps by stage. */
  function NormalizeWorkflow(steps: seq<WorkflowStep>): (r: seq<WorkflowStep>)
    ensures multiset(r) == multiset(steps)
  {
    if steps == [] then []
    else
      assert steps == steps[..|steps| - 1] + [steps[|steps| - 1]];
      InsertStep(steps[|steps| - 1], NormalizeWorkflow(steps[..|steps| - 1]))
  }

  function Steps(run: Run): seq<WorkflowStep> {
    if run.workflow != [] then NormalizeWorkflow(run.workflow) else DefaultWorkflow(run.roles)
  }

  function FindStep(steps: seq<WorkflowStep>, stage: int): (r: Option<nat>)
    ensures r.Some? ==> r.value < |steps| && steps[r.value].stage == stage
    ensures r.None? ==> forall i | 0 <= i < |steps| :: steps[i].stage != stage
  {
    if steps == [] then None
    else if steps[0].stage == stage then Some(0)
    else match FindStep(steps[1..], stage) case None => None case Some(i) => Some(i + 1)
  }

  function StepFor(run: Run, stage: int): WorkflowStep {
    match FindStep(Steps(run), stage)
    case Some(i) => Steps(run)[i]
    case None => WorkflowStep(0, "", 0)
  }

  function RoleFor(r: Roles, stage: int): string {
    if stage == DESIGN then r.designer
    else if stage == DEVELOPMENT then r.developer
    else if stage == UNIT_TEST || stage == INTEGRATION || stage == REVALIDATION || stage == REPORT then r.tester
    else if stage == ARBITRATION then r.arbitrator
    else ""
  }

  function AgentFor(run: Run, stage: int): string {
    if StepFor(run, stage).agent != "" then StepFor(run, stage).agent else RoleFor(run.roles, stage)
  }

  predicate HasStage(run: Run, stage: int) {
    StepFor(run, stage).stage == stage
  }

  function NextSelectedStage(run: Run, stage: int): int {
    match FindStep(Steps(run), stage)
    case Some(i) => if i + 1 < |Steps(run)| then Steps(run)[i + 1].stage else stage
    case None => stage
  }

  function RetryLimit(run: Run, stage: int): int {
    if StepFor(run, stage).retryLimit > 0 then StepFor(run, stage).retryLimit else run.maxRetries
  }

  // ---- Evidence ---------------------------------------------------------------

  /** Adds the trimmed non-blank values that are not there yet, in order. */
  function AppendUnique(existing: seq<string>, values: seq<string>): seq<string>
    decreases |values|
  {
    if values == [] then existing
    else
      var item := Trim(values[0]);
      AppendUnique(if item == "" || item in existing then existing else existing + [item], values[1..])
  }

  function AppendNote(notes: seq<string>, note: string): seq<string> {
    if Blank(note) then notes else notes + [note]
  }

  function Merge(c: Context, r: StepResult): Context {
    Context(
      if r.designDoc != "" then r.designDoc else c.designDoc,
      if r.codeVersion != "" && c.baselineCommit == "" then r.codeVersion else c.baselineCommit,
      if r.codeVersion != "" then r.codeVersion else c.currentCommit,
      if r.coverage > 0.0 then r.coverage else c.coverage,
      AppendUnique(c.passedTests, r.passedTests), AppendUnique(c.failedTests, r.failedTests),
      AppendNote(c.errorLogs, r.errorLog), AppendNote(c.repairNotes, r.repairNote))
  }

  /** The first development result pins the provider session; every later one must present it. */
  function PinSession(run: Run, r: StepResult): Result<Run, EngineError> {
    if run.stage != DEVELOPMENT then Ok(run)
    else if Blank(r.session) || Blank(r.workDir) then Err(MissingEvidence)
    else if run.parentSession == "" then Ok(run.(parentSession := r.session, workDir := r.workDir))
    else if r.session != run.parentSession || r.workDir != run.workDir then Err(SessionContinuity)
    else Ok(run)
  }

  function CountRetries(run: Run, r: StepResult): Run {
    var repair :=
      || (run.stage == DEVELOPMENT && r.outcome == "fail")
      || (run.stage == ARBITRATION && r.outcome == "pass")
      || (run.stage == INTEGRATION && r.outcome == "fail" && run.workflow != [] && !HasStage(run, ARBITRATION));
    var retest := run.stage == UNIT_TEST && (r.outcome == "fail" || r.coverage < run.coverageThreshold);
    run.(retryCount := if repair then run.retryCount + 1 else run.retryCount,
         unitRetryCount := if retest then run.unitRetryCount + 1 else run.unitRetryCount)
  }

  // ---- Next stage -------------------------------------------------------------

  predicate AwaitsApproval(run: Run) {
    run.needsApproval && run.approvalStatus != "approved"
  }

  function NextStage(run: Run, r: StepResult): Result<Next, EngineError> {
    var pass := r.outcome == "pass";
    if run.workflow != [] then NextCustomStage(run, r)
    else if run.stage == DESIGN then
      if !pass then Ok(Next(DESIGN, Suspended, "design generation failed"))
      else if Blank(r.designDoc) then Err(MissingEvidence)
      else if AwaitsApproval(run) then Ok(Next(DESIGN, WaitingApproval, "design approval required"))
      else Ok(Next(DEVELOPMENT, Running, ""))
    else if run.stage == DEVELOPMENT then
      if !pass then
        if run.retryCount >= run.maxRetries then Ok(Next(DEVELOPMENT, Suspended, "development retry limit reached"))
        else Ok(Next(DEVELOPMENT, Running, ""))
      else if Blank(r.codeVersion) then Err(MissingEvidence)
      else Ok(Next(UNIT_TEST, Running, ""))
    else if run.stage == UNIT_TEST then
      if !pass || r.coverage < run.coverageThreshold then
        if run.unitRetryCount >= run.maxRetries
        then Ok(Next(UNIT_TEST, Suspended, "unit-test or coverage retry limit reached"))
        else Ok(Next(UNIT_TEST, Running, ""))
      else Ok(Next(INTEGRATION, Running, ""))
    else if run.stage == INTEGRATION then
      if !pass then Ok(Next(ARBITRATION, Running, ""))
      else if run.retryCount > 0 then Ok(Next(REVALIDATION, Running, ""))
      else Ok(Next(REPORT, Running, ""))
    else if run.stage == ARBITRATION then
      if !pass then Ok(Next(ARBITRATION, Suspended, "arbitrator rejected automatic repair"))
      else if run.retryCount > run.maxRetries then Ok(Next(ARBITRATION, Suspended, "repair retry limit reached"))
      else Ok(Next(DEVELOPMENT, Running, ""))
    else if run.stage == REVALIDATION then
      if !pass then Ok(Next(ARBITRATION, Running, "")) else Ok(Next(REPORT, Running, ""))
    else if run.stage == REPORT then
      if !pass then Ok(Next(REPORT, Suspended, "report generation failed"))
      else if Blank(r.report) then Err(MissingEvidence)
      else Ok(Next(REPORT, Completed, ""))
    else Err(InvalidStage)
  }

  function NextCustomStage(run: Run, r: StepResult): Result<Next, EngineError> {
    var pass := r.outcome == "pass";
    var current := run.stage;
    if current == DESIGN && !pass then Ok(Next(current, Suspended, "design generation failed"))
    else if current == DESIGN && Blank(r.designDoc) then Err(MissingEvidence)
    else if current == DESIGN && AwaitsApproval(run) then Ok(Next(current, WaitingApproval, "design approval required"))
    else if current == DEVELOPMENT && !pass then
      if run.retryCount >= RetryLimit(run, current) then Ok(Next(current, Suspended, "development retry limit reached"))
      else Ok(Next(current, Running, ""))
    else if current == DEVELOPMENT && Blank(r.codeVersion) then Err(MissingEvidence)
    else if current == UNIT_TEST && (!pass || r.coverage < run.coverageThreshold) then
      if run.unitRetryCount >= RetryLimit(run, current)
      then Ok(Next(current, Suspended, "unit-test or coverage retry limit reached"))
      else Ok(Next(current, Running, ""))
    else if current == REPORT then
      if !pass then Ok(Next(current, Suspended, "report generation failed"))
      else if Blank(r.report) then Err(MissingEvidence)
      else Ok(Next(current, Completed, ""))
    else if current == INTEGRATION && !pass then
      if HasStage(run, ARBITRATION) then Ok(Next(ARBITRATION, Running, ""))
      else if HasStage(run, DEVELOPMENT) && run.retryCount < RetryLimit(run, DEVELOPMENT) then Ok(Next(DEVELOPMENT, Running, ""))
      else Ok(Next(current, Suspended, "integration failed and no repair stage is configured"))
    else if current == ARBITRATION && !pass then Ok(Next(current, Suspended, "arbitrator rejected automatic repair"))
    else if current == ARBITRATION && run.retryCount > RetryLimit(run, current) then
      Ok(Next(current, Suspended, "repair retry limit reached"))
    else if current == ARBITRATION && HasStage(run, DEVELOPMENT) then Ok(Next(DEVELOPMENT, Running, ""))
    else if current == REVALIDATION && !pass then
      if HasStage(run, ARBITRATION) then Ok(Next(ARBITRATION, Running, ""))
      else Ok(Next(current, Suspended, "revalidation failed and no arbitration stage is configured"))
    else
      var next := NextSelectedStage(run, current);
      if next == current then Ok(Next(current, Suspended, "workflow has no subsequent stage"))
      else Ok(Next(next, Running, ""))
  }

  // ---- Apply ------------------------------------------------------------------

  predicate TerminalStatus(status: Status) {
    status == Completed || status == Suspended || status == Failed
  }

  function Accept(run: Run, r: StepResult): Option<EngineError> {
    if TerminalStatus(run.status) then Some(Terminal)
    else if r.stage != run.stage then Some(StaleStage)
    else if Blank(r.agent) || r.agent != AgentFor(run, run.stage) then Some(WrongAgent)
    else if r.outcome != "pass" && r.outcome != "fail" then Some(BadOutcome)
    else None
  }

  function RecordOf(run: Run, r: StepResult, to: int): Transition {
    Transition(|run.history| + 1, run.stage, to, r.outcome, r.agent, r.issue, r.task, r.session, r.workDir,
               r.summary)
  }

  /** The run on the next stage, with the result on record. */
  function Moved(run: Run, counted: Run, r: StepResult, next: Next): Run {
    var done := next.status == Completed;
    counted.(
      stage := next.stage, status := next.status, suspendReason := next.reason, issue := r.issue,
      task := if done then "" else r.task,
      agent := if done then "" else AgentFor(counted, next.stage),
      finalReport := if done || (next.stage == REPORT && r.report != "") then r.report else run.finalReport,
      history := run.history + [RecordOf(run, r, next.stage)],
      version := run.version + 1)
  }

  function Apply(run: Run, r: StepResult): Result<Run, EngineError> {
    match Accept(run, r)
    case Some(e) => Err(e)
    case None =>
      match PinSession(run.(context := Merge(run.context, r)), r)
      case Err(e) => Err(e)
      case Ok(pinned) =>
        var counted := CountRetries(pinned, r);
        match NextStage(counted, r)
        case Err(e) => Err(e)
        case Ok(next) => Ok(Moved(run, counted, r, next))
  }
}
