/** Beyond the safe limits some sequence of results uses up an edge: five ways to drive a run there. */
module LegacyGraphExhaustion {
  import opened Options
  import opened Text
  import opened PipelineStatus
  import opened PipelineEngine
  import opened PipelineEngineProofs
  import opened LegacyGraph
  import opened LegacyGraphSimulation
  import opened LegacyGraphWalks
  import opened LegacyGraphLimits

  /** Every result passes, but for those of one stage. */
  datatype Driver = DevelopmentFails | UnitTestFails | IntegrationFails | AllPass | RevalidationFails

  /** The limit that is not safe. */
  predicate Overruns(d: Driver, sh: Shape) {
    match d
    case DevelopmentFails => sh.dev && sh.devLimit >= sh.retries + 3
    case UnitTestFails => sh.unit && sh.unitLimit >= sh.retries + 3
    case IntegrationFails => sh.dev && !sh.arb && sh.integ && sh.devLimit >= sh.retries + 2
    case AllPass => sh.dev && sh.arb && sh.arbLimit >= sh.retries + 1
    case RevalidationFails => !sh.dev && sh.arb && sh.reval && sh.arbLimit >= sh.retries + 2
  }

  function FailingStage(d: Driver): int {
    match d
    case DevelopmentFails => DEVELOPMENT
    case UnitTestFails => UNIT_TEST
    case IntegrationFails => INTEGRATION
    case AllPass => 0
    case RevalidationFails => REVALIDATION
  }

  function LastStage(d: Driver): int {
    if d.AllPass? then ARBITRATION else FailingStage(d)
  }

  datatype Target = Target(from: int, to: int, on: EdgeEvent)

  /** The edge that is used up. */
  function TargetOf(d: Driver, run: Run): Target {
    match d
    case DevelopmentFails => Target(DEVELOPMENT, DEVELOPMENT, Failure)
    case UnitTestFails => Target(UNIT_TEST, UNIT_TEST, Failure)
    case RevalidationFails => Target(ARBITRATION, REVALIDATION, Success)
    case _ => Target(DEVELOPMENT, NextSelectedStage(run, DEVELOPMENT), Success)
  }

  /** How often the run has taken it. */
  function Meter(d: Driver, p: Point): int {
    match d
    case DevelopmentFails => p.retries
    case UnitTestFails => p.unitRetries
    case RevalidationFails => p.retries
    case _ => p.retries + if p.stage > DEVELOPMENT then 1 else 0
  }

  // ---- The results --------------------------------------------------------------------------------------------

  function Reply(run: Run, pass: bool): StepResult {
    StepResult(run.stage, AgentFor(run, run.stage), if pass then "pass" else "fail", "", "design", "code",
               run.coverageThreshold, [], [], "", "", "report", "", "",
               if run.parentSession == "" then "session" else run.parentSession,
               if run.parentSession == "" then "workdir" else run.workDir)
  }

  function Drive(d: Driver, run: Run): Event {
    if run.status == WaitingApproval then Approve else Deliver(Reply(run, run.stage != FailingStage(d)))
  }

  predicate SessionKept(run: Run) {
    run.parentSession != "" ==> !Blank(run.parentSession) && !Blank(run.workDir)
  }

  /** A run whose next result can be given: its agent is named and its session, if any, can be repeated. */
  predicate Answerable(run: Run) {
    !TerminalStatus(run.status) && run.workflow != [] && !Blank(AgentFor(run, run.stage)) && SessionKept(run)
  }

  lemma Texts()
    ensures !Blank("session") && !Blank("workdir") && !Blank("design") && !Blank("code") && !Blank("report")
  {
    assert "session"[0] == 's' && "workdir"[0] == 'w' && "design"[0] == 'd' && "code"[0] == 'c' && "report"[0] == 'r';
  }

  /** An answer goes through the checks, and the workflow decides. */
  lemma Answered(run: Run, pass: bool) returns (counted: Run)
    requires Answerable(run)
    ensures var uncounted := counted.(retryCount := run.retryCount, unitRetryCount := run.unitRetryCount);
            counted == CountRetries(uncounted, Reply(run, pass))
    ensures counted.workflow == run.workflow && counted.roles == run.roles && counted.stage == run.stage
    ensures counted.maxRetries == run.maxRetries && counted.coverageThreshold == run.coverageThreshold
    ensures counted.needsApproval == run.needsApproval && counted.approvalStatus == run.approvalStatus
    ensures SessionKept(counted)
    ensures Apply(run, Reply(run, pass)) ==
            match NextCustomStage(counted, Reply(run, pass))
            case Err(e) => Err(e)
            case Ok(next) => Ok(Moved(run, counted, Reply(run, pass), next))
  {
    hide NextCustomStage, Blank, AgentFor, Merge, Moved, HasStage;
    Texts();
    var r := Reply(run, pass);
    counted := CountRetries(PinSession(run.(context := Merge(run.context, r)), r).value, r);
    ViaCustom(counted, r);
  }

  lemma PassGoesOn(run: Run)
    requires Answerable(run) && DESIGN <= run.stage <= INTEGRATION && NextSelectedStage(run, run.stage) > run.stage
    ensures var next := Apply(run, Reply(run, true));
            && next.Ok? && SessionKept(next.value) && next.value.version == run.version + 1
            && if run.stage == DESIGN && AwaitsApproval(run)
               then next.value.status == WaitingApproval && PointOf(next.value) == PointOf(run)
               else
                 && next.value.status == Running
                 && PointOf(next.value) == Point(NextSelectedStage(run, run.stage), run.retryCount, run.unitRetryCount)
  {
    hide Apply, AgentFor, NextSelectedStage, Blank, HasStage, RetryLimit;
    Texts();
    var counted := Answered(run, true);
    SameSteps(run, counted);
  }

  lemma FailGoesOn(run: Run)
    requires Answerable(run)
    requires (run.stage == DEVELOPMENT && run.retryCount + 1 < RetryLimit(run, DEVELOPMENT))
             || (run.stage == UNIT_TEST && run.unitRetryCount + 1 < RetryLimit(run, UNIT_TEST))
             || (run.stage == INTEGRATION && !HasStage(run, ARBITRATION) && HasStage(run, DEVELOPMENT)
                 && run.retryCount + 1 < RetryLimit(run, DEVELOPMENT))
             || (run.stage == REVALIDATION && HasStage(run, ARBITRATION))
    ensures var next := Apply(run, Reply(run, false));
            && next.Ok? && SessionKept(next.value)
            && next.value.version == run.version + 1 && next.value.status == Running
            && PointOf(next.value) ==
               if run.stage == DEVELOPMENT || run.stage == INTEGRATION
               then Point(DEVELOPMENT, run.retryCount + 1, run.unitRetryCount)
               else if run.stage == UNIT_TEST then Point(UNIT_TEST, run.retryCount, run.unitRetryCount + 1)
               else Point(ARBITRATION, run.retryCount, run.unitRetryCount)
  {
    hide Apply, AgentFor, NextSelectedStage, Blank, StepFor, RetryLimit;
    Texts();
    var counted := Answered(run, false);
    SameSteps(run, counted);
    SameLimits(run, counted);
  }

  lemma RepairGoesOn(run: Run)
    requires Answerable(run) && run.stage == ARBITRATION && run.retryCount + 1 <= RetryLimit(run, ARBITRATION)
    requires HasStage(run, DEVELOPMENT) || NextSelectedStage(run, ARBITRATION) > ARBITRATION
    ensures var next := Apply(run, Reply(run, true));
            && next.Ok? && SessionKept(next.value)
            && next.value.version == run.version + 1 && next.value.status == Running
            && var stage := if HasStage(run, DEVELOPMENT) then DEVELOPMENT else NextSelectedStage(run, ARBITRATION);
               PointOf(next.value) == Point(stage, run.retryCount + 1, run.unitRetryCount)
  {
    hide Apply, AgentFor, NextSelectedStage, Blank, StepFor, RetryLimit;
    Texts();
    var counted := Answered(run, true);
    SameSteps(run, counted);
    SameLimits(run, counted);
  }

  // ---- One driven event -----------------------------------------------------------------------------------------

  /** The run is on the way, and its target edge is not used up yet. */
  ghost predicate OnTheWay(d: Driver, run: Run) {
    && Live(run) && Answerable(run) && Overruns(d, ShapeOf(run)) && run.stage <= LastStage(d)
    && Meter(d, PointOf(run)) <= run.maxRetries + 1
  }

  lemma LastStageSelected(d: Driver, run: Run)
    requires Overruns(d, ShapeOf(run))
    ensures HasStage(run, LastStage(d)) && DEVELOPMENT <= LastStage(d) <= REVALIDATION
  {
    hide StepFor, RetryLimit;
  }

  /** Before the last stage of the drive, a pass goes to a stage that is not past it. */
  lemma NextWithin(d: Driver, run: Run)
    requires Live(run) && Overruns(d, ShapeOf(run)) && run.stage < LastStage(d)
    ensures run.stage < NextSelectedStage(run, run.stage) <= LastStage(d)
  {
    hide StepFor, NextSelectedStage, Overruns, ShapeOf, LastStage;
    LastStageSelected(d, run);
    SuccessorAtMost(run, run.stage, LastStage(d));
  }

  /** What a driven event does to the run: it takes the target edge exactly when the meter moves. */
  ghost predicate Driven(d: Driver, run: Run, next: Run) {
    && next.version == run.version + 1 && SessionKept(next) && next.stage <= LastStage(d)
    && match next.status
       case WaitingApproval => run.status != WaitingApproval && PointOf(next) == PointOf(run)
       case Running =>
         var hit := TargetOf(d, run) == Target(run.stage, next.stage, EdgeEventOf(FinishOf(Drive(d, run), next).event));
         Meter(d, PointOf(next)) == Meter(d, PointOf(run)) + if hit then 1 else 0
       case _ => false
  }

  lemma PassDriven(d: Driver, run: Run)
    requires OnTheWay(d, run) && run.status != WaitingApproval && run.stage <= INTEGRATION && run.stage < LastStage(d)
    requires run.stage != FailingStage(d)
    ensures Driven(d, run, Advance(run, Drive(d, run)))
  {
    hide Apply, AgentFor, NextSelectedStage, Blank, StepFor, RetryLimit, ValidRun, AwaitsApproval, Bounded;
    LiveStage(run);
    NextWithin(d, run);
    if !d.UnitTestFails? && !d.RevalidationFails? {
      DesignFirst(d, run);
    }
    PassGoesOn(run);
  }

  lemma FailDriven(d: Driver, run: Run)
    requires OnTheWay(d, run) && run.status != WaitingApproval && run.stage == FailingStage(d)
    ensures Driven(d, run, Advance(run, Drive(d, run)))
  {
    hide Apply, AgentFor, NextSelectedStage, Blank, StepFor, RetryLimit, ValidRun, Bounded;
    LiveStage(run);
    FailGoesOn(run);
  }

  /** Design does not pass over development. */
  lemma DesignFirst(d: Driver, run: Run)
    requires Live(run) && Overruns(d, ShapeOf(run)) && !d.UnitTestFails? && !d.RevalidationFails?
    ensures run.stage == DESIGN ==> NextSelectedStage(run, DESIGN) == DEVELOPMENT
  {
    hide StepFor, NextSelectedStage, RetryLimit;
    if run.stage == DESIGN {
      SuccessorAtMost(run, DESIGN, DEVELOPMENT);
    }
  }

  lemma RepairDriven(d: Driver, run: Run)
    requires OnTheWay(d, run) && run.status != WaitingApproval && run.stage == ARBITRATION
    requires LastStage(d) >= ARBITRATION
    ensures Driven(d, run, Advance(run, Drive(d, run)))
  {
    hide Apply, AgentFor, NextSelectedStage, Blank, StepFor, RetryLimit, ValidRun, Bounded;
    if d.RevalidationFails? {
      NextWithin(d, run);
    }
    RepairGoesOn(run);
  }

  lemma ApprovalDriven(d: Driver, run: Run)
    requires OnTheWay(d, run) && run.status == WaitingApproval
    ensures Driven(d, run, Advance(run, Drive(d, run)))
  {
    hide Apply, AgentFor, NextSelectedStage, Blank, StepFor, RetryLimit, ValidRun, Bounded;
    LastStageSelected(d, run);
    NextWithin(d, run);
    if !d.UnitTestFails? && !d.RevalidationFails? {
      DesignFirst(d, run);
    }
  }

  lemma DriveStep(d: Driver, run: Run)
    requires OnTheWay(d, run)
    ensures Driven(d, run, Advance(run, Drive(d, run)))
  {
    hide Live, Answerable, Overruns, ShapeOf, Meter, Driven, Drive;
    if run.status == WaitingApproval {
      ApprovalDriven(d, run);
    } else if run.stage == FailingStage(d) {
      FailDriven(d, run);
    } else if run.stage == ARBITRATION {
      RepairDriven(d, run);
    } else {
      PassDriven(d, run);
    }
  }

  // ---- The whole drive ----------------------------------------------------------------------------------------------

  /** The plan has used the target edge as often as the meter says. */
  ghost predicate Heading(d: Driver, g: Graph, s: Shadow) {
    && Simulates(g, s) && OnTheWay(d, s.run)
    && var target := TargetOf(d, s.run);
       Uses(s.plan.traversals, target.from, target.to, target.on) == Meter(d, PointOf(s.run))
  }

  lemma AgentNamed(run: Run, g: Graph)
    requires Compile(run) == Some(g) && Live(run)
    ensures !Blank(AgentFor(run, run.stage))
  {
    hide Blank, NodeId, Rows, Steps, Draft, RetriesAllowed;
    assert Blank("") by { BlankEmpty(); }
  }

  lemma BlankEmpty()
    ensures Blank("")
  {
  }

  lemma TargetInRange(d: Driver, run: Run)
    requires Live(run) && Overruns(d, ShapeOf(run))
    ensures DESIGN <= TargetOf(d, run).from <= REPORT && DESIGN <= TargetOf(d, run).to <= REPORT
  {
    hide StepFor, NextSelectedStage, RetryLimit;
    SuccessorLater(run, DEVELOPMENT);
  }

  /** A driven run stays on the way while its target edge has room. */
  lemma StaysOnTheWay(d: Driver, g: Graph, run: Run, next: Run)
    requires OnTheWay(d, run) && Driven(d, run, next) && Compile(next) == Some(g) && Live(next)
    requires next.workflow == run.workflow && next.roles == run.roles && next.maxRetries == run.maxRetries
    requires Meter(d, PointOf(next)) <= run.maxRetries + 1
    ensures OnTheWay(d, next) && TargetOf(d, next) == TargetOf(d, run)
  {
    hide Live, ShapeOf, Meter, AgentFor, Compile, NextSelectedStage, Overruns, Drive;
    AgentNamed(next, g);
    SameShape(run, next);
    SameSteps(run, next);
  }

  lemma DriveRefusal(d: Driver, g: Graph, s: Shadow)
    requires Simulates(g, s)
    ensures var r := RefusalOf(g, s, Timed(Drive(d, s.run), false)); r.None? || r == Some(LoopExhausted)
  {
    hide Advance, EdgeFor, Reply, LoopLimit;
  }

  /** A driven event that is not refused had room on its edge. */
  lemma DriveRoom(d: Driver, g: Graph, s: Shadow)
    requires Simulates(g, s) && RefusalOf(g, s, Timed(Drive(d, s.run), false)).None?
    requires Advance(s.run, Drive(d, s.run)).status == Running
    ensures CountOf(s.plan.traversals, EdgeFor(s.run, Drive(d, s.run)).id) + 1 <= LoopLimit(s.run)
  {
    hide Advance, EdgeFor, Reply, LoopLimit, Live, Compile, FinishOf;
  }

  /** One driven event either uses up an edge, or leaves the run on the way and further along. */
  lemma HeadingStep(d: Driver, g: Graph, s: Shadow)
    requires Heading(d, g, s)
    ensures var after := Follow(g, s, Timed(Drive(d, s.run), false));
            || after.refused == Some(LoopExhausted)
            || (Heading(d, g, after) && Limit(after.run) == Limit(s.run)
                && (Progress(after.run) > Progress(s.run)
                    || (Progress(after.run) == Progress(s.run) && after.run.status == WaitingApproval != s.run.status)))
  {
    hide Advance, Simulates, OnTheWay, Follow, Drive, Live, Meter, TargetOf, Uses, Bump, NodeId, EdgeId, RefusalOf,
         Retries, Limit, LoopLimit;
    var t := Timed(Drive(d, s.run), false);
    var next := Advance(s.run, t.event);
    SimulatedRun(g, s);
    DriveStep(d, s.run);
    AdvanceLive(s.run, t.event);
    AdvanceSteps(s.run, t.event);
    GraphFollowsEngine(g, s, t);
    DriveRefusal(d, g, s);
    var after := Follow(g, s, t);
    if after.refused.None? {
      SimulatedRun(g, after);
      if next.status == Running {
        HeadingMoves(d, g, s, next);
      } else {
        HeadingWaits(d, g, s, next);
      }
    }
  }

  lemma HeadingWaits(d: Driver, g: Graph, s: Shadow, next: Run)
    requires OnTheWay(d, s.run) && Driven(d, s.run, next) && next.status == WaitingApproval && Compile(next) == Some(g)
    requires Live(next)
    requires next.workflow == s.run.workflow && next.roles == s.run.roles && next.maxRetries == s.run.maxRetries
    ensures OnTheWay(d, next) && TargetOf(d, next) == TargetOf(d, s.run) && PointOf(next) == PointOf(s.run)
    ensures Progress(next) == Progress(s.run) && s.run.status != WaitingApproval
  {
    hide Live, Compile, Drive, Answerable, Overruns, ShapeOf, TargetOf;
    StaysOnTheWay(d, g, s.run, next);
  }

  lemma HeadingMoves(d: Driver, g: Graph, s: Shadow, next: Run)
    requires Heading(d, g, s) && next == Advance(s.run, Drive(d, s.run)) && Driven(d, s.run, next)
    requires next.status == Running
    requires RefusalOf(g, s, Timed(Drive(d, s.run), false)).None? && Compile(next) == Some(g) && Live(next)
    requires next.workflow == s.run.workflow && next.roles == s.run.roles && next.maxRetries == s.run.maxRetries
    ensures OnTheWay(d, next) && TargetOf(d, next) == TargetOf(d, s.run)
    ensures var target := TargetOf(d, s.run);
            Uses(Bump(s.plan.traversals, EdgeFor(s.run, Drive(d, s.run)).id), target.from, target.to, target.on) ==
            Meter(d, PointOf(next))
  {
    hide Advance, Live, Compile, Drive, Answerable, Overruns, ShapeOf, TargetOf, NodeId, EdgeId, Bump, Meter, FinishOf;
    var e, target := Drive(d, s.run), TargetOf(d, s.run);
    var on := EdgeFor(s.run, e).on;
    LiveStage(s.run);
    LiveStage(next);
    LiveRetries(s.run);
    TargetInRange(d, s.run);
    DriveRoom(d, g, s);
    BumpUses(s.plan.traversals, s.run.stage, next.stage, on, target.from, target.to, target.on);
    StaysOnTheWay(d, g, s.run, next);
  }

  lemma LiveRetries(run: Run)
    requires Live(run)
    ensures LoopLimit(run) == run.maxRetries + 1
  {
  }

  lemma {:induction false} FollowAllPrepend(g: Graph, s: Shadow, t: Timed, ts: seq<Timed>)
    ensures FollowAll(g, s, [t] + ts) == FollowAll(g, Follow(g, s, t), ts)
    decreases |ts|
  {
    hide Follow;
    if ts == [] {
      assert ([t] + ts)[..0] == [];
    } else {
      assert ([t] + ts)[..|ts|] == [t] + ts[..|ts| - 1];
      FollowAllPrepend(g, s, t, ts[..|ts| - 1]);
    }
  }

  /** The drive ends only at the edge that is used up. */
  lemma {:induction false} DriveExhausts(d: Driver, g: Graph, s: Shadow) returns (ts: seq<Timed>)
    requires Heading(d, g, s)
    ensures FollowAll(g, s, ts).refused == Some(LoopExhausted)
    decreases 16 * Limit(s.run) + 7 - Progress(s.run), if s.run.status == WaitingApproval then 0 else 1
  {
    hide Follow, Drive, Limit, Progress, OnTheWay, Simulates, TargetOf, Meter;
    HeadingStep(d, g, s);
    var t := Timed(Drive(d, s.run), false);
    var after := Follow(g, s, t);
    if after.refused == Some(LoopExhausted) {
      ts := [t];
      FollowAllPrepend(g, s, t, []);
    } else {
      SimulatedRun(g, s);
      SimulatedRun(g, after);
      LiveProgress(s.run);
      LiveProgress(after.run);
      var rest := DriveExhausts(d, g, after);
      ts := [t] + rest;
      FollowAllPrepend(g, s, t, rest);
    }
  }

  lemma OverrunExists(sh: Shape) returns (d: Driver)
    requires !SafeLimits(sh)
    ensures Overruns(d, sh)
  {
    d := if sh.dev && sh.devLimit >= sh.retries + 3 then DevelopmentFails
         else if sh.unit && sh.unitLimit >= sh.retries + 3 then UnitTestFails
         else if sh.dev && sh.arb then AllPass
         else if sh.dev then IntegrationFails
         else RevalidationFails;
  }

  lemma BeginHeading(d: Driver, g: Graph, run: Run)
    requires Fresh(run) && Compile(run) == Some(g) && Overruns(d, ShapeOf(run))
    ensures Heading(d, g, Begin(g, run))
  {
    hide StepFor, RetryLimit, NodeId, EdgeId, NextSelectedStage, Simulates, AgentFor, Blank, Compile, Live;
    BeginSimulates(g, run);
    AgentNamed(run, g);
    OverrunIsCustom(d, run);
    LastStageSelected(d, run);
    FirstStageEarly(run);
    LiveStage(run);
    LiveRetries(run);
    MinRetries(run);
    FirstBeforeDevelopment(d, run);
  }

  lemma MinRetries(run: Run)
    requires Live(run)
    ensures run.maxRetries >= 1
  {
    hide HasStage, Bounded;
  }

  lemma FirstBeforeDevelopment(d: Driver, run: Run)
    requires Fresh(run) && Overruns(d, ShapeOf(run))
    ensures d.IntegrationFails? || d.AllPass? ==> run.stage <= DEVELOPMENT
  {
    hide StepFor, RetryLimit, Live;
    FirstStageEarly(run);
  }

  lemma OverrunIsCustom(d: Driver, run: Run)
    requires Overruns(d, ShapeOf(run))
    ensures run.workflow != []
  {
    hide ShapeOf;
    if run.workflow == [] {
      DefaultShape(run);
    }
  }

  /** A fresh run can use up an edge of its graph exactly when its limits are not safe. */
  lemma ExhaustsIff(g: Graph, run: Run)
    requires Fresh(run) && Compile(run) == Some(g)
    ensures SafeLimits(ShapeOf(run)) <==>
            forall ts: seq<Timed> :: FollowAll(g, Begin(g, run), ts).refused != Some(LoopExhausted)
  {
    hide FollowAll, Fresh, Compile, ShapeOf, SafeLimits, Overruns;
    if SafeLimits(ShapeOf(run)) {
      forall ts: seq<Timed> ensures FollowAll(g, Begin(g, run), ts).refused != Some(LoopExhausted) {
        SafeNeverExhausts(g, run, ts);
      }
    } else {
      var d := OverrunExists(ShapeOf(run));
      BeginHeading(d, g, run);
      var ts := DriveExhausts(d, g, Begin(g, run));
    }
  }

  const REPAIRED := WorkflowStep(DEVELOPMENT, "dev", 5)
  const REPORTED := WorkflowStep(REPORT, "rep", 0)

  /** One development stage with a limit of five in a run that allows one retry: its edge back to itself is used up
      while the engine still retries. */
  lemma DevelopmentOverrun(run: Run, g: Graph) returns (ts: seq<Timed>)
    requires Fresh(run) && Compile(run) == Some(g) && run.workflow == [REPAIRED, REPORTED] && run.maxRetries == 1
    ensures FollowAll(g, Begin(g, run), ts).refused == Some(LoopExhausted)
  {
    hide Compile, Live, FollowAll, Simulates;
    RepairedLimits(run);
    BeginHeading(DevelopmentFails, g, run);
    ts := DriveExhausts(DevelopmentFails, g, Begin(g, run));
  }

  lemma RepairedLimits(run: Run)
    requires run.workflow == [REPAIRED, REPORTED]
    ensures Steps(run) == run.workflow && HasStage(run, DEVELOPMENT) && RetryLimit(run, DEVELOPMENT) == 5
  {
    hide NormalizeWorkflow, StepFor;
    TwoInOrder(run.workflow[0], run.workflow[1]);
    FirstStep(run);
  }

  lemma RepairedFresh(run: Run)
    requires run.workflow == [REPAIRED, REPORTED] && run.stage == DEVELOPMENT && run.status == Running
    requires run.maxRetries == 1 && run.retryCount == 0 && run.unitRetryCount == 0 && run.parentSession == ""
    ensures Fresh(run)
  {
    hide Steps, StepFor, MaxLimit;
    RepairedLimits(run);
    MaxLimitBounds(run.workflow, run.maxRetries);
    assert run.workflow[1].stage == REPORT;
  }

  lemma RepairedCompiles(run: Run)
    requires run.workflow == [REPAIRED, REPORTED]
    ensures Compile(run) == Some(Draft(run))
  {
    hide Steps, Draft;
    RepairedLimits(run);
    assert "dev"[0] == 'd' && "rep"[0] == 'r';
  }

  /** There is such a run. */
  lemma OverrunRun() returns (run: Run, g: Graph)
    ensures Fresh(run) && Compile(run) == Some(g) && run.workflow == [REPAIRED, REPORTED] && run.maxRetries == 1
  {
    hide Fresh, Compile;
    run := Run(1, DEVELOPMENT, Running, Roles("", "", "", ""), [REPAIRED, REPORTED], false, "", "", "",
               Context("", "", "", 0.0, [], [], [], []), 1, 0, 0, 80.0, "", "", "dev", "", "", "", "", []);
    RepairedFresh(run);
    RepairedCompiles(run);
    g := Compile(run).value;
  }
}
