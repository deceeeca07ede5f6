/** Which workflows never use up an edge of their compatibility graph: the retries a run counts pay for the edges
    it takes again. */
module LegacyGraphLimits {
  import opened Options
  import opened Text
  import opened PipelineStatus
  import opened PipelineEngine
  import opened PipelineEngineProofs
  import opened LegacyGraph
  import opened LegacyGraphProofs
  import opened LegacyGraphSimulation
  import opened LegacyGraphWalks

  /** What of a workflow decides how often its edges can be taken: the stages it selects and their limits. */
  datatype Shape = Shape(
    dev: bool, unit: bool, integ: bool, arb: bool, reval: bool,
    retries: int, devLimit: int, unitLimit: int, arbLimit: int)

  function ShapeOf(run: Run): Shape {
    Shape(HasStage(run, DEVELOPMENT), HasStage(run, UNIT_TEST), HasStage(run, INTEGRATION), HasStage(run, ARBITRATION),
          HasStage(run, REVALIDATION), run.maxRetries, RetryLimit(run, DEVELOPMENT), RetryLimit(run, UNIT_TEST),
          RetryLimit(run, ARBITRATION))
  }

  /** The stage limits that the one edge limit, MaxRetries + 1, leaves room for. */
  predicate SafeLimits(sh: Shape) {
    && (sh.dev ==> sh.devLimit <= sh.retries + 2)
    && (sh.unit ==> sh.unitLimit <= sh.retries + 2)
    && (sh.dev && sh.arb ==> sh.arbLimit <= sh.retries)
    && (sh.dev && !sh.arb && sh.integ ==> sh.devLimit <= sh.retries + 1)
    && (!sh.dev && sh.arb && sh.reval ==> sh.arbLimit <= sh.retries + 1)
  }

  datatype Point = Point(stage: int, retries: int, unitRetries: int)

  function PointOf(run: Run): Point {
    Point(run.stage, run.retryCount, run.unitRetryCount)
  }

  // ---- The moves of a run that goes on ----------------------------------------------------------------------

  predicate SelfMove(sh: Shape, a: Point, b: Point) {
    || (a.stage == UNIT_TEST && sh.unit && b == Point(UNIT_TEST, a.retries, a.unitRetries + 1)
        && b.unitRetries < sh.unitLimit)
    || (a.stage == DEVELOPMENT && sh.dev && b == Point(DEVELOPMENT, a.retries + 1, a.unitRetries)
        && b.retries < sh.devLimit)
  }

  predicate RepairMove(sh: Shape, a: Point, b: Point) {
    && b.retries == a.retries + 1 && b.unitRetries == a.unitRetries
    && if a.stage == INTEGRATION then b.stage == DEVELOPMENT && sh.integ && sh.dev && !sh.arb && b.retries < sh.devLimit
       else
         && a.stage == ARBITRATION && sh.arb && b.retries <= sh.arbLimit
         && if sh.dev then b.stage == DEVELOPMENT else (b.stage == REVALIDATION && sh.reval) || b.stage == REPORT
  }

  predicate ForwardMove(sh: Shape, a: Point, b: Point) {
    && a.stage != ARBITRATION && Rank(a.stage) < Rank(b.stage)
    && b.retries == a.retries && b.unitRetries == a.unitRetries
    && (b.stage == REVALIDATION && sh.arb ==> sh.dev)
  }

  predicate GoesOn(sh: Shape, a: Point, b: Point) {
    && DESIGN <= a.stage <= REPORT && DESIGN <= b.stage <= REPORT
    && (SelfMove(sh, a, b) || RepairMove(sh, a, b) || ForwardMove(sh, a, b))
  }

  lemma SameShape(a: Run, b: Run)
    requires a.workflow == b.workflow && a.roles == b.roles && a.maxRetries == b.maxRetries
    ensures ShapeOf(a) == ShapeOf(b)
  {
    hide StepFor, AgentFor, NextSelectedStage;
    SameSteps(a, b);
  }

  /** The selected successor does not pass over a selected stage. */
  lemma SuccessorAtMost(run: Run, stage: int, later: int)
    requires StagesValid(run.workflow) && StagesDistinct(run.workflow)
    requires DESIGN <= stage < later && HasStage(run, stage) && HasStage(run, later)
    ensures stage < NextSelectedStage(run, stage) <= later
  {
    hide NormalizeWorkflow;
    StepsFacts(run);
    StepsDistinct(run);
    var i, j := FindStep(Steps(run), stage).value, FindStep(Steps(run), later).value;
    assert i < j;
  }

  lemma StepsDistinct(run: Run)
    requires StagesDistinct(run.workflow)
    ensures StagesDistinct(Steps(run))
  {
    if run.workflow != [] {
      SortedDistinct(run.workflow);
    }
  }

  lemma CustomGoesOn(before: Run, r: StepResult)
    requires ValidRun(before) && OnStep(before) && (r.outcome == "pass" || r.outcome == "fail") && before.workflow != []
    requires var n := NextCustomStage(CountRetries(before, r), r); n.Ok? && n.value.status == Running
    ensures var run := CountRetries(before, r);
            GoesOn(ShapeOf(before), PointOf(before), PointOf(run.(stage := NextCustomStage(run, r).value.stage)))
  {
    hide StepFor, NextSelectedStage, Blank, RetryLimit, Steps;
    var run := CountRetries(before, r);
    SuccessorLater(run, run.stage);
    SameSteps(before, run);
    SuccessorOnStep(before, before.stage);
    SameLimits(before, run);
    if before.stage < ARBITRATION && HasStage(before, ARBITRATION) {
      SuccessorAtMost(before, before.stage, ARBITRATION);
    }
  }

  lemma SameLimits(a: Run, b: Run)
    requires a.workflow == b.workflow && a.roles == b.roles && a.maxRetries == b.maxRetries
    ensures forall stage :: RetryLimit(a, stage) == RetryLimit(b, stage)
  {
    assert Steps(a) == Steps(b);
  }

  lemma DefaultShape(run: Run)
    requires run.workflow == []
    ensures var m := run.maxRetries; ShapeOf(run) == Shape(true, true, true, true, true, m, m, m, m)
  {
    hide StepFor;
    DefaultHasStage(run, DEVELOPMENT);
    DefaultHasStage(run, UNIT_TEST);
    DefaultHasStage(run, INTEGRATION);
    DefaultHasStage(run, ARBITRATION);
    DefaultHasStage(run, REVALIDATION);
    DefaultLimit(run, DEVELOPMENT);
    DefaultLimit(run, UNIT_TEST);
    DefaultLimit(run, ARBITRATION);
  }

  lemma DefaultLimit(run: Run, stage: int)
    requires run.workflow == []
    ensures StepFor(run, stage).retryLimit == 0
  {
    DefaultLimits(run.roles);
  }

  lemma DefaultGoesOn(before: Run, r: StepResult)
    requires ValidRun(before) && (r.outcome == "pass" || r.outcome == "fail") && before.workflow == []
    requires var n := NextStage(CountRetries(before, r), r); n.Ok? && n.value.status == Running
    ensures var run := CountRetries(before, r);
            GoesOn(ShapeOf(before), PointOf(before), PointOf(run.(stage := NextStage(run, r).value.stage)))
  {
    hide StepFor, NextCustomStage, Blank, ShapeOf;
    DefaultShape(before);
  }

  lemma ApplyGoesOn(run: Run, r: StepResult)
    requires Live(run) && Apply(run, r).Ok? && Apply(run, r).value.status == Running
    ensures GoesOn(ShapeOf(run), PointOf(run), PointOf(Apply(run, r).value))
  {
    hide NextStage, NextCustomStage, Merge, AgentFor, ShapeOf, GoesOn, HasStage, Blank;
    var pinned := PinSession(run.(context := Merge(run.context, r)), r).value;
    SameShape(run, pinned);
    SameSteps(run, pinned);
    PinnedOnStep(run, pinned);
    if run.workflow == [] {
      DefaultGoesOn(pinned, r);
    } else {
      ViaCustom(CountRetries(pinned, r), r);
      CustomGoesOn(pinned, r);
    }
  }

  lemma ViaCustom(run: Run, r: StepResult)
    requires run.workflow != []
    ensures NextStage(run, r) == NextCustomStage(run, r)
  {
    hide NextCustomStage;
  }

  lemma PinnedOnStep(run: Run, pinned: Run)
    requires ValidRun(run) && OnStep(run)
    requires pinned.workflow == run.workflow && pinned.roles == run.roles && pinned.stage == run.stage
    requires pinned.maxRetries == run.maxRetries
    ensures ValidRun(pinned) && OnStep(pinned)
  {
    hide StepFor;
    SameSteps(run, pinned);
  }

  lemma AdvanceGoesOn(run: Run, e: Event)
    requires Live(run) && Advance(run, e) != run && Advance(run, e).status == Running
    ensures GoesOn(ShapeOf(run), PointOf(run), PointOf(Advance(run, e)))
  {
    hide Apply, AgentFor, StepFor, NextSelectedStage, RetryLimit, ValidRun;
    match e
    case Deliver(r) => ApplyGoesOn(run, r);
    case Approve =>
      ApprovedLater(run);
      ApprovedEarly(run);
    case Reject(_) =>
  }

  lemma ApprovedEarly(run: Run)
    requires ValidRun(run) && HasStage(run, DESIGN)
    ensures HasStage(run, ARBITRATION) ==> NextSelectedStage(run, DESIGN) <= ARBITRATION
  {
    hide StepFor, NextSelectedStage;
    if HasStage(run, ARBITRATION) {
      SuccessorAtMost(run, DESIGN, ARBITRATION);
    }
  }

  // ---- What pays for an edge -----------------------------------------------------------------------------------

  function Uses(t: map<string, nat>, from: int, to: int, e: EdgeEvent): nat {
    CountOf(t, EdgeId(NodeId(from), NodeId(to), e))
  }

  /** How often the run went from one stage to the other, whatever the event. */
  function Count(t: map<string, nat>, from: int, to: int): nat {
    Uses(t, from, to, Success) + Uses(t, from, to, Failure) + Uses(t, from, to, Approval)
  }

  lemma BumpUses(t: map<string, nat>, a: int, b: int, e: EdgeEvent, x: int, y: int, f: EdgeEvent)
    requires DESIGN <= a <= REPORT && DESIGN <= b <= REPORT && DESIGN <= x <= REPORT && DESIGN <= y <= REPORT
    ensures Uses(Bump(t, EdgeId(NodeId(a), NodeId(b), e)), x, y, f) ==
            Uses(t, x, y, f) + if a == x && b == y && e == f then 1 else 0
  {
    hide NodeId, EdgeId;
    if EdgeId(NodeId(a), NodeId(b), e) == EdgeId(NodeId(x), NodeId(y), f) {
      NodeIdLength(a);
      NodeIdLength(b);
      NodeIdLength(x);
      NodeIdLength(y);
      EdgeIdInjective(NodeId(a), NodeId(b), e, NodeId(x), NodeId(y), f);
      NodeIdInjective(a, x);
      NodeIdInjective(b, y);
    }
  }

  lemma BumpCount(t: map<string, nat>, a: int, b: int, e: EdgeEvent)
    requires DESIGN <= a <= REPORT && DESIGN <= b <= REPORT
    ensures forall x, y | DESIGN <= x <= REPORT && DESIGN <= y <= REPORT ::
              Count(Bump(t, EdgeId(NodeId(a), NodeId(b), e)), x, y) == Count(t, x, y) + if a == x && b == y then 1 else 0
  {
    hide Uses, Bump, NodeId, EdgeId;
    forall x, y | DESIGN <= x <= REPORT && DESIGN <= y <= REPORT
      ensures Count(Bump(t, EdgeId(NodeId(a), NodeId(b), e)), x, y) == Count(t, x, y) + if a == x && b == y then 1 else 0
    {
      BumpUses(t, a, b, e, x, y, Success);
      BumpUses(t, a, b, e, x, y, Failure);
      BumpUses(t, a, b, e, x, y, Approval);
    }
  }

  /** How often the run came back to this stage's rank or below it. */
  function Returns(t: map<string, nat>, stage: int): nat {
    (if Rank(stage) >= 2 then Count(t, INTEGRATION, DEVELOPMENT) + Count(t, ARBITRATION, DEVELOPMENT) else 0) +
    (if Rank(stage) >= 5 then Count(t, ARBITRATION, REVALIDATION) else 0)
  }

  predicate UpTo(count: int, limit: int) {
    count == 0 || count <= limit
  }

  /** Repairs are paid for by the retry counter, and none is taken beyond its stage's limit. */
  predicate RepairsPaid(sh: Shape, p: Point, t: map<string, nat>) {
    var d, i := Count(t, DEVELOPMENT, DEVELOPMENT), Count(t, INTEGRATION, DEVELOPMENT);
    var a, v := Count(t, ARBITRATION, DEVELOPMENT), Count(t, ARBITRATION, REVALIDATION);
    && d + i + a + v <= p.retries && Count(t, UNIT_TEST, UNIT_TEST) <= p.unitRetries
    && UpTo(d, sh.devLimit - 1) && UpTo(i, sh.devLimit - 1) && UpTo(a, sh.arbLimit) && UpTo(v, sh.arbLimit)
    && UpTo(Count(t, UNIT_TEST, UNIT_TEST), sh.unitLimit - 1)
    && (i > 0 ==> sh.dev && sh.integ && !sh.arb) && (a > 0 ==> sh.dev && sh.arb)
    && (v > 0 ==> !sh.dev && sh.arb && sh.reval)
  }

  /** Every other edge is paid for by a return to its stage, but for the one that is open. */
  predicate PairPaid(sh: Shape, p: Point, t: map<string, nat>, a: int, b: int) {
    if a == b then a == UNIT_TEST || a == DEVELOPMENT || Count(t, a, b) == 0
    else if b == REPORT then p.stage != REPORT ==> Count(t, a, b) == 0
    else if a == ARBITRATION || (a == INTEGRATION && b == DEVELOPMENT) then true
    else if a == REVALIDATION && !sh.dev && sh.arb then
      Count(t, a, b) + (if p.stage == REVALIDATION then 1 else 0) <= Count(t, ARBITRATION, REVALIDATION)
    else Count(t, a, b) <= Returns(t, a) + if Rank(p.stage) > Rank(a) then 1 else 0
  }

  ghost predicate Paid(sh: Shape, p: Point, t: map<string, nat>) {
    && RepairsPaid(sh, p, t)
    && forall a, b | DESIGN <= a <= REPORT && DESIGN <= b <= REPORT :: PairPaid(sh, p, t, a, b)
  }

  ghost predicate Bumped(t: map<string, nat>, after: map<string, nat>, a: int, b: int) {
    forall x, y | DESIGN <= x <= REPORT && DESIGN <= y <= REPORT ::
      Count(after, x, y) == Count(t, x, y) + if a == x && b == y then 1 else 0
  }

  lemma RepairsStayPaid(sh: Shape, p: Point, q: Point, t: map<string, nat>, after: map<string, nat>)
    requires RepairsPaid(sh, p, t) && GoesOn(sh, p, q) && Bumped(t, after, p.stage, q.stage)
    ensures RepairsPaid(sh, q, after)
  {
    hide Count;
  }

  lemma PairStaysPaid(sh: Shape, p: Point, q: Point, t: map<string, nat>, after: map<string, nat>, a: int, b: int)
    requires Paid(sh, p, t) && GoesOn(sh, p, q) && Bumped(t, after, p.stage, q.stage)
    requires DESIGN <= a <= REPORT && DESIGN <= b <= REPORT
    ensures PairPaid(sh, q, after, a, b)
  {
    hide Count;
    assert PairPaid(sh, p, t, a, b);
  }

  lemma StaysPaid(sh: Shape, p: Point, q: Point, t: map<string, nat>, after: map<string, nat>)
    requires Paid(sh, p, t) && GoesOn(sh, p, q) && Bumped(t, after, p.stage, q.stage)
    ensures Paid(sh, q, after)
  {
    hide Count, GoesOn, RepairsPaid, PairPaid, Bumped;
    RepairsStayPaid(sh, p, q, t, after);
    forall a, b | DESIGN <= a <= REPORT && DESIGN <= b <= REPORT ensures PairPaid(sh, q, after, a, b) {
      PairStaysPaid(sh, p, q, t, after, a, b);
    }
  }

  /** Within safe limits every paid edge has room for one more use. */
  lemma RoomForMove(sh: Shape, p: Point, q: Point, t: map<string, nat>)
    requires SafeLimits(sh) && sh.retries >= 1 && Paid(sh, p, t) && GoesOn(sh, p, q)
    ensures Count(t, p.stage, q.stage) <= sh.retries
  {
    hide Count;
    assert PairPaid(sh, p, t, p.stage, q.stage);
  }

  // ---- Whole runs --------------------------------------------------------------------------------------------------

  /** A run as it is created, with nothing counted and no session pinned. */
  ghost predicate Fresh(run: Run) {
    Created(run) && run.retryCount == 0 && run.unitRetryCount == 0 && run.parentSession == ""
  }

  lemma FreshPaid(run: Run)
    requires Fresh(run)
    ensures Paid(ShapeOf(run), PointOf(run), map[])
  {
    hide StepFor, RetryLimit, NodeId, EdgeId, Live;
    FirstStageEarly(run);
  }

  lemma FirstStageEarly(run: Run)
    requires Created(run)
    ensures forall stage | stage >= DESIGN && HasStage(run, stage) :: run.stage <= stage
  {
    hide NormalizeWorkflow;
    StepsFacts(run);
  }

  lemma FollowPaid(g: Graph, s: Shadow, t: Timed)
    requires Simulates(g, s) && Paid(ShapeOf(s.run), PointOf(s.run), s.plan.traversals)
    ensures var after := Follow(g, s, t);
            && ShapeOf(after.run) == ShapeOf(s.run)
            && (after.refused.None? && !TerminalStatus(after.run.status) ==>
                  Paid(ShapeOf(after.run), PointOf(after.run), after.plan.traversals))
            && (after.refused == Some(LoopExhausted) ==> !SafeLimits(ShapeOf(s.run)))
  {
    hide Advance, Follow, Simulates, Live, ShapeOf, Paid, PointOf, SafeLimits, TerminalStatus, Moves;
    var next := Advance(s.run, t.event);
    SimulatedRun(g, s);
    AdvanceSteps(s.run, t.event);
    SameShape(s.run, next);
    RefusalKeeps(g, s, t);
    if next == s.run {
      NothingFollows(g, s, t);
    } else {
      AcceptedPaid(g, s, t);
    }
  }

  lemma AcceptedPaid(g: Graph, s: Shadow, t: Timed)
    requires Simulates(g, s) && Paid(ShapeOf(s.run), PointOf(s.run), s.plan.traversals) && Advance(s.run, t.event) != s.run
    ensures var after := Follow(g, s, t);
            && (after.refused.None? ==> after.run == Advance(s.run, t.event))
            && (after.refused.None? && !TerminalStatus(after.run.status) ==>
                  Paid(ShapeOf(s.run), PointOf(after.run), after.plan.traversals))
            && (after.refused == Some(LoopExhausted) ==> !SafeLimits(ShapeOf(s.run)))
  {
    hide Advance, Follow, Simulates, Live, ShapeOf, Paid, NodeId, EdgeId, FinishOf, Bump, Retries, SafeLimits, EdgeFor,
         PointOf;
    var next := Advance(s.run, t.event);
    SimulatedRun(g, s);
    GraphFollowsEngine(g, s, t);
    AdvanceKinds(s.run, t.event);
    if next.status == Running {
      MovePaid(g, s, t);
    } else if next.status == WaitingApproval {
      WaitsAtPoint(s.run, t.event);
    }
  }

  lemma WaitsAtPoint(run: Run, e: Event)
    requires Live(run) && Advance(run, e) != run && Advance(run, e).status == WaitingApproval
    ensures PointOf(Advance(run, e)) == PointOf(run)
  {
    hide Apply, NextSelectedStage, AgentFor, HasStage;
    if e.Deliver? {
      ApplyWaits(run, e.result);
    }
  }

  lemma ApplyWaits(run: Run, r: StepResult)
    requires ValidRun(run) && Apply(run, r).Ok? && Apply(run, r).value.status == WaitingApproval
    ensures PointOf(Apply(run, r).value) == PointOf(run)
  {
    hide NextStage, Merge, AgentFor, StepFor, Blank;
    var pinned := PinSession(run.(context := Merge(run.context, r)), r).value;
    NextStageForward(pinned, r);
  }

  lemma MovePaid(g: Graph, s: Shadow, t: Timed)
    requires Simulates(g, s) && Paid(ShapeOf(s.run), PointOf(s.run), s.plan.traversals)
    requires Advance(s.run, t.event) != s.run && Advance(s.run, t.event).status == Running
    ensures var next := Advance(s.run, t.event);
            && Paid(ShapeOf(s.run), PointOf(next), Bump(s.plan.traversals, EdgeFor(s.run, t.event).id))
            && (SafeLimits(ShapeOf(s.run)) ==> RefusalOf(g, s, t) != Some(LoopExhausted))
  {
    hide Advance, Live, Paid, FinishOf, Bump, SafeLimits, ShapeOf, PointOf, EdgeFor, LoopLimit, Compile;
    EdgePaid(s.run, t.event, s.plan.traversals);
    if SafeLimits(ShapeOf(s.run)) {
      EdgeHasRoom(s.run, t.event, s.plan.traversals);
    }
  }

  lemma EdgePaid(run: Run, e: Event, t: map<string, nat>)
    requires Live(run) && Paid(ShapeOf(run), PointOf(run), t) && Advance(run, e) != run && Advance(run, e).status == Running
    ensures Paid(ShapeOf(run), PointOf(Advance(run, e)), Bump(t, EdgeFor(run, e).id))
  {
    hide Advance, Live, Paid, NodeId, EdgeId, FinishOf, GoesOn, Bump, ShapeOf;
    var p, q := PointOf(run), PointOf(Advance(run, e));
    AdvanceGoesOn(run, e);
    GoesOnStages(ShapeOf(run), p, q);
    BumpCount(t, p.stage, q.stage, EdgeFor(run, e).on);
    StaysPaid(ShapeOf(run), p, q, t, Bump(t, EdgeFor(run, e).id));
  }

  lemma EdgeHasRoom(run: Run, e: Event, t: map<string, nat>)
    requires Live(run) && Paid(ShapeOf(run), PointOf(run), t) && SafeLimits(ShapeOf(run))
    requires Advance(run, e) != run && Advance(run, e).status == Running
    ensures CountOf(t, EdgeFor(run, e).id) + 1 <= LoopLimit(run)
  {
    hide Advance, Paid, NodeId, EdgeId, FinishOf, GoesOn, SafeLimits, HasStage, RetryLimit, Bounded, CountOf;
    var p, q := PointOf(run), PointOf(Advance(run, e));
    AdvanceGoesOn(run, e);
    RoomForMove(ShapeOf(run), p, q, t);
    UsesWithin(t, p.stage, q.stage, EdgeFor(run, e).on);
  }

  lemma GoesOnStages(sh: Shape, p: Point, q: Point)
    requires GoesOn(sh, p, q)
    ensures DESIGN <= p.stage <= REPORT && DESIGN <= q.stage <= REPORT
  {
  }

  lemma UsesWithin(t: map<string, nat>, a: int, b: int, e: EdgeEvent)
    ensures Uses(t, a, b, e) <= Count(t, a, b)
  {
  }

  lemma {:induction false} PaidAlways(g: Graph, run: Run, ts: seq<Timed>)
    requires Fresh(run) && Compile(run) == Some(g)
    ensures var s := FollowAll(g, Begin(g, run), ts);
            && ShapeOf(s.run) == ShapeOf(run)
            && (s.refused.None? && !TerminalStatus(s.run.status) ==> Paid(ShapeOf(run), PointOf(s.run), s.plan.traversals))
            && (SafeLimits(ShapeOf(run)) ==> s.refused != Some(LoopExhausted))
  {
    hide Advance, Follow, Simulates, Created, Compile, Paid, ShapeOf, PointOf, SafeLimits;
    BeginSimulates(g, run);
    FreshPaid(run);
    if ts == [] {
      SimulatedRun(g, Begin(g, run));
    } else {
      var init, last := ts[..|ts| - 1], ts[|ts| - 1];
      var s := FollowAll(g, Begin(g, run), init);
      PaidAlways(g, run, init);
      RefusedStays(g, s, last);
      if s.refused.None? {
        TracksAlways(g, run, init);
        if TerminalStatus(s.run.status) {
          TerminalStays(s.run, last.event);
          NothingFollows(g, s, last);
        } else {
          FollowPaid(g, s, last);
        }
      }
    }
  }

  /** Within safe limits no run ever uses up an edge. */
  lemma SafeNeverExhausts(g: Graph, run: Run, ts: seq<Timed>)
    requires Fresh(run) && Compile(run) == Some(g) && SafeLimits(ShapeOf(run))
    ensures FollowAll(g, Begin(g, run), ts).refused != Some(LoopExhausted)
  {
    hide FollowAll, Fresh, Compile, ShapeOf, SafeLimits;
    PaidAlways(g, run, ts);
  }

  /** A workflow whose stages set no larger limit than the run's own is within safe limits. */
  lemma NoLargerLimitIsSafe(run: Run)
    requires ValidRun(run) && Limit(run) == run.maxRetries
    ensures SafeLimits(ShapeOf(run))
  {
    hide StepFor, RetryLimit, Limit;
    RetryLimitBounded(run, DEVELOPMENT);
    RetryLimitBounded(run, UNIT_TEST);
    RetryLimitBounded(run, ARBITRATION);
  }
}
