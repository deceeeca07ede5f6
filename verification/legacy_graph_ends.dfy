/** How a plan ends beside its run: over, or with its last node ready to be tried again. */
module LegacyGraphEnds {
  import opened Options
  import opened Text
  import opened PipelineStatus
  import opened PipelineEngine
  import opened PipelineEngineProofs
  import opened LegacyGraph
  import opened LegacyGraphSimulation
  import opened LegacyGraphWalks

  lemma {:induction false} PolicyIn(steps: seq<WorkflowStep>, stage: int)
    requires StagesValid(steps) && stage >= 0 && FindStep(steps, stage).Some?
    ensures MaxAttemptsIn(NodesOf(steps), NodeId(stage)) == steps[FindStep(steps, stage).value].retryLimit
  {
    hide NodeId;
    assert NodesOf(steps)[0].id == NodeId(steps[0].stage);
    if steps[0].stage != stage {
      if NodeId(steps[0].stage) == NodeId(stage) {
        NodeIdInjective(steps[0].stage, stage);
      }
      assert NodesOf(steps)[1..] == NodesOf(steps[1..]);
      PolicyIn(steps[1..], stage);
    }
  }

  /** A node's retry policy is its stage's retry limit. */
  lemma PolicyOf(run: Run, g: Graph, stage: int)
    requires Compile(run) == Some(g) && stage >= DESIGN && HasStage(run, stage)
    ensures MaxAttempts(g, NodeId(stage)) == StepFor(run, stage).retryLimit
  {
    hide NodeId, Rows, Blank, NodesOf;
    PolicyIn(Steps(run), stage);
  }

  /** The result failed at a stage whose own retry limit leaves attempts. */
  predicate TriedAgain(run: Run, attempts: nat, e: Event) {
    var limit := StepFor(run, run.stage).retryLimit;
    e.Deliver? && e.result.outcome != "pass" && limit > 1 && limit > attempts
  }

  /** When the run ends, the plan ends too unless the failed stage has attempts left, and then its node is ready
      although nothing will start it; a plan that ends has succeeded exactly if the last result passed. */
  lemma PlanEndsIff(g: Graph, s: Shadow, t: Timed)
    requires Simulates(g, s) && Advance(s.run, t.event) != s.run
    requires TerminalStatus(Advance(s.run, t.event).status) && Follow(g, s, t).refused.None?
    ensures Follow(g, s, t).run == Advance(s.run, t.event)
    ensures Follow(g, s, t).plan.position ==
            if TriedAgain(s.run, CountOf(s.plan.attempts, NodeId(s.run.stage)), t.event) then Ready(NodeId(s.run.stage))
            else Ended(t.event.Deliver? && t.event.result.outcome == "pass")
  {
    hide Advance, Follow, Compile, Live, NodeId, StepFor, RefusalOf, MaxAttempts, EdgeFor;
    GraphFollowsEngine(g, s, t);
    LiveStage(s.run);
    PolicyOf(s.run, g, s.run.stage);
  }

  predicate NoOwnRetries(run: Run) {
    forall i | 0 <= i < |Steps(run)| :: Steps(run)[i].retryLimit <= 1
  }

  lemma NeverTriedAgain(run: Run, attempts: nat, e: Event)
    requires NoOwnRetries(run)
    ensures !TriedAgain(run, attempts, e)
  {
    hide Steps;
  }

  /** Where no stage sets a retry limit above one, a plan is over whenever its run is. */
  lemma {:induction false} FailsClosed(g: Graph, run: Run, ts: seq<Timed>)
    requires Created(run) && Compile(run) == Some(g) && NoOwnRetries(run)
    ensures var s := FollowAll(g, Begin(g, run), ts);
            s.refused.None? && TerminalStatus(s.run.status) ==> s.plan.position.Ended?
  {
    hide Advance, Follow, Simulates, Created, Compile, NodeId, TriedAgain, Steps;
    BeginSimulates(g, run);
    SimulatedRun(g, Begin(g, run));
    if ts != [] {
      var init, last := ts[..|ts| - 1], ts[|ts| - 1];
      var s := FollowAll(g, Begin(g, run), init);
      FailsClosed(g, run, init);
      RefusedStays(g, s, last);
      if s.refused.None? {
        TracksAlways(g, run, init);
        if Advance(s.run, last.event) == s.run {
          NothingFollows(g, s, last);
        } else if !TerminalStatus(s.run.status) {
          EndsClosed(g, run, s, last);
        } else {
          TerminalStays(s.run, last.event);
        }
      }
    }
  }

  lemma EndsClosed(g: Graph, run: Run, s: Shadow, t: Timed)
    requires Simulates(g, s) && Advance(s.run, t.event) != s.run && NoOwnRetries(run)
    requires Compile(run) == Some(g)
    ensures var after := Follow(g, s, t);
            after.refused.None? && TerminalStatus(after.run.status) ==> after.plan.position.Ended?
  {
    hide Advance, Follow, Simulates, Compile, NodeId, TriedAgain, RefusalOf, EdgeFor, Retries;
    if Follow(g, s, t).refused.None? {
      GraphFollowsEngine(g, s, t);
      if TerminalStatus(Follow(g, s, t).run.status) {
        PlanEndsIff(g, s, t);
        SimulatedRun(g, s);
        SameLimitsInGraph(run, s.run, g);
        NeverTriedAgain(s.run, CountOf(s.plan.attempts, NodeId(s.run.stage)), t.event);
      }
    }
  }

  /** The graph keeps the limits of the steps it was compiled from. */
  lemma SameLimitsInGraph(a: Run, b: Run, g: Graph)
    requires Compile(a) == Some(g) == Compile(b) && NoOwnRetries(a)
    ensures NoOwnRetries(b)
  {
    hide NodeId, Rows, Blank, Steps;
    forall i | 0 <= i < |Steps(b)| ensures Steps(b)[i].retryLimit <= 1 {
      assert NodesOf(Steps(b))[i] == NodesOf(Steps(a))[i];
    }
  }

  /** A design stage with two attempts of its own: the first failure suspends the run and leaves its node ready. */
  lemma StrandedPlan(run: Run, g: Graph, r: StepResult)
    requires Created(run) && Compile(run) == Some(g)
    requires run.workflow == [WorkflowStep(DESIGN, "designer", 2), WorkflowStep(REPORT, "tester", 0)]
    requires r.stage == DESIGN && r.agent == "designer" && r.outcome == "fail"
    ensures var s := Follow(g, Begin(g, run), Timed(Deliver(r), false));
            s.refused.None? && s.run.status == Suspended && s.plan.position == Ready(NodeId(DESIGN))
  {
    hide NodeId, Compile, Live, Follow, Simulates, FinishOf, EdgeFor, Merge, Blank, Trim;
    var s := Begin(g, run);
    BeginSimulates(g, run);
    TwoSteps(run);
    DesignFails(run, r);
    GraphFollowsEngine(g, s, Timed(Deliver(r), false));
    NotWaiting(g, run, s, Timed(Deliver(r), false));
    PlanEndsIff(g, s, Timed(Deliver(r), false));
    FirstAttempt(g, run);
  }

  lemma TwoSteps(run: Run)
    requires run.workflow == [WorkflowStep(DESIGN, "designer", 2), WorkflowStep(REPORT, "tester", 0)]
    ensures Steps(run) == run.workflow && StepFor(run, DESIGN) == run.workflow[0] && AgentFor(run, DESIGN) == "designer"
  {
    hide NormalizeWorkflow, StepFor;
    TwoInOrder(run.workflow[0], run.workflow[1]);
    FirstStep(run);
  }

  lemma DesignFails(run: Run, r: StepResult)
    requires run.workflow != [] && run.status == Running && run.stage == DESIGN && AgentFor(run, DESIGN) == "designer"
    requires r.stage == DESIGN && r.agent == "designer" && r.outcome == "fail"
    ensures Apply(run, r).Ok? && Apply(run, r).value.status == Suspended
    ensures Advance(run, Deliver(r)) == Apply(run, r).value != run
  {
    hide AgentFor, Merge, HasStage, NextSelectedStage;
    assert !Blank("designer") by { assert "designer"[0] == 'd'; }
  }

  lemma NotWaiting(g: Graph, run: Run, s: Shadow, t: Timed)
    requires Simulates(g, s) && s.run == run && run.status == Running && !t.late
    requires Advance(run, t.event).status != Running
    ensures RefusalOf(g, s, t).None?
  {
    hide Advance, Live, Compile, FinishOf, EdgeFor;
  }

  lemma FirstAttempt(g: Graph, run: Run)
    requires Created(run) && Compile(run) == Some(g)
    ensures CountOf(Begin(g, run).plan.attempts, NodeId(run.stage)) == 1
  {
    hide NodeId, Live, Rows, CompilableSteps, RetriesAllowed;
  }
}
