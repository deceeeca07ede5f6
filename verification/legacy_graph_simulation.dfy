/** The compatibility graph follows the delivery engine event by event: results, approvals and rejections. */
module LegacyGraphSimulation {
  import opened Options
  import opened PipelineStatus
  import opened PipelineEngine
  import opened PipelineEngineProofs
  import opened LegacyGraph

  /** An event, and whether it comes after the lease of the attempt under way has run out. */
  datatype Timed = Timed(event: Event, late: bool)

  /** A run beside its plan; `refused` once the plan refused an event the engine had accepted. */
  datatype Shadow = Shadow(run: Run, plan: Projection, refused: Option<Refusal>)

  function FinishOf(e: Event, next: Run): Finish {
    match e
    case Deliver(r) =>
      Finish(if next.status == WaitingApproval then Awaits else if r.outcome == "pass" then Passes else Fails,
             r.outcome, r.summary, r.task, r.issue, r.codeVersion, r.coverage, next.stage, next.status)
    case Approve => Finish(Granted, "approved", "", "", "", "", 0.0, next.stage, next.status)
    case Reject(reason) => Finish(Denied, "rejected", reason, "", "", "", 0.0, next.stage, next.status)
  }

  function FieldsOf(next: Run): Fields {
    Fields(next.status == Running, NodeId(next.stage))
  }

  /** The first dispatch of a run starts the entry node. */
  function Begin(g: Graph, run: Run): Shadow {
    match StartAttempt(NewProjection(g), NodeId(run.stage))
    case Ok(plan) => Shadow(run, plan, None)
    case Err(e) => Shadow(run, NewProjection(g), Some(e))
  }

  /** One event: the engine's move, the plan's beside it, and the dispatch of the next stage if there is one. */
  function Follow(g: Graph, s: Shadow, t: Timed): Shadow {
    var next := Advance(s.run, t.event);
    if s.refused.Some? || next == s.run then s
    else
      match FinishAttempt(g, s.plan, FinishOf(t.event, next), FieldsOf(next), t.late)
      case Err(e) => s.(refused := Some(e))
      case Ok(plan) =>
        if next.status != Running then Shadow(next, plan, None)
        else
          match StartAttempt(plan, NodeId(next.stage))
          case Err(e) => s.(refused := Some(e))
          case Ok(started) => Shadow(next, started, None)
  }

  function FollowAll(g: Graph, s: Shadow, ts: seq<Timed>): Shadow {
    if ts == [] then s else Follow(g, FollowAll(g, s, ts[..|ts| - 1]), ts[|ts| - 1])
  }

  // ---- The simulation relation ------------------------------------------------------------------------

  /** The plan's one attempt is under way at the run's stage, and waits for approval exactly when the run does. */
  ghost predicate Simulates(g: Graph, s: Shadow) {
    && s.refused.None? && Compile(s.run) == Some(g) && Live(s.run) && !TerminalStatus(s.run.status)
    && s.plan.position.Active? && s.plan.position.node == NodeId(s.run.stage)
    && s.plan.position.attemptNo == CountOf(s.plan.attempts, s.plan.position.node)
    && (s.plan.position.waiting.Some? <==> s.run.status == WaitingApproval)
    && (s.plan.position.waiting.Some? ==> s.plan.position.waiting.value.event == Awaits)
  }

  lemma StageIsNode(run: Run, g: Graph)
    requires Compile(run) == Some(g) && run.stage >= DESIGN && HasStage(run, run.stage)
    ensures NodeId(run.stage) in Ids(g.nodes)
  {
    hide NodeId, Rows, CompilableSteps, RetriesAllowed;
    var i := FindStep(Steps(run), run.stage).value;
    assert Ids(g.nodes)[i] == NodeId(run.stage);
  }

  lemma SameGraph(a: Run, b: Run)
    requires a.workflow == b.workflow && a.roles == b.roles && a.maxRetries == b.maxRetries
    ensures Compile(a) == Compile(b)
  {
    assert Steps(a) == Steps(b);
  }

  lemma AdvanceSteps(run: Run, e: Event)
    ensures var next := Advance(run, e);
            next.workflow == run.workflow && next.roles == run.roles && next.maxRetries == run.maxRetries
  {
    hide Apply, NextSelectedStage, AgentFor;
    if e.Deliver? && Apply(run, e.result).Ok? {
      ApplyShape(run, e.result);
    }
  }

  /** Which edge the event would take. */
  function EdgeFor(run: Run, e: Event): Edge {
    var next := Advance(run, e);
    EdgeOf(NodeId(run.stage), NodeId(next.stage), EdgeEventOf(FinishOf(e, next).event), LoopLimit(run))
  }

  /** The plan's route for an event the engine accepted. */
  lemma RouteFollows(g: Graph, run: Run, traversals: map<string, nat>, e: Event)
    requires Compile(run) == Some(g) && Live(run) && Advance(run, e) != run
    ensures var next := Advance(run, e);
            var edge := EdgeFor(run, e);
            RouteFrom(g, traversals, NodeId(run.stage), edge.on, FieldsOf(next)) ==
            if next.status != Running then Stop
            else if CountOf(traversals, edge.id) + 1 > LoopLimit(run) then Exhausted else Traverse(edge)
  {
    hide Advance, Compile, HasStage, Matched, NodeId, Live, EdgeId;
    var next := Advance(run, e);
    AdvanceLive(run, e);
    AdvanceSteps(run, e);
    SameGraph(run, next);
    LiveStage(run);
    LiveStage(next);
    StageIsNode(run, g);
    StageIsNode(next, g);
    ExactlyOneEdge(run, g, NodeId(run.stage), EdgeFor(run, e).on, FieldsOf(next));
  }

  lemma LiveStage(run: Run)
    requires Live(run)
    ensures DESIGN <= run.stage <= REPORT && HasStage(run, run.stage)
  {
    hide HasStage;
  }

  /** Why the plan refuses an event the engine accepted, if it does: another result while a decision is awaited,
      a result after the lease ran out, or an edge that is used up. */
  function RefusalOf(g: Graph, s: Shadow, t: Timed): Option<Refusal> {
    var next := Advance(s.run, t.event);
    if !s.plan.position.Active? then Some(StaleAttempt)
    else if s.plan.position.waiting.Some? && t.event.Deliver? then
      if s.plan.position.waiting.value == FinishOf(t.event, next) then None else Some(IdempotencyConflict)
    else if s.plan.position.waiting.None? && t.late then Some(LeaseLost)
    else if next.status == Running && CountOf(s.plan.traversals, EdgeFor(s.run, t.event).id) + 1 > LoopLimit(s.run)
    then Some(LoopExhausted)
    else None
  }

  /** What an event that is not refused does to the plan. */
  ghost predicate Moves(g: Graph, s: Shadow, t: Timed, after: Shadow)
    requires s.plan.position.Active?
  {
    var next := Advance(s.run, t.event);
    var Active(node, attemptNo, _) := s.plan.position;
    && after.run == next
    && if next.status == Running then
         && Simulates(g, after) && after.plan.decisions == s.plan.decisions + [EdgeFor(s.run, t.event)]
         && after.plan.traversals == Bump(s.plan.traversals, EdgeFor(s.run, t.event).id)
         && after.plan.attempts == Bump(s.plan.attempts, NodeId(next.stage))
       else
         && after.plan.decisions == s.plan.decisions && after.plan.traversals == s.plan.traversals
         && after.plan.attempts == s.plan.attempts
         && if next.status == WaitingApproval then Simulates(g, after)
            else after.plan.position ==
                 if Retries(g, node, attemptNo, FinishOf(t.event, next).event) then Ready(node)
                 else Ended(FinishOf(t.event, next).event == Passes)
  }

  /** The decisions a waiting run accepts, and what a run that does not wait accepts. */
  lemma AdvanceKinds(run: Run, e: Event)
    requires Live(run) && !TerminalStatus(run.status) && Advance(run, e) != run
    ensures var next := Advance(run, e);
            && (!e.Deliver? ==> run.status == WaitingApproval)
            && (e.Approve? ==> next.status == Running) && (e.Reject? ==> next.status == Suspended)
            && (next.status == WaitingApproval ==> next.stage == run.stage)
            && (next.status == Running || next.status == WaitingApproval || TerminalStatus(next.status))
  {
    hide Apply, Live, NextSelectedStage, AgentFor;
    if e.Deliver? {
      ApplyProgressLive(run, e.result);
    }
  }

  lemma ApplyProgressLive(run: Run, r: StepResult)
    requires Live(run) && Apply(run, r).Ok?
    ensures var next := Apply(run, r).value;
            && next.status != Waiting && next.status != Failed
            && (next.status == WaitingApproval ==> next.stage == run.stage)
  {
    hide Apply, HasStage;
    ApplyProgress(run, r);
  }

  /** The plan follows the engine: every event the engine accepts is refused for exactly the listed reasons,
      and otherwise takes the one edge to the next stage and starts it when the run goes on, waits when the run
      waits, and ends or readies the node again when the run ends. */
  lemma GraphFollowsEngine(g: Graph, s: Shadow, t: Timed)
    requires Simulates(g, s) && Advance(s.run, t.event) != s.run
    ensures Follow(g, s, t).refused == RefusalOf(g, s, t)
    ensures Follow(g, s, t).refused.None? ==> Moves(g, s, t, Follow(g, s, t))
  {
    hide Advance, Compile, Live, NodeId, EdgeId, RouteFrom, Retries, LoopLimit;
    var next := Advance(s.run, t.event);
    RouteFollows(g, s.run, s.plan.traversals, t.event);
    AdvanceKinds(s.run, t.event);
    AdvanceLive(s.run, t.event);
    AdvanceSteps(s.run, t.event);
    SameGraph(s.run, next);
  }
}
