/** The compatibility graph: every legacy stage a node, and between every two nodes one edge per event
    that the result's own fields select. */
module LegacyGraph {
  import opened Options
  import opened Text
  import opened Decimal
  import opened PipelineStatus
  import opened PipelineEngine

  datatype EdgeEvent = Success | Failure | Approval

  /** `maxAttempts` is the node's retry policy. */
  datatype Node = Node(id: string, agent: string, maxAttempts: int)
  datatype Edge = Edge(id: string, from: string, to: string, on: EdgeEvent, maxTraversals: int)
  datatype Graph = Graph(nodes: seq<Node>, entry: string, exits: seq<string>, edges: seq<Edge>)

  function Ids(nodes: seq<Node>): seq<string> {
    seq(|nodes|, i requires 0 <= i < |nodes| => nodes[i].id)
  }

  function EventName(e: EdgeEvent): string {
    match e case Success => "success" case Failure => "failure" case Approval => "approval"
  }

  function NodeId(stage: int): string {
    "legacy-node-" + NatText(if stage < 0 then 0 else stage)
  }

  function EdgeId(from: string, to: string, e: EdgeEvent): string {
    "legacy-edge-" + from + "-" + to + "-" + EventName(e)
  }

  function LoopLimit(run: Run): int {
    if run.maxRetries + 1 < 1 then 1 else run.maxRetries + 1
  }

  // ---- Compiling --------------------------------------------------------------------------------

  predicate CompilableSteps(steps: seq<WorkflowStep>) {
    && steps != [] && (forall i | 0 <= i < |steps| :: DESIGN <= steps[i].stage <= REPORT && !Blank(steps[i].agent))
    && forall i, j | 0 <= i < j < |steps| :: steps[i].stage != steps[j].stage
  }

  predicate RetriesAllowed(steps: seq<WorkflowStep>) {
    forall i | 0 <= i < |steps| :: steps[i].retryLimit >= 0
  }

  function NodeOf(step: WorkflowStep): Node {
    Node(NodeId(step.stage), step.agent, step.retryLimit)
  }

  function NodesOf(steps: seq<WorkflowStep>): seq<Node> {
    seq(|steps|, i requires 0 <= i < |steps| => NodeOf(steps[i]))
  }

  function NodeIds(steps: seq<WorkflowStep>): seq<string> {
    seq(|steps|, i requires 0 <= i < |steps| => NodeId(steps[i].stage))
  }

  function EdgeOf(from: string, to: string, e: EdgeEvent, limit: int): Edge {
    Edge(EdgeId(from, to, e), from, to, e, limit)
  }

  function Block(from: string, to: string, limit: int): seq<Edge> {
    [EdgeOf(from, to, Success, limit), EdgeOf(from, to, Failure, limit), EdgeOf(from, to, Approval, limit)]
  }

  function Row(from: string, tos: seq<string>, limit: int): seq<Edge> {
    if tos == [] then [] else Row(from, tos[..|tos| - 1], limit) + Block(from, tos[|tos| - 1], limit)
  }

  function Rows(froms: seq<string>, tos: seq<string>, limit: int): seq<Edge> {
    if froms == [] then [] else Rows(froms[..|froms| - 1], tos, limit) + Row(froms[|froms| - 1], tos, limit)
  }

  /** The graph of the steps, before it is validated. */
  function Draft(run: Run): Graph
    requires Steps(run) != []
  {
    var steps := Steps(run);
    var ids := NodeIds(steps);
    Graph(NodesOf(steps), ids[0], ids, Rows(ids, ids, LoopLimit(run)))
  }

  /** Of all that graph validation demands, a draft can only miss non-negative retry policies. */
  function Compile(run: Run): Option<Graph> {
    if CompilableSteps(Steps(run)) && RetriesAllowed(Steps(run)) then Some(Draft(run)) else None
  }

  /** The nested loops that build the lists. */
  method BuildGraph(run: Run) returns (g: Option<Graph>)
    ensures g == Compile(run)
  {
    hide NodeId, Steps, LoopLimit, NodesOf, CompilableSteps, RetriesAllowed;
    var steps := Steps(run);
    var nodes, ids := BuildNodes(steps);
    if nodes.None? {
      return None;
    }
    var allowed := PoliciesValid(steps, nodes.value);
    if !allowed {
      return None;
    }
    var edges := BuildEdges(ids, LoopLimit(run));
    return Some(Graph(nodes.value, ids[0], ids, edges));
  }

  method BuildNodes(steps: seq<WorkflowStep>) returns (nodes: Option<seq<Node>>, ids: seq<string>)
    ensures nodes == if CompilableSteps(steps) then Some(NodesOf(steps)) else None
    ensures nodes.Some? ==> steps != [] && ids == NodeIds(steps)
  {
    hide NodeId, NodeOf, Blank;
    ids := [];
    if steps == [] {
      return None, ids;
    }
    var built: seq<Node> := [];
    for i := 0 to |steps|
      invariant built == NodesOf(steps)[..i] && ids == NodeIds(steps)[..i]
      invariant forall k | 0 <= k < i :: DESIGN <= steps[k].stage <= REPORT && !Blank(steps[k].agent)
      invariant forall k, l | 0 <= k < l < i :: steps[k].stage != steps[l].stage
    {
      if !(DESIGN <= steps[i].stage <= REPORT) || Blank(steps[i].agent) {
        return None, ids;
      }
      var repeated := StageSeen(steps, i);
      if repeated {
        return None, ids;
      }
      built := built + [NodeOf(steps[i])];
      ids := ids + [NodeId(steps[i].stage)];
    }
    assert built == NodesOf(steps) && ids == NodeIds(steps);
    return Some(built), ids;
  }

  /** What validation can find wrong with a draft. */
  method PoliciesValid(steps: seq<WorkflowStep>, nodes: seq<Node>) returns (valid: bool)
    requires nodes == NodesOf(steps)
    ensures valid == RetriesAllowed(steps)
  {
    hide NodeId;
    for i := 0 to |nodes|
      invariant forall k | 0 <= k < i :: steps[k].retryLimit >= 0
    {
      assert nodes[i].maxAttempts == steps[i].retryLimit;
      if nodes[i].maxAttempts < 0 {
        return false;
      }
    }
    return true;
  }

  method StageSeen(steps: seq<WorkflowStep>, i: nat) returns (seen: bool)
    requires i < |steps|
    ensures seen <==> exists k | 0 <= k < i :: steps[k].stage == steps[i].stage
  {
    for k := 0 to i
      invariant forall l | 0 <= l < k :: steps[l].stage != steps[i].stage
    {
      if steps[k].stage == steps[i].stage {
        return true;
      }
    }
    return false;
  }

  method BuildEdges(nodes: seq<string>, limit: int) returns (edges: seq<Edge>)
    ensures edges == Rows(nodes, nodes, limit)
  {
    hide Block;
    edges := [];
    for i := 0 to |nodes|
      invariant edges == Rows(nodes[..i], nodes, limit)
    {
      ghost var before := edges;
      for j := 0 to |nodes|
        invariant edges == before + Row(nodes[i], nodes[..j], limit)
      {
        assert nodes[..j + 1][..j] == nodes[..j];
        edges := edges + Block(nodes[i], nodes[j], limit);
      }
      assert nodes[..|nodes|] == nodes && nodes[..i + 1][..i] == nodes[..i];
    }
    assert nodes[..|nodes|] == nodes;
  }

  // ---- Routing ------------------------------------------------------------------------------------

  /** The result fields the edge predicates look at. */
  datatype Fields = Fields(proceed: bool, nextNode: string)

  predicate Enabled(e: Edge, node: string, event: EdgeEvent, f: Fields) {
    e.from == node && e.on == event && f.proceed && f.nextNode == e.to
  }

  function Matched(edges: seq<Edge>, node: string, event: EdgeEvent, f: Fields): seq<Edge> {
    if edges == [] then []
    else
      var init := Matched(edges[..|edges| - 1], node, event, f);
      if Enabled(edges[|edges| - 1], node, event, f) then init + [edges[|edges| - 1]] else init
  }

  datatype Route = Traverse(edge: Edge) | Ambiguous | Exhausted | Stop

  function CountOf(traversals: map<string, nat>, id: string): nat {
    if id in traversals then traversals[id] else 0
  }

  function RouteFrom(g: Graph, traversals: map<string, nat>, node: string, event: EdgeEvent, f: Fields): Route {
    var matched := Matched(g.edges, node, event, f);
    if |matched| > 1 then Ambiguous
    else if matched == [] then Stop
    else if CountOf(traversals, matched[0].id) + 1 > matched[0].maxTraversals then Exhausted
    else Traverse(matched[0])
  }

  // ---- Exactly one edge ---------------------------------------------------------------------------

  predicate DistinctIds(ids: seq<string>) {
    forall i, j | 0 <= i < j < |ids| :: ids[i] != ids[j]
  }

  lemma {:induction false} MatchedConcat(a: seq<Edge>, b: seq<Edge>, node: string, event: EdgeEvent, f: Fields)
    ensures Matched(a + b, node, event, f) == Matched(a, node, event, f) + Matched(b, node, event, f)
    decreases |b|
  {
    hide Enabled;
    if b == [] {
      assert a + b == a;
    } else {
      assert (a + b)[..|a + b| - 1] == a + b[..|b| - 1];
      MatchedConcat(a, b[..|b| - 1], node, event, f);
    }
  }

  function Only(taken: bool, e: Edge): seq<Edge> {
    if taken then [e] else []
  }

  lemma BlockMatch(from: string, to: string, limit: int, node: string, event: EdgeEvent, f: Fields)
    ensures Matched(Block(from, to, limit), node, event, f) ==
            Only(from == node && f.proceed && f.nextNode == to, EdgeOf(from, to, event, limit))
  {
    var b := Block(from, to, limit);
    assert b[..2][..1] == b[..1] && b[..1][..0] == [];
    assert Matched(b[..1], node, event, f) == Only(Enabled(b[0], node, event, f), b[0]);
    assert Matched(b[..2], node, event, f) ==
           Only(Enabled(b[0], node, event, f), b[0]) + Only(Enabled(b[1], node, event, f), b[1]);
  }

  lemma {:induction false} RowMatch(from: string, tos: seq<string>, limit: int, node: string, event: EdgeEvent,
        f: Fields)
    requires DistinctIds(tos)
    ensures Matched(Row(from, tos, limit), node, event, f) ==
            Only(from == node && f.proceed && f.nextNode in tos, EdgeOf(from, f.nextNode, event, limit))
  {
    hide Block, Enabled, EdgeOf;
    if tos != [] {
      var init, last := tos[..|tos| - 1], tos[|tos| - 1];
      RowMatch(from, init, limit, node, event, f);
      BlockMatch(from, last, limit, node, event, f);
      MatchedConcat(Row(from, init, limit), Block(from, last, limit), node, event, f);
      assert f.nextNode in tos <==> f.nextNode in init || f.nextNode == last;
      assert last !in init;
    }
  }

  lemma {:induction false} RowsMatch(froms: seq<string>, tos: seq<string>, limit: int, node: string, event: EdgeEvent,
        f: Fields)
    requires DistinctIds(froms) && DistinctIds(tos)
    ensures Matched(Rows(froms, tos, limit), node, event, f) ==
            Only(node in froms && f.proceed && f.nextNode in tos, EdgeOf(node, f.nextNode, event, limit))
  {
    hide Row, Enabled, EdgeOf;
    if froms != [] {
      var init, last := froms[..|froms| - 1], froms[|froms| - 1];
      RowsMatch(init, tos, limit, node, event, f);
      RowMatch(last, tos, limit, node, event, f);
      MatchedConcat(Rows(init, tos, limit), Row(last, tos, limit), node, event, f);
      assert node in froms <==> node in init || node == last;
      assert last !in init;
    }
  }

  lemma NodeIdInjective(a: int, b: int)
    requires a >= 0 && b >= 0 && NodeId(a) == NodeId(b)
    ensures a == b
  {
    NatTextNat(a);
    NatTextNat(b);
    assert NodeId(a)[12..] == NatText(a) && NodeId(b)[12..] == NatText(b);
  }

  lemma NodesDistinct(steps: seq<WorkflowStep>)
    requires CompilableSteps(steps)
    ensures DistinctIds(NodeIds(steps))
  {
    hide NodeId, Blank;
    forall i, j | 0 <= i < j < |steps| ensures NodeId(steps[i].stage) != NodeId(steps[j].stage) {
      if NodeId(steps[i].stage) == NodeId(steps[j].stage) {
        NodeIdInjective(steps[i].stage, steps[j].stage);
      }
    }
  }

  /** For a node of a compiled graph and any of the three events, exactly one edge is enabled when the
      result says to continue and its next node exists, leading there; none otherwise. */
  lemma ExactlyOneEdge(run: Run, g: Graph, node: string, event: EdgeEvent, f: Fields)
    requires Compile(run) == Some(g) && node in Ids(g.nodes)
    ensures Matched(g.edges, node, event, f) ==
            if f.proceed && f.nextNode in Ids(g.nodes) then [EdgeOf(node, f.nextNode, event, LoopLimit(run))] else []
  {
    hide Rows, EdgeOf, CompilableSteps, Matched, NodeId, Steps;
    CompiledIds(run, g);
    NodesDistinct(Steps(run));
    RowsMatch(Ids(g.nodes), Ids(g.nodes), LoopLimit(run), node, event, f);
  }

  lemma CompiledIds(run: Run, g: Graph)
    requires Compile(run) == Some(g)
    ensures Ids(g.nodes) == NodeIds(Steps(run)) == g.exits && g.entry == Ids(g.nodes)[0]
    ensures g.edges == Rows(Ids(g.nodes), Ids(g.nodes), LoopLimit(run))
  {
    hide NodeId, Steps, Rows;
  }

  // ---- The plan's projection ------------------------------------------------------------------------

  /** How an attempt is finished: by a result, by a result that asks for approval, or by the decision. */
  datatype FinishEvent = Passes | Fails | Awaits | Granted | Denied

  /** What identifies a finishing call: repeating it must repeat this. */
  datatype Finish = Finish(
    event: FinishEvent, outcome: string, summary: string, task: string, issue: string, codeVersion: string,
    coverage: real, nextStage: int, status: Status)

  /** Where the plan stands: an attempt under way, perhaps waiting for approval; a node ready to start; over. */
  datatype Position =
    | Active(node: string, attemptNo: nat, waiting: Option<Finish>)
    | Ready(node: string)
    | Ended(succeeded: bool)

  /** `decisions` is the log of traversed edges; `attempts` counts the attempts of each node. */
  datatype Projection = Projection(
    position: Position, traversals: map<string, nat>, attempts: map<string, nat>, decisions: seq<Edge>)

  datatype Refusal = LeaseLost | IdempotencyConflict | StaleAttempt | AmbiguousTransition | LoopExhausted | NotReady

  function NewProjection(g: Graph): Projection {
    Projection(Ready(g.entry), map[], map[], [])
  }

  function Bump(counts: map<string, nat>, id: string): map<string, nat> {
    counts[id := CountOf(counts, id) + 1]
  }

  function StartAttempt(p: Projection, node: string): Result<Projection, Refusal> {
    if p.position != Ready(node) then Err(NotReady)
    else
      var n := CountOf(p.attempts, node) + 1;
      Ok(p.(position := Active(node, n, None), attempts := Bump(p.attempts, node)))
  }

  function EdgeEventOf(event: FinishEvent): EdgeEvent {
    match event
    case Passes => Success
    case Granted => Approval
    case _ => Failure
  }

  function MaxAttempts(g: Graph, node: string): int {
    MaxAttemptsIn(g.nodes, node)
  }

  function MaxAttemptsIn(nodes: seq<Node>, node: string): int {
    if nodes == [] then 0 else if nodes[0].id == node then nodes[0].maxAttempts else MaxAttemptsIn(nodes[1..], node)
  }

  /** A failed result that leads nowhere is tried again while the node's retry policy allows. */
  predicate Retries(g: Graph, node: string, attemptNo: nat, event: FinishEvent) {
    event == Fails && MaxAttempts(g, node) > attemptNo && MaxAttempts(g, node) > 1
  }

  function Settle(g: Graph, p: Projection, node: string, attemptNo: nat, event: FinishEvent, f: Fields):
    Result<Projection, Refusal>
  {
    match RouteFrom(g, p.traversals, node, EdgeEventOf(event), f)
    case Ambiguous => Err(AmbiguousTransition)
    case Exhausted => Err(LoopExhausted)
    case Traverse(e) =>
      Ok(p.(position := Ready(e.to), traversals := Bump(p.traversals, e.id), decisions := p.decisions + [e]))
    case Stop =>
      Ok(p.(position := if Retries(g, node, attemptNo, event) then Ready(node)
                        else Ended(event == Passes || event == Granted)))
  }

  /** `late` says that the attempt's lease has run out; an attempt that waits for approval has none. */
  function FinishAttempt(g: Graph, p: Projection, finish: Finish, f: Fields, late: bool): Result<Projection, Refusal> {
    if !p.position.Active? then Err(StaleAttempt)
    else
      var Active(node, attemptNo, waiting) := p.position;
      if finish.event == Granted || finish.event == Denied then
        if waiting.None? then Err(StaleAttempt) else Settle(g, p, node, attemptNo, finish.event, f)
      else if waiting.Some? then
        if waiting.value == finish then Ok(p) else Err(IdempotencyConflict)
      else if late then Err(LeaseLost)
      else if finish.event == Awaits then Ok(p.(position := Active(node, attemptNo, Some(finish))))
      else Settle(g, p, node, attemptNo, finish.event, f)
  }
}
