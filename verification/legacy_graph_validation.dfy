/** What graph validation demands, and that a compiled graph always meets it. */
module LegacyGraphValidation {
  import opened Options
  import opened Text
  import opened Decimal
  import opened PipelineEngine
  import opened PipelineEngineProofs
  import opened LegacyGraph
  import opened LegacyGraphProofs
  import opened LegacyGraphWalks

  const MAX_NODES := 1000
  const MAX_EDGES := 5000

  predicate NodeValid(n: Node) {
    !Blank(n.id) && !Blank(n.agent) && n.maxAttempts >= 0
  }

  predicate EdgeValid(e: Edge, ids: seq<string>) {
    !Blank(e.id) && e.from in ids && e.to in ids && e.maxTraversals >= 0 && (e.from == e.to ==> e.maxTraversals >= 1)
  }

  /** A way from one node to another along edges of the list. */
  ghost predicate Way(edges: seq<Edge>, way: seq<Edge>, from: string, to: string) {
    Connected(way, from) && WalkEnd(way, from) == to && forall e | e in way :: e in edges
  }

  ghost predicate Reaches(edges: seq<Edge>, from: string, to: string) {
    exists way :: Way(edges, way, from, to)
  }

  /** No way back to its start along edges without a traversal limit. */
  ghost predicate LoopsBounded(edges: seq<Edge>) {
    forall way, node | way != [] && Way(edges, way, node, node) :: exists e :: e in way && e.maxTraversals >= 1
  }

  predicate SizesValid(g: Graph) {
    0 < |g.nodes| <= MAX_NODES && |g.edges| <= MAX_EDGES
  }

  predicate NodesValid(g: Graph) {
    DistinctIds(Ids(g.nodes)) && forall i | 0 <= i < |g.nodes| :: NodeValid(g.nodes[i])
  }

  predicate EndsValid(g: Graph) {
    && g.entry in Ids(g.nodes) && g.exits != [] && DistinctIds(g.exits)
    && forall i | 0 <= i < |g.exits| :: g.exits[i] in Ids(g.nodes)
  }

  predicate EdgesValid(g: Graph) {
    DistinctEdges(g.edges) && forall i | 0 <= i < |g.edges| :: EdgeValid(g.edges[i], Ids(g.nodes))
  }

  ghost predicate AllReachable(g: Graph) {
    && (forall id | id in Ids(g.nodes) :: Reaches(g.edges, g.entry, id))
    && (forall id | id in Ids(g.nodes) :: exists exit :: exit in g.exits && Reaches(g.edges, id, exit))
  }

  ghost predicate GraphValid(g: Graph) {
    SizesValid(g) && NodesValid(g) && EndsValid(g) && EdgesValid(g) && AllReachable(g) && LoopsBounded(g.edges)
  }

  /** The stages of a workflow are seven at most. */
  lemma FewSteps(run: Run)
    requires CompilableSteps(Steps(run))
    ensures |Steps(run)| <= 7
  {
    hide Blank;
    if run.workflow != [] {
      hide NormalizeWorkflow;
      NormalizeSorted(run.workflow);
      StagesClimb(Steps(run), |Steps(run)| - 1);
    }
  }

  lemma {:induction false} StagesClimb(steps: seq<WorkflowStep>, i: nat)
    requires i < |steps| && StagesValid(steps) && Sorted(steps) && StagesDistinct(steps)
    ensures steps[i].stage >= i + 1
  {
    if i > 0 {
      StagesClimb(steps, i - 1);
    }
  }

  lemma NamesNotBlank(stage: int, from: string, to: string, e: EdgeEvent)
    ensures !Blank(NodeId(stage)) && !Blank(EdgeId(from, to, e))
  {
    assert NodeId(stage)[0] == 'l' && EdgeId(from, to, e)[0] == 'l';
  }

  /** Any two nodes of a draft are one edge apart. */
  lemma {:induction false} EdgeInRow(from: string, tos: seq<string>, limit: int, to: string, e: EdgeEvent)
    requires to in tos
    ensures EdgeOf(from, to, e, limit) in Row(from, tos, limit)
  {
    hide EdgeOf;
    if to == tos[|tos| - 1] {
      assert EdgeOf(from, to, e, limit) in Block(from, to, limit) by { InBlock(from, to, limit, e); }
    } else {
      EdgeInRow(from, tos[..|tos| - 1], limit, to, e);
    }
  }

  lemma InBlock(from: string, to: string, limit: int, e: EdgeEvent)
    ensures EdgeOf(from, to, e, limit) in Block(from, to, limit)
  {
    hide EdgeOf;
    var b := Block(from, to, limit);
    assert b[0] == EdgeOf(from, to, Success, limit) && b[1] == EdgeOf(from, to, Failure, limit);
    assert b[2] == EdgeOf(from, to, Approval, limit);
  }

  lemma {:induction false} EdgeInRows(froms: seq<string>, tos: seq<string>, limit: int, from: string, to: string,
        e: EdgeEvent)
    requires from in froms && to in tos
    ensures EdgeOf(from, to, e, limit) in Rows(froms, tos, limit)
  {
    hide EdgeOf, Row;
    if from == froms[|froms| - 1] {
      EdgeInRow(from, tos, limit, to, e);
    } else {
      EdgeInRows(froms[..|froms| - 1], tos, limit, from, to, e);
    }
  }

  lemma AllReach(ids: seq<string>, limit: int, from: string, to: string)
    requires from in ids && to in ids
    ensures Reaches(Rows(ids, ids, limit), from, to)
  {
    hide Rows;
    EdgeInRows(ids, ids, limit, from, to, Success);
    assert Way(Rows(ids, ids, limit), [EdgeOf(from, to, Success, limit)], from, to);
  }

  lemma DraftLoopsBounded(ids: seq<string>, limit: int)
    requires limit >= 1
    ensures LoopsBounded(Rows(ids, ids, limit))
  {
    hide Rows, Connected;
    var edges := Rows(ids, ids, limit);
    RowsWithin(ids, ids, limit);
    forall way, node | way != [] && Way(edges, way, node, node) ensures exists e :: e in way && e.maxTraversals >= 1 {
      assert way[0] in way && way[0] in edges;
      var i :| 0 <= i < |edges| && edges[i] == way[0];
      assert EdgeWithin(edges[i], ids, ids, limit);
    }
  }

  lemma DraftEdgesValid(run: Run)
    requires CompilableSteps(Steps(run))
    ensures EdgesValid(Draft(run)) && LoopsBounded(Draft(run).edges)
  {
    hide Rows, Blank, EdgeId, NodeId, Steps, DistinctEdges, LoopsBounded, CompilableSteps;
    var ids, limit := NodeIds(Steps(run)), LoopLimit(run);
    var edges := Rows(ids, ids, limit);
    DraftNodes(Steps(run));
    NodesDistinct(Steps(run));
    CompiledShort(Steps(run));
    RowsDistinct(ids, ids, limit);
    RowsWithin(ids, ids, limit);
    DraftLoopsBounded(ids, limit);
    forall i | 0 <= i < |edges| ensures EdgeValid(edges[i], ids) {
      assert EdgeWithin(edges[i], ids, ids, limit);
      NamesNotBlank(0, edges[i].from, edges[i].to, edges[i].on);
    }
  }

  lemma DraftNodes(steps: seq<WorkflowStep>)
    requires CompilableSteps(steps)
    ensures Ids(NodesOf(steps)) == NodeIds(steps)
  {
    hide NodeId, Blank;
  }

  lemma DraftNodesValidIff(run: Run)
    requires CompilableSteps(Steps(run))
    ensures NodesValid(Draft(run)) <==> RetriesAllowed(Steps(run))
  {
    hide NodeId, Blank, Steps, Rows, DistinctIds;
    var steps, nodes := Steps(run), Draft(run).nodes;
    DraftNodes(steps);
    NodesDistinct(steps);
    forall i | 0 <= i < |steps| ensures NodeValid(nodes[i]) <==> steps[i].retryLimit >= 0 {
      NamesNotBlank(steps[i].stage, "", "", Success);
    }
    if NodesValid(Draft(run)) {
      forall i | 0 <= i < |steps| ensures steps[i].retryLimit >= 0 {
        assert NodeValid(nodes[i]);
      }
    }
  }

  lemma DraftReachable(run: Run)
    requires CompilableSteps(Steps(run))
    ensures AllReachable(Draft(run))
  {
    hide NodeId, Rows, Reaches, Steps, LoopLimit;
    var g := Draft(run);
    var ids := NodeIds(Steps(run));
    DraftNodes(Steps(run));
    forall id | id in ids ensures Reaches(g.edges, g.entry, id) && g.entry in g.exits && Reaches(g.edges, id, g.entry) {
      AllReach(ids, LoopLimit(run), ids[0], id);
      AllReach(ids, LoopLimit(run), id, ids[0]);
    }
  }

  lemma DraftSized(run: Run)
    requires CompilableSteps(Steps(run))
    ensures SizesValid(Draft(run)) && EndsValid(Draft(run))
  {
    hide NodeId, Rows, Steps, LoopLimit, Blank;
    var ids := NodeIds(Steps(run));
    FewSteps(run);
    DraftNodes(Steps(run));
    NodesDistinct(Steps(run));
    EdgeCount(ids, ids, LoopLimit(run));
    SmallSquare(|ids|);
  }

  /** Of all that validation demands, the draft of a compilable workflow can only miss non-negative retry policies. */
  lemma DraftValidIff(run: Run)
    requires CompilableSteps(Steps(run))
    ensures GraphValid(Draft(run)) <==> RetriesAllowed(Steps(run))
  {
    hide Draft, Steps, SizesValid, NodesValid, EndsValid, EdgesValid, AllReachable, LoopsBounded, RetriesAllowed,
         CompilableSteps;
    DraftSized(run);
    DraftNodesValidIff(run);
    DraftEdgesValid(run);
    DraftReachable(run);
  }

  lemma SmallSquare(n: nat)
    requires n <= 7
    ensures n * (3 * n) <= 147
  {
  }

  /** A run has a graph exactly when its steps compile and the graph they make is valid. */
  lemma CompilesIffValid(run: Run)
    ensures Compile(run).Some? <==> CompilableSteps(Steps(run)) && GraphValid(Draft(run))
  {
    hide GraphValid, Draft, CompilableSteps, RetriesAllowed, Steps;
    if CompilableSteps(Steps(run)) {
      DraftValidIff(run);
    }
  }

  // ---- The compiled graph ----------------------------------------------------------------------------

  function StageNode(stage: int): string
    requires DESIGN <= stage <= REPORT
  {
    match stage
    case 1 => "legacy-node-1"
    case 2 => "legacy-node-2"
    case 3 => "legacy-node-3"
    case 4 => "legacy-node-4"
    case 5 => "legacy-node-5"
    case 6 => "legacy-node-6"
    case 7 => "legacy-node-7"
  }

  lemma StageNamed(stage: int)
    requires DESIGN <= stage <= REPORT
    ensures NodeId(stage) == StageNode(stage)
  {
    assert NatText(stage) == [DigitChar(stage)];
  }

  /** An edge between the nodes of two stages, for one of the three events, with the limit that every edge has. */
  predicate Links(run: Run, from: int, to: int, event: EdgeEvent, e: Edge)
    requires DESIGN <= from <= REPORT && DESIGN <= to <= REPORT
  {
    && e.from == StageNode(from) && e.to == StageNode(to) && e.on == event
    && e.maxTraversals == (if run.maxRetries < 0 then 1 else run.maxRetries + 1)
    && e.id == "legacy-edge-" + StageNode(from) + "-" + StageNode(to) + "-"
               + match event case Success => "success" case Failure => "failure" case Approval => "approval"
  }

  lemma LinksOnly(run: Run, from: int, to: int, event: EdgeEvent, e: Edge)
    requires DESIGN <= from <= REPORT && DESIGN <= to <= REPORT
    ensures Links(run, from, to, event, e) <==> e == EdgeOf(NodeId(from), NodeId(to), event, LoopLimit(run))
  {
    hide NodeId, StageNode;
    StageNamed(from);
    StageNamed(to);
  }

  lemma {:induction false} RowEdges(from: string, tos: seq<string>, limit: int, e: Edge)
    requires e in Row(from, tos, limit)
    ensures e.to in tos && e == EdgeOf(from, e.to, e.on, limit)
  {
    var init := tos[..|tos| - 1];
    if e in Row(from, init, limit) {
      RowEdges(from, init, limit, e);
    }
  }

  lemma {:induction false} RowsEdges(froms: seq<string>, tos: seq<string>, limit: int, e: Edge)
    requires e in Rows(froms, tos, limit)
    ensures e.from in froms && e.to in tos && e == EdgeOf(e.from, e.to, e.on, limit)
  {
    hide Row;
    var init := froms[..|froms| - 1];
    if e in Rows(init, tos, limit) {
      RowsEdges(init, tos, limit, e);
    } else {
      RowEdges(froms[|froms| - 1], tos, limit, e);
    }
  }

  lemma FirstIsEarliest(run: Run)
    requires CompilableSteps(Steps(run))
    ensures forall i | 0 <= i < |Steps(run)| :: Steps(run)[0].stage <= Steps(run)[i].stage
  {
    if run.workflow != [] {
      NormalizeSorted(run.workflow);
    }
  }

  /** The graph of a run has a node for every step of its workflow, with its agent and retry policy; it is entered at
      the earliest stage and may end at any. Between every two stages, and from each to itself, it has one edge for
      each of the three events, and no other edges. */
  lemma CompiledGraph(run: Run, g: Graph, e: Edge)
    requires Compile(run) == Some(g)
    ensures var steps := Steps(run);
            && |g.nodes| == |g.exits| == |steps| > 0
            && (forall i | 0 <= i < |steps| ::
                  && DESIGN <= steps[0].stage <= steps[i].stage <= REPORT && g.exits[i] == StageNode(steps[i].stage)
                  && g.nodes[i] == Node(StageNode(steps[i].stage), steps[i].agent, steps[i].retryLimit))
            && g.entry == StageNode(steps[0].stage)
            && (e in g.edges <==> exists i, j :: 0 <= i < |steps| && 0 <= j < |steps|
                                                 && Links(run, steps[i].stage, steps[j].stage, e.on, e))
  {
    hide NodeId, StageNode, Rows, Steps, EdgeOf, LoopLimit, Links, Blank;
    var steps := Steps(run);
    var ids := NodeIds(steps);
    FirstIsEarliest(run);
    forall i | 0 <= i < |steps| ensures NodeId(steps[i].stage) == StageNode(steps[i].stage) == ids[i] {
      StageNamed(steps[i].stage);
    }
    if e in g.edges {
      RowsEdges(ids, ids, LoopLimit(run), e);
      var i, j :| 0 <= i < |ids| && 0 <= j < |ids| && ids[i] == e.from && ids[j] == e.to;
      LinksOnly(run, steps[i].stage, steps[j].stage, e.on, e);
    }
    if i, j :| 0 <= i < |steps| && 0 <= j < |steps| && Links(run, steps[i].stage, steps[j].stage, e.on, e) {
      LinksOnly(run, steps[i].stage, steps[j].stage, e.on, e);
      EdgeInRows(ids, ids, LoopLimit(run), ids[i], ids[j], e.on);
    }
  }
}
