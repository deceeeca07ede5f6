/** Walks of the compatibility graph: how long they can get, and that they follow the engine. */
module LegacyGraphProofs {
  import opened Options
  import opened PipelineEngine
  import opened LegacyGraph

  // ---- Edge identifiers -------------------------------------------------------------------------

  /** A node identifier has one digit, so edge identifiers have their parts at fixed places. */
  lemma NodeIdLength(stage: int)
    requires DESIGN <= stage <= REPORT
    ensures |NodeId(stage)| == 13
  {
  }

  lemma EdgeIdInjective(f1: string, t1: string, e1: EdgeEvent, f2: string, t2: string, e2: EdgeEvent)
    requires |f1| == |t1| == |f2| == |t2| == 13 && EdgeId(f1, t1, e1) == EdgeId(f2, t2, e2)
    ensures f1 == f2 && t1 == t2 && e1 == e2
  {
    var a, b := EdgeId(f1, t1, e1), EdgeId(f2, t2, e2);
    assert a[12..25] == f1 && b[12..25] == f2;
    assert a[26..39] == t1 && b[26..39] == t2;
    assert a[40..] == EventName(e1) && b[40..] == EventName(e2);
    assert "success"[0] == 's' && "failure"[0] == 'f' && "approval"[0] == 'a';
  }

  predicate EdgeWithin(e: Edge, froms: seq<string>, tos: seq<string>, limit: int) {
    e.from in froms && e.to in tos && e == EdgeOf(e.from, e.to, e.on, limit)
  }

  predicate Within(edges: seq<Edge>, froms: seq<string>, tos: seq<string>, limit: int) {
    forall i | 0 <= i < |edges| :: EdgeWithin(edges[i], froms, tos, limit)
  }

  predicate DistinctEdges(edges: seq<Edge>) {
    forall i, j | 0 <= i < j < |edges| :: edges[i].id != edges[j].id
  }

  predicate Short(ids: seq<string>) {
    forall i | 0 <= i < |ids| :: |ids[i]| == 13
  }

  lemma {:induction false} RowWithin(from: string, tos: seq<string>, limit: int)
    ensures Within(Row(from, tos, limit), [from], tos, limit)
  {
    hide EdgeOf;
    if tos != [] {
      RowWithin(from, tos[..|tos| - 1], limit);
      var init := Row(from, tos[..|tos| - 1], limit);
      forall i | 0 <= i < |init| ensures EdgeWithin(init[i], [from], tos, limit) {
        assert EdgeWithin(init[i], [from], tos[..|tos| - 1], limit);
      }
      BlockWithin(from, tos[|tos| - 1], tos, limit);
    }
  }

  lemma BlockWithin(from: string, to: string, tos: seq<string>, limit: int)
    requires to in tos
    ensures Within(Block(from, to, limit), [from], tos, limit)
  {
  }

  lemma {:induction false} RowsWithin(froms: seq<string>, tos: seq<string>, limit: int)
    ensures Within(Rows(froms, tos, limit), froms, tos, limit)
  {
    hide EdgeOf, Row;
    if froms != [] {
      var init, last := froms[..|froms| - 1], froms[|froms| - 1];
      RowsWithin(init, tos, limit);
      RowWithin(last, tos, limit);
      forall i | 0 <= i < |Rows(init, tos, limit)| ensures EdgeWithin(Rows(init, tos, limit)[i], froms, tos, limit) {
        assert EdgeWithin(Rows(init, tos, limit)[i], init, tos, limit);
      }
      forall i | 0 <= i < |Row(last, tos, limit)| ensures EdgeWithin(Row(last, tos, limit)[i], froms, tos, limit) {
        assert EdgeWithin(Row(last, tos, limit)[i], [last], tos, limit);
      }
    }
  }

  /** Edges that differ in an end or in the event differ in their identifier. */
  lemma DifferentEdges(a: Edge, b: Edge, limit: int)
    requires a == EdgeOf(a.from, a.to, a.on, limit) && b == EdgeOf(b.from, b.to, b.on, limit)
    requires |a.from| == |a.to| == |b.from| == |b.to| == 13
    ensures a.id == b.id ==> a == b
  {
    hide EdgeId;
    if a.id == b.id {
      EdgeIdInjective(a.from, a.to, a.on, b.from, b.to, b.on);
    }
  }

  lemma AppendDistinct(a: seq<Edge>, b: seq<Edge>)
    requires DistinctEdges(a) && DistinctEdges(b)
    requires forall i, j | 0 <= i < |a| && 0 <= j < |b| :: a[i].id != b[j].id
    ensures DistinctEdges(a + b)
  {
  }

  lemma {:induction false} RowDistinct(from: string, tos: seq<string>, limit: int)
    requires DistinctIds(tos) && Short(tos) && |from| == 13
    ensures DistinctEdges(Row(from, tos, limit))
  {
    hide EdgeOf, DistinctEdges;
    if tos == [] {
      NoEdgesDistinct();
    } else {
      var init, last := tos[..|tos| - 1], tos[|tos| - 1];
      RowDistinct(from, init, limit);
      BlockDistinct(from, last, limit);
      RowWithin(from, init, limit);
      BlockWithin(from, last, [last], limit);
      var a, b := Row(from, init, limit), Block(from, last, limit);
      forall i, j | 0 <= i < |a| && 0 <= j < |b| ensures a[i].id != b[j].id {
        assert EdgeWithin(a[i], [from], init, limit) && EdgeWithin(b[j], [from], [last], limit);
        DifferentEdges(a[i], b[j], limit);
        assert last !in init;
      }
      AppendDistinct(a, b);
    }
  }

  lemma NoEdgesDistinct()
    ensures DistinctEdges([])
  {
  }

  lemma BlockDistinct(from: string, to: string, limit: int)
    requires |from| == |to| == 13
    ensures DistinctEdges(Block(from, to, limit))
  {
    hide EdgeId;
    var b := Block(from, to, limit);
    DifferentEdges(b[0], b[1], limit);
    DifferentEdges(b[0], b[2], limit);
    DifferentEdges(b[1], b[2], limit);
  }

  lemma {:induction false} RowsDistinct(froms: seq<string>, tos: seq<string>, limit: int)
    requires DistinctIds(froms) && DistinctIds(tos) && Short(froms) && Short(tos)
    ensures DistinctEdges(Rows(froms, tos, limit))
  {
    hide EdgeOf, DistinctEdges, Row;
    if froms == [] {
      NoEdgesDistinct();
    } else {
      var init, last := froms[..|froms| - 1], froms[|froms| - 1];
      RowsDistinct(init, tos, limit);
      RowDistinct(last, tos, limit);
      RowsWithin(init, tos, limit);
      RowWithin(last, tos, limit);
      var a, b := Rows(init, tos, limit), Row(last, tos, limit);
      forall i, j | 0 <= i < |a| && 0 <= j < |b| ensures a[i].id != b[j].id {
        assert EdgeWithin(a[i], init, tos, limit) && EdgeWithin(b[j], [last], tos, limit);
        DifferentEdges(a[i], b[j], limit);
        assert last !in init;
      }
      AppendDistinct(a, b);
    }
  }

  lemma CompiledShort(steps: seq<WorkflowStep>)
    requires CompilableSteps(steps)
    ensures Short(NodeIds(steps))
  {
    forall i | 0 <= i < |steps| ensures |NodeIds(steps)[i]| == 13 {
      NodeIdLength(steps[i].stage);
    }
  }

  // ---- Counting edges and traversals ----------------------------------------------------------------

  lemma Distribute(n: nat, k: int)
    requires n > 0
    ensures (n - 1) * k + k == n * k
  {
  }

  lemma {:induction false} EdgeCount(froms: seq<string>, tos: seq<string>, limit: int)
    ensures |Rows(froms, tos, limit)| == |froms| * (3 * |tos|)
  {
    hide Row;
    if froms != [] {
      EdgeCount(froms[..|froms| - 1], tos, limit);
      RowCount(froms[|froms| - 1], tos, limit);
      Distribute(|froms|, 3 * |tos|);
    }
  }

  lemma {:induction false} RowCount(from: string, tos: seq<string>, limit: int)
    ensures |Row(from, tos, limit)| == 3 * |tos|
  {
    if tos != [] {
      RowCount(from, tos[..|tos| - 1], limit);
    }
  }

  function Total(edges: seq<Edge>, traversals: map<string, nat>): nat {
    if edges == [] then 0 else Total(edges[..|edges| - 1], traversals) + CountOf(traversals, edges[|edges| - 1].id)
  }

  lemma {:induction false} TotalBump(edges: seq<Edge>, traversals: map<string, nat>, e: Edge)
    requires DistinctEdges(edges)
    ensures Total(edges, Bump(traversals, e.id)) ==
            Total(edges, traversals) + if exists i :: 0 <= i < |edges| && edges[i].id == e.id then 1 else 0
  {
    if edges != [] {
      var init := edges[..|edges| - 1];
      TotalBump(init, traversals, e);
      if edges[|edges| - 1].id == e.id {
        assert !exists i :: 0 <= i < |init| && init[i].id == e.id;
      } else if exists i :: 0 <= i < |init| && init[i].id == e.id {
        var i :| 0 <= i < |init| && init[i].id == e.id;
        assert edges[i].id == e.id;
      }
    }
  }

  lemma {:induction false} TotalBounded(edges: seq<Edge>, traversals: map<string, nat>, limit: nat)
    requires forall i | 0 <= i < |edges| :: CountOf(traversals, edges[i].id) <= limit
    ensures Total(edges, traversals) <= |edges| * limit
  {
    if edges != [] {
      TotalBounded(edges[..|edges| - 1], traversals, limit);
      Distribute(|edges|, limit);
    }
  }

  lemma CompiledEdges(run: Run, g: Graph)
    requires Compile(run) == Some(g)
    ensures DistinctEdges(g.edges) && |g.edges| == |Ids(g.nodes)| * (3 * |Ids(g.nodes)|)
    ensures DistinctIds(Ids(g.nodes)) && Short(Ids(g.nodes))
    ensures Within(g.edges, Ids(g.nodes), Ids(g.nodes), LoopLimit(run))
    ensures g.entry in Ids(g.nodes)
  {
    hide Rows, NodeId, Steps, EdgeOf;
    var ids := Ids(g.nodes);
    CompiledIds(run, g);
    NodesDistinct(Steps(run));
    CompiledShort(Steps(run));
    RowsDistinct(ids, ids, LoopLimit(run));
    RowsWithin(ids, ids, LoopLimit(run));
    EdgeCount(ids, ids, LoopLimit(run));
  }

  // ---- Walks ------------------------------------------------------------------------------------------

  datatype Move = Move(event: EdgeEvent, fields: Fields)

  /** How many edges the moves traverse before the graph stops or refuses one. */
  function WalkLength(g: Graph, traversals: map<string, nat>, node: string, moves: seq<Move>): nat
    decreases |moves|
  {
    if moves == [] then 0
    else
      match RouteFrom(g, traversals, node, moves[0].event, moves[0].fields)
      case Traverse(e) => 1 + WalkLength(g, Bump(traversals, e.id), e.to, moves[1..])
      case Ambiguous => 0
      case Exhausted => 0
      case Stop => 0
  }

  predicate WithinLimits(g: Graph, traversals: map<string, nat>, limit: int) {
    limit >= 1 && forall i | 0 <= i < |g.edges| :: CountOf(traversals, g.edges[i].id) <= limit
  }

  lemma TraversedEdge(run: Run, g: Graph, traversals: map<string, nat>, node: string, m: Move)
    requires Compile(run) == Some(g) && node in Ids(g.nodes)
    ensures var r := RouteFrom(g, traversals, node, m.event, m.fields);
            && !r.Ambiguous?
            && (r.Traverse? ==> r.edge in g.edges && r.edge.to in Ids(g.nodes)
                                && r.edge == EdgeOf(node, m.fields.nextNode, m.event, LoopLimit(run))
                                && CountOf(traversals, r.edge.id) + 1 <= LoopLimit(run))
            && (r.Stop? <==> !(m.fields.proceed && m.fields.nextNode in Ids(g.nodes)))
  {
    hide Compile;
    ExactlyOneEdge(run, g, node, m.event, m.fields);
    MatchedMember(g.edges, node, m.event, m.fields);
  }

  lemma {:induction false} MatchedMember(edges: seq<Edge>, node: string, event: EdgeEvent, f: Fields)
    ensures forall e | e in Matched(edges, node, event, f) :: e in edges
  {
    hide Enabled;
    if edges != [] {
      MatchedMember(edges[..|edges| - 1], node, event, f);
    }
  }

  lemma {:induction false} WalkBounded(run: Run, g: Graph, traversals: map<string, nat>, node: string, moves: seq<Move>)
    requires Compile(run) == Some(g) && node in Ids(g.nodes) && DistinctEdges(g.edges)
    requires WithinLimits(g, traversals, LoopLimit(run))
    ensures WalkLength(g, traversals, node, moves) + Total(g.edges, traversals) <= |g.edges| * LoopLimit(run)
    decreases |moves|
  {
    hide Compile, RouteFrom, DistinctEdges, Bump;
    TotalBounded(g.edges, traversals, LoopLimit(run));
    if moves != [] {
      TraversedEdge(run, g, traversals, node, moves[0]);
      var r := RouteFrom(g, traversals, node, moves[0].event, moves[0].fields);
      if r.Traverse? {
        var after := Bump(traversals, r.edge.id);
        BumpWithin(g, traversals, r.edge.id, LoopLimit(run));
        TotalBump(g.edges, traversals, r.edge);
        WalkBounded(run, g, after, r.edge.to, moves[1..]);
      }
    }
  }

  lemma BumpWithin(g: Graph, traversals: map<string, nat>, id: string, limit: int)
    requires WithinLimits(g, traversals, limit) && CountOf(traversals, id) + 1 <= limit
    ensures WithinLimits(g, Bump(traversals, id), limit)
  {
  }

  /** Every walk of the compiled graph of n stages ends within 3 n n max(1, MaxRetries + 1) traversals. */
  lemma WalksEnd(run: Run, g: Graph, moves: seq<Move>)
    requires Compile(run) == Some(g)
    ensures WalkLength(g, map[], g.entry, moves) <= |Ids(g.nodes)| * (3 * |Ids(g.nodes)|) * LoopLimit(run)
  {
    hide WalkLength, Total, Compile;
    CompiledEdges(run, g);
    WalkBounded(run, g, map[], g.entry, moves);
  }
}
