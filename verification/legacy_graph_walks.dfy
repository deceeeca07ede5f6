/** The stage history of a run is one walk of its compatibility graph. */
module LegacyGraphWalks {
  import opened Options
  import opened PipelineStatus
  import opened PipelineEngine
  import opened PipelineEngineProofs
  import opened LegacyGraph
  import opened LegacyGraphProofs
  import opened LegacyGraphSimulation

  // ---- What the events leave behind ---------------------------------------------------------------------

  /** A result on record, with whether the run went on to a stage; or an approval, which is not on record. */
  datatype Entry = Recorded(record: Transition, moved: bool) | Approved(from: int, to: int)

  function EntryOf(run: Run, e: Event): seq<Entry> {
    var next := Advance(run, e);
    if next == run then []
    else
      match e
      case Deliver(r) => [Recorded(RecordOf(run, r, next.stage), next.status == Running)]
      case Approve => [Approved(run.stage, next.stage)]
      case Reject(_) => []
  }

  function Trace(run: Run, es: seq<Event>): seq<Entry> {
    if es == [] then []
    else Trace(run, es[..|es| - 1]) + EntryOf(AdvanceAll(run, es[..|es| - 1]), es[|es| - 1])
  }

  function Records(entries: seq<Entry>): seq<Transition> {
    if entries == [] then []
    else
      var init, last := Records(entries[..|entries| - 1]), entries[|entries| - 1];
      if last.Recorded? then init + [last.record] else init
  }

  function EdgeFromEntry(entry: Entry, limit: int): seq<Edge> {
    match entry
    case Approved(from, to) => [EdgeOf(NodeId(from), NodeId(to), Approval, limit)]
    case Recorded(record, moved) =>
      if !moved then []
      else [EdgeOf(NodeId(record.from), NodeId(record.to), if record.outcome == "pass" then Success else Failure, limit)]
  }

  /** One edge for every approval and for every result the run went on after. */
  function Walk(entries: seq<Entry>, limit: int): seq<Edge> {
    if entries == [] then []
    else Walk(entries[..|entries| - 1], limit) + EdgeFromEntry(entries[|entries| - 1], limit)
  }

  predicate Connected(edges: seq<Edge>, start: string) {
    && (edges != [] ==> edges[0].from == start)
    && forall i | 0 < i < |edges| :: edges[i].from == edges[i - 1].to
  }

  function WalkEnd(edges: seq<Edge>, start: string): string {
    if edges == [] then start else edges[|edges| - 1].to
  }

  lemma CustomStays(run: Run, r: StepResult)
    requires NextCustomStage(run, r).Ok? && NextCustomStage(run, r).value.status != Running
    ensures NextCustomStage(run, r).value.stage == run.stage
  {
    hide HasStage, RetryLimit, NextSelectedStage, AwaitsApproval;
  }

  lemma ApplyStays(run: Run, r: StepResult)
    requires Apply(run, r).Ok? && Apply(run, r).value.status != Running
    ensures Apply(run, r).value.stage == run.stage
  {
    hide NextCustomStage, AgentFor, Merge, HasStage;
    var counted := CountRetries(PinSession(run.(context := Merge(run.context, r)), r).value, r);
    if run.workflow != [] {
      CustomStays(counted, r);
    }
  }

  lemma {:induction false} RecordsConcat(a: seq<Entry>, b: seq<Entry>)
    ensures Records(a + b) == Records(a) + Records(b)
    decreases |b|
  {
    if b == [] {
      assert a + b == a;
    } else {
      assert (a + b)[..|a + b| - 1] == a + b[..|b| - 1];
      RecordsConcat(a, b[..|b| - 1]);
    }
  }

  lemma {:induction false} WalkConcat(a: seq<Entry>, b: seq<Entry>, limit: int)
    ensures Walk(a + b, limit) == Walk(a, limit) + Walk(b, limit)
    decreases |b|
  {
    hide EdgeFromEntry;
    if b == [] {
      assert a + b == a;
    } else {
      assert (a + b)[..|a + b| - 1] == a + b[..|b| - 1];
      WalkConcat(a, b[..|b| - 1], limit);
    }
  }

  lemma EntryHistory(run: Run, e: Event)
    ensures Advance(run, e).history == run.history + Records(EntryOf(run, e))
  {
    hide Apply, NextSelectedStage, AgentFor, RecordOf;
    if e.Deliver? && Apply(run, e.result).Ok? {
      ApplyShape(run, e.result);
    }
  }

  /** The history grows by exactly the results on record, in order. */
  lemma {:induction false} HistoryIsTrace(run: Run, es: seq<Event>)
    ensures AdvanceAll(run, es).history == run.history + Records(Trace(run, es))
  {
    hide Advance, EntryOf;
    if es != [] {
      var init := es[..|es| - 1];
      HistoryIsTrace(run, init);
      EntryHistory(AdvanceAll(run, init), es[|es| - 1]);
      RecordsConcat(Trace(run, init), EntryOf(AdvanceAll(run, init), es[|es| - 1]));
    }
  }

  /** The edge of an accepted event: one if the run goes on, from its stage to the next; none if it stays. */
  lemma EntryWalk(run: Run, e: Event, limit: int)
    ensures var next, edges := Advance(run, e), Walk(EntryOf(run, e), limit);
            edges == if next != run && next.status == Running
                     then [EdgeOf(NodeId(run.stage), NodeId(next.stage), EdgeEventOf(FinishOf(e, next).event), limit)]
                     else []
    ensures Walk(EntryOf(run, e), limit) == [] ==> Advance(run, e).stage == run.stage
  {
    hide Apply, NextSelectedStage, AgentFor, NodeId, EdgeId, EdgeOf;
    if e.Deliver? && Apply(run, e.result).Ok? && Apply(run, e.result).value.status != Running {
      ApplyStays(run, e.result);
    }
    var entries := EntryOf(run, e);
    assert entries != [] ==> entries[..|entries| - 1] == [];
  }

  lemma ConnectedAppend(edges: seq<Edge>, start: string, e: Edge)
    requires Connected(edges, start) && e.from == WalkEnd(edges, start)
    ensures Connected(edges + [e], start) && WalkEnd(edges + [e], start) == e.to
  {
  }

  /** Only the moves of a run change its stage, and each leaves from the stage the last one reached. */
  lemma {:induction false} TraceConnected(run: Run, es: seq<Event>, limit: int)
    ensures var edges := Walk(Trace(run, es), limit);
            Connected(edges, NodeId(run.stage)) && WalkEnd(edges, NodeId(run.stage)) == NodeId(AdvanceAll(run, es).stage)
  {
    hide Advance, EntryOf, NodeId, EdgeId, FinishOf, Connected, Walk;
    if es == [] {
      NoEdges(run, limit);
    } else {
      var init := es[..|es| - 1];
      var before, e := AdvanceAll(run, init), es[|es| - 1];
      TraceConnected(run, init, limit);
      EntryWalk(before, e, limit);
      WalkConcat(Trace(run, init), EntryOf(before, e), limit);
      var edges, more := Walk(Trace(run, init), limit), Walk(EntryOf(before, e), limit);
      if more == [] {
        assert edges + more == edges;
      } else {
        ConnectedAppend(edges, NodeId(run.stage), more[0]);
      }
    }
  }

  lemma NoEdges(run: Run, limit: int)
    ensures Walk([], limit) == [] && Connected([], NodeId(run.stage))
  {
  }

  // ---- The plan takes that walk -----------------------------------------------------------------------------

  /** A run as it is created: on its first stage, waiting for nothing. */
  ghost predicate Created(run: Run) {
    Live(run) && run.status == Running && Steps(run) != [] && run.stage == Steps(run)[0].stage
  }

  function Events(ts: seq<Timed>): seq<Event> {
    seq(|ts|, i requires 0 <= i < |ts| => ts[i].event)
  }

  lemma BeginSimulates(g: Graph, run: Run)
    requires Created(run) && Compile(run) == Some(g)
    ensures Simulates(g, Begin(g, run))
    ensures Begin(g, run).run == run && Begin(g, run).plan.decisions == [] && Begin(g, run).plan.traversals == map[]
  {
    hide NodeId, Live, Rows, CompilableSteps, RetriesAllowed;
  }

  lemma TerminalStays(run: Run, e: Event)
    requires TerminalStatus(run.status)
    ensures Advance(run, e) == run
  {
    hide AgentFor, NextStage, Merge, NextSelectedStage;
  }

  /** The plan beside the run: in step with it, or over like it. */
  ghost predicate Tracks(g: Graph, s: Shadow) {
    Simulates(g, s) || (s.refused.None? && TerminalStatus(s.run.status))
  }

  lemma MovesEntry(g: Graph, s: Shadow, t: Timed)
    requires Simulates(g, s) && Advance(s.run, t.event) != s.run && Follow(g, s, t).refused.None?
    ensures Follow(g, s, t).plan.decisions == s.plan.decisions + Walk(EntryOf(s.run, t.event), LoopLimit(s.run))
    ensures Tracks(g, Follow(g, s, t)) && Follow(g, s, t).run == Advance(s.run, t.event)
  {
    hide Advance, Follow, Simulates, NodeId, EdgeId, RefusalOf, Retries, LoopLimit, EntryOf, Walk, FinishOf;
    GraphFollowsEngine(g, s, t);
    SimulatedRun(g, s);
    AdvanceKinds(s.run, t.event);
    EntryWalk(s.run, t.event, LoopLimit(s.run));
  }

  lemma SimulatedRun(g: Graph, s: Shadow)
    requires Simulates(g, s)
    ensures Live(s.run) && !TerminalStatus(s.run.status) && Compile(s.run) == Some(g) && s.refused.None?
  {
  }

  lemma {:induction false} TracksAlways(g: Graph, run: Run, ts: seq<Timed>)
    requires Created(run) && Compile(run) == Some(g) && FollowAll(g, Begin(g, run), ts).refused.None?
    ensures var s := FollowAll(g, Begin(g, run), ts);
            && Tracks(g, s) && s.run == AdvanceAll(run, Events(ts))
            && s.run.maxRetries == run.maxRetries
            && s.plan.decisions == Walk(Trace(run, Events(ts)), LoopLimit(run))
  {
    hide Advance, Follow, Simulates, Created, Compile, EntryOf, Walk;
    BeginSimulates(g, run);
    NoEdges(run, LoopLimit(run));
    if ts != [] {
      var init, last := ts[..|ts| - 1], ts[|ts| - 1];
      var s := FollowAll(g, Begin(g, run), init);
      assert Events(ts)[..|ts| - 1] == Events(init);
      RefusedStays(g, s, last);
      TracksAlways(g, run, init);
      AdvanceSteps(s.run, last.event);
      WalkConcat(Trace(run, Events(init)), EntryOf(s.run, last.event), LoopLimit(run));
      if Advance(s.run, last.event) == s.run {
        NothingFollows(g, s, last);
      } else {
        if TerminalStatus(s.run.status) {
          TerminalStays(s.run, last.event);
        }
        MovesEntry(g, s, last);
      }
    }
  }

  lemma NothingFollows(g: Graph, s: Shadow, t: Timed)
    requires Advance(s.run, t.event) == s.run
    ensures Follow(g, s, t) == s && EntryOf(s.run, t.event) == []
  {
    hide Advance, FinishAttempt, StartAttempt, FinishOf;
  }

  lemma RefusedStays(g: Graph, s: Shadow, t: Timed)
    ensures s.refused.Some? ==> Follow(g, s, t) == s
  {
    hide Advance, FinishAttempt, StartAttempt, FinishOf;
  }

  // ---- How long the walk is -------------------------------------------------------------------------------------

  /** No edge is used more often than its limit, and every use is a decision on record. */
  ghost predicate Counted(g: Graph, plan: Projection, limit: int) {
    WithinLimits(g, plan.traversals, limit) && |plan.decisions| == Total(g.edges, plan.traversals)
  }

  lemma FollowCounted(g: Graph, s: Shadow, t: Timed)
    requires Counted(g, s.plan, LoopLimit(s.run)) && (s.refused.Some? || Tracks(g, s))
    ensures Counted(g, Follow(g, s, t).plan, LoopLimit(s.run)) && LoopLimit(Follow(g, s, t).run) == LoopLimit(s.run)
  {
    hide Advance, Simulates, Total, NodeId, EdgeId, FinishOf, Follow, WithinLimits, Bump, Compile, Live;
    var next := Advance(s.run, t.event);
    RefusedStays(g, s, t);
    AdvanceSteps(s.run, t.event);
    if s.refused.None? {
      if next == s.run {
        NothingFollows(g, s, t);
      } else {
        if TerminalStatus(s.run.status) {
          TerminalStays(s.run, t.event);
        }
        SimulatedRun(g, s);
        GraphFollowsEngine(g, s, t);
        RefusalKeeps(g, s, t);
        if Follow(g, s, t).refused.None? && next.status == Running {
          MoveCounted(g, s, t);
        }
      }
    }
  }

  lemma RefusalKeeps(g: Graph, s: Shadow, t: Timed)
    requires s.refused.None?
    ensures Follow(g, s, t).refused.Some? ==> Follow(g, s, t) == s.(refused := Follow(g, s, t).refused)
  {
    hide Advance, FinishAttempt, StartAttempt, FinishOf;
  }

  lemma MoveCounted(g: Graph, s: Shadow, t: Timed)
    requires Counted(g, s.plan, LoopLimit(s.run)) && Simulates(g, s) && RefusalOf(g, s, t).None?
    requires Advance(s.run, t.event) != s.run && Advance(s.run, t.event).status == Running
    ensures var id := EdgeFor(s.run, t.event).id;
            && WithinLimits(g, Bump(s.plan.traversals, id), LoopLimit(s.run))
            && Total(g.edges, Bump(s.plan.traversals, id)) == Total(g.edges, s.plan.traversals) + 1
  {
    hide Advance, NodeId, EdgeId, Bump, Total, Compile, Live, Matched, WithinLimits, LoopLimit;
    var e := EdgeFor(s.run, t.event);
    CompiledEdges(s.run, g);
    BumpWithin(g, s.plan.traversals, e.id, LoopLimit(s.run));
    EdgeInGraph(g, s.run, t.event);
    TotalBump(g.edges, s.plan.traversals, e);
  }

  /** The edge an event takes is one of the graph's. */
  lemma EdgeInGraph(g: Graph, run: Run, e: Event)
    requires Compile(run) == Some(g) && Live(run) && Advance(run, e) != run && Advance(run, e).status == Running
    ensures EdgeFor(run, e) in g.edges
  {
    hide Advance, NodeId, EdgeId, Compile, Live;
    var next := Advance(run, e);
    RouteFollows(g, run, map[], e);
    MatchedMember(g.edges, NodeId(run.stage), EdgeFor(run, e).on, FieldsOf(next));
  }

  lemma {:induction false} CountedAlways(g: Graph, run: Run, ts: seq<Timed>)
    requires Created(run) && Compile(run) == Some(g)
    ensures var s := FollowAll(g, Begin(g, run), ts);
            Counted(g, s.plan, LoopLimit(run)) && LoopLimit(s.run) == LoopLimit(run)
  {
    hide Advance, Follow, Simulates, Created, Compile, LoopLimit;
    BeginSimulates(g, run);
    if ts == [] {
      NothingCounted(g, run, Begin(g, run).plan);
    } else {
      var init, last := ts[..|ts| - 1], ts[|ts| - 1];
      var s := FollowAll(g, Begin(g, run), init);
      CountedAlways(g, run, init);
      if s.refused.None? {
        TracksAlways(g, run, init);
      }
      FollowCounted(g, s, last);
    }
  }

  lemma NothingCounted(g: Graph, run: Run, plan: Projection)
    requires plan.traversals == map[] && plan.decisions == []
    ensures Counted(g, plan, LoopLimit(run))
  {
    EmptyTotal(g.edges);
  }

  lemma {:induction false} EmptyTotal(edges: seq<Edge>)
    ensures Total(edges, map[]) == 0
  {
    if edges != [] {
      EmptyTotal(edges[..|edges| - 1]);
    }
  }

  /** While the plan refuses nothing, the edges it takes are the moves of the run's own history, and they form one
      walk from the entry node to the run's stage. */
  lemma HistoryIsWalk(g: Graph, run: Run, ts: seq<Timed>)
    requires Created(run) && Compile(run) == Some(g) && FollowAll(g, Begin(g, run), ts).refused.None?
    ensures var s := FollowAll(g, Begin(g, run), ts);
            var trace := Trace(run, Events(ts));
            && s.run == AdvanceAll(run, Events(ts)) && s.run.history == run.history + Records(trace)
            && s.plan.decisions == Walk(trace, LoopLimit(run))
            && Connected(s.plan.decisions, g.entry) && WalkEnd(s.plan.decisions, g.entry) == NodeId(s.run.stage)
  {
    hide Follow, Advance, Simulates, Walk, Records, Trace, NodeId, Connected, Compile, Live;
    TracksAlways(g, run, ts);
    HistoryIsTrace(run, Events(ts));
    TraceConnected(run, Events(ts), LoopLimit(run));
    EntryNode(run, g);
  }

  lemma EntryNode(run: Run, g: Graph)
    requires Created(run) && Compile(run) == Some(g)
    ensures g.entry == NodeId(run.stage)
  {
    hide NodeId, Live, Rows, CompilableSteps, RetriesAllowed;
  }

  /** Whatever events arrive, a plan of n stages takes at most 3 n n max(1, MaxRetries + 1) edges. */
  lemma WalkIsBounded(g: Graph, run: Run, ts: seq<Timed>)
    requires Created(run) && Compile(run) == Some(g)
    ensures |FollowAll(g, Begin(g, run), ts).plan.decisions| <= |Ids(g.nodes)| * (3 * |Ids(g.nodes)|) * LoopLimit(run)
  {
    hide Follow, Advance, Simulates, Compile, Live, Total, LoopLimit;
    var plan := FollowAll(g, Begin(g, run), ts).plan;
    CountedAlways(g, run, ts);
    CompiledEdges(run, g);
    TotalBounded(g.edges, plan.traversals, LoopLimit(run));
  }
}
