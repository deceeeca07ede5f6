/** Safety of durable dispatch over every interleaving of workers, writers and crashes. */
module DispatchProofs {
  import opened Options
  import opened Outbox
  import opened PipelineStatus
  import opened Dispatch

  // ---- Invariant ------------------------------------------------------------

  /** A copy of a run taken from the store: never ahead of it, and equal while the version stands. */
  predicate Snapshot(pipelines: map<string, Run>, id: string, run: Run) {
    && id in pipelines && 1 <= run.version <= pipelines[id].version
    && (run.version == pipelines[id].version ==> run == pipelines[id])
  }

  /** The intent cannot be dispatched any more: its pipeline is not Running at its version and stage. */
  predicate Settled(pipelines: map<string, Run>, intent: Intent) {
    && intent.pipeline in pipelines
    && var run := pipelines[intent.pipeline];
       !(run.status == Running && run.version == intent.expectedVersion && run.stage == intent.stage)
  }

  predicate IntentInv(pipelines: map<string, Run>, e: Event) {
    && e.intent.pipeline in pipelines
    && 1 <= e.intent.expectedVersion <= pipelines[e.intent.pipeline].version
    && (e.state == Published ==> Settled(pipelines, e.intent))
  }

  /** The worker works on a Running copy of the run its event names. */
  predicate Holds(pipelines: map<string, Run>, e: Event, run: Run) {
    && Snapshot(pipelines, e.intent.pipeline, run) && run.status == Running
    && run.version == e.intent.expectedVersion && run.stage == e.intent.stage
  }

  predicate PcInv(pipelines: map<string, Run>, outbox: seq<Event>, provider: seq<ProviderRun>, pc: Pc) {
    match pc
    case Idle => true
    case Loaded(id, run) => Snapshot(pipelines, id, run) && run.status == Running
    case Claimed(i, run) => i < |outbox| && Holds(pipelines, outbox[i], run)
    case Bound(i, run, task) =>
      i < |outbox| && Holds(pipelines, outbox[i], run) && HasRun(provider, outbox[i].key, task)
    case Saved(i, run, task) =>
      i < |outbox| && Holds(pipelines, outbox[i], run) && HasRun(provider, outbox[i].key, task)
    case Committed(i) => i < |outbox| && Settled(pipelines, outbox[i].intent)
    case Taken(i) => i < |outbox|
    case Checked(i, run) => i < |outbox| && Holds(pipelines, outbox[i], run)
    case Executed(i, run, task, _) =>
      i < |outbox| && Holds(pipelines, outbox[i], run) && HasRun(provider, outbox[i].key, task)
    case Recorded(i, run, task) =>
      i < |outbox| && Holds(pipelines, outbox[i], run) && HasRun(provider, outbox[i].key, task)
    case Conflicted(i, _) =>
      i < |outbox| && outbox[i].intent.pipeline in pipelines
      && pipelines[outbox[i].intent.pipeline].version > outbox[i].intent.expectedVersion
    case Done(i) => i < |outbox| && Settled(pipelines, outbox[i].intent)
  }

  predicate WorkerInv(pipelines: map<string, Run>, outbox: seq<Event>, provider: seq<ProviderRun>, w: Worker) {
    (forall i | i in w.todo :: i < |outbox|) && PcInv(pipelines, outbox, provider, w.pc)
  }

  predicate CommitInv(pipelines: map<string, Run>, outbox: seq<Event>, provider: seq<ProviderRun>, i: nat,
        c: Commitment) {
    && i < |outbox| && c.version == outbox[i].intent.expectedVersion && HasRun(provider, outbox[i].key, c.task)
    && outbox[i].intent.pipeline in pipelines && pipelines[outbox[i].intent.pipeline].version > c.version
  }

  predicate OneRunPerKey(provider: seq<ProviderRun>) {
    forall i, j | 0 <= i < j < |provider| :: provider[i].key != provider[j].key
  }

  ghost predicate Inv(s: System) {
    && (forall id | id in s.pipelines :: s.pipelines[id].version >= 1)
    && DistinctKeys(s.outbox) && OneRunPerKey(s.provider)
    && (forall i | 0 <= i < |s.outbox| :: IntentInv(s.pipelines, s.outbox[i]))
    && (forall p | p in s.provenance :: HasRun(s.provider, p.key, p.task))
    && (forall w | w in s.workers :: WorkerInv(s.pipelines, s.outbox, s.provider, s.workers[w]))
    && (forall i | i in s.commits :: CommitInv(s.pipelines, s.outbox, s.provider, i, s.commits[i]))
  }

  // ---- How the parts may move -------------------------------------------------

  /** Versions only grow, and a run changes only with its version. */
  predicate Advances(before: map<string, Run>, after: map<string, Run>) {
    forall id | id in before :: id in after && (after[id] == before[id] || after[id].version > before[id].version)
  }

  predicate Started(before: seq<ProviderRun>, after: seq<ProviderRun>) {
    forall r | r in before :: r in after
  }

  lemma SettledStays(before: map<string, Run>, after: map<string, Run>, intent: Intent)
    requires Settled(before, intent) && Advances(before, after)
    requires before[intent.pipeline].version >= intent.expectedVersion
    ensures Settled(after, intent)
  {
  }

  lemma SnapshotStays(before: map<string, Run>, after: map<string, Run>, id: string, run: Run)
    requires Snapshot(before, id, run) && Advances(before, after)
    ensures Snapshot(after, id, run)
  {
  }

  /** Facts about an event survive any growth of the store, the outbox and the provider. */
  lemma PcStays(
    before: map<string, Run>, after: map<string, Run>, o1: seq<Event>, o2: seq<Event>,
    p1: seq<ProviderRun>, p2: seq<ProviderRun>, pc: Pc)
    requires PcInv(before, o1, p1, pc) && Advances(before, after) && Grows(o1, o2) && Started(p1, p2)
    requires forall i | 0 <= i < |o1| :: IntentInv(before, o1[i])
    ensures PcInv(after, o2, p2, pc)
  {
    if pc.Loaded? {
      SnapshotStays(before, after, pc.pipeline, pc.run);
    } else if pc.Committed? || pc.Done? {
      SettledStays(before, after, o1[pc.event].intent);
    }
  }

  lemma WorkersStay(s: System, t: System, w: nat)
    requires Inv(s) && Moves(s, t) && w in s.workers
    ensures WorkerInv(t.pipelines, t.outbox, t.provider, s.workers[w])
  {
    hide PcInv;
    PcStays(s.pipelines, t.pipelines, s.outbox, t.outbox, s.provider, t.provider, s.workers[w].pc);
  }

  /** How the shared state may change in one step. */
  ghost predicate Moves(s: System, t: System) {
    && Advances(s.pipelines, t.pipelines) && Grows(s.outbox, t.outbox) && DistinctKeys(t.outbox)
    && Started(s.provider, t.provider) && OneRunPerKey(t.provider)
    && (forall id | id in t.pipelines :: t.pipelines[id].version >= 1)
    && (forall i | |s.outbox| <= i < |t.outbox| :: IntentInv(t.pipelines, t.outbox[i]))
    && (forall i | 0 <= i < |s.outbox| && t.outbox[i].state == Published && s.outbox[i].state != Published ::
          Settled(t.pipelines, t.outbox[i].intent))
    && (forall p | p in t.provenance && p !in s.provenance :: HasRun(t.provider, p.key, p.task))
    && (forall i | i in t.commits && (i !in s.commits || t.commits[i] != s.commits[i]) ::
          CommitInv(t.pipelines, t.outbox, t.provider, i, t.commits[i]))
  }

  lemma IntentsStay(s: System, t: System, i: nat)
    requires Inv(s) && Moves(s, t) && i < |t.outbox|
    ensures IntentInv(t.pipelines, t.outbox[i])
  {
    if i < |s.outbox| && s.outbox[i].state == Published {
      SettledStays(s.pipelines, t.pipelines, s.outbox[i].intent);
    }
  }

  /** The invariant carries over once the workers that moved are accounted for. */
  lemma KeepsInv(s: System, t: System)
    requires Inv(s) && Moves(s, t)
    requires forall w | w in t.workers && (w !in s.workers || t.workers[w] != s.workers[w]) ::
               WorkerInv(t.pipelines, t.outbox, t.provider, t.workers[w])
    ensures Inv(t)
  {
    hide IntentInv, WorkerInv;
    forall i | 0 <= i < |t.outbox| ensures IntentInv(t.pipelines, t.outbox[i]) {
      IntentsStay(s, t, i);
    }
    forall w | w in t.workers ensures WorkerInv(t.pipelines, t.outbox, t.provider, t.workers[w]) {
      if w in s.workers && t.workers[w] == s.workers[w] {
        WorkersStay(s, t, w);
      }
    }
  }

  // ---- Changes of one part ----------------------------------------------------

  lemma WorkerSet(s: System, w: nat, worker: Worker)
    requires Inv(s) && WorkerInv(s.pipelines, s.outbox, s.provider, worker)
    ensures Inv(s.(workers := s.workers[w := worker]))
  {
    hide IntentInv, WorkerInv, CommitInv;
    KeepsInv(s, s.(workers := s.workers[w := worker]));
  }

  lemma PcSet(s: System, w: nat, pc: Pc)
    requires Inv(s) && w in s.workers && PcInv(s.pipelines, s.outbox, s.provider, pc)
    ensures Inv(WithPc(s, w, pc))
  {
    hide PcInv, IntentInv, CommitInv;
    WorkerSet(s, w, s.workers[w].(pc := pc));
  }

  lemma WorkerDropped(s: System, w: nat)
    requires Inv(s)
    ensures Inv(s.(workers := s.workers - {w}))
  {
    hide IntentInv, WorkerInv, CommitInv;
    KeepsInv(s, s.(workers := s.workers - {w}));
  }

  lemma OutboxSet(s: System, outbox: seq<Event>)
    requires Inv(s) && Grows(s.outbox, outbox) && DistinctKeys(outbox)
    requires forall i | |s.outbox| <= i < |outbox| :: IntentInv(s.pipelines, outbox[i])
    requires forall i | 0 <= i < |s.outbox| && outbox[i].state == Published && s.outbox[i].state != Published ::
               Settled(s.pipelines, outbox[i].intent)
    ensures Inv(s.(outbox := outbox))
  {
    hide IntentInv, WorkerInv, CommitInv, DistinctKeys, Settled;
    KeepsInv(s, s.(outbox := outbox));
  }

  lemma ProviderSet(s: System, provider: seq<ProviderRun>)
    requires Inv(s) && Started(s.provider, provider) && OneRunPerKey(provider)
    ensures Inv(s.(provider := provider))
  {
    hide IntentInv, WorkerInv, CommitInv, DistinctKeys, OneRunPerKey;
    KeepsInv(s, s.(provider := provider));
  }

  lemma ProvenanceAdded(s: System, more: set<Provenance>)
    requires Inv(s) && forall p | p in more :: HasRun(s.provider, p.key, p.task)
    ensures Inv(s.(provenance := s.provenance + more))
  {
    hide IntentInv, WorkerInv, CommitInv, DistinctKeys, OneRunPerKey;
    KeepsInv(s, s.(provenance := s.provenance + more));
  }

  lemma PipelineSet(s: System, id: string, run: Run)
    requires Inv(s) && run.version >= 1 && (id in s.pipelines ==> run.version > s.pipelines[id].version)
    ensures Inv(s.(pipelines := s.pipelines[id := run]))
  {
    hide IntentInv, WorkerInv, CommitInv, DistinctKeys, OneRunPerKey;
    KeepsInv(s, s.(pipelines := s.pipelines[id := run]));
  }

  lemma CommitSet(s: System, i: nat, c: Commitment)
    requires Inv(s) && CommitInv(s.pipelines, s.outbox, s.provider, i, c)
    ensures Inv(s.(commits := s.commits[i := c]))
  {
    hide IntentInv, WorkerInv, CommitInv, DistinctKeys, OneRunPerKey;
    KeepsInv(s, s.(commits := s.commits[i := c]));
  }

  lemma WorkerFacts(s: System, w: nat)
    requires Inv(s) && w in s.workers
    ensures PcInv(s.pipelines, s.outbox, s.provider, s.workers[w].pc)
    ensures forall i | i in s.workers[w].todo :: i < |s.outbox|
  {
    hide PcInv;
  }

  lemma EventFacts(s: System, i: nat)
    requires Inv(s) && i < |s.outbox|
    ensures IntentInv(s.pipelines, s.outbox[i]) && s.pipelines[s.outbox[i].intent.pipeline].version >= 1
  {
  }

  // ---- Every step keeps the invariant ----------------------------------------

  lemma StoredKeepsInv(s: System, step: Step)
    requires Inv(s) && (step.Create? || step.OtherWrite? || step.OtherProvenance? || step.Recover?)
    ensures Inv(NextStored(s, step)) && Grows(s.outbox, NextStored(s, step).outbox)
  {
    hide IntentInv, WorkerInv, CommitInv;
    match step
    case Create(id, run) => if NextStored(s, step) != s { PipelineSet(s, id, run); }
    case OtherWrite(id, run) => if NextStored(s, step) != s { PipelineSet(s, id, run); }
    case OtherProvenance(record) => if NextStored(s, step) != s { ProvenanceAdded(s, {record}); }
    case Recover(now) =>
      RecoverGrows(s.outbox, now);
      OutboxSet(s, Recovered(s.outbox, now));
  }

  lemma EnqueueFacts(events: seq<Event>, key: string, intent: Intent, owner: string, ttl: int, now: int)
    requires DistinctKeys(events)
    ensures var (after, r) := EnqueueAndClaim(events, key, intent, owner, ttl, now);
            && Grows(events, after) && DistinctKeys(after)
            && (forall i | |events| <= i < |after| :: after[i].intent == intent && after[i].state != Published)
            && (forall i | 0 <= i < |events| :: after[i].state == Published ==> events[i].state == Published)
            && (r.Ok? ==> r.value.0 < |after| && after[r.value.0].intent == intent)
  {
    EnqueueGrows(events, key, intent, owner, ttl, now);
  }

  lemma EnqueueKeepsInv(s: System, step: Step)
    requires Inv(s) && step.Enqueue?
    ensures Inv(NextClaim(s, step)) && Grows(s.outbox, NextClaim(s, step).outbox)
  {
    hide Inv, EnqueueAndClaim;
    var t := NextClaim(s, step);
    if t != s {
      var w, run := step.w, s.workers[step.w].pc.run;
      WorkerFacts(s, w);
      KeysDistinct(s);
      EnqueueFacts(s.outbox, step.key, step.intent, API_OWNER, step.ttl, step.now);
      var (outbox, r) := EnqueueAndClaim(s.outbox, step.key, step.intent, API_OWNER, step.ttl, step.now);
      OutboxSet(s, outbox);
      var u := s.(outbox := outbox);
      if r.Ok? && r.value.1 {
        PcSet(u, w, Claimed(r.value.0, run));
        assert t == WithPc(u, w, Claimed(r.value.0, run));
      } else {
        WorkerDropped(u, w);
        assert t == u.(workers := u.workers - {w});
      }
    }
  }

  lemma KeysDistinct(s: System)
    requires Inv(s)
    ensures DistinctKeys(s.outbox) && OneRunPerKey(s.provider)
    ensures forall p | p in s.provenance :: HasRun(s.provider, p.key, p.task)
    ensures forall id | id in s.pipelines :: s.pipelines[id].version >= 1
  {
  }

  lemma ClaimKeepsInv(s: System, step: Step)
    requires Inv(s) && (step.Load? || step.ClaimDue? || step.Take? || step.Crash?)
    ensures Inv(NextClaim(s, step)) && Grows(s.outbox, NextClaim(s, step).outbox)
  {
    hide Inv, Claim;
    KeysDistinct(s);
    var t := NextClaim(s, step);
    if t != s {
      match step
      case Load(w, id) => WorkerSet(s, w, Worker(API_OWNER, [], Loaded(id, s.pipelines[id])));
      case ClaimDue(w, owner, limit, ttl, now) => ClaimDueKeepsInv(s, w, owner, limit, ttl, now);
      case Take(w) =>
        if s.workers[w].todo == [] {
          WorkerDropped(s, w);
        } else {
          WorkerFacts(s, w);
          var todo := s.workers[w].todo;
          assert todo[0] in todo && forall i | i in todo[1..] :: i in todo;
          WorkerSet(s, w, Worker(s.workers[w].owner, s.workers[w].todo[1..], Taken(s.workers[w].todo[0])));
        }
      case Crash(w) => WorkerDropped(s, w);
    }
  }

  lemma ClaimDueKeepsInv(s: System, w: nat, owner: string, limit: int, ttl: int, now: int)
    requires Inv(s) && Claim(s.outbox, owner, limit, ttl, now).1.Ok?
    ensures var (outbox, r) := Claim(s.outbox, owner, limit, ttl, now);
            Inv(s.(outbox := outbox, workers := s.workers[w := Worker(owner, r.value, Idle)])) && Grows(s.outbox, outbox)
  {
    hide Inv;
    KeysDistinct(s);
    ClaimGrows(s.outbox, owner, limit, ttl, now);
    var (outbox, r) := Claim(s.outbox, owner, limit, ttl, now);
    OutboxSet(s, outbox);
    WorkerSet(s.(outbox := outbox), w, Worker(owner, r.value, Idle));
  }

  lemma StartRunFacts(provider: seq<ProviderRun>, key: string, newTask: string)
    requires OneRunPerKey(provider)
    ensures var (after, task) := StartRun(provider, key, newTask);
            Started(provider, after) && OneRunPerKey(after) && HasRun(after, key, task)
  {
    if FindRun(provider, key).None? {
      assert forall i | 0 <= i < |provider| :: provider[i] in provider;
    }
  }

  lemma GiveBackKeepsInv(s: System, w: nat, event: nat, retryAt: int)
    requires Inv(s) && w in s.workers
    ensures Inv(GiveBack(s, w, event, retryAt)) && Grows(s.outbox, GiveBack(s, w, event, retryAt).outbox)
  {
    hide Inv;
    KeysDistinct(s);
    SettleGrows(s.outbox, s.workers[w].owner, event, retryAt);
    var outbox := Nack(s.outbox, event, s.workers[w].owner, retryAt).0;
    OutboxSet(s, outbox);
    PcSet(s.(outbox := outbox), w, Idle);
  }

  lemma ExecuteKeepsInv(s: System, step: Step)
    requires Inv(s) && step.Execute?
    ensures Inv(NextEffect(s, step)) && Grows(s.outbox, NextEffect(s, step).outbox)
  {
    hide Inv, StartRun, Nack;
    if NextEffect(s, step) != s {
      var w, pc := step.w, s.workers[step.w].pc;
      KeysDistinct(s);
      StartRunFacts(s.provider, s.outbox[pc.event].key, step.newTask);
      var (provider, task) := StartRun(s.provider, s.outbox[pc.event].key, step.newTask);
      var u := s.(provider := provider);
      ProviderSet(s, provider);
      if !step.answered {
        GiveBackKeepsInv(u, w, pc.event, step.retryAt);
      } else {
        WorkerFacts(u, w);
        PcSet(u, w, if pc.Claimed? then Bound(pc.event, pc.run, task) else Executed(pc.event, pc.run, task, false));
      }
    }
  }

  lemma CheckKeepsInv(s: System, step: Step)
    requires Inv(s) && step.Check?
    ensures Inv(NextEffect(s, step)) && Grows(s.outbox, NextEffect(s, step).outbox)
  {
    hide Inv, Nack;
    if NextEffect(s, step) != s {
      var w, pc := step.w, s.workers[step.w].pc;
      EventFacts(s, pc.event);
      var intent := s.outbox[pc.event].intent;
      var run := s.pipelines[intent.pipeline];
      match Judge(run, intent)
      case Settle => PcSet(s, w, Done(pc.event));
      case Proceed => PcSet(s, w, Checked(pc.event, run));
      case Retry => GiveBackKeepsInv(s, w, pc.event, step.retryAt);
    }
  }

  lemma EffectKeepsInv(s: System, step: Step)
    requires Inv(s) && (step.Reuse? || step.SaveProvenance?)
    ensures Inv(NextEffect(s, step)) && Grows(s.outbox, NextEffect(s, step).outbox)
  {
    hide Inv, SavesProvenance;
    var t := NextEffect(s, step);
    if t != s {
      var w, pc := step.w, s.workers[step.w].pc;
      WorkerFacts(s, w);
      KeysDistinct(s);
      PcSet(s, w, t.workers[w].pc);
      ProvenanceAdded(WithPc(s, w, t.workers[w].pc), t.provenance - s.provenance);
      assert s.provenance + (t.provenance - s.provenance) == t.provenance;
    }
  }

  lemma CommitKeepsInv(s: System, step: Step)
    requires Inv(s) && step.Commit?
    ensures Inv(NextSettle(s, step)) && Grows(s.outbox, NextSettle(s, step).outbox)
  {
    hide Inv, Nack;
    var t := NextSettle(s, step);
    if t != s {
      var w, pc := step.w, s.workers[step.w].pc;
      WorkerFacts(s, w);
      EventFacts(s, pc.event);
      var intent := s.outbox[pc.event].intent;
      if s.pipelines[intent.pipeline].version == pc.run.version {
        var u := s.(pipelines := s.pipelines[intent.pipeline := Dispatched(pc.run, intent, pc.task)]);
        PipelineSet(s, intent.pipeline, Dispatched(pc.run, intent, pc.task));
        var v := u.(commits := u.commits[pc.event := Commitment(pc.task, pc.run.version)]);
        CommitSet(u, pc.event, Commitment(pc.task, pc.run.version));
        PcSet(v, w, if pc.Saved? then Committed(pc.event) else Done(pc.event));
      } else if pc.Saved? {
        GiveBackKeepsInv(s, w, pc.event, step.retryAt);
      } else {
        PcSet(s, w, Conflicted(pc.event, pc.task));
      }
    }
  }

  lemma SettleKeepsInv(s: System, step: Step)
    requires Inv(s) && (step.Review? || step.Fail?)
    ensures Inv(NextSettle(s, step)) && Grows(s.outbox, NextSettle(s, step).outbox)
  {
    hide Inv, Nack;
    if NextSettle(s, step) != s {
      var w, pc := step.w, s.workers[step.w].pc;
      WorkerFacts(s, w);
      if NextSettle(s, step) == GiveBack(s, w, pc.event, step.retryAt) {
        GiveBackKeepsInv(s, w, pc.event, step.retryAt);
      } else {
        PcSet(s, w, Done(pc.event));
      }
    }
  }

  lemma AcknowledgeKeepsInv(s: System, step: Step)
    requires Inv(s) && step.Acknowledge?
    ensures Inv(NextSettle(s, step)) && Grows(s.outbox, NextSettle(s, step).outbox)
  {
    hide Inv;
    if NextSettle(s, step) != s {
      var w, pc := step.w, s.workers[step.w].pc;
      WorkerFacts(s, w);
      KeysDistinct(s);
      SettleGrows(s.outbox, s.workers[w].owner, pc.event, 0);
      var (outbox, r) := Ack(s.outbox, pc.event, s.workers[w].owner);
      if r.None? {
        OutboxSet(s, outbox);
        PcSet(s.(outbox := outbox), w, Idle);
      } else {
        WorkerDropped(s, w);
      }
    }
  }

  lemma NextKeepsInv(s: System, step: Step)
    requires Inv(s)
    ensures Inv(Next(s, step)) && Grows(s.outbox, Next(s, step).outbox)
  {
    hide Inv, NextStored, NextClaim, NextEffect, NextSettle, Grows;
    match step
    case Create(_, _) => StoredKeepsInv(s, step);
    case OtherWrite(_, _) => StoredKeepsInv(s, step);
    case OtherProvenance(_) => StoredKeepsInv(s, step);
    case Recover(_) => StoredKeepsInv(s, step);
    case Enqueue(_, _, _, _, _) => EnqueueKeepsInv(s, step);
    case Load(_, _) => ClaimKeepsInv(s, step);
    case ClaimDue(_, _, _, _, _) => ClaimKeepsInv(s, step);
    case Take(_) => ClaimKeepsInv(s, step);
    case Crash(_) => ClaimKeepsInv(s, step);
    case Execute(_, _, _, _) => ExecuteKeepsInv(s, step);
    case Check(_, _) => CheckKeepsInv(s, step);
    case Reuse(_, _) => EffectKeepsInv(s, step);
    case SaveProvenance(_) => EffectKeepsInv(s, step);
    case Commit(_, _) => CommitKeepsInv(s, step);
    case Review(_, _) => SettleKeepsInv(s, step);
    case Acknowledge(_) => AcknowledgeKeepsInv(s, step);
    case Fail(_, _) => SettleKeepsInv(s, step);
  }

  /** The invariant holds in every reachable state, and published events stay published. */
  lemma {:induction false} RunKeepsInv(s: System, steps: seq<Step>)
    requires Inv(s)
    ensures Inv(RunSteps(s, steps)) && Grows(s.outbox, RunSteps(s, steps).outbox)
  {
    hide Inv, Next;
    if steps != [] {
      RunKeepsInv(s, steps[..|steps| - 1]);
      NextKeepsInv(RunSteps(s, steps[..|steps| - 1]), steps[|steps| - 1]);
    }
  }

  lemma InitialInv()
    ensures Inv(INITIAL)
  {
  }
}
