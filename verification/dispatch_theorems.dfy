/** What durable dispatch guarantees in every run. */
module DispatchTheorems {
  import opened Outbox
  import opened PipelineStatus
  import opened Dispatch
  import opened DispatchProofs

  // ---- Refinement of one atomic dispatch --------------------------------------

  /** The abstract system: pipelines, and which event has been dispatched to which task. */
  datatype Spec = Spec(pipelines: map<string, Run>, dispatched: map<nat, string>)

  function Abstract(s: System): Spec {
    Spec(s.pipelines, map i | i in s.commits :: s.commits[i].task)
  }

  /** The atomic step: Running at the intent's version and stage becomes Waiting on the task at the next
      version, for an event that was never dispatched before. */
  ghost predicate AtomicDispatch(a: Spec, b: Spec, event: nat, intent: Intent, task: string) {
    && event !in a.dispatched && b.dispatched == a.dispatched[event := task]
    && intent.pipeline in a.pipelines
    && var run := a.pipelines[intent.pipeline];
       && run.status == Running && run.version == intent.expectedVersion && run.stage == intent.stage
       && b.pipelines == a.pipelines[intent.pipeline :=
                           run.(status := Waiting, version := run.version + 1, task := task, workItem := intent.workItem)]
  }

  /** A write by someone else: one pipeline is created or moves to a higher version. */
  ghost predicate OutsideWrite(a: Spec, b: Spec, id: string) {
    && b.dispatched == a.dispatched && id in b.pipelines && b.pipelines == a.pipelines[id := b.pipelines[id]]
    && (id in a.pipelines ==> b.pipelines[id].version > a.pipelines[id].version)
  }

  lemma CommittedOnce(s: System, w: nat)
    requires Inv(s) && w in s.workers
    requires s.workers[w].pc.Saved? || s.workers[w].pc.Recorded?
    requires var pc := s.workers[w].pc;
             pc.event < |s.outbox| && s.outbox[pc.event].intent.pipeline in s.pipelines
             && s.pipelines[s.outbox[pc.event].intent.pipeline].version == pc.run.version
    ensures s.workers[w].pc.event !in s.commits
    ensures s.pipelines[s.outbox[s.workers[w].pc.event].intent.pipeline] == s.workers[w].pc.run
  {
    hide Inv;
    WorkerFacts(s, w);
    if s.workers[w].pc.event in s.commits {
      CommitFacts(s, s.workers[w].pc.event);
      assert false;
    }
  }

  lemma CommitFacts(s: System, i: nat)
    requires Inv(s) && i in s.commits
    ensures CommitInv(s.pipelines, s.outbox, s.provider, i, s.commits[i])
  {
    hide CommitInv;
  }

  lemma SameAbstract(s: System, t: System)
    requires t.pipelines == s.pipelines && t.commits == s.commits
    ensures Abstract(t) == Abstract(s)
  {
  }

  /** Claims, reads, provider calls and acknowledgements leave the abstract state alone. */
  lemma QuietClaim(s: System, step: Step)
    requires step.Load? || step.Enqueue? || step.ClaimDue? || step.Take? || step.Crash?
    ensures Abstract(NextClaim(s, step)) == Abstract(s)
  {
    hide Abstract, EnqueueAndClaim, Claim;
    SameAbstract(s, NextClaim(s, step));
  }

  lemma QuietEffect(s: System, step: Step)
    requires step.Check? || step.Execute? || step.Reuse? || step.SaveProvenance?
    ensures Abstract(NextEffect(s, step)) == Abstract(s)
  {
    hide Abstract, Nack, Judge, StartRun, SavesProvenance;
    SameAbstract(s, NextEffect(s, step));
  }

  lemma QuietSettle(s: System, step: Step)
    requires step.Review? || step.Acknowledge? || step.Fail?
    ensures Abstract(NextSettle(s, step)) == Abstract(s)
  {
    hide Abstract, Ack, Nack;
    SameAbstract(s, NextSettle(s, step));
  }

  lemma QuietStored(s: System, step: Step)
    requires step.OtherProvenance? || step.Recover?
    ensures Abstract(NextStored(s, step)) == Abstract(s)
  {
    hide Abstract, Recovered;
    SameAbstract(s, NextStored(s, step));
  }

  /** One concrete step is, abstractly, nothing, an outside write, or one atomic dispatch of the
      committing worker's event to a run the provider started for that event's key. */
  ghost predicate Refines(s: System, step: Step) {
    var (a, b) := (Abstract(s), Abstract(Next(s, step)));
    || a == b
    || (step.Create? && OutsideWrite(a, b, step.pipeline))
    || (step.OtherWrite? && OutsideWrite(a, b, step.pipeline))
    || (step.Commit? && DispatchesAtomically(s, a, b, step.w))
  }

  ghost predicate DispatchesAtomically(s: System, a: Spec, b: Spec, w: nat) {
    && w in s.workers && (s.workers[w].pc.Saved? || s.workers[w].pc.Recorded?)
    && var pc := s.workers[w].pc;
       && pc.event < |s.outbox|
       && AtomicDispatch(a, b, pc.event, s.outbox[pc.event].intent, pc.task)
       && HasRun(s.provider, s.outbox[pc.event].key, pc.task)
  }

  lemma StepRefines(s: System, step: Step)
    requires Inv(s)
    ensures Refines(s, step)
  {
    hide Inv, Abstract, NextClaim, NextEffect, NextSettle, DispatchesAtomically;
    if step.OtherProvenance? || step.Recover? {
      QuietStored(s, step);
    } else if step.Create? || step.OtherWrite? {
      WriteRefines(s, step);
    } else if step.Load? || step.Enqueue? || step.ClaimDue? || step.Take? || step.Crash? {
      QuietClaim(s, step);
    } else if step.Check? || step.Execute? || step.Reuse? || step.SaveProvenance? {
      QuietEffect(s, step);
    } else if step.Commit? {
      CommitRefines(s, step);
    } else {
      QuietSettle(s, step);
    }
  }

  lemma WriteRefines(s: System, step: Step)
    requires step.Create? || step.OtherWrite?
    ensures var (a, b) := (Abstract(s), Abstract(NextStored(s, step))); a == b || OutsideWrite(a, b, step.pipeline)
  {
  }

  lemma CommitRefines(s: System, step: Step)
    requires Inv(s) && step.Commit?
    ensures var (a, b) := (Abstract(s), Abstract(NextSettle(s, step))); a == b || DispatchesAtomically(s, a, b, step.w)
  {
    hide Inv, Nack;
    var t := NextSettle(s, step);
    if step.w in s.workers && (s.workers[step.w].pc.Saved? || s.workers[step.w].pc.Recorded?) {
      var pc := s.workers[step.w].pc;
      WorkerFacts(s, step.w);
      var intent := s.outbox[pc.event].intent;
      if s.pipelines[intent.pipeline].version == pc.run.version {
        CommittedOnce(s, step.w);
        assert Abstract(t).dispatched == Abstract(s).dispatched[pc.event := pc.task];
      } else {
        assert t.commits == s.commits && t.pipelines == s.pipelines;
      }
    }
  }

  /** Every run from the initial state refines the abstract system, step by step. */
  lemma RunRefines(steps: seq<Step>, k: nat)
    requires k < |steps|
    ensures RunSteps(INITIAL, steps[..k + 1]) == Next(RunSteps(INITIAL, steps[..k]), steps[k])
    ensures Refines(RunSteps(INITIAL, steps[..k]), steps[k])
  {
    hide Inv, Next, Refines;
    assert steps[..k + 1][..k] == steps[..k];
    InitialInv();
    RunKeepsInv(INITIAL, steps[..k]);
    StepRefines(RunSteps(INITIAL, steps[..k]), steps[k]);
  }

  // ---- At most one run and one commit ------------------------------------------

  /** In every reachable state: keys have at most one provider run, every commit of an event names the
      run of that event's key, and two commits on a pipeline never start from the same version. */
  lemma OneRunOneCommit(steps: seq<Step>)
    ensures var s := RunSteps(INITIAL, steps);
            && (forall i, j | 0 <= i < |s.provider| && 0 <= j < |s.provider| ::
                  s.provider[i].key == s.provider[j].key ==> i == j)
            && (forall e | e in s.commits ::
                  e < |s.outbox|
                  && forall task :: HasRun(s.provider, s.outbox[e].key, task) <==> task == s.commits[e].task)
  {
    hide Inv, RunSteps;
    InitialInv();
    RunKeepsInv(INITIAL, steps);
    var s := RunSteps(INITIAL, steps);
    KeysDistinct(s);
    forall e | e in s.commits
      ensures e < |s.outbox| && forall task :: HasRun(s.provider, s.outbox[e].key, task) <==> task == s.commits[e].task
    {
      CommitFacts(s, e);
      forall task | HasRun(s.provider, s.outbox[e].key, task) ensures task == s.commits[e].task {
        UniqueRun(s.provider, s.outbox[e].key, task, s.commits[e].task);
      }
    }
  }

  lemma UniqueRun(provider: seq<ProviderRun>, key: string, t1: string, t2: string)
    requires OneRunPerKey(provider) && HasRun(provider, key, t1) && HasRun(provider, key, t2)
    ensures t1 == t2
  {
    var i :| 0 <= i < |provider| && provider[i] == ProviderRun(key, t1);
    var j :| 0 <= j < |provider| && provider[j] == ProviderRun(key, t2);
    assert i == j;
  }

  // ---- No lost dispatch ---------------------------------------------------------

  /** Once an event is acknowledged, then after any further steps its pipeline is not Running at the
      intent's expected version and stage. */
  lemma NoLostDispatch(before: seq<Step>, after: seq<Step>, e: nat)
    requires e < |RunSteps(INITIAL, before).outbox| && RunSteps(INITIAL, before).outbox[e].state == Published
    ensures var s, t := RunSteps(INITIAL, before), RunSteps(RunSteps(INITIAL, before), after);
            && e < |t.outbox| && t.outbox[e].intent == s.outbox[e].intent && t.outbox[e].state == Published
            && s.outbox[e].intent.pipeline in t.pipelines
            && var run := t.pipelines[s.outbox[e].intent.pipeline];
               !(run.status == Running && run.version == s.outbox[e].intent.expectedVersion
                 && run.stage == s.outbox[e].intent.stage)
  {
    hide Inv, RunSteps;
    InitialInv();
    RunKeepsInv(INITIAL, before);
    RunKeepsInv(RunSteps(INITIAL, before), after);
    EventFacts(RunSteps(RunSteps(INITIAL, before), after), e);
  }

  // ---- Recovery alone completes an intent ----------------------------------------

  /** What one undisturbed recovery worker does for an event it has claimed. */
  function Schedule(w: nat, newTask: string, retryAt: int): seq<Step> {
    [Take(w), Check(w, retryAt), Execute(w, newTask, true, retryAt), SaveProvenance(w), Commit(w, retryAt), Acknowledge(w)]
  }

  function Prefix(w: nat, newTask: string, retryAt: int, k: nat): seq<Step>
    requires k <= 6
  {
    Schedule(w, newTask, retryAt)[..k]
  }

  lemma RunPrefix(s: System, w: nat, newTask: string, retryAt: int, k: nat)
    requires 1 <= k <= 6
    ensures RunSteps(s, Prefix(w, newTask, retryAt, k)) ==
            Next(RunSteps(s, Prefix(w, newTask, retryAt, k - 1)), Schedule(w, newTask, retryAt)[k - 1])
  {
    hide Next;
    assert Prefix(w, newTask, retryAt, k)[..k - 1] == Prefix(w, newTask, retryAt, k - 1);
  }

  lemma PrefixEnds(s: System, w: nat, newTask: string, retryAt: int)
    ensures RunSteps(s, Prefix(w, newTask, retryAt, 0)) == s
    ensures Prefix(w, newTask, retryAt, 6) == Schedule(w, newTask, retryAt)
  {
  }

  lemma RunHalf(s: System, w: nat, newTask: string, retryAt: int)
    ensures RunSteps(s, Prefix(w, newTask, retryAt, 3)) ==
            NextEffect(NextEffect(NextClaim(s, Take(w)), Check(w, retryAt)), Execute(w, newTask, true, retryAt))
  {
    hide NextClaim, NextEffect, NextSettle, RunSteps, Prefix;
    PrefixEnds(s, w, newTask, retryAt);
    RunPrefix(s, w, newTask, retryAt, 1);
    RunPrefix(s, w, newTask, retryAt, 2);
    RunPrefix(s, w, newTask, retryAt, 3);
  }

  lemma RunSchedule(s: System, w: nat, newTask: string, retryAt: int)
    ensures RunSteps(s, Schedule(w, newTask, retryAt)) ==
            NextSettle(NextSettle(NextEffect(NextEffect(NextEffect(NextClaim(s, Take(w)), Check(w, retryAt)),
              Execute(w, newTask, true, retryAt)), SaveProvenance(w)), Commit(w, retryAt)), Acknowledge(w))
  {
    hide NextClaim, NextEffect, NextSettle, RunSteps, Prefix;
    PrefixEnds(s, w, newTask, retryAt);
    RunHalf(s, w, newTask, retryAt);
    RunPrefix(s, w, newTask, retryAt, 4);
    RunPrefix(s, w, newTask, retryAt, 5);
    RunPrefix(s, w, newTask, retryAt, 6);
  }

  ghost predicate OwnsClaim(s: System, w: nat, e: nat) {
    && w in s.workers && e < |s.outbox|
    && s.outbox[e].state.Processing? && s.outbox[e].state.owner == s.workers[w].owner
    && s.outbox[e].intent.pipeline in s.pipelines
  }

  lemma TakenUp(s: System, w: nat, e: nat)
    requires OwnsClaim(s, w, e) && s.workers[w].todo != [] && s.workers[w].todo[0] == e && s.workers[w].pc == Idle
    ensures NextClaim(s, Take(w)) ==
            s.(workers := s.workers[w := Worker(s.workers[w].owner, s.workers[w].todo[1..], Taken(e))])
  {
  }

  lemma CheckedOutcome(s: System, w: nat, e: nat, retryAt: int)
    requires OwnsClaim(s, w, e) && s.workers[w].pc == Taken(e)
    ensures var intent := s.outbox[e].intent;
            var run := s.pipelines[intent.pipeline];
            NextEffect(s, Check(w, retryAt)) ==
            match Judge(run, intent)
            case Settle => WithPc(s, w, Done(e))
            case Proceed => WithPc(s, w, Checked(e, run))
            case Retry => WithPc(s, w, Idle).(outbox := s.outbox[e := s.outbox[e].(state := Pending(retryAt))])
  {
    hide Judge;
  }

  /** The three steps between the check and the acknowledgement. */
  ghost function Effects(s: System, w: nat, newTask: string, retryAt: int): System {
    NextSettle(NextEffect(NextEffect(s, Execute(w, newTask, true, retryAt)), SaveProvenance(w)), Commit(w, retryAt))
  }

  /** Steps that are not enabled for the worker's state change nothing. */
  lemma Skipped(s: System, w: nat, newTask: string, retryAt: int)
    requires w in s.workers && (s.workers[w].pc.Done? || s.workers[w].pc.Idle?)
    ensures Effects(s, w, newTask, retryAt) == s
  {
  }

  /** The record a recovered dispatch leaves for its work item: only development has one. */
  function RecordOf(e: Event, task: string): set<Provenance> {
    if e.intent.stage == 2 && e.intent.workItem != "" then {Provenance(e.intent.workItem, e.key, task)} else {}
  }

  lemma Proceeds(s: System, w: nat, e: nat, newTask: string, retryAt: int)
    requires OwnsClaim(s, w, e) && newTask != ""
    requires s.workers[w].pc == Checked(e, s.pipelines[s.outbox[e].intent.pipeline])
    ensures var t := Effects(s, w, newTask, retryAt);
            var intent := s.outbox[e].intent;
            var (provider, task) := StartRun(s.provider, s.outbox[e].key, newTask);
            && OwnsClaim(t, w, e) && t.workers[w] == s.workers[w].(pc := Done(e))
            && t.outbox == s.outbox && t.provider == provider
            && t.pipelines == s.pipelines[intent.pipeline := Dispatched(s.pipelines[intent.pipeline], intent, task)]
            && t.commits == s.commits[e := Commitment(task, s.pipelines[intent.pipeline].version)]
            && t.provenance == s.provenance + RecordOf(s.outbox[e], task)
  {
    hide StartRun;
    var task := StartRun(s.provider, s.outbox[e].key, newTask).1;
    var run := s.pipelines[s.outbox[e].intent.pipeline];
    var s3 := NextEffect(s, Execute(w, newTask, true, retryAt));
    assert s3.workers[w].pc == Executed(e, run, task, false);
    var s4 := NextEffect(s3, SaveProvenance(w));
    assert s4.workers[w].pc == Recorded(e, run, task) && s4.pipelines == s.pipelines;
  }

  lemma Acknowledged(s: System, w: nat, e: nat)
    requires OwnsClaim(s, w, e) && s.workers[w].pc == Done(e)
    ensures var t := NextSettle(s, Acknowledge(w));
            && t.outbox == s.outbox[e := s.outbox[e].(state := Published)]
            && t.pipelines == s.pipelines && t.provider == s.provider
            && t.provenance == s.provenance && t.commits == s.commits
            && w in t.workers && t.workers[w] == s.workers[w].(pc := Idle)
  {
  }

  lemma IdleKeeps(s: System, w: nat)
    requires w in s.workers && s.workers[w].pc == Idle
    ensures NextSettle(s, Acknowledge(w)) == s
  {
  }

  /** The pipeline still stands where the intent was made. */
  predicate Awaited(run: Run, intent: Intent) {
    run.status == Running && run.version == intent.expectedVersion && run.stage == intent.stage
  }

  /** There is nothing left to dispatch: the pipeline has ended, or it has moved on and waits for a task. */
  predicate Overtaken(run: Run, intent: Intent) {
    || run.status == Suspended || run.status == Completed || run.status == Failed
    || (run.version > intent.expectedVersion && run.status == Waiting && run.task != "")
  }

  lemma JudgeMeans(run: Run, intent: Intent)
    ensures Judge(run, intent) == Proceed <==> Awaited(run, intent)
    ensures Judge(run, intent) == Settle <==> Overtaken(run, intent)
  {
  }

  ghost predicate Claims(s: System, w: nat, e: nat) {
    w in s.workers && e < |s.outbox| && s.outbox[e].state.Processing? && s.outbox[e].state.owner == s.workers[w].owner
  }

  /** What an undisturbed recovery does for one event. A pipeline that still stands where the intent was made is
      dispatched: it waits, one version on, on the one provider run of the event's key, and the run is on record for
      its work item. Otherwise nothing but the event changes. The event is acknowledged if the pipeline was dispatched
      or there was nothing left to dispatch, and is pending again if not. */
  ghost predicate Served(s: System, t: System, e: nat, retryAt: int)
    requires e < |s.outbox| && s.outbox[e].intent.pipeline in s.pipelines
  {
    var intent := s.outbox[e].intent;
    var run := s.pipelines[intent.pipeline];
    var done := Awaited(run, intent) || Overtaken(run, intent);
    && t.outbox == s.outbox[e := Event(s.outbox[e].key, intent, if done then Published else Pending(retryAt))]
    && if Awaited(run, intent) then
         exists task :: HasRun(t.provider, s.outbox[e].key, task)
           && t.pipelines == s.pipelines[intent.pipeline :=
                Run(intent.expectedVersion + 1, run.stage, Waiting, task, intent.workItem, run.rest)]
           && t.commits == s.commits[e := Commitment(task, intent.expectedVersion)]
           && t.provenance == s.provenance + RecordOf(s.outbox[e], task)
       else t.pipelines == s.pipelines && t.provider == s.provider && t.provenance == s.provenance && t.commits == s.commits
  }

  /** From any reachable state, a recovery worker left alone with an event it has claimed serves it; no other
      event moves and the worker is ready for the rest of its batch. */
  lemma RecoveryCompletes(s: System, w: nat, e: nat, newTask: string, retryAt: int)
    requires Inv(s) && newTask != "" && Claims(s, w, e)
    requires s.workers[w].todo != [] && s.workers[w].todo[0] == e && s.workers[w].pc == Idle
    ensures s.outbox[e].intent.pipeline in s.pipelines
    ensures var t := RunSteps(s, Schedule(w, newTask, retryAt));
            && w in t.workers && t.workers[w] == Worker(s.workers[w].owner, s.workers[w].todo[1..], Idle)
            && Served(s, t, e, retryAt)
  {
    hide RunSteps, Inv, StartRun, NextClaim, NextEffect, NextSettle, Judge, Awaited, Overtaken;
    RunSchedule(s, w, newTask, retryAt);
    EventFacts(s, e);
    TakenUp(s, w, e);
    var s1 := NextClaim(s, Take(w));
    CheckedOutcome(s1, w, e, retryAt);
    var s2 := NextEffect(s1, Check(w, retryAt));
    var run, intent := s.pipelines[s.outbox[e].intent.pipeline], s.outbox[e].intent;
    JudgeMeans(run, intent);
    match Judge(run, intent)
    case Settle =>
      Skipped(s2, w, newTask, retryAt);
      Acknowledged(s2, w, e);
    case Retry =>
      Skipped(s2, w, newTask, retryAt);
      IdleKeeps(s2, w);
    case Proceed =>
      KeysDistinct(s);
      StartRunFacts(s.provider, s.outbox[e].key, newTask);
      Proceeds(s2, w, e, newTask, retryAt);
      Acknowledged(Effects(s2, w, newTask, retryAt), w, e);
      AwaitedRun(run, intent);
  }

  lemma AwaitedRun(run: Run, intent: Intent)
    requires Awaited(run, intent)
    ensures forall task :: Dispatched(run, intent, task) ==
                           Run(intent.expectedVersion + 1, run.stage, Waiting, task, intent.workItem, run.rest)
    ensures run.version == intent.expectedVersion
  {
  }

  // ---- A claimed batch ---------------------------------------------------------------

  /** One schedule for each of the first events of the batch. */
  function Batch(w: nat, newTasks: seq<string>, retryAt: int): seq<Step> {
    if newTasks == [] then []
    else Batch(w, newTasks[..|newTasks| - 1], retryAt) + Schedule(w, newTasks[|newTasks| - 1], retryAt)
  }

  lemma {:induction false} RunConcat(s: System, a: seq<Step>, b: seq<Step>)
    ensures RunSteps(s, a + b) == RunSteps(RunSteps(s, a), b)
    decreases |b|
  {
    hide Next;
    if b == [] {
      assert a + b == a;
    } else {
      assert (a + b)[..|a + b| - 1] == a + b[..|b| - 1];
      RunConcat(s, a, b[..|b| - 1]);
    }
  }

  /** The worker holds a claim on every event of its batch, and each event is there once. */
  ghost predicate HoldsBatch(s: System, w: nat) {
    && w in s.workers && s.workers[w].pc == Idle
    && (forall k | 0 <= k < |s.workers[w].todo| :: Claims(s, w, s.workers[w].todo[k]))
    && (forall k, l | 0 <= k < l < |s.workers[w].todo| :: s.workers[w].todo[k] != s.workers[w].todo[l])
  }

  /** How one event of the batch ends, by where its pipeline stands when its turn comes. */
  ghost predicate TurnSettled(s: System, w: nat, newTasks: seq<string>, retryAt: int, t: System, k: nat)
    requires w in s.workers && k < |newTasks| && k < |s.workers[w].todo|
  {
    var e := s.workers[w].todo[k];
    var turn := RunSteps(s, Batch(w, newTasks[..k], retryAt));
    && e < |turn.outbox| && e < |t.outbox| && turn.outbox[e].intent.pipeline in turn.pipelines
    && Served(turn, RunSteps(turn, Schedule(w, newTasks[k], retryAt)), e, retryAt)
    && t.outbox[e] == RunSteps(turn, Schedule(w, newTasks[k], retryAt)).outbox[e]
  }

  /** Left alone, a recovery worker serves the events of its batch one after the other, each by where its
      pipeline stands when its turn comes. */
  lemma {:induction false} BatchCompletes(s: System, w: nat, newTasks: seq<string>, retryAt: int)
    requires Inv(s) && HoldsBatch(s, w) && |newTasks| <= |s.workers[w].todo|
    requires forall k | 0 <= k < |newTasks| :: newTasks[k] != ""
    ensures var t := RunSteps(s, Batch(w, newTasks, retryAt));
            && Inv(t) && HoldsBatch(t, w)
            && t.workers[w] == Worker(s.workers[w].owner, s.workers[w].todo[|newTasks|..], Idle)
            && forall k | 0 <= k < |newTasks| :: TurnSettled(s, w, newTasks, retryAt, t, k)
  {
    hide Inv, RunSteps, Schedule, Served;
    if newTasks == [] {
      assert RunSteps(s, []) == s by { NoSteps(s); }
    } else {
      var n := |newTasks| - 1;
      var init := newTasks[..n];
      BatchCompletes(s, w, init, retryAt);
      var turn := RunSteps(s, Batch(w, init, retryAt));
      var e := s.workers[w].todo[n];
      assert turn.workers[w].todo[0] == e;
      assert Claims(turn, w, e);
      RecoveryCompletes(turn, w, e, newTasks[n], retryAt);
      RunConcat(s, Batch(w, init, retryAt), Schedule(w, newTasks[n], retryAt));
      RunKeepsInv(turn, Schedule(w, newTasks[n], retryAt));
      var t := RunSteps(turn, Schedule(w, newTasks[n], retryAt));
      ServedOthers(turn, t, e, retryAt);
      RestHeld(turn, t, w, e);
      forall k | 0 <= k < |newTasks| ensures TurnSettled(s, w, newTasks, retryAt, t, k) {
        assert newTasks[..k] == init[..k];
        if k < n {
          assert TurnSettled(s, w, init, retryAt, turn, k);
          assert s.workers[w].todo[k] != e;
        }
      }
    }
  }

  lemma ServedOthers(s: System, t: System, e: nat, retryAt: int)
    requires e < |s.outbox| && s.outbox[e].intent.pipeline in s.pipelines && Served(s, t, e, retryAt)
    ensures |t.outbox| == |s.outbox| && forall k | 0 <= k < |s.outbox| && k != e :: t.outbox[k] == s.outbox[k]
  {
    hide Awaited, Overtaken;
  }

  lemma NoSteps(s: System)
    ensures RunSteps(s, []) == s
  {
  }

  lemma RestHeld(s: System, t: System, w: nat, e: nat)
    requires HoldsBatch(s, w) && s.workers[w].todo != [] && s.workers[w].todo[0] == e && e < |s.outbox|
    requires w in t.workers && t.workers[w] == Worker(s.workers[w].owner, s.workers[w].todo[1..], Idle)
    requires |t.outbox| == |s.outbox| && forall k | 0 <= k < |s.outbox| && k != e :: t.outbox[k] == s.outbox[k]
    ensures HoldsBatch(t, w)
  {
    var todo := s.workers[w].todo;
    forall k | 0 <= k < |t.workers[w].todo| ensures Claims(t, w, t.workers[w].todo[k]) {
      assert Claims(s, w, todo[k + 1]) && todo[0] != todo[k + 1];
    }
  }
}
