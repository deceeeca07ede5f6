/** What an undisturbed request dispatches, and how recovery picks up what a request left behind. */
module DispatchRequests {
  import opened Options
  import opened Outbox
  import opened OutboxLeases
  import opened PipelineStatus
  import opened Dispatch
  import opened DispatchProofs
  import opened DispatchTheorems

  // ---- A request of its own ----------------------------------------------------------------------------------

  function Request(w: nat, key: string, intent: Intent, ttl: int, now: int, newTask: string): seq<Step> {
    [Load(w, intent.pipeline), Enqueue(w, key, intent, ttl, now), Execute(w, newTask, true, 0), SaveProvenance(w),
     Commit(w, 0), Acknowledge(w)]
  }

  lemma RunSix(s: System, a: Step, b: Step, c: Step, d: Step, e: Step, f: Step)
    ensures RunSteps(s, [a, b, c, d, e, f]) == Next(Next(Next(Next(Next(Next(s, a), b), c), d), e), f)
  {
    hide Next;
    var steps := [a, b, c, d, e, f];
    assert steps[..5][..4] == steps[..4] && steps[..4][..3] == steps[..3];
    assert steps[..3][..2] == steps[..2] && steps[..2][..1] == steps[..1] && steps[..1][..0] == [];
    assert RunSteps(s, steps[..1]) == Next(s, a);
    assert RunSteps(s, steps[..2]) == Next(Next(s, a), b);
    assert RunSteps(s, steps[..3]) == Next(Next(Next(s, a), b), c);
    assert RunSteps(s, steps[..4]) == Next(Next(Next(Next(s, a), b), c), d);
  }

  /** The dispatch is recorded for its work item: a continuation if the item has a record already, anything else in
      development. */
  ghost predicate Kept(s: System, intent: Intent) {
    && intent.workItem != ""
    && if intent.continuation then exists p :: p in s.provenance && p.workItem == intent.workItem else intent.stage == 2
  }

  ghost function Record(s: System, key: string, intent: Intent, task: string): set<Provenance> {
    if Kept(s, intent) then {Provenance(intent.workItem, key, task)} else {}
  }

  lemma LoadedAndClaimed(s: System, w: nat, key: string, intent: Intent, ttl: int, now: int)
    requires w !in s.workers && intent.pipeline in s.pipelines && Awaited(s.pipelines[intent.pipeline], intent)
    requires key != "" && ttl > 0 && forall e | e in s.outbox :: e.key != key
    ensures Next(Next(s, Load(w, intent.pipeline)), Enqueue(w, key, intent, ttl, now)) ==
            s.(outbox := s.outbox + [Event(key, intent, Processing(API_OWNER, now + ttl))],
               workers := s.workers[w := Worker(API_OWNER, [], Claimed(|s.outbox|, s.pipelines[intent.pipeline]))])
  {
    assert API_OWNER != "" by {
      assert |API_OWNER| > 0;
    }
    assert Find(s.outbox, key) == None;
    var loaded := Next(s, Load(w, intent.pipeline));
    assert loaded.workers[w].pc == Loaded(intent.pipeline, s.pipelines[intent.pipeline]);
  }

  lemma StartsRun(s: System, w: nat, e: nat, newTask: string)
    requires w in s.workers && e < |s.outbox| && newTask != "" && s.workers[w].pc.Claimed? && s.workers[w].pc.event == e
    ensures var (provider, task) := StartRun(s.provider, s.outbox[e].key, newTask);
            Next(s, Execute(w, newTask, true, 0)) ==
            WithPc(s.(provider := provider), w, Bound(e, s.workers[w].pc.run, task))
  {
    hide StartRun;
  }

  lemma KeepsRecord(s: System, w: nat, e: nat)
    requires w in s.workers && e < |s.outbox| && s.workers[w].pc.Bound? && s.workers[w].pc.event == e
    ensures var pc := s.workers[w].pc;
            var intent := s.outbox[e].intent;
            Next(s, SaveProvenance(w)) ==
            WithPc(s, w, Saved(e, pc.run, pc.task)).(
              provenance := s.provenance + Record(s, s.outbox[e].key, intent, pc.task))
  {
  }

  lemma CommitsRun(s: System, w: nat, e: nat)
    requires w in s.workers && e < |s.outbox| && s.workers[w].pc.Saved? && s.workers[w].pc.event == e
    requires s.outbox[e].intent.pipeline in s.pipelines && s.pipelines[s.outbox[e].intent.pipeline] == s.workers[w].pc.run
    ensures var pc := s.workers[w].pc;
            var intent := s.outbox[e].intent;
            Next(s, Commit(w, 0)) ==
            WithPc(s, w, Committed(e)).(
              pipelines := s.pipelines[intent.pipeline := Dispatched(pc.run, intent, pc.task)],
              commits := s.commits[e := Commitment(pc.task, pc.run.version)])
  {
  }

  lemma AcknowledgesRun(s: System, w: nat, e: nat)
    requires w in s.workers && e < |s.outbox| && s.workers[w].pc == Committed(e)
    requires s.outbox[e].state.Processing? && s.outbox[e].state.owner == s.workers[w].owner
    ensures Next(s, Acknowledge(w)) == WithPc(s, w, Idle).(outbox := s.outbox[e := s.outbox[e].(state := Published)])
  {
  }

  /** The steps from the claim to the acknowledgement. */
  lemma ClaimedToDone(s: System, w: nat, e: nat, newTask: string)
    requires w in s.workers && e < |s.outbox| && s.outbox[e].intent.pipeline in s.pipelines && newTask != ""
    requires s.outbox[e].state.Processing? && s.outbox[e].state.owner == s.workers[w].owner
    requires s.workers[w].pc == Claimed(e, s.pipelines[s.outbox[e].intent.pipeline])
    ensures var intent := s.outbox[e].intent;
            var run := s.pipelines[intent.pipeline];
            var (provider, task) := StartRun(s.provider, s.outbox[e].key, newTask);
            var t := Next(Next(Next(Next(s, Execute(w, newTask, true, 0)), SaveProvenance(w)), Commit(w, 0)), Acknowledge(w));
            && t.outbox == s.outbox[e := s.outbox[e].(state := Published)] && t.provider == provider
            && t.pipelines == s.pipelines[intent.pipeline := Dispatched(run, intent, task)]
            && t.commits == s.commits[e := Commitment(task, run.version)]
            && t.provenance == s.provenance + Record(s, s.outbox[e].key, intent, task)
  {
    hide StartRun, Next, Kept, Dispatched;
    StartsRun(s, w, e, newTask);
    var s1 := Next(s, Execute(w, newTask, true, 0));
    KeepsRecord(s1, w, e);
    SameKept(s, s1, s.outbox[e].intent);
    var s2 := Next(s1, SaveProvenance(w));
    CommitsRun(s2, w, e);
    AcknowledgesRun(Next(s2, Commit(w, 0)), w, e);
  }

  /** A request for a pipeline that stands where its intent says, under a key of its own, dispatches it: the event is
      acknowledged, the pipeline waits, one version on, on the one run of the key, and the work item's record is kept. */
  lemma RequestDispatches(s: System, w: nat, key: string, intent: Intent, ttl: int, now: int, newTask: string)
    requires Inv(s) && w !in s.workers && intent.pipeline in s.pipelines && Awaited(s.pipelines[intent.pipeline], intent)
    requires key != "" && ttl > 0 && newTask != "" && forall e | e in s.outbox :: e.key != key
    ensures var t := RunSteps(s, Request(w, key, intent, ttl, now, newTask));
            var run := s.pipelines[intent.pipeline];
            && t.outbox == s.outbox + [Event(key, intent, Published)]
            && exists task :: HasRun(t.provider, key, task)
                 && t.pipelines == s.pipelines[intent.pipeline :=
                      Run(intent.expectedVersion + 1, run.stage, Waiting, task, intent.workItem, run.rest)]
                 && t.commits == s.commits[|s.outbox| := Commitment(task, intent.expectedVersion)]
                 && t.provenance == s.provenance + Record(s, key, intent, task)
  {
    hide Next, RunSteps, Inv, StartRun, Awaited, Kept;
    var load, enqueue := Load(w, intent.pipeline), Enqueue(w, key, intent, ttl, now);
    RunSix(s, load, enqueue, Execute(w, newTask, true, 0), SaveProvenance(w), Commit(w, 0), Acknowledge(w));
    LoadedAndClaimed(s, w, key, intent, ttl, now);
    var claimed := Next(Next(s, load), enqueue);
    ClaimedToDone(claimed, w, |s.outbox|, newTask);
    SameKept(s, claimed, intent);
    KeysDistinct(s);
    StartRunFacts(s.provider, key, newTask);
    AwaitedRun(s.pipelines[intent.pipeline], intent);
    var task := StartRun(s.provider, key, newTask).1;
    assert claimed.outbox[|s.outbox| := Event(key, intent, Published)] == s.outbox + [Event(key, intent, Published)];
  }

  lemma SameKept(s: System, t: System, intent: Intent)
    requires t.provenance == s.provenance
    ensures Kept(t, intent) == Kept(s, intent)
  {
  }

  /** A request whose start is not answered gives its event back for later; the pipeline stays as it was. */
  lemma UnansweredGivesBack(s: System, w: nat, e: nat, newTask: string, retryAt: int)
    requires w in s.workers && e < |s.outbox| && newTask != "" && s.workers[w].pc.Claimed? && s.workers[w].pc.event == e
    requires s.outbox[e].state.Processing? && s.outbox[e].state.owner == s.workers[w].owner
    ensures var t := Next(s, Execute(w, newTask, false, retryAt));
            && t.outbox == s.outbox[e := s.outbox[e].(state := Pending(retryAt))]
            && t.pipelines == s.pipelines && t.commits == s.commits && t.provenance == s.provenance
            && w in t.workers && t.workers[w].pc == Idle
  {
  }

  // ---- What goes wrong --------------------------------------------------------------------------------------------

  /** The worker has started on an event and has neither settled nor finished it. */
  predicate AtWork(pc: Pc) {
    pc.Claimed? || pc.Bound? || pc.Saved? || pc.Taken? || pc.Checked? || pc.Executed? || pc.Recorded? || pc.Conflicted?
  }

  /** Whatever a worker was doing for an event it holds, failing there gives the event back for later. */
  lemma FailureGivesBack(s: System, w: nat, e: nat, retryAt: int)
    requires w in s.workers && AtWork(s.workers[w].pc) && s.workers[w].pc.event == e && Claims(s, w, e)
    ensures Next(s, Fail(w, retryAt)) ==
            s.(outbox := s.outbox[e := s.outbox[e].(state := Pending(retryAt))],
               workers := s.workers[w := Worker(s.workers[w].owner, s.workers[w].todo, Idle)])
  {
  }

  /** A worker that has lost its claim, or has nothing left to fail at, leaves every event alone. */
  lemma FailureWithoutClaim(s: System, w: nat, retryAt: int)
    requires w in s.workers && (AtWork(s.workers[w].pc) ==> !Claims(s, w, s.workers[w].pc.event))
    ensures Next(s, Fail(w, retryAt)).outbox == s.outbox
  {
  }

  /** A recovery worker whose pipeline was written while it worked changes no pipeline. Its event is acknowledged if
      the pipeline already waits on the worker's own run, and is pending again if not. */
  lemma LostRace(s: System, w: nat, e: nat, retryAt: int)
    requires w in s.workers && s.workers[w].pc.Recorded? && s.workers[w].pc.event == e && Claims(s, w, e)
    requires s.outbox[e].intent.pipeline in s.pipelines && s.workers[w].pc.run.version >= 1
    requires s.pipelines[s.outbox[e].intent.pipeline].version != s.workers[w].pc.run.version
    ensures var t := Next(Next(Next(s, Commit(w, retryAt)), Review(w, retryAt)), Acknowledge(w));
            var latest := s.pipelines[s.outbox[e].intent.pipeline];
            var same := latest.status == Waiting && latest.task == s.workers[w].pc.task;
            && t.outbox == s.outbox[e := s.outbox[e].(state := if same then Published else Pending(retryAt))]
            && t.pipelines == s.pipelines && t.provider == s.provider && t.provenance == s.provenance
            && t.commits == s.commits && w in t.workers && t.workers[w].pc == Idle
  {
    var conflicted := Next(s, Commit(w, retryAt));
    assert conflicted == WithPc(s, w, Conflicted(e, s.workers[w].pc.task));
    SettledReview(conflicted, w, e, retryAt);
  }

  lemma SettledReview(s: System, w: nat, e: nat, retryAt: int)
    requires w in s.workers && s.workers[w].pc.Conflicted? && s.workers[w].pc.event == e && Claims(s, w, e)
    requires s.outbox[e].intent.pipeline in s.pipelines
    ensures var t := Next(Next(s, Review(w, retryAt)), Acknowledge(w));
            var latest := s.pipelines[s.outbox[e].intent.pipeline];
            var same := latest.status == Waiting && latest.task == s.workers[w].pc.task;
            && t.outbox == s.outbox[e := s.outbox[e].(state := if same then Published else Pending(retryAt))]
            && t == s.(outbox := t.outbox, workers := t.workers) && w in t.workers && t.workers[w].pc == Idle
  {
    var latest := s.pipelines[s.outbox[e].intent.pipeline];
    var reviewed := Next(s, Review(w, retryAt));
    if latest.status == Waiting && latest.task == s.workers[w].pc.task {
      assert reviewed == WithPc(s, w, Done(e));
    } else {
      assert reviewed == WithPc(s, w, Idle).(outbox := s.outbox[e := s.outbox[e].(state := Pending(retryAt))]);
    }
  }

  /** A recovered dispatch whose run is on record under its own key takes that run over: the provider is not asked and
      nothing more is recorded. */
  lemma TakesOver(s: System, w: nat, e: nat, record: Provenance)
    requires w in s.workers && e < |s.outbox| && s.workers[w].pc.Checked? && s.workers[w].pc.event == e
    requires record in s.provenance && record.task != "" && record.key == s.outbox[e].key
    requires record.workItem == s.outbox[e].intent.workItem && record.workItem != ""
    ensures Next(Next(s, Reuse(w, record)), SaveProvenance(w)) ==
            WithPc(s, w, Recorded(e, s.workers[w].pc.run, record.task))
  {
    var reused := Next(s, Reuse(w, record));
    assert reused == WithPc(s, w, Executed(e, s.workers[w].pc.run, record.task, true));
  }

  /** An acknowledgement by a worker whose claim is gone is refused and ends the worker; unless someone else has
      acknowledged the event already, that event is left as it is for its new holder. */
  lemma LateAcknowledgement(s: System, w: nat, e: nat)
    requires w in s.workers && (s.workers[w].pc == Committed(e) || s.workers[w].pc == Done(e))
    requires e < |s.outbox| && !Claims(s, w, e)
    ensures var t := Next(s, Acknowledge(w));
            && t.outbox == s.outbox && t.pipelines == s.pipelines && t.commits == s.commits
            && (w in t.workers <==> s.outbox[e].state == Published)
  {
  }

  // ---- Recovery ---------------------------------------------------------------------------------------------------

  /** After the claim on an event has run out, whatever became of its worker, one pass of recovery gives the event to a
      new worker, unless that already has as many earlier ones as it asked for. The worker then holds its batch, so
      that `BatchCompletes` applies. */
  lemma RecoveryPicksUp(s: System, e: nat, w: nat, owner: string, limit: int, ttl: int, now: int)
    requires Inv(s) && e < |s.outbox| && w !in s.workers && owner != "" && ttl > 0
    requires s.outbox[e].state.Processing? ==> s.outbox[e].state.until <= now
    requires s.outbox[e].state.Pending? ==> s.outbox[e].state.nextAttempt <= now
    requires s.outbox[e].state != Published
    ensures var t := Next(Next(s, Recover(now)), ClaimDue(w, owner, limit, ttl, now));
            && HoldsBatch(t, w) && t.pipelines == s.pipelines && t.provider == s.provider
            && (e in t.workers[w].todo
                || (|t.workers[w].todo| == (if 1 <= limit <= 100 then limit else 10)
                    && forall k | 0 <= k < |t.workers[w].todo| :: t.workers[w].todo[k] < e))
  {
    hide Inv, DueFrom;
    var recovered := Recovered(s.outbox, now);
    var (after, r) := Claim(recovered, owner, limit, ttl, now);
    ClaimGives(recovered, owner, limit, ttl, now, e);
    forall k | 0 <= k < |r.value| ensures r.value[k] < |after| && after[r.value[k]].state == Processing(owner, now + ttl) {
      assert r.value[k] < |recovered|;
      ClaimGives(recovered, owner, limit, ttl, now, r.value[k]);
    }
  }
}
