/** Durable provider dispatch: API workers and recovery workers run the same intents concurrently and
    may stop between any two steps. */
module Dispatch {
  import opened Options
  import opened Outbox
  import opened PipelineStatus

  /** `rest` stands for the fields a dispatch copies unchanged. */
  datatype Run = Run(version: int, stage: int, status: Status, task: string, workItem: string, rest: string)

  const DEVELOPMENT := 2
  const API_OWNER := "adro-api-dispatch"

  datatype ProviderRun = ProviderRun(key: string, task: string)
  datatype Provenance = Provenance(workItem: string, key: string, task: string)

  /** Where a worker stands. API states carry the pipeline copy the request works on; recovery states
      carry the copy read by the publisher. */
  datatype Pc =
    | Idle
    | Loaded(pipeline: string, run: Run)
    | Claimed(event: nat, run: Run)
    | Bound(event: nat, run: Run, task: string)
    | Saved(event: nat, run: Run, task: string)
    | Committed(event: nat)
    | Taken(event: nat)
    | Checked(event: nat, run: Run)
    | Executed(event: nat, run: Run, task: string, reused: bool)
    | Recorded(event: nat, run: Run, task: string)
    | Conflicted(event: nat, task: string)
    | Done(event: nat)

  /** `todo` holds the events a recovery worker has claimed and not yet taken up. */
  datatype Worker = Worker(owner: string, todo: seq<nat>, pc: Pc)

  datatype Commitment = Commitment(task: string, version: int)

  /** `provider` lists every run the provider ever started, `provenance` every record ever saved,
      `commits` the pipeline commits made for each event. */
  datatype System = System(
    pipelines: map<string, Run>, outbox: seq<Event>, provider: seq<ProviderRun>, provenance: set<Provenance>,
    workers: map<nat, Worker>, commits: map<nat, Commitment>)

  const INITIAL := System(map[], [], [], {}, map[], map[])

  datatype Step =
    | Create(pipeline: string, run: Run)
    | OtherWrite(pipeline: string, run: Run)
    | OtherProvenance(record: Provenance)
    | Load(w: nat, pipeline: string)
    | Enqueue(w: nat, key: string, intent: Intent, ttl: int, now: int)
    | Execute(w: nat, newTask: string, answered: bool, retryAt: int)
    | Reuse(w: nat, record: Provenance)
    | SaveProvenance(w: nat)
    | Commit(w: nat, retryAt: int)
    | Review(w: nat, retryAt: int)
    | Acknowledge(w: nat)
    | Fail(w: nat, retryAt: int)
    | Crash(w: nat)
    | Recover(now: int)
    | ClaimDue(w: nat, owner: string, limit: int, ttl: int, now: int)
    | Take(w: nat)
    | Check(w: nat, retryAt: int)

  // ---- Store and provider contracts -----------------------------------------

  /** Compare-and-swap by version; an expected version of zero is not compared. */
  function UpdatePipeline(pipelines: map<string, Run>, id: string, run: Run, expected: int): Option<map<string, Run>> {
    if id !in pipelines || (expected > 0 && pipelines[id].version != expected) then None
    else Some(pipelines[id := run])
  }

  predicate HasRun(provider: seq<ProviderRun>, key: string, task: string) {
    ProviderRun(key, task) in provider
  }

  function FindRun(provider: seq<ProviderRun>, key: string): (r: Option<string>)
    ensures r.Some? ==> HasRun(provider, key, r.value)
    ensures r.None? ==> forall e | e in provider :: e.key != key
  {
    if provider == [] then None
    else if provider[0].key == key then Some(provider[0].task)
    else FindRun(provider[1..], key)
  }

  /** Starting a run is idempotent on its key. `newTask` is the identifier a new run would get. */
  function StartRun(provider: seq<ProviderRun>, key: string, newTask: string): (seq<ProviderRun>, string) {
    match FindRun(provider, key)
    case Some(task) => (provider, task)
    case None => (provider + [ProviderRun(key, newTask)], newTask)
  }

  /** What a dispatch writes: the next version of the run, waiting on the task. */
  function Dispatched(run: Run, intent: Intent, task: string): Run {
    run.(version := run.version + 1, status := Waiting, task := task, workItem := intent.workItem)
  }

  // ---- Steps ----------------------------------------------------------------

  function WithPc(s: System, w: nat, pc: Pc): System
    requires w in s.workers
  {
    s.(workers := s.workers[w := s.workers[w].(pc := pc)])
  }

  /** The worker gives its event back for a later attempt and goes on. */
  function GiveBack(s: System, w: nat, event: nat, retryAt: int): System
    requires w in s.workers
  {
    WithPc(s, w, Idle).(outbox := Nack(s.outbox, event, s.workers[w].owner, retryAt).0)
  }

  predicate SavesProvenance(s: System, intent: Intent) {
    && intent.workItem != ""
    && if intent.continuation then exists p :: p in s.provenance && p.workItem == intent.workItem
       else intent.stage == DEVELOPMENT
  }

  /** The publisher's decision after reading the pipeline; Retry is an error, after which the event is given back. */
  datatype Verdict = Settle | Proceed | Retry

  function Judge(run: Run, intent: Intent): Verdict {
    if run.version > intent.expectedVersion && run.status == Waiting && run.task != "" then Settle
    else if run.status != Running || run.version != intent.expectedVersion || run.stage != intent.stage then
      if run.status == Suspended || run.status == Completed || run.status == Failed then Settle else Retry
    else Proceed
  }

  predicate InRange(s: System, event: nat) {
    event < |s.outbox|
  }

  ghost function NextStored(s: System, step: Step): System
    requires step.Create? || step.OtherWrite? || step.OtherProvenance? || step.Recover?
  {
    match step
    case Create(id, run) =>
      if id !in s.pipelines && run.version >= 1 then s.(pipelines := s.pipelines[id := run]) else s
    case OtherWrite(id, run) =>
      if id in s.pipelines && run.version > s.pipelines[id].version then s.(pipelines := s.pipelines[id := run]) else s
    case OtherProvenance(record) =>
      if HasRun(s.provider, record.key, record.task) then s.(provenance := s.provenance + {record}) else s
    case Recover(now) => s.(outbox := Recovered(s.outbox, now))
  }

  ghost function NextClaim(s: System, step: Step): System
    requires step.Load? || step.Enqueue? || step.ClaimDue? || step.Take? || step.Crash?
  {
    match step
    case Load(w, id) =>
      if w !in s.workers && id in s.pipelines && s.pipelines[id].status == Running
      then s.(workers := s.workers[w := Worker(API_OWNER, [], Loaded(id, s.pipelines[id]))]) else s
    case Enqueue(w, key, intent, ttl, now) =>
      if w in s.workers && s.workers[w].pc.Loaded? && intent.pipeline == s.workers[w].pc.pipeline
         && intent.expectedVersion == s.workers[w].pc.run.version && intent.stage == s.workers[w].pc.run.stage
      then
        var run := s.workers[w].pc.run;
        match EnqueueAndClaim(s.outbox, key, intent, API_OWNER, ttl, now)
        case (outbox, Ok((event, true))) => WithPc(s, w, Claimed(event, run)).(outbox := outbox)
        case (outbox, _) => s.(workers := s.workers - {w}, outbox := outbox)
      else s
    case ClaimDue(w, owner, limit, ttl, now) =>
      if w !in s.workers then
        match Claim(s.outbox, owner, limit, ttl, now)
        case (outbox, Ok(todo)) => s.(outbox := outbox, workers := s.workers[w := Worker(owner, todo, Idle)])
        case (outbox, Err(_)) => s
      else s
    case Take(w) =>
      if w in s.workers && s.workers[w].pc == Idle then
        if s.workers[w].todo == [] then s.(workers := s.workers - {w})
        else s.(workers := s.workers[w :=
                  Worker(s.workers[w].owner, s.workers[w].todo[1..], Taken(s.workers[w].todo[0]))])
      else s
    case Crash(w) => s.(workers := s.workers - {w})
  }

  ghost function NextEffect(s: System, step: Step): System
    requires step.Check? || step.Execute? || step.Reuse? || step.SaveProvenance?
  {
    if step.w !in s.workers then s
    else
      var w, pc := step.w, s.workers[step.w].pc;
      match step
      case Check(_, retryAt) =>
        if pc.Taken? && InRange(s, pc.event) && s.outbox[pc.event].intent.pipeline in s.pipelines then
          var intent := s.outbox[pc.event].intent;
          var run := s.pipelines[intent.pipeline];
          match Judge(run, intent)
          case Settle => WithPc(s, w, Done(pc.event))
          case Proceed => WithPc(s, w, Checked(pc.event, run))
          case Retry => GiveBack(s, w, pc.event, retryAt)
        else s
      case Execute(_, newTask, answered, retryAt) =>
        if (pc.Claimed? || pc.Checked?) && InRange(s, pc.event) && newTask != "" then
          var (provider, task) := StartRun(s.provider, s.outbox[pc.event].key, newTask);
          var started := s.(provider := provider);
          if !answered then GiveBack(started, w, pc.event, retryAt)
          else if pc.Claimed? then WithPc(started, w, Bound(pc.event, pc.run, task))
          else WithPc(started, w, Executed(pc.event, pc.run, task, false))
        else s
      case Reuse(_, record) =>
        if pc.Checked? && InRange(s, pc.event) && record in s.provenance && record.task != ""
           && record.workItem == s.outbox[pc.event].intent.workItem && record.workItem != ""
           && record.key == s.outbox[pc.event].key
        then WithPc(s, w, Executed(pc.event, pc.run, record.task, true)) else s
      case SaveProvenance(_) =>
        if pc.Bound? && InRange(s, pc.event) then
          var e := s.outbox[pc.event];
          var saved := if SavesProvenance(s, e.intent) then {Provenance(e.intent.workItem, e.key, pc.task)} else {};
          WithPc(s, w, Saved(pc.event, pc.run, pc.task)).(provenance := s.provenance + saved)
        else if pc.Executed? && InRange(s, pc.event) then
          var e := s.outbox[pc.event];
          var saved := if !pc.reused && e.intent.stage == DEVELOPMENT && e.intent.workItem != ""
                       then {Provenance(e.intent.workItem, e.key, pc.task)} else {};
          WithPc(s, w, Recorded(pc.event, pc.run, pc.task)).(provenance := s.provenance + saved)
        else s
  }

  ghost function NextSettle(s: System, step: Step): System
    requires step.Commit? || step.Review? || step.Acknowledge? || step.Fail?
  {
    if step.w !in s.workers then s
    else
      var w, pc := step.w, s.workers[step.w].pc;
      match step
      case Commit(_, retryAt) =>
        if (pc.Saved? || pc.Recorded?) && InRange(s, pc.event) then
          var intent := s.outbox[pc.event].intent;
          match UpdatePipeline(s.pipelines, intent.pipeline, Dispatched(pc.run, intent, pc.task), pc.run.version)
          case Some(pipelines) =>
            WithPc(s, w, if pc.Saved? then Committed(pc.event) else Done(pc.event)).(
              pipelines := pipelines, commits := s.commits[pc.event := Commitment(pc.task, pc.run.version)])
          case None =>
            if pc.Saved? then GiveBack(s, w, pc.event, retryAt) else WithPc(s, w, Conflicted(pc.event, pc.task))
        else s
      case Review(_, retryAt) =>
        if pc.Conflicted? && InRange(s, pc.event) && s.outbox[pc.event].intent.pipeline in s.pipelines then
          var latest := s.pipelines[s.outbox[pc.event].intent.pipeline];
          if latest.status == Waiting && latest.task == pc.task then WithPc(s, w, Done(pc.event))
          else GiveBack(s, w, pc.event, retryAt)
        else s
      case Acknowledge(_) =>
        if pc.Committed? || pc.Done? then
          match Ack(s.outbox, pc.event, s.workers[w].owner)
          case (outbox, None) => WithPc(s, w, Idle).(outbox := outbox)
          case (outbox, Some(_)) => s.(workers := s.workers - {w})
        else s
      case Fail(_, retryAt) =>
        if pc.Idle? || pc.Loaded? || pc.Committed? || pc.Done? then s else GiveBack(s, w, pc.event, retryAt)
  }

  /** One step of one worker or of the surroundings; a step that is not enabled changes nothing. */
  ghost function Next(s: System, step: Step): System {
    if step.Create? || step.OtherWrite? || step.OtherProvenance? || step.Recover? then NextStored(s, step)
    else if step.Load? || step.Enqueue? || step.ClaimDue? || step.Take? || step.Crash? then NextClaim(s, step)
    else if step.Check? || step.Execute? || step.Reuse? || step.SaveProvenance? then NextEffect(s, step)
    else NextSettle(s, step)
  }

  ghost function RunSteps(s: System, steps: seq<Step>): System {
    if steps == [] then s else Next(RunSteps(s, steps[..|steps| - 1]), steps[|steps| - 1])
  }
}
