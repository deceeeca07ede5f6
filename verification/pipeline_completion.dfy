/** What a completed run has been through, and which workflows can complete at all. */
module PipelineCompletion {
  import opened Options
  import opened Text
  import opened PipelineStatus
  import opened PipelineEngine
  import opened PipelineEngineProofs
  import opened PipelineDecisions

  // ---- Gates ---------------------------------------------------------------------------------------------

  /** The entry records that a stage was passed and left. */
  predicate PassedAt(t: Transition, stage: int) {
    t.from == stage && t.outcome == "pass" && t.to != stage
  }

  /** The stage was passed, and nothing was developed after that. */
  ghost predicate PassedSince(h: seq<Transition>, stage: int) {
    exists i :: 0 <= i < |h| && PassedAt(h[i], stage) && forall j | i < j < |h| :: h[j].from != DEVELOPMENT
  }

  lemma PassedNow(h: seq<Transition>, t: Transition, stage: int)
    requires PassedAt(t, stage)
    ensures PassedSince(h + [t], stage)
  {
    assert PassedAt((h + [t])[|h|], stage);
  }

  lemma PassedStays(h: seq<Transition>, t: Transition, stage: int)
    requires PassedSince(h, stage) && t.from != DEVELOPMENT
    ensures PassedSince(h + [t], stage)
  {
    var i :| 0 <= i < |h| && PassedAt(h[i], stage) && forall j | i < j < |h| :: h[j].from != DEVELOPMENT;
    assert PassedAt((h + [t])[i], stage);
  }

  /** The selected stages a run has to have passed before it stands where it does. */
  predicate Needed(run: Run, stage: int) {
    && stage >= DEVELOPMENT && HasStage(run, stage)
    && if run.workflow != [] then stage < run.stage
       else
         || (stage == DEVELOPMENT && run.stage in {UNIT_TEST, INTEGRATION, REVALIDATION, REPORT})
         || (stage == UNIT_TEST && run.stage in {INTEGRATION, REVALIDATION, REPORT})
         || (stage == INTEGRATION && run.stage in {REVALIDATION, REPORT})
         || (stage == REVALIDATION && run.stage == REPORT && run.retryCount > 0)
  }

  ghost predicate Gated(run: Run) {
    forall stage | Needed(run, stage) :: PassedSince(run.history, stage)
  }

  /** The repairs on record: failed developments and granted arbitrations. */
  function Repairs(h: seq<Transition>): nat {
    if h == [] then 0
    else
      var t := h[|h| - 1];
      Repairs(h[..|h| - 1]) +
      if (t.from == DEVELOPMENT && t.outcome == "fail") || (t.from == ARBITRATION && t.outcome == "pass") then 1 else 0
  }

  ghost predicate Sound(run: Run) {
    && Live(run) && (run.workflow != [] ==> !HasStage(run, ARBITRATION)) && Gated(run)
    && (run.workflow == [] ==> run.retryCount == Repairs(run.history))
    && (run.status == Completed ==>
          run.stage == REPORT && run.history != []
          && run.history[|run.history| - 1].from == REPORT && run.history[|run.history| - 1].outcome == "pass")
  }

  lemma StandardHas(run: Run)
    requires run.workflow == []
    ensures forall s | DESIGN <= s <= REPORT :: HasStage(run, s)
  {
    hide StepFor;
    forall s | DESIGN <= s <= REPORT ensures HasStage(run, s) {
      DefaultHasStage(run, s);
    }
  }

  /** Every stage that is newly needed was passed before, or by this very result. */
  lemma NeededBefore(run: Run, r: StepResult, stage: int)
    requires Live(run) && Apply(run, r).Ok? && Needed(Apply(run, r).value, stage)
    requires run.workflow != [] ==> !HasStage(run, ARBITRATION)
    ensures var next := Apply(run, r).value;
            (stage == run.stage && r.outcome == "pass" && next.stage != run.stage)
            || (Needed(run, stage) && run.stage != DEVELOPMENT)
  {
    hide Apply, StepFor, RetryLimit, ValidRun, Bounded;
    var next := Apply(run, r).value;
    ApplyDecides(run, r);
    AfterStage(run, run.stage);
    ApplyShape(run, r);
    SameSteps(run, next);
    LiveBounds(run);
    assert HasStage(next, stage) == HasStage(run, stage);
    if run.workflow == [] {
      StandardNext(run, run.stage);
    }
  }

  /** In the standard workflow the first stage after another is the next one. */
  lemma StandardNext(run: Run, stage: int)
    requires run.workflow == [] && DESIGN <= stage
    ensures forall later | FirstAfter(run, stage, later) :: later == stage + 1
    ensures HasStage(run, ARBITRATION) && HasStage(run, DEVELOPMENT)
  {
    hide StepFor;
    StandardHas(run);
    assert stage < REPORT ==> HasStage(run, stage + 1);
  }

  lemma LiveBounds(run: Run)
    requires Live(run)
    ensures DESIGN <= run.stage <= REPORT && HasStage(run, run.stage)
  {
    hide HasStage;
  }

  lemma ApplySound(run: Run, r: StepResult)
    requires Sound(run) && Apply(run, r).Ok?
    ensures Sound(Apply(run, r).value)
  {
    hide Apply, StepFor, Live, Needed, PassedSince, AgentFor, RetryLimit, FirstAfter;
    var next := Apply(run, r).value;
    AdvanceLive(run, Deliver(r));
    ApplyShape(run, r);
    ApplyDecides(run, r);
    SameSteps(run, next);
    OutcomeKnown(run, r);
    forall stage | Needed(next, stage) ensures PassedSince(next.history, stage) {
      NeededBefore(run, r, stage);
      var t := RecordOf(run, r, next.stage);
      if stage == run.stage && r.outcome == "pass" && next.stage != run.stage {
        PassedNow(run.history, t, stage);
      } else {
        PassedStays(run.history, t, stage);
      }
    }
    assert next.history[..|run.history|] == run.history;
  }

  lemma OutcomeKnown(run: Run, r: StepResult)
    requires Apply(run, r).Ok?
    ensures r.outcome == "pass" || r.outcome == "fail"
  {
    hide NextStage, Merge, AgentFor;
  }

  lemma DecisionSound(run: Run, e: Event)
    requires Sound(run) && !e.Deliver?
    ensures Sound(Advance(run, e))
  {
    hide StepFor, Live, PassedSince, AgentFor, NextSelectedStage;
    AdvanceLive(run, e);
    SameSteps(run, Advance(run, e));
    if run.status == WaitingApproval {
      WaitsAtDesign(run);
      if e.Approve? {
        DecisionTaken(run, "");
        forall stage ensures !Needed(Advance(run, e), stage) {
          AfterDesign(run, Advance(run, e), stage);
        }
      }
    }
  }

  lemma WaitsAtDesign(run: Run)
    requires Live(run) && run.status == WaitingApproval
    ensures run.stage == DESIGN
  {
    hide HasStage, Bounded, ValidRun;
  }

  /** The first stage after design needs nothing. */
  lemma AfterDesign(run: Run, next: Run, stage: int)
    requires next.workflow == run.workflow && next.roles == run.roles && FirstAfter(run, DESIGN, next.stage)
    ensures !Needed(next, stage)
  {
    hide StepFor;
    SameSteps(run, next);
    assert HasStage(next, stage) == HasStage(run, stage);
    if run.workflow == [] {
      StandardHas(run);
      assert HasStage(run, DEVELOPMENT);
    }
  }

  lemma {:induction false} AlwaysSound(run: Run, es: seq<Event>)
    requires Sound(run)
    ensures Sound(AdvanceAll(run, es))
  {
    hide Sound, Apply, AgentFor, NextSelectedStage;
    if es != [] {
      AlwaysSound(run, es[..|es| - 1]);
      var before, e := AdvanceAll(run, es[..|es| - 1]), es[|es| - 1];
      if e.Deliver? {
        if Apply(before, e.result).Ok? {
          ApplySound(before, e.result);
        }
      } else {
        DecisionSound(before, e);
      }
    }
  }

  /** A run as it starts: on its first selected stage, with an empty record. */
  ghost predicate Starts(run: Run) {
    && Live(run) && run.status == Running && run.history == [] && run.retryCount == 0 && run.unitRetryCount == 0
    && run.parentSession == "" && forall s | HasStage(run, s) && s >= DESIGN :: run.stage <= s
  }

  lemma StartsSound(run: Run)
    requires Starts(run) && (run.workflow != [] ==> !HasStage(run, ARBITRATION))
    ensures Sound(run)
  {
    hide StepFor, Live;
    LiveBounds(run);
    if run.workflow == [] {
      StandardHas(run);
    }
  }

  /** Whatever arrives, a run of the standard workflow completes only with a passed report, after the last development
      result passed and unit tests and integration passed after it; and after any repair, revalidation as well. */
  lemma ShippedIsTested(run: Run, es: seq<Event>)
    requires Starts(run) && run.workflow == [] && AdvanceAll(run, es).status == Completed
    ensures var h := AdvanceAll(run, es).history;
            && h != [] && h[|h| - 1].from == REPORT && h[|h| - 1].outcome == "pass"
            && PassedSince(h, DEVELOPMENT) && PassedSince(h, UNIT_TEST) && PassedSince(h, INTEGRATION)
            && (Repairs(h) > 0 ==> PassedSince(h, REVALIDATION))
  {
    hide AdvanceAll, StepFor, Live, PassedSince, Repairs;
    StartsSound(run);
    AlwaysSound(run, es);
    var after := AdvanceAll(run, es);
    AllSame(run, es);
    StandardHas(after);
    assert Needed(after, DEVELOPMENT) && Needed(after, UNIT_TEST) && Needed(after, INTEGRATION);
    assert Repairs(after.history) > 0 ==> Needed(after, REVALIDATION);
  }

  lemma {:induction false} AllSame(run: Run, es: seq<Event>)
    ensures var after := AdvanceAll(run, es);
            after.workflow == run.workflow && after.roles == run.roles && after.maxRetries == run.maxRetries
  {
    hide Apply, AgentFor, NextSelectedStage;
    if es != [] {
      AllSame(run, es[..|es| - 1]);
      var before, e := AdvanceAll(run, es[..|es| - 1]), es[|es| - 1];
      if e.Deliver? && Apply(before, e.result).Ok? {
        ApplyShape(before, e.result);
      }
    }
  }

  /** A custom workflow without arbitration completes only after every selected stage from development on was passed
      since the last development. */
  lemma CustomShippedIsTested(run: Run, es: seq<Event>, stage: int)
    requires Starts(run) && run.workflow != [] && !HasStage(run, ARBITRATION) && AdvanceAll(run, es).status == Completed
    requires DEVELOPMENT <= stage < REPORT && HasStage(run, stage)
    ensures PassedSince(AdvanceAll(run, es).history, stage)
  {
    hide AdvanceAll, StepFor, Live, PassedSince, Repairs;
    StartsSound(run);
    AlwaysSound(run, es);
    AllSame(run, es);
    SameSteps(run, AdvanceAll(run, es));
    assert Needed(AdvanceAll(run, es), stage);
  }

  // ---- Which workflows can complete ------------------------------------------------------------------------------

  /** A custom workflow that selects development and arbitration always comes back from arbitration. */
  predicate Circles(run: Run) {
    run.workflow != [] && HasStage(run, DEVELOPMENT) && HasStage(run, ARBITRATION)
  }

  ghost predicate Circling(run: Run) {
    Live(run) && Circles(run) && run.stage <= ARBITRATION && run.status != Completed
  }

  lemma CirclingStays(run: Run, e: Event)
    requires Circling(run)
    ensures Circling(Advance(run, e))
  {
    hide Apply, StepFor, AgentFor, NextSelectedStage, RetryLimit, ValidRun, Bounded;
    AdvanceLive(run, e);
    match e
    case Deliver(r) =>
      if Apply(run, r).Ok? {
        ApplyShape(run, r);
        ApplyDecides(run, r);
        SameSteps(run, Apply(run, r).value);
        NotPastArbitration(run, run.stage);
      }
    case Approve =>
      SameSteps(run, Advance(run, e));
      DecisionTaken(run, "");
      NotPastArbitration(run, DESIGN);
    case Reject(reason) =>
      SameSteps(run, Advance(run, e));
      DecisionTaken(run, reason);
  }

  lemma NotPastArbitration(run: Run, stage: int)
    requires HasStage(run, ARBITRATION)
    ensures forall later | FirstAfter(run, stage, later) && stage < ARBITRATION :: later <= ARBITRATION
  {
    hide StepFor;
  }

  lemma {:induction false} NeverCompletes(run: Run, es: seq<Event>)
    requires Circling(run)
    ensures Circling(AdvanceAll(run, es))
  {
    hide Advance, Circling;
    if es != [] {
      NeverCompletes(run, es[..|es| - 1]);
      CirclingStays(AdvanceAll(run, es[..|es| - 1]), es[|es| - 1]);
    }
  }

  // ---- A run that passes everything ----------------------------------------------------------------------------------

  function Passing(run: Run): StepResult {
    StepResult(run.stage, AgentFor(run, run.stage), "pass", "", "design", "code", run.coverageThreshold, [], [], "", "",
               "report", "", "", if run.parentSession == "" then "session" else run.parentSession,
               if run.parentSession == "" then "workdir" else run.workDir)
  }

  function PassOn(run: Run): Event {
    if run.status == WaitingApproval then Approve else Deliver(Passing(run))
  }

  /** Every selected stage has an agent. */
  ghost predicate Staffed(run: Run) {
    forall stage | HasStage(run, stage) && stage >= DESIGN :: !Blank(AgentFor(run, stage))
  }

  /** Nothing has failed so far. Arbitration counts a repair, so its limit must leave room for the one pass. */
  ghost predicate Flawless(run: Run) {
    && Live(run) && Staffed(run) && !Circles(run) && (run.status == Running || run.status == WaitingApproval)
    && (run.parentSession != "" ==> !Blank(run.parentSession) && !Blank(run.workDir))
    && (run.workflow == [] ==> run.stage != ARBITRATION)
    && run.retryCount == (if HasStage(run, ARBITRATION) && run.stage > ARBITRATION && run.workflow != [] then 1 else 0)
  }

  lemma WordsNotBlank()
    ensures !Blank("design") && !Blank("code") && !Blank("report") && !Blank("session") && !Blank("workdir")
  {
    assert "design"[0] == 'd' && "code"[0] == 'c' && "report"[0] == 'r' && "session"[0] == 's' && "workdir"[0] == 'w';
  }

  lemma PassingAccepted(run: Run)
    requires Flawless(run) && run.status == Running
    ensures Apply(run, Passing(run)).Ok? && Succeeds(run, Passing(run))
  {
    hide Apply, Blank, AgentFor, StepFor;
    WordsNotBlank();
    LiveBounds(run);
    AcceptedIff(run, Passing(run));
  }

  lemma LimitPositive(run: Run, stage: int)
    requires ValidRun(run)
    ensures RetryLimit(run, stage) >= 1
  {
    hide StepFor;
  }

  lemma ReportSelected(run: Run)
    requires Live(run)
    ensures HasStage(run, REPORT)
  {
    if run.workflow == [] {
      DefaultHasStage(run, REPORT);
    } else {
      StepsFacts(run);
      var k :| 0 <= k < |run.workflow| && run.workflow[k].stage == REPORT;
      assert run.workflow[k] in Steps(run);
      var i :| 0 <= i < |Steps(run)| && Steps(run)[i] == run.workflow[k];
      assert FindStep(Steps(run), REPORT).Some?;
    }
  }

  /** Before the report there is a next stage. */
  lemma LaterStage(run: Run)
    requires Live(run) && run.stage < REPORT
    ensures exists later :: FirstAfter(run, run.stage, later)
  {
    hide StepFor, NextSelectedStage;
    ReportSelected(run);
    LiveBounds(run);
    SuccessorIsNext(run, run.stage);
    assert FirstAfter(run, run.stage, NextSelectedStage(run, run.stage));
  }

  lemma PassOnFlawless(run: Run)
    requires Flawless(run)
    ensures var next := Advance(run, PassOn(run));
            || (next.status == Completed && run.stage == REPORT)
            || (Flawless(next)
                && (next.stage > run.stage || (next.stage == run.stage && next.status == WaitingApproval != run.status)))
  {
    hide Apply, StepFor, AgentFor, NextSelectedStage, RetryLimit, Blank, ValidRun, Bounded;
    var e := PassOn(run);
    var next := Advance(run, e);
    AdvanceLive(run, e);
    LiveBounds(run);
    LiveBounds(next);
    WordsNotBlank();
    if run.status == WaitingApproval {
      WaitsAtDesign(run);
      SameSteps(run, next);
      DecisionTaken(run, "");
      AfterStage(run, DESIGN);
      if run.workflow == [] {
        StandardNext(run, DESIGN);
      }
    } else {
      PassingAccepted(run);
      ApplyShape(run, Passing(run));
      ApplyDecides(run, Passing(run));
      PinnedSession(run);
      SameSteps(run, next);
      LiveLimit(run, ARBITRATION);
      if run.workflow == [] {
        StandardNext(run, run.stage);
      }
      if run.stage < REPORT {
        LaterStage(run);
        AfterStage(run, run.stage);
      }
    }
  }

  lemma AfterStage(run: Run, stage: int)
    ensures forall later | FirstAfter(run, stage, later) ::
              later > stage && HasStage(run, later) && (HasStage(run, ARBITRATION) && stage < ARBITRATION ==> later <= ARBITRATION)
  {
    hide StepFor;
  }

  lemma LiveLimit(run: Run, stage: int)
    requires Live(run)
    ensures RetryLimit(run, stage) >= 1
  {
    hide StepFor, HasStage, Bounded, RetryLimit;
    LimitPositive(run, stage);
  }

  lemma PinnedSession(run: Run)
    requires Live(run) && Apply(run, Passing(run)).Ok?
    ensures var next := Apply(run, Passing(run)).value;
            if run.stage == DEVELOPMENT then next.parentSession == Passing(run).session && next.workDir == Passing(run).workDir
            else next.parentSession == run.parentSession && next.workDir == run.workDir
  {
    hide Apply, AgentFor, Blank, HasStage, Bounded;
    ApplyRecords(run, Passing(run), "");
  }

  lemma {:induction false} AdvanceAllPrepend(run: Run, e: Event, es: seq<Event>)
    ensures AdvanceAll(run, [e] + es) == AdvanceAll(Advance(run, e), es)
    decreases |es|
  {
    hide Advance;
    if es == [] {
      assert ([e] + es)[..0] == [];
    } else {
      assert ([e] + es)[..|es|] == [e] + es[..|es| - 1];
      AdvanceAllPrepend(run, e, es[..|es| - 1]);
    }
  }

  lemma {:induction false} PassesThrough(run: Run) returns (es: seq<Event>)
    requires Flawless(run)
    ensures AdvanceAll(run, es).status == Completed
    decreases 8 - run.stage, if run.status == WaitingApproval then 0 else 1
  {
    hide Advance, PassOn, Live, Staffed, Circles, HasStage;
    LiveBounds(run);
    PassOnFlawless(run);
    var next := Advance(run, PassOn(run));
    AdvanceAllPrepend(run, PassOn(run), []);
    if next.status == Completed {
      es := [PassOn(run)];
    } else {
      LiveBounds(next);
      var rest := PassesThrough(next);
      AdvanceAllPrepend(run, PassOn(run), rest);
      es := [PassOn(run)] + rest;
    }
  }

  /** A staffed run can complete exactly unless its custom workflow selects both development and arbitration: a passed
      integration then leads to arbitration too, and arbitration only back to development. */
  lemma CompletesIff(run: Run)
    requires Starts(run) && Staffed(run)
    ensures (exists es: seq<Event> :: AdvanceAll(run, es).status == Completed) <==>
            !(run.workflow != [] && HasStage(run, DEVELOPMENT) && HasStage(run, ARBITRATION))
  {
    hide AdvanceAll, StepFor, Live, Staffed;
    if Circles(run) {
      forall es: seq<Event> ensures AdvanceAll(run, es).status != Completed {
        NeverCompletes(run, es);
      }
    } else {
      StartsFlawless(run);
      var es := PassesThrough(run);
    }
  }

  lemma StartsFlawless(run: Run)
    requires Starts(run) && Staffed(run) && !Circles(run)
    ensures Flawless(run)
  {
    hide StepFor, Live, Staffed;
    LiveBounds(run);
    if run.workflow == [] {
      StandardNext(run, DESIGN);
    }
  }
}
