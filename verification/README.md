# Verified model of ADRO's durable core

ADRO runs delivery pipelines through external providers and must not lose, repeat or misreport work when
processes crash, callbacks repeat or files are tampered with. This project models the parts of ADRO that
carry those promises and proves the promises for all inputs, all runs and all reachable states.
`dafny verify dfyconfig.toml` checks everything.

| part | files | main results |
|---|---|---|
| Canonical JSON | `decimal`, `number_syntax`, `canonical_number`, `json_string`, `key_order`, `canonical_json`, `canonical_json_proofs`, `canonical_text`, `json_writer` | canonical text is uniquely decodable, and is the one text of a form stated without the writer; numbers keep their exact value |
| Event envelope | `json_object`, `envelope` | a digest identifies an envelope up to canonical form; a head digest fixes the history |
| Event store | `event_store`, `event_store_proofs`, `event_store_runs`, `event_store_success`, `append_digest`, `event_store_reads`, `event_store_leases`, `event_store_tampering`, `sqlite_store` | integrity, idempotency and fencing over every run; what was appended is what is read; exactly which reads are tamper-proof |
| Durable dispatch | `outbox`, `outbox_leases`, `outbox_store`, `dispatch`, `dispatch_proofs`, `dispatch_theorems`, `dispatch_requests` | every interleaving refines one atomic dispatch; no dispatch is lost or doubled; a claimed batch is settled |
| Delivery pipeline | `pipeline_engine`, `pipeline_engine_proofs`, `pipeline_decisions`, `pipeline_completion`, `pipeline_advance`, `pipeline_delivery` | bounded runs with fresh turn keys; what is completed is tested; exactly which workflows can complete; a result is applied once |
| Compatibility graph | `legacy_graph`, `legacy_graph_proofs`, `legacy_graph_validation`, `legacy_graph_simulation`, `legacy_graph_walks`, `legacy_graph_limits`, `legacy_graph_exhaustion`, `legacy_graph_ends` | the plan follows the engine event by event; a history is one walk; exactly which limits use up an edge |
| Identity service | `auth_menus`, `auth_menu_names`, `auth`, `auth_proofs`, `auth_logins`, `auth_accounts`, `auth_service` | who can log in and how long a token stands; lockout bound, last administrator, reload, dead tokens |
| Artifact store | `artifact`, `artifact_proofs`, `artifact_store` | reads fail closed at every crash point; immutability; exactly when a key dies |
| Audit ledger | `audit`, `audit_ledger` | chain, memory equals disk, the last hash fixes the history; exactly which ledgers and edits verify |
| Texts and contracts | `text`, `options`, `agent_text`, `openapi`, `openapi_effects`, `openapi_script` | exactly which text is shown; the normaliser's fixpoint |

Pure code is modelled by functions. Code that updates state in place is modelled by classes and methods with
loops, each proved equal to a specification function; run-level theorems are about those functions. Concurrent
code is a transition system whose steps are the places where workers touch shared state.

## Assumptions

- SHA-256 and the other digests are functions without collisions where a result says so (`Sound`, `Injective`); formatted times differ when microseconds differ, and encoded bytes when bytes do. That request digests tell requests apart (`Faithful`) follows from this.
- Random identifiers and tokens are fresh; wherever the source draws one, the model takes it as a parameter.
- Clocks, persistence failures, provider answers and crash points are parameters and take every value.
- Every writer of a pipeline other than the dispatcher increases its version, and a provider run is started at most once per idempotency key.

## Where code and comments differ

- `GraphFromPipeline` says it infers no feedback edges (internal/compat/pipeline_stage.go:86-88) but creates an edge between every two nodes; the model follows the code.
- The bug link of a failed integration is saved expecting the version after the result's own increment (internal/api/pipeline.go:291), so it normally conflicts, and the final write then stores it; but where another writer has raised the version by exactly one in between, the link's write succeeds and that write is lost, as `PipelineDelivery.OverwritesIff` makes exact.
- A custom workflow that selects both development and arbitration passes from integration to arbitration and from there back to development (internal/pipeline/engine.go:248-269), so no sequence of results completes it; `PipelineCompletion.CompletesIff` is exact.
- The ledger's first event keeps a previous hash its caller passes (internal/audit/ledger.go:103-105), which `Verify` then rejects for ever; `Audit.RunVerifies` gives the exact condition on the calls. `Verify` compares numbers and links but recomputes no content hash (internal/audit/ledger.go:167-178), so edited bodies pass; `Audit.EditAcceptedIff` says which edits do.
- A page read compares the head digest only when its last event stands at the recorded sequence (adapters/eventstore/sqlite/read.go:19-106); a page that stops before it, or runs past it, can be forged, as `EventStoreTampering.TamperProofIff` makes exact.
- The comment that a failed node without a route is a fail-closed outcome (internal/orchestration/transition.go:1252-1255) does not hold of nodes with attempts of their own left: the engine has suspended the run and never starts them, as `LegacyGraphEnds.StrandedPlan` shows. And a run that a retry limit suspends after a passed result leaves its plan "succeeded" (`LegacyGraphEnds.PlanEndsIff`).
- Accounts are brought into normal form on loading by comparing joined menu names (internal/auth/service.go:339-343), which misses a list that holds one empty name; `AuthMenuNames.MigratedIff` is exact.
- Deleting an immutable artifact removes the object before its metadata and ignores a failure of the second removal (internal/artifact/store.go:271-290), which leaves a dead key; `ArtifactProofs.DeadKeyIff` is exact.

## Model

| member | source | states |
|---|---|---|
| `CanonicalNumber.CanonicalNumber` | core/encoding/canonical.go:138-175 | the method with its loop over digits and scale returns the canonical text, or nothing exactly where the exponent is rejected |
| `CanonicalNumber.AcceptedExactly` | core/encoding/canonical.go:138-175 | a JSON number is accepted if and only if its exponent lies within ±10000 |
| `CanonicalNumber.CanonicalKeepsValue` | core/encoding/canonical.go:138-175 | the canonical text of an accepted number is a JSON number with exactly the same decimal value |
| `CanonicalNumber.CanonicalIffSameValue` | core/encoding/canonical.go:138-175 | two accepted spellings have the same canonical text if and only if they have the same value |
| `CanonicalNumber.CanonicalIdempotent` | core/encoding/canonical.go:138-175 | a canonical text is accepted again and left unchanged |
| `CanonicalNumber.CanonicalLength` | core/encoding/canonical.go:138-175 | the result is at most 10001 characters longer than the input |
| `JsonString.QuoteRoundTrip` | core/encoding/canonical.go:87-136 | the string decoder recovers every quoted string and what follows it |
| `KeyOrder.SortIsSortedKeys` | core/encoding/canonical.go:113-118 | sorting any enumeration of the keys gives one and the same sequence: every key once, each before the next at the first code point where they differ |
| `KeyOrder.LessIffBelow` | core/encoding/canonical.go:113-118 | a key stands before another if and only if it is a proper prefix of it or has the smaller code point at the first difference |
| `JsonWriter.WriteValue` | core/encoding/canonical.go:87-136 | the recursive writer appends exactly the canonical text to the buffer, and fails exactly on values that cannot be written |
| `JsonWriter.WriteMembers` | core/encoding/canonical.go:113-131 | object members come out the same whatever order the map is enumerated in |
| `CanonicalJsonProofs.ParseOfPrint` | core/encoding/canonical.go:87-136 | parsing a printed value gives the value back, with its numbers in canonical form |
| `CanonicalJsonProofs.ObjectInKeyOrder` | core/encoding/canonical.go:111-131 | every object that can be written is printed as its members in code-point order of their keys, each as its quoted key, a colon and its printed value, with commas between and braces around |
| `CanonicalText.PrintIff` | core/encoding/canonical.go:87-136 | a text is the canonical text of a value if and only if it writes it: strings escaped character by character as listed, numbers without exponent, superfluous zeros or negative zero, items in order and members in code-point order of their keys, and nothing between the tokens |
| `CanonicalText.QuotedIff` | core/encoding/canonical.go:87-136 | which characters of a string are escaped, and how, in both directions |
| `CanonicalText.NumberTextIff` | core/encoding/canonical.go:138-175 | the canonical text of a number is the one plain spelling of its value |
| `CanonicalText.CanonicalizeIff` | core/encoding/canonical.go:42-57 | a JSON document canonicalises to a text if and only if its numbers are in range and the text writes its value |
| `CanonicalJsonProofs.PrintIffSame` | core/encoding/canonical.go:87-136 | two values print to the same text if and only if they are equal up to number spelling and key order |
| `CanonicalJsonProofs.CanonicalizeIffSame` | core/encoding/canonical.go:42-57 | two documents have the same canonical text if and only if they denote the same JSON value |
| `CanonicalJsonProofs.CanonicalizeIdempotent` | core/encoding/canonical.go:42-57 | canonical text is canonicalised to itself |
| `Envelope.DigestIffSame` | core/event/envelope.go:143-179 | two envelopes have equal digests if and only if they agree on every digested field, payloads as JSON values and times to the microsecond |
| `Envelope.CommitVerifies` | core/event/envelope.go:66-114 | a committed envelope carries every field of its metadata and its uncommitted event, times cut to the microsecond and the payload as the same JSON value, in canonical form, and verifies |
| `Envelope.CommitSucceedsIff` | core/event/envelope.go:66-93 | committing succeeds exactly when the payload canonicalises, the identifiers are valid and every required field is present |
| `Envelope.VerifiesIffCommits` | core/event/envelope.go:95-114 | an envelope verifies if and only if committing its content under its metadata gives it again in canonical form, both digests included |
| `Envelope.HeadFixesHistory` | core/event/envelope.go:95-114 | two verified chains with the same head digest have the same length and agree event by event |
| `Envelope.HeadFixesCommittedHistory` | core/event/envelope.go:66-114 | two chains of committed envelopes with the same head digest are equal |
| `EventStoreProofs.FreshKeepsWorld` | adapters/eventstore/sqlite/append.go:18-130 | a new append extends exactly one stream by one linked batch with its messages and snapshot, and keeps every earlier commit on record |
| `EventStoreProofs.FailureChangesNothing` | adapters/eventstore/sqlite/append.go:18-130 | a failed append leaves every table unchanged; tables change only through a new, valid request that was not found as a replay |
| `EventStoreProofs.ReplayReturnsOriginal` | adapters/eventstore/sqlite/append.go:132-239 | repeating a committed request returns the original events and changes nothing, whatever its lease |
| `EventStoreProofs.AppendOutcome` | adapters/eventstore/sqlite/append.go:132-207 | a request that repeats no commit is refused if it reuses any key of the stream, and is otherwise a new append |
| `EventStoreProofs.CommitEventsBatch` | adapters/eventstore/internal/contract/append.go:100-114 | the committed batch is numbered from the expected sequence, linked from the head, verified and in scope |
| `EventStoreProofs.CommitEventsCarry` | adapters/eventstore/internal/contract/append.go:100-114 | each committed event carries the fields of the event it was made from |
| `EventStoreSuccess.FreshSucceedsIff` | adapters/eventstore/sqlite/append.go:41-130 | a new append succeeds if and only if scope, sequence, lease, events, snapshot, identifiers and messages are all in order |
| `EventStoreSuccess.AppendCommitsIff` | adapters/eventstore/sqlite/append.go:18-130 | in every reachable state an append changes the tables if and only if its request is in order, repeats no commit, reuses no key, names the current sequence and scope, holds the lease it names, and its events, snapshot, identifiers and messages can be stored |
| `EventStoreRuns.RunKeepsInv` | conformance/eventstore/suite.go:46-256 | every run of appends and lease operations keeps the store invariant and never forgets a commit |
| `EventStoreRuns.ReachableStreams` | conformance/eventstore/suite.go:46-116 | in every reachable state streams are gap-free verified chains with pairwise different keys ending in the recorded head |
| `EventStoreRuns.RetriesReplayForever` | conformance/eventstore/suite.go:217-256 | once committed, a request replays its original result after any further operations |
| `EventStoreRuns.StaleAppendConflicts` | conformance/eventstore/suite.go:85-98 | an append expecting a sequence the stream has passed never changes anything again |
| `EventStoreRuns.AcquireSupersedes` | adapters/eventstore/sqlite/lease.go:16-58 | acquiring is refused exactly while another owner holds an unexpired lease, and otherwise issues a token above all earlier ones |
| `EventStoreRuns.SupersededNeverWrites` | conformance/eventstore/suite.go:142-184 | after any further operations a superseded token appends nothing and its grant can be neither renewed nor released |
| `EventStoreLeases.AcquiredHolds` | adapters/eventstore/sqlite/lease.go:16-58 | a lease is granted if and only if it is asked for in order and no other owner's is running; it ends its ttl after now, cut to the microsecond, and is held until exactly then through any operations that are not about it |
| `EventStoreLeases.RenewedHolds` | adapters/eventstore/sqlite/lease.go:60-86 | renewing succeeds exactly for the holder of the unexpired lease; the lease is then held until its ttl after now, and otherwise nothing changes, with the error that applies |
| `EventStoreLeases.ReleasedEnds` | adapters/eventstore/sqlite/lease.go:88-111 | releasing succeeds exactly for the holder; the lease is then held at no later time, and its token stays |
| `EventStoreLeases.LeaseDecides` | adapters/eventstore/sqlite/lease.go:113-131 | a new append is refused for its lease exactly when it names one that is not held |
| `AppendDigest.SameAppendIff` | adapters/eventstore/internal/contract/append.go:20-42 | two append requests are written to the same canonical document if and only if they are the same request, payloads as JSON values and times to the microsecond |
| `AppendDigest.DocumentDigestsFaithful` | adapters/eventstore/internal/contract/append.go:49-98 | a store that hashes that document tells every two valid requests apart, which is all the idempotency theorems assume of it |
| `EventStoreReads.ReadReturnsHistory` | adapters/eventstore/sqlite/read.go:19-106 | in every reachable state a read returns exactly the requested page of the committed history |
| `EventStoreReads.AppendedIsRead` | adapters/eventstore/sqlite/read.go:19-106 | the events a new append returns carry the request field by field, and after any further operations reading from its sequence gives exactly them |
| `EventStoreReads.ReadRefusedIff` | adapters/eventstore/sqlite/read.go:19-28 | in every reachable state a read fails if and only if the stream is no identifier, the start is negative or the limit is not between 1 and 1000 |
| `EventStoreReads.HeadReturnsLast` | adapters/eventstore/sqlite/read.go:108-150 | in every reachable state the head is the number and the digest of the last committed event |
| `EventStoreReads.ReadOfChain` | adapters/eventstore/sqlite/read.go:19-106 | over any rows that form a verified chain, committed or forged, the exact result of a read: the page, or corruption exactly when it is cut short or its last event is the recorded head with another digest |
| `EventStoreTampering.TamperProofIff` | conformance/eventstore/suite.go:308-337 | in every reachable state a page read detects every replacement of event rows, returning the committed page up to what digests identify or an error, if and only if its limit reaches exactly to the recorded sequence |
| `EventStoreTampering.PageToHeadIsCommitted` | adapters/eventstore/sqlite/read.go:19-106 | whatever the rows are replaced by, a page from any position to the head that is returned is the committed page |
| `EventStoreTampering.ForgedPageReturned` | adapters/eventstore/sqlite/read.go:19-106 | rows replaced by any verified chain that covers a page whose limit does not end at the recorded sequence are returned as they are |
| `EventStoreTampering.OtherPagesForgeable` | adapters/eventstore/sqlite/read.go:19-106 | in every reachable state every such page, before the head or past it, can be made to return events that were never committed |
| `EventStoreTampering.ReplayFailsClosed` | adapters/eventstore/sqlite/append.go:132-239 | whatever the tables hold, a replay is answered only with verified events of the stream stored under the digest of the request, numbered from its sequence, and only while its messages and last snapshot are stored as requested |
| `EventStoreTampering.TamperedHeadFailsClosed` | adapters/eventstore/sqlite/read.go:108-150 | whatever the rows are replaced by, a head that is returned is the recorded one, checked against the last committed event; a missing last event is corruption |
| `SqliteStore.Store.Append` | adapters/eventstore/sqlite/append.go:18-130 | the transaction, with its replay scan, commit loop and inserts, has exactly the specified effect and result |
| `SqliteStore.Store.Acquire` | adapters/eventstore/sqlite/lease.go:16-58 | the new lease table and the grant are as specified |
| `SqliteStore.Store.Renew` | adapters/eventstore/sqlite/lease.go:60-86 | only a live grant is extended; nothing else changes |
| `SqliteStore.Store.Release` | adapters/eventstore/sqlite/lease.go:88-111 | only a live grant is expired; its token stays |
| `SqliteStore.Store.Read` | adapters/eventstore/sqlite/read.go:19-106 | the row-by-row scan returns the specified page or reports corruption |
| `SqliteStore.Store.Head` | adapters/eventstore/sqlite/read.go:108-150 | the head query returns the specified head or reports corruption |
| `OutboxStore.Store.EnqueueAndClaim` | internal/harness/store.go:2459-2523 | finds the event by key or adds it, claims it unless it is published, leased or not due, and is undone by a failed write |
| `OutboxStore.Store.Claim` | internal/harness/store.go:2525-2563 | claims exactly the first due events up to the limit |
| `OutboxLeases.ClaimHolds` | internal/harness/store.go:2459-2523 | a claimed event is refused to everyone until its ttl after now, and is claimable again, and recovered, exactly from then on |
| `OutboxLeases.KnownKey` | internal/harness/store.go:2480-2510 | a known key with another intent is a conflict, a published one is returned unclaimed, a pending one is claimed exactly when it is due |
| `OutboxLeases.ClaimGives` | internal/harness/store.go:2525-2563 | a claim gives the earliest due events, in order, as many as asked for, ten where the number is out of range, and leaves all others alone |
| `OutboxLeases.Settling` | internal/harness/store.go:2565-2668 | only the holder of an event can acknowledge or give it back; acknowledging a published event again is accepted |
| `OutboxStore.Store.Recover` | internal/harness/store.go:2244-2300 | exactly the expired claims become pending |
| `DispatchProofs.NextKeepsInv` | internal/api/recovery.go:149-287 | every step of every worker, writer or crash keeps the dispatch invariant |
| `DispatchProofs.RunKeepsInv` | internal/api/recovery.go:149-287 | the invariant holds after every interleaving |
| `DispatchTheorems.StepRefines` | internal/api/pipeline.go:536-593 | each step is, on pipelines, nothing, an outside write, or one atomic move from Running at v to Waiting at v+1 for an event never dispatched before |
| `DispatchTheorems.RunRefines` | internal/api/recovery.go:149-287 | every run from the initial state refines the atomic dispatch, step by step |
| `DispatchTheorems.OneRunOneCommit` | internal/api/recovery.go:149-287 | in every reachable state a key has at most one provider run, and the task committed for an event is that run |
| `DispatchTheorems.NoLostDispatch` | internal/harness/dispatcher.go:26-52 | once an intent is acknowledged, its pipeline is never again Running at the expected version and stage |
| `DispatchTheorems.RecoveryCompletes` | internal/api/recovery.go:187-287 | from any reachable state a recovery worker left alone serves the next event of its batch: a pipeline Running at the expected version and stage then waits, one version on, on the one run of the key, and the run is on record; the event is acknowledged if so or if the pipeline had moved on or ended, and is pending again if not; nothing else changes |
| `DispatchTheorems.BatchCompletes` | internal/harness/dispatcher.go:26-52 | left alone, a worker serves its whole claimed batch in order, each event by how its pipeline stands when its turn comes |
| `DispatchRequests.RequestDispatches` | internal/api/pipeline.go:524-593 | an undisturbed request for a pipeline that stands where its intent says, under a new key, acknowledges its event, leaves the pipeline waiting one version on, on the one run of the key, and keeps the record of its work item |
| `DispatchRequests.RecoveryPicksUp` | internal/harness/dispatcher.go:26-52 | once the claim on an event has run out, whatever became of its worker, recovery claims it for a new worker, unless that already has as many earlier ones as it asked for |
| `DispatchRequests.LostRace` | internal/api/recovery.go:276-284 | a recovery worker whose pipeline was written meanwhile changes no pipeline; its event is acknowledged exactly if the pipeline waits on the same run, and is pending again otherwise |
| `DispatchRequests.TakesOver` | internal/api/recovery.go:220-227 | a run on record under the key of the event is taken over; the provider is not asked and nothing more is recorded |
| `DispatchRequests.FailureGivesBack` | internal/harness/dispatcher.go:41-45 | wherever a worker fails at an event it holds, the event is pending again and nothing else changes |
| `DispatchRequests.UnansweredGivesBack` | internal/api/pipeline.go:551-555 | an unanswered start gives the event back and leaves the pipeline alone |
| `DispatchRequests.LateAcknowledgement` | internal/harness/store.go:2565-2601 | an acknowledgement after the claim is gone changes no event and no pipeline |
| `PipelineEngineProofs.ApplyProgress` | internal/pipeline/engine.go:129-270 | a result that keeps a run Running moves it strictly forward in (retries, stage order); only a passed report completes |
| `PipelineDecisions.AcceptedIff` | internal/pipeline/engine.go:28-84 | a result is accepted if and only if the run is live, stage and agent are the current ones, the outcome is pass or fail, development keeps its session and directory, and a pass brings the evidence of its stage |
| `PipelineDecisions.ApplyDecides` | internal/pipeline/engine.go:129-262 | where every accepted result leads: a success to the first selected later stage, except that arbitration leads to development, integration to revalidation only after a repair, and an unapproved design waits; a failure to its stage again within its limit, to arbitration, to development or to a suspension; and which counters it raises |
| `PipelineDecisions.ApplyRecords` | internal/pipeline/engine.go:44-126 | what an accepted result leaves on the run: evidence, tests, logs, session, report, one history entry with its own fields, the active agent, issue and task, and a reason exactly when the run stops |
| `PipelineDecisions.DesignApproval` | internal/pipeline/engine.go:142-146 | whatever events arrive, a run that needs approval stays in design until it is approved; a run that needs none never waits for one, and a passed design goes on |
| `PipelineDecisions.DecisionTaken` | internal/api/workflow_chat.go:67-98 | approving a waiting design goes on to the next selected stage, rejecting suspends it; any other run is left alone |
| `PipelineDecisions.AgentInCharge` | internal/domain/pipeline.go:74-87 | the agent of a stage is the one its step names, and in the standard workflow the role of the stage |
| `PipelineDecisions.SuccessorIsNext` | internal/domain/pipeline.go:234-246 | the next selected stage is the first selected one after the stage, or the stage itself exactly when there is none |
| `PipelineCompletion.ShippedIsTested` | internal/pipeline/engine.go:129-200 | over every sequence of events a standard run is Completed only if unit tests and integration have passed since the last development result, and revalidation too if anything was repaired |
| `PipelineCompletion.CustomShippedIsTested` | internal/pipeline/engine.go:202-262 | the same for custom workflows without arbitration, for every stage from development on that they select |
| `PipelineCompletion.CompletesIff` | internal/pipeline/engine.go:202-262 | some sequence of results completes a run with an agent for every stage if and only if it is not a custom workflow that selects both development and arbitration |
| `PipelineEngineProofs.ApplyBounded` | internal/pipeline/engine.go:82-98 | a run that goes on never exceeds its retry limits |
| `PipelineEngineProofs.DispatchesBoundedAndFresh` | internal/api/pipeline.go:383-395 | whatever results and approvals arrive, a run is dispatched a bounded number of times and no two dispatches share a turn key |
| `PipelineEngineProofs.EvidenceKept` | internal/pipeline/engine.go:46-66 | failure logs, notes, tests and history only grow, and the baseline commit and the pinned session never change, over every run |
| `PipelineEngineProofs.NormalizeSorted` | internal/domain/workflow_chat.go:134-138 | the workflow is sorted by stage |
| `PipelineEngineProofs.SuccessorLater` | internal/domain/pipeline.go:234-246 | the next selected stage is a later one or the stage itself |
| `PipelineAdvance.ResultAlreadyApplied` | internal/api/pipeline.go:318-337 | the scan finds a history entry exactly when the result is on record |
| `PipelineAdvance.TakeKeepsInv` | internal/api/pipeline.go:228-316 | every step keeps the invariant and only a finished delivery adds to the history, one entry at a time |
| `PipelineAdvance.ResultAppliedOnce` | internal/api/pipeline.go:228-242 | whatever is delivered, in any order and beside any other writes, a result with a task id is on record at most once |
| `PipelineAdvance.TaskOnRecordOnce` | internal/api/pipeline.go:318-337 | a task whose deliveries agree in stage, agent and outcome is on record at most once, whatever else they carry |
| `PipelineAdvance.RedeliveryChangesNothing` | internal/api/pipeline.go:239-241 | a result on record stays on record, and delivering it again changes nothing |
| `PipelineAdvance.WatcherNeverOverwrites` | internal/api/pipeline.go:679-702 | a watcher writes only over the run that is waiting on its task, and changes only its status |
| `PipelineAdvance.DeliveryAdvancesIff` | internal/api/pipeline.go:228-302 | an undisturbed delivery advances the run if and only if it is new, belongs to the active issue and the engine accepts it |
| `PipelineDelivery.DeliveryStores` | internal/api/pipeline.go:228-316 | what an undisturbed delivery stores, field by field: the accepted result, a pending approval or the bug link, each a version of its own; a rejected graph suspends the run; anything else leaves it alone |
| `PipelineDelivery.WatcherSuspends` | internal/api/pipeline.go:679-702 | an undisturbed watcher suspends the run exactly if it waits on the task |
| `PipelineDelivery.DispatchWaits` | internal/api/pipeline.go:581-586 | a dispatch moves a Running run to waiting on the task and issue, one version on |
| `PipelineDelivery.OverwritesIff` | internal/api/pipeline.go:286-302 | a delivery that was overtaken by another write stores something if and only if it links the bug of a failed integration and the write raised the version by exactly one |
| `PipelineDelivery.LostWrite` | internal/api/pipeline.go:286-302 | in that case every such write is lost |
| `PipelineAdvance.TwoOutcomesAdvanceTwice` | internal/api/pipeline.go:318-337 | two results of one task that differ in outcome do advance a run twice, for every run in the described situation |
| `AuthMenus.Normalize` | internal/auth/service.go:417-432 | the nested loops compute the normal form |
| `AuthMenus.Allows` | internal/auth/service.go:282-293 | the scan decides the permission |
| `AuthMenus.NormalForm` | internal/auth/service.go:417-432 | normalising is idempotent and gives a duplicate-free subsequence of all menus |
| `AuthMenus.NormalPermissions` | internal/auth/service.go:282-293 | normalising changes no permission on a known or legacy menu and grants none on an unknown one |
| `AuthMenuNames.CanIff` | internal/auth/service.go:282-293 | who may open a menu, by name: administrators, and everyone whose list has the menu under any of its names |
| `AuthMenuNames.LoadIff` | internal/auth/service.go:322-350 | a file loads if and only if every account in it has an id and a password hash, and gives the last account of each id |
| `AuthMenuNames.MigratedIff` | internal/auth/service.go:334-348 | loading brings the stored menus of an account that is no administrator's into normal form if and only if they are not the one empty name, and changes nothing else |
| `AuthProofs.LockoutBound` | internal/auth/service.go:112-132 | with a monotone clock and no success, any five minutes hold at most eight checked failures, over every call sequence |
| `AuthProofs.LockoutInEveryRun` | internal/auth/service.go:112-132 | the bound holds from every state a seeded service can reach |
| `AuthProofs.EightAttemptsReached` | internal/auth/service.go:112-132 | eight are reached: three of an old window and five of a new one |
| `AuthProofs.RunKeepsInv` | internal/auth/service.go:201-280 | every call sequence, with persistence failures and restarts, keeps an active administrator, unique names and memory equal to the file |
| `AuthProofs.SeedInv` | internal/auth/service.go:94-110 | a seeded service satisfies the invariant |
| `AuthProofs.ReloadGivesMemory` | internal/auth/service.go:322-386 | writing the accounts and loading them gives the same accounts, with nothing to migrate |
| `AuthProofs.UnknownMenusRefused` | internal/auth/service.go:282-293 | in every reachable state only administrators have permission on unknown menus |
| `AuthProofs.DisabledTokensNeverAuthenticate` | internal/auth/service.go:270-280 | after an update disables a user no earlier token of that user ever authenticates again |
| `AuthLogins.LoginIff` | internal/auth/service.go:112-142 | a login succeeds if and only if the name is not locked and an active account of that name has the password; it answers with that account and an end in twelve hours, and says locked exactly when the name is |
| `AuthLogins.LoginEffect` | internal/auth/service.go:112-142 | what each answer leaves: a session for twelve hours and no failures, or one more failure in a window of ten minutes that locks for five at the fifth, or nothing |
| `AuthLogins.TokenStands` | internal/auth/service.go:144-163 | through any further calls that neither log it out, disable its user, restart nor come after its end, a token gives its user, with the account as it then is, until twelve hours after the login and not after |
| `AuthLogins.EndedForGood` | internal/auth/service.go:165-169 | after a logout or a restart a token is never accepted again |
| `AuthAccounts.CreateIff` | internal/auth/service.go:195-234 | an account is created if and only if name, display name, role, status, menus and password length are in order and the name is free; the stored account has the requested fields |
| `AuthAccounts.CreateThenLogin` | internal/auth/service.go:195-234 | an account that was created can be logged in to with its name and password |
| `AuthAccounts.UpdateIff` | internal/auth/service.go:236-280 | an update is saved if and only if the patched account is in order and an active administrator is left; exactly the sessions of a user who is no longer active are revoked |
| `AuthAccounts.AccountsWellFormed` | internal/auth/service.go:388-415 | over every sequence of calls every stored account is in order |
| `AuthService.Service.Authenticate` | internal/auth/service.go:112-142 | the login has exactly the specified effect on failures, sessions and tokens |
| `AuthService.Service.AuthenticateToken` | internal/auth/service.go:144-163 | a token is accepted exactly for a live session of an active user, and dropped otherwise |
| `AuthService.Service.CreateUser` | internal/auth/service.go:201-234 | the account is added and saved, or everything is put back |
| `AuthService.Service.UpdateUser` | internal/auth/service.go:236-280 | the account is replaced and saved, or put back, and sessions of an inactive user are revoked either way |
| `ArtifactProofs.PathsDiffer` | internal/artifact/store.go:83-102 | no object, metadata or temporary path of any key is another one |
| `ArtifactProofs.PutView` | internal/artifact/store.go:104-159 | a Put, wherever it stops, leaves other keys alone and its own key in one of four described states |
| `ArtifactProofs.ReadsReturnPuts` | internal/artifact/store.go:161-212 | after any operations and crashes a successful read returns bytes a Put to that key wrote, with metadata of a Put of those bytes |
| `ArtifactProofs.PutThenOpen` | internal/artifact/store.go:104-159 | a Put that reports success is readable at once, in full, with the options it was given, its length, its digest and its time |
| `ArtifactProofs.PutSucceedsIff` | internal/artifact/store.go:83-159 | a Put succeeds if and only if the parts of its key are plain, it is not stopped and no immutable object's metadata is in its way |
| `ArtifactProofs.RangeBytes` | internal/artifact/store.go:161-212 | the bytes of a range are exactly those from its start to its end or to the end of the object, both included, and exactly the ranges that do not lie in the object are refused |
| `ArtifactProofs.AdjacentRanges` | internal/artifact/store.go:161-212 | two ranges that meet, read one after the other, give the bytes of the range that spans them |
| `ArtifactProofs.WholeIff` | internal/artifact/store.go:161-212 | an object is read if and only if the parts of its key are plain, both its files are there and size and digest agree |
| `ArtifactProofs.ImmutableUntilDeleted` | internal/artifact/store.go:104-159 | a completed immutable object reads the same after any operations until a Delete of its key, not under legal hold, removes something |
| `ArtifactProofs.DeadForever` | internal/artifact/store.go:271-290 | a key whose object is gone while its immutable metadata is left can never again be put, read or deleted |
| `ArtifactProofs.DeadKeyIff` | internal/artifact/store.go:271-290 | deleting a completed object makes its key unusable for ever if and only if the object is immutable and the Delete stops between its two removals |
| `ArtifactProofs.TornPutFailsClosed` | internal/artifact/store.go:245-269 | stopping between the two renames makes the object unreadable unless the bytes are the old ones |
| `ArtifactStore.FileStore.Put` | internal/artifact/store.go:104-159 | the file operations, cut off at any point, leave the specified files |
| `ArtifactStore.FileStore.Open` | internal/artifact/store.go:161-212 | the read returns the range, or the specified error |
| `ArtifactStore.FileStore.Delete` | internal/artifact/store.go:271-290 | object first, metadata second, cut off at any point |
| `LegacyGraph.BuildGraph` | internal/compat/pipeline_stage.go:89-148 | the nested loops build the specified nodes, with their agents and retry policies, and edges, and refuse invalid or repeated stages, blank agents and negative policies |
| `LegacyGraphValidation.CompilesIffValid` | internal/orchestration/validate.go:17-307 | a run has a graph if and only if its steps compile and the graph they make passes validation: sizes, identifiers, ends, edges, reachability both ways and bounded loops |
| `LegacyGraphValidation.CompiledGraph` | internal/compat/pipeline_stage.go:89-148 | the compiled graph, in full: its nodes with identifiers, agents and policies, its entry and exits, and exactly one edge with its identifier and limit between every two stages for each of the three events |
| `LegacyGraphValidation.DraftValidIff` | internal/orchestration/validate.go:17-307 | of all that validation demands, a compiled workflow can only miss non-negative retry policies |
| `LegacyGraph.ExactlyOneEdge` | internal/compat/pipeline_stage.go:113-133 | exactly one edge is enabled when the result continues and its next node exists, none otherwise |
| `LegacyGraphProofs.RowsDistinct` | internal/compat/pipeline_stage.go:113-133 | edge identifiers are pairwise different |
| `LegacyGraphProofs.WalksEnd` | internal/compat/pipeline_stage.go:109-133 | every walk ends within 3·n·n·max(1, MaxRetries+1) traversals |
| `LegacyGraphSimulation.GraphFollowsEngine` | internal/api/legacy_graph.go:105-249 | every result, approval or rejection the engine accepts is refused by the plan for exactly the listed reasons, and otherwise takes the one edge of its event to the next stage and starts it when the run goes on, waits when the run waits, and ends or readies its node when the run ends |
| `LegacyGraphWalks.HistoryIsWalk` | internal/api/legacy_graph.go:23-249 | for every sequence of events the run history and approvals are one connected walk of the graph from its entry to the current stage, edge by edge |
| `LegacyGraphWalks.WalkIsBounded` | internal/orchestration/transition.go:1270-1290 | whatever events arrive, a plan of n stages takes at most 3·n·n·max(1, MaxRetries+1) edges |
| `LegacyGraphLimits.SafeNeverExhausts` | internal/orchestration/transition.go:1270-1276 | within safe limits no sequence of events uses up an edge, for standard and custom workflows |
| `LegacyGraphLimits.NoLargerLimitIsSafe` | internal/orchestration/transition.go:1270-1276 | a workflow whose stages set no limit above MaxRetries is within safe limits |
| `LegacyGraphExhaustion.ExhaustsIff` | internal/orchestration/transition.go:1270-1276 | some sequence of events uses up an edge if and only if one of five stage limits exceeds what MaxRetries + 1 leaves room for |
| `LegacyGraphExhaustion.DevelopmentOverrun` | internal/orchestration/transition.go:1270-1276 | with MaxRetries 1 and a development limit of 5 an edge is used up while the engine still retries |
| `LegacyGraphEnds.PlanEndsIff` | internal/orchestration/transition.go:1184-1268 | when a run ends its plan ends too, succeeded exactly if the last result passed, unless the failed stage has attempts of its own left: then its node is ready again |
| `LegacyGraphEnds.FailsClosed` | internal/orchestration/transition.go:1192-1268 | where no stage sets a retry limit above one, a plan is over whenever its run is, over every sequence of events |
| `LegacyGraphEnds.StrandedPlan` | internal/orchestration/transition.go:1192-1210 | a design stage with a limit of two: its first failure suspends the run and leaves its node ready |
| `Audit.RunKeepsInv` | internal/audit/ledger.go:96-125 | after any appends, failed saves included, memory equals disk and is a numbered, hashed, linked chain |
| `Audit.RunVerifies` | internal/audit/ledger.go:167-178 | a run of appends verifies if and only if the first call that is kept carries an empty previous hash |
| `Audit.ForeignFirstHashNeverVerifies` | internal/audit/ledger.go:103-105 | a ledger whose first event was kept with a foreign previous hash never verifies again, whatever is appended |
| `Audit.EditAcceptedIff` | internal/audit/ledger.go:167-178 | exactly which replacement of one stored event reopening accepts: one that keeps its number, its link and, unless it is the last, its content hash |
| `Audit.TruncationAccepted` | internal/audit/ledger.go:167-178 | reopening accepts every cut-off ledger |
| `Audit.LastHashFixesHistory` | internal/audit/ledger.go:96-125 | two ledgers whose last content hashes agree hold the same history |
| `Audit.LedgerIsKeptCalls` | internal/audit/ledger.go:96-125 | after any appends the ledger holds exactly the calls that were complete and saved, in order, each with its own fields |
| `Audit.AppendAnswers` | internal/audit/ledger.go:96-125 | an append answers with its own event, recorded as the next one, exactly when it is complete and saved; otherwise nothing changes |
| `AuditLedger.Ledger.Append` | internal/audit/ledger.go:96-125 | the event is added and saved, or removed again |
| `AuditLedger.Ledger.Verify` | internal/audit/ledger.go:167-178 | the loop accepts exactly numbered and linked events |
| `AgentText.VisibleText` | internal/api/agent_builder.go:266-289 | the stripping loop terminates and computes the visible text |
| `AgentText.NoTagsShown` | internal/api/agent_builder.go:266-289 | the visible text of every answer holds neither an opening draft tag nor the result marker |
| `AgentText.FlatDraftsHidden` | internal/api/agent_builder.go:266-289 | of an answer whose drafts are not nested exactly the text outside the drafts is left |
| `AgentText.NestedDraftShown` | internal/api/agent_builder.go:266-289 | of nested drafts what follows the first closing tag is shown, for every such answer |
| `AgentText.PlainTextShown` | internal/api/agent_builder.go:266-289 | text without tags and markers is shown as it is, trimmed |
| `AgentText.VisibleIdempotent` | internal/api/agent_builder.go:266-289 | showing visible text changes nothing |
| `OpenApi.FixpointAfterTwo` | scripts/openapi-contract.rb:115-143 | two applications of normalize reach a fixpoint on every document |
| `OpenApi.FixpointAfterOneIff` | scripts/openapi-contract.rb:115-143 | one application is enough if and only if every operation but HEAD already has a default response |
| `OpenApi.ReportedAfterNormalize` | scripts/openapi-contract.rb:145-169 | exactly which problems validate reports on a normalised document |
| `OpenApi.OnlyOperationIdsRemain` | scripts/openapi-contract.rb:145-169 | when media entries carry schemas, only operation-id problems remain |
| `OpenApiEffects.SchemaTable` | scripts/openapi-contract.rb:103-113 | which media type and schema a response has, and that HEAD and 204 have none |
| `OpenApiEffects.ResponseCompleted` | scripts/openapi-contract.rb:126-138 | what normalising adds to a response, and that it takes nothing away and replaces nothing |
| `OpenApiEffects.ParametersCompleted` | scripts/openapi-contract.rb:120-125 | the idempotency key is added exactly to repeatable API mutations that lack it |
| `OpenApiEffects.OperationCompleted` | scripts/openapi-contract.rb:115-143 | every response is completed on its own and only a default response is added |
| `OpenApiEffects.DocumentCompleted` | scripts/openapi-contract.rb:115-143 | every operation is completed under its own path and verb and everything else is left alone |
| `OpenApiEffects.ComponentsCompleted` | scripts/openapi-contract.rb:31-101 | the shared headers, parameters and schemas are present and all others are kept |
| `OpenApiEffects.CleanIff` | scripts/openapi-contract.rb:145-169 | validate finds nothing if and only if every operation has an id, its idempotency key where one is needed, a default response and a schema for every other body, and no two ids agree |
| `OpenApiScript.Contract.Normalize` | scripts/openapi-contract.rb:115-143 | the in-place loops compute the normalised document in any order of entries |
| `OpenApiScript.ValidateOperation` | scripts/openapi-contract.rb:145-169 | the collected problems of an operation are exactly those it has |
| `OpenApiScript.Validate` | scripts/openapi-contract.rb:145-169 | the loops over the document collect exactly its problems, repeated operation ids included |

## Left out

- HTTP routing, request decoding, permission headers and event publishing.
- Work-item, bug and comment dispatch intents, which follow the same claim, execute, save and acknowledge steps without the pipeline commit.
- The graph attempt bookkeeping around a dispatch and the rehydration of intents without a context envelope: each can only fail, which the model covers by a failing step.
- Sessions of the outbox: one list stands for all of them; turn keys name their pipeline.
- Text is a sequence of Unicode scalars; invalid UTF-8 and the decoder's nesting limit of 10000 are not modelled.
- Event store columns that repeat envelope fields are read from the envelope; an append reads the clock once.
- Streams' subscriptions and listing, and the PostgreSQL and file adapters of the event store.
- DispatchTheorems.BatchCompletes: is about one worker that is not interrupted; fairness of schedules is not modelled. What holds under every interleaving is stated by the other theorems.
- PipelineAdvance.ResultAppliedOnce: results without a task id are not covered, since issue ids are reused across repairs.
- Graph features the compatibility graph does not use: fan-out, priorities, required evidence, budgets, retry backoff, contracts between nodes and repair plans. A plan that refuses an event is followed no further; the server then suspends the run.
- Identity service without a file; lower-casing and password hashing are parameters; the display order of user lists.
- Artifact metadata is stored as a value, so malformed metadata files appear as missing ones.
- Audit bodies are hashed by a parameter; their JSON encoding, by Go's own encoder, is not modelled.
- OpenAPI documents hold opaque schemas, and response codes are compared as text.
