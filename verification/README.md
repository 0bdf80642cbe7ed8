# CallSwarm: a verified model of its deterministic core

CallSwarm turns a user's goal into a mission: it designs a team of specialist
agents, runs them along their dependencies, gathers evidence from research and
phone calls, and replans until plan options can be shown. Language models only
propose; what is accepted, launched, called, believed and shown is decided by
ordinary code. This project models that code and proves what it promises.

The modules follow the program:

- `Graph`, `Factory`, `GreatestTeam`, `Truncation`: the dependency graph,
  validation of a proposed team, what its dependency resolution settles on, and
  its reduction to the agent cap.
- `Scheduler`, `Runner`, `AgentTurns`: the swarm loop as a step system in which
  tasks and stops act between any two of its steps, the loop itself as a class
  that refines it, and one agent's turn loop. The chain is: `ValidateSwarm`
  delivers `StrictOk`, `RunTeam` needs exactly that.
- `Schema`, `ResultSchema`: the output validator, and the rules for call results.
- `Evidence`, `EvidenceEngine`: claims and their reconciliation as functions of
  a whole store, and the engine as a class whose invariant is that incremental
  maintenance equals recomputation from scratch.
- `CallCreation`, `CallFinalization`: the two call protocols as atomic steps in
  every interleaving, with lost, late and repeated messages.
- `Mission`, `Approvals`, `Replan`: the transition table, approvals with every
  interleaving of their transactions and as a class, and the replanning loop.
- `EventStream`, `Emitter`: the activity stream of one client, and the emitter.
- `PhoneMask`, `Keys`, `Revision`, `Selection`: phone masking over arbitrary
  text, normalized keys, constraint revision, and call selection.
- `Models`, `Ordering`: shared entities, and Python's order on strings.

## How the model is built

Loops that update variables are methods with invariants, proved against
specification functions; objects that update their fields are classes. A
database session is one atomic transaction, an await is a point where anything
else may happen. Text functions (name and predicate normalization, ownership
overlap, the comparable form of a value, digests, encodings), model answers,
clocks and new ids are arbitrary parameters; where a theorem needs something of
them it says so in a `requires` clause (a digest of fixed length, folding that
leaves normal text alone, a rounding that is monotone).

Two assumptions are built in because the code checks and then writes across an
await: a run's `_transition` is atomic, and at most one `execute_call` runs at a
time for an intent. `finalize_run` needs no such assumption.

## Where the code and its documentation part

- `backend/callswarm/agents/factory.py:158-162`: name normalization is not
  idempotent, and dependency resolution settles on the greatest closed team, for
  every proposal list, exactly when it is (`TeamsGreatestIff`,
  `ExampleTeamLosesAMember`).
- `backend/callswarm/agents/runner.py:229-231`: a stop that hits an agent already
  paused for a call can leave its dependents waiting, not blocked; the statuses
  read as documented exactly when every stop was harmless
  (`ExitClassification`, `LateStopLeavesDependentWaiting`).
- `backend/callswarm/api/webhooks.py:24-28`: a failed receipt is said to have had
  no side effect. It had one exactly when the delivery won the promotion, and if
  it then failed to ingest, the claims are never written (`EffectIffPromoted`,
  `FailedReceiptHidesPromotion`).
- `backend/callswarm/calls/provider.py:133-135`: a changed request can reuse its
  idempotency key, exactly when the change is to something the key does not cover
  (`ChangedRequestSameKey`); reconcile is safe all the same because it also
  compares the bytes.
- `backend/callswarm/approvals/service.py:122-142`: a decision between the two
  transactions of a request can leave the mission waiting for nobody, exactly when
  nothing else is pending or under way (`StuckIff`, `NeverStuckIff`,
  `StuckIsReached`).
- `backend/callswarm/approvals/service.py:164-171`: a late decision reports the
  approval as expired, but the write is rolled back with the error
  (`LateDecisionIsRolledBack`).
- `backend/callswarm/approvals/service.py:153-154`: `decide` is said to be the only
  way to an APPROVED approval. It is exactly when no cascade step copies one
  (`backend/callswarm/calls/patterns.py:237-263`); a copy goes back to a decision
  all the same (`BecomesApprovedIff`, `DecisionsOnlyIff`, `ApprovedByDecision`,
  `CopyIsReached`).
- `backend/callswarm/orchestrator/replan.py:22-25`: the limit is said to bound the
  decisions of a mission. It bounds those that do anything but proceed
  (`NonProceedBounded`); a call passes it, by one decision, exactly when the log is
  full too soon (`LimitPassedIff`, `MissionLogBounded`, `PassLimit`).
- `backend/callswarm/events/emitter.py:3-6`: replay is said to make up for
  everything. An event that becomes visible at or below the last id the client
  received, or that a later one overtakes on the way, is lost to that client
  (`GapIffOvertaken`, `OvertakenNeverArrives`, `GapIsReached`, `PublishOrderGap`).

## Model

| member | source | states |
|---|---|---|
| `Graph.Kahn` | backend/callswarm/orchestrator/graph.py:69-81 | The loop returns the order of the specification function and, as leftover, every node that is not in it. |
| `Graph.KahnOrderSound` | backend/callswarm/orchestrator/graph.py:69-81 | The order has no duplicates, every node follows all its dependencies, and nothing that could still be released is left behind. |
| `Graph.KahnCorrect` | backend/callswarm/orchestrator/graph.py:63-81 | On any finite graph a node is left over exactly when it is on a cycle or outside the node set, or transitively depends on such a node. |
| `Graph.ObstacleBelow` | backend/callswarm/orchestrator/graph.py:63-66 | Pigeonhole: in a finite set where every node has a dependency inside the set or outside the graph, every node leads to a cycle or to an unknown node. |
| `Graph.Downstream` | backend/callswarm/orchestrator/graph.py:44-54 | The worklist terminates with exactly the transitive closure of the reverse edges. |
| `Graph.ConverseReaches` | backend/callswarm/orchestrator/graph.py:108-116 | Being reached along the reversed edges is the same as depending transitively along the edges. |
| `Graph.LeafExists` | backend/callswarm/orchestrator/graph.py:35-36 | Every non-empty acyclic graph has a node nobody depends on. |
| `Graph.ReverseEdges` | backend/callswarm/orchestrator/graph.py:108-111 | The nested loops build exactly the converse relation. |
| `Graph.BuildGraph` | backend/callswarm/orchestrator/graph.py:95-119 | Each error is raised exactly in its case, in order of precedence; strict construction succeeds exactly on unique ids, resolved references, no self-dependency and no cycle. |
| `Graph.KahnDecidesAcyclic` | backend/callswarm/orchestrator/graph.py:56-61 | Kahn leaves nothing over exactly when the team is acyclic. |
| `Factory.RunGates` | backend/callswarm/agents/factory.py:264-288 | The gate loop computes the kept list and the rejections of the specification function. |
| `Factory.GateAllCorrect` | backend/callswarm/agents/factory.py:264-288 | Kept plus rejected is everything proposed, kept proposals pass every gate on their own, and their normalized names are distinct. |
| `Factory.UnionInto` | backend/callswarm/agents/factory.py:222-229 | A union keeps its left operand as a prefix, covers the right one up to case and blanks, and invents nothing. |
| `Factory.MergeInto` | backend/callswarm/agents/factory.py:218-242 | A merge keeps the survivor's name and output schema, loses none of its dependencies and never lowers the risk level. |
| `Factory.MergeOwners` | backend/callswarm/agents/factory.py:290-312 | The overlap loop computes the merging of the specification function. |
| `Factory.MergeAllCorrect` | backend/callswarm/agents/factory.py:290-312 | Merged plus surviving is everything kept, surviving names stay distinct, and every alias leads from a dropped name to a surviving one in a single hop. |
| `Factory.ResolveDependencies` | backend/callswarm/agents/factory.py:314-337 | The restarting loop terminates in the settled team, rejecting exactly those it removes. |
| `Factory.SettleResolves` | backend/callswarm/agents/factory.py:314-337 | In the settled team every dependency is a member and nobody depends on itself. |
| `GreatestTeam.SettleIsGreatest` | backend/callswarm/agents/factory.py:314-337 | Where a found name resolves to itself, the settled team is the greatest team closed under dependencies, whatever the visiting order. |
| `GreatestTeam.GreatestIffStable` | backend/callswarm/agents/factory.py:314-337 | The settled team is the greatest closed one from every starting table exactly when looking a name up twice is looking it up once. |
| `GreatestTeam.AsNamedIffStable` | backend/callswarm/agents/factory.py:314-337 | From every start each settled dependency is the one that was named, exactly when looking a name up twice is looking it up once, where there are at least three keys. |
| `GreatestTeam.SettledTeamIsGreatest` | backend/callswarm/agents/factory.py:264-337 | For the whole pipeline: the settled team is the greatest closed one whenever the normalized names of the kept proposals normalize to themselves. |
| `GreatestTeam.TeamsGreatestIff` | backend/callswarm/agents/factory.py:249-337 | For every proposal list and every list of prohibited purposes it is, exactly when normalizing a usable name twice is normalizing it once. |
| `GreatestTeam.UnstableNamesLoseAMember` | backend/callswarm/agents/factory.py:314-337 | For every name that is looked up differently the second time there is a start from which a closed team loses a member. |
| `GreatestTeam.ProposalsLoseAMember` | backend/callswarm/agents/factory.py:249-337 | Proposals that the gates keep and nothing merges, one of them under a name that normalizes differently the second time, lose a member that everything it needs is there for. |
| `GreatestTeam.ExampleTeamLosesAMember` | backend/callswarm/agents/factory.py:158-162 | The normalization of the program does that to the proposals "a", "the the b" and "z". |
| `Factory.StuckMeansCycle` | backend/callswarm/agents/factory.py:339-375 | After renaming to ids, a member is cut as cyclic exactly when it is on, or depends on, a cycle of names. |
| `Factory.RemoveCyclic` | backend/callswarm/agents/factory.py:339-375 | Accepted plus rejected is the settled team, the accepted specs are exactly those not on or above a cycle, and they satisfy the strict graph conditions. |
| `Factory.ValidateSwarm` | backend/callswarm/agents/factory.py:249-375 | For every proposal list: accepted, rejected and merged add up to proposed, the strict graph construction cannot fail on the team, and every accepted spec is a settled proposal under its own id. |
| `Truncation.TruncateToCap` | backend/callswarm/agents/factory.py:378-394 | Keeps min(n, cap) specs of any team; of a closed acyclic one, unchanged, in order, still closed and acyclic, with kept and dropped partitioning the input. |
| `Truncation.DropStep` | backend/callswarm/agents/factory.py:382-393 | Dropping the last leaf keeps all of that true. |
| `Truncation.VictimIsLastLeaf` | backend/callswarm/agents/factory.py:383-386 | In a closed acyclic team the victim is always a leaf: the fallback to the last spec is never needed. |
| `Truncation.NothingStripped` | backend/callswarm/agents/factory.py:388-392 | Nobody depends on the victim, so the dependency-stripping code changes nothing. |
| `Scheduler.RunInv` | backend/callswarm/agents/runner.py:226-305 | The invariant of loop, tasks and stops holds after any run from a state in which it holds. |
| `Scheduler.LaunchSafety` | backend/callswarm/agents/runner.py:251-286 | In every reachable state, an agent about to be launched was never launched before and all its transitive dependencies are COMPLETE. |
| `Scheduler.ExitClassification` | backend/callswarm/agents/runner.py:267-301 | When the loop exits, each status is determined by what the transitive dependencies had become; and BLOCKED means exactly a FAILED or STOPPED dependency, WAITING_FOR_DEPENDENCY exactly none but one WAITING_FOR_CALL, exactly when every stopped agent was stopped before its task was taken or has only dependents below a failure. |
| `Scheduler.StopsInTimeDocumented` | backend/callswarm/agents/runner.py:267-301 | A run in which every stop hits an agent whose task the loop has yet to take ends as documented. |
| `Scheduler.LateStopLeavesDependentWaiting` | backend/callswarm/agents/runner.py:278-301 | A reachable run in which a stop hits an agent already paused for a call and leaves its dependent waiting below a STOPPED agent. |
| `Scheduler.PotentialDrops` | backend/callswarm/agents/runner.py:226-305 | Every step of the loop, a task or a stop lowers a bounded measure. |
| `Scheduler.RunBounded` | backend/callswarm/agents/runner.py:226-305 | No run is longer than the measure of its first state. |
| `Scheduler.NeverStuck` | backend/callswarm/agents/runner.py:267-301 | Until the loop exits some step other than a stop is possible. |
| `Runner.AgentRunner.constructor` | backend/callswarm/agents/runner.py:233-265 | The initial transitions and launches give the start state of the step system. |
| `Runner.AgentRunner.Take` | backend/callswarm/agents/runner.py:269-301 | Taking an ended task is exactly the reaping step. |
| `Runner.AgentRunner.RunSwarm` | backend/callswarm/agents/runner.py:226-305 | The loop terminates for every behaviour of tasks and stops at its awaits, with every agent classified, and as documented exactly when the stops were harmless. |
| `Runner.RunTeam` | backend/callswarm/agents/runner.py:226-305 | A team runs to such an exit, with the same classification, exactly when it satisfies the strict graph conditions, which is what the factory delivers. |
| `AgentTurns.RunToolsGranted` | backend/callswarm/agents/runner.py:389-395 | No tool outside the grant is ever called; asking for one, or a tool that raises, is what ends the calls. |
| `AgentTurns.Execute` | backend/callswarm/agents/runner.py:350-439 | At most one turn beyond the limit, only after exactly one rejected output; a second rejection is final; what is delivered conforms to the output schema; each failure has its cause. |
| `AgentTurns.OutcomesAreScheduled` | backend/callswarm/agents/runner.py:307-335 | Every way an agent's work ends is a transition the scheduler model allows. |
| `Schema.ValidateOutput` | backend/callswarm/agents/output_schema.py:124-131 | The recursive collection returns the specified problems, and none exactly when the value conforms. |
| `Schema.Collect` | backend/callswarm/agents/output_schema.py:101-121 | Appends to the shared error list exactly the problems of this node. |
| `Schema.ValidIffConforms` | backend/callswarm/agents/output_schema.py:85-121 | No problem is found exactly when the value has the shape: integers are not floats or booleans, booleans are not numbers, objects have all required and no unexpected properties. |
| `Schema.ConformingNesting` | backend/callswarm/agents/output_schema.py:22-75 | A value that passes an accepted schema nests no deeper than MAX_DEPTH. |
| `ResultSchema.UnknownIsAlwaysRepresentable` | backend/callswarm/calls/schema.py:66-100 | Under an acceptable result schema every valid answer stays valid when all its enum answers become "unknown", and contains no boolean. |
| `ResultSchema.StatusEnumMeaning` | backend/callswarm/calls/patterns.py:220-234 | A value meets the extended schema exactly when the new field is one of the values and the rest meets the original schema. |
| `ResultSchema.StatusEnumAccepted` | backend/callswarm/calls/patterns.py:220-234 | The extension of an acceptable schema is accepted exactly when the field name is neither empty nor reserved and "unknown" is among the values. |
| `ResultSchema.CompileSchema` | backend/callswarm/calls/schema.py:163-185 | The loop compiles each field to its node and lists exactly the required ones. |
| `ResultSchema.CompiledSchemaAcceptable` | backend/callswarm/calls/schema.py:163-201 | A clean proposal always compiles to a well-formed schema, and to an acceptable one exactly when every field obeys the result rules. |
| `Evidence.NothingToReconcile` | backend/callswarm/evidence/engine.py:135-174 | For any listing of a group, reconciliation returns nothing exactly when every counted claim looks as the whole store implies. |
| `Evidence.SettleReconciles` | backend/callswarm/evidence/engine.py:354-364 | Settling the touched groups reconciles the store when no other group was off. |
| `Evidence.IngestReconciles` | backend/callswarm/evidence/engine.py:271-342 | Ingesting a batch with unused ids keeps a reconciled store reconciled, deletes nothing and alters no value. |
| `Evidence.RetireReconciles` | backend/callswarm/evidence/engine.py:441-503 | Making claims STALE or REJECTED and re-reconciling their groups does too. |
| `Evidence.DeriveReconciles` | backend/callswarm/evidence/engine.py:389-410 | A derived claim disturbs no group. |
| `Evidence.ReconcileIsIdempotent` | backend/callswarm/evidence/engine.py:366-373 | Reconciling any groups of a reconciled store changes nothing. |
| `Evidence.ConflictsNamed` | backend/callswarm/evidence/engine.py:147-163 | A counted claim is CONFLICTED exactly when its group disagrees; it then names exactly the other counted claims of the group, in ascending order, and otherwise nobody. |
| `Evidence.ConflictLinks` | backend/callswarm/evidence/engine.py:147-163 | Conflict links hold exactly between different counted claims of one disagreeing group; they are symmetric and irreflexive. |
| `Evidence.OnePerSourceIff` | backend/callswarm/evidence/engine.py:299-319 | After a claim enters, no source has two live claims about a thing exactly when the claim, if it counts, is not older than what its source already said. |
| `Evidence.StatusMeaning` | backend/callswarm/evidence/engine.py:107-174 | With one live claim per source, CONFLICTED means two sources disagree and MULTI_SOURCE_SUPPORTED at least two claims that all agree. |
| `Evidence.FlaggedIffSimulatedOrigin` | backend/callswarm/models/evidence.py:42-47 | A claim is flagged exactly when some chain of derived-from links reaches a FIXTURE or SIMULATED claim. |
| `Evidence.AddKeepsLineage` | backend/callswarm/evidence/engine.py:177-178 | An observed claim, or one derived from stored claims, keeps the links acyclic and inside the store and every flag inherited. |
| `Evidence.LineageUntouched` | backend/callswarm/evidence/engine.py:302-315 | A change of status alters no flag. |
| `EvidenceEngine.ApplyReconciles` | backend/callswarm/evidence/engine.py:271-510 | Each of the five operations, accepted or refused, keeps the store reconciled, deletes no claim, changes no value and revives nothing. |
| `EvidenceEngine.RunLeavesNothingToReconcile` | backend/callswarm/evidence/engine.py:135-174 | After any sequence of operations from an empty store, recomputing any group from scratch returns nothing. |
| `EvidenceEngine.RunEvolves` | backend/callswarm/evidence/engine.py:271-510 | Over any longer run no claim is lost or altered, and STALE or REJECTED never becomes active again. |
| `EvidenceEngine.RunFlags` | backend/callswarm/evidence/engine.py:389-410 | In every reachable store whose ingested claims were observed, the flag says exactly whether a claim rests on simulated evidence, and no later operation changes it. |
| `EvidenceEngine.RunOnePerSource` | backend/callswarm/evidence/engine.py:296-323 | When every source reports in time order, no reachable store has two live claims of one source about one thing. |
| `EvidenceEngine.RunStatusMeaning` | backend/callswarm/evidence/engine.py:147-174 | In those stores CONFLICTED and MULTI_SOURCE_SUPPORTED mean what they say about sources. |
| `EvidenceEngine.ReconcileGroups` | backend/callswarm/evidence/engine.py:354-364 | The incremental loop over prepared groups equals settling those groups of the store, and returns exactly the claims that changed. |
| `EvidenceEngine.SupersedeOlder` | backend/callswarm/evidence/engine.py:299-319 | The scan of one group retires exactly the superseded claims of the store and keeps the grouping in step with it. |
| `EvidenceEngine.EvidenceEngine.Ingest` | backend/callswarm/evidence/engine.py:271-342 | Goes through exactly for one mission and unused ids, and then leaves the store of the specification; reports exactly the re-judged and the superseded claims; an error changes nothing. |
| `EvidenceEngine.EvidenceEngine.Derive` | backend/callswarm/evidence/engine.py:376-410 | Goes through exactly when every input is a claim of the mission; the new claim inherits the flag of any input. |
| `EvidenceEngine.EvidenceEngine.MarkStale` | backend/callswarm/evidence/engine.py:413-482 | Refuses exactly without a criterion or with an unknown claim; otherwise retires exactly the outdated claims and re-settles their groups. |
| `EvidenceEngine.EvidenceEngine.Reject` | backend/callswarm/evidence/engine.py:484-510 | Needs a reason and a known claim; rejects it and re-settles its group. |
| `EvidenceEngine.EvidenceEngine.Reconcile` | backend/callswarm/evidence/engine.py:366-373 | Asking for a reconciliation never changes anything. |
| `CallFinalization.ExecInv` | backend/callswarm/calls/service.py:330-506 | The invariant holds after every interleaving of the creating call, polls and webhook deliveries. |
| `CallFinalization.ClaimsAtMostOnce` | backend/callswarm/calls/service.py:484-496 | In every interleaving the claims-writing step is entered at most once, exactly when the run turned terminal, and claims are written only for the run as stored. |
| `CallFinalization.OutcomeFrozen` | backend/callswarm/persistence/repositories.py:341-362 | Once the stored run is terminal no later step changes it, and claims lost to a failed ingest stay lost. |
| `CallFinalization.ClaimsAccountedFor` | backend/callswarm/calls/service.py:484-496 | A terminal run has its claims, is about to get them, or lost them, never two of these. |
| `CallFinalization.EffectIffPromoted` | backend/callswarm/api/webhooks.py:24-28 | Some step of a delivery or poll changed the stored run or the claims exactly when some step of it promoted the run while that had no outcome, so a failed one had no effect exactly when it failed before. |
| `CallFinalization.FailedReceiptHidesPromotion` | backend/callswarm/api/webhooks.py:188-192 | A run after which the receipt is failed although the run is terminal, and whose claims no later delivery ever writes. |
| `CallFinalization.DuplicateDeliveryIsNoOp` | backend/callswarm/api/webhooks.py:97-125 | However deliveries of one event id interleave, at most one is let through, and one more for each time the event was recorded as failed. |
| `CallFinalization.FirstPromotionWins` | backend/callswarm/persistence/repositories.py:341-362 | Of any number of terminal promotions on any rows, a caller wins exactly when its row was there and not terminal and nobody called for it before; what the winner wrote is what the row holds from then on, and a row that was terminal keeps its outcome. |
| `CallFinalization.CallRunRepository.PromoteToTerminal` | backend/callswarm/persistence/repositories.py:341-362 | The row is written and returned exactly when it was there and not terminal; otherwise nothing happens. |
| `CallCreation.KeyNamesOneIntent` | backend/callswarm/calls/provider.py:137-147 | Keys of two different intents never coincide. |
| `CallCreation.SameKeyIff` | backend/callswarm/calls/provider.py:130-147 | Where the hash keeps two materials apart, two intents share a key exactly when id, goal and phone numbers (in any order) agree: the joined text confuses nothing, whatever the goals contain. |
| `CallCreation.ChangedRequestSameKey` | backend/callswarm/calls/provider.py:133-135 | Different requests share a key exactly when id, goal and phone numbers agree and the mission, a recipient, a schema or the task text differs: the documented exclusion fails there and nowhere else. |
| `CallCreation.NewSchemaSameKey` | backend/callswarm/calls/calle.py:291-312 | Any other result schema makes a different request under the same key. |
| `CallCreation.ProgramKeysName` | backend/callswarm/calls/provider.py:137-147 | The derived keys have the shape the protocol relies on: each names its intent. |
| `CallCreation.ExecInv` | backend/callswarm/calls/calle.py:579-613 | Everything on the wire names its intent, the service holds only what was sent, and every run stored or returned is a task held for that intent. |
| `CallCreation.ReconcileOnlyReplays` | backend/callswarm/calls/calle.py:722-753 | Reconcile adds no request to those ever sent; if it transmits, it repeats a request a create sent, for the intent as it is and with no stored run. |
| `CallCreation.NoCreateNoCall` | backend/callswarm/calls/calle.py:737-742 | Without a create, nothing of an intent is ever sent, held by the service or returned, however often it is reconciled. |
| `CallCreation.OneTaskPerIntent` | backend/callswarm/calls/calle.py:579-613 | For an unedited intent, after any mix of creates, reconciles, lost, late or repeated messages and restarts, the service holds at most one task and every run stored or returned is that task. |
| `CallCreation.CalleProvider.ExecuteAuthorized` | backend/callswarm/calls/calle.py:579-590 | Records the attempt, then sends it once. |
| `CallCreation.CalleProvider.Reconcile` | backend/callswarm/calls/calle.py:722-753 | Re-reads a stored run, replays an identical recorded attempt, or refuses; exactly one of these, and only the replay transmits. |
| `Mission.ExecutionIsAuthorized` | backend/callswarm/orchestrator/state_machine.py:40-114 | In any history of the table, each entry to CALL_EXECUTION_RUNNING is immediately preceded by its own CALL_PLAN_READY, CALL_AUTHORIZATION_PENDING, CALL_AUTHORIZED. |
| `Mission.AlwaysCompletable` | backend/callswarm/orchestrator/state_machine.py:40-114 | From every status but BLOCKED and CANCELED, COMPLETE is reachable within 17 transitions, and for each status the least number is known. |
| `Mission.HistoryIsPath` | backend/callswarm/orchestrator/state_machine.py:150-201 | The persisted history is a path of the table to the stored status, whatever the components propose and however they interleave. |
| `Mission.EveryExecutionAuthorized` | backend/callswarm/orchestrator/state_machine.py:60-62 | So every execution of every run had its own authorization. |
| `Mission.AuthorizedMeansApproved` | backend/callswarm/approvals/service.py:145-193 | A mission that ever was authorized holds an APPROVED approval, and some step of the run is the decision, taken in time on a pending approval, that it goes back to. |
| `Mission.BecomesApprovedIff` | backend/callswarm/approvals/service.py:153-176 | A step makes an approval APPROVED exactly when it decides so on it while pending and unexpired, or copies onto it an APPROVED, unexpired approval that covers it. |
| `Mission.ApprovedByDecision` | backend/callswarm/calls/patterns.py:237-263 | Every APPROVED approval of a run, copied or not, goes back to an approving decision of the run that was taken in time, with its time and expiry. |
| `Mission.DecisionsOnlyIff` | backend/callswarm/approvals/service.py:153-154 | Every APPROVED approval of a run was decided on exactly when no step of the run copies one. |
| `Mission.CopyIsReached` | backend/callswarm/calls/patterns.py:237-263 | A run in which an approval is APPROVED though nobody ever decided on it. |
| `Mission.LateDecisionIsRolledBack` | backend/callswarm/approvals/service.py:164-171 | A late decision changes nothing, and the approval is EXPIRED only once stale approvals are expired. |
| `Mission.StuckIff` | backend/callswarm/approvals/service.py:122-143 | A step leaves a mission waiting with nobody to answer exactly when it is the second half of a request on a ready plan with no approval pending and no operation under way. |
| `Mission.NeverStuckIff` | backend/callswarm/approvals/service.py:249-261 | In every interleaving, no point of a run is stuck exactly when no step of it is such a step. |
| `Mission.PendingWhileWaiting` | backend/callswarm/approvals/service.py:249-261 | Between operations, a waiting mission of such a run has a pending approval. |
| `Mission.LateRequestSticks` | backend/callswarm/approvals/service.py:122-142 | From any state with a ready plan and nothing pending or under way, a decision that lands between the two transactions of a request leads to such a step. |
| `Mission.StuckIsReached` | backend/callswarm/approvals/service.py:122-142 | A whole run, from the creation of the mission, that gets it stuck. |
| `Mission.ExpiryUnblocks` | backend/callswarm/approvals/service.py:195-227 | Once every pending approval is past its expiry, expire_stale moves a waiting mission on. |
| `Approvals.AdvanceConcludes` | backend/callswarm/approvals/service.py:249-261 | The advance operation is its transactions run without interference. |
| `Approvals.RequestConcludes` | backend/callswarm/approvals/service.py:111-143 | The request operation is its two transactions run without interference. |
| `Approvals.WaitingKeeps` | backend/callswarm/approvals/service.py:138-142 | Moving a ready plan to wait for a pending approval keeps the history a path, every authorization backed, and something to wait for. |
| `Approvals.ApprovalService.ProposeTransition` | backend/callswarm/orchestrator/state_machine.py:150-201 | Applied and recorded exactly when a trigger is given and the table allows it; refused without a trace. |
| `Approvals.ApprovalService.Request` | backend/callswarm/approvals/service.py:111-143 | Stores a pending approval with its expiry and moves a ready call plan to waiting. |
| `Approvals.ApprovalService.Decide` | backend/callswarm/approvals/service.py:145-193 | Decides exactly a pending, unexpired approval; a late decision changes nothing, its own expiry mark included. |
| `Approvals.ApprovalService.ExpireStale` | backend/callswarm/approvals/service.py:195-227 | Expires exactly the pending approvals past their time, and moves the mission if that leaves nothing pending. |
| `Approvals.ApprovalService.AdvanceMission` | backend/callswarm/approvals/service.py:249-261 | Authorizes on any approval granted, gives up when nothing is pending, else waits. |
| `Replan.TransitionsAllowed` | backend/callswarm/orchestrator/replan.py:84-90 | The state machine never refuses what a replan decision asks for. |
| `Replan.ValidateSound` | backend/callswarm/orchestrator/replan.py:293-369 | What validation lets through targets existing artifacts in a fitting state, and a call round needs permission, budget and open gaps; only an unaffordable call round is rewritten. |
| `Replan.VariedGrows` | backend/callswarm/orchestrator/replan.py:395-405 | A decision that passes the repeat guard never makes a run of equal action and target longer than the limit. |
| `Replan.NonProceedBounded` | backend/callswarm/orchestrator/replan.py:387-393 | Over a whole mission at most the limit of decisions do anything but proceed. |
| `Replan.LogGrows` | backend/callswarm/orchestrator/replan.py:387-405 | Both bounds survive every guarded decision; a created specialist is on record under an id no earlier decision can name. |
| `Replan.ReplanEngine.Propose` | backend/callswarm/orchestrator/replan.py:462-494 | Two attempts, then PROCEED; anything else is a validated proposal of the model. |
| `Replan.ReplanEngine.ExecuteChange` | backend/callswarm/orchestrator/replan.py:571-645 | Each action's effect on agents, strategies and mission status; only a specialist can be refused, and then nothing changes. |
| `Replan.ReplanEngine.Execute` | backend/callswarm/orchestrator/replan.py:556-569 | An applied change makes every plan option stale; PROCEED and a refusal touch none. |
| `Replan.ReplanEngine.Apply` | backend/callswarm/orchestrator/replan.py:497-554 | Appends one decision and leaves the replan status exactly when the action is not in place and was not refused. |
| `Replan.ReplanEngine.Decide` | backend/callswarm/orchestrator/replan.py:405-460 | A call terminates with the mission moved on, after at most MAX_ROUNDS in-place or refused decisions and one more; the log passes the limit exactly when it was full before the call or filled by such decisions, and then by one; everything recorded before stays. |
| `Replan.LimitPassedIff` | backend/callswarm/orchestrator/replan.py:22-25 | One call takes the log past the limit exactly when the limit was on record at its start or came on record with the mission still to be moved on, and then by one decision that proceeds. |
| `Replan.MissionLogBounded` | backend/callswarm/orchestrator/replan.py:22-25 | Over a mission, the log holds at most the limit and one decision for each call, and no more than the limit exactly when no call found or made it full too soon. |
| `Replan.PassLimit` | backend/callswarm/orchestrator/replan.py:405-460 | Whatever the model proposes, a mission that keeps coming back to replanning gets to exactly one decision more than its limit. |
| `EventStream.NeverTwice` | backend/callswarm/api/events.py:58-76 | For every interleaving, across any number of connections, the client receives strictly increasing ids behind its last event id. |
| `EventStream.NoGapEver` | backend/callswarm/api/events.py:58-76 | When commits and publishes follow the sequence, it has exactly every event up to the newest it received (section 9.2 of the WHATWG HTML Standard). |
| `EventStream.EverythingArrives` | backend/callswarm/api/events.py:58-76 | Once emits are through and the stream is drained it has every event after its start. |
| `EventStream.OvertakenNeverArrives` | backend/callswarm/api/events.py:73-74 | An event older than one received and not received itself never arrives, on any connection. |
| `EventStream.GapIffOvertaken` | backend/callswarm/api/events.py:58-76 | In any run, the client misses an event older than the last it received exactly when a row became visible at or below that id, or it received an event past a visible one it did not have. |
| `EventStream.LateCommitIsOvertaken` | backend/callswarm/events/emitter.py:39-45 | Whenever two emits under way commit in the wrong order while a client follows, the earlier event is dropped from its queue. |
| `EventStream.GapIsReached` | backend/callswarm/events/emitter.py:39-45 | A run from the beginning that leaves such a gap. |
| `EventStream.PublishOrderGap` | backend/callswarm/events/emitter.py:39-49 | Emits that commit one at a time and in order but publish in the other order leave such a gap too, with everything published and the stream drained. |
| `EventStream.GapNeedsDisorder` | backend/callswarm/events/emitter.py:39-49 | No gap without a commit or a publish ahead of an earlier event. |
| `EventStream.FollowedIncreasing` | backend/callswarm/api/events.py:66-76 | The queue loop sends only events above everything sent before. |
| `EventStream.FollowedComplete` | backend/callswarm/api/events.py:66-76 | It sends every event that is above all those before it. |
| `EventStream.Generate` | backend/callswarm/api/events.py:58-76 | The generator sends the replayed rows and then exactly the queued events above the last one sent. |
| `Emitter.FilterAscending` | backend/callswarm/persistence/repositories.py:428-440 | A selection of a log numbered in order is in order. |
| `Emitter.ActivityEventEmitter.Publish` | backend/callswarm/events/emitter.py:47-49 | Appends the event to every queue of its mission and to no other. |
| `Emitter.ActivityEventEmitter.Emit` | backend/callswarm/events/emitter.py:39-45 | Persists first, then publishes: no queue ever holds an event without its row. |
| `Emitter.ActivityEventEmitter.Subscribe` | backend/callswarm/events/emitter.py:51-55 | A new empty queue joins the mission, other missions are untouched. |
| `Emitter.ActivityEventEmitter.Unsubscribe` | backend/callswarm/events/emitter.py:57-60 | The queue leaves, and an empty set of queues is dropped. |
| `Emitter.ActivityEventEmitter.Replay` | backend/callswarm/events/emitter.py:65-69 | Exactly the mission's rows behind the given sequence, in order. |
| `PhoneMask.MatchIsLongest` | backend/callswarm/sanitize.py:28 | The left-to-right match is at least as long as any number starting there. |
| `PhoneMask.MatchIsPhone` | backend/callswarm/sanitize.py:28 | What it matches is a number by the declarative definition. |
| `PhoneMask.ScanFinds` | backend/callswarm/sanitize.py:59-60 | A text contains a number exactly when the scan finds one. |
| `PhoneMask.NothingSurvives` | backend/callswarm/sanitize.py:54-69 | For every text, replacing numbers by inert replacements leaves no number. |
| `PhoneMask.FailedStaysFailed` | backend/callswarm/sanitize.py:54-69 | A plus sign that did not start a number still does not after replacing further on. |
| `PhoneMask.MaskInert` | backend/callswarm/sanitize.py:47-51 | The mask starts no number, whatever follows it. |
| `PhoneMask.MaskHides` | backend/callswarm/sanitize.py:41-51 | At most five digits of a number are left in its mask. |
| `PhoneMask.MaskedHasNoPhone` | backend/callswarm/sanitize.py:54-56 | No number survives masking, and masking again changes nothing. |
| `PhoneMask.MaskedIfAny` | backend/callswarm/sanitize.py:54-56 | Masking changes a text exactly when it contains a number. |
| `PhoneMask.ReplacedHasNoPhone` | backend/callswarm/sanitize.py:63-69 | Nor does one survive a replacement without a plus sign that starts neither digit nor separator. |
| `PhoneMask.TaskTextHasNoPhone` | backend/callswarm/calls/calle.py:286-288 | The assertion behind the text handed to the call service cannot fail. |
| `PhoneMask.StoredNumberIsPhone` | backend/callswarm/models/calls.py:21 | Every stored recipient number is one of the numbers meant, in whatever decimal digits. |
| `Keys.NormalizeIsNormal` | backend/callswarm/evidence/normalize.py:15-18 | Normal keys are words of letters and digits joined by single underscores, and normalizing again changes nothing. |
| `Keys.MatchesByNormalForm` | backend/callswarm/orchestrator/revision.py:84-91 | Whether a key occurs in a text depends on its normal form only. |
| `Keys.KeyMatchesItself` | backend/callswarm/orchestrator/revision.py:84-91 | A key occurs in itself exactly when its normal form is not empty. |
| `Revision.ApplyChangeToSpec` | backend/callswarm/orchestrator/revision.py:155-201 | The loops compute the changed spec and the changed keys of the specification functions. |
| `Revision.ChangedKeysKnown` | backend/callswarm/orchestrator/revision.py:165-187 | Every changed key is, up to normalization, a key of the new spec. |
| `Revision.UnchangedUnlessReported` | backend/callswarm/orchestrator/revision.py:165-187 | Whatever is not reported as changed kept its value or weight. |
| `Revision.LockedMeaning` | backend/callswarm/orchestrator/revision.py:188-191 | A component is locked afterwards exactly when it is locked now or was locked and not unlocked. |
| `Revision.BuildDependencyGraph` | backend/callswarm/orchestrator/revision.py:123-149 | Every artifact gets its dependencies, and owners are exactly the agents in whose name or field a known component occurs. |
| `Revision.LookupIsDirect` | backend/callswarm/orchestrator/revision.py:94-121 | The graph lookup agrees with the direct definition: some changed key occurs in one of the texts. |
| `Revision.PlanLookupIsDirect` | backend/callswarm/orchestrator/revision.py:144-148 | A plan is hit exactly when a changed key is one it was evaluated against or one of its components. |
| `Revision.OwnershipIsDirect` | backend/callswarm/orchestrator/revision.py:141-143 | Ownership through normalized component names is ownership of the locked components themselves. |
| `Revision.GraphAnswers` | backend/callswarm/orchestrator/revision.py:263-272 | All answers taken from the graph are the direct definitions. |
| `Revision.ReviseAll` | backend/callswarm/orchestrator/revision.py:281-346 | Exactly the dependent strategies, plans and runs go stale; an agent is re-queued exactly when it depends on a changed key, owns no locked component and is not STOPPED, WORKING or READY. |
| `Revision.RevisionService.Apply` | backend/callswarm/orchestrator/revision.py:239-366 | Goes through exactly in a revisable status with a spec; then the rows are the revised ones and the report lists exactly those that went stale or were re-queued; otherwise nothing changes. |
| `Selection.PriorityInRange` | backend/callswarm/calls/scoring.py:64-75 | Scores lie in [0, 1]. |
| `Selection.PriorityMonotone` | backend/callswarm/calls/scoring.py:64-75 | More of any benefit or less of any penalty never lowers the score. |
| `Selection.SelectCalls` | backend/callswarm/calls/scoring.py:117-185 | The loop, sort and cut compute the selection of the specification functions. |
| `Selection.SelectionPartitions` | backend/callswarm/calls/scoring.py:136-185 | Every intent is ranked or refused for its reason, every ranked one selected or over budget, and the counts add up. |
| `Selection.SelectedNotRejected` | backend/callswarm/calls/scoring.py:127-129 | No intent is both selected and rejected. |
| `Selection.SelectionIsBest` | backend/callswarm/calls/scoring.py:175-176 | The selected are as many eligible intents as the cap allows, by score descending and id ascending, and none is behind an eligible one left out. |
| `Selection.OrderDoesNotMatter` | backend/callswarm/calls/scoring.py:175-185 | Permuting the input changes neither the selected sequence nor who is rejected and why. |

## Left out

- Routing, SSE wire format, HTTP transport and error mapping, polling back-off and event paging: plumbing around the steps that are modelled.
- Prompts, model providers, web fetching, research deduplication and the token-overlap measure: a proposal or a score is an arbitrary input.
- SQL mapping and database failures between commits: a repository is a map, a session a transaction, and only the failures the code handles are steps.
- The agent concurrency limit: a semaphore only removes interleavings, and the scheduler is proved for all of them.
- Wording of activity events and of reasons, except where a reason is a case of the result.
- `strategy_id` of a validated agent, and the order in which JSON objects list their keys: error lists follow ascending key order.
- The order in which claims are listed: reconciliation is proved for every listing, so it is not fixed.
- The `claims` list returned by ingest, the trace and the paging queries: statements are about the store.
- `sanitize_value` and the reasoning-leak markers: dictionary keys that collide after masking make its result depend on insertion order.
- Quiet hours, allow lists, suppression and time zones of the call gate: single conditions checked before the steps that are modelled.
- Floating-point rounding of scores: arithmetic is over the reals, with rounding as a monotone function that fixes 0 and 1.
- Recipient results and transcripts of a call run: one opaque field stands for what promotion copies unchanged.
- EvidenceEngine.RunFlags: assumes ingested claims carry no inherited lineage, because ingest stores whatever it is given and only derive computes it.
- EventStream.NoGapEver: assumes ordered commits and publishes; without them the code does lose events, and `GapIffOvertaken` says exactly when.
- GreatestTeam.TeamsGreatestIff: for texts with further names and ownership statements to draw on, because a normalization with hardly any values cannot name enough proposals to fail. For a single list, `SettledTeamIsGreatest` gives a sufficient condition only.
