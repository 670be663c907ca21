# Desktop agent: stateful algorithms and their whole-run properties

This project models the small stateful algorithms inside the desktop agent and proves what
each of them promises over every input, every interleaving and every run.

An asynchronous method is modelled as atomic steps cut at its awaits, and a run is any order of
enabled steps. The clock is a parameter. Encryption, JSON, leases, redaction and the scheduler are
parameters too: an inverse pair, a predicate, a reply. Each in-place algorithm is a class or a
method with loops, proved equal to a function on values; the theorems are about those functions.

| file | what it covers |
|---|---|
| `Graph.dfy`, `DagParser.dfy` | the planner: tiers of a dependency multigraph, and the layered Kahn sort that computes them |
| `StepContext.dfy`, `Templates.dfy`, `Payloads.dfy` | template substitution and the payload of a node: what it depends on, and what it holds |
| `WorkflowEngine.dfy`, `WorkflowCancellation.dfy`, `WorkflowConfluence.dfy`, `WorkflowPipeline.dfy` | the tier-by-tier engine: dependency safety, compensation, cancellation, schedule independence, planner to runtime |
| `ExecutionQueue.dfy` (module `FairQueue`) | five lanes, per-tenant round-robin, quotas, aging, expiry |
| `StateStore.dfy` | the encrypted store as a disk protocol with crashes |
| `ReplayGate.dfy`, `Orchestrator.dfy`, `CancelRace.dfy` | the replay cache, the concurrency reservation, the lock around status changes, cancel against complete |
| `MemoryCache.dfy` | the bounded cache with four secondary indexes |
| `ApprovalHost.dfy` | one approval prompt under racing calls |
| `Framing.dfy`, `RateLimiter.dfy` | IPC framing over arbitrary chunks, the sliding-window limiter |
| `Notifications.dfy` | the two-threshold notification queue |
| `Collections.dfy`, `WorkflowTypes.dfy` | shared vocabulary |

"Completed" means recorded in `completedNodes`; a scheduler reply of QUEUED counts as success.

## What the code does not promise

Where a property fails in the code, the code is kept as it is: a lemma shows a run or a state in
which it fails, and an equivalence says exactly when it holds.

- A cancelled workflow can still end Failed or Completed, because the status is looked at only before
  a tier (`WorkflowCancellation.CancelCanBeOverwritten`). `CanceledIsFinalExactly`: it stays cancelled
  if and only if no tier past its check can still reach a join that ends the workflow.
- The backup step of the state store checks only that the primary decrypts. A primary that decrypts
  but holds a damaged record is copied over a good last-known-good file (`BackupCanLoseTheLKG`);
  `CrashBeforeRename` gives the exact condition, and `LoadIsRestartable` what it means for loads.
- The flush limits the text, the load limits the sealed file. Under a small limit a state is written
  that cannot be read (`SmallLimitLosesEmptyStore`). `RenamedIsNew`, `CrashAtomicity` and
  `HistoryRecoversCommitted` are equivalences; from a limit of 377 bytes on the problem cannot occur
  (`AmpleLimits`, `AmpleHistoryRecovers`).
- A cancel that lands while the first checkpoint is written is overwritten when the execution takes
  the approval detour (`ApprovalCanOverwriteCancel`); `CancelRulesOutCompleted` shows that this is
  exactly the case in which it can.
- When that checkpoint write throws, the execution is over but its record stays Running, and a later
  cancel succeeds (`CrashLeavesCancellable`); `EndedCannotBeCanceled` is the equivalence.
- A cancelled prompt can become approved when the cancel falls into the lease check
  (`CancelledCanBecomeApproved`); `FinalExactlyWhenQuiet` is the exact condition.
- After a failed lease check the registered waiter is left unanswered (`FailedLeaseStrandsWaiter`);
  `StrandedWaiter` says exactly what can still answer it.
- A tenant with the empty id can be served twice in a row (`EmptyTenantTwice`); `SameTenantAgain` and
  `NoTenantTwiceInARow` are equivalences.
- Chunks of up to max - 2 bytes can trip the buffer guard on a legal stream (`GuardIsTight`), so
  the bound max - 3 of `ChunkIndependence` is the best possible.
- An update that lowers the priority of an important notification lets arrivals evict it, in every
  queue; `LoweringUpdateCanLose` is an equivalence.

## Model

| member | source | states |
|---|---|---|
| `Graph.TierIsLongestChain` | apps/desktop-agent/src/workflow/dag-parser.ts:146-179 | The tier number of a node is the number of arcs on the longest dependency chain ending at it: a chain that long exists and none is longer. |
| `Graph.TiersAreMinimal` | apps/desktop-agent/src/workflow/dag-parser.ts:146-179 | Any assignment of levels that grows along every arc puts a node at least at its tier number, so no layering has fewer tiers. |
| `Graph.ParentTier` | apps/desktop-agent/src/workflow/dag-parser.ts:157-179 | Every dependency of a node lies in a strictly earlier tier. |
| `Graph.BlockingParent` | apps/desktop-agent/src/workflow/dag-parser.ts:157-179 | A node past the first tier has a parent in the tier just before: it could not have run earlier. |
| `Graph.PlanIsAcyclic` | apps/desktop-agent/src/workflow/dag-parser.ts:181-193 | If every node gets a tier, the graph has no cycle. |
| `Graph.LeftoverHasCycle` | apps/desktop-agent/src/workflow/dag-parser.ts:181-187 | When the sort stops early, the nodes left over contain a real cycle, all of whose nodes are left over. |
| `Graph.TierNumbers` | apps/desktop-agent/src/workflow/dag-parser.ts:146-193 | The nodes of a complete plan have tier numbers: exactly one each, matching membership in the tiers, growing along arcs. |
| `DagParser.CheckNodes` | apps/desktop-agent/src/workflow/dag-parser.ts:61-89 | The node loop reports the first error in reading order, or the set of node ids. |
| `DagParser.AddArc` | apps/desktop-agent/src/workflow/dag-parser.ts:102-143 | One arc is refused for an unknown end or a self-loop, in that order; otherwise adjacency lists and in-degrees represent the arcs read so far plus this one. |
| `DagParser.AddDependencies` | apps/desktop-agent/src/workflow/dag-parser.ts:100-122 | Reading all dependencies arrays gives the first error of the whole list of arcs, or a faithful adjacency and in-degree table of it. |
| `DagParser.AddEdges` | apps/desktop-agent/src/workflow/dag-parser.ts:124-144 | Reading the edges array extends the table by the edges, repeats kept, or gives the first edge error. |
| `DagParser.Release` | apps/desktop-agent/src/workflow/dag-parser.ts:166-177 | After the children loop each in-degree is down by the number of arcs, and exactly the nodes that reached zero joined the queue, once each. |
| `DagParser.ProcessTier` | apps/desktop-agent/src/workflow/dag-parser.ts:157-179 | One round leaves the in-degrees counting only unprocessed parents, and the next queue is exactly the set of nodes whose parents are all processed. |
| `DagParser.InitialQueue` | apps/desktop-agent/src/workflow/dag-parser.ts:146-152 | The first queue holds exactly the nodes without parents, once each. |
| `DagParser.KahnSort` | apps/desktop-agent/src/workflow/dag-parser.ts:146-179 | The whole sort ends, layers the graph, stops only when nothing is ready, and its order is the concatenation of the tiers. |
| `DagParser.CountDecides` | apps/desktop-agent/src/workflow/dag-parser.ts:181-187 | Comparing the length of the order with the number of nodes decides acyclicity. |
| `DagParser.OrderIsDistinct` | apps/desktop-agent/src/workflow/dag-parser.ts:146-179 | The concatenated tiers visit every covered node exactly once. |
| `DagParser.StructuralCycleIsReal` | apps/desktop-agent/src/workflow/dag-parser.ts:100-143 | A cycle reported while reading arcs is a real self-loop. |
| `DagParser.ArcMeaning` | apps/desktop-agent/src/workflow/dag-parser.ts:100-143 | An arc of the graph is an edge read from fromNodeId to toNodeId, or a dependency read from the listed node to the lister. |
| `DagParser.PlanRespectsOrder` | apps/desktop-agent/src/workflow/dag-parser.ts:146-193 | In a complete plan edges lead to strictly later tiers and dependencies come from strictly earlier ones. |
| `DagParser.PlanHasNoSlack` | apps/desktop-agent/src/workflow/dag-parser.ts:146-193 | Every node past the first tier has a dependency, or the source of an edge into it, in the tier just before. |
| `DagParser.StructureMeaning` | apps/desktop-agent/src/workflow/dag-parser.ts:18-144 | The structural checks pass exactly the workflows with an id, 1 to max nodes, distinct non-empty node ids, capabilities, and edges and dependencies between two different known nodes. |
| `DagParser.StructuralErrorIsTrue` | apps/desktop-agent/src/workflow/dag-parser.ts:18-144 | Whatever structural error is reported is there. |
| `DagParser.SortOrReject` | apps/desktop-agent/src/workflow/dag-parser.ts:146-193 | The sort is accepted exactly when the arcs have no cycle. |
| `DagParser.ParseAndValidate` | apps/desktop-agent/src/workflow/dag-parser.ts:18-193 | The answer is valid exactly when the workflow is sound and has no cycle. A valid answer runs every edge's source and every dependency in a strictly earlier tier, holds every node back only by a node of the tier just before, and orders every node once; an error code tells the truth about the workflow, structural errors first, in order. |
| `StepContext.ResolveReadsOnlyRefs` | apps/desktop-agent/src/workflow/step-context.ts:120-218 | Substitution gives equal results on any two output maps that agree on the nodes its templates name. |
| `StepContext.RejectionIgnoresOutputs` | apps/desktop-agent/src/workflow/step-context.ts:120-218 | Whether substitution throws depends on the template alone, never on the outputs. |
| `StepContext.PayloadReadsOnly` | apps/desktop-agent/src/workflow/step-context.ts:96-113 | A payload is determined by the outputs of the dependencies and of the nodes its templates name. |
| `Templates.SingleTemplate` | apps/desktop-agent/src/workflow/step-context.ts:147-171 | A string that is one template, with white space around it at most, becomes the value at the end of the key path in that node's output; it stays as it is when the node or a member is missing. |
| `Templates.EmbeddedTemplate` | apps/desktop-agent/src/workflow/step-context.ts:175-196 | A template inside other text is replaced by the rendering of its value, with the text around it unchanged. |
| `Templates.FilledTemplates` | apps/desktop-agent/src/workflow/step-context.ts:128-196 | Any number of templates among text are filled in one by one, and text without templates stays. |
| `Templates.NavigateFollows` | apps/desktop-agent/src/workflow/step-context.ts:156-169 | Walking a dotted key path reaches the member of the member. |
| `Templates.SplitJoin` | apps/desktop-agent/src/workflow/step-context.ts:156-156 | A dotted key splits into exactly the names it was joined from. |
| `Payloads.RefIsExact` | apps/desktop-agent/src/workflow/step-context.ts:140-149 | An expression is read as nodes.<id>.output.<key> in one way only, with id and key of the allowed characters. |
| `Payloads.BadTemplateThrows` | apps/desktop-agent/src/workflow/step-context.ts:128-145 | Anything else between double braces makes the substitution throw, and so does a part that reaches the prototype. |
| `Payloads.ItemsResolve` | apps/desktop-agent/src/workflow/step-context.ts:199-201 | An array resolves element by element. |
| `Payloads.FieldsResolve` | apps/desktop-agent/src/workflow/step-context.ts:203-214 | An object keeps its keys and resolves their values; a key that reaches the prototype makes it throw. |
| `Payloads.PlainIsUnchanged` | apps/desktop-agent/src/workflow/step-context.ts:120-218 | A value without double braces and without such keys stays as it is. |
| `Payloads.ParentOutputsHold` | apps/desktop-agent/src/workflow/step-context.ts:100-108 | The parents' outputs are exactly the outputs of the listed dependencies that have one. |
| `Payloads.PayloadHolds` | apps/desktop-agent/src/workflow/step-context.ts:96-113 | A payload holds each raw field with its templates filled in, and _dependencyOutputs when dependencies are listed. |
| `Payloads.PlainPayloadHolds` | apps/desktop-agent/src/workflow/step-context.ts:96-113 | A raw payload without templates is always built, and holds exactly its own fields besides _dependencyOutputs. |
| `StepContext.WorkflowStepContext.SetNodeOutput` | apps/desktop-agent/src/workflow/step-context.ts:24-62 | An acceptable output is stored under its node and nothing else changes; what is not an object is passed over, and an output that throws leaves the context unchanged. |
| `StepContext.WorkflowStepContext.BuildNodeExecutionPayload` | apps/desktop-agent/src/workflow/step-context.ts:96-113 | The loop over the dependencies computes the payload that the substitution lemmas speak about. |
| `WorkflowEngine.StepKeepsInv` | apps/desktop-agent/src/workflow/workflow-engine.ts:426-612 | Every atomic step, a rejecting checkpoint write, scheduler or lease check included, keeps the tier discipline, the node lists, completion order, dispatch safety and the compensation record. |
| `WorkflowEngine.RunKeepsInv` | apps/desktop-agent/src/workflow/workflow-engine.ts:426-612 | So does every interleaving of any length. |
| `WorkflowEngine.DependencySafety` | apps/desktop-agent/src/workflow/workflow-engine.ts:525-556 | On every interleaving a node is handed to the scheduler only when all its parents, by dependency or edge, are in completedNodes, with the payload built from the outputs of that moment. |
| `WorkflowEngine.CompensatedAfterDescendants` | apps/desktop-agent/src/workflow/workflow-engine.ts:577-612 | On every interleaving, when compensation visits a node, every completed descendant has been visited before. |
| `WorkflowEngine.CompensationIsExact` | apps/desktop-agent/src/workflow/workflow-engine.ts:577-612 | On every interleaving: once a failed run has finished, exactly the completed nodes whose compensation payload can be built were compensated with it, each once, last completed first, and no failed node; a finished run that did not fail compensated nothing. |
| `WorkflowEngine.NodesArePartitioned` | apps/desktop-agent/src/workflow/workflow-engine.ts:533-572 | At every suspension point a node that has not thrown is in exactly one of pending, active, completed and failed. |
| `WorkflowEngine.StartsOnlyWithLease` | apps/desktop-agent/src/workflow/workflow-engine.ts:450-469 | A node leaves the idle state only on a valid lease reply for its own tier. |
| `WorkflowEngine.LeasesOnlyInTime` | apps/desktop-agent/src/workflow/workflow-engine.ts:435-451 | The lease is asked for only after a check in time of a workflow that is not cancelled. |
| `WorkflowEngine.CheckDecides` | apps/desktop-agent/src/workflow/workflow-engine.ts:435-448 | A late check expires the workflow, a check after a cancel stops it, any other goes on to the lease. |
| `WorkflowEngine.CancelTakesEffect` | apps/desktop-agent/src/workflow/workflow-engine.ts:87-147 | A cancel of a running workflow takes effect at once, and no node beyond the tier already past its check has started. |
| `WorkflowEngine.CancelCutoff` | apps/desktop-agent/src/workflow/workflow-engine.ts:435-448 | Once stopped, no node of a later tier ever starts, whatever happens next. |
| `WorkflowEngine.CancelIsFinalForLaterTiers` | apps/desktop-agent/src/workflow/workflow-engine.ts:435-448 | Whole run: whatever happens before and after a cancel of a running workflow, no node of a tier that had not passed its check ever starts. |
| `WorkflowCancellation.CanceledIsFinalExactly` | apps/desktop-agent/src/workflow/workflow-engine.ts:435-490 | From any state of a cancelled workflow: it stays Canceled or Expired over every continuation if and only if no tier that has passed its check can still reach a join that ends the workflow (all its nodes buildable and not thrown, and one of them can fail or the tier is the last). |
| `WorkflowCancellation.CancelCanBeOverwritten` | apps/desktop-agent/src/workflow/workflow-engine.ts:466-490 | For every one-tier workflow of buildable nodes there is a run in which the cancel succeeds and both Failed and Completed can still follow. |
| `WorkflowEngine.WorkflowExecution.CancelWorkflow` | apps/desktop-agent/src/workflow/workflow-engine.ts:87-147 | A foreign tenant is refused; otherwise only a running workflow becomes canceled, and the answer is true when the workflow is canceled afterwards. |
| `WorkflowEngine.WorkflowExecution.StartTier` | apps/desktop-agent/src/workflow/workflow-engine.ts:466-469 | Starting a tier moves exactly its nodes from pending to active, in tier order, before anything is awaited. |
| `WorkflowEngine.WorkflowExecution.Submit` | apps/desktop-agent/src/workflow/workflow-engine.ts:537-552 | The second stretch of a node builds its payload from the current outputs and hands it over, or rejects. |
| `WorkflowEngine.WorkflowExecution.Record` | apps/desktop-agent/src/workflow/workflow-engine.ts:554-574 | The third stretch moves the node from active to completed, with its output if one is stored, or to failed. |
| `WorkflowEngine.WorkflowExecution.ExecuteCompensation` | apps/desktop-agent/src/workflow/workflow-engine.ts:577-612 | The loop visits the completed nodes backwards and hands over the compensation payload of each that has one. |
| `WorkflowConfluence.RefinesReference` | apps/desktop-agent/src/workflow/workflow-engine.ts:426-575 | Every interleaving that completes or fails ends with the verdict and the outputs of a sequential tier-by-tier evaluation, and dispatches that evaluation's payloads. |
| `WorkflowConfluence.ReturnedOutputsAreReference` | apps/desktop-agent/src/workflow/workflow-engine.ts:466-488 | Once a tier has returned, failed or not, the outputs are those of all nodes that succeeded up to and including it, whatever the order of replies. |
| `WorkflowConfluence.Confluence` | apps/desktop-agent/src/workflow/workflow-engine.ts:466-562 | Any two interleavings give a node the same payload, and two that complete or fail agree on which and on the final output map. |
| `WorkflowConfluence.TemplatesReadOnlyTheirRefs` | apps/desktop-agent/src/workflow/step-context.ts:96-218 | With the real template code, payloads read only what the engine's theorem allows. |
| `WorkflowConfluence.CompensationIsFixed` | apps/desktop-agent/src/workflow/step-context.ts:96-218 | With the real template code, whether a node can be compensated does not depend on the outputs. |
| `WorkflowConfluence.BuildingIsFixed` | apps/desktop-agent/src/workflow/step-context.ts:96-218 | With the real template code, whether a payload can be built does not depend on the outputs. |
| `WorkflowPipeline.AcceptedWorkflow` | apps/desktop-agent/src/workflow/workflow-engine.ts:270-341 | A workflow that passed the parser meets every assumption of the engine theorems; templates that name only earlier tiers give the data assumption. |
| `WorkflowPipeline.AssembledFaithfully` | apps/desktop-agent/src/workflow/workflow-engine.ts:525-612 | The engine builds and undoes what each node itself says: no compensation without a compensationPayload, and payloads as the payload lemmas describe. |
| `WorkflowPipeline.StoredFaithfully` | apps/desktop-agent/src/workflow/workflow-engine.ts:556-562 | A result without output is stored as the empty object, an object or array as its sanitized copy, other scalars not at all, and an object with a dangerous key makes the node throw. |
| `WorkflowPipeline.CompensationIsFaithful` | apps/desktop-agent/src/workflow/workflow-engine.ts:577-612 | A finished failed run compensated only completed nodes that carry a compensationPayload, with that payload, each once, and every one whose payload is plain. |
| `WorkflowPipeline.PlannerToRuntime` | apps/desktop-agent/src/workflow/workflow-engine.ts:270-341 | Whatever the parser accepts runs faithfully on every interleaving: edges and dependencies first, every node with its own payload, and after a failure the completed nodes that carry a compensation payload undone with it, every such node with a plain payload exactly once. If its templates look back, every two interleavings agree on payloads, verdict and outputs. |
| `FairQueue.FindRoundRobinIndex` | apps/desktop-agent/src/scheduler/execution-queue.ts:199-229 | The computed index is that of the first item of the tenant after the last served one, in order of first appearance, wrapping to the front; -1 for an empty lane. |
| `FairQueue.UniqueTenants` | apps/desktop-agent/src/scheduler/execution-queue.ts:199-210 | The tenant list holds each tenant once, by first appearance. |
| `FairQueue.SameTenantAgain` | apps/desktop-agent/src/scheduler/execution-queue.ts:199-229 | The tenant just served is served again exactly when it is alone in the lane, or its id is empty. |
| `FairQueue.NoTenantTwiceInARow` | apps/desktop-agent/src/scheduler/execution-queue.ts:48-83 | Two services of a lane with any run without such a service in between go to the same tenant exactly when no other tenant waits, or the tenant has the empty id and is at the front. |
| `FairQueue.EmptyTenantTwice` | apps/desktop-agent/src/scheduler/execution-queue.ts:199-229 | A run from empty in which the tenant with the empty id is served twice although another tenant waits. |
| `FairQueue.ServedIndexGrowsOrWraps` | apps/desktop-agent/src/scheduler/execution-queue.ts:199-229 | The served index lies beyond every index already passed, or is 0. |
| `FairQueue.RunGrowsOrWraps` | apps/desktop-agent/src/scheduler/execution-queue.ts:48-83 | Over a whole run the served indices of a lane strictly grow until they wrap to 0. |
| `FairQueue.BypassRanking` | apps/desktop-agent/src/scheduler/execution-queue.ts:48-83 | Ranking argument: with the cursor at c, an item at pos has been served after pos * L + L - c services. |
| `FairQueue.BoundedBypass` | apps/desktop-agent/src/scheduler/execution-queue.ts:48-83 | In a lane never longer than L that changes only by appends and services, the item at pos is served within (pos + 1) * L services, the oldest within L. |
| `FairQueue.FollowTracksItem` | apps/desktop-agent/src/scheduler/execution-queue.ts:48-83 | The bookkeeping of the bound is sound: until it is served, the item really is where the indices say. |
| `FairQueue.StepKeepsInv` | apps/desktop-agent/src/scheduler/execution-queue.ts:29-197 | Every operation keeps total size within capacity + 10, non-critical items within capacity and quota, and every tag equal to its lane. |
| `FairQueue.EveryRunFromEmpty` | apps/desktop-agent/src/scheduler/execution-queue.ts:29-197 | These bounds hold after every run from empty. |
| `FairQueue.DequeueConserves` | apps/desktop-agent/src/scheduler/execution-queue.ts:48-83 | A dequeue removes exactly the served item, or changes nothing. |
| `FairQueue.PruneConserves` | apps/desktop-agent/src/scheduler/execution-queue.ts:167-182 | Pruning splits the queue into expired and live items without loss, keeping order. |
| `FairQueue.AgingConserves` | apps/desktop-agent/src/scheduler/execution-queue.ts:184-197 | Aging moves exactly the over-age normal items, in order, to the end of the interactive lane. |
| `FairQueue.PrunedMeaning` | apps/desktop-agent/src/scheduler/execution-queue.ts:167-182 | Pruning takes exactly the items whose expiry time is before now. |
| `FairQueue.ServesHighestLane` | apps/desktop-agent/src/scheduler/execution-queue.ts:48-83 | What is served comes from the highest lane with an eligible item. |
| `FairQueue.RemovalMeaning` | apps/desktop-agent/src/scheduler/execution-queue.ts:117-139 | A removal without a tenant takes an item exactly when some lane holds the id; with a tenant, never another tenant's. |
| `FairQueue.ServedLaneMeaning` | apps/desktop-agent/src/scheduler/execution-queue.ts:48-83 | Critical before interactive before normal before due retries before background: the served lane is the first with something to serve. |
| `FairQueue.ServedRetryIsDue` | apps/desktop-agent/src/scheduler/execution-queue.ts:62-70 | The retry item served has a nextRetryAt that is unset, zero or not after now, and every retry item before it must still wait. |
| `FairQueue.NothingServedMeaning` | apps/desktop-agent/src/scheduler/execution-queue.ts:48-83 | Nothing is served exactly when the other four lanes are empty and every retry item has a non-zero nextRetryAt after now. |
| `FairQueue.ExecutionQueue.GetTenantCount` | apps/desktop-agent/src/scheduler/execution-queue.ts:151-161 | The count is the number of items of the tenant over all lanes. |
| `FairQueue.ExecutionQueue.Enqueue` | apps/desktop-agent/src/scheduler/execution-queue.ts:29-46 | An item is appended to its lane exactly when capacity (with 10 reserved for critical) and quota allow. |
| `FairQueue.ExecutionQueue.FindEligible` | apps/desktop-agent/src/scheduler/execution-queue.ts:48-115 | The index a lane would serve: the first due item in the retry lane, round-robin elsewhere. |
| `FairQueue.ExecutionQueue.Dequeue` | apps/desktop-agent/src/scheduler/execution-queue.ts:48-83 | Returns and removes the served item and remembers its tenant for the lane; a retry item only when its time has come. |
| `FairQueue.ExecutionQueue.Peek` | apps/desktop-agent/src/scheduler/execution-queue.ts:85-115 | Answers exactly what a dequeue at the same time would return. |
| `FairQueue.ExecutionQueue.Remove` | apps/desktop-agent/src/scheduler/execution-queue.ts:117-139 | Removes the first item with the id in lane order, unless a tenant is named and it is not the owner. |
| `FairQueue.ExecutionQueue.PruneExpired` | apps/desktop-agent/src/scheduler/execution-queue.ts:167-182 | Returns the expired items and keeps the rest of every lane in order. |
| `FairQueue.SplitExpired` | apps/desktop-agent/src/scheduler/execution-queue.ts:171-180 | One pass splits a lane into expired and live items, both in order. |
| `FairQueue.AgingKeepsInv` | apps/desktop-agent/src/scheduler/priority-policy.ts:24-26 | Promotion by age relabels and moves items without breaking capacity, quota or tags. |
| `FairQueue.AgedMeaning` | apps/desktop-agent/src/scheduler/priority-policy.ts:24-26 | An item leaves the normal lane exactly when it is a normal item that has been queued for at least the threshold. |
| `FairQueue.ExecutionQueue.ApplyAging` | apps/desktop-agent/src/scheduler/execution-queue.ts:184-197 | The loop computes that promotion. |
| `StateStore.CrashBeforeRename` | apps/desktop-agent/src/state/encrypted-state-store.ts:179-218 | A crash at any point before the rename recovers what a load would have recovered before the flush, if and only if the backup cannot copy an unloadable primary over something better. |
| `StateStore.RenamedIsNew` | apps/desktop-agent/src/state/encrypted-state-store.ts:179-220 | Once the rename is done a load yields the new records, if and only if the sealed file is within the read limit or the last-known-good file holds the same records. |
| `StateStore.CrashAtomicity` | apps/desktop-agent/src/state/encrypted-state-store.ts:179-293 | Old or new: after a crash at any micro-step of a flush a load yields the old state before the rename and the new one after it, if and only if the backup is safe and the new state reads back. |
| `StateStore.AmpleLimitReads` | apps/desktop-agent/src/state/encrypted-state-store.ts:183-190 | If the largest accepted text seals to an accepted file, whatever is flushed can be read. |
| `StateStore.AmpleLimits` | apps/desktop-agent/src/state/encrypted-state-store.ts:183-253 | Every limit from 377 bytes on is of that kind; 376 is not. |
| `StateStore.UnreadableIsLost` | apps/desktop-agent/src/state/encrypted-state-store.ts:245-253 | A set over the read limit is lost by the first flush of a new store. |
| `StateStore.SmallLimitLosesEmptyStore` | apps/desktop-agent/src/state/encrypted-state-store.ts:183-253 | Counterexample: with a limit of 100 bytes even the empty store is written but cannot be loaded. |
| `StateStore.BackupCanLoseTheLKG` | apps/desktop-agent/src/state/encrypted-state-store.ts:199-213 | Counterexample: a primary that decrypts but holds a damaged record replaces a good last-known-good file. |
| `StateStore.DamagedPrimaryKeepsLKG` | apps/desktop-agent/src/state/encrypted-state-store.ts:199-213 | A primary that does not decrypt never reaches the last-known-good file. |
| `StateStore.FallsBackToPrevious` | apps/desktop-agent/src/state/encrypted-state-store.ts:126-164 | After flushes S1 then S2, a primary that is missing or damaged in any way falls back to S1. |
| `StateStore.SalvageIsGood` | apps/desktop-agent/src/state/encrypted-state-store.ts:145-156 | What a restore keeps is a good record set under distinct keys. |
| `StateStore.PutPuts` | apps/desktop-agent/src/state/encrypted-state-store.ts:86-86 | A saved record stands at its old place, or at the end when the key is new, and every other record is unchanged. |
| `StateStore.LastOneWins` | apps/desktop-agent/src/state/encrypted-state-store.ts:145-156 | Reading records one by one keeps, under each key, the last one read. |
| `StateStore.SalvageMeaning` | apps/desktop-agent/src/state/encrypted-state-store.ts:145-156 | A restore keeps, under each key, the last record that passes schema and checksum. |
| `StateStore.LoadsMeaning` | apps/desktop-agent/src/state/encrypted-state-store.ts:245-281 | A primary loads exactly when it decrypts to an array within the size limit whose records all pass schema and checksum. |
| `StateStore.RecoveredIsIntact` | apps/desktop-agent/src/state/encrypted-state-store.ts:222-293 | Whatever a load yields passed schema and checksum, record by record. |
| `StateStore.SavedIsRecovered` | apps/desktop-agent/src/state/encrypted-state-store.ts:44-87 | After a save that fits and is readable, a load finds the saved data under the key. |
| `StateStore.ValidKeyMeaning` | apps/desktop-agent/src/state/encrypted-state-store.ts:45-51 | A key needs something besides white space, at most 256 characters, and no null character. |
| `StateStore.PrimaryChangesLast` | apps/desktop-agent/src/state/encrypted-state-store.ts:195-219 | Up to the rename every micro-step leaves the primary alone, and the rename follows the complete temporary file. |
| `StateStore.LoadIsRestartable` | apps/desktop-agent/src/state/encrypted-state-store.ts:222-293 | A load may be cut short at any micro-step and loading again gives the same records, exactly unless it restores over a primary that still decrypts. |
| `StateStore.HistoryRecoversCommitted` | apps/desktop-agent/src/state/encrypted-state-store.ts:126-293 | Over every history of flushes, loads and crashes: at every point a load yields the last committed record set, if and only if every committed set is within the read limit. |
| `StateStore.AmpleHistoryRecovers` | apps/desktop-agent/src/state/encrypted-state-store.ts:126-293 | Under an ample limit, so from 377 bytes on, that holds for every history. |
| `StateStore.KeepIntact` | apps/desktop-agent/src/state/encrypted-state-store.ts:145-156 | The restore loop keeps the intact records, a later one replacing an earlier one under its key. |
| `StateStore.ReadAll` | apps/desktop-agent/src/state/encrypted-state-store.ts:262-281 | The loading loop fails at the first record that does not pass schema and checksum, and otherwise reads them all. |
| `StateStore.EncryptedStateStore.FlushInternal` | apps/desktop-agent/src/state/encrypted-state-store.ts:179-220 | A flush that fits ends on the last disk of the crash trace; one that does not leaves the disk alone. |
| `StateStore.EncryptedStateStore.RestoreLKG` | apps/desktop-agent/src/state/encrypted-state-store.ts:126-164 | A restore succeeds exactly on a usable file, keeps its intact records and makes them the new primary. |
| `StateStore.EncryptedStateStore.LoadFromDisk` | apps/desktop-agent/src/state/encrypted-state-store.ts:222-293 | A load answers what recovery of the disk says and ends on the last disk of its crash trace. |
| `StateStore.EncryptedStateStore.SaveRecord` | apps/desktop-agent/src/state/encrypted-state-store.ts:44-87 | A bad key, oversized data or a full store changes nothing; otherwise the data stands under the key in memory, and the disk is flushed exactly if the whole store fits. |
| `StateStore.EncryptedStateStore.DeleteRecord` | apps/desktop-agent/src/state/encrypted-state-store.ts:107-112 | Deletes exactly the record under the key and flushes. |
| `ReplayGate.PassKeepsInv` | apps/desktop-agent/src/orchestrator/agent-orchestrator.ts:208-228 | One pass of the gate keeps the cache within its ceiling and remembers every admission that is neither out of date nor crowded out. |
| `ReplayGate.ReplayWindow` | apps/desktop-agent/src/orchestrator/agent-orchestrator.ts:208-228 | Over every run the cache holds at most 10000 keys, and one key passes twice only more than 900000 ms apart or with at least 8000 other keys admitted in between. |
| `ReplayGate.RefusalsAreReplays` | apps/desktop-agent/src/orchestrator/agent-orchestrator.ts:208-228 | A key is refused only if it was admitted at most 900000 ms ago, and it is refused if since then fewer than 8000 other keys were admitted. |
| `ReplayGate.KeepFresh` | apps/desktop-agent/src/orchestrator/agent-orchestrator.ts:784-788 | The expiry loop keeps exactly the entries still in date, in order. |
| `ReplayGate.ReplayCache.Prune` | apps/desktop-agent/src/orchestrator/agent-orchestrator.ts:782-797 | Drops expired entries, then the oldest 2000 if 10000 are left. |
| `ReplayGate.ReplayCache.Admit` | apps/desktop-agent/src/orchestrator/agent-orchestrator.ts:208-228 | A message passes exactly when its key is not held in date, and is then recorded. |
| `TaskStateLock.FifoMutualExclusion` | apps/desktop-agent/src/orchestrator/agent-orchestrator.ts:799-812 | The promise chain is a first-come first-served mutex: a critical section starts only after all earlier ones were released. |
| `TaskExecution.SlotsAreExact` | apps/desktop-agent/src/orchestrator/agent-orchestrator.ts:319-334 | On every interleaving, throwing checkpoints included, activeCount is the number of executions holding a reservation and at most 5; a release always finds it positive. |
| `TaskExecution.ReservationMeaning` | apps/desktop-agent/src/orchestrator/agent-orchestrator.ts:319-332 | A reservation is taken below five holders and refused at five. |
| `TaskExecution.DuplicateIsRefused` | apps/desktop-agent/src/orchestrator/agent-orchestrator.ts:192-206 | A call for an id recorded as running is refused on arrival, and no other. |
| `TaskExecution.VerdictMeaning` | apps/desktop-agent/src/orchestrator/agent-orchestrator.ts:661-700 | A cancel goes before a timeout, a timeout before an error, and success needs none of them. |
| `TaskExecution.DetourMeaning` | apps/desktop-agent/src/orchestrator/agent-orchestrator.ts:402-512 | Asking records AWAITING_APPROVAL, an approval RUNNING again, a denial FAILED; an aborted wait ends as a timeout or a cancellation. |
| `TaskExecution.OutcomeIsRecorded` | apps/desktop-agent/src/orchestrator/agent-orchestrator.ts:661-723 | The last critical section records COMPLETED, FAILED or CANCELED, as it settled. |
| `CancelRace.CancelRulesOutCompleted` | apps/desktop-agent/src/orchestrator/agent-orchestrator.ts:661-723 | At any point of any run, after a cancel that succeeds for a task with one execution, that execution can still end with success if and only if it is writing its first checkpoint and will take the approval detour. |
| `CancelRace.EndedCannotBeCanceled` | apps/desktop-agent/src/orchestrator/agent-orchestrator.ts:126-138 | Once the only execution of an id has ended without an approval detour, cancelTask succeeds exactly when it crashed between recording Running and recording its outcome, was not cancelled before, and the tenant is the owner. |
| `CancelRace.PlainExecutionSucceeds` | apps/desktop-agent/src/orchestrator/agent-orchestrator.ts:334-723 | For every execution, id and tenant there is a run without approval that ends with success and records COMPLETED. |
| `CancelRace.ApprovalCanOverwriteCancel` | apps/desktop-agent/src/orchestrator/agent-orchestrator.ts:403-409 | For every execution, id and tenant there is a run in which cancelTask succeeds and the execution still ends with success. |
| `CancelRace.CrashLeavesCancellable` | apps/desktop-agent/src/orchestrator/agent-orchestrator.ts:343-351 | For every execution, id and tenant there is a run in which the first checkpoint write throws, the execution ends, and cancelTask then succeeds. |
| `TaskExecution.AgentOrchestrator.TryReserve` | apps/desktop-agent/src/orchestrator/agent-orchestrator.ts:319-332 | The reservation succeeds exactly below 5 holders and keeps the count exact. |
| `TaskExecution.AgentOrchestrator.ReleaseReservation` | apps/desktop-agent/src/orchestrator/agent-orchestrator.ts:776-779 | The release lowers the count by one; the clamp at 0 never takes effect. |
| `TaskExecution.AgentOrchestrator.CancelTask` | apps/desktop-agent/src/orchestrator/agent-orchestrator.ts:109-168 | Cancels exactly a known, own, unfinished record, aborts its controller, and hands back the open approval prompt to cancel. |
| `TaskExecution.AgentOrchestrator.ResolveTask` | apps/desktop-agent/src/orchestrator/agent-orchestrator.ts:661-723 | The last critical section settles on canceled, timed out, failed or completed, in that order. |
| `MemoryCache.AddKeepsAgreement` | apps/desktop-agent/src/memory/memory-cache-store.ts:275-282 | Filing an entry keeps an index equal to what a full scan would find. |
| `MemoryCache.RemoveKeepsAgreement` | apps/desktop-agent/src/memory/memory-cache-store.ts:284-292 | So does unfiling, and no empty set is left behind. |
| `MemoryCache.LruOrderIsSorted` | apps/desktop-agent/src/memory/memory-cache-store.ts:232-237 | The eviction order is sorted by last access, then access count. |
| `MemoryCache.LruOrderIsPermutation` | apps/desktop-agent/src/memory/memory-cache-store.ts:232-237 | The eviction order holds exactly the entries. |
| `MemoryCache.RoomIsMinimal` | apps/desktop-agent/src/memory/memory-cache-store.ts:220-257 | Evictions for room are the shortest prefix of that order that makes both limits fit; if none does, the cache is empty. |
| `MemoryCache.RoomTakesTheOldest` | apps/desktop-agent/src/memory/memory-cache-store.ts:232-248 | Whatever a put evicts for room was last used before whatever it keeps, or at the same time and no more often. |
| `MemoryCache.PressureHalves` | apps/desktop-agent/src/memory/memory-cache-store.ts:259-273 | Under pressure half of the entries goes, rounded up, and none that was used later than one that stays. |
| `MemoryCache.CarriesMeaning` | apps/desktop-agent/src/memory/memory-cache-store.ts:42-51 | Tasks and workspaces are indexed always, leases and policies unless empty. |
| `MemoryCache.TouchedMeaning` | apps/desktop-agent/src/memory/memory-cache-store.ts:95-100 | A hit counts one more use of that entry, at this time, and leaves the others alone. |
| `MemoryCache.StoreOutcome` | apps/desktop-agent/src/memory/memory-cache-store.ts:24-52 | Past the size check a put fails exactly when the entry alone exceeds the memory ceiling, and then the cache is empty; otherwise the entry is stored and both limits hold. |
| `MemoryCache.RunStaysBounded` | apps/desktop-agent/src/memory/memory-cache-store.ts:24-292 | Over every run of non-overlapping calls entry count and bytes stay within their limits under distinct keys (the count limit being at least one, as the configuration demands). |
| `MemoryCache.MemoryCacheStore.RemoveKey` | apps/desktop-agent/src/memory/memory-cache-store.ts:103-122 | Removes the entry, its bytes and its index memberships; answers whether it was there. |
| `MemoryCache.MemoryCacheStore.Clear` | apps/desktop-agent/src/memory/memory-cache-store.ts:124-170 | Clearing by task, workspace, lease or policy removes and counts exactly what a full scan would. |
| `MemoryCache.MemoryCacheStore.ClearAllEntries` | apps/desktop-agent/src/memory/memory-cache-store.ts:172-179 | Empties entries, indexes and byte count together. |
| `MemoryCache.MemoryCacheStore.EnsureCapacity` | apps/desktop-agent/src/memory/memory-cache-store.ts:220-257 | The eviction loop stops at the minimal prefix; the answer is whether the bytes fit. |
| `MemoryCache.MemoryCacheStore.PerformEmergencyEviction` | apps/desktop-agent/src/memory/memory-cache-store.ts:259-273 | Under pressure the less recently used half, rounded up, is evicted. |
| `MemoryCache.MemoryCacheStore.Put` | apps/desktop-agent/src/memory/memory-cache-store.ts:24-52 | An oversized entry changes nothing; otherwise the old entry goes, room is made, and the new one is stored unless it exceeds the ceiling alone; bytes, indexes and bounds are kept. |
| `MemoryCache.MemoryCacheStore.TouchEntry` | apps/desktop-agent/src/memory/memory-cache-store.ts:95-100 | A hit changes only the access metadata, which no index depends on. |
| `ApprovalHost.SingleDecision` | apps/desktop-agent/src/ui/approval-host.ts:105-443 | On every interleaving at most one submission returns, no waiter is answered twice, and ALLOW or APPROVED is owed to a submission that matched tenant and nonce, was in time and passed the lease check. |
| `ApprovalHost.HeardExactly` | apps/desktop-agent/src/ui/approval-host.ts:304-374 | A submission is heard exactly when the prompt is pending and free, and tenant, nonce and time are right. |
| `ApprovalHost.ConclusionIsHeard` | apps/desktop-agent/src/ui/approval-host.ts:387-422 | A submission that concludes decides the prompt, and the registered waiter hears its decision. |
| `ApprovalHost.RunKeepsInv` | apps/desktop-agent/src/ui/approval-host.ts:105-443 | Every run keeps the protocol invariant, and a prompt that left PENDING never returns to it. |
| `ApprovalHost.FinalExactlyWhenQuiet` | apps/desktop-agent/src/ui/approval-host.ts:373-386 | A decided prompt keeps its state for good if and only if no submission is waiting for its lease check. |
| `ApprovalHost.CancelledCanBecomeApproved` | apps/desktop-agent/src/ui/approval-host.ts:373-390 | For every prompt with a lease boundary there is a run from its presentation that takes it through CANCELLED to APPROVED. |
| `ApprovalHost.FailedLeaseStrandsWaiter` | apps/desktop-agent/src/ui/approval-host.ts:373-386 | For every prompt with a lease boundary, after a failed lease check the registered waiter is unanswered and nothing is resolving. |
| `ApprovalHost.StrandedWaiter` | apps/desktop-agent/src/ui/approval-host.ts:105-193 | Over every continuation such a waiter is answered if and only if it aborts itself, or the host shuts down before another waiter's abort; newer waiters do not displace it. |
| `ApprovalHost.ForgottenWaiter` | apps/desktop-agent/src/ui/approval-host.ts:156-193 | A waiter whose registration is gone is answered only by its own abort. |
| `ApprovalHost.ApprovalPrompt.Cancel` | apps/desktop-agent/src/ui/approval-host.ts:246-263 | Only a pending prompt is cancelled; its timer stops and its waiter is rejected. |
| `ApprovalHost.ApprovalPrompt.PerformAutoExpire` | apps/desktop-agent/src/ui/approval-host.ts:268-299 | The timer expires only a pending prompt and answers its waiter with DENY. |
| `ApprovalHost.ApprovalPrompt.SubmitDecision` | apps/desktop-agent/src/ui/approval-host.ts:304-374 | Up to the await: refused, expired, concluded at once, or inside the lease check. |
| `ApprovalHost.ApprovalPrompt.FinishSubmit` | apps/desktop-agent/src/ui/approval-host.ts:375-424 | After the await: a failed lease denies the prompt, a valid one concludes it. |
| `Framing.ParseFrames` | apps/desktop-agent/src/ipc/protocol-handler.ts:19-71 | The loop returns all complete frames and the remainder, or rejects an oversized or unreadable frame. |
| `Framing.RemainderIsShort` | apps/desktop-agent/src/ipc/protocol-handler.ts:19-71 | The carried remainder never exceeds max + 3 bytes. |
| `Framing.ParseInTwo` | apps/desktop-agent/src/ipc/protocol-handler.ts:19-71 | Parsing a buffer in two pieces with the remainder carried is parsing it in one. |
| `Framing.HeaderIsBigEndian` | apps/desktop-agent/src/ipc/protocol-handler.ts:10-30 | The length is 32 bits, most significant byte first. |
| `Framing.EncodedParses` | apps/desktop-agent/src/ipc/protocol-handler.ts:7-17 | Encoded well-formed messages parse back exactly, with nothing left over. |
| `Framing.ChunkIndependence` | apps/desktop-agent/src/ipc/ipc-manager.ts:255-291 | For every stream and every split into chunks of at most max - 3 bytes the guard never trips, and the connection delivers what parsing the whole stream delivers, or closes when that is rejected. |
| `Framing.FramingRoundTrip` | apps/desktop-agent/src/ipc/ipc-manager.ts:255-291 | Well-formed messages arrive exactly, however their bytes are cut. |
| `Framing.GuardIsTight` | apps/desktop-agent/src/ipc/ipc-manager.ts:255-291 | Two frames of the maximal size cut into chunks of at most max - 2 bytes close the connection. |
| `Framing.IpcConnection.OnData` | apps/desktop-agent/src/ipc/ipc-manager.ts:255-291 | The data handler carries the remainder and hands on the messages in order, or closes. |
| `RateLimiter.SlidingWindowBound` | apps/desktop-agent/src/ipc/rate-limiter.ts:13-37 | With a clock that does not go back, no half-open window of windowMs holds more accepted requests than the client and global limits. |
| `RateLimiter.RefusedExactlyWhenFull` | apps/desktop-agent/src/ipc/rate-limiter.ts:13-37 | A request with a client id is refused exactly when the accepted requests younger than the window reach the global limit, or those of the client its own. |
| `RateLimiter.StepStaysBounded` | apps/desktop-agent/src/ipc/rate-limiter.ts:13-37 | One decision keeps every window within its limits. |
| `RateLimiter.PrunedTracks` | apps/desktop-agent/src/ipc/rate-limiter.ts:17-26 | Pruned time lists count the same requests as the full accepted history. |
| `RateLimiter.IPCRateLimiter.IsRateLimited` | apps/desktop-agent/src/ipc/rate-limiter.ts:13-37 | The decision from the pruned lists is the decision from the full accepted history. |
| `Notifications.StepKeepsInv` | apps/desktop-agent/src/notifications/notification-queue.ts:37-92 | Every operation keeps the length within twice the capacity, and above the capacity only critical and high items are present. |
| `Notifications.RunKeepsInv` | apps/desktop-agent/src/notifications/notification-queue.ts:37-165 | So does every run with priority-preserving updates. |
| `Notifications.EveryRunFromEmpty` | apps/desktop-agent/src/notifications/notification-queue.ts:37-165 | After every run from empty the length is at most twice the capacity, and above the capacity only high and critical items are present. |
| `Notifications.NoSilentLoss` | apps/desktop-agent/src/notifications/notification-queue.ts:37-165 | A critical or high notification is still present after every run unless it expired or the queue was cleared on the way. |
| `Notifications.CoalescingKeepsIdentity` | apps/desktop-agent/src/notifications/notification-queue.ts:45-60 | Coalescing keeps the length and every id, and lowers no priority. |
| `Notifications.CoalescesMeaning` | apps/desktop-agent/src/notifications/notification-queue.ts:47-66 | An arrival coalesces exactly when its key is not blank and the first unread item under it is of no higher priority. |
| `Notifications.RefusalMeaning` | apps/desktop-agent/src/notifications/notification-queue.ts:68-86 | Any other arrival is refused exactly when the queue is full and it is not important, or full of important items up to twice its capacity. |
| `Notifications.EnqueuedMeaning` | apps/desktop-agent/src/notifications/notification-queue.ts:68-91 | An accepted arrival goes to the back; in a full queue the first low or normal item makes way. |
| `Notifications.PurgedMeaning` | apps/desktop-agent/src/notifications/notification-queue.ts:106-117 | Purging keeps exactly the items without an expiry time or with one after now. |
| `Notifications.LoweringUpdateCanLose` | apps/desktop-agent/src/notifications/notification-queue.ts:136-144 | For every queue: the update of an important notification keeps it (until it expires or the queue is cleared) if and only if it stays important; otherwise some run of arrivals evicts it unexpired. |
| `Notifications.CrowdOut` | apps/desktop-agent/src/notifications/notification-queue.ts:68-88 | Enough important arrivals crowd out every unimportant item, without expiry or clear. |
| `Notifications.SpliceExpired` | apps/desktop-agent/src/notifications/notification-queue.ts:106-124 | Splicing from the back removes exactly the expired items and keeps the order. |
| `Notifications.NotificationQueue.Enqueue` | apps/desktop-agent/src/notifications/notification-queue.ts:37-92 | Purges, then coalesces, appends, evicts the oldest unimportant item or rejects, as the two thresholds say. |
| `Notifications.NotificationQueue.PurgeExpired` | apps/desktop-agent/src/notifications/notification-queue.ts:106-124 | Removes and counts exactly the expired items and clears the full flag below the hard capacity. |
| `Notifications.NotificationQueue.UpdateItem` | apps/desktop-agent/src/notifications/notification-queue.ts:136-144 | Replaces the first item with the id, keeping the id; answers whether there was one. |
| `Notifications.NotificationQueue.MarkRead` | apps/desktop-agent/src/notifications/notification-queue.ts:126-134 | Marks the first item with the id as read; answers whether there was one. |
| `Notifications.NotificationQueue.ClearQueue` | apps/desktop-agent/src/notifications/notification-queue.ts:161-165 | Empties the queue and the full flag. |

## Left out

- Parser input of the wrong JavaScript type (a missing node array, non-string ids): the model is typed, so the matching error codes do not arise.
- The order of nodes inside a tier: tiers are fixed as sets and as repeat-free lists, which is all the engine uses.
- executeWorkflow's admission and scope checks, checkpoint writing, restore on start-up, metrics and telemetry.
- Runs in which a node, a checkpoint write, the scheduler or the lease check throws: the engine call rejects while siblings go on. Such runs are in the safety theorems; Confluence speaks of completed and failed runs only. Whether the last checkpoint write of a finished call throws is not told apart, as no state depends on it.
- Step context: property lookup, JSON rendering, the size limit and redaction are one abstract platform; the unsafe-key check during navigation is subsumed by the check on the template text. Text around templates is described for strings whose other text has no braces.
- Node ids and dependency names that are names of JavaScript prototype properties: plain object keys in the code, ordinary keys here.
- derivePriorityLane: a decision table; items carry the lane it chose.
- TaskScheduler as a durable queue: its index updates are read-modify-write across awaits, so memory and disk need not agree. Task ids in the queue may repeat.
- State store: schema details, redaction before saving, path confinement, permissions, I/O errors other than crashes, the fixed length of a time stamp in the envelope, and overlapping flushes (they are serialised by the source).
- getRecord, listKeys and clearAll of the state store: thin readers and writers over what is modelled.
- Orchestrator: lease, device, capability and timeout gates before the reservation (they only refuse), telemetry and receipts; a prompt is only its identity. A retry inside the replay window is refused, and no success of retries is claimed.
- Memory cache: overlapping puts of one key, where the accounting is not kept; the isolation checks of get, which change nothing; hit and miss counters. Of the un-awaited expiry sweep inside put, the first removal is part of put and the others are later Remove events.
- Approval host: presenting and listing prompts, receipts, and the sanitised view; prompts do not interact, so one prompt is modelled.
- IPC: authentication, dispatch and responses behind the frame loop; reset of the rate limiter.
- Notification queue: persistence to disk and delivery metrics.
- Cryptography, identifiers, timers, sockets and file permissions: outside the model.
- The web dashboard, the updater, the vault, configuration, health and lifecycle classes: mostly single-branch checks.
