# Workflow definitions and durable runs: a verified model

The system lets users draw a workflow graph, publish immutable versions of it and run them durably. A run row in
PostgreSQL is the only checkpoint; a transactional outbox and a relay feed an at-least-once queue; any number of
workers read the run, execute its *current* node, save the result and delete the message.

This project models that core in Dafny and proves what holds of it over every input and every interleaving.

| module | what it is |
|---|---|
| `Digraph`, `Basics`, `EdgeList` | walks, reachability, cycles, topological orders; degrees over an edge list with parallel edges |
| `PublishValidate` | the publish validator with its loops, maps and work lists |
| `PublishTheory` | what an accepted graph is: an out-tree with a fixed census of node types |
| `Tables` | the rows of PostgreSQL as values, and each SQL statement or transaction as a function on them |
| `SaveTheory`, `StoreInvariant` | payload validation, the four-statement graph sync, the version store |
| `PublishBridge` | the validator's verdict on listed rows is the tables' own notion of publishable |
| `Routing` | next-node lookups on published graphs |
| `RunInvariant`, `Protocol`, `SystemInvariant` | run transitions; the whole system as a step relation; its inductive invariant |
| `Delivery`, `Trace`, `Overlap`, `Progress` | split layer: handlers of one run overlap, stall, crash and see duplicates |
| `Parked`, `Derail`, `Witness` | where the code falls short: dead-lettered runs, late writes, and histories from the empty system that reach them |
| `Serial`, `SerialLog`, `SplitSerial` | serial layer: one message handled at a time, executors arbitrary; and its embedding into the split layer |
| `Conservation` | what relay ticks keep, tick by tick and over whole histories |
| `Outcomes`, `Effects` | what each request, each step and each handled message leaves, row by row and field by field |
| `Engine`, `Handlers` | the Go objects and transactions that update these tables in place, proved against `Tables` |
| `Conditional` | the Conditional executor and its expression language |
| `Adjacency`, `GraphLibrary`, `WorkflowGraphs` | the documentation's graph library as mutable classes |

**State and steps.** A `System` holds the tables, the queue (a bag of messages, each in the main or the dead-letter
queue), the handlers in flight with the snapshots they read, and each run's first input. `Step` has twenty kinds:
create, save, publish, archive, start, pause, resume, stop, retry, a relay tick that fails after any prefix or
commits, duplication of a live message, dead-lettering, and the separate phases of a handler with a crash possible between any two.
Every `InTx` block is one step. Receiving leaves the message in the bag, so redelivery is another receive.

**Two layers.** The row updates of a handler carry no guard on status or node, so the split layer claims only what
survives overlap: with a deterministic executor nothing ever leaves the one sequential trace of the run
(`Trace.DeterministicRunsStayOnTrace`), no active run is stranded (`Delivery.NeverStranded`), one with a row or a live
message can always still be completed (`Progress.ActiveRunCanComplete`), and pins are never broken
(`SystemInvariant.HistoryKeeps`). The serial layer handles one message at a time with executors that may
answer anything, and gets hop-or-stutter refinement, absorbing end states and a bound on hops.
`SplitSerial.SerialHistoryIsSplit` shows that every serial history is a split history with the same end.

**Where the code and its documentation differ** (the model follows the code):

- README.md:1303-1315 describes a staleness check and a guarded checkpoint update. The handler has neither: it ignores
  the job's node and attempt, and the `UPDATE` statements match on the run id alone. `Overlap.StatusLeftIff` says for
  each of the six statuses exactly which steps take a run out of it; a handler that read the row earlier takes a
  cancelled, paused, failed or completed run back into execution. `Witness.HaltedRunRuns` and
  `Witness.CompletedRunRuns` reach such states from the empty system.
- With transient executor errors one case leaves the sequential trace: a failure recorded after another handler
  completed the run. The row becomes failed with the *final* result as its stored input, and Retry runs the run's
  current node on it (the Response node, unless a late advance had moved the checkpoint before the completion).
  `Overlap.FailureStaysOnTraceIff` gives the exact condition, `Derail.QueuedRunCanDerail` shows that a second delivery
  and one error suffice for every run whose trace finishes, and `Witness.CompletedRunFailsOffTrace` reaches it from the
  empty system.
- README.md:1367-1407 describes automatic retry with backoff and a dead-letter watcher. Neither is in the code. A failed
  run is taken back into execution by Retry, or by a handler that read it before it failed and now saves. An active run
  whose only messages are dead-lettered, with no row and no handler at work, stays exactly as it is until it is paused
  or stopped (`Parked.ParkedIff`); pausing and resuming it brings a new row.
- The Conditional executor asserts the type of `data` without checking, so a decided condition over an input with no
  `data` object panics; `Conditional.Execute` states when, `Conditional.MissingFieldPanics` gives an input.
- For the seeded node types the publisher's reachability check can never fail once its cycle check has passed, and
  the converse (`PublishTheory.AcyclicIffReachable`).
- The documentation's `Validate` asks neither for a unique Start nor for reachability, unlike publishing
  (`WorkflowGraphs.TwoChainsPass`, `WorkflowGraphs.OneStartMeansReachable`).

## Model

| member | source | states |
|---|---|---|
| PublishValidate.ValidatePublishGraph | internal/handler/workflow/publish_validate.go:54-78 | returns no error if and only if the graph is non-empty, has one Start, meets every degree bound, carries the right labels, is acyclic and fully reachable; each error names a real offender and implies that the earlier checks passed |
| PublishValidate.NewPublishGraph | internal/handler/workflow/publish_validate.go:80-108 | each id stands for the last node that carries it, and the other four maps describe exactly the edges between known nodes |
| PublishValidate.ByIdIsLast | internal/handler/workflow/publish_validate.go:89-94 | of several nodes with one id the map holds the last, and it has no other ids |
| PublishValidate.RegisterNodes | internal/handler/workflow/publish_validate.go:89-94 | one empty entry per distinct node id in every map, and each id stands for its last node |
| PublishValidate.RegisterEdges | internal/handler/workflow/publish_validate.go:95-106 | edges with an unknown end are skipped, every other one is counted at both ends |
| PublishValidate.UniqueStart | internal/handler/workflow/publish_validate.go:110-125 | succeeds exactly with one Start node, and returns it; otherwise reports their number |
| PublishValidate.ValidateDegrees | internal/handler/workflow/publish_validate.go:127-145 | succeeds exactly when every node is within its own bounds; an error names a node and the side it violates |
| PublishValidate.ValidateEdgeLabels | internal/handler/workflow/publish_validate.go:147-170 | succeeds exactly when Conditionals have the labels true and false and every other outgoing edge is default |
| PublishValidate.HasLabels | internal/handler/workflow/publish_validate.go:172-186 | true exactly when the lists are equally long and every wanted label is present |
| PublishValidate.CoversIffPermutation | internal/handler/workflow/publish_validate.go:152-157 | for wanted labels that all differ, as true and false do, that means the labels are a permutation of them |
| PublishValidate.HasCycleKahn | internal/handler/workflow/publish_validate.go:189-215 | true if and only if the edge relation has a directed cycle, for parallel edges, self-loops and any map order |
| PublishValidate.PeelFront | internal/handler/workflow/publish_validate.go:203-212 | one round of the queue keeps the invariant: counters count edges from unpeeled nodes, the queue holds each unpeeled zero once |
| PublishValidate.KahnComplete | internal/handler/workflow/publish_validate.go:214-214 | when the queue is empty the removed count differs from the node count exactly when there is a cycle |
| PublishValidate.ReachableFromStart | internal/handler/workflow/publish_validate.go:217-243 | succeeds exactly when every node is reachable; an error names one that is not |
| PublishTheory.AcyclicIffReachable | internal/handler/workflow/publish_validate.go:70-77 | with one Start and the seeded bounds, acyclic and fully reachable are equivalent |
| PublishTheory.UniqueWalk | internal/handler/workflow/publish_validate.go:127-145 | in a rooted graph any two walks from Start to the same node are the same walk |
| PublishTheory.AcceptedGraphIsTree | internal/handler/workflow/publish_validate.go:54-78 | every accepted graph has exactly one walk from Start to each node |
| PublishTheory.DegreeSums | internal/handler/workflow/publish_validate.go:95-106 | the in-degrees and the out-degrees of all nodes both add up to the number of edges |
| PublishTheory.SumsByType | db/migrations/00003_seed_node_types.sql:12-32 | the same sums counted by node type under the seeded bounds |
| PublishTheory.CountingLaw | db/migrations/00003_seed_node_types.sql:12-32 | one edge fewer than nodes, and one Response more than Conditionals |
| PublishBridge.VerdictAgrees | internal/handler/workflow/publish.go:35-60 | the validator accepts the listed rows of a version exactly when its graph is publishable, in whatever order rows come |
| PublishBridge.PublishableIsSeeded | db/migrations/00003_seed_node_types.sql:12-32 | every publishable version has the seeded tree shape with one edge fewer than nodes |
| SaveTheory.ValidateGraph | internal/handler/workflow/graph.go:94-100 | accepts exactly the valid payloads: ids non-nil and unique, names non-blank and unique, known types, fitting configs, edges between listed nodes, one edge per source and label |
| SaveTheory.UniqueNodes | internal/handler/workflow/graph.go:102-131 | the node half of that, both directions, and the set of ids it returns |
| SaveTheory.UniqueEdges | internal/handler/workflow/graph.go:133-165 | the edge half of that, both directions, with the empty label read as default |
| SaveTheory.NodeValidIs | internal/handler/workflow/graph.go:106-129 | a node is accepted exactly if its id is not nil, its name has a character that is not space, its type is one of the five names, and the schema of that type accepts its config, read as the empty object if there is none |
| SaveTheory.EdgeValidIs | internal/handler/workflow/graph.go:137-158 | an edge is accepted exactly if its id is not nil, both ends are listed and its label is one of the three names or empty |
| SaveTheory.SaveIsExactSync | internal/handler/workflow/save.go:53-92 | on a valid payload the sync succeeds exactly when no referenced node of the version is missing from the payload, and then the version holds exactly the payload, whatever it held before |
| SaveTheory.EndpointsHoldThroughout | db/queries/workflow_edges.sql:1-41 | edge ends are nodes of the version after each of the four statements, and all four go through |
| SaveTheory.OneGraphHolds | internal/handler/workflow/save.go:53-92 | the payload determines the version's rows: two versions that hold it exactly are equal |
| SaveTheory.ExactlyIsUnique | db/migrations/00004_edge_node_delete_cascade.sql:11-35 | a version that holds exactly a valid payload meets the uniqueness rules deferred to commit |
| SaveTheory.ExactlyIsLiterally | internal/handler/workflow/save.go:110-145 | holding a payload exactly is, field by field: one row per node with its type by name, its name and its config, the empty object only for a missing one; one row per edge with its ends and its label by name, default for an empty one; no other row |
| SaveTheory.ReferencedIs | db/migrations/00005_create_workflow_runs.sql:34-52 | a node is referenced exactly if a run of its version stands at it or an outbox row of its version names it |
| StoreInvariant.CreateKeeps | db/queries/workflows.sql:141-173 | creating a workflow with its empty first draft keeps the store invariant and every published version |
| StoreInvariant.ForkSucceeds | db/queries/workflow_versions.sql:1-12 | on a published head the fork insert never breaks the number or the one-draft rule and gets the next number |
| StoreInvariant.HeadIsNewest | db/queries/workflow_versions.sql:1-12 | the head carries the highest number of its workflow |
| StoreInvariant.NumbersRunToHead | db/migrations/00002_create_workflow_definition.sql:31-38 | versions are numbered from 1 to the head's number without gap or repetition, and every version but the head is published |
| StoreInvariant.DraftUnreferenced | internal/handler/workflow/save.go:64-69 | no run or outbox row refers to a draft, so a save never deletes a referenced node |
| StoreInvariant.SaveSucceeds | internal/handler/workflow/save.go:12-47 | a save commits exactly when the workflow is editable and the payload valid; then the head is forked exactly if it is published, the target holds exactly the payload, and no other version is touched |
| StoreInvariant.SaveKeeps | internal/handler/workflow/save.go:12-51 | a save, committed or rolled back, keeps the store invariant and every published version |
| StoreInvariant.PublishKeeps | internal/handler/workflow/publish.go:12-67 | publishing keeps the invariant: the live version is published, publishable and never changes again |
| StoreInvariant.ArchiveKeeps | db/queries/workflows.sql:184-200 | archiving touches no version and keeps the invariant |
| StoreInvariant.HeadUpdateKeeps | internal/handler/workflow/save.go:20-45 | any write to a fork or to the draft head keeps numbering, the single draft and all published rows |
| Outcomes.CreateOutcome | db/queries/workflows.sql:141-173 | there is one draft workflow more, whose head is a new empty version 1 and which has no live version; nothing else changed |
| Outcomes.VersionOutcome | db/queries/workflow_versions.sql:1-12 | a new version is refused exactly for an unknown workflow or beside a draft; otherwise it is empty, unpublished and carries the least number above all others of the workflow |
| Outcomes.SaveOutcome | internal/handler/workflow/save.go:12-47 | a save answers ok exactly for a valid payload of a workflow that is not archived; then the draft head, or a new version behind a published one, holds the payload field by field and is the head, status and live pointer stay, and no other row changed; otherwise nothing changed |
| Outcomes.PublishSucceeds | internal/handler/workflow/publish.go:12-88 | a publish answers ok exactly if the workflow is not archived and its head is published already or has fitting configs and a publishable graph; a draft head is stamped and goes live with the workflow published, whatever was live before; a published head, or an error, changes nothing |
| Outcomes.ArchiveOutcome | db/queries/workflows.sql:184-200 | answers ok exactly for an existing workflow, which becomes archived with its pointers unchanged; nothing else changed |
| Outcomes.ArchivedIsClosed | db/queries/workflows.sql:1-32 | a save, a publish and a start of an archived workflow fail and change nothing |
| Routing.OneEdgePerLabel | db/queries/workflow_edges.sql:27-32 | the lookup returns the target of the one edge with that source and label |
| Routing.SmallestIsPublishable | db/migrations/00003_seed_node_types.sql:12-32 | Start joined to Response by one default edge is publishable, so the theorems about publishable graphs are not empty |
| Routing.LookupHits | internal/worker/persistence.go:22-30 | on a published graph a result that fits its node never misses: exactly one edge carries its label and its target is strictly further from Start |
| Routing.BranchIsRouted | internal/executor/conditional.go:36-48 | each of a Conditional's two branches leads to the target of exactly one edge |
| Routing.EveryRouteEndsAtResponse | internal/worker/persistence.go:22-38 | whatever the executors answer within their contract, a route from any node reaches a Response in fewer hops than the graph has nodes, and ends there |
| RunInvariant.StartSucceeds | internal/handler/run/start.go:24-53 | starting a published workflow always succeeds; the missing-version and missing-Start branches cannot be taken |
| RunInvariant.StartKeeps | internal/handler/run/start.go:17-58 | a start commits exactly for a published workflow, keeps the invariant and writes one pending run at Start together with its first job |
| RunInvariant.ResumeKeeps | db/queries/workflow_runs.sql:124-133 | a resume commits exactly from paused, brings a job for the current node and keeps the invariant |
| RunInvariant.RetryKeeps | db/queries/workflow_runs.sql:146-155 | a retry commits exactly from failed, brings a job for the current node and keeps the invariant |
| RunInvariant.JobInserted | db/queries/workflow_runs.sql:48-59 | the composite keys of a job row for a pinned run's checkpoint hold, so the insert goes through |
| RunInvariant.StatusKeeps | db/queries/workflow_runs.sql:114-144 | a status write keeps every pin |
| RunInvariant.FailKeeps | db/queries/workflow_runs.sql:78-85 | recording a failure keeps every pin |
| RunInvariant.PersistSucceeds | internal/worker/persistence.go:14-63 | a result that fits its node is always saved: the next node exists and all keys of the run and job rows hold |
| RunInvariant.PersistKeeps | internal/worker/persistence.go:14-63 | saving a result from any node of the pinned graph keeps the invariant |
| Outcomes.StartOutcome | internal/handler/run/start.go:17-72 | a start answers ok exactly for a published workflow; then there is one run more, pending at the only Start node of the live version, and one job for it; its input is an object with the one field data, which has the one field payload, which is the payload sent |
| Outcomes.PayloadIsFound | internal/handler/run/start.go:60-72 | the path data.payload leads to the payload in that document |
| Outcomes.PauseOutcome | db/queries/workflow_runs.sql:114-122 | a pause answers ok exactly from pending, running and paused, not found for an unknown run and conflict otherwise; only the status changes, to paused |
| Outcomes.StopOutcome | db/queries/workflow_runs.sql:135-144 | a stop answers ok exactly from pending, running, paused and cancelled, not found for an unknown run and conflict otherwise; only the status changes, to cancelled |
| Outcomes.ResumeOutcome | internal/handler/run/resume.go:14-49 | ok exactly from paused: the run is running with nothing else changed in its row, and one job names its node; conflict and no change from any other status |
| Outcomes.RetryOutcome | internal/handler/run/retry.go:14-49 | ok exactly from failed: the run is running with attempt 1 and the same node and input, and one job names its node; conflict and no change from any other status |
| Outcomes.FailOutcome | db/queries/workflow_runs.sql:78-85 | the run is failed with one attempt more, the same node and the same input |
| Outcomes.NextNodeIs | db/queries/workflow_edges.sql:27-32 | the lookup finds nothing exactly if no edge has that source and label, and otherwise the end of one that has |
| Outcomes.SavedOutcome | internal/worker/persistence.go:14-45 | a final result completes the run with that output at the node where it stands; any other moves it along the one edge with its label, with that output as input and attempt 1, and adds one job for the node there |
| SystemInvariant.StepKeeps | internal/worker/handler.go:14-82 | every step of every interleaving keeps: versions well formed, runs, jobs, messages and snapshots pinned to published versions and their nodes; published versions and pins never change |
| SystemInvariant.PersistStep | internal/worker/persistence.go:22-45 | a result computed from any earlier snapshot still finds its next node when it is saved |
| SystemInvariant.HistoryKeeps | internal/worker/handler.go:14-82 | over any history the invariant holds and what was published stays as it was |
| SystemInvariant.ReachableIsSafe | db/migrations/00005_create_workflow_runs.sql:34-52 | every state reachable from the empty system satisfies the invariant |
| Delivery.NeverStranded | internal/worker/handler.go:31-81 | in every reachable state a pending or running run has an outbox row, or a message that no handler has decided to delete |
| Delivery.HistoryDelivers | internal/worker/handler.go:31-81 | the same over any history from any covered state |
| Delivery.RelayDelivers | internal/execution/relay.go:40-55 | a relay tick that fails anywhere or drops rows of inactive runs strands nobody |
| Delivery.PersistDelivers | internal/worker/persistence.go:32-44 | saving either completes the run or leaves a row for the node it now stands at, so the message may go |
| Delivery.ResumeDelivers | internal/handler/run/resume.go:30-41 | a paused run that is resumed is running and has a row for its current node; nobody is stranded |
| Delivery.RetryDelivers | internal/handler/run/retry.go:30-41 | a failed run that is retried is running and has a row for its current node; nobody is stranded |
| Trace.FinalIsUnique | internal/worker/handler.go:26-76 | a deterministic trace has at most one final result |
| Trace.FinishedMeansNoError | internal/worker/handler.go:56-63 | a trace that finishes meets no executor error |
| Trace.StepTraces | internal/worker/handler.go:26-76 | every step keeps runs and snapshots on the trace, unless it records a transient failure on a completed run |
| Trace.NoLateFailureWhenStrict | internal/worker/handler.go:56-63 | with errors that are the executor's own, no failure is ever recorded on a completed run |
| Trace.DeterministicRunsStayOnTrace | internal/worker/persistence.go:14-45 | under overlap, duplicates, stale messages, crashes, pause, stop, resume and retry every run that is not completed stands on the one sequential trace, every snapshot too, and a completed run holds the trace's final result |
| Trace.TransientErrorsStayOnTrace | internal/worker/handler.go:56-63 | the same with transient errors, as long as none is recorded on a run that has completed |
| Overlap.RowAfterIsExact | db/queries/workflow_runs.sql:61-155 | the complete effect of each of the twenty steps on one run row |
| Effects.RequestWritesExactly | db/queries/workflow_runs.sql:105-155 | for each of the nine requests, from any reachable state, when it writes and every row it writes; otherwise the tables stay as they are |
| Effects.WorkWritesExactly | internal/worker/persistence.go:14-45 | of the other steps only a save, a recorded failure and a committed relay tick write, and what they write; a save follows the node of the handler's snapshot |
| Effects.QueueAfterIsExact | internal/worker/handler.go:73-80 | besides relay ticks only three steps touch the queue: a duplicate is one live message more, dead-lettering marks one message, a handler's delete removes its message |
| Effects.HandlersAfterIsExact | internal/worker/handler.go:14-88 | each step moves at most one handler, to the next phase with the row, node or answer it just got; a handler of an inactive run goes straight to the delete, and a save always gets there |
| Overlap.StatusLeftIff | db/queries/workflow_runs.sql:61-155 | for each of the six statuses, the exact steps that take a run out of it; writes of handlers that read earlier count whatever the status |
| Overlap.FailedRowOnTraceIff | db/queries/workflow_runs.sql:78-85 | failing a completed run keeps it on its trace exactly when the trace feeds its current node the final result |
| Overlap.FailureStaysOnTraceIff | db/queries/workflow_runs.sql:78-85 | recording a failure keeps the run on its trace exactly when it had not completed, or its trace feeds its current node the final result |
| Progress.QueuedRunCompletes | internal/worker/handler.go:14-82 | a queued run on a trace that finishes is completed with the final result by rounds of relay and handler steps, as many as its rank allows |
| Progress.ActiveRunCanComplete | internal/execution/relay.go:40-55 | in every state of the invariants, an active run with a row or a live message can be completed with the final result of its trace, by relay and handler steps alone, other handlers untouched |
| Parked.ParkedIff | internal/worker/handler.go:14-82 | an active run without row, live message or handler at work is left exactly as it is by a step if and only if the step does not pause or stop it |
| Parked.ParkedForGood | internal/worker/handler.go:14-82 | the same over any history |
| Parked.PauseAndResumeRecovers | db/queries/workflow_runs.sql:114-133 | pausing and resuming it brings a row for the node it stands at |
| Derail.StaleSaveRuns | db/queries/workflow_runs.sql:61-68 | saving an advance from an earlier read leaves the run running with that output, whatever its status was |
| Derail.HaltedRunRunsAgain | db/queries/workflow_runs.sql:61-68 | from any state with a queued run, a pause or stop during its execution is undone by the handler's save |
| Derail.CompletedRunRunsAgain | db/queries/workflow_runs.sql:61-76 | from any state with a queued run not at its end, others complete it while one handler lags, and that one's save takes it back to running |
| Derail.CompletedRunBecomesFailed | internal/worker/handler.go:52-74 | two handlers at the Response, one completing and one failing, leave a failed run that stores the final result as its next input |
| Derail.SecondDeliveryDerails | internal/worker/handler.go:14-82 | from any state where the message of an active run at its Response waits in the queue, a second delivery and one transient error do that in ten steps |
| Derail.QueuedRunCanDerail | internal/worker/handler.go:14-82 | every queued run whose trace finishes and does not contain its result earlier can be led off its trace that way |
| Witness.RunIsQueued | internal/handler/run/start.go:24-53 | create, save, publish, start and relay lead from the empty system to a run with its message queued |
| Witness.HaltedRunRuns | db/queries/workflow_runs.sql:61-68 | a history from the empty system to a paused, or a cancelled, run that one more enabled save takes to running |
| Witness.CompletedRunRuns | db/queries/workflow_runs.sql:61-76 | the same for a completed run |
| Witness.CompletedRunFailsOffTrace | db/queries/workflow_runs.sql:70-85 | a history from the empty system to a failed run off its trace |
| Witness.RunGetsParked | internal/worker/handler.go:14-82 | dead-lettering the example run's one message parks it |
| Serial.SerialStepKeeps | internal/worker/handler.go:14-82 | handling messages one at a time, with any executor answers and any break-off, keeps the invariant |
| Effects.HandleOutcome | internal/worker/handler.go:14-88 | every way a message is handled: an inactive run's message goes and nothing else happens; an active run's node is executed, an error fails the run and leaves the message, a result is saved and the message goes; a call that breaks off leaves what was done before it; no other message changes |
| Serial.HopOrStutter | internal/worker/handler.go:31-80 | every serial step is one genuine hop from the checkpoint with the executor's result, or leaves node and last output alone; completed and cancelled are absorbing |
| Serial.OnlyPendingRunsAppear | db/queries/workflow_runs.sql:26-46 | run rows appear only as pending runs |
| SerialLog.SavedNodesNeverRunAgain | internal/worker/handler.go:31-80 | a node whose success was saved is never executed again, a node that runs again gets the identical input, nothing runs after completion |
| SerialLog.HopsAreBounded | internal/worker/persistence.go:22-38 | however many duplicates, retries and pauses, a run saves at most one advance fewer than its graph has nodes, and one completion exactly if it is completed |
| SerialLog.HistoryKeepsLog | internal/worker/persistence.go:22-38 | the log's invariant over any serial history: entries stay behind the checkpoint, saved nodes do not come back, counts match the row |
| SerialLog.RankNeverFalls | internal/worker/persistence.go:22-38 | from one serial state to the next the checkpoint's rank never falls, and grows when an advance is saved |
| SplitSerial.SerialHistoryIsSplit | internal/worker/handler.go:14-88 | every serial history is a history of the split layer that ends in the same state |
| SplitSerial.HandleIsSplitRun | internal/worker/handler.go:14-88 | a message handled in one piece is the uninterrupted run of one handler of the split layer, for every outcome and break-off; where nothing breaks off no handler is abandoned |
| Conservation.RelayConserves | internal/execution/relay.go:32-58 | a tick failing anywhere leaves the outbox unchanged and the queue gains exactly the active jobs of the processed prefix, in order; a successful tick removes exactly the locked rows |
| Conservation.CommittedOnce | db/queries/workflow_runs.sql:87-103 | from any state, the messages that a row's committed ticks send are at most one if the row is there or yet to come, and none otherwise |
| Conservation.RowsSentOnce | db/queries/workflow_runs.sql:87-103 | over any history from the empty system, with anything between the ticks and row ids never reused, a row is sent at most once in committed ticks and at most once more per failed tick that had dealt with it |
| Engine.Store.GetNextNodeForExecution | db/queries/workflow_edges.sql:27-32 | the scan finds the one next node or none |
| Engine.Store.Resume | internal/handler/run/resume.go:14-49 | flips the status and inserts the job, or changes nothing |
| Engine.Store.Retry | internal/handler/run/retry.go:14-49 | clears the failure and inserts the job, or changes nothing |
| Engine.Relay | internal/execution/relay.go:32-58 | for a failure at any call, which messages have left and that the row deletions are kept or undone together |
| Engine.Worker.PersistNodeResult | internal/worker/persistence.go:12-63 | all or nothing: completes, or routes, advances and queues the next job |
| Engine.Worker.HandleNodeJob | internal/worker/handler.go:14-88 | the tables and the queue after the call, for each executor answer and each call that may fail: the message goes exactly if the run was read as inactive or the result was saved, and the delete did not fail; every other message stays as it is |
| Handlers.WorkflowHandler.CreateVersion | db/queries/workflow_versions.sql:1-12 | inserts the least number above all others of the workflow, and fails exactly if the workflow is unknown or already has a draft |
| Handlers.WorkflowHandler.UpsertNodeRows | internal/handler/workflow/save.go:53-64 | encoding and row-by-row upsert leave what the statement is specified to leave |
| Handlers.WorkflowHandler.DeleteNodeRows | db/queries/nodes.sql:54-60 | the scan with its edge cascade deletes what is outside the payload, and refuses exactly on a referenced node |
| Handlers.WorkflowHandler.UpsertEdgeRows | db/queries/workflow_edges.sql:1-20 | row by row, failing exactly on an edge with an unknown end |
| Handlers.WorkflowHandler.SyncGraph | internal/handler/workflow/save.go:53-92 | on a validated payload it goes through exactly when no referenced node is missing; then the version holds exactly the payload, field by field, and nothing else changed; otherwise nothing changed |
| Handlers.WorkflowHandler.Save | internal/handler/workflow/save.go:12-47 | the whole PUT, all or nothing: ok exactly for a valid payload of a workflow that is not archived, and then the head holds that payload field by field |
| Handlers.WorkflowHandler.CheckPublishable | internal/handler/workflow/publish.go:37-60 | accepts exactly the versions with fitting configs and a publishable graph, in whatever order rows come |
| Handlers.WorkflowHandler.Publish | internal/handler/workflow/publish.go:12-88 | all or nothing: ok exactly if the head is published or can go live; a draft head is stamped and goes live even when another version was live; a published head stays as it is |
| Handlers.RunHandler.StartRun | internal/handler/run/start.go:17-58 | ok exactly for a published workflow: one pending run at the only Start node of the live version, with the payload under data.payload as its input and one job; otherwise nothing changed |
| Conditional.SplitIsExact | internal/executor/conditional.go:50-55 | splitting loses no character, leaves no separator inside a part and cuts at the leftmost one |
| Conditional.TrimIsExact | internal/executor/conditional.go:57-63 | trimming cuts space at both ends, nothing else, and all of it |
| Conditional.ConditionReads | internal/executor/conditional.go:50-70 | a condition written as path, operator and literal, with any space around the four ends, compares the value at exactly those segments with what exactly that literal decodes to |
| Conditional.ConditionForm | internal/executor/conditional.go:50-70 | every condition whose left side resolves has that form |
| Conditional.SpaceAroundIsIgnored | internal/executor/conditional.go:57-63 | adding space around either side of the operator changes neither side's value |
| Conditional.SpacedExample | internal/executor/conditional.go:57-69 | the condition data.a == 1 holds of a document where data.a is what 1 decodes to |
| Conditional.ResolveOne | internal/executor/conditional.go:72-82 | one segment reads the object's field, null if it has none, and fails on anything but an object |
| Conditional.ResolvesIff | internal/executor/conditional.go:72-82 | a path resolves exactly when each of its proper prefixes leads to an object |
| Conditional.ResolvePath | internal/executor/conditional.go:72-82 | the loop computes the value at the dotted path, or fails |
| Conditional.EvaluateCondition | internal/executor/conditional.go:50-70 | succeeds exactly on one operator, a resolvable path and a decodable literal, with "true" exactly if the two values are equal |
| Conditional.Execute | internal/executor/conditional.go:25-48 | when it fails, exactly when it panics, and that it otherwise routes on true or false, as routing assumes of a Conditional, with only data.branch changed |
| Conditional.MarkedIs | internal/executor/conditional.go:41-45 | marking sets data.branch to the branch and keeps every other field of the document and of its data |
| Conditional.MissingFieldPanics | internal/executor/conditional.go:41-42 | the condition x==null over an empty object is decided and has no data object |
| Conditional.MarkTouchesOnePath | internal/executor/conditional.go:41-43 | every path that is neither a prefix nor an extension of data.branch resolves as before |
| GraphLibrary.Graph.AddDirectedEdge | docs/data-structure/basics-graph.go:17-28 | the adjacency gains the edge once, and the cached degrees still equal the scans |
| GraphLibrary.Graph.AddNode | docs/data-structure/basics-graph.go:11-15 | a new node without edges, an old one untouched; the cached degrees still equal the scans |
| Adjacency.InsertedArrows | docs/data-structure/basics-graph.go:17-28 | an insertion adds its two ends and that one arrow, nothing else |
| GraphLibrary.Graph.InDegree | docs/data-structure/basics-graph.go:72-80 | the scan counts the predecessors and equals the cached counter |
| GraphLibrary.Graph.OutDegree | docs/data-structure/basics-graph.go:68-70 | the number of successors equals the cached counter |
| GraphLibrary.Graph.BFS | docs/data-structure/basics-graph.go:82-105 | true if and only if the target is reachable; terminates |
| GraphLibrary.Graph.DFS | docs/data-structure/basics-graph.go:107-135 | true if and only if the target is reachable; terminates |
| GraphLibrary.Graph.DFSRecursive | docs/data-structure/basics-graph.go:137-153 | returns exactly the reachable nodes; terminates |
| GraphLibrary.Graph.Sources | docs/data-structure/basics-graph.go:155-163 | each node without predecessors, once |
| GraphLibrary.Graph.Sinks | docs/data-structure/basics-graph.go:165-173 | each node without successors, once |
| GraphLibrary.Graph.HasCycleDFS | docs/data-structure/basics-graph.go:185-214 | true if and only if there is a directed cycle, hence the same verdict as Kahn's |
| GraphLibrary.Graph.Colour | docs/data-structure/basics-graph.go:191-206 | one recursive call: a cycle is real, or the node turns black after all it points to and gray nodes stay gray |
| GraphLibrary.Graph.HasCycleKahn | docs/data-structure/basics-graph.go:218-246 | true if and only if there is a directed cycle |
| GraphLibrary.Graph.IsDAG | docs/data-structure/basics-graph.go:249-256 | true if and only if there is no directed cycle |
| GraphLibrary.Graph.TopoSortKahn | docs/data-structure/basics-graph.go:260-291 | succeeds if and only if the graph is acyclic, with every node once and every edge pointing forward |
| GraphLibrary.Graph.TopoSortDFS | docs/data-structure/basics-graph.go:295-323 | succeeds if and only if the graph is acyclic, with every node once and every edge pointing forward after the reversal |
| GraphLibrary.Graph.Finish | docs/data-structure/basics-graph.go:303-312 | one recursive call of the post-order visit: each node is appended after all its successors |
| Adjacency.KahnVerdict | docs/data-structure/basics-graph.go:245-245 | an empty queue leaves unpeeled nodes exactly when there is a cycle |
| Adjacency.FinishReversedIsTopological | docs/data-structure/basics-graph.go:318-322 | the finish order read backwards is a topological order |
| WorkflowGraphs.WorkflowGraph.AddWorkflowNode | docs/data-structure/workflow-graph.go:34-37 | registers the node with its type and keeps the cached degrees exact |
| WorkflowGraphs.WorkflowGraph.Connect | docs/data-structure/workflow-graph.go:39-48 | succeeds exactly between registered nodes; an error names the missing end and changes nothing |
| WorkflowGraphs.WorkflowGraph.ValidateNodeDegrees | docs/data-structure/workflow-graph.go:63-89 | true exactly when the id is registered and its real degrees fit its type |
| WorkflowGraphs.WorkflowGraph.Validate | docs/data-structure/workflow-graph.go:93-108 | succeeds exactly when all nodes have a type, degrees fit and there is no cycle; an error names a real offender |
| WorkflowGraphs.WorkflowGraph.ExecutionOrder | docs/data-structure/workflow-graph.go:111-117 | a topological order exactly when there is no cycle |
| WorkflowGraphs.EveryNodeHasOneStart | docs/data-structure/workflow-graph.go:93-108 | in a validated graph every node is reached from exactly one Start |
| WorkflowGraphs.OneStartMeansReachable | docs/data-structure/workflow-graph.go:93-108 | a Start reaches every node exactly when it is the only Start |
| WorkflowGraphs.TwoChainsPass | docs/data-structure/workflow-graph.go:93-108 | two disjoint chains pass, although neither Start reaches the other chain |

## Left out

- Pausing and stopping are modelled by their SQL transitions only; their HTTP handlers add nothing.
- Names, descriptions, positions, timestamps, error messages and response bodies; none of them decides a branch.
- Ids are natural numbers with 0 as the nil UUID; parsing of UUIDs and JSON is not modelled, and JSON Schema validation of node configs is an arbitrary predicate on type and config.
- Executor bodies other than the Conditional: an executor is any function, or in the serial layer any oracle, that keeps to the label its node type routes on. A result that breaks this contract is not modelled.
- SQL transactions are atomic steps; isolation anomalies, lock waits and the re-evaluation of a locked join are not modelled, nor is the error PostgreSQL raises when one upsert names a row twice (validated payloads never do).
- Nodes and edges are grouped by version, so moving a row between versions by a primary-key clash across versions cannot be expressed.
- Queue timing: visibility windows, delivery counts, FIFO order and the expiry of retained messages. A message may be redelivered, duplicated or dead-lettered at any time and is lost only when a handler deletes it.
- Outbox rows are due at once; the due-time filter and the batch limit of the lock statement are covered by letting a tick lock any set of rows.
- Attempt numbers are kept on the run row but, as in the code, decide nothing; the job's copy is not compared.
- Fairness: the proofs say that an active run always has work queued for it and that relay and handler steps can finish it, not that a worker eventually takes them.
- Conservation.RowsSentOnce: row ids are assumed never to repeat over a history, as random UUIDs do in practice.
- Conditional.Execute: the JSON decoder is a parameter, and number equality is that of reals, not of float64 rounding.
- The order in which a Go map yields its keys: every loop over a map takes them in an arbitrary order, so the results hold for all of them.
- Node names of the graph library are natural numbers; `Nodes`, `Edges` and printing only list what the maps hold.
- The JavaScript sandbox, HTTP routing, listing and detail queries, migrations tooling, benchmarks, seeding and configuration.
