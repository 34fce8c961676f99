# Meshium: a Dafny model of its core logic

Meshium discovers servers, plans migrations between them and runs the migrations as jobs.
This project models the parts of it whose correctness is not visible from one function body, and proves what
they are relied on for. `dafny verify dfyconfig.toml` checks everything.

**Dependency graph** (`Walks`, `Graphs`, `GraphBuilder`, `BuiltGraphs`, `BuiltCycles`, `GraphMeaning`). A snapshot becomes
nodes and edges through six builders; Kahn's algorithm orders the nodes and a depth-first search looks for cycles. Both
are loops over mutable maps, queues and stacks, proved against one definition of a cycle. `GraphMeaning` says which
edges a built graph has in terms of the snapshot's records alone. A repeated node id makes the
sort fail although nothing is cyclic and validation reports nothing, so distinct ids stay a visible condition.

**Job engine** (`Jobs`, `JobQueue`, `JobStore`, `EngineMachine`, `EngineInvariant`, `EngineRuns`, `EngineRecords`,
`EngineLosses`, `EngineCalls`, `EngineOutcomes`, `JobEngine`). `EngineMachine` is a transition system with one step for every persistent
write of the API, the worker, recovery and shutdown, crashes anywhere, and a failing variant of every write.
`EngineInvariant` shows what each step keeps; `EngineRuns`, `EngineRecords` and `EngineLosses` show what then holds over
whole runs: what the queue holds, which records nothing can change any more, and which jobs nothing takes up any more.
`EngineOutcomes` says which step gives a record its status and that every record keeps what was asked for.
`JobEngine` is the engine with its fields; each of its methods lists the steps it takes, records the state after each of
its writes, and thereby drives the transition system, so the results about runs are results about the class. A call's
context is modelled by the number of store and queue calls it survives, and `EngineCalls` lists a call's steps by it.

**Rate limiter** (`RateLimits`, `RateBlocks`). Every answer follows from the earlier answers: a call is refused exactly
inside a block or when its counting window is full. At most `2 * maxRequests - 1` requests pass in any closed interval as long as the
window, and this bound is reached; removing stale entries cannot be observed.

**Shell quoting** (`Shell`). Quoting, read back with the token rules of sections 2.2.1, 2.2.2 and 2.3 of the
Shell Command Language in IEEE Std 1003.1-2017.

**Progress broadcaster** (`Broadcaster`, `BroadcastRaces`), **crontab editor** (`Crontab`, `CrontabEdits`,
`CrontabMeaning`), **drift report** (`SortedStrings`, `Drift`, `DriftFacts`, `DriftMeaning`) and **version comparison**
(`Versions`). `Sequences`, `Text`, `TextFacts` and `Snapshot` hold what the others share; `TextFacts` fixes each string
function by facts about characters and positions. The modules named `...Meaning` say what the operations compute without
the functions that the methods are proved against.

Where the code and its own documentation disagree, the model follows the code:

- `recoverJobs` says that running and queued jobs are paused (internal/jobengine/engine.go:471-473); only running ones are (`EngineRuns.RecoveryPausesRunning`).
- `Stop` says that no new jobs are accepted (internal/jobengine/engine.go:117); calls are served until it has ended.
- `compareVersions` says that it falls back to comparing strings (internal/mod/discovery/compat.go:276); texts without a number compare as the same (`Versions.NoNumberComparesSame`).
- The rate limiter says that it slides its window (internal/shared/ratelimit.go:11); it restarts a fixed one.
- The totals of the drift history leave out the system changes that the report's total contains (internal/mod/drift/service.go:145, internal/mod/drift/service.go:192).

Results that are not the first thing one would write down:

- A cancelled record lasts exactly when neither the queue nor a live run has the job any more; a cancel between the job's removal from the queue and the run's first successful save is overwritten (`EngineRecords.CancelSurvives`, `EngineRecords.LostCancelsAreReached`).
- The only other way to lose a finished record is a pause or cancel that loaded the job before its run ended (`EngineRecords.FinishedRecordsStay`, `EngineRecords.StalePauseOverwrites`).
- Only a cancel that saves its record past a queue still holding the job makes the queue hold a cancelled one (`EngineRuns.QueueHoldsQueuedJobs`); it takes a removal that fails and a save that does not (`EngineRuns.RemovalFaultBreaksQueue`). A context that is done at the removal is done at the save too, so an engine without store faults never does it (`JobEngine.EngineQueueHoldsQueued`).
- A job can be left stored as queued with nothing to take it up: by a submission, a resume or a cancel whose context ends at the wrong moment, by a crash inside a call or before the run's first save, by a forced cancel or the end of the parent context before that save, and by a run that can save neither its start nor its end (`EngineLosses.StepLoses`, `EngineCalls.SubmitLosesJob`, `EngineCalls.ResumeLosesJob`, `EngineCalls.CancelLosesJob`).
- Two containers' labels can be found the same in one direction only, which is the only thing that keeps a report from being mirrored when the snapshots are swapped (`DriftFacts.SwapMirrors`, `DriftFacts.LabelsAsymmetric`).
- A container that lists a volume twice depends on itself (`BuiltCycles.DoubleMountIsCyclic`), and so does the container on the queue's port when one of its own environment variables names a queue (`BuiltCycles.QueueContainerIsCyclic`).
- A broadcast that overlaps with the end of a subscription can send on a closed channel (`BroadcastRaces.NoSendPanics`, `BroadcastRaces.ReaderLeaves`).
- A graph with unknown endpoints can be sorted without an error, with a zero value in place of a node (`Graphs.UnknownSourceSorted`).

## Model

| member | source | states |
|---|---|---|
| Walks.NoSinkMeansCyclic | internal/mod/discovery/graph.go:313-330 | nodes that all wait for one another contain a cycle, by pigeonhole on a long enough walk |
| Walks.SettledIsAcyclic | internal/mod/discovery/graph.go:313-343 | an order in which every target stands before its source leaves no room for a cycle, self edges included |
| Walks.CyclicReachesCycle | internal/mod/discovery/graph.go:392-398 | when every edge starts at a root, there is a cycle exactly when some walk from a root repeats a vertex |
| Walks.SimpleCycleIsCyclic | internal/mod/discovery/graph.go:372-384 | what the search reports is a cycle in the sense of the sort |
| Graphs.CountEdges | internal/mod/discovery/graph.go:292-303 | the adjacency lists and in-degrees count every edge with its multiplicity |
| Graphs.Ready | internal/mod/discovery/graph.go:305-311 | the initial queue lists the ids with nothing to wait for once each, whatever order the map is walked in |
| Graphs.Release | internal/mod/discovery/graph.go:320-325 | each parallel edge takes one off its source's count, and an id joins the queue exactly when its count reaches zero |
| Graphs.KahnRound | internal/mod/discovery/graph.go:314-326 | one round keeps the counts equal to the edges still pending and the order settled |
| Graphs.LeftoverIsCyclic | internal/mod/discovery/graph.go:328-330 | nodes left when the queue runs dry lie on a cycle or lead to one |
| Graphs.KahnOrders | internal/mod/discovery/graph.go:305-326 | on every graph, unknown endpoints included, the loop settles exactly the counted ids all of whose walks end without a repetition among counted ids |
| Graphs.KahnOutcome | internal/mod/discovery/graph.go:328-330 | with known endpoints, the order is too short exactly when there is a cycle or a repeated id |
| Graphs.DependencyGraph.TopologicalSort | internal/mod/discovery/graph.go:291-344 | on every graph, an order of exactly the resolvable ids, looked up with the last node of each id or the zero value, or the failure when their number is not that of the nodes; with known endpoints it fails exactly on a cycle or a repeated id and otherwise returns a permutation of the nodes with every edge's target before its source |
| Graphs.LastNodeWins | internal/mod/discovery/graph.go:332-336 | an id is looked up to the last node that has it |
| Graphs.UnknownSourceSorted | internal/mod/discovery/graph.go:328-343 | two edges to and from unknown ids make the sort succeed with one node missing and a zero value in the result |
| Graphs.CycleSearch.Dfs | internal/mod/discovery/graph.go:362-390 | the recursion terminates on every graph, restores the path, finishes the node and everything below it, and adds no list that closes an edge out of an id entered before |
| Graphs.CycleSearch.VisitTarget | internal/mod/discovery/graph.go:369-385 | afterwards the target is finished or the edge to it is the closing edge of a reported list, and at most one list more closes that edge than before |
| Graphs.SearchIsComplete | internal/mod/discovery/graph.go:392-398 | a finished search has a list for every cycle: each closed walk that a node reaches runs over the closing edge of a reported list, each list is a simple cycle that a node reaches, and no edge is closed by more lists than it has parallel edges |
| Graphs.DependencyGraph.DetectCycles | internal/mod/discovery/graph.go:350-399 | on every graph each list is a simple cycle that a node reaches, every closed walk that a node reaches runs over the closing edge of some list, and so the result is empty exactly when no cycle can be reached |
| Graphs.DependencyGraph.HasCycle | internal/mod/discovery/graph.go:402-404 | with known endpoints, true exactly when there is a cycle |
| Graphs.DependencyGraph.SortAndSearch | internal/mod/discovery/graph.go:291-404 | run on one graph with known endpoints, the sort fails and the search finds a cycle alike exactly when no id repeats or there is a cycle anyway |
| Graphs.NothingReported | internal/mod/discovery/graph.go:416-464 | no missing endpoint, self edge or reachable cycle is the same as known endpoints and no cycle at all |
| Graphs.DependencyGraph.Validate | internal/mod/discovery/graph.go:416-464 | an unknown target, an unknown source, a self edge and a found cycle are each reported exactly when there is one, in this order, the cycles being those of a complete search; no error means known endpoints and no cycle |
| Graphs.ErrorsMean | internal/mod/discovery/graph.go:416-464 | the error lists hold exactly the edges with an unknown target or source, the self edges and the given cycles under their first ids |
| Graphs.DependencyGraph.MigrationOrder | internal/mod/discovery/graph.go:591-600 | the sort's own result on every graph; for distinct ids a graph that validates is ordered with dependencies first, and of the graphs with known endpoints only such graphs are |
| GraphBuilder.BuildNodes | internal/mod/discovery/graph.go:69-117 | one node per container, database, service and vhost, in this order, with the port that each kind contributes |
| GraphBuilder.BuildContainerDatabaseEdges | internal/mod/discovery/graph.go:131-149 | adds one edge per matching pair of container port and database, in loop order, and nothing else |
| GraphBuilder.MapHostPorts | internal/mod/discovery/graph.go:158-165 | a host port belongs to the last container that publishes it |
| GraphBuilder.BuildNginxContainerEdges | internal/mod/discovery/graph.go:152-204 | adds the proxy edges, then for each upstream address the edges of the vhosts that mention the upstream |
| GraphBuilder.BuildServiceDependencies | internal/mod/discovery/graph.go:207-220 | adds the After/Requires edges whose target is a node |
| GraphBuilder.BuildServiceDatabaseEdges | internal/mod/discovery/graph.go:223-237 | adds an edge for each database type that the lower-cased service name contains |
| GraphBuilder.ResolveEnvVar | internal/mod/discovery/graph.go:491-525 | the first matching case decides, even when it finds no port |
| GraphBuilder.BuildEnvVarEdges | internal/mod/discovery/graph.go:471-541 | adds one edge per resolved variable unless these two nodes are already joined in that direction |
| GraphBuilder.BuildVolumeSharingEdges | internal/mod/discovery/graph.go:544-575 | the edges that the two inner loops add volume by volume, for some order of the volume map and no others |
| GraphBuilder.VolumeWalkAddsShares | internal/mod/discovery/graph.go:544-575 | for every order of the volume map: only edges between mounts of one volume, never between nodes already joined, and afterwards every two mounts are joined |
| GraphBuilder.HasEdge | internal/mod/discovery/graph.go:578-585 | finds an edge with these ends exactly when there is one |
| GraphBuilder.BuildDependencyGraph | internal/mod/discovery/graph.go:61-128 | the nodes of the snapshot, and the edges that the six builders give in this order for some walk over the volume map |
| BuiltGraphs.EdgeOrigin | internal/mod/discovery/graph.go:119-125 | every edge comes from one of the six builders |
| BuiltGraphs.EdgesJoinNodes | internal/mod/discovery/graph.go:131-237 | every edge joins two nodes; databases have no outgoing and vhosts no incoming edges, and no edge joins a service with a container |
| BuiltGraphs.BuiltEndpointsKnown | internal/mod/discovery/graph.go:61-128 | a built graph never has an edge to or from a node it lacks |
| BuiltGraphs.CyclesStayInOneKind | internal/mod/discovery/graph.go:119-125 | a cycle lies wholly among containers or wholly among services |
| GraphMeaning.BuiltMeans | internal/mod/discovery/graph.go:61-128 | the edges of every built graph, said of the snapshot: exactly the port, proxy, upstream, directive and name edges that the records call for; every variable that leads to a node has joined its container to it, and every two mounts of a volume are joined; variable and volume edges are never added between ids already joined |
| GraphMeaning.PlainEdgesMean | internal/mod/discovery/graph.go:131-237 | an edge of the first four builders is there exactly when the records call for it, with that reason |
| GraphMeaning.ContainerDatabaseMean | internal/mod/discovery/graph.go:131-149 | an edge from container to database is there exactly when a container port, not the host port, is the positive port of the database |
| GraphMeaning.HostPortsMean | internal/mod/discovery/graph.go:158-165 | a positive host port has an owner exactly when a container publishes it, and the owner is the last one that does |
| GraphMeaning.NginxEdgesMean | internal/mod/discovery/graph.go:152-204 | a proxy edge is there exactly when the port of the proxy target has an owner, an upstream edge exactly when the proxy target mentions an upstream one of whose addresses has a port with an owner |
| GraphMeaning.UrlPort | internal/mod/discovery/graph.go:262-271 | with two colons or more, the number between the last colon and the next slash, or zero |
| GraphMeaning.UrlDefaultPort | internal/mod/discovery/graph.go:253-260 | with fewer colons, 443 for a text that starts with https and 80 for any other |
| GraphMeaning.AddressPort | internal/mod/discovery/graph.go:275-284 | the number behind the last colon, or zero |
| GraphMeaning.UnitEdgesMean | internal/mod/discovery/graph.go:207-220 | a directive edge is there exactly when a service names an id of the graph |
| GraphMeaning.ServiceOfId | internal/mod/discovery/graph.go:241-248 | such an id belongs to a service of the snapshot with that name |
| GraphMeaning.ServiceDatabaseMean | internal/mod/discovery/graph.go:223-237 | a name edge is there exactly when the database type stands somewhere in the lower-cased service name |
| GraphMeaning.ResolveMeans | internal/mod/discovery/graph.go:491-525 | a variable asks for a port exactly when the first group of words that it mentions in any case has a record with a port, and then for the first such record's |
| GraphMeaning.PortNodesMean | internal/mod/discovery/graph.go:477-483 | a port stands for the last database that listens on it, and without one for the last container whose first container port it is |
| GraphMeaning.NodesMean | internal/mod/discovery/graph.go:69-117 | the id, name, kind, workload type and port of every node, record by record |
| GraphMeaning.SharesAreLinked | internal/mod/discovery/graph.go:544-575 | every two mounts of one volume, by two containers or by one, are joined in one direction or the other |
| BuiltCycles.ContainerArcs | internal/mod/discovery/graph.go:471-575 | without double mounts, an edge between containers leads to the node on the first queue's port from a container that asks for a queue, or to a later container of the snapshot that shares a volume and that no variable has joined, for every walk over the volume map |
| BuiltCycles.QueueArcsAreLinked | internal/mod/discovery/graph.go:471-541 | every container that asks for a queue is joined to the last node on the first queue's port |
| BuiltCycles.ContainerCycleIsQueueLoop | internal/mod/discovery/graph.go:471-575 | a cycle among containers leads from the queue's container over shared volumes to one that asks for the queue |
| BuiltCycles.QueueLoopIsCyclic | internal/mod/discovery/graph.go:471-575 | and such a loop is a cycle, unless its first step reaches a container that asks for the queue, since these two are joined the other way round |
| BuiltCycles.QueueContainerIsCyclic | internal/mod/discovery/graph.go:514-524 | a container on the queue's port that asks for the queue depends on itself |
| BuiltCycles.NoQueueNoLoop | internal/mod/discovery/graph.go:514-524 | without a queue that listens there is no such loop |
| BuiltCycles.ServiceEdgesAreUnitEdges | internal/mod/discovery/graph.go:207-220 | edges between services are After/Requires edges only |
| BuiltCycles.CyclesAreServiceCycles | internal/mod/discovery/graph.go:471-575 | without double mounts and queue loops, and with distinct container names, every cycle is a cycle of After/Requires directives |
| BuiltCycles.DoubleMountIsCyclic | internal/mod/discovery/graph.go:550-570 | a container that lists a volume twice makes the graph cyclic |
| BuiltCycles.BuiltGraphCyclic | internal/mod/discovery/graph.go:61-128 | for distinct ids, a built graph is cyclic exactly when some container lists a volume twice, there is a loop through the queue's container, or the After/Requires edges are cyclic, whatever the walk over the volume map |
| BuiltCycles.OrderOf | internal/mod/discovery/graph.go:591-600 | building a snapshot's graph and ordering it fails exactly on a repeated id or under that condition, and otherwise gives a permutation of the nodes with dependencies first |
| JobStore.SQLiteJobStore.SaveJob | internal/jobengine/store.go:98-136 | writes the document and the columns except the time of creation of an existing row, or nothing once the context is done or for an empty id |
| JobStore.SQLiteJobStore.LoadJob | internal/jobengine/store.go:139-161 | returns the document, or the context's error, or not found |
| JobStore.SQLiteJobStore.ListJobs | internal/jobengine/store.go:164-213 | the documents of exactly the rows whose columns have the type and the status asked for, each once, by time of creation with the newest first, cut at the limit if there is one |
| JobStore.SQLiteJobStore.AppendLog | internal/jobengine/store.go:216-236 | appends one entry unless the context is done; an entry without a time gets the current one |
| JobStore.SQLiteJobStore.UpdateProgress | internal/jobengine/store.go:276-313 | changes the progress inside the document only, unless the context is done |
| JobStore.WritesKeepColumns | internal/jobengine/store.go:115-130 | every write keeps the columns equal to what the document says, although progress updates bypass them |
| JobStore.SaveInsideProgress | internal/jobengine/store.go:276-313 | a save between the load and the write of a progress update leaves the columns equal to the document exactly when it kept status and type, and is not undone exactly when it changed the progress only |
| JobQueue.StepRefines | internal/jobengine/queue.go:223-278 | table and plain sequence answer an operation alike exactly when an enqueued id is fresh, and stay related |
| JobQueue.TableRefinesSequence | internal/jobengine/queue.go:64-213 | over whole histories no caller can tell the table from the sequence, exactly when ids are used with discipline |
| JobQueue.FirstInFirstOut | internal/jobengine/queue.go:64-213 | what left the table, followed by what is queued, is what entered, in order, removed jobs skipped and none lost, however often positions are reused |
| JobQueue.SQLiteJobQueue.Enqueue | internal/jobengine/queue.go:64-104 | appends to the abstract sequence, with the exact error for an empty id, a done context and an id that is queued already |
| JobQueue.SQLiteJobQueue.Dequeue | internal/jobengine/queue.go:108-149 | takes the front of the abstract sequence |
| JobQueue.SQLiteJobQueue.Peek | internal/jobengine/queue.go:153-175 | shows the front of the abstract sequence |
| JobQueue.SQLiteJobQueue.Remove | internal/jobengine/queue.go:195-216 | takes out the entry with the id, or reports that there is none |
| JobQueue.SQLiteJobQueue.SelectNextPosition | internal/jobengine/queue.go:82-94 | one more than the highest position, which some row has, or one for an empty table |
| JobQueue.InMemoryJobQueue.Enqueue | internal/jobengine/queue.go:232-240 | appends the job |
| JobQueue.InMemoryJobQueue.Dequeue | internal/jobengine/queue.go:242-251 | takes and answers the first entry, or nothing from an empty queue |
| JobQueue.InMemoryJobQueue.Remove | internal/jobengine/queue.go:268-278 | takes out the first entry with the id and no other, or finds none and changes nothing |
| Jobs.WithoutKeepsOthers | internal/jobengine/queue.go:268-278 | with distinct ids, a removal takes out that id and nothing else |
| EngineInvariant.StepKeepsConsistent | internal/jobengine/engine.go:156-504 | every step, failing writes and crashes included, keeps the invariant: queued jobs are listed once and stored as queued or cancelled, live runs have their cancel functions registered, columns agree |
| EngineInvariant.StepKeepsQueueExact | internal/jobengine/engine.go:207-229 | a step takes away that all queued jobs are stored as queued exactly when it is a cancel saving its record while the job is still queued |
| EngineRuns.QueueHoldsQueuedJobs | internal/jobengine/engine.go:156-296 | in every reachable state each queued job appears once and is stored as queued or cancelled; it is stored as queued throughout a run exactly when the run has no such cancel |
| EngineRuns.RemovalFaultBreaksQueue | internal/jobengine/engine.go:207-229 | a cancel whose removal fails and whose save succeeds leaves a cancelled job in the queue |
| EngineRuns.WindowIsReached | internal/jobengine/engine.go:367-392 | runs from an empty database reach a queued job, and the same job taken, registered, and executing after a first save that failed |
| EngineRuns.RecoveryMisses | internal/jobengine/engine.go:474-486 | after recovery exactly the jobs whose save failed load as running |
| EngineRuns.RecoveryLeavesNothingRunning | internal/jobengine/engine.go:474-486 | when recovery's saves succeed no job loads as running |
| EngineRuns.RecoveryPausesRunning | internal/jobengine/engine.go:474-504 | a whole recovery pauses each job stored as running whose save goes through and leaves every other record, queued ones included, as it is |
| EngineRuns.CancelledRunIsSilent | internal/jobengine/engine.go:367-459 | once a run's context is done, no later step of it changes jobs or logs, whatever happens in between |
| EngineRecords.PausedRecordStays | internal/jobengine/engine.go:245-271 | a paused record survives everything, crashes and faults included, until a call cancels or resumes that job |
| EngineRecords.FinalRecordSurvives | internal/jobengine/engine.go:196-459 | in every consistent state, a finished record survives every continuation exactly when no call works on it, the queue does not hold the job and the worker cannot write it |
| EngineRecords.QueuedJobIsStuck | internal/jobengine/engine.go:156-459 | in every consistent state, a job stored as queued stays so in every continuation without a cancel of it exactly under the same condition |
| EngineRecords.CancelledRecordSurvives | internal/jobengine/engine.go:213-229 | the record that a cancel saves survives every continuation exactly when neither the queue nor a live run has the job; always when the job was loaded as running or paused |
| EngineRecords.CancelSurvives | internal/jobengine/engine.go:196-229 | for a whole cancel of a job stored as queued: exactly when it is removed from the queue or was not in it, and the worker cannot write it |
| EngineRecords.LostCancelsAreReached | internal/jobengine/engine.go:386-392 | runs from an empty database reach cancels that do not survive, in each stage of the worker before the first save and after a failed removal |
| EngineRecords.FinishedRecordsStay | internal/jobengine/engine.go:156-504 | over every run, interleaved calls, faults and crashes included, no finished record ever becomes one that a continuation can change, exactly when no cancel saves too early and no run saves its end while a call on its job is under way |
| EngineRecords.StepKeepsFinalSafe | internal/jobengine/engine.go:196-459 | the same for each single step |
| EngineRecords.StalePauseOverwrites | internal/jobengine/engine.go:245-271 | a run from an empty database in which a pause loads the job, the run saves it as done, and the pause makes it paused |
| EngineLosses.StepLoses | internal/jobengine/engine.go:156-459 | the exact steps after which a job stored as queued is in no queue, in no call, and with no worker that can save it |
| EngineLosses.NoJobIsLost | internal/jobengine/engine.go:156-459 | over every run, no job is ever stuck in the store as queued exactly when the run has none of these steps |
| EngineLosses.ForcedCancelLosesJob | internal/jobengine/shutdown.go:90-98 | a forced cancel between registration and the first successful save leaves the job stored as queued for good |
| EngineLosses.CrashLosesJob | internal/jobengine/engine.go:488-497 | a crash loses exactly the jobs stored as queued that are in the worker's hand or in a call and not in the queue, since recovery only lists the queued jobs |
| EngineLosses.LossesAreReached | internal/jobengine/engine.go:367-459 | runs from an empty database end in a loss by a crash, a forced cancel, the end of the parent context, and a run that can save neither its start nor its end, in each stage in which that can happen |
| EngineCalls.SubmitLosesJob | internal/jobengine/engine.go:175-187 | a submission loses its job exactly when its context ends after the first save |
| EngineCalls.ResumeLosesJob | internal/jobengine/engine.go:284-292 | a resume loses its job exactly when its context ends between the save and the enqueue |
| EngineCalls.CancelLosesJob | internal/jobengine/engine.go:206-229 | a cancel loses a queued job exactly when its context ends between the removal and the save |
| EngineCalls.CallLossesAreReached | internal/jobengine/engine.go:175-292 | runs from an empty database end in each of these three losses |
| EngineOutcomes.StatusAfter | internal/jobengine/engine.go:156-504 | after any step a record has a status exactly when the step is one that writes it, or it had it and the step writes none: done only by a run's end without an error, failed only by one with an error or without a handler, or by a submission that could not be queued, cancelled only by a cancel's save |
| EngineOutcomes.StatusOrigin | internal/jobengine/engine.go:156-504 | over every run, a stored status was written by such a step |
| EngineOutcomes.RunOutcome | internal/jobengine/engine.go:422-469 | the record after the end of a run under a live context: done at one hundred percent without an error, failed with the handler's or the factory's error otherwise |
| EngineOutcomes.NewRowIsSubmitted | internal/jobengine/engine.go:156-191 | only a submission makes a new record |
| EngineOutcomes.RequestIsKept | internal/jobengine/engine.go:156-191 | over every run, faults, crashes, recovery and resumes included: the record, the queue entries, the worker's job and the job of a call that have an id carry type, plan, migration, source, target and time of the submission of that id, field by field |
| EngineOutcomes.EveryJobHasARecord | internal/jobengine/engine.go:156-504 | over every run, each job in the queue, in a call or with the worker has a record |
| JobEngine.RanIsRun | internal/jobengine/engine.go:156-504 | the states that an engine object passes through are a run of the transition system, without a cancel that saves past the queue |
| JobEngine.ShutdownManager.ForceCancel | internal/jobengine/shutdown.go:90-98 | on timeout every registered cancel function is called |
| JobEngine.Engine.Submit | internal/jobengine/engine.go:156-191 | the exact steps and answer for a stopped engine, a failing save, a failing enqueue and success; after a success the record and the last queue entry are the same queued job, which has each field of the request, and no other record changes |
| JobEngine.Engine.Cancel | internal/jobengine/engine.go:196-240 | the exact steps, answer and broadcast for every status and every moment at which the context ends; a success leaves the job stored as cancelled, out of the queue and its run's context done |
| JobEngine.Engine.Pause | internal/jobengine/engine.go:245-271 | the exact steps and answer; the run is cancelled before the record is saved |
| JobEngine.Engine.Resume | internal/jobengine/engine.go:274-296 | the exact steps and answer; the record is saved before the job is queued |
| JobEngine.Engine.TakeJob | internal/jobengine/engine.go:336-361 | ends the loop on a stop or when the parent context is done; otherwise takes the front job, or nothing from an empty queue or when the dequeue fails |
| JobEngine.Engine.BeginStop | internal/jobengine/engine.go:119-130 | does nothing for a stopped engine, panics while another stop is under way, and otherwise tells the worker to take no further job |
| JobEngine.Engine.ForceCancelJobs | internal/jobengine/shutdown.go:88-98 | at the timeout of a stop every registered run's context is done, and their number is returned |
| JobEngine.Engine.EndStop | internal/jobengine/engine.go:140-149 | once the worker has left, the engine can be started again |
| JobEngine.Engine.RegisterRun | internal/jobengine/engine.go:368-384 | a fresh context registered under the job's id with the shutdown manager and in the cancel map |
| JobEngine.Engine.ExecuteJob | internal/jobengine/engine.go:367-459 | for each way a handler can end, what an uninterrupted run leaves: the job stored as done at one hundred percent exactly when the handler returned no error, else as failed with the handler's, the factory's or the missing handler's error, with the times, the last progress and the request's fields, the log lines, and no other record changed; and the steps and broadcasts in order |
| JobEngine.RunEndsWithCleanUp | internal/jobengine/engine.go:394-459 | a run publishes its last progress and then closes its subscribers' channels exactly when the job got a handler |
| JobEngine.CallbackEffect | internal/jobengine/engine.go:410-418 | a progress report is published and a log line kept, in order, under the given time or the time of the call |
| JobEngine.ReportsArePublished | internal/jobengine/engine.go:410-414 | a run that only reports progress publishes every report once, in order; one that only logs publishes nothing |
| JobEngine.LastProgressIsLast | internal/jobengine/engine.go:410-414 | the progress a run ends with is that of its last report, whatever is logged behind it |
| JobEngine.Engine.FinishJob | internal/jobengine/engine.go:422-459 | under a live context the record becomes done at one hundred percent without an error and failed with the handler's text otherwise, under a done one nothing is stored; and what the subscribers are told |
| JobEngine.Engine.FailJob | internal/jobengine/engine.go:462-469 | the failed record of a job without a handler |
| JobEngine.Engine.Start | internal/jobengine/engine.go:93-114 | a second start is refused; the first one recovers every job that is listed as running, and a context that ends on the way is the worker's done parent context |
| JobEngine.EngineQueueHoldsQueued | internal/jobengine/engine.go:156-504 | for an engine object after any calls, whenever their contexts end: its queue holds each queued job once and only jobs stored as queued |
| JobEngine.EveryWriteIsConsistent | internal/jobengine/engine.go:156-504 | the invariant, and that the queue holds only jobs stored as queued, after every single write of every call |
| RateLimits.RateLimiter.Allow | internal/shared/ratelimit.go:39-70 | updates the one visitor's count, window and block in place and answers as the specification says |
| RateLimits.RateLimiter.Cleanup | internal/shared/ratelimit.go:74-84 | removes exactly the entries whose window and block are both over, and changes no other |
| RateLimits.CleanupUnobservable | internal/shared/ratelimit.go:74-84 | histories that differ in their cleanups only get the same answers |
| RateBlocks.EveryAnswer | internal/shared/ratelimit.go:39-70 | for every mix of calls, each answer follows from the earlier ones of its address: the window it counts in, and that it is let through exactly when no block holds and fewer than maxRequests calls of that window got through |
| RateBlocks.BlockHolds | internal/shared/ratelimit.go:46-67 | after a refused call whose predecessor of the same address was let through or is missing, every call of that address is refused until the window's length has passed |
| RateBlocks.RefusedExactly | internal/shared/ratelimit.go:39-70 | a call is refused exactly when its counting window is full or less than the window's length after a call that started a block, and a block starts only at a call that finds its window full |
| RateBlocks.NegativeWindowAnswers | internal/shared/ratelimit.go:55-67 | with a negative window all calls are let through, or none when the limit is below one |
| RateBlocks.AnswersInTurn | internal/shared/ratelimit.go:39-70 | one answer for each call, under its address and time |
| RateLimits.RateBound | internal/shared/ratelimit.go:39-84 | for every address and mix of calls on a clock that does not go back: at most maxRequests per counting window and 2 * maxRequests - 1 in any closed interval as long as the window, maxRequests for a window of zero, none for a limit below one |
| RateLimits.RateBoundIsTight | internal/shared/ratelimit.go:39-70 | that many do get through, for every limit and every window that is not negative |
| RateLimits.NegativeWindowUnlimited | internal/shared/ratelimit.go:55-59 | with a negative window any number of calls get through at one moment |
| Shell.ShellQuoteArgs | internal/shared/shell.go:23-29 | the shell reads the line back as exactly the given arguments |
| Shell.QuotedArgsAreWords | internal/shared/shell.go:13-29 | behind any complete command line, quoted arguments add exactly themselves, empty ones and embedded quotes included |
| Shell.QuotedIsOneWord | internal/shared/shell.go:13-17 | one quoted string is one word, whatever it contains |
| Broadcaster.SendKeepsOrder | internal/jobengine/progress.go:90-96 | a send, dropped or not, keeps a channel's content a bounded and ordered selection of what was broadcast |
| Broadcaster.ReadersSeeOrder | internal/jobengine/progress.go:41-111 | at any time, what a reader has received is in order what was broadcast since it subscribed, at most 16 updates wait, and a channel is closed exactly when it is registered nowhere |
| Broadcaster.NothingMissed | internal/jobengine/progress.go:74-97 | an open channel whose buffer was never full at a send has every update of its job since it was made, in order |
| Broadcaster.SentSinceMeans | internal/jobengine/progress.go:74-97 | the updates of a job are those broadcast under its id, one by one in order |
| Broadcaster.DefaultProgressBroadcaster.Subscribe | internal/jobengine/progress.go:41-53 | a new open channel is added to the job's set |
| Broadcaster.DefaultProgressBroadcaster.Unsubscribe | internal/jobengine/progress.go:56-69 | closes the channel if it was registered under that job, never twice, and drops an entry that becomes empty |
| Broadcaster.DefaultProgressBroadcaster.Broadcast | internal/jobengine/progress.go:74-97 | each subscriber gets the update unless its buffer is full, no other channel changes, and no closed channel is sent to |
| Broadcaster.DefaultProgressBroadcaster.Cleanup | internal/jobengine/progress.go:101-111 | closes every channel of the job once and forgets the job |
| BroadcastRaces.StepKeepsOpen | internal/jobengine/progress.go:56-111 | with sends after the lock is released, a step leaves a broadcast with a closed channel before it exactly when it closes a channel that the broadcast has collected and not sent to yet |
| BroadcastRaces.NoSendPanics | internal/jobengine/progress.go:74-111 | over every interleaving of broadcasts, subscriptions and clean-ups, no send meets a closed channel or could meet one exactly when there is no such step |
| BroadcastRaces.ReaderLeaves | internal/jobengine/progress.go:56-97 | an interleaving in which the send panics |
| Broadcaster.DefaultProgressBroadcaster.Read | internal/jobengine/progress.go:41-53 | a reader takes the oldest update, also after the close |
| Crontab.FindJobBlock | internal/mod/cron/service.go:336-362 | the line's own error, or the block that reaches up over all comments that go with the job |
| Crontab.SplitCommentLines | internal/mod/cron/service.go:382-397 | the comment's lines that are not blank, trimmed and marked |
| Crontab.BuildAppendedCrontab | internal/mod/cron/service.go:275-283 | the normalised lines with the new block behind them |
| Crontab.ReplaceCronLine | internal/mod/cron/service.go:285-304 | the lines with the found block replaced, or the error |
| Crontab.DeleteCronLine | internal/mod/cron/service.go:306-323 | the lines without the found block, or the error |
| CrontabEdits.ReadBack | internal/mod/cron/service.go:325-334 | reading what was written gives the same lines, less one carriage return at the end of each |
| CrontabEdits.DeleteTakesOneBlock | internal/mod/cron/service.go:306-362 | a delete removes one contiguous block that ends at the line and cannot be extended, and keeps every other line in order |
| CrontabEdits.AddThenDelete | internal/mod/cron/service.go:275-323 | for every job, add then delete of the last line added restores the text exactly when that line is a cron line, the lines before it in the block go with it, the old text does not end in a comment that would join the block, and no old line ends in a carriage return |
| CrontabEdits.OneLineBlock | internal/mod/cron/service.go:275-283 | a job line without line feeds is read back as one line, so that the last line added is the job's |
| CrontabEdits.ReplaceThenDelete | internal/mod/cron/service.go:285-323 | replacing and deleting the replacement comes to deleting the original, exactly under the same kind of condition |
| CrontabEdits.PlainJobIsCronLine | internal/mod/cron/service.go:364-380 | five fields that do not start with a number sign, and a command, make a cron line |
| CrontabMeaning.EnvLineMeans | internal/mod/cron/service.go:20 | an assignment is a name of letters, digits and underscores that does not start with a digit, an equals sign, and no line end behind it |
| CrontabMeaning.AttachedMeans | internal/mod/cron/service.go:345-358 | a comment goes with the line below it exactly when its text is not blank, no assignment, and does not look like an entry: six fields, or two behind an at sign |
| CrontabMeaning.CronLineMeans | internal/mod/cron/service.go:364-380 | a cron line is an entry of six fields or more, or one that starts with an at sign, as it is or behind a single number sign |
| CrontabMeaning.PartsOfComment | internal/mod/cron/service.go:382-397 | a comment of trimmed lines is taken apart into exactly these |
| CrontabMeaning.AppendedText | internal/mod/cron/service.go:275-283 | the new text is the old one, a line with a number sign for each line of the comment, and one line with the trimmed schedule and command |
| CrontabMeaning.EditRefused | internal/mod/cron/service.go:285-344 | a replace or delete is refused exactly for a line that is not there or that is no cron line, each with its own error |
| CrontabMeaning.ReadUnfinished | internal/mod/cron/service.go:325-334 | a last line without a line feed is read as a line, and keeps a carriage return at its end |
| SortedStrings.AscendingIsUnique | internal/mod/drift/service.go:661-695 | the sorted list of a set of strings does not depend on the order in which a map is walked |
| Drift.UniqueSortedStrings | internal/mod/drift/service.go:677-695 | the trimmed values that are not blank, each once, in ascending order |
| Drift.AppendStringSetChanges | internal/mod/drift/service.go:347-391 | appends an addition for each new name and a removal for each old one, and counts them |
| Drift.CompareItems | internal/mod/drift/service.go:393-437 | one change per key, in key order, for services, ports, disks and containers alike; the last record with a key counts |
| Drift.CompareDocker | internal/mod/drift/service.go:439-513 | the four cases of a missing Docker section |
| Drift.CompareSystem | internal/mod/drift/service.go:607-640 | one change per host field that differs |
| Drift.CompareSnapshots | internal/mod/drift/service.go:210-254 | everything found, sorted, and the counters; nothing when a snapshot is missing |
| Drift.BuildReport | internal/mod/drift/service.go:187-203 | the report with its total |
| DriftFacts.SortOrders | internal/mod/drift/service.go:642-659 | sorting permutes the changes and orders them by category, type, name and severity |
| DriftFacts.SortIsStable | internal/mod/drift/service.go:642-659 | changes that compare as equal keep their order |
| DriftFacts.NamesAreExact | internal/mod/drift/service.go:347-391 | each package and user name is reported as added or removed exactly once when it is, and never otherwise |
| DriftFacts.OldMinusRemovedPlusAdded | internal/mod/drift/service.go:347-391 | the old names without the removed ones, together with the added ones, are the new names |
| DriftFacts.TotalsAddUp | internal/mod/drift/service.go:187-254 | each counter is the number of reported changes of its kind, and the total is the seven counters plus the system changes |
| DriftFacts.HistoryOmitsSystem | internal/mod/drift/service.go:145 | the history's total is at most the report's, and equals it exactly when operating system and hardware are the same in both snapshots |
| DriftFacts.SameHost | internal/mod/drift/service.go:607-640 | the host comparison finds nothing exactly when operating system and hardware are the same |
| DriftFacts.ItemsAreExact | internal/mod/drift/service.go:393-513 | of each service, port, disk and container key the report has one addition when only the new snapshot has it, one removal when only the old one has it, one modification when both have it and its records differ, and nothing else |
| DriftFacts.ItemValues | internal/mod/drift/service.go:393-513 | each of these changes carries the last records of its key, and the severity that they call for |
| DriftFacts.DockerOnOneSide | internal/mod/drift/service.go:439-469 | with Docker on one side only every container of that side is reported, namesakes included |
| DriftMeaning.ReportMeans | internal/mod/drift/service.go:187-254 | a change is in the report exactly when the two snapshots call for it, category by category, with its name, values and severity, said of the records alone |
| DriftMeaning.NameChangesMean | internal/mod/drift/service.go:347-391 | the changes of names: an addition with severity info for each trimmed name only the new list has, a removal with severity warning for each only the old one has |
| DriftMeaning.ItemChangesMean | internal/mod/drift/service.go:393-437 | the changes of records: the last record of a key on each side decides, and is what the change carries |
| DriftMeaning.ServicesDiffer | internal/mod/drift/service.go:711-718 | services differ exactly in description, the three states, the type or the set of services they depend on |
| DriftMeaning.ContainersDiffer | internal/mod/drift/service.go:767-775 | containers differ exactly in image, status, state, port mappings, volumes, networks or labels; order, repetitions and the case of protocols do not count |
| DriftMeaning.PortsDiffer | internal/mod/drift/service.go:826-835 | open ports differ exactly in protocol, address, process or process id |
| DriftMeaning.DisksDiffer | internal/mod/drift/service.go:859-869 | partitions differ exactly in file system, the three sizes or the percentage |
| DriftMeaning.ServiceSeverities | internal/mod/drift/service.go:720-749 | a service that stops is critical, one that starts is info, another change of its states is a warning |
| DriftMeaning.ContainerSeverities | internal/mod/drift/service.go:777-803 | a running container that disappears or stops is critical, one that appears or starts is info, anything else a warning |
| DriftMeaning.OtherSeverities | internal/mod/drift/service.go:871-876 | a partition is critical from ninety percent on or when it fills by fifteen points; ports and additions and removals of partitions are info and warnings |
| DriftMeaning.PortKeys | internal/mod/drift/service.go:837-843 | open ports are compared with one another exactly when number and protocol agree, the protocol in any case |
| DriftMeaning.RecordsMean | internal/mod/drift/service.go:393-605 | the other records go by service name, mount point and container name |
| DriftMeaning.SameMappingsMean | internal/mod/drift/service.go:949-959 | the texts of two lists of port mappings are the same exactly when the lists have the same host ports, container ports and protocols |
| DriftMeaning.AllOfOneSide | internal/mod/drift/service.go:443-469 | with Docker on one side only: the value and severity of each of its containers |
| DriftMeaning.SystemChangesMean | internal/mod/drift/service.go:607-640 | each of the thirteen host fields is reported under its own name, with its own values and severity, exactly when it differs |
| DriftMeaning.ReportIsOrdered | internal/mod/drift/service.go:642-659 | packages, services, Docker, users, network, disk, system; in each of them added, removed, modified; then by name, code point by code point, and the severities by their texts |
| DriftMeaning.LessMeans | internal/mod/drift/service.go:642-659 | a text comes before another exactly when it is smaller at the first place where they differ, or ends there |
| DriftFacts.SwapMirrors | internal/mod/drift/service.go:393-640 | swapping the snapshots mirrors the report, severities aside, for all categories but Docker, and for all changes exactly when any two compared containers differ in something besides labels or have comparable labels |
| DriftFacts.ChangedAlike | internal/mod/drift/service.go:883-893 | two records are found changed alike in both directions exactly when they are containers with comparable labels, differ in something else, or are no containers: different numbers of labels, a label that differs, or labels on one side only that are all empty on both sides or on neither |
| DriftFacts.NoBlanksMirrored | internal/mod/drift/service.go:883-893 | without empty labels every report is mirrored |
| DriftFacts.LabelsWithoutBlanks | internal/mod/drift/service.go:883-893 | without empty labels the comparison is equality |
| DriftFacts.LabelsAsymmetric | internal/mod/drift/service.go:883-893 | with an empty label, two snapshots that differ in the labels of one container have reports that do not mirror each other |
| Versions.ParseVersionParts | internal/mod/discovery/compat.go:305-334 | the numbers up to the first piece that does not start with a digit |
| Versions.DottedParts | internal/mod/discovery/compat.go:305-334 | numbers written in decimal with dots between them are the parts that are read, behind any text without a digit; a number that does not fit 64 bits is read as the largest that does |
| Versions.DecimalsAreParts | internal/mod/discovery/compat.go:315-332 | reading stops at the first piece that does not start with a digit |
| Versions.PrefixIsCut | internal/mod/discovery/compat.go:307-313 | what stands before the first digit is cut off |
| Versions.LeadingDigitsMean | internal/mod/discovery/compat.go:318-326 | of a piece, as many digits as it starts with |
| TextFacts.DigitsAreWeighted | internal/mod/discovery/compat.go:330 | a text of digits is read as the sum of its digits times their powers of ten, any other text is refused |
| TextFacts.AtoiDecimal | internal/mod/discovery/graph.go:268-270 | an integer written in decimal is read back when it fits 64 bits, and refused when it does not |
| TextFacts.AtoiRefuses | internal/mod/discovery/graph.go:268-270 | what is read as an integer is an optional sign and at least one digit |
| TextFacts.SpacesAre | internal/mod/discovery/compat.go:306 | the characters that trimming takes away are the white space characters of Unicode |
| TextFacts.ContainsMeans | internal/mod/discovery/graph.go:228 | a text contains another exactly when it stands there at some position |
| TextFacts.CaseAt | internal/mod/discovery/graph.go:228 | of the ASCII letters, each becomes its counterpart; other characters stay |
| TextFacts.SplitAtSeparator | internal/mod/discovery/graph.go:253 | a split cuts at every separator and nowhere else |
| TextFacts.FieldsAtSpace | internal/mod/cron/service.go:378 | fields are cut at every space; a text without one is one field |
| TextFacts.TrimSpaceCuts | internal/mod/discovery/compat.go:306 | trimming takes away spaces at both ends, and as many as there are |
| Versions.CompareVersions | internal/mod/discovery/compat.go:277-302 | -1, 1 or 0 exactly when the first differing part is smaller, larger, or there is none, missing parts counting as zero |
| Versions.SomeOrder | internal/mod/discovery/compat.go:277-302 | any two versions are comparable |
| Versions.BelowIsTransitive | internal/mod/discovery/compat.go:277-302 | the order is transitive |
| Versions.SameIsCongruent | internal/mod/discovery/compat.go:277-302 | versions that compare as the same are interchangeable |
| Versions.NoNumberComparesSame | internal/mod/discovery/compat.go:276-334 | texts without a digit compare as the same, and such a text compares as the same as another exactly when all numbers of the other are zero |

## Left out

- JobEngine.Engine.Start: launching the worker is not modelled, its turns are calls of their own; calls while recovery runs are not modelled, since cmd/server/main.go starts the engine before its handlers exist.
- JobEngine.Engine.ExecuteJob: there is one worker, as cmd/server/main.go configures it; the calls to the broadcaster are listed in order and not made.
- Broadcaster.DefaultProgressBroadcaster.Broadcast: is one step here; `BroadcastRaces` separates the sends, but still collects the channels in one step, while the code walks the subscriber set after releasing its lock.
- JobStore.SQLiteJobStore.UpdateProgress: is one step, while the code loads and saves in two; the transition system has no call that saves the record in between (`JobStore.SaveInsideProgress` says what that would do).
- Shell.ShellQuoteArgs: double quotes, expansions and operators outside quotes are not given a meaning; a line that has them unquoted has no words in this model.
- Drift.CompareItems: values are kept as records; the texts the report formats from them are not modelled, and the equality of two formatted floating-point numbers is the equality of real numbers.
- Reading the log of a job, the polling loop and the timeout of a shutdown, and the texts of log lines and error messages.
- SQL, SSH, HTTP and WebSocket plumbing: a table is a map whose single operations are atomic, and a store fault is a step that writes nothing.
- Case mapping and folding cover ASCII letters only.
- The workload classification of nodes is a parameter of the graph builder, and the uniqueness of job ids is assumed.
- The parsing of crontab listings for display, the validation of schedules, and everything about firewalls, planning, migration execution, credentials and encryption.
