# Verification of Lingshu's core protocols

A Dafny model of the parts of Lingshu whose correctness is not visible in any single function, with proofs.
`dafny verify dfyconfig.toml` checks everything.

| area | files |
|---|---|
| workflow graphs: sorting, layout, conditions, the parallel engine | `Digraph`, `TopologicalSort`, `DagLayout`, `Conditions`, `Scheduling`, `WorkflowModel`, `WorkflowEngine`, `ScheduleDependence` |
| interface inheritance | `CycleDetection` |
| ontology versions: drafts, staging, snapshots, rollback, retried promotion | `OntologyGraph`, `RetriedPromotion`, `OntologyService`, `OntologyRuns`, `OntologyViews`, `OntologyReplay`, `OntologyRollback`, `OntologyHistory`, `RollbackExample` |
| data pipeline: edit log, queries, virtual fields | `StoreKeys`, `EditLogStores`, `EditLogMerge`, `QueryTranslation`, `VirtualFields` |
| copilot event stream | `ServerSentEvents`, `EventStreamStandard` |
| action executions | `ExecutionLifecycle`, `ExecutionRuns` |
| shared: order on strings, lists, values, text | `Ordering`, `Sequences`, `Values`, `Text` |

Code that changes state step by step is a class or a method with loops, proved against a specification function; the
properties are then proved of that function, over all inputs or all runs. Services that the model cannot see are
parameters: node executors and action stages, JSON and float parsing, the hash of primary keys, clocks and
generated ids, the outcome of each promotion attempt, and which chunks the network delivers.

Where the code does less than its description suggests, the code is followed and the difference is a theorem:

- Rolling back to the parent does not always restore the earlier view: exactly when
  (`OntologyRollback.RollbackIsExact`), and a run in which it does not (`RollbackExample.RollbackCanLose`). Rolling back
  further can also leave two active versions of one rid: exactly when (`OntologyRollback.RollbackKeepsUniqueExactly`
  on the graph, `OntologyHistory.RewindKeepsUniqueExactly` on the recorded changes), and a run in which it does
  (`RollbackExample.RollbackCanDouble`). `OntologyHistory.RewindIsExact` says exactly which rollbacks give the view that
  the target's chain replays to.
- The stream reader drops an event exactly when a chunk starts between the two final newlines of its record
  (`ServerSentEvents.RoundTripIsExact`, `CutLosesEvent`).
- The key-value edit log overwrites where the table keeps both rows exactly when one entity has two writes at one time
  (`EditLogStores.StoresAgreeExactly`, `SharedTimeIsLost`).
- A comparison is split at the wrong place exactly when its path contains the operator, or its path or literal
  contains an operator that is tried earlier: `a==b == 3` is split inside the path, and `a < "x==y"` inside the literal
  (`Conditions.PrintedComparisonSplits`).
- Names that share a physical column lose all but one in every result row, and only those do
  (`QueryTranslation.RenamesBack`).
- A workflow node that reads a node it has no path to or from depends on the schedule. For unconditional capability
  nodes under the default stub, with mappings that name a node's output, its id or its inputs, the condition is exact
  (`ScheduleDependence.SchedulesAgreeExactly`); for other executors, conditions and deeper paths only one direction is
  stated (`WorkflowEngine.ReportsAgree`), because they may ignore what they read.
- Virtual fields that read later ones may fail their equations, for example a field that names a later constant
  (`VirtualFields.LaterConstantIsMissed`). For a bare name the condition is on the later field's value
  (`VirtualFields.LaterFieldIsNotSeen`). For other expressions, exactly those rows satisfy them that a second pass leaves
  alone (`VirtualFields.SolvesExactly`); for the enriched row that is a second run of the evaluation, not something a
  caller can read off beforehand. That reading only earlier fields suffices (`VirtualFields.EnrichSolves`) is one direction
  only.
- An edge to an unknown node makes the sort fail with a KeyError exactly when its source is reached, and an edge from
  an unknown node reads as a cycle (`TopologicalSort.Sort`).

Readings that the statements rely on: a view compares versions without label, staging flag, snapshot stamp and
underscore fields; a rollback is taken after a commit whose leftover drafts have been discarded; "staged" means
`is_staging`, whatever the other flags.

## Model

| member | source | states |
|---|---|---|
| `Digraph.AllDoneIffAcyclic` | backend/src/lingshu/function/workflows/engine.py:65-84 | rounds of removing source-free nodes remove every node if and only if every edge comes from a known node and there is no cycle |
| `Digraph.LevelIsLongestWalk` | backend/src/lingshu/function/workflows/engine.py:70-82 | the round in which a node is removed is the length of the longest path into it |
| `TopologicalSort.Sort` | backend/src/lingshu/function/workflows/engine.py:51-90 | layers are returned if and only if all edges stay between known nodes and form no cycle; a KeyError if and only if some node that gets its turn has an edge to an unknown node; the layers are the sorted rounds; the loop ends because every round removes a node |
| `TopologicalSort.LayerIsDepth` | backend/src/lingshu/function/workflows/engine.py:51-58 | every node is in exactly one layer and its index is the length of the longest path ending at it |
| `TopologicalSort.EdgesGoForward` | backend/src/lingshu/function/workflows/engine.py:51-58 | every edge goes to a strictly later layer |
| `TopologicalSort.LayersAreUnique` | backend/src/lingshu/function/workflows/engine.py:70-74 | the layers depend only on the graph, not on the order in which nodes and edges are listed |
| `DagLayout.ComputeLayout` | frontend/src/components/workflow/dag-viewer.tsx:30-94 | total on every list of nodes and edges: every id is shown and no two boxes (180 by 60, or 100 by 100 for conditions) overlap; if no id is listed twice, every node once, in its wave, or in one extra layer below the last wave |
| `DagLayout.LayoutAgreesWithSort` | frontend/src/components/workflow/dag-viewer.tsx:46-71 | on a graph the backend accepts, a node is placed in layer k if and only if the backend puts it in layer k |
| `DagLayout.ExtraLayerIsBehindCycle` | frontend/src/components/workflow/dag-viewer.tsx:67-71 | with known endpoints the extra layer holds exactly the nodes on or reachable from a cycle |
| `CycleDetection.CycleChecker.CanReach` | backend/src/lingshu/ontology/validators/cycle_detection.py:24-42 | despite pruning by the shared visited set, true only for real reachability, and false only with a visited set closed under EXTENDS up to the nodes still being explored; terminates on cyclic graphs |
| `CycleDetection.CycleChecker.CheckInterfaceCycle` | backend/src/lingshu/ontology/validators/cycle_detection.py:7-57 | accepts if and only if no new parent reaches the interface along existing EXTENDS edges; a rejection names a parent that does |
| `CycleDetection.ClosedSetTrapsWalks` | backend/src/lingshu/ontology/validators/cycle_detection.py:24-42 | a failed search's visited set is closed, so no path leads from it to the interface |
| `CycleDetection.CheckDecidesAcyclicity` | backend/src/lingshu/ontology/validators/cycle_detection.py:13-16 | on an acyclic hierarchy, adding the edges keeps it acyclic if and only if the check accepts |
| `Conditions.ResolveValue` | backend/src/lingshu/function/workflows/engine.py:123-132 | walking the dotted path step by step gives the nested value, and null as soon as a step is not a dictionary |
| `Conditions.ConditionDependsOnReads` | backend/src/lingshu/function/workflows/engine.py:93-132 | a condition's value depends only on the first segment of the one path it mentions |
| `Conditions.ComparesAsWritten` | backend/src/lingshu/function/workflows/engine.py:29-36 | on numbers, booleans included, each operator is the mathematical one; <= and >= on strings follow code points; a comparison raises exactly for an ordering of anything else |
| `Conditions.LiteralRoundTrip` | backend/src/lingshu/function/workflows/engine.py:135-156 | every integer, boolean and quoted string reads back from its printed form as itself |
| `Conditions.PrintedComparisonSplits` | backend/src/lingshu/function/workflows/engine.py:110-117 | for every trimmed path and literal, printed text splits into its own operator, path and literal if and only if the path does not contain the operator and neither side contains one that is tried before it; longest-first ordering is what makes <= and >= come out right |
| `Conditions.ComparisonRoundTrip` | backend/src/lingshu/function/workflows/engine.py:93-117 | under exactly that condition, evaluating the text of a comparison compares the resolved path with the literal's value |
| `Conditions.OperatorFreeTextQualifies` | backend/src/lingshu/function/workflows/engine.py:110-117 | paths and literals without operator characters, so all numbers and booleans, always round-trip, for every operator |
| `Scheduling.ScheduleSolves` | backend/src/lingshu/function/workflows/engine.py:192-226 | running batches in a dependency-respecting schedule solves, for all nodes at once, the equation that each node's outcome is decided from its ancestors' outcomes |
| `Scheduling.SchedulesAgree` | backend/src/lingshu/function/workflows/engine.py:192-226 | any two dependency-respecting schedules of the same graph, whatever their batches, give the same outcome for every node |
| `WorkflowEngine.OutcomeDependsOnReads` | backend/src/lingshu/function/workflows/engine.py:249-294 | whether a node runs and what it returns depend only on the names that its incoming conditions and its mappings mention |
| `WorkflowEngine.RunsWhenConditionsHold` | backend/src/lingshu/function/workflows/engine.py:248-260 | a node runs if and only if every condition on its incoming edges holds |
| `WorkflowEngine.FirstRefusalDecides` | backend/src/lingshu/function/workflows/engine.py:255-260 | otherwise the first condition that does not hold decides whether the node is skipped or the run ends with an error |
| `WorkflowEngine.Gather` | backend/src/lingshu/function/workflows/engine.py:202-209 | whatever order the tasks of a layer finish in, each result is that of its own task on the context from before the layer |
| `WorkflowEngine.RunLayer` | backend/src/lingshu/function/workflows/engine.py:192-226 | one layer records exactly the outcomes decided from the context before it, and stops exactly when some condition raises |
| `WorkflowEngine.Execute` | backend/src/lingshu/function/workflows/engine.py:162-234 | fails exactly when the graph cannot be sorted; otherwise the report is that of the one layering there is, and, if nodes read only inputs, ancestors, descendants or themselves, the same up to the order of steps as running the nodes one at a time in any edge-respecting order |
| `WorkflowEngine.ReportIsFaithful` | backend/src/lingshu/function/workflows/engine.py:211-234 | the report has one step per failed or succeeded node with its own error or result, outputs of the succeeded ones only, and partial failure exactly when some node failed |
| `WorkflowEngine.ParallelMeansSequential` | backend/src/lingshu/function/workflows/engine.py:162-294 | if nodes read only inputs, ancestors, descendants or themselves, the layered run has the same outputs, per-node results and status as running nodes one at a time in any edge-respecting order |
| `WorkflowEngine.ReportsAgree` | backend/src/lingshu/function/workflows/engine.py:162-234 | any two schedules report the same status, outputs and set of steps |
| `ScheduleDependence.IncomparableReadDiffers` | backend/src/lingshu/function/workflows/engine.py:271-294 | a node that reads a node it has no path to or from comes out differently in two topological orders |
| `ScheduleDependence.SchedulesAgreeExactly` | backend/src/lingshu/function/workflows/engine.py:192-294 | for unconditional capability nodes under the default stub whose mappings name a node's output, its id or its inputs: all schedules agree if and only if every node that is read is an ancestor, a descendant or the reader itself |
| `OntologyGraph.GraphRepository.PromoteStagingToActive` | backend/src/lingshu/ontology/repository/graph_repo.py:546-588 | an attempt that stops after k statements leaves the graph of the first k statements; a clean one leaves all three applied |
| `OntologyGraph.GraphRepository.RollbackToSnapshot` | backend/src/lingshu/ontology/repository/graph_repo.py:590-623 | node by node, exactly the tenant's nodes stamped with the target and the previously active ones without the current stamp are active afterwards, and nothing else changes |
| `OntologyGraph.DeletesOnlyMatches` | backend/src/lingshu/ontology/repository/graph_repo.py:171-202 | deleting removes every copy of each match and no copy of anything else, and keeps the order |
| `OntologyGraph.PrefixesAbsorb` | backend/src/lingshu/ontology/repository/graph_repo.py:551-588 | repeating any prefixes of the promotion leaves exactly the graph of the longest one |
| `RetriedPromotion.Retry` | backend/src/lingshu/ontology/retry.py:26-72 | after any mix of partial failures, including statements that committed but reported failure, a success leaves the graph of one clean promotion; states the number of attempts and the total sleep |
| `RetriedPromotion.RetriesAreBounded` | backend/src/lingshu/ontology/retry.py:49-63 | at most max_retries + 1 attempts, and total sleep within both base_delay * (2^max_retries - 1) and max_retries * max_delay |
| `RetriedPromotion.GeometricBound` | backend/src/lingshu/ontology/retry.py:55 | the sleeps so far never exceed the uncapped geometric sum |
| `OntologyService.Service.CreateEntity` | backend/src/lingshu/ontology/service.py:134-172 | adds one draft owned by the caller unless an active entity of the label has the API name |
| `OntologyService.Service.UpdateEntity` | backend/src/lingshu/ontology/service.py:213-264 | lock first, then immutable fields; edits the caller's draft or clones staging before active |
| `OntologyService.Service.DeleteEntity` | backend/src/lingshu/ontology/service.py:266-300 | adds a deletion draft next to an active version; otherwise removes the caller's draft, or failing that the staging version |
| `OntologyService.Service.SubmitToStaging` | backend/src/lingshu/ontology/service.py:591-623 | turns the caller's draft into a staging version and releases the edit lock |
| `OntologyService.Service.DiscardDraftVersion` | backend/src/lingshu/ontology/service.py:625-640 | removes the caller's drafts of the entity, or reports that there are none |
| `OntologyService.Service.DiscardStagingVersion` | backend/src/lingshu/ontology/service.py:642-673 | removes staging next to an active version, otherwise reopens every version of the entity as the caller's draft |
| `OntologyService.Service.DiscardAllStaging` | backend/src/lingshu/ontology/service.py:788-801 | the loop of single deletions removes exactly the tenant's labelled staging nodes and counts one per node found |
| `OntologyService.Service.EntityChanges` | backend/src/lingshu/ontology/service.py:718-730 | classifies every staged version as create, update or delete; of several versions of one rid the last counts |
| `OntologyService.Service.CommitStaging` | backend/src/lingshu/ontology/service.py:690-786 | the whole new state of graph, snapshots, pointer and commit lock, for the lock conflict, empty staging, failed promotion and success |
| `OntologyService.Service.RollbackToSnapshot` | backend/src/lingshu/ontology/service.py:857-898 | refuses with uncommitted changes or an unknown snapshot; otherwise switches the graph and moves the pointer |
| `OntologyService.DiscardedEverything` | backend/src/lingshu/ontology/service.py:788-801 | deleting one listed node's label and rid after the other is one bulk deletion |
| `OntologyRuns.EditKeepsLive` | backend/src/lingshu/ontology/service.py:134-300 | no create, update, delete, submit or discard, by any user, touches the live nodes, the snapshots or the pointers |
| `OntologyRuns.ActiveReadsAreIsolated` | backend/src/lingshu/ontology/repository/graph_repo.py:68-83 | after any sequence of such steps every active read returns what it returned before |
| `OntologyRuns.RunsAreTidy` | backend/src/lingshu/ontology/service.py:591-673 | in every state of every run with fresh rids, failed and half-applied promotions and rollbacks included, no node is both draft and staging, a node has an owner exactly when it is a draft, and every version of an entity has one label |
| `OntologyRuns.RunsAreSound` | backend/src/lingshu/ontology/service.py:690-771 | in every state of every run whose promotions get through their retries, rollbacks included, stamps besides name known snapshots and a committed version stamped with the current snapshot is active |
| `OntologyViews.ViewIsWhatReadsReturn` | backend/src/lingshu/ontology/repository/graph_repo.py:68-83 | an active read finds an entity if and only if the active view shows its rid and the label is the entity's, and then with the same content; whatever the view shows has a label |
| `OntologyReplay.CommitKeepsUnique` | backend/src/lingshu/ontology/repository/graph_repo.py:551-588 | at most one active version per rid survives a commit of at most one staged version per rid |
| `OntologyReplay.SnapshotFacts` | backend/src/lingshu/ontology/service.py:718-750 | the recorded changes and data cover exactly the staged rids, each with its own version |
| `OntologyReplay.CommitUpdatesView` | backend/src/lingshu/ontology/service.py:690-786 | a commit overrides the view by live staged payloads and removes deletion-marked rids, leaves no staging node, and changes no other tenant's view |
| `OntologyReplay.ChangesAreExact` | backend/src/lingshu/ontology/service.py:718-730 | create means new to the view, update means already in it, delete means absent afterwards, and unlisted rids are unchanged |
| `OntologyReplay.ChainFollowsParents` | backend/src/lingshu/ontology/service.py:736-738 | the snapshots that are replayed are the parent path from a root to the active pointer |
| `OntologyReplay.RunsReplay` | backend/src/lingshu/ontology/service.py:690-786 | event sourcing: after any rollback-free run from the empty graph, with at most one staged version per rid at each commit, every tenant's view is the fold of its snapshots along that path |
| `OntologyRollback.RollbackRestores` | backend/src/lingshu/ontology/repository/graph_repo.py:590-623 | rid by rid: rolling a commit back to its parent gives the earlier content except for staged rids whose superseded version carries another stamp, which vanish |
| `OntologyRollback.RollbackIsExact` | backend/src/lingshu/ontology/service.py:857-898 | rolling back to the parent restores the view from before the commit if and only if every rid the commit updated or deleted had its superseded version stamped with that parent |
| `OntologyRollback.RollbackDropsCreated` | backend/src/lingshu/ontology/repository/graph_repo.py:590-623 | what the commit only created disappears again |
| `RollbackExample.RollbackCanLose` | backend/src/lingshu/ontology/repository/graph_repo.py:590-623 | a run from the empty graph (publish a, publish b, publish an update of a, roll back) after which a has no active version although the target snapshot showed it |
| `OntologyRollback.RollbackAnywhere` | backend/src/lingshu/ontology/repository/graph_repo.py:590-623 | for any target, the live versions afterwards are the target's own and the previously live ones of all snapshots but the current one |
| `OntologyRollback.RollbackKeepsUniqueExactly` | backend/src/lingshu/ontology/repository/graph_repo.py:590-623 | one active version per rid survives a rollback to any target if and only if no two nodes with the target's stamp share a rid, and no live version of a third snapshot shares a rid with one of them |
| `RollbackExample.RollbackCanDouble` | backend/src/lingshu/ontology/repository/graph_repo.py:590-623 | a run from the empty graph (publish a, publish b, publish an update of a, publish c), from whose last snapshot a rollback to the first leaves both versions of a active |
| `OntologyRollback.RollbackShows` | backend/src/lingshu/ontology/repository/graph_repo.py:590-623 | otherwise each rid shows the target's version, else its live one of another snapshot, else nothing |
| `OntologyHistory.RunsKeepHistory` | backend/src/lingshu/ontology/service.py:690-786 | in every state of every rollback-free run that reopens no published version, the tenant's published nodes are one version for each entry of each snapshot of its chain, with the recorded content, and a version is active if and only if no later snapshot of the chain changes its rid |
| `OntologyHistory.ReplayIsLastChange` | backend/src/lingshu/ontology/service.py:745-770 | replaying a chain shows each rid as the last snapshot that changes it recorded it |
| `OntologyHistory.RewindKeepsUniqueExactly` | backend/src/lingshu/ontology/service.py:857-898 | after such a run, a rollback to any snapshot of the chain keeps one active version per rid if and only if no rid that the target published was last changed, other than by a deletion, by a snapshot that is neither the target nor the current one |
| `OntologyHistory.RewindShows` | backend/src/lingshu/ontology/repository/graph_repo.py:590-623 | then a rid shows what the target recorded, else what the last change by a third snapshot did, else nothing |
| `OntologyHistory.RewindIsExact` | backend/src/lingshu/ontology/service.py:857-898 | after such a run, a rollback to any snapshot of the chain, the current one included, gives one active version per rid and the view that replaying the target's chain gives, if and only if each rid that a third snapshot left active has an older version of equal content at the target, and the target itself published every other rid that its chain shows |
| `ServerSentEvents.ToSse` | backend/src/lingshu/copilot/a2ui/protocol.py:35-44 | an optional id line, the event line, one data line and a blank line, each ended by a newline |
| `ServerSentEvents.SplittingIsFeeding` | frontend/src/lib/sse.ts:57-59 | appending to the buffer, splitting it and keeping the last piece is reading the chunk character by character |
| `ServerSentEvents.ReadLoop` | frontend/src/lib/sse.ts:50-84 | the callbacks made and the leftover buffer are those of a character automaton that forgets a pending data line at every chunk start |
| `ServerSentEvents.ChunksAreCuts` | frontend/src/lib/sse.ts:53-61 | a chunking matters only through the positions at which chunks start |
| `ServerSentEvents.ReaderDelivers` | frontend/src/lib/sse.ts:50-84 | for any events and any chunking, exactly the events whose two final newlines arrive in one chunk are delivered, in order, once each, and the buffer ends empty |
| `ServerSentEvents.RoundTripIsExact` | frontend/src/lib/sse.ts:61-81 | everything is delivered if and only if no chunk starts between the final newlines of a record |
| `ServerSentEvents.CutLosesEvent` | frontend/src/lib/sse.ts:61-81 | a chunk boundary before the last newline loses the event |
| `EventStreamStandard.StandardReadsPrinted` | backend/src/lingshu/copilot/a2ui/protocol.py:35-44 | a client conforming to section 9.2.6 of the WHATWG HTML Living Standard dispatches one a2ui message per event, carrying its JSON text and the last id |
| `EventStreamStandard.ReaderMeetsStandard` | frontend/src/lib/sse.ts:50-84 | the incremental reader's callbacks are those the standard's messages call for if and only if no record is cut between its final newlines |
| `StoreKeys.IsoOrderIsTimeOrder` | backend/src/lingshu/data/writeback/fdb_store.py:90 | string order of ISO timestamps is time order, zero-microsecond forms included |
| `StoreKeys.PrefixIsFilter` | backend/src/lingshu/data/writeback/fdb_store.py:63-78 | a packed tuple starts with a packed leading tuple if and only if its leading parts are those, provided the last one has no NUL |
| `StoreKeys.OrderOfKeys` | backend/src/lingshu/data/writeback/fdb_store.py:63-78 | keys that differ in the timestamp only are ordered by it |
| `EditLogStores.FdbEditLogStore.Write` | backend/src/lingshu/data/writeback/fdb_store.py:82-115 | sets one key and keeps the store sorted |
| `EditLogStores.FdbEditLogStore.ReadByKey` | backend/src/lingshu/data/writeback/fdb_store.py:118-144 | returns, in key order, the scanned entries of the branch |
| `EditLogStores.EditLogStore.ReadByKey` | backend/src/lingshu/data/writeback/fdb_client.py:83-105 | no entry is earlier than one in front of it, and each row that answers the query occurs as often as in the table, no other one at all |
| `EditLogStores.WrittenFacts` | backend/src/lingshu/data/writeback/fdb_store.py:107-109 | the store holds, per key, exactly the last write, in key order |
| `EditLogStores.ScanIsFilter` | backend/src/lingshu/data/writeback/fdb_store.py:130-140 | the prefix scan finds exactly the entries of the tenant, type and primary key |
| `EditLogStores.StoreRefinesTable` | backend/src/lingshu/data/writeback/fdb_store.py:118-144 | with distinct times per entity both back ends return the same list for every key and branch |
| `EditLogStores.SharedTimeIsLost` | backend/src/lingshu/data/writeback/fdb_store.py:90-109 | two writes of one entity at one time: the table returns the earlier one, the key-value store has lost it |
| `EditLogStores.StoresAgreeExactly` | backend/src/lingshu/data/writeback/fdb_client.py:83-105 | all reads agree if and only if no entity has two writes at one time, on any branches |
| `EditLogMerge.MergeRow` | backend/src/lingshu/data/pipeline/merge.py:26-57 | the loop computes the replay of the entity's log over the base row |
| `EditLogMerge.ReplayIsClosedForm` | backend/src/lingshu/data/pipeline/merge.py:45-55 | per field, the value of the last update after the last create or delete that mentions it, else that create's or the base's; no row exactly when the last reset left none and no update follows |
| `EditLogMerge.HasLastReset` | backend/src/lingshu/data/pipeline/merge.py:45-55 | every log has exactly one last create or delete, or none |
| `EditLogMerge.HasLastMention` | backend/src/lingshu/data/pipeline/merge.py:45-55 | a field that is mentioned has a last mention, so the closed form gives every field a value |
| `EditLogMerge.EveryReplayHasClosedForm` | backend/src/lingshu/data/pipeline/merge.py:45-55 | so every log has a last reset after which its replay is that closed form |
| `EditLogMerge.ReplayComposes` | backend/src/lingshu/data/pipeline/merge.py:45-55 | replaying a log and then another is replaying their concatenation |
| `EditLogMerge.ResetForgets` | backend/src/lingshu/data/pipeline/merge.py:46-55 | everything before a create or delete, the base row included, can be dropped |
| `EditLogMerge.MergeRows` | backend/src/lingshu/data/pipeline/merge.py:59-88 | the result lists, in order and once each, the merged form of exactly the rows that survive; rows without a key pass through |
| `EditLogMerge.SurvivorsAscend` | backend/src/lingshu/data/pipeline/merge.py:75-86 | the surviving positions are strictly increasing and are exactly those whose merge is a row |
| `EditLogMerge.MergeIgnoresBackEnd` | backend/src/lingshu/data/pipeline/merge.py:36-38 | with distinct times a merged row does not depend on the back end |
| `QueryTranslation.BuildColumnMap` | backend/src/lingshu/data/pipeline/query_engine.py:83-91 | a name gets the column of its last property that has one, and none if there is no such property |
| `QueryTranslation.RenamesBack` | backend/src/lingshu/data/pipeline/query_engine.py:46-50 | renaming a selected row back gives the logical row if and only if no two names share a column |
| `QueryTranslation.FiltersTranslate` | backend/src/lingshu/data/pipeline/query_engine.py:93-116 | translation fails exactly when a filter names a masked field; otherwise it keeps, in order, the filters on physical fields under their columns |
| `QueryTranslation.SortTranslates` | backend/src/lingshu/data/pipeline/query_engine.py:118-135 | the same for sorts |
| `QueryTranslation.MatchedCommutes` | backend/src/lingshu/data/pipeline/query_engine.py:28-44 | filtering and stable sorting on columns commute with renaming rows |
| `QueryTranslation.QueryInstances` | backend/src/lingshu/data/pipeline/query_engine.py:17-56 | refused exactly for masked fields; otherwise total and columns are those of the query on the logical table, and so are the rows if and only if no two names share a column or there are no rows |
| `QueryTranslation.WhereAfterOrder` | backend/src/lingshu/data/connectors/doris.py:110-122 | a filter commutes with a stable sort by any weak order |
| `QueryTranslation.RefilteringIsStrict` | backend/src/lingshu/data/pipeline/query_engine.py:107-110 | filters on virtual fields are dropped; enriching the unsliced answer and filtering again gives exactly the strict query on the enriched table, in the same order |
| `VirtualFields.EvalDependsOnMentions` | backend/src/lingshu/data/pipeline/virtual_eval.py:29-57 | an expression's value depends only on the names it mentions |
| `VirtualFields.ErrorsPropagate` | backend/src/lingshu/data/pipeline/virtual_eval.py:16-57 | an error in any operand or argument, both branches of IF included, makes the whole expression fail |
| `VirtualFields.ErrorsGiveNull` | backend/src/lingshu/data/pipeline/virtual_eval.py:22-26 | ... and the field becomes null |
| `VirtualFields.NullsPropagate` | backend/src/lingshu/data/pipeline/virtual_eval.py:38-50 | a null inside arithmetic makes the result null unless something raises |
| `VirtualFields.NumbersFollowArithmetic` | backend/src/lingshu/data/pipeline/virtual_eval.py:38-44 | on integers, booleans and reals an operator gives the number it means, an integer exactly when both operands are and it is not a division, and fails exactly on division by zero |
| `VirtualFields.ApplyVirtualFields` | backend/src/lingshu/data/pipeline/virtual_eval.py:74-88 | every row is enriched field by field, in order, and no row is lost |
| `VirtualFields.EnrichSolves` | backend/src/lingshu/data/pipeline/virtual_eval.py:82-88 | if each field mentions only physical or earlier fields, the final row satisfies all equations at once and physical fields are unchanged |
| `VirtualFields.SolutionIsUnique` | backend/src/lingshu/data/pipeline/virtual_eval.py:82-88 | those equations have one solution over given physical fields |
| `VirtualFields.OrderIsIrrelevant` | backend/src/lingshu/data/pipeline/virtual_eval.py:85-86 | any two dependency-respecting orders give the same row |
| `VirtualFields.SolvesExactly` | backend/src/lingshu/data/pipeline/virtual_eval.py:82-88 | for any order of the fields, a row satisfies all equations if and only if evaluating the fields on it changes nothing |
| `VirtualFields.LaterFieldIsNotSeen` | backend/src/lingshu/data/pipeline/virtual_eval.py:85-86 | a field that is the bare name of a later one gets that name's physical value; its equation holds if and only if the later field comes out as that value |
| `VirtualFields.LaterConstantIsMissed` | backend/src/lingshu/data/pipeline/virtual_eval.py:82-88 | two fields, the first the name of the second and the second the constant 1: whatever the row, if it lacks that name, the first field's equation fails |
| `ExecutionLifecycle.FunctionService.ExecuteAction` | backend/src/lingshu/function/service.py:67-185 | the whole new state for every failing stage, for a pending confirmation and for a direct run |
| `ExecutionLifecycle.FunctionService.ConfirmExecution` | backend/src/lingshu/function/service.py:434-489 | the whole new state for a missing, non-pending, expired, failing and succeeding confirmation |
| `ExecutionLifecycle.FunctionService.CancelExecution` | backend/src/lingshu/function/service.py:491-523 | cancels exactly the tenant's pending record |
| `ExecutionLifecycle.FunctionService.RunInBackground` | backend/src/lingshu/function/service.py:384-430 | runs the scheduled action without confirmation and settles its record as success or failed |
| `ExecutionLifecycle.FunctionService.ExecuteGlobalFunction` | backend/src/lingshu/function/service.py:604-664 | one finished record, or none when an unhandled exception rolls it back |
| `ExecutionLifecycle.FunctionService.ExecuteActionBatch` | backend/src/lingshu/function/service.py:289-331 | success and failure counts add up to the total, which is the number of results; only an unhandled error ends it early |
| `ExecutionRuns.BatchIsSeparateRequests` | backend/src/lingshu/function/service.py:307-324 | a batch leaves the state of its items run as separate requests, with results numbered in order |
| `ExecutionRuns.StepMoves` | backend/src/lingshu/function/service.py:434-523 | records move only from pending to success, cancelled or expired and from running to success or failed; what a record asks for never changes |
| `ExecutionRuns.TerminalRecordsStay` | backend/src/lingshu/function/service.py:448-452 | a record that is terminal at some point of a run is unchanged at the end |
| `ExecutionRuns.ConfirmsExactly` | backend/src/lingshu/function/service.py:434-489 | a confirmation succeeds if and only if the record is the tenant's, pending, at most ten minutes old, and all stages pass |
| `ExecutionRuns.ConfirmedAtMostOnce` | backend/src/lingshu/function/service.py:448-452 | no record is successfully confirmed twice in a run |
| `ExecutionRuns.RunsAreAccounted` | backend/src/lingshu/function/service.py:470-489 | in every run, every engine run without skipped confirmation is of a direct level, every run for a confirmation is asked for by its record in time, and every delegation points at such a run |
| `ExecutionRuns.CompletesAtMostOnce` | backend/src/lingshu/function/service.py:470-489 | of the engine runs on behalf of one pending record at most one completed |
| `ExecutionRuns.SuccessMeansRun` | backend/src/lingshu/function/service.py:128-177 | in every run, each successful action record has an engine run of exactly what it asks for |
| `ExecutionRuns.DelegationsAreDistinct` | backend/src/lingshu/function/service.py:479-487 | no two confirmed records delegate to the same execution |
| `ExecutionRuns.ConfirmedRunsAreSteps` | backend/src/lingshu/function/service.py:434-489 | in any run, an engine run on behalf of a record happened in a step that confirmed that record while it was pending and not expired |
| `ExecutionRuns.EveryRunIsConfirmed` | backend/src/lingshu/function/safety/enforcer.py:50-79 | without skip_confirmation and background requests, every engine run outside the direct levels is the run of some step that confirms a record of its tenant which at that point is pending, not expired, and asks for exactly this run |

## Left out

- Floating point: numbers are reals, so rounding, NaN and infinities do not appear; parsing of floats, `round`, `str` and `int` are parameters.
- Text beyond the basic cases: `strip` knows ASCII and Latin-1 white space, `lower` and `int` know ASCII letters and digits.
- JSON, SHA-256 and date parsing: assumed to be functions with the stated laws (decoding undoes encoding on the events at hand, no raw newline in encoded text, no collision and no NUL among the hashes of the keys used); key-value blobs are stored decoded.
- UTF-8: the reader sees whole characters, as a streaming text decoder delivers them; strings in keys stand for their bytes.
- CR and CRLF line ends, byte-order marks and `retry` fields of event streams: the printer writes none.
- Data lines whose JSON is not an object: the printer writes objects only.
- Callbacks that throw, aborted connections and HTTP errors in the stream reader.
- Node executors that act on shared state: an executor is a function of the node and its resolved inputs.
- Error texts, log lines, commit messages and creation times.
- ScheduleSolves: the ancestors' outcomes determine a node's outcome by hypothesis; `WorkflowEngine.OutcomesAreLocal` establishes it from what nodes read.
- Edit locks: a parameter of each run (any step may change them), because expiry rests on the clock of the lock store; the commit lock's expiry during a commit is not modelled.
- RunsReplay: a promotion that exhausts its retries, or a failure between the two databases, does not occur in these runs; `OntologyService.Service.CommitStaging` states what the former leaves behind.
- RunsKeepHistory: leaves out runs with rollbacks before, and runs that reopen published versions: discarding the staging version of an entity without an active one turns its historical versions into drafts, so later rollbacks do not find them.
- DiscardStagingVersion: follows the code in reopening every version of the entity, historical ones included.
- Requests that update version flags through their payload: updates carry payload fields only, as the request schemas do.
- The reference check before a delete: a parameter; relationships between nodes are not in the version model.
- PropertyType cascades, contract checks, cache invalidation, search and topology queries: single loops or plumbing.
- Field-level snapshot differences: exact but easy, and not needed for replay.
- Concurrency between requests: each request, and each background run, is one step; inside a workflow layer any completion order is covered.
- FdbEditLogStore.ReadByKey: time order holds for UTC timestamps, which is what entries carry by default.
- `read_recent`: over-fetches by key order, so it has no clean relation to the table.
- `MaskedField`: which of several masked fields an error names.
- QueryInstances: the data source is a filter, a stable sort and a slice; a missing column reads as null instead of failing, and the order of ties in a real database is unspecified.
- Expression forms that `ast.parse` knows and the evaluator ignores: one `Unsupported` form; constants that are not JSON values.
- Write-back details of an action: a stage that returns entry ids or fails; the uncommitted session after a failure rolls back.
- ConfirmExecution: a confirmation whose run fails leaves the record pending, as in the code, so the engine may run again for it; at most one such run completes.
- `AsyncStep` records that stay running because the process stops before their background run.
- Routers, schemas, migrations, language-model clients, styling: no property beyond their bodies.
