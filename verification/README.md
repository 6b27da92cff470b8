# Keep: verified models

Dafny models of the parts of Keep whose correctness is hardest to see from the code, with
proofs of what they promise. Each method is proved against a specification function, and
the lemmas say what that function is worth.

- **Workflow builder** (`Flow*.dfy`). A workflow is a tree of steps, two-branch conditions
  and loops. The builder flattens it into nodes with sentinels and an edge list, and reads
  the node list back with three mutually recursive index-passing scanners. Reading back
  what was flattened gives the same tree; the edges form an acyclic, series-parallel graph.
- **Event workflow scheduler** (`ExecutionTable.dfy`, `Scheduler*.dfy`,
  `WorkflowScheduler.dfy`). Any number of schedulers, producers and worker threads share
  one execution table. Every interleaving of their steps, each a single change of shared
  state, is a run of a transition system; the classes are the loops the program runs, tied
  to the same functions.
- **Template functions** (`Io*.dfy`). The automaton that finds `keep.f(...)` calls in a text
  and the insertion of backslashes before quotes it noted.
- **Alert correlation** (`MiningWindows.dfy`, `AlertGraph.dfy`, `Incident*.dfy`). Sliding
  windows with a stored checkpoint, the thresholded graph and its components, and incidents
  as objects that batch after batch extends.
- **SQL placeholders** (`SqlPlaceholders.dfy`, `SqlPieces.dfy`), **scores**
  (`JaccardScores.dfy`, `PmiScores.dfy`, `PmiValues.dfy`), **fatigue windows**
  (`FatigueWindows.dfy`) and **deep merge** (`DeepMerge.dfy`, `MergeObjects.dfy`,
  `MergeLaws.dfy`). `Selections.dfy` says what filtering is.

`dafny verify dfyconfig.toml` checks everything.

## What the code does not promise

Where an expected property is false, the model keeps the code as it is, the exact condition
is proved for all inputs, and a lemma shows an input at which it fails.

- *Mutual exclusion.* The unique constraint behind a claim contains a two-minute time slot
  (`keep/api/models/db/workflow.py:30-44`), which the comments at
  `keep/workflowmanager/workflowscheduler.py:354-370` do not mention. Two executions of a
  non-parallel workflow for one fingerprint are therefore kept apart only within a slot
  (`SlotsBreakExclusion`); runs are exclusive if and only if no claim is made past an
  execution that is still open from another slot (`ExclusionIff`). An event without a
  fingerprint is numbered at random and excludes nothing.
- *Release.* A finished execution gets a random number in place of its running mark, which is
  1, and that number can be 1 itself (`keep/api/core/db.py:615`): then the finished execution
  goes on blocking the next one of its slot (`FreedIff`; `DrawOfOneBlocks`).
- *Lost entries.* A workflow whose strategy is to give up on a collision makes the scheduler
  finish an execution that was never created. That raises, leaves the loop, and the rest of
  the swapped batch is gone (`CollisionLosesOthers`). `Escapes` lists every way to raise;
  no entry is ever lost on a run if and only if no step that has entries behind it escapes
  (`LossIff`).
- *Escapes.* The positions of noted quotes are offsets into the whole text but are used as
  offsets into the call, so the backslashes come to stand before the noted quotes if and only
  if the call starts the text or nothing was noted (`SingleRepairIff`). Elsewhere the repaired
  call may hold no call any more (`BlankBreaksRepair`) or scan as one whose string has become
  two (`MisplacedStillScans`). With several calls the offset for backslashes already inserted
  is missing as well, which only goes unnoticed behind backslashes (`ManyRepairIff`;
  `SecondQuoteBreaksRepair`).
- *Windows.* A run that its caller starts later than the checkpoint can leave times out for
  good (`LateCallSkips`); everything up to the checkpoint stays covered if and only if no run
  skips a time (`RunsCoverIff`), which no run does that starts at the checkpoint.
- *Checkpoint.* A run stores a checkpoint between three and four strides before its upper bound
  (`CheckpointBehindUpper`), which is before its own start if and only if at most three strides
  are between its bounds (`CheckpointMoves`), as for a first run with few alerts
  (`FirstCheckpointIsEarly`). For runs in the order of the clock a stored checkpoint never falls
  again, but for calls with a lower bound of their own, and then by less than a stride
  (`CheckpointHolds`); a call with an earlier upper bound does move it back
  (`EarlierCallMovesBack`).
- *Batches.* The loop that collects fingerprints of existing incidents keeps only those of
  the last incident, so the graph covers all of them if and only if every incident's
  fingerprints are in the batch or in the last one (`AmendedIsAllIff`), and an older incident
  is passed over that the whole graph would extend (`OldIncidentForgotten`); `ExtendedIff`
  says which incidents are extended. A component that is large enough but has no alert in the
  batch breaks the run off (`BatchFailsIff`; `BatchBreaksOff`).
- *Graph.* `create_graph` looks a pair of fingerprints up in one order only, so for an arbitrary
  matrix it is independent of the list's order if and only if the scores are symmetric
  (`OrderIndependentIff`; `OrderChangesGraph`). The matrix the program passes is symmetric,
  whatever the rounding, so there the order makes no difference to a batch
  (`BatchIndependent`).
- *Placeholders.* That each placeholder is followed by a character that belongs to no key is
  not enough (`FollowedIsNotEnough`): a piece of text right before a placeholder can grow
  into another placeholder. `AgreesIff` gives the exact condition on the template, the keys
  and which of the values are strings.
- *Deep merge.* A source with a list of anything but objects cannot be merged twice
  (`IdempotentIff`; `NumbersMergeOnce`).
- *Fatigue.* An empty list fails, and an empty window scores higher than one with a single
  alert, the only case in which a larger count scores less (`ScoreGrows`).

## Model

| member | source | states |
|---|---|---|
| FlowBuilder.CreateCustomEdges | keep-ui/utils/reactFlow.ts:290-308 | one edge from the source to each target, with the label |
| FlowBuilder.HandleDefaultNode | keep-ui/utils/reactFlow.ts:310-329 | a node unless the step is temporary, and edges unless it is the end or says it needs none |
| FlowBuilder.AdjustEdges | keep-ui/utils/reactFlow.ts:226-238 | a branch's first edge is moved to the condition and labelled, its last one dropped |
| FlowBuilder.HandleSwitchNode | keep-ui/utils/reactFlow.ts:187-256 | wrapping, flattening and patching both branches gives the nodes and edges of the direct recursive definition, which has no temporary steps |
| FlowBuilder.HandleForeachNode | keep-ui/utils/reactFlow.ts:362-388 | the same for a loop and its temporary frame |
| FlowBuilder.ProcessStep | keep-ui/utils/reactFlow.ts:390-425 | dispatch on the kind of step gives that step's nodes and edges |
| FlowBuilder.ProcessWorkflow | keep-ui/utils/reactFlow.ts:427-452 | the loop over a sequence gives the nodes and edges of the whole sequence |
| FlowBuilder.WrappedFlattens | keep-ui/utils/reactFlow.ts:187-225 | the temporary steps around a branch add exactly its sentinel and two edges |
| FlowBuilder.UnrolledFlattens | keep-ui/utils/reactFlow.ts:376-386 | the temporary steps around a loop body add exactly its sentinel, the entry edge and two edges |
| FlowReader.ProcessForeach | keep-ui/utils/reactFlow.ts:22-52 | on any node list the scanner ends between its bounds and returns what the single-pass reading gives |
| FlowReader.ProcessCondition | keep-ui/utils/reactFlow.ts:54-101 | the same for conditions, whose two branches may come in any order or not at all |
| FlowReader.BuildWorkflowDefinition | keep-ui/utils/reactFlow.ts:103-122 | the same at the top level |
| FlowReader.ReconstructDefinition | keep-ui/utils/reactFlow.ts:10-132 | end nodes and triggers are filtered out and the rest is read; the properties come back with the manual trigger noted when some node is called so |
| FlowReader.IncludesIff | keep-ui/utils/reactFlow.ts:21 | a node is filtered out as a trigger if and only if the word stands somewhere in its component type |
| FlowReader.ScanConserves | keep-ui/utils/reactFlow.ts:22-122 | on any node list, whatever was read out of a stretch is made of that stretch's nodes, each used at most once |
| FlowReader.EachNodeOnce | keep-ui/utils/reactFlow.ts:10-132 | every node of any list enters the definition at most once |
| FlowReader.UnclosedIsEmpty | keep-ui/utils/reactFlow.ts:22-101 | a loop whose sentinel is not in the list comes back empty, and so does a branch of a condition |
| FlowRoundTrip.NormalMeansTheSame | keep-ui/utils/reactFlow.ts:134-185 | the record that comes back for a step differs from it only in fields that affect drawing |
| FlowRoundTrip.ScanSteps | keep-ui/utils/reactFlow.ts:22-122 | in any surroundings, scanning the nodes of a well-formed list of steps appends exactly these steps and goes on after them |
| FlowRoundTrip.ScanBranches | keep-ui/utils/reactFlow.ts:54-101 | both branches of a condition are filed under their names in either order, and the scan stops on the condition's end node |
| FlowRoundTrip.ReadBack | keep-ui/utils/reactFlow.ts:103-122 | reading a flattened list of steps gives the list |
| FlowRoundTrip.ConditionComesBack | keep-ui/utils/reactFlow.ts:54-113 | a switch step of type condition-threshold or condition-assert, flattened and read back, is one condition with both branches, absent ones empty, and the fields of its start node |
| FlowRoundTrip.RecordComesBack | keep-ui/utils/reactFlow.ts:134-288 | field by field, what comes back for a condition, a loop and any other step |
| FlowRoundTrip.RoundTrip | keep-ui/utils/reactFlow.ts:10-132 | for every well-formed tree, whatever start, trigger and end nodes frame it and whichever branch of each condition is listed first, reading back gives the same tree |
| FlowRoundTrip.LayoutReads | keep-ui/utils/hooks/useWorkflowInitialization.ts:131-162 | laying the nodes out changes nothing that is read back from any node list |
| FlowShape.NoCycle | keep-ui/utils/reactFlow.ts:427-452 | edges that only go forward along different ids have no cycle |
| FlowGraph.ForkGood | keep-ui/utils/reactFlow.ts:221-254 | forking two good blocks between a start and an end node gives a good block |
| FlowGraph.ThenGood | keep-ui/utils/reactFlow.ts:427-452 | good blocks in sequence make a good block |
| FlowGraph.ClosedGraph | keep-ui/utils/reactFlow.ts:427-452 | a closed good block is acyclic, everything is reached from its first node and reaches its last, and its edges are counted by the labels |
| FlowWorkflow.StepsGood | keep-ui/utils/reactFlow.ts:187-452 | the flattening of any drawable list of steps is a good block |
| FlowWorkflow.OpenAndSave | keep-ui/utils/hooks/useWorkflowInitialization.ts:121-201 | opening a workflow in the builder, which lays it out, and saving it untouched gives it back, whatever triggers it has, and its properties with the manual trigger noted exactly when there is one or a step brings such a node |
| FlowWorkflow.InitialGraphShape | keep-ui/utils/reactFlow.ts:427-502 | with different node ids: edges join nodes and go forward, conditions have exactly a False and a True edge, the trigger start one per trigger, every other node but the end exactly one; all nodes lie between the first and the end; edges are nodes less one, plus conditions, plus triggers after the first |
| FlowWorkflow.TriggerIff | keep-ui/utils/reactFlow.ts:454-475 | a name becomes a trigger if and only if it is interval, manual, alert or incident and has a value that counts as true |
| FlowFrame.TriggersAre | keep-ui/utils/reactFlow.ts:454-475 | the triggers are these properties, each once, in the properties' order |
| FlowFrame.FrameNodeIds | keep-ui/utils/reactFlow.ts:454-502 | the nodes of the first graph: start, trigger start, triggers, trigger end, the steps' nodes, end |
| FlowFrame.FrameRecords | keep-ui/utils/reactFlow.ts:454-502 | the nodes around the steps, field by field |
| FlowFrame.FrameEdgeIff | keep-ui/utils/reactFlow.ts:454-502 | its edges are those of the steps and, for every other edge, an edge from start to trigger start, from there to each trigger or past them, from each trigger to the trigger end, or from there to the first step |
| FlowFrame.ConditionForks | keep-ui/utils/reactFlow.ts:187-256 | the edge labelled False goes to the false branch's first step, the one labelled True to the true branch's, or to the sentinel of an empty branch; sentinels lead to the end node and that to what follows |
| FlowFrame.LoopEdges | keep-ui/utils/reactFlow.ts:362-388 | a loop leads to its first step or its sentinel, the sentinel to its end node, and that to what follows |
| FlowFrame.ConditionNodes | keep-ui/utils/reactFlow.ts:134-251 | the nodes of a condition, field by field: its own, the false branch's, the true branch's, each closed by a sentinel, and its end |
| FlowFrame.EndNames | keep-ui/utils/reactFlow.ts:144-178 | the end of a condition of either type is called threshold End or assert End |
| FlowFrame.LoopNodes | keep-ui/utils/reactFlow.ts:331-388 | the nodes of a loop, field by field |
| FlowIds.InitialNodesDiffer | keep-ui/utils/reactFlow.ts:192-202 | different step ids without underscores give different node ids throughout the first graph, generated ids included |
| FlowIds.InitialGraphFromIds | keep-ui/utils/reactFlow.ts:427-502 | the shape of the first graph from the steps' ids alone |
| ExecutionTable.Insert | keep/api/core/db.py:112-150 | a unique table stays unique |
| ExecutionTable.Finish | keep/api/core/db.py:601-625 | an unknown execution or a clashing random number fails, and a unique table stays unique |
| SchedulerPasses.InsertIff | keep/api/core/db.py:112-150 | a running row is added unless its id is taken or a running row has its workflow, number and slot |
| SchedulerPasses.FinishIff | keep/api/core/db.py:601-625 | when finishing raises, and that otherwise this row only is closed and takes the drawn number |
| SchedulerPasses.FreedIff | keep/api/core/db.py:601-625 | a finished execution makes room for the next one of its workflow, number and slot if and only if the drawn number is not 1 |
| SchedulerPasses.DrawOfOneBlocks | keep/api/core/db.py:615 | a finished execution that still blocks the next one |
| SchedulerPasses.ClaimIff | keep/workflowmanager/workflowscheduler.py:351-369 | under a strategy that is not parallel a claim is numbered by the hash of the event's fingerprint, if it has one, else at random; it is refused if and only if its id is taken or a running row has its workflow, number and slot |
| SchedulerPasses.PassEnds | keep/workflowmanager/workflowscheduler.py:282-479 | for every entry and outside answer, if and only if what a pass starts a thread, puts the entry back, fails it or drops it |
| SchedulerPasses.PassWrites | keep/workflowmanager/workflowscheduler.py:282-479 | and what it does to the table |
| SchedulerPasses.PassRecords | keep/workflowmanager/workflowscheduler.py:385-394 | and what it leaves behind: an entry put back is the same event, marked as a retry, with its workflow to be loaded again |
| WorkflowScheduler.ExecutionStore.Create | keep/api/core/db.py:102-150 | the row is added, or nothing changes when the unique key is taken |
| WorkflowScheduler.WorkflowScheduler.Enqueue | keep/workflowmanager/workflowmanager.py:132-143 | a producer's entry goes to the end of the queue |
| WorkflowScheduler.WorkflowScheduler.HandleManualEvent | keep/workflowmanager/workflowscheduler.py:213-256 | the execution exists before the entry is queued; if it cannot be created nothing is queued |
| WorkflowScheduler.WorkflowScheduler.FinishWorkflowExecution | keep/workflowmanager/workflowscheduler.py:548-565 | one finish call with its status, the table after it, and whether it raises |
| WorkflowScheduler.WorkflowScheduler.RunWorkflow | keep/workflowmanager/workflowscheduler.py:102-150 | exactly one finish call, with success if the workflow returned without errors and with an error if it reported some or raised |
| WorkflowScheduler.WorkflowScheduler.HandleOne | keep/workflowmanager/workflowscheduler.py:282-479 | the new queue, table, threads, finish calls and fates after one entry, in every branch |
| WorkflowScheduler.WorkflowScheduler.HandleEventWorkflows | keep/workflowmanager/workflowscheduler.py:275-479 | swaps the queue and ends where the step-by-step drain of the old queue ends, lost entries included |
| WorkflowScheduler.WorkflowScheduler.HandleIntervalWorkflows | keep/workflowmanager/workflowscheduler.py:52-100 | the threads, finish calls and table of the pass, and where an error ends it |
| SchedulerInterval.HandOverSplits | keep/workflowmanager/workflowscheduler.py:52-100 | every execution handed over is started, or gets one finish call, or is left behind by a raised error, exactly one of these |
| SchedulerInterval.PassIsRun | keep/workflowmanager/workflowscheduler.py:52-100 | an uninterrupted pass is a stretch of a run of the transition system |
| SchedulerInvariants.StepKeepsEntries | keep/workflowmanager/workflowscheduler.py:279-281 | every step keeps each entry ever enqueued in exactly one place: a queue, a drain, or one recorded fate |
| SchedulerInvariants.StepKeepsExecutions | keep/workflowmanager/workflowscheduler.py:63-150 | every step keeps exactly one token per execution: with an entry, a hand-over or a worker, spent on its one finish call, or left by a drain cut short |
| SchedulerSafety.StepKeepsRows | keep/api/models/db/workflow.py:30-44 | every step keeps the table unique, running rows open, and exclusive rows numbered by their fingerprint |
| SchedulerSafety.ConflictsCrossSlots | keep/api/models/db/workflow.py:30-44 | two open exclusive executions for one workflow and fingerprint can only come from different slots |
| SchedulerSafety.ClaimExclusionIff | keep/workflowmanager/workflowscheduler.py:351-384 | an accepted claim keeps mutual exclusion if and only if no such execution is still open from another slot |
| SchedulerSafety.AdvanceExclusionIff | keep/workflowmanager/workflowscheduler.py:282-479 | each single change of a pass keeps mutual exclusion if and only if it is not an exclusive claim made while such an execution is open from another slot |
| SchedulerSafety.RunExclusionIff | keep/workflowmanager/workflowscheduler.py:275-479 | mutual exclusion holds at every moment of a run, between a claim and what follows it included, if and only if no claim of the run is made while such an execution is open from another slot |
| SchedulerRuns.ReachableInvariant | keep/workflowmanager/workflowscheduler.py:213-479 | conservation of entries and executions, sound rows and the order of retries hold in every reachable state, under every interleaving of any number of schedulers, where claiming an execution and launching or finishing it are steps of their own |
| SchedulerRuns.FinishedAtMostOnce | keep/workflowmanager/workflowscheduler.py:102-150 | on every run, the finish calls for an execution and the places it can still be in add up to one |
| SchedulerRuns.SameSlotExclusion | keep/workflowmanager/workflowscheduler.py:351-417 | on every run, no two exclusive executions for one workflow and fingerprint are open from the same slot |
| SchedulerRuns.ExclusionIff | keep/workflowmanager/workflowscheduler.py:258-479 | a run from the start is exclusive at every moment if and only if none of its claims passes an open execution from another slot |
| SchedulerRuns.StepKeepsOrder | keep/workflowmanager/workflowscheduler.py:370-394 | colliding entries are requeued in their relative order, whatever producers append in between |
| SchedulerStatuses.PassSays | keep/workflowmanager/workflowscheduler.py:282-479 | a pass whose workflow does not load ends in a finish call; a call says providers are not configured if and only if the workflow had to be loaded and the load found them missing, and says error otherwise |
| SchedulerStatuses.DrainCalls | keep/workflowmanager/workflowscheduler.py:275-479 | this holds of every finish call of a whole drain, each for its own entry, in order |
| SchedulerStatuses.IntervalCalls | keep/workflowmanager/workflowscheduler.py:52-100 | an interval pass starts one thread for each execution whose workflow loads and makes one call for each whose workflow does not, in order, with these statuses, up to the first call that raises |
| SchedulerStatuses.IntervalStops | keep/workflowmanager/workflowscheduler.py:63-100 | the first execution that does not load ends the pass if its finish call raises: those before it are started, those behind it left |
| SchedulerStatuses.StepSays | keep/workflowmanager/workflowscheduler.py:52-479 | the same for every step of the system: success only from a worker, and only for a workflow that returned without errors |
| SchedulerStatuses.SuccessIff | keep/workflowmanager/workflowscheduler.py:102-150 | on every run an execution is recorded as a success if and only if a worker ran its workflow to the end without errors, and at most one finish call is ever recorded for it |
| SchedulerDrain.DrainIsRun | keep/workflowmanager/workflowscheduler.py:275-479 | the drain loop, when nothing interferes, is a run of the transition system's handling steps, one or two for each entry |
| SchedulerLimits.EscapesIff | keep/workflowmanager/workflowscheduler.py:282-479 | for every entry, at every point of its pass, an error leaves the loop if and only if one of the listed guards holds |
| SchedulerLimits.ReachableShapes | keep/workflowmanager/workflowscheduler.py:213-394 | on every run every entry is an event with its workflow, a retried event without one, or a manual run with its execution |
| SchedulerLimits.ReachableEscapes | keep/workflowmanager/workflowscheduler.py:282-414 | on every run, when the entry that a drain comes to next ends it: an event or a retried one when it collides under the strategy that gives up, a retried one also when its workflow does not load, a manual run when its workflow does not load and finishing its row raises |
| SchedulerLimits.RestLostIff | keep/workflowmanager/workflowscheduler.py:279-281 | the other entries of a drain are lost if and only if handling the first one escapes, and otherwise stay |
| SchedulerLimits.StepKeepsFates | keep/workflowmanager/workflowscheduler.py:279-281 | a fate, once recorded, is never changed by any step |
| SchedulerLimits.LossIff | keep/workflowmanager/workflowscheduler.py:275-479 | on a run from the start no entry is ever lost if and only if no handling step with entries behind it escapes |
| SchedulerLimits.SlotsBreakExclusion | keep/api/models/db/workflow.py:41-43 | a run in which two exclusive executions are open at once |
| SchedulerLimits.CollisionLosesOthers | keep/workflowmanager/workflowscheduler.py:395-414 | a run in which a collision loses another workflow's entry |
| IoScanner.ScanCallLoop | keep/iohandler/iohandler.py:79-114 | the inner loop stops where the automaton does, with its noted positions, or fails at the look-ahead past the end |
| IoScanner.ExtractKeepFunctions | keep/iohandler/iohandler.py:69-122 | the outer loop returns the text and noted positions of each match |
| IoMatches.DepthIsBalance | keep/iohandler/iohandler.py:79-114 | the depth is one plus opening less closing parentheses outside strings |
| IoMatches.ScanFindsBalance | keep/iohandler/iohandler.py:79-116 | a call ends where its parentheses outside strings first balance, and exactly the quotes to be escaped are noted; if they never do, the scan raises if and only if the text ends with a quote of the string it is in |
| IoMatches.MatchesAreCalls | keep/iohandler/iohandler.py:69-122 | matches start with the prefix, are balanced calls, and come in order without overlap |
| IoMatches.FirstCallIsFound | keep/iohandler/iohandler.py:69-122 | the first occurrence of the prefix with a parenthesis after it is the first match, unless it does not close |
| IoRepair.RepairSingle | keep/iohandler/iohandler.py:172-181 | the loop inserts each backslash moved by those before it |
| IoRepair.RepairMany | keep/iohandler/iohandler.py:209-214 | the loop inserts each backslash at its unmoved position |
| IoRepair.RescanCopy | keep/iohandler/iohandler.py:79-114 | with a backslash before each noted quote, the scan passes the call in the same modes and notes nothing |
| IoRepair.RepairedScansClean | keep/iohandler/iohandler.py:69-122 | a call with each noted quote escaped scans as one match covering all of it, with nothing noted |
| IoRepair.EscapeRepair | keep/iohandler/iohandler.py:169-182 | when the call starts the text, the program's own insertion gives such a text |
| IoRepair.SingleRepairIff | keep/iohandler/iohandler.py:172-181 | the insertion puts the backslashes before the noted quotes if and only if the call starts the text or there are none |
| IoManyRepair.ManyRepairIff | keep/iohandler/iohandler.py:208-214 | for any call, the insertion without an offset does so if and only if nothing is noted, or the call starts the text and each noted quote has as many backslashes right before it as there are noted quotes before it |
| IoManyRepair.BlankBreaksRepair | keep/iohandler/iohandler.py:172-181 | a call with one noted quote after a blank, the wrong text the repair gives, and that it holds no call |
| IoManyRepair.MisplacedStillScans | keep/iohandler/iohandler.py:172-181 | a call with two noted quotes after a blank, and the wrong text the repair gives, which scans as one call all the same |
| IoManyRepair.SecondQuoteBreaksRepair | keep/iohandler/iohandler.py:208-214 | two calls, the first with two noted quotes, and the wrong text the repair gives |
| IoPrint.CallRoundTrip | keep/iohandler/iohandler.py:69-122 | any nest of calls with strings of any content, their own quote left unescaped before letters, digits and blanks wherever one likes, printed with any separator without quotes and parentheses that does not start with a letter, digit or blank, scans as exactly one match that is the printed text, with exactly the unescaped inner quotes noted |
| IoPrint.RepairRoundTrip | keep/iohandler/iohandler.py:169-182 | the program's insertion turns such a text into the same call printed with every inner quote escaped |
| MiningWindows.RunsCover | ee/experimental/incident_utils.py:330-446 | over any sequence of runs that start where the last one left off, abandoned and empty ones included, every time from the first lower bound to the checkpoint was in some window |
| MiningWindows.RunCoversIff | ee/experimental/incident_utils.py:330-446 | whatever lower bound its caller gives it, a run keeps everything up to the checkpoint covered if and only if it skips no time |
| MiningWindows.RunsCoverIff | ee/experimental/incident_utils.py:330-446 | the same all through any sequence of runs |
| MiningWindows.LateCallSkips | ee/experimental/incident_utils.py:324-333 | a first run and a later call that skips a time for good |
| MiningWindows.RunCoversToUpper | ee/experimental/incident_utils.py:399-413 | a run with at least one batch covers up to its upper bound |
| MiningWindows.WindowsIff | ee/experimental/incident_utils.py:399-413 | a time is in some window if and only if it lies between the lower bound and the end of the last window |
| MiningWindows.WindowsReach | ee/experimental/incident_utils.py:399-413 | the windows of a run with a batch reach its upper bound and end less than a stride, and the seconds lost in dividing the threshold, beyond it |
| MiningWindows.CheckpointMoves | ee/experimental/incident_utils.py:399-446 | with any lower bound, the stored checkpoint lies after it exactly when more than four strides are between the bounds, and before it exactly when at most three are |
| MiningWindows.CheckpointBehindUpper | ee/experimental/incident_utils.py:399-446 | wherever it started, a run stores a checkpoint between three and four strides before its upper bound |
| MiningWindows.CheckpointHolds | ee/experimental/incident_utils.py:317-446 | for runs in the order of the clock, abandoned ones included, the checkpoint never falls once stored, but for calls with a lower bound of their own, and then by less than a stride |
| MiningWindows.CheckpointHoldsFromStart | ee/experimental/incident_utils.py:317-446 | the same from nothing stored |
| MiningWindows.FirstCheckpointIsEarly | ee/experimental/incident_utils.py:396-446 | a first run that stores a checkpoint before its first alert |
| MiningWindows.EarlierCallMovesBack | keep/api/routes/incidents.py:612-640 | a call with an earlier upper bound after which the next run starts earlier than the call did |
| MiningWindows.SliceIsWindow | ee/experimental/incident_utils.py:410-419 | the two searches cut out exactly the alerts of the closed window |
| AlertGraph.CreateGraph | ee/experimental/graph_utils.py:69-88 | the double loop joins exactly the pairs of positions over the threshold; a lone fingerprint is a node |
| AlertGraph.EdgeIffOver | ee/experimental/graph_utils.py:76-88 | with symmetric scores, two fingerprints are joined if and only if they are on the list and score over the threshold |
| AlertGraph.OrderIndependentIff | ee/experimental/graph_utils.py:76-88 | every order of the list gives the same graph if and only if the scores are symmetric on it |
| AlertGraph.OrderChangesGraph | ee/experimental/graph_utils.py:76-88 | a matrix, not one of the program's own, for which the two orders of a list give different graphs |
| AlertGraph.ShareComponentIff | ee/experimental/incident_utils.py:198 | two nodes share a component if and only if a path joins them |
| AlertGraph.ComponentsDisjoint | ee/experimental/incident_utils.py:198 | components with a common node are the same |
| AlertGraph.ComponentsAreChains | ee/experimental/graph_utils.py:76-88 | two fingerprints share a component if and only if a chain of pairs over the threshold links them |
| IncidentModel.AssignFailsIff | ee/experimental/incident_utils.py:142-175 | a component fails if and only if it is large enough for an incident and has no alert in the batch |
| IncidentModel.ComponentsIndependent | ee/experimental/incident_utils.py:198-207 | though each component sees what the ones before did, each is treated as if it were alone, and every incident is untouched or extended by exactly one |
| IncidentModel.BatchFailsIff | ee/experimental/incident_utils.py:178-207 | a batch breaks off if and only if it has a component that fails |
| IncidentModel.PutStaysInside | ee/experimental/incident_utils.py:160-164 | what a component puts into an incident is alerts of the batch inside the component |
| IncidentModel.AlertPutOnce | ee/experimental/incident_utils.py:142-175 | each alert of a batch is put into at most one incident, old or new |
| IncidentModel.ExtendedIsComponent | ee/experimental/incident_utils.py:142-164 | an extended incident stays inside its component and holds all the component's alerts of the batch |
| IncidentModel.OrderMakesNoDifference | ee/experimental/incident_utils.py:198-207 | the order in which components come changes neither the extended nor the created incidents |
| IncidentContents.AcceptsIff | ee/experimental/incident_utils.py:133-158 | an incident takes a component if and only if it lies inside it, shares a fingerprint with the batch, and some alert of the component comes less than the validity after it was last seen |
| IncidentContents.AssignIsRight | ee/experimental/incident_utils.py:142-175 | the first incident that takes a component is extended; if none does it is dropped, fails, or becomes an incident of exactly the batch's alerts inside it, each as often and in the order they came, last seen at the latest of them |
| IncidentContents.OutcomesRight | ee/experimental/incident_utils.py:198-207 | this holds of every component of a batch that gets its turn |
| IncidentContents.MergeIs | ee/experimental/incident_utils.py:160-164 | an extended incident has what it had and then exactly the batch's alerts inside the component with new ids, and was last seen at the latest of all |
| IncidentContents.EveryAlertPlaced | ee/experimental/incident_utils.py:142-207 | every alert of a component that gets its turn and is not dropped ends up in its incident, old or new, and is put into no other |
| IncidentLimits.AmendedIsAllIff | ee/experimental/incident_utils.py:181-187 | the graph is built over the fingerprints of the batch and all incidents if and only if every incident's are in the batch or in the last incident |
| IncidentLimits.ForgottenNeverExtended | ee/experimental/incident_utils.py:181-207 | an incident with a fingerprint that the graph leaves out is neither extended nor changed |
| IncidentLimits.ReachedIff | ee/experimental/incident_utils.py:198-207 | a component gets its turn if and only if none before it is large enough for an incident without having an alert in the batch |
| IncidentLimits.ExtendedIff | ee/experimental/incident_utils.py:142-207 | an incident is extended in a batch if and only if, over the incidents as they were before it, it is the first to accept some component that gets its turn |
| IncidentLimits.OldIncidentForgotten | ee/experimental/incident_utils.py:181-187 | two incidents and an alert: over the program's graph the first incident is never extended, over the graph of all fingerprints it always is |
| IncidentLimits.BatchBreaksOff | ee/experimental/incident_utils.py:142-175 | an incident and a batch whose graph has a component that breaks the run off |
| IncidentRounds.MergeGrows | ee/experimental/incident_utils.py:160-164 | extending keeps alert ids different and the last-seen time at the latest alert, and never moves it back |
| IncidentRounds.RoundsGrow | ee/experimental/incident_utils.py:418-442 | over all batches of a run, overlapping windows included, this holds of every incident, and no alert is lost |
| Incidents.UpdateExistingIncident | ee/experimental/incident_utils.py:234-262 | the incident object gains the alerts and its last-seen time becomes the latest |
| Incidents.CreateNewIncident | ee/experimental/incident_utils.py:243-256 | a new object with the component's alerts, or the failure of a minimum of nothing |
| Incidents.ProcessGraphComponent | ee/experimental/incident_utils.py:142-175 | the first accepting incident and no other object is changed, or one is created, or nothing, or it fails |
| Incidents.AmendedFingerprints | ee/experimental/incident_utils.py:181-187 | the loop keeps the batch's fingerprints and the last incident's |
| Incidents.ComponentsApart | ee/experimental/incident_utils.py:190-198 | the components of the graph do not overlap and lie inside its fingerprints |
| Incidents.ProcessAlertBatch | ee/experimental/incident_utils.py:178-207 | the incident objects end as the components of the graph over the amended fingerprints say, with the lists of created and extended ones |
| IncidentMining.GetLastIncidents | ee/experimental/incident_utils.py:230-231 | exactly the incidents last seen strictly between the bounds, in order |
| IncidentMining.MineBatch | ee/experimental/incident_utils.py:418-442 | one turn of the loop, on the whole list of incidents |
| IncidentTurns.SliceIs | ee/experimental/incident_utils.py:410-419 | the batch of a window is exactly the alerts in it, its bounds included, in order |
| IncidentTurns.PickIs | ee/experimental/incident_utils.py:230-231 | the incidents that take part are exactly those last seen strictly between the bounds, in order |
| IncidentTurns.RoundEffects | ee/experimental/incident_utils.py:418-442 | what a turn does to the whole list: an incident that takes part is as the batch leaves it, any other as it was, and behind them come those the batch created, unless it broke off; without alerts nothing changes |
| IncidentTurns.CreatedOfIs | ee/experimental/incident_utils.py:200-207 | the created incidents are those of the components that created one, in their order |
| IncidentMining.MineIncidents | ee/experimental/incident_utils.py:418-442 | the loop is the run of rounds its windows define; with different alert ids every incident has grown soundly |
| IncidentMining.MineRun | ee/experimental/incident_utils.py:324-446 | from the bound its caller gives, the checkpoint or the first alert: with the windows between its bounds, a run that gets through and has a batch puts every alert between them into some round, and stores the checkpoint the windows define |
| SqlPlaceholders.CreateRawSql | keep/searchengine/searchengine.py:247-260 | the loop replaces the parameters one by one, last inserted first, and under the condition equals replacing all at once |
| SqlPlaceholders.LongestIsLast | keep/searchengine/searchengine.py:251-253 | when no key is a prefix of an earlier one, the longest key that fits is the last inserted one |
| SqlPlaceholders.SequentialIsSimultaneous | keep/searchengine/searchengine.py:247-260 | one after the other is all at once, for every template and any number of parameters |
| SqlPlaceholders.AgreesIff | keep/searchengine/searchengine.py:247-260 | for a template, keys, and which of the values are strings, this holds for all such values if and only if no piece before a placeholder can grow into one that is replaced later, where what follows a piece before a string starts with a quote |
| SqlPlaceholders.AgreesAlwaysIff | keep/searchengine/searchengine.py:247-260 | for a template and keys this holds for values of every kind if and only if it holds for values that are no strings |
| SqlPlaceholders.StringsAgree | keep/searchengine/searchengine.py:247-260 | with string values and keys without quotes it always holds |
| SqlPieces.SubstituteWrites | keep/searchengine/searchengine.py:247-260 | for any template and parameters, replacing all at once leaves the text between placeholders, which holds no key behind a colon, and writes for each placeholder, always of the longest key that fits, a string in quotes or another value as printed |
| SqlPieces.SequentialWrites | keep/searchengine/searchengine.py:247-260 | under the condition, so does the program |
| SqlPieces.QuotesAddUp | keep/searchengine/searchengine.py:257-259 | without quotes in keys and values, the text has the template's quotes and two more for each string written |
| SqlPlaceholders.FollowedIsNotEnough | keep/searchengine/searchengine.py:247-260 | a template whose placeholders are all followed by a colon or the end, and values for which it does not hold |
| JaccardScores.GetAlertJaccardMatrix | ee/experimental/statistical_utils.py:66-98 | each entry of the matrix is the share of windows with both alerts among those with either, 0 if there are none, 1 on the diagonal |
| JaccardScores.ScoreIsJaccard | ee/experimental/statistical_utils.py:66-98 | the score from column means and the matrix product is that share |
| JaccardScores.JaccardBounds | ee/experimental/statistical_utils.py:54-75 | scores are symmetric and lie between 0 and 1 |
| JaccardScores.FullScoreIff | ee/experimental/statistical_utils.py:54-75 | two alerts score 1 if and only if they occur in the same windows |
| PmiScores.GetAlertPmiMatrix | ee/experimental/statistical_utils.py:103-183 | the matrix is filled, cleaned, zeroed on the diagonal and clipped, and each entry is the score of its two columns, whatever the rounding |
| PmiScores.PmiSymmetric | ee/experimental/statistical_utils.py:146-181 | the matrix is symmetric, whatever the rounding |
| PmiValues.EntriesAre | ee/experimental/statistical_utils.py:164-171 | a score is 0 on the diagonal or where there is no number, and otherwise the logarithm, or -100 or 100 when it lies beyond |
| PmiValues.StrangersScoreLowest | ee/experimental/statistical_utils.py:146-171 | alerts that both occur but never in one window score -100, and nothing scores less |
| PmiValues.StrangersNotJoined | ee/experimental/graph_utils.py:76-88 | such alerts are never joined in the graph, whatever the list, at any threshold from -100 on |
| PmiScores.PmiScoresSymmetric | ee/experimental/incident_utils.py:374-387 | looked up by fingerprint, the program's scores are symmetric on any fingerprints and at any threshold |
| PmiScores.SameComponents | ee/experimental/incident_utils.py:190-198 | with symmetric scores the components do not depend on how a set is turned into a list |
| PmiScores.BatchIndependent | ee/experimental/incident_utils.py:178-207 | with the program's scores, what a batch does to the incidents, which ones it creates, and whether it breaks off do not depend on the order of any list the libraries hand back |
| FatigueWindows.CalculateFatigue | keep-ui/utils/fatigue.ts:6-69 | fails on no alerts; otherwise windows of equal size follow each other from the earliest alert to the latest, each with the number of alerts in it and its score, whatever the rounding |
| FatigueWindows.CountWindows | keep-ui/utils/fatigue.ts:28-66 | the loop over sorted times fills exactly these windows |
| FatigueWindows.SortCounts | keep-ui/utils/fatigue.ts:20-23 | sorting changes no count |
| FatigueWindows.CountsAddUp | keep-ui/utils/fatigue.ts:28-66 | the counts add up to the number of alerts |
| FatigueWindows.ScoreGrows | keep-ui/utils/fatigue.ts:40-46 | with any rounding that keeps order and zero, scores lie between 0 and 100, and a larger count never scores less, except one alert against none |
| FatigueWindows.LimitsAre | keep-ui/utils/fatigue.ts:3-18 | windows of a minute with 10 alerts, of a day with 100, otherwise of an hour with 50, however the unit is written |
| FatigueWindows.ExactScore | keep-ui/utils/fatigue.ts:40-46 | without rounding the score is the whole per cent of the fatiguing count, at least 1 and at most 100, and 0 for one alert |
| FatigueWindows.FullScoreIff | keep-ui/utils/fatigue.ts:40-46 | without rounding a window scores 100 if and only if it has the fatiguing count and not just one alert |
| FatigueWindows.StartIs | keep-ui/utils/fatigue.ts:47 | window k starts k window sizes after the earliest alert |
| FatigueWindows.CountIs | keep-ui/utils/fatigue.ts:28-66 | a window's count is the number of alerts from its start up to, but not at, its end |
| MergeObjects.MergeInto | keep/parser/parser.py:733-749 | merging in place makes the second dictionary the merged document or raises; it is then made of its own dictionaries and the first one's |
| MergeObjects.MergeFields | keep/parser/parser.py:735-749 | the loop over keys merges each field in place or takes over the source's object |
| MergeObjects.MergeItems | keep/parser/parser.py:741-747 | the loop over indices merges up to the destination's length, raises as the program does on strings, dictionaries and numbers, and drops the rest |
| MergeObjects.DeepCopy | keep/parser/parser.py:729 | a copy with the same document, of new dictionaries only |
| MergeObjects.DeepMerge | keep/parser/parser.py:717-730 | the merge of the source into a copy of the destination or the error; source and destination stay as they were, and the result holds none of the destination's dictionaries |
| DeepMerge.MergeIntoEmpty | keep/parser/parser.py:717-749 | the empty object changes nothing on either side |
| MergeLaws.MergedLeaf | keep/parser/parser.py:717-749 | at every path the merged document has the source's leaf where there is one that the destination's lists reach, else the destination's unless a source leaf covers it |
| MergeLaws.IdempotentIff | keep/parser/parser.py:717-749 | merging a source twice is merging it once, for every destination, if and only if its lists hold only objects |
| MergeLaws.NumbersMergeOnce | keep/parser/parser.py:741-747 | an object with a list of numbers merges into nothing, and not a second time |
| MergeLaws.Associative | keep/parser/parser.py:733-749 | without lists, merging is associative whenever the inner merge succeeds |
| MergeLaws.FailsIff | keep/parser/parser.py:733-749 | merging fails if and only if at some path a non-empty object meets something that is none, or a list that has an item which is no object, or meets a number, a non-empty object, or characters of a text where its items are not empty |

## Left out

- Workflow builder: positions, nesting flags, neighbour ids, edge ids, colours and types, the settings kept with a trigger node and its flags against clicks; the layout library is taken to hand the nodes back in the order it got them; node objects are values, so filling a step after it was put into a list is modelled as putting the filled one there.
- Scheduler: tenants, the label of what triggered a run, log lines, e-mails, and which workflow an event selects; those decisions, the clock, random numbers, fresh ids and failures of outside calls are inputs.
- Scheduler: the interval query's timeouts and relaunches; the query is a step that inserts one execution and hands it over.
- Scheduler: a step of the transition system changes shared state once, a transaction of the database or an append under the lock; within the classes one method runs at a time.
- Template functions: rendering, the evaluation of a call and of several calls in one expression; which characters are alphanumeric is a parameter.
- Alert correlation: deletion of nodes by knee detection (off by default), how alerts are counted into the windows the scores are made from, and writing incidents to the database; incident names, ids and tenants.
- Alert correlation: how a set is turned into a list and in which order networkx returns components are parameters that may differ from call to call.
- MiningWindows: times are real numbers of seconds, without the rounding of stored timestamps or local time zones.
- JaccardScores.GetAlertJaccardMatrix: real instead of floating-point numbers, at least one window; the counts per window are the input.
- JaccardScores.ScoreIsJaccard: real instead of floating-point numbers.
- FatigueWindows: invalid dates, and letters outside the names of time units when lower-casing.
- SqlPlaceholders: how values print is an input, except for the quotes around strings; keys and values without colons in the results about replacing all at once.
- MergeObjects: documents in which one dictionary occurs in two places; lists are values, since no merge changes one; keys are strings; the order of keys is not kept.
- The parser, providers, storage, the user interface and the rest of the repository are not part of this model.
