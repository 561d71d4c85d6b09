# Agent workflows and retrieval helpers: a verified model

This project models the parts of the repository in which control flow, not I/O, is the difficulty, and proves what
they guarantee.

* **The workflow scheduler** (`Workflow`, `Scheduler`, `SchedulerLaws`, `SchedulerSafety`, `EventTrace`, `Canvas`). A run grows a path
  of component ids. Each turn starts the entries from the frontier on, drops in place those whose references are not
  on the path yet, runs the rest as one batch, and post-processes them: error targets, default answers, streams that
  are reported late, ends of iterations and loops, routers, loop-backs. A run finishes, stops on an error and rolls
  back, pauses for user input, or is aborted by an exception. `Scheduler` says what a run is, as functions; the class
  `Canvas` does it step by step on mutable fields and is proved to agree with them, method by method;
  `SchedulerLaws` says what a turn does with each entry in terms of what the component is and answers; the other
  modules prove properties of every run and of sessions of several runs.
* **Iterations and loops on that scheduler** (`BodyPass`, `Iteration`, `IterationRun`, `UnreadyBody`,
  `WorkedExample`, `Loop`, `LoopRun`, `FanOut`, `Switch`).
  The item nodes are classes. Run by the scheduler over a body that is a chain of components, an iteration is a map
  over its array. In any workflow, a loop lets its body in a bounded number of times, under an exact condition. `WorkedExample` applies the iteration theorem to
  a small workflow, which also shows that its assumptions can be met.
* **The summary tree** (`Raptor`): layers of clusters, each summarised by one new chunk, up to a single root.
* **The MCP session** (`McpSession`): submitters, a worker, time-outs and closing, as steps on one shared queue.
* **Smaller algorithms**: nested paths in component outputs (`NestedValues`), removal of inline images from prompt
  variables (`Images`), the Markdown line scanner (`Markdown`), the greedy word wrapper (`Wrap`, over `Text`), and the
  metadata filter with its dates (`MetaFilter`, `Dates`).

What components, language models, clustering and remote servers do is arbitrary: an environment of functions over an
arbitrary world for the scheduler, nondeterministic choices for the summary tree and the session, constrained only by
what the code itself checks. A run that would go on for ever is covered through its finite beginnings: `budget` is
the number of batches that start before the task is found canceled, and the theorems hold for every budget.

## Where the code does not do what one would expect

Each of these is proved, with the exact condition or a concrete input.

* A run that is canceled after its first batch, or that ends in an exception, can leave entries on the path in memory
  that were only queued and never checked; `AbortedRunLeaves` says exactly when, `LateCancelBreaksDependencies` gives a
  case. Runs that finish, stop or pause never do, and the callers store a canvas only after its run has ended normally
  (api/apps/canvas_app.py:228-240, api/db/services/canvas_service.py:259-273).
* Whether a run resumes, and whether dependencies are waived, is read off the text of an id; whether it pauses is read
  off the kind of the component. `ResumeAgreesWithKinds` says exactly when "begin" is appended as the kinds suggest,
  `AFillUpByAnotherName` gives a case where it is not.
* The maximum of a loop is kept only as long as no batch visits its item node so often that the counter is stepped past
  -1 (`LoopIsBounded`). A body that forks and comes back on two ways does that (`FanOutrunsItsBound`); a body in which
  no component has two targets does not (`SingleFileIsBounded`).
* A component that is pending alone ends the whole run, which reports itself finished, exactly when none of the targets
  it queues is ready (`LoneEntryEndsTheRun`). So an iteration ends the run after its first element when it has no body
  (`EmptyBodyEndsTheRun`), and also when its body begins with components that wait for others
  (`WaitingBodyEndsTheRun`).
* An iteration that is entered a second time starts at index -1, that is, with the last element, whose results it drops
  (`IterationOnceMore`). On an empty array it fails, which stops the run exactly when the item node has neither targets
  nor a default answer (`ReentryFailsOnEmpty`).
* Truth values are numbers to `evaluate_condition`, so "is" and "is not" on them always raise
  (`TruthValuesHaveNoIs`); a loop without conditions, under the default "and", ends before its body
  (`NoConditionsEndAtOnce`).
* With a maximum of at most one cluster, the tree builder never returns normally from three usable chunks on
  (`Builder.Build`). The last layer, over two chunks, may be empty after a tolerated error.
* Removing images raises exactly when a dictionary that is walked has something under "type" that cannot be looked up in
  a set, as a JSON schema may have (`RemovalRaisesExactly`, `ASchemaTripsRemoval`). A set under "type" can be looked up,
  but becomes a list, so that removing a second time raises (`RemovalIsFinal`, `ASetUnderTypeTripsTheSecondRemoval`).
* Writing a nested path descends through its last key too, so what was written is found one level deeper
  (`WriteGoesOneLevelDeeper`, `SetThenGet`). It is not found when the path passes its own end
  (`ASelfReferencePassesItsEnd`), and where a dictionary is shared, other paths change with it
  (`ASharedDictionaryChangesToo`).
* Under "and", filters that match nothing before the first one that matches something do not count; that an empty
  result stays empty afterwards is owed to the early return (`AndIsIntersection`, `AndCanSkipAFilter`,
  `NothingComesBack`). A quoted date can become a date after the first record (`AQuotedDateBecomesADate`), so that the
  order of the records matters (`TheOrderOfRecordsMatters`).
* A request that is cancelled by `close` is answered with a `CancelledError`, which is not an `Exception`, so its
  caller gets it as a returned value (`StepInformsCallers`).

## Model

| member | source | states |
|---|---|---|
| Canvas.Canvas.FilterPending | agent/canvas.py:447-473 | the in-place pop loop ends and leaves the greedy left-to-right fold of the pending entries behind an untouched front; each kept entry is started exactly once, in order; what the fold drops is said by SchedulerLaws.DroppedExactly |
| Canvas.Canvas.RunBatch | agent/canvas.py:429-476 | filtering and then running the kept entries as one batch is the scheduler's batch step |
| Canvas.Canvas.ExtendPath | agent/canvas.py:601-606 | appends the targets one by one, each skipped when it is the last entry already |
| Canvas.Canvas.Drain | agent/canvas.py:564-569 | reports held-back nodes from the front while they stream no more, and exactly those |
| Canvas.Canvas.DeliverMessage | agent/canvas.py:510-569 | a message is sent, ended, and then the drained nodes are reported, in this order |
| Canvas.Canvas.PostProcess | agent/canvas.py:507-621 | post-processing on the fields does the four parts in sequence, as the scheduler's function does, and only makes the path grow; SchedulerLaws says what it reports, for every entry, and where control goes, for every kind |
| Canvas.Canvas.PostProcessAll | agent/canvas.py:507-621 | post-processing visits the entries of the batch in order and stops at the first exception |
| Canvas.Canvas.Turn | agent/canvas.py:494-642 | one turn of the main loop: announce, batch, post-process, then stop, pause, abort or go on behind the batch |
| Canvas.Canvas.RunToEnd | agent/canvas.py:372-661 | the whole main loop on mutable fields computes the scheduler's run function |
| Canvas.Canvas.Run | agent/canvas.py:372-661 | every run leaves a well-formed event stream that begins with the start of the workflow and ends as its exit calls for, unless it is canceled before it starts; unless it is aborted it keeps the dependency invariant of the path |
| SchedulerLaws.DroppedExactly | agent/canvas.py:453-466 | a pending entry is dropped if and only if it is neither a begin nor a user fill-up, refers to a component that was not kept before it, and the path does not start with the id of a fill-up |
| SchedulerLaws.FillUpsWaiveDependencies | agent/canvas.py:459 | behind the id of a fill-up nothing is dropped |
| SchedulerLaws.NamesOfFillUps | agent/canvas.py:417-459 | such ids contain "userfillup" anywhere, in any case; "begin" is none |
| SchedulerLaws.RunsOpen | agent/canvas.py:417-494 | a run begins at its last entry, with nothing held back, no error, and the start of the workflow reported |
| SchedulerLaws.TurnsStartWhatIsPending | agent/canvas.py:494-506 | a turn reports every pending entry as started, in order, drops what must wait, and runs the others, and only those, as one batch |
| SchedulerLaws.EventsOfAnEntry | agent/canvas.py:510-610 | what is reported of one entry, in order: its message, the nodes released by it, a default answer, its own end or that it is held back, and the end of its iteration or loop |
| SchedulerLaws.StreamsAreHeldBack | agent/canvas.py:564-591 | a component is held back exactly when it streams and the run has no error, behind all others, until a message has been sent and nothing before it streams any more |
| SchedulerLaws.ErrorsAreRecorded | agent/canvas.py:571-591 | the error of the run is that of the last entry whose error was neither sent on nor answered by a default |
| SchedulerLaws.ErrorsAreSentOn | agent/canvas.py:571-606 | after an error with targets declared for it, those are queued, all of them and in order, and nothing else |
| SchedulerLaws.RoutersLeadToTheirChoice | agent/canvas.py:612-613 | a categorize or switch node queues the targets it chose, and raises if it chose none |
| SchedulerLaws.ContainersLeadInside | agent/canvas.py:614-615 | an iteration or loop node queues its item node |
| SchedulerLaws.SpentItemsLeadOn | agent/canvas.py:608-611 | an item node that is over queues what follows its container; one that cannot tell raises |
| SchedulerLaws.ExitsLeadOn | agent/canvas.py:616-617 | an exit node in a loop queues what follows the loop |
| SchedulerLaws.OthersLeadDownstream | agent/canvas.py:618-621 | any other component queues its downstream, or the item node of its container if it has none |
| SchedulerLaws.TurnsEnd | agent/canvas.py:623-643 | a turn that is not canceled is aborted by an exception, stopped by an error, paused exactly if a user fill-up is pending behind its batch, and otherwise goes on there |
| EventTrace.RunOpensAndCloses | agent/canvas.py:421-661 | a run that finishes reports that last; one that stops does if and only if its error is the cancellation; one that pauses ends with the request for user input; one that is aborted reports no end |
| SchedulerSafety.KeptSplits | agent/canvas.py:447-473 | whether a pending entry is kept depends on the entries kept before it alone, and the later ones see it only then |
| SchedulerSafety.KeptAreReady | agent/canvas.py:458-466 | every kept entry is an entry node, has all its references among exactly the entries before it, or the path starts with a user fill-up |
| SchedulerSafety.RoundKeepsDependencies | agent/canvas.py:494-643 | one turn keeps the dependency invariant up to the frontier, and any exit but an abort keeps it for the saved path |
| SchedulerSafety.RunKeepsTheInvariant | agent/canvas.py:417-643 | a whole run keeps the invariant: the path is empty, starts with a user fill-up, or every entry's references come before it |
| SchedulerSafety.SessionKeepsDependencies | agent/canvas.py:417-643 | so does any sequence of runs, pauses and roll-backs |
| SchedulerSafety.EarlyCancelKeepsDependencies | agent/canvas.py:421-433 | a run canceled before or at its first batch leaves the starting path, which satisfies the invariant |
| SchedulerSafety.AbortedRunLeaves | agent/canvas.py:429-642 | an aborted run leaves the path as it was at the beginning of the turn that was canceled, or as post-processing had made it when an exception came; its entries up to the frontier, or up to the end of the batch, are checked, and the invariant holds if and only if the path starts with a fill-up or all entries behind that point have their dependencies met |
| SchedulerSafety.LateCancelBreaksDependencies | agent/canvas.py:430-433 | a case where they have not: a two-step workflow canceled at its second batch |
| SchedulerSafety.RunUnrolls | agent/canvas.py:494-626 | a run is its turns one after the other, each beginning at the frontier the last one reached |
| SchedulerSafety.RoundStopsAtFrontier | agent/canvas.py:623-643 | a turn that leaves an error cuts the path at the frontier it began at |
| SchedulerSafety.RunEndsInATurn | agent/canvas.py:494-642 | a run that does not finish ends in one of its turns, as that turn ends |
| SchedulerSafety.StopsOnUnhandledErrors | agent/canvas.py:571-625 | a turn that is post-processed to its end stops the run if and only if an entry of its batch left an error for which it has neither targets nor a default answer |
| SchedulerSafety.TargetsAreQueued | agent/canvas.py:593-606 | all targets of a component are queued in order but for one queued just before; no component is queued twice in a row, and the last target ends the path |
| SchedulerSafety.StopKeepsCompletedBatches | agent/canvas.py:623-643 | a run that stops on an error saves exactly the entries of the batches completed before the failing one |
| SchedulerSafety.FirstBatchErrorRestoresPath | agent/canvas.py:417-419 | a failure in the first batch restores the path from before the run, less the fill-up it resumed from if it did |
| SchedulerSafety.FinishCommitsEverything | agent/canvas.py:643-653 | a run that finishes truncates nothing, has a last entry to report, and keeps what was there |
| SchedulerSafety.PauseIsAPartition | agent/canvas.py:628-630 | a pause stores the pending fill-ups and then everything else: a permutation of what was pending |
| SchedulerSafety.SelectedSplits | agent/canvas.py:629-630 | both groups keep their order |
| SchedulerSafety.PauseStoresPending | agent/canvas.py:628-642 | a run that pauses does so in one of its turns, without an error, and stores what lies behind the batch of that turn when it has been post-processed, among it a user fill-up |
| SchedulerSafety.ResumeAfterPause | agent/canvas.py:417-419 | the next run starts a single node: the last one saved if its id names a fill-up, and "begin", appended, otherwise |
| SchedulerSafety.ResumeAgreesWithKinds | agent/canvas.py:417-419 | "begin" is appended exactly when something other than a fill-up was pending, if and only if id and kind of the last entry agree |
| SchedulerSafety.AFillUpByAnotherName | agent/canvas.py:417-419 | a case where they do not: all that is pending is a fill-up, and "begin" is appended |
| EventTrace.RunHasWellFormedTrace | agent/canvas.py:494-661 | in every prefix of the events no node is finished or held back more often than started, those held back and not yet reported are the latest in order, and a closing event is the last |
| EventTrace.PostProcessReports | agent/canvas.py:507-621 | post-processing one entry reports it or holds it back, once, and nothing else |
| EventTrace.FinishedRunReportsItsPath | agent/canvas.py:564-591 | a run that finishes has reported each component it committed exactly as often as it is on the path, up to those still held back and to containers |
| EventTrace.PostProcessAllReports | agent/canvas.py:507-591 | post-processing a batch accounts for every one of its entries once |
| BodyPass.ChainPass | agent/canvas.py:608-621 | the rest of a chain body is visited component by component and leads back to the item node |
| BodyPass.ItemPass | agent/canvas.py:608-621 | an item node that goes on is followed by its whole body and then by itself |
| BodyPass.ItemEndsPass | agent/canvas.py:608-611 | an item node that is over is followed by what follows its container |
| BodyPass.LoneEntryEndsTheRun | agent/canvas.py:458-466 | a component that is pending alone and goes on to some targets ends the run right behind it, finished, if and only if none of the targets it queues, itself left out, is ready there |
| BodyPass.LoneEntryStops | agent/canvas.py:571-643 | a component that is pending alone and does not raise stops the run where it stood before if and only if it leaves an error for which it has neither targets nor a default answer |
| UnreadyBody.WaitingBodyEndsTheRun | agent/canvas.py:458-466 | a case of the first: an iteration whose body waits for a component that has not run is over, with the run, after its first element |
| Workflow.StartIn | agent/component/iteration.py:52-57 | the item node of a container is the first of its kind with that parent, and none is found only if there is none |
| Workflow.StartIsFirst | agent/component/iteration.py:52-57 | where there are several, the first is taken |
| Iteration.IterationItem.Invoke | agent/component/iterationitem.py:35-60 | collect from the second element on, then end, hand out the element at the index, or fail on an empty array at index -1 |
| Iteration.IterationItem.OutputCollation | agent/component/iterationitem.py:62-85 | the loops over members and outputs append one result to exactly the outputs that refer to a member |
| Iteration.InvocationHandsOut | agent/component/iterationitem.py:57-60 | an invocation with an element left hands it out under "item" and its index under "index", counts on, and touches no other value |
| Iteration.InvocationEnds | agent/component/iterationitem.py:50-57 | behind the last element it ends at index -1; from there, over an empty array, it fails |
| Iteration.InvocationCollects | agent/component/iterationitem.py:45-85 | from the second invocation on the value of the port an output refers to is appended to it, if that is a member's, and no other output changes |
| IterationRun.OnePass | agent/canvas.py:583-621 | one pass hands out the element and runs the body on it |
| IterationRun.CollectsResults | agent/component/iterationitem.py:75-85 | after a number of passes an output holds what it held plus the results so far, in order |
| IterationRun.IterationIsAMap | agent/component/iterationitem.py:35-88 | from a fresh item node the run visits item and body once per element, the item once more, and what follows; every collecting output gains the result of each element in order |
| IterationRun.ResultsAreAMap | agent/component/iterationitem.py:57-84 | results that depend on the element alone are a function mapped over the array |
| WorkedExample.DoublesEverything | agent/component/iterationitem.py:35-88 | an iteration over any array of numbers whose body doubles its item: the run walks it to the end and collects the doubled array |
| IterationRun.EnterIteration | agent/canvas.py:614-615 | the iteration node itself lets its item node in |
| IterationRun.IterationFromItsNode | agent/component/iterationitem.py:35-88 | the whole of an iteration that is entered for the first time: its node, one pass per element, the item node once more, and what follows, with the results of all elements collected in order |
| IterationRun.IterationOnceMore | agent/component/iterationitem.py:35-88 | the whole of it any later time, over an array that is not empty: one pass more, on the last element, comes first, and nothing is collected from it |
| IterationRun.ReentryRepeatsTheLastElement | agent/component/iterationitem.py:50-60 | entered again, the body first runs on the last element, nothing is collected from it, and the item node is fresh afterwards |
| IterationRun.ReentryFailsOnEmpty | agent/component/iterationitem.py:50-57 | entered again over an empty array the item node leaves an error, and the run stops and is rolled back to where it stood if and only if that error is not handled |
| Loop.LoopItem.Invoke | agent/component/loopitem.py:35-46 | the counter steps up to the maximum and then to -1, and stays between the two |
| Loop.LoopItem.End | agent/component/loopitem.py:123-155 | every condition is evaluated; an incomplete or failing one, or an unknown operator, raises; the counter is spent exactly when the loop ends |
| Loop.NegationsDisagree | agent/component/loopitem.py:48-121 | each operator and its negation apply to the same values and disagree there, except on a missing value |
| Loop.NumbersAreCompared | agent/component/loopitem.py:67-79 | numbers are compared as the operators say |
| Loop.TextsAreCompared | agent/component/loopitem.py:49-65 | "contains", "start with", "end with" and "is" hold of texts exactly when what they look for is there, or the same |
| Loop.CollectionsAreCompared | agent/component/loopitem.py:95-119 | lists are asked for members and for being the same, lists and dictionaries for being empty; a missing value is empty and nothing else |
| Loop.ListsAreTheSame | agent/component/loopitem.py:101-110 | and are the same if their items are, truth values being numbers |
| Loop.EndsWhenItsConditionsSay | agent/component/loopitem.py:123-155 | a spent node is over; any condition that cannot be evaluated raises; "and" needs all of them and "or" one; the node is spent exactly when the loop is over |
| Loop.TruthValuesHaveNoIs | agent/component/loopitem.py:67-93 | the branch for truth values is never reached: "is" on them raises |
| Loop.NoConditionsEndAtOnce | agent/component/loopitem.py:143-153 | no conditions under "and" end the loop, under "or" they do not |
| LoopRun.LoopIsBounded | agent/component/loopitem.py:30-46 | in every run of every workflow, over any stretch of turns in which the loop does not end, the item node lets its body in at most as often as its counter allows (the maximum from a fresh node, once more from a spent one, the remainder from any count), if and only if no batch steps the counter past -1; batches with the item node at most once never do |
| LoopRun.TurnSteps | agent/component/loopitem.py:35-46 | a turn, however it ends, steps the counter once for each visit of the item node, or leaves it at -1 where a visit ended the loop |
| LoopRun.ExitLeavesTheCount | agent/canvas.py:616-617 | an exit node leads to what follows the loop and leaves the counter where it is, for the next activation |
| LoopRun.SingleFileIsBounded | agent/component/loopitem.py:30-46 | a loop that is entered alone and in whose body no component has two targets keeps to the bound as long as the run stays in the body and the loop goes on |
| LoopRun.WithoutForksLoopsAreBounded | agent/component/loopitem.py:30-46 | in a workflow in which no component has two targets every loop keeps to its bound, over every stretch of every run |
| LoopRun.ChainLoopEnds | agent/canvas.py:608-621 | a loop over a chain of components does come to its end, after at most as many passes |
| FanOut.FanOutrunsItsBound | agent/canvas.py:447-473 | a loop with maximum 1 whose body forks and comes back on two ways: its fifth batch holds the item node twice, the counter goes from 1 to 0, and the body is let in three times without an end |
| Switch.Invoke | agent/component/switch.py:65-97 | goes to the targets of the first condition that does not fail, raises if that one raises, and goes to the end targets if all fail |
| Switch.Test | agent/component/switch.py:74-91 | "and" evaluates every counted item and needs all; any other logic stops at the first true one, and also holds with no items to evaluate |
| Switch.ConditionsAreOneOfThree | agent/component/switch.py:74-91 | a condition holds, fails or raises, and never two of these |
| Switch.ChoiceIsUnique | agent/component/switch.py:70-97 | there is one outcome only |
| Raptor.Builder.Build | rag/raptor.py:112-218 | a normal return is a tree of shrinking, gapless layers over the unchanged usable input, with at most one chunk on top, a bounded size, and labels that agree for two chunks of a layer exactly when they have one summary |
| Raptor.UsableChunksAreKept | rag/raptor.py:115 | the usable input is exactly the chunks with a text and an embedding, in their order |
| Raptor.ClustersAreLabelled | rag/raptor.py:196-212 | one chunk per label, in any order, makes the labels tell which chunks share a summary |
| Raptor.Builder.SummarizeClusters | rag/raptor.py:195-210 | whatever order the summaries arrive in, one chunk per cluster is appended, or the run is given up |
| Raptor.Builder.Summarize | rag/raptor.py:119-162 | a summary is one new chunk, a counted error below the limit, or the end of the run |
| Raptor.ClustersReduce | rag/raptor.py:195-210 | non-empty clusters by label, summarised in any order, split the layer into disjoint groups that make it up |
| Raptor.NextLayer | rag/raptor.py:164-216 | adding a layer keeps the tree well built |
| Raptor.NextBound | rag/raptor.py:100-110 | adding a layer keeps the size bound |
| Raptor.ReductionKeepsLeaves | rag/raptor.py:195-216 | if the leaf sets of a layer partition the input, so do those of the next |
| Raptor.LayersPartitionLeaves | rag/raptor.py:165-218 | in every completed layer the leaf sets are non-empty, disjoint and cover the input |
| Raptor.RootCoversEverything | rag/raptor.py:165-218 | a single chunk on top stands for exactly the input |
| Raptor.TriangleFormula | rag/raptor.py:100-110 | the bound on the chunks added to n is M(M-1)/2 for a maximum of M clusters |
| McpSession.ReachableStatesAreSound | common/mcp_tool_call_conn.py:122-243 | conservation, order and what callers are told hold after any steps of a new session, whatever is answered; the rows from HealthySessionsDoNotFail on say what is answered |
| McpSession.StepConserves | common/mcp_tool_call_conn.py:122-175 | each step keeps every request in exactly one place |
| McpSession.StepKeepsOrder | common/mcp_tool_call_conn.py:122-158 | what the worker has answered, works on and will take is in submission order |
| McpSession.StepInformsCallers | common/mcp_tool_call_conn.py:160-175 | a caller returns or raises a reply that was sent to it; only exceptions are raised |
| McpSession.ExactlyOnePlace | common/mcp_tool_call_conn.py:122-175 | each admitted request is queued, in flight, replied or lost, exactly once |
| McpSession.ClosedForGood | common/mcp_tool_call_conn.py:160-165 | a closed session admits nothing, its queue stays empty and replies are only added |
| McpSession.CloseCancelsTheQueue | common/mcp_tool_call_conn.py:227-243 | every request queued at closing gets the cancellation and no other reply, whatever follows |
| McpSession.HealthySessionsDoNotFail | common/mcp_tool_call_conn.py:123-158 | with a connection, no request fails unless the server fails it, over all steps |
| McpSession.BrokenSessionsDoNotCall | common/mcp_tool_call_conn.py:135-141 | without one, nothing is ever in flight |
| McpSession.BrokenSessionsFail | common/mcp_tool_call_conn.py:135-141 | and whatever the worker answers is a failure, until a new one finds a connection |
| McpSession.OldestIsTaken | common/mcp_tool_call_conn.py:124-146 | an idle worker takes the oldest request, calls the server with it if there is a connection and fails it otherwise |
| McpSession.CallsAreAnswered | common/mcp_tool_call_conn.py:160-175 | a call on an open session with nothing else to do gives its caller what the server answered, raised if it is a failure |
| McpSession.Session.CallServer | common/mcp_tool_call_conn.py:160-165 | admits a request with a fresh number unless the session is closed, and keeps the session sound |
| McpSession.Session.CloseSession | common/mcp_tool_call_conn.py:227-243 | sets the flag and cancels the queue front to back |
| NestedValues.Store.SetParam | agent/canvas.py:258-268 | the descending loop makes the dictionaries that are missing and stores the value, in place; without keys the value replaces the root, and a root that is no dictionary raises |
| NestedValues.StepsOfARead | agent/canvas.py:209-236 | one step of a read: the entry of a dictionary, the element of a list at the index the key denotes, from the end if negative, a text's JSON, and nothing else |
| NestedValues.SetThenGet | agent/canvas.py:209-268 | whatever is shared, the written path reads a dictionary holding the value under the last key and the path with its last key repeated reads the value, unless the path passes its own end; for values without dictionaries that condition is exact |
| NestedValues.ASelfReferencePassesItsEnd | agent/canvas.py:263-267 | a dictionary that holds itself is such a case |
| NestedValues.OtherPathsUnchanged | agent/canvas.py:209-268 | a read that does not pass through the one entry that changes is the same as before; a path that read something reads the same after Null is written if and only if it does not pass through it |
| NestedValues.TouchReadsTheNewValue | agent/canvas.py:209-236 | a read that does pass through it goes on from what the entry holds now |
| NestedValues.ASharedDictionaryChangesToo | agent/canvas.py:263-267 | a dictionary under two names: writing under one changes what is read under the other |
| NestedValues.WriteChangesOneEntry | agent/canvas.py:263-267 | of the dictionaries that existed, a write changes one entry of one of them |
| NestedValues.PathsAreUnique | agent/canvas.py:209-236 | in a tree of dictionaries, only one path reads a given one |
| NestedValues.TreePathsDoNotTouch | agent/canvas.py:209-268 | so where nothing is shared, no path passes through the changed entry that leaves the written one at a dictionary that existed |
| NestedValues.WriteGoesOneLevelDeeper | agent/canvas.py:263-267 | writing "a" into an empty dictionary makes a dictionary under "a" |
| Images.ExtractDataImages | agent/component/llm.py:130-153 | the recursive walk appends the images in order, looking only under "content" where there is one |
| Images.ExtractionFindsWhatItSees | agent/component/llm.py:130-153 | extraction finds exactly the texts that begin, stripped, as an image does, in order, among all leaves it looks at: of a dictionary with "content" those under it, of any other container all |
| Images.RemovalIsComplete | agent/component/llm.py:171-225 | whenever removal does not raise, what it leaves holds no images, and removing again, if that does not raise, changes nothing |
| Images.RemovalIsFinal | agent/component/llm.py:171-225 | removing twice is removing once if and only if no dictionary that is walked has a set under "type" of which something survives; otherwise the second removal raises |
| Images.ASetUnderTypeTripsTheSecondRemoval | agent/component/llm.py:200-223 | a case where it does |
| Images.RemovalKeepsTheRest | agent/component/llm.py:171-225 | exactly the strings and scalars that are no images and lie outside of image parts survive, in order |
| Images.RemovalKeepsShapes | agent/component/llm.py:178-223 | a part that declares an image and has one goes whole; any other container stays one of its kind, a set becoming a list, with what is left of a dictionary's items under their keys |
| Images.RemovalRaisesExactly | agent/component/llm.py:211-213 | removal raises if and only if a dictionary that is walked has a list, a dictionary, or a tuple with one or with a set in it under "type" |
| Images.ASchemaTripsRemoval | agent/component/llm.py:211-213 | a JSON schema with a list of types is such a dictionary |
| Markdown.ParseMarkdown | agent/component/docs_generator.py:704-819 | the outer loop ends for every text, and yields the blocks one after the other |
| Markdown.ParseBlock | agent/component/docs_generator.py:710-817 | one turn of the loop, with the rewind of a lone table row, reads one block and moves on |
| Markdown.BlocksTile | agent/component/docs_generator.py:704-819 | the blocks lie end to end: every line is read exactly once and in order |
| Markdown.BlocksAreOfTheirKind | agent/component/docs_generator.py:704-830 | runs are as long as they can be, code goes up to its closing fence or the end, a table has two rows, a paragraph swallows nothing special |
| Markdown.OneWayToCut | agent/component/docs_generator.py:704-830 | any cut of the text into blocks of their kinds is the scanner's |
| Markdown.KindsExcludeEachOther | agent/component/docs_generator.py:712-797 | no line starts two kinds of block |
| Markdown.KindsByStarts | agent/component/docs_generator.py:712-797 | headings, bullets, table rows and code are what begins with their marks |
| Markdown.ParagraphsSwallowNothing | agent/component/docs_generator.py:808-830 | a line on which a paragraph goes on would start no other kind of block |
| Markdown.RowsHaveBars | agent/component/docs_generator.py:777 | a row of a table is a line with a bar in it |
| Wrap.WrapParagraph | agent/component/docs_generator.py:1082-1096 | the lines hold the same words in the same order; each has at most 100 characters or is one word; none was closed while the next word fitted, one character less being allowed on the first line |
| Wrap.LineExtended | agent/component/docs_generator.py:1091-1093 | the running length is that of the joined line, one more on the first |
| Text.SplitJoin | agent/component/docs_generator.py:1082-1096 | joining words by blanks and splitting again gives the words back |
| Text.SplitAtBlank | agent/component/docs_generator.py:1082-1096 | a blank anywhere divides the words before it from those after it |
| Dates.DateTextsCompareAsDates | common/metadata_utils.py:57-64 | for texts of the form YYYY-MM-DD, the order of strings is that of year, month and day as numbers, and equal dates have equal texts |
| Dates.DatesAreWritten | common/metadata_utils.py:55-71 | a date is four digits, two and two with dashes between, and nothing else |
| Dates.DigitsCompareAsNumbers | common/metadata_utils.py:57-64 | digit strings of one length compare as their numbers |
| MetaFilter.FilterOut | common/metadata_utils.py:45-139 | the loop over the records, with the query value it carries along, collects the documents of the records that match, in order; DateQueriesCompareDates says which these are for a date, PlainQueriesMatch for anything else |
| MetaFilter.DateQueriesCompareDates | common/metadata_utils.py:75-84 | a query for a date selects exactly the records that are dates in the asked relation to it |
| MetaFilter.PlainQueriesMatch | common/metadata_utils.py:85-138 | a query that never becomes one for a date selects exactly the records that are matched once the input and the query value, prepared by the records before, have been prepared |
| MetaFilter.RedIsFound | common/metadata_utils.py:85-138 | a case: of a red and a blue record, "=" finds the red one |
| MetaFilter.AQuotedDateBecomesADate | common/metadata_utils.py:85-93 | a query value that becomes a date at the first record is treated as one from the second on |
| MetaFilter.TheOrderOfRecordsMatters | common/metadata_utils.py:85-93 | a case: the same two records in two orders, and a quoted date is found in one of them only |
| MetaFilter.MetaFilter | common/metadata_utils.py:141-159 | "and" selects what all filters from the first matching one on have in common, any other logic what any filter matches |
| MetaFilter.SetsAreMatches | common/metadata_utils.py:141-148 | a filter selects the documents its key's records match with, and none if there is no such key |
| MetaFilter.NothingComesBack | common/metadata_utils.py:153-156 | once "and" has lost every document, later filters bring none back |
| MetaFilter.AndIsIntersection | common/metadata_utils.py:150-156 | "and" is the intersection of all filters exactly when the first one matches something, or none does, or those from the first matching one on have nothing in common |
| MetaFilter.AndCanSkipAFilter | common/metadata_utils.py:150-151 | a first filter without matches is skipped under "and": a concrete case |

## Left out

- LoopRun.LoopIsBounded: does not say what the conditions look up while the loop is walked; they may answer anything, so it bounds the passes and does not count them. Visits in one batch are taken one after the other, and none of them is cut short by a cancellation.
- Switch.Invoke: takes the truth of each item as given, so `process_operator` and the conversion of operands are not modelled, nor are the cancellation checks inside the component.
- IterationRun.IterationIsAMap: is stated for a body that is a chain of plain components without errors or streams, as the scheduler theorems cover every other shape without saying what is computed.
- MetaFilter.FilterOut: takes matching outside of the date branch as given, that is, literal evaluation, lower-casing and comparison of mixed types.
- Canvas.Canvas.Run: does not model exceptions thrown by message streams or while inputs are collected.
- The chunks of a streamed message and speech output: one message event stands for them.
- What components compute: running a batch is an arbitrary function of the world and the kept entries, so threads, their interleaving, time-outs and elapsed times are not modelled.
- Webhook payloads, user inputs, globals, history, retrieval references and the contents of events other than the component they are about.
- `invoke`, `set_output` and the other methods of the component base class appear through what the scheduler reads afterwards: error, stream, end and next targets.
- Loop variables and their initialisation; looking up the operands of a condition.
- Clustering, embeddings, prompts and truncation in the summary tree: the clustering answers anything its callers accept.
- `made` in the summary tree, and the event list of the scheduler with its marks for nodes held back, are bookkeeping for the statements; the code keeps no such lists.
- JSON inside texts and the conversion of a key to a list index are given functions; attributes of objects are not read.
- Storing a canvas and loading it again, which gives item nodes a fresh counter.
- Iteration.IterationItem.Invoke: takes it that the exception on an empty array leaves an error; a node that answers exceptions with a comment leaves none and goes on.
- Digits, letters and lower-casing outside of ASCII.
- The transports, the thread pool and the shutdown of an MCP session, and a worker cancelled in the middle of taking from the queue.
- Fonts, styles and the output of PDF and DOCX; inline formatting; the building of tables.
- Categorize, list and data operations, the command line, services and the web interface: easy or mostly I/O.
