# 1Context: models and proofs of five core components

This project models the parts of the 1Context crates that hold state or do arithmetic over
unbounded histories, and proves what they are for.

- **Window spool index** (`SpoolLines`, `SpoolIndex`, `SpoolReader`, `SpoolFile`, `SpoolCoherence`,
  `SpoolQueryRace`):
  the sidecar time index of a `.windows.jsonl` file, its binary searches and byte ranges, and the
  reads with and without it. A file is a byte sequence; the prefix-time scan and the envelope parser
  are functions handed to both readers, so nothing is assumed about how they relate. The sidecar is
  also modelled as a state machine in which appends land between any two lines that a rebuild reads, and
  appends and publications between the two steps of a query, which takes the file's fingerprint first and
  reads the sidecar afterwards.
- **Packets** (`Grouping`, `PacketRows`, `PacketPlanner`, `SourcePackets`, `PacketConservation`,
  `PacketBounds`, `PacketSelection`): the packet planner and the materializer that repeats its work in another order.
  Token arithmetic is 32-bit with the wrap-around written out. Reading a timestamp and subtracting
  days from a date are parameters. A packet id stands for the parts it is formatted from.
- **Phase scheduler** (`PhaseGraph`, `PhaseAnalysis`, `Scheduler`, `SchedulerRun`, `SchedulerSafety`,
  `SchedulerClosure`, `SchedulerProgress`): the dependency analysis, readiness, and runs of many batches
  that start with any set of completed phases; a run on a fresh state starts with the two that its source
  import marks (`SchedulerRun.LiveRunIsSeeded`). Several declarations of one phase id and jobs that name
  another phase than the one listing them are allowed, as the code allows them.
- **Agent mail** (`MailLedgers`, `MailOrders`, `MailCalls`, `MailInvariants`, `MailRuns`,
  `MailWakeups`, `MailSends`, `MailClaims`, `MailDispatch`, `MailStore`): the store as nine ledgers. Every locked
  call is one step; it is described by the appends it makes (`MailCalls`), the appends are proved to
  keep one invariant (`MailInvariants`), and the object in `MailStore` is proved to make exactly those
  appends. Ids that the store hashes are the values they are hashed from, times are whole
  nanoseconds with one text each, addresses are canonical, and both the order in which an ordered map
  lists hashed ids and the order of creation times as text are arbitrary total orders.
- **Retention and bindings** (`Retention`, `Bindings`, `BindingResolution`): the sweep planner and its
  report, and the splitting, parsing and resolving of binding expressions.

`Orders` holds the shared theory: stable sorting, filters and ordered listings.

Where code and expectation differ, the model follows the code:

- For an inverted window the tolerant full scan succeeds, selects nothing and still reports the lines it
  cannot parse (`SpoolReader.InvertedScan`), while the read through the index fails. The two outcomes
  agree exactly when the window is not inverted (`SpoolFile.SpoolFile.ReadIndexed`).
- Running token costs are 32-bit and can wrap around. Greedy splitting is optimal for every target all
  the same (`PacketRows.SplitIsOptimal`). Chunks keep to their budget for every input exactly when the
  target leaves room for one more row below 2^32 (`PacketRows.BudgetRuleIffTargetLeavesRoom`). The
  bound on estimates holds for every input exactly for those targets and for the targets from
  4143972351 on; for the targets between, some 200 million crowded rows break it
  (`PacketBounds.TokenBoundIff`). For every target it holds of inputs that cost less than 2^32 in all
  (`PacketBounds.TokenBound`).
- A query can accept an index that describes no content the file ever had: when its rebuild had taken the
  same fingerprint and a line is then appended in two parts, which the rebuild reads as two lines before
  publishing (`SpoolQueryRace.TornIndexAccepted`, with a wrong read in `TornReadDiffers`). When every append
  ends at a line boundary, an accepted index describes the file as it was at the fingerprint or later
  (`AcceptedIndexDescribes`), and the former exactly when its rebuild had read no further
  (`AcceptedIndexIsCurrentIff`). For any appends it describes the file as it was at the fingerprint when no
  rebuild that took this fingerprint is published after the file has grown (`AcceptedIndexIsCurrent`).
- A run does not keep the completed set closed under dependencies for every plan: a repeated phase id
  (`SchedulerSafety.RepeatedIdFails`) or a job that names another phase than the one listing it
  (`SchedulerSafety.BorrowedJobFails`) is enough to complete a phase before what it depends on.
  `SchedulerClosure.RunIsClosedIff` says exactly for which plans and starts the set stays closed: batches
  that complete neither the missing dependency nor the declaration's own phase must not be able to
  complete all that the declaration depends on. What batches can complete without certain phases is
  computed by as many greedy batches as there are names. `SchedulerSafety.CoveredRunIsClosed` gives a
  condition on the declarations alone. For the plans that stay closed, `SchedulerClosure.RunIsSoundIff`
  says exactly when no invalid or cyclic phase is completed.
- A phase without a job is never completed by a batch; with a job for every phase that is not completed
  from the start, as many batches as there are phases complete a plan without issues
  (`SchedulerProgress.BatchesCompleteIff`).
- Recording an idempotency key without sending settles no recipient: the send that follows counts as
  a duplicate and still delivers (`MailSends.AcceptedOnlyStillDelivers`). A duplicate delivers only to
  recipients deferred before, whatever the limit, exactly when each of its recipients was named by an
  earlier accepted send (`MailSends.DuplicateDeliversDeferredIff`).
- The retry time of a failed attempt is cut to whole seconds, so a retry may come less than a minute later,
  though always more than 59 seconds; exactly the failures at whole seconds keep the minute
  (`MailDispatch.MinuteKeptIff`).
- The run status "blocked" is never reported (`Scheduler.NeverBlocked`).

## Model

| member | source | states |
|---|---|---|
| SpoolLines.ReadLines | crates/onecontext-capture-core/src/spool_index.rs:131-165 | the line loop yields the file's lines: each non-empty, ended by its newline or the end of the file, numbered from 1, with its byte offset |
| SpoolLines.SplitJoin | crates/onecontext-capture-core/src/spool.rs:160-185 | splitting a concatenation of whole lines gives back those lines |
| SpoolLines.JoinSplit | crates/onecontext-capture-core/src/spool.rs:160-185 | the lines of a file, joined, are the file |
| SpoolLines.LinesTiled | crates/onecontext-capture-core/src/spool_index.rs:131-165 | line numbers and byte offsets tile the file: each line starts where the previous ends |
| SpoolLines.RangeLines | crates/onecontext-capture-core/src/spool.rs:294-345 | splitting a byte range that starts and ends at line boundaries gives exactly the whole file's lines there, with the same numbers and offsets |
| SpoolIndex.RebuildIndex | crates/onecontext-capture-core/src/spool_index.rs:110-172 | the rebuild loop and sort produce the index of the file's lines: every timed line an entry, blank lines counted, the others unindexed |
| SpoolIndex.IndexShapeError | crates/onecontext-capture-core/src/spool_index.rs:307-339 | reports no error exactly when counts add up, every entry is non-empty and times ascend |
| SpoolIndex.RebuiltIndexPassesShape | crates/onecontext-capture-core/src/spool_index.rs:203-266 | an index built from any file's lines always passes the shape check |
| SpoolIndex.LowerBoundTime | crates/onecontext-capture-core/src/spool_index.rs:386-398 | the found position separates the entries before the time from those at or after it |
| SpoolIndex.UpperBoundTime | crates/onecontext-capture-core/src/spool_index.rs:400-412 | the found position separates the entries up to the time from those after it |
| SpoolIndex.WindowSlice | crates/onecontext-capture-core/src/spool_index.rs:276-305 | the slice between the two bounds is exactly the entries inside the window |
| SpoolIndex.CoalesceRanges | crates/onecontext-capture-core/src/spool_index.rs:362-384 | the loop that extends the last range computes the specified ranges |
| SpoolIndex.CoalesceExact | crates/onecontext-capture-core/src/spool_index.rs:362-384 | the ranges of any selection of lines cover exactly the selected lines: aligned at line boundaries, ascending and separated, each with its true line count |
| SpoolIndex.Query | crates/onecontext-capture-core/src/spool_index.rs:276-305 | searching, slicing, re-sorting and coalescing return the entries inside the window in file order as ranges |
| SpoolIndex.SelectedInFileOrder | crates/onecontext-capture-core/src/spool_index.rs:276-305 | the entries selected by time and sorted by position are those of the window's lines in file order |
| SpoolReader.ReadFullScan | crates/onecontext-capture-core/src/spool.rs:147-263 | the full scan reports, in order, the records and malformed lines of its line-by-line judgement, and fails where that aborts |
| SpoolReader.AbortIsFinal | crates/onecontext-capture-core/src/spool.rs:147-263 | nothing is reported after the line that aborts a scan |
| SpoolReader.AlignedRangesRead | crates/onecontext-capture-core/src/spool.rs:294-353 | reading aligned ranges of a file, even after it has grown, gives the covered lines |
| SpoolReader.ReadRanges | crates/onecontext-capture-core/src/spool.rs:294-353 | each range is read and its lines judged in turn; a range that does not fit ends the read, and what earlier ranges gave stays reported |
| SpoolReader.InvertedScan | crates/onecontext-capture-core/src/spool.rs:147-263 | with an inverted window a tolerant scan selects nothing and never aborts, and reports nothing exactly when no line is unparsable |
| SpoolReader.IndexedAgreesWithScan | crates/onecontext-capture-core/src/spool.rs:147-353 | when every line carries an indexable time, judging only the lines inside the window finds what the tolerant full scan finds: same records and malformed lines, same order, numbers, offsets and bytes |
| SpoolFile.SpoolFile.QueryIndex | crates/onecontext-capture-core/src/spool_index.rs:183-274 | fails exactly for inverted windows, otherwise falls back for the first applicable reason or returns the exact lookup |
| SpoolFile.SpoolFile.LoadOrRefresh | crates/onecontext-capture-core/src/spool.rs:361-401 | a lookup comes back exactly when the file can be indexed and its sidecar is not corrupt, and it is the exact lookup |
| SpoolFile.SpoolFile.ReadIndexed | crates/onecontext-capture-core/src/spool.rs:265-353 | whatever the sidecar holds, the outcome is that of the tolerant full scan if and only if the window is not inverted |
| SpoolFile.SpoolFile.ReadFile | crates/onecontext-capture-core/src/spool.rs:134-145 | every read mode reports the findings of the full scan in that mode |
| SpoolFile.LookupIsExact | crates/onecontext-capture-core/src/spool_index.rs:276-305 | a lookup in the file's own index counts and covers exactly the lines of the window |
| SpoolFile.IndexedReadIsFullScan | crates/onecontext-capture-core/src/spool.rs:265-353 | for every file whose lines are all indexable and every window, reading the looked-up ranges from the file as it is or as it later grew gives the findings of the full scan |
| SpoolCoherence.ApplyKeepsInv | crates/onecontext-capture-core/src/spool_index.rs:110-181 | appends between the lines of a rebuild, publishing, giving up and losing the sidecar all keep the coherence invariant |
| SpoolCoherence.PublishedIndexIsWellShaped | crates/onecontext-capture-core/src/spool_index.rs:307-339 | after any interleaving, a published index passes the shape check, even one torn by appends |
| SpoolQueryRace.AcceptedIndexDescribes | crates/onecontext-capture-core/src/spool_index.rs:183-274 | after any interleaving, also between taking the fingerprint and reading the sidecar: if all appends end at line boundaries, or the publishing rebuild read no further than the fingerprinted size, an accepted index is exactly that of the content this rebuild had read, which begins with the fingerprinted content |
| SpoolQueryRace.AcceptedIndexIsCurrentIff | crates/onecontext-capture-core/src/spool_index.rs:183-274 | with appends that end at line boundaries, an accepted index is that of the fingerprinted content if and only if the rebuild that published it had read no further |
| SpoolQueryRace.AcceptedIndexIsCurrent | crates/onecontext-capture-core/src/spool_index.rs:183-274 | for any appends, an accepted index is that of the fingerprinted content when no rebuild that took this fingerprint is published once the file has grown |
| SpoolQueryRace.ReadThroughSidecarIsFullScan | crates/onecontext-capture-core/src/spool.rs:265-401 | under the same conditions a read through an accepted sidecar, with more appends before its range reads, reports the full scan of the content that the index describes |
| SpoolQueryRace.TornIndexAccepted | crates/onecontext-capture-core/src/spool_index.rs:110-181 | a run in which a line appended in two parts is indexed as two lines and the query accepts an index that is that of no prefix of the file |
| SpoolQueryRace.TornReadDiffers | crates/onecontext-capture-core/src/spool.rs:265-353 | in that run the read through the index finds a record that the full scan of the file does not |
| Grouping.GroupsSnoc | crates/onecontext-context-engine/src/packet_planner.rs:140-142 | pushing one more element under its key turns the groups of a sequence into those of the longer one |
| Grouping.GroupsConserve | crates/onecontext-context-engine/src/packet_planner.rs:140-152 | the groups, listed by key, hold every keyed element exactly as often as the input |
| Grouping.SortThenGroup | crates/onecontext-context-engine/src/packet_planner.rs:133-142 | grouping a stably sorted sequence gives the stably sorted groups |
| PacketRows.EstimateNearTotal | crates/onecontext-context-engine/src/packet_planner.rs:351-362 | a packet's estimate exceeds the sum of its events' own costs by at most three quarters of a token an event |
| PacketRows.SplitEventRows | crates/onecontext-context-engine/src/packet_planner.rs:291-309 | the split loop computes the specified chunks |
| PacketRows.ChunksPartition | crates/onecontext-context-engine/src/packet_planner.rs:291-309 | for every budget the chunks concatenate to the rows in order and none is empty |
| PacketRows.ChunksGreedy | crates/onecontext-context-engine/src/packet_planner.rs:291-309 | for every budget no chunk was closed before it had to be |
| PacketRows.ChunksWithinBudget | crates/onecontext-context-engine/src/packet_planner.rs:291-309 | each chunk is a single row or within the budget when the target leaves room for one more row below 2^32 or all rows together cost less |
| PacketRows.SplitIsOptimal | crates/onecontext-context-engine/src/packet_planner.rs:291-309 | for every budget no contiguous partition meeting the chunk rule has fewer chunks |
| PacketRows.BudgetRuleIffTargetLeavesRoom | crates/onecontext-context-engine/src/packet_planner.rs:291-309 | the chunk rule holds for all inputs if and only if the target plus the dearest row stays below 2^32 |
| PacketPlanner.ResolveEvents | crates/onecontext-context-engine/src/packet_planner.rs:133-137 | keeps exactly the events whose timestamp can be read, each with its hour |
| PacketPlanner.GroupByHour | crates/onecontext-context-engine/src/packet_planner.rs:140-142 | the grouping loop yields each hour's events in order |
| PacketPlanner.PackHour | crates/onecontext-context-engine/src/packet_planner.rs:252-276 | sessions in name order, each kept whole or split |
| PacketPlanner.PlanPackets | crates/onecontext-context-engine/src/packet_planner.rs:126-152 | sorting, then grouping, then packing hour by hour yields the planned packets |
| SourcePackets.PacketEventIndex | crates/onecontext-context-engine/src/source_packets.rs:394-415 | grouping, then sorting each hour, then packing yields the index of packet contents by id |
| SourcePackets.PlanIssues | crates/onecontext-context-engine/src/source_packets.rs:148-170 | the materializer's loop reports unreadable timestamps and each mismatch of each selected packet |
| SourcePackets.HoursAgree | crates/onecontext-context-engine/src/source_packets.rs:394-415 | both orders of work give every hour the same events in the same order |
| SourcePackets.IndexIsPlan | crates/onecontext-context-engine/src/source_packets.rs:394-492 | the materializer's index holds exactly the planner's packet ids, each with the events the planner packed |
| SourcePackets.MaterializerFindsNoMismatch | crates/onecontext-context-engine/src/source_packets.rs:517-549 | for any selection of a plan built from the same events no mismatch is reported, and nothing at all exactly when every timestamp can be read |
| PacketConservation.EveryEventPackedOnce | crates/onecontext-context-engine/src/packet_planner.rs:126-289 | the packets hold every readable event exactly as often as the input |
| PacketConservation.PlanConservesCounts | crates/onecontext-context-engine/src/packet_planner.rs:311-362 | event counts add up exactly, character counts modulo 2^32, and exactly when the true total fits |
| PacketBounds.EveryPacketSound | crates/onecontext-context-engine/src/packet_planner.rs:233-289 | for every input and target no packet is empty, whole hours are within the target, and a lone event costs no more than an event can |
| PacketBounds.TokenBound | crates/onecontext-context-engine/src/packet_planner.rs:233-309 | a packet of several events exceeds the target by at most three quarters of a token an event and at most three sixty-fourths of the target, for targets that leave room for one more row below 2^32, for targets from 4143972351 on, and for every target when the readable input costs less than 2^32 |
| PacketBounds.CrowdedRowsStayTogether | crates/onecontext-context-engine/src/packet_planner.rs:291-309 | for any target between the safe and the high ones, a row list whose running cost wraps to nothing is never split |
| PacketBounds.TokenBoundIff | crates/onecontext-context-engine/src/packet_planner.rs:233-309 | the bound holds for all inputs if and only if the target leaves room for one more row below 2^32 or is at least 4143972351 |
| PacketSelection.SelectPacketsForRun | crates/onecontext-context-engine/src/packet_planner.rs:194-222 | the two-way split and the cap select as specified |
| PacketSelection.RunOrderPermutes | crates/onecontext-context-engine/src/packet_planner.rs:194-222 | the order a run would take is a rearrangement of the uncached packets |
| PacketSelection.RecentBeforeOlder | crates/onecontext-context-engine/src/packet_planner.rs:194-222 | recent packets come first and both parts keep the plan's order |
| PacketSelection.SelectionSound | crates/onecontext-context-engine/src/packet_planner.rs:194-222 | as many as the cap allows, all uncached, no id twice, nothing older while something recent is left out, all of them when they fit |
| PacketSelection.BuildPacketPlan | crates/onecontext-context-engine/src/packet_planner.rs:126-192 | the plan and its selection are those specified for the policy |
| PacketSelection.PlannedRunMaterializes | crates/onecontext-context-engine/src/source_packets.rs:128-170 | a run's selection is sound and materializes without mismatch, for every input and policy |
| PhaseAnalysis.ScanDependencies | crates/onecontext-context-engine/src/scheduler.rs:400-446 | counters, child lists, missing dependencies and issues say exactly what the declarations say |
| PhaseAnalysis.Release | crates/onecontext-context-engine/src/scheduler.rs:465-473 | taking a done phase off its children's counters leaves every counter at the number of open dependencies and queues exactly those that reached zero |
| PhaseAnalysis.OrderPhases | crates/onecontext-context-engine/src/scheduler.rs:448-474 | the queue terminates with a topological, greedy and maximal order |
| PhaseAnalysis.SpreadInvalid | crates/onecontext-context-engine/src/scheduler.rs:476-502 | the fixpoint loop terminates with a set closed under depending on a member, all of it reaching a missing dependency |
| PhaseAnalysis.SpreadIsFixpoint | crates/onecontext-context-engine/src/scheduler.rs:476-502 | that set is exactly the phases that reach a missing dependency |
| PhaseAnalysis.AnalyzePhaseGraph | crates/onecontext-context-engine/src/scheduler.rs:400-530 | the analysis produces the order, the missing, invalid and cycle sets and the issues as specified, for every phase list |
| PhaseGraph.PhasesPartitioned | crates/onecontext-context-engine/src/scheduler.rs:400-530 | every phase is ordered, invalid or in the cycle set, and only one of these |
| PhaseGraph.OrderIsFirst | crates/onecontext-context-engine/src/scheduler.rs:448-474 | any other dependency-respecting order is a beginning of this one or first departs from it by a phase declared later |
| PhaseGraph.OrderUnique | crates/onecontext-context-engine/src/scheduler.rs:448-474 | a phase list has only one such order |
| PhaseGraph.CycleHasNext | crates/onecontext-context-engine/src/scheduler.rs:504-521 | each phase in the cycle set depends on a phase in it |
| PhaseGraph.CycleFoundIffCycle | crates/onecontext-context-engine/src/scheduler.rs:504-521 | the cycle set is non-empty exactly when phases that reach no missing dependency depend on each other in a circle |
| PhaseGraph.NoIssuesIffAllOrdered | crates/onecontext-context-engine/src/scheduler.rs:400-530 | no issue is reported exactly when every phase is ordered |
| Scheduler.BuildSchedulerRunPlan | crates/onecontext-context-engine/src/scheduler.rs:143-253 | the loop schedules every phase and job as specified over the analysis |
| Scheduler.ReadyIff | crates/onecontext-context-engine/src/scheduler.rs:366-389 | a phase is ready exactly when it is not completed, is ordered, and all it depends on is completed; so invalid and cyclic phases never are |
| Scheduler.NeverBlocked | crates/onecontext-context-engine/src/scheduler.rs:219-232 | for every completed set the status is not "blocked", and without issues some phase is ready until all are completed |
| SchedulerRun.BuildRuntimeScaffold | crates/onecontext-context-engine/src/runtime_executor.rs:96-226 | turns are those of the jobs of ready phases whose inputs are there and whose condition holds or is undecided |
| SchedulerRun.RunState.MarkPhaseCompleted | crates/onecontext-context-engine/src/run_state.rs:68-78 | adds exactly one phase and leaves the record ascending and duplicate-free |
| SchedulerRun.RunState.CompleteBatchPhases | crates/onecontext-context-engine/src/agent_execution.rs:467-508 | completes exactly the phases whose turns of this batch all finished with none conditional |
| SchedulerRun.BatchCompletes | crates/onecontext-context-engine/src/agent_execution.rs:476-504 | a phase is among the completed ones exactly when it had a turn, all its turns finished and none is conditional |
| SchedulerRun.ImportSources | crates/onecontext-context-engine/src/agent_execution.rs:377-395 | without packets and without the planning phase completed, exactly the import and the planning phase are marked; otherwise nothing changes |
| SchedulerRun.RunBatch | crates/onecontext-context-engine/src/agent_execution.rs:368-420 | importing if needed, scheduling, running and completing is one batch of the run on what the import leaves completed |
| SchedulerRun.LiveRunIsSeeded | crates/onecontext-context-engine/src/agent_execution.rs:377-395 | the calls on a fresh state are the batches of a run that starts with exactly the import and the planning phase completed |
| SchedulerSafety.FinishedWasReady | crates/onecontext-context-engine/src/runtime_executor.rs:228-234 | for every plan: a phase finished by a batch is named by a job of an open, ordered declaration with all its dependencies completed |
| SchedulerSafety.RunIsBacked | crates/onecontext-context-engine/src/agent_execution.rs:467-508 | for every plan: along every run the completed set only grows, and each phase in it has its dependencies completed or is named by a job of an ordered declaration that has |
| SchedulerSafety.CoveredRunIsClosed | crates/onecontext-context-engine/src/agent_execution.rs:467-508 | from a closed start every run keeps the completed set closed when, for every job of an ordered declaration, all the named phase depends on is that phase itself or already demanded by the declaration |
| SchedulerSafety.SoundNamesNoneBad | crates/onecontext-context-engine/src/agent_execution.rs:467-508 | no run completes an invalid or cyclic phase when no job of an ordered declaration names one and none is completed at the start |
| SchedulerSafety.OwnedRunIsSound | crates/onecontext-context-engine/src/agent_execution.rs:467-508 | when jobs are listed under the phase they name, no run completes a bad phase and every completed phase has a declaration with all dependencies completed |
| SchedulerSafety.OwnedRunIsClosed | crates/onecontext-context-engine/src/agent_execution.rs:467-508 | with such jobs and one declaration an id, the completed set of every run is closed |
| SchedulerSafety.RepeatedIdFails | crates/onecontext-context-engine/src/orchestration.rs:12-49 | a plan that repeats an id, and a run that completes its phase before what the other declaration depends on |
| SchedulerSafety.BorrowedJobFails | crates/onecontext-context-engine/src/orchestration.rs:12-49 | a plan with unique ids whose job names another phase, and a run that completes that phase before what it depends on |
| SchedulerClosure.AvoidingCompletes | crates/onecontext-context-engine/src/agent_execution.rs:398-508 | a batch that runs every job but those naming certain phases completes exactly the other phases named by jobs of ready declarations |
| SchedulerClosure.RoundsSuffice | crates/onecontext-context-engine/src/agent_execution.rs:398-508 | after as many such batches as there are names, no further one adds anything |
| SchedulerClosure.RunWithinGreedy | crates/onecontext-context-engine/src/agent_execution.rs:398-508 | as long as no job is ready before what its phase depends on, such batches complete whatever any run completes that leaves those phases out |
| SchedulerClosure.UncoveredFails | crates/onecontext-context-engine/src/agent_execution.rs:398-508 | a declaration that batches can make ready without a dependency of the phase its job names gives a run whose completed set is not closed |
| SchedulerClosure.RunIsClosedIff | crates/onecontext-context-engine/src/agent_execution.rs:398-508 | for every plan and start: the completed set of every run of batches is closed under dependencies if and only if the start is, and no job names a phase with an open dependency although its declaration can be made ready without that dependency and without its own phase |
| SchedulerClosure.RunIsSoundIff | crates/onecontext-context-engine/src/agent_execution.rs:398-508 | for every plan without such a job (whose runs from a closed start stay closed): no run completes an invalid or cyclic phase if and only if none is completed at the start and no job names one whose declaration batches can make ready |
| SchedulerProgress.ThoroughCompletes | crates/onecontext-context-engine/src/agent_execution.rs:476-504 | a batch in which every job runs to the end completes every phase named by a job of a ready declaration |
| SchedulerProgress.OrderCompletes | crates/onecontext-context-engine/src/agent_execution.rs:467-508 | after n such batches the first n phases of the order are completed |
| SchedulerProgress.ThoroughRunCompletes | crates/onecontext-context-engine/src/agent_execution.rs:467-508 | for every plan without issues in which each phase is completed at the start or has a job of its own, as many such batches as there are phases complete it |
| SchedulerProgress.UnlistedStaysOpen | crates/onecontext-context-engine/src/agent_execution.rs:476-504 | a phase that no job names and that is open at the start is never completed |
| SchedulerProgress.BatchesCompleteIff | crates/onecontext-context-engine/src/agent_execution.rs:467-508 | for a plan without issues whose jobs are listed under the phase they name, as many such batches as there are phases always complete it if and only if every phase is completed at the start or has a job |
| MailLedgers.SuppressionRead | crates/onecontext-agent-mail/src/lib.rs:2053-2071 | the suppression loop changes exactly the pending notifications of other agents for the delivery |
| MailLedgers.LatestDeliveryAt | crates/onecontext-agent-mail/src/lib.rs:2279-2285 | reading the ledger gives each delivery its last record |
| MailOrders.ByPartsValid | crates/onecontext-agent-mail/src/lib.rs:2279-2303 | comparing ids part by part is a key order as the ordered maps need it |
| MailInvariants.Lifecycle | crates/onecontext-agent-mail/src/lib.rs:1876-2047 | of two records of a delivery the later keeps identity and claimant, is not unread, and the earlier was not terminal |
| MailInvariants.FirstIsUnread | crates/onecontext-agent-mail/src/lib.rs:985-999 | a record is unread exactly when it is the first of its delivery; state, claimant and due time fit together |
| MailInvariants.NoteLifecycle | crates/onecontext-agent-mail/src/lib.rs:1592-1622 | nothing follows an acknowledged or suppressed notification record |
| MailInvariants.RetiredForGood | crates/onecontext-agent-mail/src/lib.rs:1099-1107 | a retired agent stays retired |
| MailInvariants.EventKeepsInv | crates/onecontext-agent-mail/src/lib.rs:2012-2138 | every append, made when the store makes it, keeps the invariant over all ledgers |
| MailRuns.NotesForAgentsAdded | crates/onecontext-agent-mail/src/lib.rs:2073-2104 | telling agents of a delivery adds only missing notifications and changes no existing one |
| MailRuns.AgentNotesEnabled | crates/onecontext-agent-mail/src/lib.rs:2106-2138 | afterwards the agent has a notification for every open delivery it may act on |
| MailRuns.CallEnabled | crates/onecontext-agent-mail/src/lib.rs:881-2047 | every call makes its appends only when they are allowed |
| MailRuns.RunKeepsInv | crates/onecontext-agent-mail/src/lib.rs:881-2219 | every state of every run of calls satisfies the invariant |
| MailWakeups.PendingDueIs | crates/onecontext-agent-mail/src/lib.rs:2160-2197 | a poll returns exactly the latest pending notifications of the agent on open, due deliveries that are unclaimed or its own |
| MailWakeups.PollSorted | crates/onecontext-agent-mail/src/lib.rs:2191-2197 | in order of creation, then id |
| MailWakeups.PollCovers | crates/onecontext-agent-mail/src/lib.rs:1566-1577 | an open, due delivery a live agent may act on is in its poll exactly when the agent has not acknowledged it |
| MailWakeups.NoStolenWakeups | crates/onecontext-agent-mail/src/lib.rs:2012-2158 | in every state of every run no agent but the claimant has a pending notification for a claimed delivery, and no poll returns one |
| MailWakeups.RunReplays | crates/onecontext-agent-mail/src/lib.rs:2012-2047 | in every run a delivery's state and claimant are what its claim events say, and the delivery ledger has one record a delivery and one a claim event |
| MailWakeups.RunLifecycle | crates/onecontext-agent-mail/src/lib.rs:1876-2047 | in every run all records of a delivery follow its life cycle and exactly the first is unread |
| MailWakeups.RunFinality | crates/onecontext-agent-mail/src/lib.rs:1258-1278 | in every run acknowledged and suppressed notifications and retired agents stay so |
| MailClaims.ClaimTakes | crates/onecontext-agent-mail/src/lib.rs:1876-1912 | a successful claim takes an open, free delivery, suppresses exactly the competing notifications and changes nothing else; repeating it changes nothing |
| MailClaims.MarkChangesOnlyState | crates/onecontext-agent-mail/src/lib.rs:1914-1956 | marking changes the state of one delivery and no notification; reading leaves the claimant alone and only the claimant finishes a delivery |
| MailClaims.SnoozeHides | crates/onecontext-agent-mail/src/lib.rs:1958-1992 | snoozing takes a delivery as claiming does, and no poll shows it before it is due |
| MailClaims.ClaimantStays | crates/onecontext-agent-mail/src/lib.rs:2012-2047 | a claimant in one state of a run is the claimant in every later one |
| MailClaims.ClaimIsExclusive | crates/onecontext-agent-mail/src/lib.rs:1876-1992 | no other agent can claim, mark or snooze a claimed delivery in any later state |
| MailClaims.IdentifiedIsLive | crates/onecontext-agent-mail/src/lib.rs:1074-1132 | an identified agent is live exactly until its lease expires, with exactly the requested roles that the policy allows |
| MailClaims.HeartbeatRenews | crates/onecontext-agent-mail/src/lib.rs:1134-1166 | a heartbeat succeeds for every known agent that is not retired and makes it live until the new expiry |
| MailClaims.RetiredNeverLive | crates/onecontext-agent-mail/src/lib.rs:2221-2261 | an agent retired in one state of a run is refused by every later call that needs a live or unretired agent |
| MailSends.BackPressure | crates/onecontext-agent-mail/src/lib.rs:945-1010 | if every send allows at most so many open deliveries, no recipient ever has more |
| MailSends.OneAttemptEach | crates/onecontext-agent-mail/src/lib.rs:2551-2557 | an accepted send reports exactly one attempt for each distinct recipient |
| MailSends.SendSettles | crates/onecontext-agent-mail/src/lib.rs:945-1010 | after an accepted send each recipient has its delivery or a recorded deferral |
| MailSends.RetryDeliversOnlyDeferred | crates/onecontext-agent-mail/src/lib.rs:890-1010 | a retry with the same payload, under any message id, is a duplicate of the first message and delivers only to recipients deferred before |
| MailSends.AcceptedOnlyStillDelivers | crates/onecontext-agent-mail/src/lib.rs:881-888 | a key that was recorded without a send does not have this property: the duplicate send delivers to recipients never deferred |
| MailSends.SettledIffSent | crates/onecontext-agent-mail/src/lib.rs:890-1010 | in every run a recipient is settled exactly when an earlier accepted send of the message named it |
| MailSends.DuplicateDeliversDeferredIff | crates/onecontext-agent-mail/src/lib.rs:890-1010 | in every run, whatever the limit, a duplicate send delivers only to recipients deferred before if and only if each recipient in its payload was named by an earlier accepted send of the message |
| MailSends.KeysStayBound | crates/onecontext-agent-mail/src/lib.rs:890-923 | in every run each idempotency key has one record, which never changes |
| MailDispatch.RunCountsAttempts | crates/onecontext-agent-mail/src/lib.rs:1744-1791 | in every run a notification counts exactly its recorded attempts, all distinct |
| MailDispatch.DispatchDiscipline | crates/onecontext-agent-mail/src/lib.rs:2199-2219 | if attempts are recorded only for queued notifications, the earlier of two attempts failed more than 59 seconds before the later, and a full minute before it if it fell on a whole second; so at most one was sent or a dry run, and it is the last |
| MailDispatch.MinuteKeptIff | crates/onecontext-agent-mail/src/lib.rs:2426-2431 | a failed attempt keeps every permitted retry a full minute away if and only if it fell on a whole second |
| MailStore.AgentMailStore.IdentifyAgent | crates/onecontext-agent-mail/src/lib.rs:1074-1132 | appends the granted record and lease, or fails for ungrantable roles or a retired agent and appends nothing |
| MailStore.AgentMailStore.HeartbeatAgent | crates/onecontext-agent-mail/src/lib.rs:1134-1161 | renews the lease, revives a stale agent, refuses unknown and retired ones |
| MailStore.AgentMailStore.RetireAgent | crates/onecontext-agent-mail/src/lib.rs:1258-1278 | the agent's latest record is retired |
| MailStore.AgentMailStore.RequireLiveAgent | crates/onecontext-agent-mail/src/lib.rs:2241-2261 | succeeds exactly for an active agent whose latest lease is unexpired |
| MailStore.AgentMailStore.EnsureDeliveryNotifications | crates/onecontext-agent-mail/src/lib.rs:2073-2104 | appends the missing notifications of the delivery's targets in agent order |
| MailStore.AgentMailStore.EnsureAgentNotifications | crates/onecontext-agent-mail/src/lib.rs:2106-2138 | appends the agent's missing notifications in delivery order |
| MailStore.AgentMailStore.SuppressCompetingNotifications | crates/onecontext-agent-mail/src/lib.rs:2053-2071 | appends one suppressed record for each competing notification |
| MailStore.AgentMailStore.PendingDueNotifications | crates/onecontext-agent-mail/src/lib.rs:2160-2197 | the filtering loop and sort compute the pending, due notifications |
| MailStore.AgentMailStore.NotificationPoll | crates/onecontext-agent-mail/src/lib.rs:1566-1577 | adds what is missing and returns what is pending and due, for live agents only |
| MailStore.AgentMailStore.NotificationDispatchQueue | crates/onecontext-agent-mail/src/lib.rs:1579-1590 | the same for any unretired agent, restricted to what may be tried now |
| MailStore.AgentMailStore.AcknowledgeNotification | crates/onecontext-agent-mail/src/lib.rs:1592-1622 | the notification is afterwards not pending; a final one is returned unchanged |
| MailStore.AgentMailStore.RecordNotificationAttempt | crates/onecontext-agent-mail/src/lib.rs:1744-1791 | returns the recorded attempt of this id, recording it at most once and only for a dispatchable notification |
| MailStore.AgentMailStore.TransitionDelivery | crates/onecontext-agent-mail/src/lib.rs:2012-2047 | appends the next delivery record and its claim event, and suppresses competitors when the actor holds the delivery |
| MailStore.AgentMailStore.ClaimDelivery | crates/onecontext-agent-mail/src/lib.rs:1876-1912 | the delivery is afterwards claimed by the agent, or nothing changes and the failure says why |
| MailStore.AgentMailStore.MarkDelivery | crates/onecontext-agent-mail/src/lib.rs:1914-1956 | the delivery is afterwards in the marked state, or nothing changes |
| MailStore.AgentMailStore.SnoozeDelivery | crates/onecontext-agent-mail/src/lib.rs:1958-1992 | the delivery is afterwards snoozed until the given time, or nothing changes |
| MailStore.AgentMailStore.AcceptMessage | crates/onecontext-agent-mail/src/lib.rs:890-923 | records a new key, recognises a duplicate, refuses a reused key |
| MailStore.AgentMailStore.SendToRecipient | crates/onecontext-agent-mail/src/lib.rs:951-1004 | delivers, defers or repeats for one recipient, keeping the read deliveries up to date |
| MailStore.AgentMailStore.SendMail | crates/onecontext-agent-mail/src/lib.rs:925-1010 | the ledgers and the receipt after a send are those specified |
| Retention.PlanRetentionSweep | crates/onecontext-capture-core/src/retention.rs:137-215 | the planning loop gives every entry the specified action |
| Retention.RankingIs | crates/onecontext-capture-core/src/retention.rs:144-152 | the ranking holds exactly the ready, unpinned live bundles, none after a newer one |
| Retention.Plan | crates/onecontext-capture-core/src/retention.rs:154-215 | one action an entry, its own; a pinned bundle is always preserved, only stale non-empty processing bundles move, and a live bundle is deleted only when expired and not kept by rank |
| Retention.NewestPreserved | crates/onecontext-capture-core/src/retention.rs:183-201 | the newest ready live bundles, up to the number to keep, are preserved |
| Retention.DeletedHasNewer | crates/onecontext-capture-core/src/retention.rs:183-201 | a deleted ready live bundle leaves the full number to keep preserved, each at least as new |
| Retention.RankingAfter | crates/onecontext-capture-core/src/retention.rs:144-152 | after a sweep the ranking is the old one with the deleted bundles left out |
| Retention.ReplanDeletesNoLive | crates/onecontext-capture-core/src/retention.rs:137-215 | planning again at the same time over the remaining live bundles deletes no further live bundle |
| Retention.ApplyRetentionSweep | crates/onecontext-capture-core/src/retention.rs:217-267 | the report lists exactly what was done and, under the path that failed, what was not, with deleted bytes saturating at the 64-bit maximum |
| Retention.ReportAccountsForAll | crates/onecontext-capture-core/src/retention.rs:217-267 | every action is reported exactly once but for a move without a destination; a dry run reports no errors |
| Bindings.SplitTopLevelCommas | crates/onecontext-context-engine/src/scheduler_bindings.rs:528-556 | the scanning loop computes the specified parts |
| Bindings.SplitIsGood | crates/onecontext-context-engine/src/scheduler_bindings.rs:528-556 | every part is trimmed, non-empty and without a top-level comma, and all but the last leave no quote or parenthesis open |
| Bindings.SplitOfJoin | crates/onecontext-context-engine/src/scheduler_bindings.rs:528-556 | such parts, joined by commas, are split into just those parts |
| Bindings.SplitIsStable | crates/onecontext-context-engine/src/scheduler_bindings.rs:528-556 | for every text, joining its parts and splitting again changes nothing |
| Bindings.PartsDoNotSplit | crates/onecontext-context-engine/src/scheduler_bindings.rs:528-556 | a part is itself a single part |
| BindingResolution.Atom | crates/onecontext-context-engine/src/scheduler_bindings.rs:144-233 | anything but a list keeps its text and has at most one reference; a call's argument is shorter than the call |
| BindingResolution.ListsAreFlat | crates/onecontext-context-engine/src/scheduler_bindings.rs:121-142 | the items of a list are the atoms of its parts in order; no list is nested |
| BindingResolution.ResolveList | crates/onecontext-context-engine/src/scheduler_bindings.rs:431-470 | the resolving loop computes the specified outcome and stops at the first unsupported item |
| BindingResolution.ListOutcome | crates/onecontext-context-engine/src/scheduler_bindings.rs:431-470 | a list is unsupported exactly when a part is, resolved exactly when every part is, and then has one value a part in order |

## Left out

- File, lock and clock access, JSON encoding, hashing, RFC 3339 text and URL parsing: ids are the values they are derived from, times are integers without leap seconds, addresses are canonical, and locked calls are atomic; crashes inside a call are not modelled.
- Agent lifecycle calls are not under the mutation lock in the code; the model treats each as one step.
- The raw append and message-writing methods of the mail store, which bypass its protocol, and its inbox, thread, content-injection and status views.
- Steering payload text, capability grants and recipient validation in the mail store, which do not affect the ledgers that are modelled.
- Month directories of stored messages: a message is found by its id alone, so two files with one id in different months do not arise.
- Attempt counters are unbounded, not 32-bit.
- A failing delivery or agent call names why it failed but not with which message text.
- Spool reads: the reason recorded for an unindexed line, the indexed-lines-scanned counter and the strategy label are not modelled, and directories of spool files are read one file at a time.
- The relation between the prefix time of a line and its parsed envelope, which the code does not promise.
- Packet ids are not formatted to text, and packet markdown, caches, cursors and file hashes are not modelled; day and hour counts of a plan are left out.
- Context fractions are real numbers, so rounding of floating-point products is not modelled.
- SchedulerClosure.RunIsSoundIff: says nothing of plans whose runs do not stay closed; for those, `SchedulerSafety.SoundNamesNoneBad` gives a sufficient condition and `SchedulerClosure.NamesBadFails` the failing run.
- Failures while the sources are imported, which end a call before anything is marked.
- The single calls in `SpoolFile` assume that the file does not change within them; changes within a query are in `SpoolQueryRace`.
- Liveness of phase completion when the agent limit truncates a batch, which the code does not promise.
- Fan-out, conditions, artifacts, receipts, wiki publishing, the harness store and the macOS package, which map data or add only easy members.
- Wording of scheduler and binding messages: a waiting binding names the expressions that wait instead of a sentence.
- Binding contexts look up fields and pages through functions, and discovering page files is not modelled.
