# Tadori verification

Tadori diagnoses why a network endpoint cannot be reached. It runs probes against a target, watches
packets around them, captures what a browser contacts, validates captured endpoints in batches, and
turns all of it into findings, path graphs and redacted exports. This project models the protocols
that bound and coordinate that work and the algorithms that draw the conclusions, and proves what
callers rely on.

* Concurrent protocols are transition systems (`Runs.dfy`): one step per critical section, channel
  operation or cancellation. A statement about a reachable state holds after every interleaving.
  Objects guarded by a mutex are also classes whose methods are the critical sections; their
  contracts are tied to the functions and steps of the transition systems.
* Algorithms are methods with the loops of the program, proved equal to a function, and the function
  is then compared with an independent description.
* Clocks, address parsing, regular expressions, name resolution and the operating system are
  parameters: functions that a theorem holds for, with their assumed properties in its precondition.

| file | component |
|---|---|
| `Session.dfy`, `SessionRuns.dfy`, `SessionDelivery.dfy` | one diagnostic session: event log, subscribers, lifecycle, end; what one subscriber sees |
| `Manager.dfy`, `SessionManager.dfy`, `BatchManager.dfy` | capacity and close of a manager, for sessions and for batches |
| `Orchestration.dfy`, `EndpointHandoff.dfy` | the probe pool of one run; the hand-off between probes, in terms of what the probes returned |
| `Batch.dfy`, `BatchRuns.dfy`, `BatchOutcomes.dfy` | one validation batch: results, tally, worker pool; how its entries come out |
| `Plan.dfy`, `PlanFacts.dfy`, `PlanSelection.dfy` | building the validation plan of a capture; what gets into it |
| `EtwReader.dfy`, `EtwCapture.dfy` | decoding trace events; the bounded consumer of a capture |
| `Packet.dfy`, `PacketFlow.dfy`, `PacketFacts.dfy` | correlating packets with a probe |
| `PacketExchanges.dfy`, `PacketConclusions.dfy` | from trace events to conclusions: which packets answer which, and what stays open |
| `Diagnosis.dfy`, `DiagnosisFacts.dfy`, `DiagnosisOrder.dfy`, `DiagnosisContradiction.dfy` | selecting findings; what a success speaks against |
| `PathGraph.dfy`, `PathGraphFacts.dfy`, `PathGraphIds.dfy`, `PathGraphShows.dfy` | the path graph, and what it shows of the trace |
| `Accumulator.dfy`, `AccumulatorFacts.dfy`, `CaptureSnapshot.dfy` | what a browser capture remembers; its snapshot |
| `CaptureManager.dfy`, `CaptureProgress.dfy` | capacity tokens and close of the capture manager |
| `Target.dfy`, `TargetParser.dfy`, `TargetForms.dfy` | target notation, the parser, and the forms it accepts |
| `Redaction.dfy`, `RedactionPolicy.dfy` | redaction of JSON trees; what is redacted |
| `FreshNames.dfy`, `Decimal.dfy` | searches for unused identifiers |
| `Runs.dfy`, `Orders.dfy`, `Lists.dfy`, `Options.dfy` | runs of a system, sorting, lists, options |

Where the code falls short of its documentation or of what a reader might expect, the code is
modelled and the exact condition is proved:

* Live delivery to a subscriber does not filter on the requested position
  (`SessionRuns.OnlyNewerEventsIff`), and a subscriber misses the last event when the closing events
  do not fit its buffer (`SessionRuns.LastEventDelivered`).
* A second concurrent `Close` returns before the first has swept; it may be relied on exactly if
  what is left to visit is settled anyway (`SessionManagers.SecondCloseSettlesIff`,
  `CaptureManagers.SecondCloseIff`).
* A panic while a packet capture starts leaves waiting probes blocked until the run is cancelled, so
  result slots stay empty (`Orchestration.AllFilledIff`).
* An entry whose complete report arrives after its timeout stays `queued`
  (`BatchRuns.EndsWithoutQueuedIff`, `BatchRuns.LateEntryStaysQueued`).
* Plan identifiers select nothing unless they happen to be names, although the request documentation
  promises them (`PlanFacts.PlanIdSelectsNothing`).
* The order in which candidates are collected can show in the findings
  (`DiagnosisOrder.OrderMattersIff`).
* Path graph nodes without a responder may share an identifier, and then the graph has a cycle
  (`PathGraphIds.NodeIdsDistinctIff`, `PathGraphIds.CyclicIff`).
* Capture identifiers used again lose capacity tokens and hide sessions from `Close`
  (`CaptureManagers.QuietMeansAllReturned`, `CaptureManagers.CloseStopsIff`).
* The literal address of a target is not kept by a second canonicalization when a trailing dot hid
  the address (`TargetParsers.LiteralIsIdempotentIff`).

## Model

| member | source | states |
|---|---|---|
| Sessions.ManagedSession.EmitLocked | internal/session/session.go:461-484 | one event gets the next number, enters the bounded log, reaches every subscriber with room and drops the others |
| Sessions.ManagedSession.Retain | internal/session/session.go:467-472 | the in-place shift keeps the newest 4096 events in order |
| Sessions.ManagedSession.Broadcast | internal/session/session.go:473-483 | whatever the order of iteration, exactly the subscribers with room get the event and the others are closed and removed |
| Sessions.ManagedSession.Subscribe | internal/session/session.go:293-327 | the replay fits the new channel, so it never blocks; a terminal session gives a closed channel |
| Sessions.ManagedSession.Unsubscribe | internal/session/session.go:316-325 | closes the channel exactly if it still is a subscriber |
| Sessions.ManagedSession.EventsAfter | internal/session/session.go:273-287 | exactly the retained events above the requested number, in order |
| Sessions.ManagedSession.Cancel | internal/session/session.go:249-269 | requests cancellation unless the session has ended |
| Sessions.ManagedSession.Finish | internal/session/session.go:401-433 | the final critical section: state, closing events, subscribers closed once, done closed |
| SessionRuns.BoundedLogIsWindow | internal/session/session.go:461-472 | after any run the log is exactly the last min(n, 4096) events with consecutive numbers up to n |
| SessionRuns.GaplessDelivery | internal/session/session.go:293-327 | in every interleaving a stream is one contiguous run of the history and, exactly while subscribed, reaches the newest event |
| SessionRuns.ClosedIsFinal | internal/session/session.go:473-483 | a stream only grows, what was taken stays taken, and nothing is sent after closing |
| SessionRuns.OnlyNewerEventsIff | internal/session/session.go:289-309 | a subscription delivers only events after the requested number if and only if that number was reached or the session had ended |
| SessionRuns.ResubscriptionReconstructs | internal/session/session.go:300-309 | resubscribing from the last received number joins to the history without loss or duplicate if and only if the position was neither evicted nor in the future |
| SessionRuns.LastEventDelivered | internal/session/session.go:413-428 | a subscriber hears of the end if and only if its buffer has room for all closing events |
| SessionRuns.LastEventMissed | internal/session/session.go:413-428 | a session whose subscriber does not hear of the end |
| SessionRuns.TerminalIsAbsorbing | internal/session/session.go:401-433 | after the final section neither state nor report changes in any run |
| SessionRuns.CancelRequestedIff | internal/session/session.go:249-262 | over any run the flag is set if and only if a cancel came before the final section |
| SessionRuns.EndsCancelledIff | internal/session/session.go:401-411 | a session ends cancelled if and only if cancellation came before its final section |
| SessionRuns.EndsAs | internal/session/session.go:387-434 | every run that ends a session has one final section: cancelled exactly if a cancel came before it, else failed exactly after a panic or the deadline, else completed; the report is the runner's, never complete past the deadline |
| SessionRuns.ClosingEvents | internal/session/session.go:413-428 | the final section tells the findings in order and then cancelled or completed, exactly as a cancel came before |
| SessionDelivery.SlowReaderLasts | internal/session/session.go:300-314 | a subscriber that reads nothing lasts exactly as many events as fit beside its replay in a buffer of 256, or of the log and one more |
| SessionDelivery.ReadTakesNext | internal/session/session.go:293-314 | a read takes the next event of the history and touches no other stream |
| SessionDelivery.LeavingCloses | internal/session/session.go:316-325 | leaving closes one channel once, keeps what is buffered in it and changes nothing else |
| SessionDelivery.EmitIsRecorded | internal/session/session.go:455-487 | an event is kept as it is but for number and session, and is next in the stream of everyone still subscribed |
| SessionDelivery.RequestShows | internal/session/session.go:249-271 | a cancel only requests the end, and after the end it changes nothing |
| SessionManagers.EverySessionIsReachable | internal/session/session.go:200-235 | whatever happens around it, a stored session only makes runs of its own, so all of the above holds for it |
| SessionManagers.SessionsWithinCapacity | internal/session/session.go:200-235 | tokens are starts in flight plus executions not released, so non-terminal sessions never exceed the limit |
| SessionManagers.QuietSessionsAreFree | internal/session/session.go:375-376 | when nothing is under way every token is back |
| SessionManagers.TerminalIsAbsorbing | internal/session/session.go:401-411 | ended sessions stay as they ended, cancelled exactly if it was requested |
| SessionManagers.RequestIsKept | internal/session/session.go:249-269 | a cancel request is never lost and decides the end |
| Managers.ClosedStaysClosed | internal/session/session.go:212-217 | nothing is registered once a manager is closed |
| Managers.StartIsPossibleIff | internal/session/session.go:200-210 | a start is turned away exactly when starts in flight and executions fill the capacity |
| Managers.RefusedWhenClosed | internal/session/session.go:212-217 | nobody who has a token is refused but by a closed manager |
| Managers.ItemsMayMoveOn | internal/session/session.go:219-235 | a stored item may make any run of its own, whatever else the manager holds |
| Managers.ClosedManagerDrains | internal/session/session.go:347-376 | a closed manager whose work has ended can give back every token |
| SessionManagers.CloseEndsSessions | internal/session/session.go:347-372 | once the sweeping Close returns every session has ended for good or will end cancelled |
| SessionManagers.SecondCloseMayReturnEarly | internal/session/session.go:348-352 | a reachable state in which a second Close returns while a session is unsettled |
| SessionManagers.SecondCloseSettlesIff | internal/session/session.go:347-372 | all sessions are settled when a further Close returns if and only if the first has returned or what that has yet to visit is settled anyway |
| SessionManagers.UnsettledOnlyDuringSweep | internal/session/session.go:347-372 | an unsettled session is one the sweep has yet to visit, and its visit settles it |
| Orchestration.JobListIsTopological | internal/orchestrate/run.go:161-268 | for every protocol the queue puts the jobs that signal before the jobs that wait |
| EndpointHandoff.EveryJobOnce | internal/orchestrate/run.go:161-268 | the queue of a protocol holds exactly its jobs, each once, name resolution first and application probes last |
| Orchestration.NormalizeCandidates | internal/model/target.go:798-814 | the non-empty addresses, each once, in order of first appearance |
| Orchestration.JobsAreNeitherLostNorShared | internal/orchestrate/run.go:297-323 | the jobs taken are a prefix of the queue and each is with exactly one worker or in its slot |
| Orchestration.SlotsAreWrittenOnce | internal/orchestrate/run.go:351 | a slot is empty when it is written |
| Orchestration.ResultsAreFinal | internal/orchestrate/run.go:351 | a written slot never changes |
| Orchestration.ChannelsAreClosedOnce | internal/orchestrate/run.go:162-179 | neither readiness channel is closed twice |
| Orchestration.NoDeadlock | internal/orchestrate/run.go:310-323 | for every worker count and moment of cancellation some worker can act while one is left |
| Orchestration.RunsAreShort | internal/orchestrate/run.go:297-357 | every run ends within nine steps a job and one cancel |
| Orchestration.StuckMeansDone | internal/orchestrate/run.go:355-357 | where no worker can act all have left and every slot is filled |
| Orchestration.AllFilledIff | internal/orchestrate/run.go:285-378 | where no worker can act all slots are filled if and only if capture start of the tcp job did not panic or the run was cancelled |
| Orchestration.StartPanicBlocksWaiters | internal/orchestrate/run.go:360-378 | after such a panic a waiting worker stays as it is in every run without cancel |
| Orchestration.StartPanicIsReachable | internal/orchestrate/run.go:360-378 | such a state occurs |
| Orchestration.WaitsFailOnlyWhenCancelled | internal/orchestrate/run.go:495-536 | a probe is denied its dependencies only in a cancelled run |
| Orchestration.EndpointAgreement | internal/orchestrate/run.go:524-553 | all transport-dependent probes that execute get the same selected endpoint |
| Orchestration.AgreementIsFinal | internal/orchestrate/run.go:425-461 | that endpoint is the same in every later state |
| Orchestration.AgreedIsFirstCandidate | internal/orchestrate/run.go:538-553 | without a tested endpoint it is the first bounded candidate |
| EndpointHandoff.PublishedIsReturned | internal/orchestrate/run.go:161-179 | in every run, once the dns job has closed its channel the published candidates are those its probe returned in that run; once the tcp job has closed its own, endpoint e is published if and only if its probe returned e, with an address |
| EndpointHandoff.DependentsGetTested | internal/orchestrate/run.go:519-536 | whenever the tcp probe of a run returned an endpoint with an address, every probe behind the transport that executes gets exactly that one |
| EndpointHandoff.ExecutedWith | internal/orchestrate/run.go:425-553 | the target of every executed probe in terms of what the dns and tcp probes returned: as it came, with the first usable of at most four candidates, or with the tested endpoint |
| EndpointHandoff.AppliedFits | internal/orchestrate/run.go:538-553 | candidates make of a target: at most four different non-blank addresses, the first one selected |
| EndpointHandoff.SlotsTellEnds | internal/orchestrate/run.go:285-357 | a filled slot says how the probe of its job ended in the run: returned, denied its wait, or panicked |
| EndpointHandoff.WaitsAre | internal/orchestrate/run.go:495-536 | which jobs wait for the resolved candidates and which for the transport |
| EndpointHandoff.CapturedAfterStart | internal/orchestrate/run.go:335-378 | exactly the tcp and path probes run behind the start of a packet capture |
| Batches.Summarize | internal/batch/manager.go:694-725 | the counting loop computes the tally of the results |
| Batches.SummaryAddsUp | internal/batch/manager.go:694-725 | states add up to the total, outcomes and not-run entries add up to the total, both failed lists are as long as the failed count |
| Batches.FailedIdsAreTheFailed | internal/batch/manager.go:711-715 | an identifier is listed as failed exactly if an entry with it failed |
| Batches.FailedIdentitiesAreTheFailed | internal/batch/manager.go:711-715 | a service identity is listed exactly if it is the notation of a failed entry |
| Batches.ManagedBatch.MarkRunning | internal/batch/manager.go:505-515 | only a non-terminal entry becomes running; the summary stays the tally |
| Batches.ManagedBatch.Finish | internal/batch/manager.go:517-525 | one result is replaced; the summary stays the tally |
| Batches.ManagedBatch.End | internal/batch/manager.go:447-459 | cancelled exactly if cancellation was requested or the context ended |
| BatchRuns.ResultsStayAligned | internal/batch/manager.go:404-445 | in every reachable state result i keeps the identifier and capture of entry i, and the summary is the tally of the results |
| BatchRuns.ConcurrencyBoundsRunning | internal/batch/manager.go:413-424 | at most `concurrency` entries are running, and the summary says how many |
| BatchRuns.FinishIsTheFirst | internal/batch/manager.go:427-444 | a finished entry is never finished again |
| BatchRuns.MarkRunningAlwaysMarks | internal/batch/manager.go:505-510 | the early return is never taken by a worker |
| BatchRuns.FinishedIsFinal | internal/batch/manager.go:517-525 | finished results and a done batch never change in any run |
| BatchRuns.DoneAddsUp | internal/batch/manager.go:447-459 | at termination every entry has an outcome, the five outcome counts sum to the total, nothing runs, and queued is exactly the timed-out complete reports |
| BatchOutcomes.EveryEntryHasItsVerdict | internal/batch/manager.go:461-525 | over every run that ends a batch each entry has the outcome, state, error and report of what its probe run brought back: passed if and only if a complete report of a reachable destination in time and not cancelled, failed exactly for unreachable or degraded or an undetermined one with a concrete reason, and so on |
| BatchOutcomes.TallyOfVerdicts | internal/batch/manager.go:694-725 | the tally counts exactly the entries whose runs passed, failed, were cancelled or unsupported |
| BatchOutcomes.FailedAreListed | internal/batch/manager.go:711-715 | identifiers and notations are listed as failed exactly for the entries whose runs failed |
| BatchOutcomes.SummaryCounts | internal/batch/manager.go:694-725 | each count of a summary is the number of results with that outcome |
| BatchOutcomes.NothingStartsOnceCancelled | internal/batch/manager.go:420-445 | once a batch is cancelled no further entry is probed in any run |
| BatchOutcomes.ConcurrencyIsReached | internal/batch/manager.go:404-425 | as many entries as the concurrency admits can run at once |
| BatchRuns.EndsWithoutQueuedIff | internal/batch/manager.go:461-503 | over every run that ends a batch, all entries count as completed if and only if no probe run came back with a complete report after its entry's deadline |
| BatchRuns.LateEntryStaysQueued | internal/batch/manager.go:491-496 | a batch that is done with its only entry still queued |
| BatchRuns.EndsCancelledIff | internal/batch/manager.go:447-459 | over every run that ends a batch, it is cancelled if and only if Cancel, Close or the context came before its last critical section, and completed otherwise |
| BatchRuns.StepsUseUpWork | internal/batch/manager.go:404-445 | every step of the batch lowers a non-negative measure, so it finishes |
| BatchRuns.NeverStuck | internal/batch/manager.go:404-459 | until it is done one of its own steps is possible, whatever was cancelled |
| BatchManagers.EveryBatchIsReachable | internal/batch/manager.go:247-285 | whatever happens around it, a stored batch only makes runs of its own, so all of the above holds for it |
| BatchManagers.BatchesMoveOn | internal/batch/manager.go:337-402 | a stored batch stays and moves on by its own steps |
| BatchManagers.BatchesWithinCapacity | internal/batch/manager.go:247-285 | tokens are starts in flight plus executions not returned, so batches that have not ended never exceed the limit |
| BatchManagers.RunningIsBounded | internal/batch/manager.go:413-424 | over all batches at most the product of the two limits is running |
| BatchManagers.WorkersAsAsked | internal/batch/manager.go:413-420 | a batch gets the workers that were asked for, within limit and plan; an unusable request gets the limit |
| BatchManagers.QuietBatchesAreFree | internal/batch/manager.go:404-405 | when nothing is under way every token is back |
| BatchManagers.EndIsFinal | internal/batch/manager.go:447-459 | an ended batch keeps state, results and summary |
| BatchManagers.CloseEndsBatches | internal/batch/manager.go:378-402 | once the sweeping Close returns every batch has ended for good or will end cancelled |
| BatchManagers.SecondCloseSettlesIff | internal/batch/manager.go:378-402 | when a further Close may be relied on, as for sessions |
| Plans.MergeOutcomeIsJoin | internal/batch/plan.go:306-318 | merging outcomes is commutative, associative and idempotent with bottom and top |
| Plans.OutcomeOfIs | internal/batch/plan.go:306-318 | an unmixed outcome results exactly if it is the only non-empty one |
| Plans.MechanismsAre | internal/batch/plan.go:259-280 | each named mechanism once, or the blank one exactly if none is named |
| Plans.DestinationMechanisms | internal/batch/plan.go:259-280 | the loop computes that list |
| Plans.ReadMap | internal/batch/plan.go:136-139 | reading the map in any order gives each accumulated entry once |
| Plans.DistinctKeysSeparate | internal/batch/plan.go:140-148 | the sort key separates entries with different grouping keys |
| Plans.ReadingOrderIsForgotten | internal/batch/plan.go:136-148 | the sorted entries do not depend on the order in which the map was read |
| Plans.BuildPlan | internal/batch/plan.go:92-159 | the procedure with its map computes the plan that is defined without one, error cases included |
| PlanFacts.PairsAre | internal/batch/plan.go:110-117 | a pair is worked on exactly if its destination names the mechanism and is selected with it |
| PlanSelections.WorkedOnIff | internal/batch/plan.go:92-127 | a pair is worked on if and only if it was captured, its destination names the mechanism and it is wanted: all, seen failing, or under one of its names |
| PlanSelections.EntriesAreWanted | internal/batch/plan.go:110-127 | every destination behind an entry was captured and wanted |
| PlanSelections.FailedOnlyHoldsFailures | internal/batch/plan.go:282-304 | a plan of failures holds failing destinations only, and there is none if and only if nothing was seen failing |
| PlanSelections.RefusedIff | internal/batch/plan.go:92-135 | when there is no plan, and with which error |
| PlanSelections.MechanismDecidesService | internal/batch/plan.go:194-257 | plain requests are probed as HTTP, CONNECT as HTTPS, under the parsed identity where it parses, anything else stays unserved |
| PlanSelections.PlanIsOrdered | internal/batch/plan.go:140-154 | entries stand in order of identity, service and port and are numbered from one |
| PlanFacts.SelectionIsEmptyIff | internal/batch/plan.go:324-351 | for any capture and selectors, a selection comes out empty if and only if no selector is an identity, hostname or endpoint notation of a captured pair |
| PlanFacts.PlanIdSelectsNothing | internal/batch/plan.go:342-351 | for any capture, the identifier the plan gave to an entry selects nothing if and only if it is no name of a captured pair |
| PlanFacts.PlanIdIsNoName | internal/batch/plan.go:152-154 | a concrete capture whose only plan identifier selects nothing |
| PlanFacts.EntriesPartitionPairs | internal/batch/plan.go:231-244 | an entry holds exactly the destinations of the pairs with its key; its counts, outcome and failure flag are theirs; it has a target exactly if it is supported |
| PlanFacts.EveryPairHasAnEntry | internal/batch/plan.go:118-127 | every selected pair has an entry with its key that holds its destination |
| PlanFacts.PlanConserves | internal/batch/plan.go:231-236 | any measure of destinations sums to the same over entries and over selected pairs |
| PlanFacts.PlanIdsDistinct | internal/batch/plan.go:152-154 | identifiers and keys of different entries differ, for any number of entries |
| PlanFacts.KeysAgreeIff | internal/batch/plan.go:194-229 | for names without NUL two entries are merged exactly if identity, service and port agree |
| FreshNames.UniqueName | internal/web/path_graph.go:591-610 | the suffix search ends within the number of names plus one and returns the fresh name |
| FreshNames.FreshFromIsLeast | internal/web/path_graph.go:595-600 | the suffix is the least unused one and at most the number of names plus two |
| FreshNames.IdSource.UniqueId | internal/batch/manager.go:828-842 | for any generator the search ends within the number of stored batches plus one rounds with an unused identifier, the first usable one offered |
| EtwReaders.EtwReader.Bytes | internal/packet/etw_windows.go:516-523 | a read succeeds exactly if it stays inside the payload, and else leaves the reader as it is |
| EtwReaders.ParseTcpRequest | internal/packet/etw_windows.go:365-390 | reading with a moving offset computes the layout's parse |
| EtwReaders.ParseEndpointEvent | internal/packet/etw_windows.go:392-432 | likewise, refusing a non-zero status |
| EtwReaders.ParseIcmpEvent | internal/packet/etw_windows.go:439-476 | likewise |
| EtwReaders.TcpRequestInverts | internal/packet/etw_windows.go:365-390 | parsing a laid-out request gives it back, whatever bytes follow |
| EtwReaders.TcpRequestIs | internal/packet/etw_windows.go:365-390 | only laid-out requests parse |
| EtwReaders.EndpointEventInverts | internal/packet/etw_windows.go:392-432 | parsing a laid-out endpoint event gives it back |
| EtwReaders.EndpointEventIs | internal/packet/etw_windows.go:392-432 | only laid-out endpoint events parse |
| EtwReaders.IcmpEventInverts | internal/packet/etw_windows.go:439-476 | parsing a laid-out ICMP event gives it back |
| EtwReaders.IcmpEventIs | internal/packet/etw_windows.go:439-476 | only laid-out ICMP events parse |
| EtwReaders.SocketAddressesDecode | internal/packet/etw_windows.go:561-582 | socket addresses of both families give back address and port |
| EtwReaders.BareAddresses | internal/packet/etw_windows.go:561-597 | addresses without a family decode by their length |
| EtwCaptures.EtwCapture.Consume | internal/packet/etw_windows.go:254-330 | one event does what the bounded consumer defines |
| EtwCaptures.EtwCapture.Process | internal/packet/etw_windows.go:180-201 | the largest of the loss counts is kept, and errors of the trace are folded into the counters |
| EtwCaptures.Capture | internal/packet/etw_windows.go:210-224 | the result is complete exactly if nothing was lost, undecodable, failed or cancelled, and an incomplete one says why |
| EtwCaptures.TablesAreBounded | internal/packet/etw_windows.go:260-283 | both tables stay within 256 entries for any records |
| EtwCaptures.LosslessIff | internal/packet/etw_windows.go:254-330 | nothing is counted as lost or undecodable if and only if the consumer without caps handles every event within the caps |
| EtwCaptures.LosslessIsUnbounded | internal/packet/etw_windows.go:254-330 | then the observations are those of the consumer without caps, and every event was decodable |
| EtwCaptures.ObservationIdsDistinct | internal/packet/etw_windows.go:327 | observations are named apart and not blank |
| PacketConclusions.ScopeIff | internal/packet/etw_windows.go:332-347 | a connection is in scope if and only if it is not another process's and is to the target, by address or else by port |
| PacketConclusions.OthersAreIgnored | internal/packet/etw_windows.go:254-330 | events of other connections are decoded and change nothing |
| PacketConclusions.IcmpIsSeen | internal/packet/etw_windows.go:439-504 | what an ICMP event shows: the kind of message, from its source to its destination, in its direction |
| PacketConclusions.ProtocolIsOfKind | internal/model/packet.go:125-150 | an observation without a protocol gets that of its kind |
| PacketConclusions.SameControlBlock | internal/packet/etw_windows.go:275 | connections of different control blocks are named apart |
| PacketFlows.MatchResponses | internal/packet/packet.go:453-465 | the nested loops with their break collect the answers and the identifiers of each with its first emission |
| PacketFlows.CollectRelevant | internal/packet/packet.go:292-327 | filter, order and naming of the observations |
| PacketFlows.CorrelateTcp | internal/packet/packet.go:443-498 | the procedure computes the evidence of a TCP probe |
| PacketFlows.CorrelatePath | internal/packet/packet.go:500-565 | the procedure computes the evidence of a path probe |
| PacketFlows.Correlate | internal/packet/packet.go:102-173 | the procedure computes the evidence of a probe |
| PacketFacts.NegativeNeedsCompleteCapture | internal/packet/packet.go:147-173 | a negative outcome is only drawn from such a capture |
| PacketFacts.NegativeIsUncapped | internal/packet/packet.go:147-173 | for any events, a negative outcome is what a capture without caps would have given |
| PacketConclusions.StatusIs | internal/packet/packet.go:192-221 | cancellation precedes failures, a failed start a failed stop, failures losses |
| PacketConclusions.UnavailableSaysNothing | internal/packet/packet.go:102-152 | a capture that is not available gives no emission, certainty, match or observation |
| PacketConclusions.NotEmittedIff | internal/packet/packet.go:166-190 | a probe is said not to have been sent if and only if the capture is available, none of its packets was seen, it ran, and its packets could have been told |
| PacketFacts.TcpOutcomeIff | internal/packet/packet.go:443-476 | a TCP probe is answered exactly if some inbound response agrees with some emission in every field both know |
| PacketExchanges.FlowsAnswerIff | internal/packet/packet.go:593-612 | for any two connections, the attempt that is seen of one and the outcome that is seen of the other are an answered exchange if and only if no address, port, connection or process that both know differs; the answer's kind decides the conclusion |
| PacketExchanges.HandshakeIsSeen | internal/packet/packet.go:102-173 | end to end: a capture without loss that holds, in any company, request, send and completion of the probe's connection gives a confirmed answer, the handshake unless some attempt failed too |
| PacketExchanges.FailureIsSeen | internal/packet/packet.go:102-173 | likewise a reset for an attempt that failed |
| PacketFacts.TcpOutcomeIsEarliest | internal/packet/packet.go:477-488 | the outcome is the kind of the earliest such response |
| PacketFacts.TcpMatchedAre | internal/packet/packet.go:497 | matched identifiers are ascending without repetition, name retained observations, and include every answer with an emission it agrees with |
| PacketFacts.PathOutcomeIff | internal/packet/packet.go:527-561 | a path probe is answered exactly if its earliest answer carries a key or is the only answer to the only emission |
| PacketFacts.PathUnansweredIff | internal/packet/packet.go:500-526 | without answers it is unanswered exactly if an emission was seen |
| PacketExchanges.OnlyOwnAnswers | internal/packet/packet.go:614-681 | among requests that something tells apart, an answer pairs with the one that caused it and no other |
| PacketExchanges.ReplyIsAttributed | internal/packet/packet.go:500-565 | so it gives the conclusion of its kind, matched with its own request |
| PacketExchanges.StrayReplyIsIgnored | internal/packet/packet.go:500-565 | and none when its own request was not seen |
| PacketConclusions.UnkeyedAnswerIff | internal/packet/packet.go:527-561 | an answer without a key counts, as the only one to the only request, if and only if it is compatible and under the request's correlation, or nothing else was seen |
| PacketConclusions.NothingIsGuessed | internal/packet/packet.go:634-681 | with several requests under the answer's correlation, none sharing a key, none is answered |
| PacketFacts.PathMatchedAre | internal/packet/packet.go:562-563 | matched identifiers of a path probe, likewise |
| PacketConclusions.TcpMethodSays | internal/packet/packet.go:466-476 | the method names the strongest identity that an emission carries |
| PacketConclusions.PathMethodSays | internal/packet/packet.go:527-561 | likewise, with whether the answer carries a key |
| PacketFacts.RelevantAreInOrder | internal/packet/packet.go:309-321 | retained observations are captured ones in time order with unknown times last, and in the order of captured identifiers among equal or unknown times |
| PacketExchanges.RetainedIsOfProbe | internal/packet/packet.go:292-414 | what is retained for a TCP probe is of no other session, probe, process, time or port |
| PacketExchanges.RetainedIsBetweenEnds | internal/packet/packet.go:359-414 | and between the probe's ends as far as these are known |
| PacketExchanges.RetainedIsOnPath | internal/packet/packet.go:416-441 | for a path probe, only what has the target's address at an end or in a quoted packet |
| PacketConclusions.NamedByPlace | internal/packet/packet.go:322-327 | captured identifiers stay, an observation without one is named by its place |
| PacketFacts.ArrivalIsForgotten | internal/packet/packet.go:292-327 | permuting captured observations with distinct identifiers does not change the evidence |
| PacketFacts.CapturedIdsAreDistinct | internal/packet/etw_windows.go:327 | captures meet that condition |
| Diagnosis.IsContradicted | internal/diagnosis/diagnosis.go:692-705 | the loop finds a contradicting success exactly if there is one |
| Diagnosis.CandidatesForReason | internal/diagnosis/diagnosis.go:594-602 | the viable candidates of a reason in order |
| Diagnosis.MergeCandidates | internal/diagnosis/diagnosis.go:742-755 | the first candidate with all names and identifiers, sorted and once each |
| Diagnosis.FindBuiltIn | internal/diagnosis/diagnosis.go:593-608 | the first rule with a viable candidate |
| Diagnosis.FindExtension | internal/diagnosis/diagnosis.go:658-690 | the extension failure that sorts first, merged with its like |
| Diagnosis.FindGateway | internal/diagnosis/diagnosis.go:629-646 | the supporting gateway finding, if any |
| Diagnosis.SelectFindings | internal/diagnosis/diagnosis.go:592-627 | the procedure computes the selection |
| DiagnosisFacts.AtMostTwo | internal/diagnosis/diagnosis.go:592-627 | two findings at most, a second one is the gateway and the first then is not |
| DiagnosisFacts.SelectionIsOptimal | internal/diagnosis/diagnosis.go:592-619 | no earlier rule applies than the chosen one, and an extension is chosen only with minimal and strictly lower layer rank |
| DiagnosisFacts.SilentIff | internal/diagnosis/diagnosis.go:592-619 | there is no finding exactly if no viable candidate speaks for one |
| DiagnosisFacts.SuccessesOnlyContradict | internal/diagnosis/diagnosis.go:692-713 | more successes never make a candidate viable and never remove a comparative one |
| DiagnosisFacts.SuccessesOnlyWeaken | internal/diagnosis/diagnosis.go:592-646 | with more successes the winning rule is never earlier, extensions and gateway only disappear |
| DiagnosisContradictions.ConnectionClearsBelow | internal/diagnosis/diagnosis.go:692-732 | with a success at tcp, tls, http, smb, ssh or rdp at the same place, taking away any failure of interface, addresses, route, gateway, network or tcp that compares no lanes leaves the findings as they are |
| DiagnosisContradictions.SuccessClearsItsOwn | internal/diagnosis/diagnosis.go:707-732 | a failure of tls is cleared by tls and what runs over it, of dns, proxy, http, ssh, rdp or smb by that itself |
| DiagnosisContradictions.OtherSuccessIsIdle | internal/diagnosis/diagnosis.go:692-732 | any other success - at another layer, place or port, or beside a comparative observation - changes no finding |
| DiagnosisContradictions.LowerSuccessIsIdle | internal/diagnosis/diagnosis.go:707-732 | a success below the failed layers never removes a candidate |
| DiagnosisContradictions.HealthyNetworkIsSilent | internal/diagnosis/diagnosis.go:592-732 | when all failures are below a working connection at one place, nothing is found |
| DiagnosisContradictions.ViableIff | internal/diagnosis/diagnosis.go:692-705 | a candidate is viable exactly when no success at its place speaks against it |
| DiagnosisContradictions.CorrelateIff | internal/diagnosis/diagnosis.go:1010-1072 | when two targets are one place for a layer |
| DiagnosisContradictions.NotViableIsIdle | internal/diagnosis/diagnosis.go:592-627 | a candidate that is not viable might as well not be there |
| DiagnosisContradictions.SupportingIsIdle | internal/diagnosis/diagnosis.go:648-656 | nor a supporting one that is not about the gateway |
| DiagnosisContradictions.GatewayIsNamedIff | internal/diagnosis/diagnosis.go:621-646 | the gateway is named if and only if it is in use and some candidate that nothing speaks against blames it |
| DiagnosisContradictions.EarlierFailureWins | internal/diagnosis/diagnosis.go:592-608 | a later failure is never found while one that precedes it is viable |
| DiagnosisFacts.OrderIsForgotten | internal/diagnosis/diagnosis.go:592-690 | permuting candidates and successes leaves the findings unchanged when each reason comes with one layer and domain |
| DiagnosisFacts.CollectedLayersAgree | internal/diagnosis/diagnosis.go:762-774 | only a probe execution failure and extension reasons can be collected with different layers |
| DiagnosisOrder.OrderMattersIff | internal/diagnosis/diagnosis.go:592-690 | for any state, the findings are the same in every order of the candidates if and only if the winners are on one side of the extension failures and those that decide - the extension failures tied for first, or the winners - agree in what they show |
| DiagnosisOrder.RulesAgree | internal/diagnosis/diagnosis.go:734-740 | winners can disagree only over a probe execution failure |
| DiagnosisContradictions.BoundariesAscend | internal/diagnosis/diagnosis.go:110-152 | the policy goes from boundary to boundary, except for the policy block |
| DiagnosisContradictions.SpecificComesFirst | internal/diagnosis/diagnosis.go:110-152 | within a boundary the specific failures precede the broad one |
| DiagnosisContradictions.DomainFollowsLayer | internal/diagnosis/diagnosis.go:797-838 | which layers and fault domains go together, and where they do not |
| DiagnosisContradictions.FindingCitesIff | internal/diagnosis/diagnosis.go:742-755 | a built-in finding cites exactly the probes and evidence of the viable candidates with its reason, in order |
| DiagnosisContradictions.FirstExtensionIs | internal/diagnosis/diagnosis.go:658-690 | the extension failure that is found is the one that sorts first |
| DiagnosisContradictions.JoinedApart | internal/diagnosis/diagnosis.go:658-690 | joining with NUL keeps lists of names apart |
| DiagnosisOrder.OrderShows | internal/diagnosis/diagnosis.go:658-690 | two extension failures at layers of one rank, whose order shows in the findings |
| PathGraphs.Build | internal/web/path_graph.go:137-277 | the procedure computes layers, nodes and edges as defined |
| PathGraphs.AddRun | internal/web/path_graph.go:177-238 | one round of the cursor loop adds the layer of one maximal run |
| PathGraphFacts.LayersPartitionHops | internal/web/path_graph.go:174-242 | between the ends, layers partition the hops in TTL order into maximal runs |
| PathGraphFacts.FittingIsConsecutive | internal/web/path_graph.go:216-222 | a layer covers hops of one kind with consecutive TTLs |
| PathGraphFacts.NodesAreTheLayers | internal/web/path_graph.go:174-263 | the nodes are those of the layers, in order |
| PathGraphShows.HopIsShown | internal/web/path_graph.go:167-251 | each hop is in the range of one layer: responding if it has responders, unobservable if it was observed or unobservable without any, unknown otherwise |
| PathGraphShows.ResponderIsShown | internal/web/path_graph.go:184-214 | every responder of every hop has its node, with its address |
| PathGraphShows.NodeIsAccounted | internal/web/path_graph.go:174-263 | every node is the vantage, the destination, a responder that was seen, or a range that names nobody |
| PathGraphShows.HopsStandInOrder | internal/web/path_graph.go:526-530 | hops are taken in order of TTL, those of one TTL as observed |
| PathGraphShows.RespondersStandInOrder | internal/web/path_graph.go:546-562 | responders of a hop stand in order |
| PathGraphFacts.NodeCount | internal/web/path_graph.go:174-263 | two, plus the responders, plus the layers without responders |
| PathGraphFacts.EdgesAre | internal/web/path_graph.go:264-275 | edges are exactly the pairs of nodes of consecutive layers |
| PathGraphFacts.EdgeCount | internal/web/path_graph.go:264-275 | each pair once |
| PathGraphFacts.EveryNodeIsOnAWalk | internal/web/path_graph.go:264-275 | every node lies on a walk from the vantage to the destination that visits each layer once |
| PathGraphFacts.NoCycle | internal/web/path_graph.go:264-275 | with distinct identifiers no walk returns |
| PathGraphIds.CyclicIff | internal/web/path_graph.go:200-275 | the graph has a cycle if and only if two hops without responders of one kind and TTL are layers of their own |
| PathGraphIds.NodeIdsDistinctIff | internal/web/path_graph.go:200-235 | identifiers are distinct if and only if no two hops without responders of one kind and TTL are layers of their own |
| PathGraphIds.DistinctTtlsSuffice | internal/web/path_graph.go:200-235 | distinct TTLs among hops without responders are enough |
| PathGraphIds.RepeatedTtlCollides | internal/web/path_graph.go:200-235 | two such hops at one TTL do share an identifier |
| PathGraphIds.ArrivalOfRespondersIsForgotten | internal/web/path_graph.go:546-562 | the order in which responders were reported does not change the graph |
| PathGraphIds.ArrivalOfHopsIsForgotten | internal/web/path_graph.go:526-530 | nor does the order of hops with distinct TTLs |
| Accumulators.CaptureSession.Record | internal/capture/capture.go:484-540 | one record updates exactly its destination |
| Accumulators.TableAgrees | internal/capture/capture.go:484-540 | for any records every destination is, field by field, what its accepted records amount to |
| Accumulators.OutcomeIsMixedIff | internal/capture/capture.go:527-539 | observations are successes plus failures, and the outcome is mixed exactly if there are both |
| Accumulators.DistinctIs | internal/capture/capture.go:542-552 | the lists hold each non-empty value of the log once |
| Accumulators.CutOnce | internal/capture/capture.go:522-525 | cutting the failure reasons after 16 at every record keeps the first 16 of all |
| AccumulatorFacts.RecordCountsIff | internal/capture/capture.go:484-540 | a record without host or port changes nothing, any other adds one observation to its destination alone |
| AccumulatorFacts.SameDestinationIff | internal/capture/capture.go:566-568 | records are of one destination if and only if hosts agree but for case and ports agree |
| AccumulatorFacts.OutcomeIs | internal/capture/capture.go:527-539 | mixed if some record succeeded and some failed, connected if none failed, else as the last one ended |
| AccumulatorFacts.ReasonsAreCut | internal/capture/capture.go:522-525 | all different failure reasons are kept, or the first sixteen |
| CaptureSnapshots.TakeSnapshot | internal/capture/capture.go:433-461 | totals, unique addresses and sorted destinations, over the map in any order of reading |
| CaptureSnapshots.SnapshotOrderIsForgotten | internal/capture/capture.go:453-461 | the order of reading does not show in the destinations |
| AccumulatorFacts.SnapshotIsOrdered | internal/capture/capture.go:453-461 | destinations stand by host, then port, then mechanism |
| AccumulatorFacts.SnapshotHoldsAll | internal/capture/capture.go:433-461 | they are the stored ones, each once |
| CaptureSnapshots.SnapshotAddresses | internal/capture/capture.go:441-451 | the addresses are exactly those that accepted records name |
| Accumulators.SnapshotObservations | internal/capture/capture.go:433-452 | the observation total is the number of accepted records |
| Accumulators.SnapshotFailures | internal/capture/capture.go:433-452 | the failure total is the number of accepted failing records |
| CaptureManagers.CaptureManager.Acquire | internal/capture/manager.go:51-56 | a start takes a token exactly if one is free |
| CaptureManagers.CaptureManager.Register | internal/capture/manager.go:77-84 | an open manager stores the session under its identifier |
| CaptureManagers.CaptureManager.BeginClose | internal/capture/manager.go:138-151 | the first Close gets the stored sessions to stop |
| CaptureManagers.CaptureManager.Release | internal/capture/manager.go:166-175 | only the first release of an identifier gives a token back |
| CaptureManagers.TokensAreAccountedFor | internal/capture/manager.go:51-86 | tokens are starts in flight, sessions still to release and leaks, within the limit; fresh identifiers leak nothing |
| CaptureManagers.TurnedAwayIff | internal/capture/manager.go:166-175 | a release is turned away if and only if another session of that name gave its token back |
| CaptureManagers.CallbackIsCalled | internal/capture/capture.go:363-392 | under every order of stop and registration the release callback of a stopped session is called |
| CaptureManagers.QuietMeansAllReturned | internal/capture/manager.go:138-175 | when all is quiet the tokens out are the sessions that ran less their different identifiers, so all came back if and only if identifiers were fresh |
| CaptureManagers.GivenBackOnce | internal/capture/manager.go:51-86 | a token given back or leaked is not given back again |
| CaptureProgress.StartCanGoOn | internal/capture/manager.go:51-86 | a start that holds a token and has not leaked it always has a next step to give it back |
| CaptureProgress.StepGoesOn | internal/capture/manager.go:51-86 | every such step brings it nearer, and leaves the other starts where they are |
| CaptureProgress.GivingBackFrees | internal/capture/manager.go:166-175 | giving back lowers the tokens in use by one |
| CaptureProgress.ClosedAdmitsNobody | internal/capture/manager.go:57-86 | once closed, a start that was not admitted never gets a session |
| CaptureProgress.LaterStartsAreUnadmitted | internal/capture/manager.go:57-86 | nor does one that begins later |
| CaptureManagers.CloseGuarantee | internal/capture/manager.go:138-154 | once Close returns every stored session is stopped, with fresh identifiers every registered one, and none is registered later |
| CaptureManagers.CloseStopsIff | internal/capture/manager.go:138-154 | a registered session is stopped in every run in which Close returns if and only if it is still stored or was stopped before |
| CaptureManagers.CloseCanGoOn | internal/capture/manager.go:152-154 | while Close sweeps, it or a session it waits for can act |
| CaptureManagers.SecondCloseIff | internal/capture/manager.go:138-143 | when a further Close, which returns at once, may be relied on |
| CaptureManagers.ReuseSurvivesClose | internal/capture/manager.go:77-84 | with a reused identifier Close can return while a registered session is live |
| CaptureManagers.ReuseLeaks | internal/capture/manager.go:166-175 | with a reused identifier a quiet manager can be left without capacity |
| TargetParsers.PortRoundTrip | internal/model/target.go:598-607 | printed ports parse back exactly for 1 to 65535 |
| TargetParsers.CanonicalIsIdempotent | internal/model/target.go:609-636 | an identity given out by the parser canonicalizes to itself |
| TargetParsers.LiteralIsIdempotentIff | internal/model/target.go:609-636 | the literal address is kept as well if and only if the host is an address or, in lower case without its final dot, is none |
| TargetParsers.LiteralIsLost | internal/model/target.go:609-636 | a dotted address with a final dot loses it |
| TargetParsers.AuthoritySplits | internal/batch/plan.go:161-169 | a printed authority splits into host and port again, in brackets or not |
| TargetParsers.IdentityRoundTrip | internal/model/target.go:339-465 | parsing the printed target with any explicit service and port succeeds if and only if these do not conflict, and gives back identity, service and port, for every accepted ASCII identity, registered service and port |
| TargetParsers.ConflictsAreRefused | internal/model/target.go:412-445 | any input that names service and port is accepted with explicit ones if and only if they agree, and then they change nothing |
| TargetForms.ParsedIsValid | internal/model/target.go:339-465 | whatever is accepted has a registered service and a port from 1 to 65535, those that were asked for |
| TargetForms.SchemeDecides | internal/model/target.go:530-551 | a scheme in front of an accepted identity decides service and port; without a usual port there is no target |
| TargetForms.NameAlone | internal/model/target.go:402-465 | a name alone is a web server on port 80, or the service asked for on its usual port |
| TargetForms.NameAndPort | internal/model/target.go:519-528 | a name with a port is that service on that port |
| TargetForms.ScriptIsRefused | internal/model/target.go:500-528 | the one name for which that reads as a scheme |
| TargetForms.AddressAndPort | internal/model/target.go:553-596 | an address in brackets with a port is read as such |
| TargetForms.UrlMeans | internal/model/target.go:371-401 | a URL keeps path and query as the resource and is refused with user information or a fragment |
| TargetForms.NameIff | internal/model/target.go:609-636 | exactly which hosts are names, and what they become |
| Redaction.RedactNode | internal/privacy/privacy.go:148-163 | the walk computes the redacted tree and whether it changed |
| Redaction.RedactMap | internal/privacy/privacy.go:165-204 | deleting and replacing while reading in any order gives the same object |
| Redaction.RedactedIsClean | internal/privacy/privacy.go:165-245 | at every depth no excluded key survives and every redacted key holds the marker |
| RedactionPolicy.ExportIsPurged | internal/privacy/privacy.go:165-204 | no sensitive field survives the export at any depth, and every personal one holds the marker |
| RedactionPolicy.SensitiveIff | internal/privacy/privacy.go:229-245 | which normalized names are excluded |
| RedactionPolicy.PersonalIff | internal/privacy/privacy.go:229-245 | which normalized names are redacted |
| RedactionPolicy.OtherMembersStay | internal/privacy/privacy.go:165-204 | nothing else is lost: every other member stays and is exported under its name |
| RedactionPolicy.RawEvidenceStays | internal/privacy/privacy.go:167-227 | the raw payload of an evidence item always stays, an empty one marked as such |
| RedactionPolicy.StringIsRewritten | internal/privacy/privacy.go:247-277 | how a string is rewritten, by the name it is under |
| Redaction.SecondPassKeepsShape | internal/privacy/privacy.go:165-222 | a second pass removes no key and changes nothing but strings |
| Redaction.RedactedTwice | internal/privacy/privacy.go:247-262 | the walk is idempotent whenever the string rewriters are |
| Redaction.ChangedIff | internal/privacy/privacy.go:144-222 | a change is reported exactly if the tree differs or a redacted key was met |
| Redaction.UnchangedIsIdentical | internal/privacy/privacy.go:67-69 | without a reported change the output is the input, as the callers assume |
| Orders.SortForgetsArrival | internal/packet/packet.go:309-321 | a stable sort depends on the elements alone when the order separates them |
| Orders.StringLeIff | internal/packet/packet.go:701-713 | strings are compared at their first difference, or by length |
| Lists.SortKeepsTies | internal/web/path_graph.go:526-530 | a stable sort keeps the order of elements that tie |
| Orders.Compact | internal/diagnosis/diagnosis.go:1112-1119 | compacting a sorted array in place leaves each value once |
| Orders.SortedUnique | internal/diagnosis/diagnosis.go:1106-1120 | the strictly ascending list of exactly the given values |

## Left out

- Event timestamps, evidence timing and wall-clock timeouts: a timeout is a step that may happen at any time.
- Sequence numbers and counters are unbounded: wrap-around at 64 bits is not modelled.
- `net/netip`, `net/url`, JSON encoding, regular expressions, case folding and Unicode classes are function parameters or minimal models with their assumed properties in the preconditions.
- TargetParsers.IdentityRoundTrip: covers ASCII identities; percent-encoding, UNC paths and the host character checks of `net/url` are not modelled.
- In-place updates of JSON maps and lists, and slices shared between reports, are modelled on values, so aliasing is not captured.
- A channel's direct hand-off to a waiting reader: a delivered event passes through the channel's buffer.
- SessionRuns.LastEventDelivered: takes the buffer as it is when the final section begins; a reader that takes events during the section is not modelled.
- Orchestration.NoDeadlock: assumes that probes and, unless the run is cancelled, packet capture start return; the case of a panic in capture start is shown separately.
- Orchestration.EndpointAgreement: compares the selected endpoint; family, certainty and provenance of candidates are not modelled.
- The probes themselves, their evidence, report status and progress callbacks.
- BatchRuns.DoneAddsUp: allows a panicked report of any status, of which the program makes an error report.
- Plan fields copied from the capture report (session, browser, state, concurrency) and the trimming of requested selectors.
- The tuple of a TCP probe is an input: reading it out of the probe's JSON evidence is not part of this model.
- Default identities and windows that `Correlate` takes from the probe result, and the fields of packet observations that no matching reads.
- Collecting candidates and successes from observations and probes, except the common constructor of candidates.
- Labels, tones, certainties and segment kinds of the path graph; groups carry what the layers carry.
- The address part of an endpoint in a capture snapshot is a parameter, as `net.SplitHostPort` has it.
- Sessions of a capture: the browser process, the proxy and its timeouts are steps that may happen at any time after launch.
- Native trace control, process launch, temporary directories, HTTP serving, HTML, terminal output and command-line parsing.
