# Verified models of the simulator's protocol and helper code

Dafny models of the parts of this repository that carry real logic, with proofs of what they are
for. `dafny verify dfyconfig.toml` checks everything.

* **SIRD credit loop** (`SirdProtocol`, `SirdCredit`, `SirdBooks`, `SirdProgress`, `SirdRounds`,
  `SirdHistory`, `SirdOutcome`, `SirdBudget`): messages of many senders to one receiver in
  `homa-l4-protocol.cc`, long ones that wait for a first grant and others that are sent unasked up to one
  bandwidth-delay product. The sender's
  window, the receiver's per-message and credit book-keeping, the round of grants, busy senders and the
  credit tick are functions on a state; their steps, and the network's deliveries, reorderings and losses,
  interleave freely. The budget that the feedback loop computes from congestion marks is a step parameter
  there, and `SirdBudget` models the loop itself as a class and proves that the parameter's range is right.
* **Dependency graphs** (`Graphs`, `Topsort`, `Rotation`, `FindCycles`, `CycleReport`): both topological
  sorts and the cycle enumerator, against one notion of depth and of elementary cycle.
* **Test worker pool** (`WorkerPool`, `WorkerCodes`, `WorkerHistory`): main thread, workers, two FIFO queues,
  break jobs and an interrupt flag, as a state machine; a process's exit code is a step parameter.
* **Shell pipelines** (`ShellSyntax`, `ShellParse`, `ShellCommands`, `ShellEval`, `ShellMeaning`,
  `ShellSpawns`, `ShellPipeline`): the token parser and the executor as a class, against a printer, a
  recursive evaluator and a description of every run from the nodes. Processes are an oracle from the log so
  far to an exit code; the world records opens, starts, waits and closes.
* **Patches** (`PatchText`, `PatchLines`, `PatchSpec`, `PatchStructure`, `PatchRoundTrip`, `PatchSet`):
  parser and writer, with the classes that hold a patch set.
* **Credit and trace reconstruction** (`CreditSeries`, `Counters`, `CreditReports`, `QueueSeries`,
  `MessageMatch`):
  sweeps, samplers, a series compressor and two message matchers, from event lists.
* **Combinatorics and the workload distribution** (`BinaryStrings`, `Permutations`, `Quantiles`,
  `Workload`, `WorkloadCdf`, `WorkloadEntries`, `WorkloadMean`).

`Wrappers`, `SeqSums`, `MapSums`, `RealOrder` and `Texts` hold result types, sums and small shared facts. Code
that loops or updates fields is a method or a class proved against a specification function, and the
properties are lemmas about that function. Floating-point values are exact reals. Dictionary order is arbitrary, so loops over
keys pick any key.

Where the code and its comments or documentation differ, the code is followed:

* `topsort.py:109` speaks of leftover elements with a child; the counts make it a predecessor.
* `int2bin` at width zero, by its slices, neither cuts nor refuses anything.
* `&&` and `||` nest to the right in `shellcmd.py`; mixed lists differ from the POSIX reading.
* A data packet that was sent without a grant also takes a credit of its sender back
  (`homa-l4-protocol.cc:2487-2497`), so counters are exact only where no sender mixes the two kinds.
* An overcommitment level of zero, which the attribute accepts, grants nothing: no long message is ever
  delivered.
* A negative process limit in `test.py` starts no worker, and with work to do the main thread then waits
  for ever.

## Model

| member | source | states |
|---|---|---|
| SirdBooks.BooksBalanceIffUnmixed | src/internet/model/homa-l4-protocol.cc:2487-2497 | every arriving data packet returns a credit of its sender, granted or not; so in every reachable state each counter of credits in use equals the granted packets not yet received, under any loss and reordering but without retransmission (a packet sent again returns a second credit), exactly when the overcommitment level is zero or no sender has a packet that is sent unasked beside a granted packet of another message, or two unasked packets in a message that also needs grants |
| SirdBooks.UnaskedPacketUnbalances | src/internet/model/homa-l4-protocol.cc:2487-2497 | whenever a sender has a credit out, its books balance and it can send a packet that needs no grant, sending and delivering that packet unbalances them |
| SirdBooks.NothingIsGranted | src/internet/model/homa-l4-protocol.cc:2845-2961 | with an overcommitment level of zero no message is ever granted more than it may send unasked |
| SirdCredit.ReachableStatesKeepInv | src/internet/model/homa-l4-protocol.cc:2428-3053 | in every state that any interleaving of sends, deliveries, losses, busy reports and ticks can reach, without retransmission: per message, packets sent <= window of the sender <= packets granted or free to send <= size, held credit = window - sent, and every packet sent is under way, received or lost; the active list holds exactly the known incomplete messages once each; the global counter is the sum of the counters per sender and both respect their budgets; a counter is at most what its messages owe, and short of it by at most two for each packet received of messages sent unasked; unless the overcommitment level is zero, a tick is scheduled whenever credit could be given |
| SirdCredit.StepKeepsInv | src/internet/model/homa-l4-protocol.cc:2428-3053 | each single step (retransmission apart) keeps the whole invariant |
| SirdCredit.DataIsTaken | src/internet/model/homa-l4-protocol.cc:2218-2257 | an arriving packet is no longer owed if it was granted, and changes nothing owed if it was sent unasked |
| SirdCredit.PacketIsSent | src/internet/model/homa-l4-protocol.cc:1264-1291 | a sender that may send a packet for the first time holds credit for it, so consuming the credit never finds none; packets queued again by a RESEND are not part of this |
| SirdCredit.GrantIsTaken | src/internet/model/homa-l4-protocol.cc:1377-1436 | a grant moves the sender window to its index unless a later one already has; reordered grants never move it back |
| SirdCredit.GrantIsTried | src/internet/model/homa-l4-protocol.cc:2894-2930 | credit left for a known message that is not fully granted, of a sender that is not busy, always leads to a grant; it exposes one further packet, and where arrivals of a message sent unasked have moved its window on, the packets up to there |
| SirdCredit.IdleRoundFoundNobody | src/internet/model/homa-l4-protocol.cc:2982-2999 | a round that issues nothing changes nothing and found no message that could be granted, so stopping the tick loses no wake-up |
| SirdCredit.Rescheduled | src/internet/model/homa-l4-protocol.cc:2697-2738 | moving a message to any position, or adding it, keeps the list free of repetitions and its members the same plus that message |
| SirdOutcome.CreditSafety | src/internet/model/homa-l4-protocol.cc:2845-2961 | where no sender mixes unasked and granted packets, granted data in flight, lost or still to be sent stays within the credit in use and so within the global budget, and within one bandwidth-delay product for each sender; in general within that plus two for each packet received of messages sent unasked; loss and reordering included, retransmission not |
| SirdOutcome.CreditReturnsForGranted | src/internet/model/homa-l4-protocol.cc:2487-2497 | whenever a credit is returned the global counter is positive; where no sender mixes, an arriving packet finds a credit of its sender exactly if it was granted |
| SirdOutcome.WhatLossCosts | src/internet/model/homa-l4-protocol.cc:2845-3053 | without the retransmission timer (line 3062 on), when nothing more can happen a sender has at most as many credits in use as granted packets that were lost or whose last grants were, and exactly as many where its books balance; and, if grants are allowed at all, every known incomplete message is fully granted, out of credit, or of a sender that reported to be busy with no packet of it having arrived since |
| SirdOutcome.UndisturbedRunsDeliver | src/internet/model/homa-l4-protocol.cc:2428-3053 | a run without losses that cannot go on, with any busy reports and any mix of messages, has no credit in use, and with grants allowed an incomplete message is of a sender that reported to be busy and of which no packet has arrived since; if every reported sender was heard again, every packet of every message has been received exactly when the overcommitment level lets any grant out or no message needs one |
| SirdOutcome.EveryRunCanFinish | src/internet/model/homa-l4-protocol.cc:2428-3053 | from every state a run can reach, whatever was lost, it can be carried on to an end by arrivals, sends and ticks alone |
| SirdOutcome.EveryMessageCanArrive | src/internet/model/homa-l4-protocol.cc:2428-3053 | as long as nothing was lost and every sender that reported to be busy was heard again, the run can be carried on so that every packet of every message is received, if grants are allowed or no message needs one |
| SirdHistory.BusyIffNotHeardSince | src/internet/model/homa-l4-protocol.cc:2594-2602 | in every run a sender is listed as busy exactly if it has reported so and no packet of any of its messages has arrived since |
| SirdHistory.BudgetIsLatest | src/internet/model/homa-l4-protocol.cc:2446-2453 | in every run the budget of a sender is the one that came with the latest packet of any of its messages, and before any has arrived one bandwidth-delay product but at least one packet |
| SirdHistory.SendIsAllowedIff | src/internet/model/homa-l4-protocol.cc:1377-1436 | in every run a message may send exactly if the number of packets it has sent is below its first burst (none for a message longer than the threshold and than one packet, otherwise the whole message or one bandwidth-delay product) or a delivered grant covers the next packet |
| SirdHistory.ArrivalsWiden | src/internet/model/homa-l4-protocol.cc:2231-2249 | between two ticks each arriving packet of a known message of which a part was sent unasked moves the window that the next grant exposes on by one packet, up to the end of the message |
| SirdHistory.ArrivalMovesOne | src/internet/model/homa-l4-protocol.cc:2672-2738 | an arriving packet takes its message out of the list and puts it back at the position asked for, or at the end, unless the message is complete; all others keep their order |
| SirdRounds.TickServesFirst | src/internet/model/homa-l4-protocol.cc:2845-2999 | one tick grants, once each, exactly the first of the listed messages in the order of the list: of each sender that is not busy and has budget left the first message with packets to grant, as far as the overcommitment level and the credit left in all reach; nothing else changes; the next tick is scheduled exactly if something was granted and some listed message still waits for credit that is there |
| SirdRounds.TickIsScheduledIff | src/internet/model/homa-l4-protocol.cc:2964-2979 | outside of ticks a tick is scheduled exactly when a packet, a request or a busy report arrives while a listed message waits for credit that is there, unless one is scheduled already |
| SirdProgress.SendAppropriateGrants | src/internet/model/homa-l4-protocol.cc:2845-2961 | the loop over the active messages, busy senders passed over, issues what the round function says |
| SirdProgress.TickIsFairAndThrifty | src/internet/model/homa-l4-protocol.cc:2845-2999 | one tick issues at most the overcommit level of grants and at most one for each sender, and if it stays below that level every message left ungranted is fully granted, of a busy sender, or had no credit to get, or its sender had its grant |
| SirdProgress.RoundServesAll | src/internet/model/homa-l4-protocol.cc:2845-2961 | a round below its limit leaves out no message that could still be granted at its end |
| SirdProgress.RunsAreBounded | src/internet/model/homa-l4-protocol.cc:2845-2999 | without the retransmission timer (line 3062 on), every run takes at most three steps for each message, six for each packet and two for each busy report, whatever is lost |
| SirdBudget.SenderLoop.ReceivePacket | src/internet/model/homa-l4-protocol.cc:2463-2592 | one packet updates both signals of its sender: counters, and at the end of an epoch the smoothed mark ratio and the clamped budget |
| SirdBudget.SenderLoop.BudgetIsLegal | src/internet/model/homa-l4-protocol.cc:2892-2894 | after any packets the whole-packet budget of a sender is between one and the bandwidth-delay product |
| SirdBudget.StaysInRange | src/internet/model/homa-l4-protocol.cc:2441-2444 | after any marks the budget is within the clamp and the ratio within zero and one |
| SirdBudget.MoreMarksNeverPay | src/internet/model/homa-l4-protocol.cc:2524-2558 | marking more packets of the same traffic never leaves a sender with a larger budget or a smaller mark ratio |
| SirdBudget.CleanTrafficRestores | src/internet/model/homa-l4-protocol.cc:2540-2558 | unmarked traffic wins back one packet of budget for each whole epoch, up to the full budget |
| SirdBudget.EpochOutcome | src/internet/model/homa-l4-protocol.cc:2524-2558 | an epoch moves the ratio by the gain times its distance from the share of marked packets; without a mark the budget gains one packet, up to the full budget; with one it loses half the new ratio of itself, down to one packet |
| SirdBudget.SenderLoop.Budget | src/internet/model/homa-l4-protocol.cc:2888-2894 | the credit budget is the largest whole number of packets within both the network and the sender budget |
| FindCycles.FindCycles | bindings/python/topsort.py:343-385 | every yield is an elementary cycle of the graph, no two yields are rotations of each other, and every elementary cycle is a rotation of a yield, for any order of the keys; the search ends |
| FindCycles.SearchFrom | bindings/python/topsort.py:351-385 | one root: afterwards every cycle through a node reachable from the root is recorded |
| FindCycles.ReachableCycleIsRecorded | bindings/python/topsort.py:362-385 | when every simple path from the root has been expanded, no cycle with a reachable node is missing |
| FindCycles.NothingIsLost | bindings/python/topsort.py:346-349 | skipping roots that were visited loses no cycle |
| FindCycles.WeightDrops | bindings/python/topsort.py:351-385 | replacing a path by its extensions lowers the weighted size of the stack, which is why the search ends |
| FindCycles.CloseCycle | bindings/python/topsort.py:367-378 | a closed path is appended unless a rotation of it is already there |
| FindCycles.NoneFoundIffAcyclic | bindings/python/topsort.py:343-385 | nothing is yielded exactly when the graph is acyclic |
| Rotation.IsRotated | bindings/python/rad_util.py:735-775 | answers whether one sequence is a rotation of the other; fails on two empty ones |
| Rotation.RotationIsTransitive | bindings/python/rad_util.py:735-775 | being a rotation is transitive, so comparing with the recorded cycles alone finds every duplicate |
| Topsort.BuildCounts | bindings/python/topsort.py:77-90 | the dictionaries count the parents of each element and list its children, with repetitions |
| Topsort.TopSort | bindings/python/topsort.py:92-112 | succeeds exactly on acyclic input; the answer lists the releasable elements once each, by non-decreasing longest-path depth and parents first; otherwise the error carries exactly the rest, each with a parent among the rest |
| Topsort.TopSortLevelsCore | bindings/python/topsort.py:203-232 | yields the depth levels in order, then ends or fails with the leftover counts |
| Topsort.TopSortLevels | bindings/python/topsort.py:160-172 | the same for a list of pairs: success exactly on acyclic input, levels are the depth levels |
| Topsort.SortsAgree | bindings/python/topsort.py:92-232 | the two sorts succeed or fail together, and cutting the list at the level sizes gives the levels, up to order inside a level |
| Topsort.SameLeftOver | bindings/python/topsort.py:108-112 | on cyclic input both sorts stop with the same counts and children |
| Topsort.DepthOrderPutsParentsFirst | bindings/python/topsort.py:97-103 | an answer in depth order has every parent before its child |
| Graphs.DepthIsLongestWalk | bindings/python/topsort.py:203-224 | an element that is released has depth d exactly when the longest walk that ends at it has d edges |
| Graphs.LeftOverIffCyclic | bindings/python/topsort.py:108-111 | something is left when release stops exactly when the graph has a cycle |
| Graphs.LeftOverHaveParents | bindings/python/topsort.py:108-111 | every leftover element has a predecessor among the leftovers |
| CycleReport.LeftOverKeepsCycles | bindings/python/topsort.py:104-111 | the children dictionary of the error has exactly the cycles of the whole pair list |
| CycleReport.CycleErrorIsExplained | bindings/python/topsort.py:104-111 | enumerating the cycles of that dictionary shows every cycle of the input, and there is at least one |
| WorkerPool.ReachableStatesKeepInv | test.py:978-1046 | in every state reachable under any interleaving and any time of the interrupt: each dispatched job is in exactly one of the input queue, a worker, the output queue and the collected jobs; break jobs stay behind real ones; a job keeps its number and skip mark, and is marked abandoned only after an interrupt |
| WorkerCodes.CodesAreKept | test.py:1011-1046 | at any time the jobs that came back after being run are exactly those whose process has exited in this run, each with the code of its own process |
| WorkerCodes.ExitCodeZeroIff | test.py:1948-1951 | after the return the exit code is 0 exactly when the process of every test that is not skipped has exited with 0 and no skipped test was abandoned |
| WorkerHistory.QueuesAreFifo | test.py:978-1046 | at any time the input queue holds the tests in their order and then the break jobs, less as many from the front as were taken; the collected jobs and then the output queue are the jobs handed back, in order |
| WorkerHistory.UnrunAreKept | test.py:988-1009 | at any time the abandoned jobs that came back are exactly those of the tests for which a worker looked at the flag after the interrupt, and the skipped ones exactly those of the tests to be skipped for which it looked before |
| WorkerHistory.CountersSayWhatHappened | test.py:1718-1752 | after the return the counters are the numbers of tests whose processes exited with 0, 1, 2 and any other code, and of the tests to be skipped that were looked at before the interrupt; with the tests looked at after it they add up to all tests |
| WorkerPool.StepConserves | test.py:978-1046 | each step keeps every job in exactly one place |
| WorkerPool.NoWorkIsLeftBehind | test.py:980-986 | no worker takes a break job while a real job is queued |
| WorkerPool.MovesIff | test.py:1718-1720 | a step other than an interrupt is possible exactly until the main thread has returned, except that with no worker nothing moves once all work is dispatched: collecting and joining never deadlock otherwise |
| WorkerPool.RunsAreBounded | test.py:978-1046 | every run is finite, with an explicit bound |
| WorkerPool.RunsEndReturned | test.py:1696-1720 | a run that cannot continue has returned exactly when there are workers or there is no work; with no worker it waits for ever |
| WorkerPool.Verdict | test.py:1948-1951 | after the return every test was collected once, the queues are empty, all workers have exited, and the exit code is 0 exactly when every collected job is marked passed or skipped and none abandoned; WorkerCodes.ExitCodeZeroIff ties this to the processes |
| WorkerPool.CollectResults | test.py:1718-1752 | each of the five counters is the number of positions in the results whose job has that kind (skipped; return code 0, 1, 2, any other; not abandoned), with the abandoned jobs they add up to all results, and the exit code is 0 exactly when every job passed or was skipped |
| ShellParse.ParseUndoesPrint | waf-tools/shellcmd.py:121-201 | parsing the printed tokens gives a pipeline back exactly when it is well formed |
| ShellParse.ParsedIsWellFormed | waf-tools/shellcmd.py:136-201 | every successful parse alternates nodes and operators, ends in a node, has pipes exactly after commands with piped output, and has a change of directory followed by && or last |
| ShellParse.PrintNormalizes | waf-tools/shellcmd.py:121-201 | printing what was parsed and parsing it again gives the same pipeline |
| ShellSyntax.WellFormedIffAlternating | waf-tools/shellcmd.py:121-201 | the recursive and the positional reading of well-formedness agree |
| ShellSyntax.AssignmentMatches | waf-tools/shellcmd.py:24 | name=value with a word for a name and a value without blanks is read as that assignment |
| ShellCommands.MatchIff | waf-tools/shellcmd.py:24 | a token is an assignment exactly if it is a name of letters, digits and underscores, an equals sign and a value without white space, with at most one newline behind it |
| ShellCommands.CommandIsRead | waf-tools/shellcmd.py:136-201 | assignments, a name, and arguments and redirections in any order are read as one command: each variable with its last value in the order of first assignment, the arguments in order, each stream as redirected; an assertion fails exactly if a stream is redirected twice; a redirection at the very end is ignored |
| ShellCommands.OperatorIsRead | waf-tools/shellcmd.py:154-177 | the operator after such a command ends it in any pipeline: a pipe takes the output and fails exactly if that is redirected already |
| ShellPipeline.Pipeline.Parse | waf-tools/shellcmd.py:121-201 | the token loop succeeds exactly when the token function does and leaves its pipeline |
| ShellPipeline.Pipeline.Consume | waf-tools/shellcmd.py:137-199 | one token moves the parser to the next state of the token function |
| ShellPipeline.Pipeline.ExecPipedCommands | waf-tools/shellcmd.py:203-212 | waits for every command in order; the status is that of the last command |
| ShellPipeline.Pipeline.Run | waf-tools/shellcmd.py:214-346 | returns the status of the right-nested reading and logs the same opened files, started processes, waits and closes; told from the nodes: the commands started are the first ones in order, each with its arguments and environment, reading from the process before it if a pipe is in between, in the directory that the changes before it lead to, with the files of its redirections opened in order; the run goes on after each command waited for exactly if the next operator and its exit code let it; an empty pipeline returns nothing |
| ShellSpawns.RunsAsWritten | waf-tools/shellcmd.py:214-346 | the same of every run of a well-formed pipeline, with the event for each file and process and the wait that decides written out |
| ShellSpawns.RelativePath | waf-tools/shellcmd.py:228 | changes to relative directories d1 to dk, none empty or ending in a slash, lead to ./d1/../dk |
| ShellSpawns.AbsolutePath | waf-tools/shellcmd.py:228 | an absolute directory makes the path start over at it |
| ShellSpawns.JoinIsOneMore | waf-tools/shellcmd.py:228 | any further change of directory, empty names and slashes at the end included, extends the path of those before it |
| ShellEval.NothingIsLeft | waf-tools/shellcmd.py:293-346 | a run that ends with a status has waited once for every process and closed once every file, in order |
| ShellEval.OneConnectiveAgrees | waf-tools/shellcmd.py:308-346 | with only one of && and &#124;&#124; the right-nested reading equals the left-associative one of the POSIX Shell Command Language, section 2.9.3 |
| ShellEval.ReadingsAgreeIffOneConnective | waf-tools/shellcmd.py:308-346 | the two readings agree for all commands exactly when only one of the two operators is used |
| PatchRoundTrip.ParseUndoesWrite | utils/check-style.py:363-418 | parsing a written patch set gives it back, header lengths recomputed, exactly when no removed text starts with "-- " and no added text with "++ " |
| PatchRoundTrip.ParsedSurvivesWriting | utils/check-style.py:374-418 | whatever the parser accepts is written and read again without change |
| PatchRoundTrip.OmittedLengthIsRejected | utils/check-style.py:377 | a chunk header that leaves out the source length, or the target length, is not recognised, whatever follows |
| PatchSpec.ClassifyContent | utils/check-style.py:375-380 | a written line is read as what it was exactly when it is not ambiguous; otherwise as a file header |
| PatchSet.ParsePatchset | utils/check-style.py:374-418 | builds objects that hold what the line function says, or fails with its error |
| PatchSet.Patch.Write | utils/check-style.py:363-372 | writes exactly the lines of the patch the object holds |
| PatchSet.PatchChunk.Write | utils/check-style.py:301-310 | writes the header with both positions and, for each side, the number of lines that are not on the other side alone, and then every line with its mark, in order |
| PatchSet.PatchChunk.SrcLength | utils/check-style.py:269-294 | returns the number of lines that are not on the destination side alone |
| PatchSet.PatchChunk.DstLength | utils/check-style.py:279-300 | returns the number of lines that are not on the source side alone |
| PatchSpec.LengthsCount | utils/check-style.py:207-218 | the two lengths add up to the number of lines plus the number of kept lines |
| PatchText.DecimalIsDigits | utils/check-style.py:307 | a length is written with its decimal digits, the highest first and without leading zeros |
| PatchStructure.ParsedByPosition | utils/check-style.py:374-418 | parsing any lines succeeds exactly if each can be read where it stands, and otherwise fails as the first that cannot; the patches are the sections between source headers, each with the last new name in it; the chunks are the bodies between chunk headers, with the content lines in order, also past the header of a next patch |
| PatchLines.PrefixMatchIff | utils/check-style.py:375-380 | a pattern of a prefix and the rest of the line matches exactly that prefix, a text without a newline and perhaps a final newline |
| PatchLines.HeaderMatchIff | utils/check-style.py:377 | a chunk header is recognised exactly if four numbers stand in their frame, whatever follows, and gives the first and third |
| CreditSeries.OutstandingIsBestSuffix | scripts/lab2_plot.py:360-370 | after any events the outstanding credit of a key is the maximum over suffixes of grants minus data |
| CreditSeries.TotalsAlwaysAddUp | scripts/lab2_plot.py:363-369 | after any events each receiver total is the sum of its outstanding entries |
| CreditSeries.ClampNeverFires | scripts/lab2_plot.py:369 | the total is positive whenever it is decremented |
| CreditSeries.Advance | scripts/lab2_plot.py:360-370 | the sweep takes in exactly the events up to the sample time and equals a replay from scratch |
| CreditSeries.DeriveCreditSeries | scripts/lab2_plot.py:323-389 | there is a series exactly when there is a grant; it is for the sender with the most grants, of equals the one granted first, and the three receivers that grant most; samples run from the first to the last event, each from a replay of the events swept so far, which on sorted events are all events at or before its time; times the bandwidth-delay product, each is the sum over the receivers of the credit outstanding for the sender, and of what the sum of each outstanding entry leaves of the budget, nothing once it is used up; then averaged |
| CreditSeries.UpToIsAll | scripts/lab2_plot.py:360-370 | on sorted events the events swept by a time are all events at or before it |
| Counters.MostCommonAreMost | scripts/lab2_plot.py:333-344 | the chosen keys are distinct, each is counted more often than those behind it and all left out, or as often and seen first, and there are as many as asked for unless all are chosen |
| CreditSeries.MovingAverage | scripts/lab2_plot.py:182-194 | each value is the sum of the last window of values divided by its length, of all values so far at the start; a window of at most one changes nothing |
| CreditReports.TotalsAgree | scratch/lab2.cc:291-312 | the online map that erases zeros and the offline replay that keeps them give the same total |
| CreditReports.OfflineIsLatest | scripts/lab2_plot.py:287-290 | an offline entry is the latest report for its key |
| CreditReports.OnlineIsLatest | scratch/lab2.cc:298-311 | an online entry is the latest report of the target sender for its key, absent when that is zero |
| CreditReports.LatestIsLast | scripts/lab2_plot.py:287-290 | the latest report for a key is the one at the last position with that key |
| CreditReports.EntriesAreLast | scripts/lab2_plot.py:270-276 | the dictionaries of budgets and of availabilities have entries for exactly the receivers that report about the target, each from the last of its reports |
| CreditReports.OfflineEntry | scripts/lab2_plot.py:270-296 | at any point of the sweep a receiver has the availability of its last report so far, and before any the budget of the last of all its reports |
| CreditReports.AvailabilityGap | scripts/lab2_plot.py:274-306 | whatever was seeded and reported, online availability plus the budgets of receivers that will still report first equals offline availability plus the seeds of receivers not heard so far |
| CreditReports.SilentReceiversCount | scratch/lab2.cc:709-718 | where the reports about the target come from seeded receivers and name the seeded budget, online availability exceeds offline availability at every sample by one budget for each seeded receiver that never reports |
| CreditReports.AvailabilitiesAgreeIffAllReport | scratch/lab2.cc:709-718 | under the same set-up the two agree at every sample exactly when every active receiver reports at least once |
| CreditReports.CreditSampleState.constructor | scratch/lab2.cc:709-718 | starts with no sender credit and one budget for every active receiver |
| CreditReports.SampleIsOfflineTotal | scratch/lab2.cc:340-344 | the 32-bit sampled sum equals the offline total exactly while that fits in 32 bits |
| CreditReports.SweepSenders | scripts/lab2_plot.py:287-303 | takes in exactly the reports up to the sample time and sums the credit of the target |
| CreditReports.CreditSampleState.UpdateSenderState | scratch/lab2.cc:291-312 | keeps the online map of the reports so far |
| CreditReports.CreditSampleState.UpdateReceiverState | scratch/lab2.cc:315-333 | keeps the seeded availability overwritten by the reports so far |
| CreditReports.CreditSampleState.SampleCreditState | scratch/lab2.cc:336-352 | samples both sums modulo 2^32 |
| QueueSeries.SimplifyKeepsSteps | scripts/plot_2t2_traces.py:235-269 | at every time from the first point on, the kept points have the value of the original series in any order, the last of equal times winning; kept times strictly increase |
| QueueSeries.SimplifyIsIdempotent | scripts/plot_2t2_traces.py:235-269 | a second application changes nothing |
| QueueSeries.SimplifyKeepsChanges | scripts/plot_2t2_traces.py:254-266 | the points kept are the last ones at their times; a point left out has the value of the last one kept before it and lies less than the minimum after it; no two neighbours kept are like that, but the last point is kept in any case |
| QueueSeries.SimplifyQueueSeries | scripts/plot_2t2_traces.py:235-269 | the loops compute the simplified series for every label, dropping empty ones as the source does |
| MessageMatch.StartsAreConserved | scripts/sim1_plot.py:124-146 | per key, starts matched in the order of the records followed by those pending are all the starts |
| MessageMatch.RecordsAreCausal | scripts/sim1_plot.py:124-146 | every record joins a start to a later finish of its key |
| MessageMatch.MatchersAgreeIffClear | scripts/lab1_plot.py:163-199 | on any events the FIFO and the single-slot matcher return the same records in the same order exactly when at every finish the oldest start waiting is the newest since the last finish, or there is neither |
| MessageMatch.MatchersAgreeIffNeverCrowded | scripts/lab1_plot.py:163-199 | where no key has two starts at one time, that is exactly when no finish finds more than one start waiting |
| MessageMatch.ParseFifo | scripts/sim1_plot.py:124-146 | the deque loop returns the records of the FIFO function |
| MessageMatch.ParseSlots | scripts/lab1_plot.py:163-199 | the dictionary loop returns the records of the single-slot function |
| BinaryStrings.RoundTrip | bindings/python/rad_util.py:74-130 | for a positive width int2bin fails exactly when the value does not fit; otherwise it has that width and bin2int undoes it |
| BinaryStrings.BackRoundTrip | bindings/python/rad_util.py:74-130 | int2bin at the width of a string undoes bin2int |
| BinaryStrings.TruncationKeepsValue | bindings/python/rad_util.py:96-105 | whatever the width, zero and negative included, a returned string stands for the argument |
| BinaryStrings.WidthZeroNeverFails | bindings/python/rad_util.py:100-104 | width zero cuts nothing off and refuses nothing |
| BinaryStrings.BinaryRange | bindings/python/rad_util.py:632-660 | for a positive width the strings of 0 to 2^width - 1 in order, as int2bin gives them; nothing for zero and minus one; an index error below |
| BinaryStrings.RippleCarry | bindings/python/rad_util.py:650-659 | one pass adds one in place, and the end marker is set exactly when the carry runs out |
| BinaryStrings.IncrementAddsOne | bindings/python/rad_util.py:650-659 | the rippled digits stand for the old value plus one, less 2^width when the carry runs out |
| Permutations.Permute | bindings/python/rad_util.py:293-326 | the nested loops build the lists of the specification in order |
| Permutations.PermutationAt | bindings/python/rad_util.py:293-326 | the order of the lists: for each rearrangement of the rest in turn, the first item at each place from front to back |
| Permutations.EveryRearrangement | bindings/python/rad_util.py:293-326 | a list is returned exactly when it is a rearrangement of the input |
| Permutations.HowMany | bindings/python/rad_util.py:293-326 | n factorial lists are returned |
| Permutations.NoneTwice | bindings/python/rad_util.py:293-326 | no list is returned twice exactly when no item is in the input twice |
| Quantiles.AllAgree | bindings/python/rad_util.py:351-368 | on a non-empty list and 0 <= p <= 1 the one-based quantile and both zero-based percentiles are the same number |
| Quantiles.QuantileRises | scripts/plot_2t2_traces.py:75-87 | it rises with p, from the least value at zero to the greatest at one |
| Quantiles.QuantileInterpolates | bindings/python/rad_util.py:351-368 | the value at the place below and, of the step to the next value, the fraction by which the place is beyond it |
| Quantiles.QuantileFailsIff | bindings/python/rad_util.py:351-368 | for any p there is a value exactly if the list is not empty and the place, counted from one, lies above minus the length and below the length plus one |
| Quantiles.FromZeroFailsIff | scripts/lab1_plot.py:148-160 | counting from zero there is a value exactly if the place lies between minus the length and the last position; negative whole places count from the end |
| Quantiles.FromZeroIsOnLine | scripts/lab1_plot.py:148-160 | counting from zero interpolates on the broken line through the sorted values |
| Quantiles.AgreeIff | bindings/python/rad_util.py:351-368 | on a non-empty list and p >= 0 the zero-based percentiles give what the one-based quantile gives exactly when p is at most one, or there is one value, or the position lies at or beyond the length and all fail |
| Workload.ReadRawWorkload | scratch/sim1.cc:222-308 | each error in its order and exactly when it applies; otherwise mean and distribution are those of the merged rows |
| Workload.MergeRows | scratch/sim1.cc:246-281 | merging keeps the weight up to every size, the total weight and the sum of size times weight of the selected rows, and has exactly their sizes |
| Workload.RowCounts | scratch/sim1.cc:203-270 | a row adds its weight exactly if it is of the transport and the workload asked for, with the three short names standing for their long ones, and its load is within one billionth |
| Workload.SizeIsLeastIff | scratch/sim1.cc:274-276 | the size is the least number of packets that holds the bytes, clamped to 1 and 65535, exactly when rounding up does not wrap around 64 bits |
| Workload.Distribute | scratch/sim1.cc:295-304 | the loop over the merged sizes stores the cumulative shares and sums the mean |
| WorkloadCdf.CdfIsProperIff | scratch/sim1.cc:274-307 | with weights that are not negative, the stored distribution rises strictly in probability and size, ends at one with the largest size, gives each size the share of the rows up to it, accounts for every row, and has as its own mean the one reported and the weighted mean of the rows, exactly when every size but the least has a row of positive weight |
| WorkloadEntries.StoredByShare | scratch/sim1.cc:288-307 | for any weights whose total is positive: every key is at most one and is the share, cut at one, of the size stored there, which is the greatest with that share; at one stands the greatest size; the mean is the weighted mean of the rows |
| WorkloadMean.StoredMeanIff | scratch/sim1.cc:295-307 | the mean of the stored distribution is never below the reported one, and equals it exactly when no size that only weightless rows have lies above a size with weight |
| WorkloadCdf.WeightlessRowOnTop | scratch/sim1.cc:302-306 | an instance: for a weightless row of a larger size on top of one of all the weight, nothing describes the stored distribution |

## Left out

- RESEND, the receiver's timeouts and what a sender does on a RESEND; when a sender reports to be busy (any moment is allowed); priorities, ACK generation and the plain Homa branch; 16- and 32-bit wrap-around of the packet counters.
- The SRPT and round-robin insertion positions: the model lets a message move to any position, of which both are cases.
- SirdProgress.SendAppropriateGrants: messages and schedulers are values inside one protocol state, as the proofs are about interleavings; their update in place is not captured.
- One receiver is modelled; receivers share no credit state, so several are independent copies.
- SirdOutcome.CreditSafety: losses are never made good, because retransmission is left out; a packet that a RESEND has sent twice would return two credits.
- SirdOutcome.WhatLossCosts: what a RESEND repays, and when a message is given up for good, is outside the model.
- SirdBudget.SenderLoop.ReceivePacket: only the state that decides the budget; the observation counters and traces are not kept.
- ShellPipeline.Pipeline.Run: verbose output is off (that branch reads `retval` before it is assigned at `shellcmd.py:322`); opening a file and starting a process are assumed to succeed.
- `get_abbreviated_command`, which tests `And` twice and so never prints the second operator, and splitting a command string into tokens.
- WorkerPool.Verdict: printing, result files and the XML and HTML reports.
- PatchSet.ParsePatchset: `append_to_line`, `apply` and `remove_trailing_whitespace_changes`; chunk lines are values because nothing modelled changes them.
- CreditReports.SweepSenders: the outer sampling loop and the start time of the protocol-trace series.
- MessageMatch.ParseFifo: fields of a record other than key, start and finish; parsing of trace lines in all scripts.
- Quantiles.AgreeIff: values that are not finite are outside exact reals; p below zero is outside the statement (QuantileFailsIff and FromZeroFailsIff cover it).
- BinaryStrings.RoundTrip: `bin2int` on strings other than binary digits (signs, blanks, prefixes).
- Workload.ReadRawWorkload: opening the file and splitting its rows into fields.
- Floating-point rounding everywhere, plotting, CSV writing, topology set-up, and the simulator's queue discs and sockets.
