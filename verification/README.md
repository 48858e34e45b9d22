# SBX Pro, verified

SBX Pro runs sing-box nodes on many machines. An agent on each machine counts traffic with nft or iptables
rules, keeps local ledgers and synchronises them to a manager over a WebSocket that can lose and repeat
messages; the manager sends tasks back and drives a status machine per node. This project models that logic
and proves what it keeps. `dafny verify dfyconfig.toml` checks all of it.

## How it is laid out

| file | what it models |
|---|---|
| Sums.dfy | sums and maxima over finite sets, in which every ledger is stated |
| Names.dfy | counter names, epoch tags, scopes and the integers in them |
| Collector.dfy | one collector tick: differencing against baselines, and the transaction that books it |
| KernelRuns.dfy | the collector against the kernel, over every run of traffic, resets, rebuilds and bad readings |
| Ledger.dfy | the manager's ingest transaction and its two ledgers |
| TrafficSync.dfy | the agent's pending table, sequence, baselines and acks |
| SyncProtocol.dfy | agent, connections and manager together, with crashes between any two writes |
| Gateway.dfy | the manager's connection table and its ingest-then-ack branch |
| EndToEnd.dfy | the collector and the protocol composed, from kernel counters to manager totals |
| NodeLifecycle.dfy | tasks, results, sweeps and node statuses, interleaved at single statements |
| Inbound.dfy | node records to sing-box inbounds, and the rebuild of the configuration |
| NodeService.dfy | node edits, the candidate pair, Apply and rollback |
| RuleCompilers.dfy | GenNFT and GenIPTables as compilers with a packet semantics, and the reading back of iptables |
| Enforcement.dfy | the limit on addresses per node and the traffic quota |
| LoginThrottle.dfy | the sliding-window login throttle |
| PyQuote.dfy | percent-encoding of links and queries |

What the source changes in place is a class whose methods are proved equal to a specification function of the
old state; what the source promises is then proved about those functions. Runs are sequences of small steps
over a state record, so that a crash or another message can fall between any two writes. SQL tables are maps,
transactions are atomic, and failures, clocks, random values and command results are parameters of the steps.

## Main results

- Traffic. In every run what the kernel counted is what is booked, plus what is still owed, plus losses that
  only resets, rebuilds and overtaken baselines cause, each exactly known (`KernelRuns.CountedIsAccounted`).
  Whatever fails, the manager holds no more than was issued; as long as no restart falls behind the issued
  sequences, traffic is conserved under any network and any crash, cumulative acks delete only what is booked,
  and one undisturbed round catches up from anywhere (`SyncProtocol`). Composed, the manager's total
  is the kernel's count less those losses plus the surplus (`EndToEnd.KernelReachesManager`); without a
  surplus it is exactly the kernel's count if and only if no step lost anything (`EndToEnd.ExactlyTheKernel`).
- Nodes. Under every interleaving a node in a pending status has something left that will settle it, so a
  sweep after two quiet timeouts leaves none (`NodeLifecycle`).
- Configuration. config.json and nodes.json agree over every orderly run of edits and applications, whatever
  fails in them and wherever the agent dies (`NodeService.AgreementInEveryRun`); what is not orderly and a
  missing nodes.json have their exact conditions.
- Rules. The two compilers count the same for every list and every packet trace, and for a valid list just
  the packets each node is to be charged for (`RuleCompilers.NodesAreCountedExactly`). A rebuilt configuration,
  read by sing-box's schema, gives back what every node record asks for (`Inbound.RebuiltServesTheNodes`).

Where a promise depends on something, the dependence is proved in both directions: the place of a crash
(`EndToEnd.CrashIsExact`), a baseline that cannot be read (`EndToEnd.UnreadBaselineIsExact`), all of a run
that can count bytes twice (`EndToEnd.OverCountIsExact`), a sequence that could not be saved or read
(`SyncProtocol.LostSaveIsExact`), a failed ingest (`SyncProtocol.FailedIngestIsExact`), two epoch tags
(`KernelRuns.SingleTagIsExact`), a counter that overtakes its baseline (`KernelRuns.OvertakingIsExact`), a task that cannot be
created, a job that is lost or a manager that dies
(`NodeLifecycle.FailedInsertIsExact`, `NodeLifecycle.LostJobIsExact`, `NodeLifecycle.RestartIsExact`), a missing
nodes.json, a failing rollback, a crash inside Apply or a half-written candidate pair
(`NodeService.RollbackIsExact`, `NodeService.UndoIsExact`, `NodeService.InterruptionIsExact`,
`NodeService.HalfWrittenPairIsExact`), a kept error (`Enforcement.StaleErrorIsExact`), a replaced connection
(`Gateway.PanicsIfReplaced`), a percent sign declared safe (`PyQuote.QuoteRoundTrip`). Beside each of
these conditions on runs a lemma reaches the failing side from a first start.

## Terms

- Issued: every delta ever written to traffic_pending. Surplus: per scope, what was issued without the
  baseline moving up by as much: when the agent dies between inserting a row and setting its baseline, when
  that write is lost, when a row is computed over a baseline that could not be read, or when a total falls
  below its baseline.
- Falling behind: a restart that resumes below an issued sequence. Orderly (protocol): connections keep their
  order, no restart falls behind, and no ingest fails harmfully. Clean: none of the first three causes of a
  surplus, an unread baseline of zero excepted. Careful: orderly, clean and with totals that only grow.
- Orderly (nodes): a handler's task can be created, unless the handler repairs or its node is not waiting for
  it. Orderly (configuration): each Apply, cut short or not, leaves both live files new or neither, or equal
  inbounds, and never installs a half-written candidate pair.
- Owed: what the next full tick would book from a counter. Missed: counted by the kernel, neither booked nor
  owed. Losses: the sum over a run of what each step adds to that, read off the state before the step.

## Where the code and its comments differ

The model follows the code. Apply is described as having a third result for a failed restart
(internal/agent/nodesvc/nodesvc.go:361-362) but only ever returns 0 or 1. Tasks for offline machines are
described as sent again later (internal/manager/tasks/dispatcher.go:37), but nothing sends them again: they
stay pending until the sweep. LastError is described as the reason the blocked set is not in force
(internal/agent/iplimit/iplimit.go:158); nil does mean it is in force, but an error can outlive its cause
(`Enforcement.StaleErrorIsExact`).

## Model

| member | source | states |
|---|---|---|
| Names.NodeNamesRoundTrip | internal/firewall/iptables.go:142-162 | Printing a node counter in either rule language, with any family suffix, parsing it and stripping the scope prefix gives back the decimal id and the direction |
| Names.SystemNamesRoundTrip | internal/firewall/iptables.go:142-162 | The same for the two system counters, which are charged to the scope "system" |
| Names.EpochNamesRoundTrip | internal/firewall/iptables.go:170-184 | An epoch tag printed in either language parses back to its 64-bit number |
| Names.EpochIsNoCounter | internal/firewall/iptables.go:164-184 | No name is both an epoch tag and a traffic counter |
| Names.CounterNamesSay | internal/firewall/iptables.go:142-162 | For every string: it is charged to a scope in a direction if and only if, before any family suffix, it is spelled sbx, a separator, sys or n and digits, a separator, and i or o |
| Names.IntTextRoundTrip | internal/nodes/store.go:299-315 | An integer printed parses back to itself if and only if it fits 64 bits; a plus sign is allowed |
| Names.NodeOfInjective | internal/agent/trafsync/trafsync.go:179-182 | Two scopes reported under the same node id are the same scope, so the manager never merges two |
| Collector.Collector.Difference | internal/traffic/collector.go:325-385 | The differencing loop, for every order of the snapshot's names, yields the declarative per-scope sums, the largest duration, the conjunction of trust and the presence of each direction |
| Collector.Collector.Tick | internal/traffic/collector.go:264-389 | One round in full: a failed reading, baselines that cannot be read while they matter, a snapshot of the known epoch lacking a baselined counter, or a failed commit changes nothing; otherwise exactly the booked tables result; an epoch that cannot be read counts as none |
| Collector.AllReadIsTicked | internal/traffic/collector.go:283-320 | With the epoch and the baselines readable a round is the transition the runs of KernelRuns use |
| Collector.Collector.CommitTick | internal/traffic/collector.go:178-259 | The scope-by-scope transaction equals booking all moved scopes at once in totals and daily, sampling the trusted ones, and rewriting baselines, epoch and sample window |
| Collector.SlotStep | internal/traffic/collector.go:368-380 | Reading one more counter changes its own scope's slot by that counter's contribution and no other slot |
| Collector.SampledIsTrusted | internal/traffic/collector.go:340-385 | A rate sample is written exactly when both directions were read and every counter of the scope had a baseline of this ruleset, had not gone back and was read in the expected interval; the positive-duration test never decides |
| Collector.TickBooksItsDay | internal/traffic/collector.go:204-219 | An accepted tick adds to its own day just what it adds to the totals, scope by scope and column by column, and leaves every other day alone |
| Collector.SamplesFollowTotals | internal/traffic/collector.go:212-226 | A sampled scope's sample of the tick's second grows by what the scope's totals grew by and lasts as long as its longest contribution; other scopes keep theirs; of the other seconds just the last 120 stay; the second is the clock's, or the one after the last sample |
| Collector.SecondTickSamples | internal/traffic/collector.go:228-251 | Of two accepted ticks the second samples a scope if and only if it sees both directions under the same ruleset and every counter of the scope was in the first snapshot, has not gone back, and was read again between a quarter and three intervals and half a second later |
| Collector.FirstEpochIsTheFirst | internal/firewall/iptables.go:187-194 | The epoch of a snapshot is that of the first tag met, and none only if there is no tag |
| KernelRuns.FreshnessIsRight | internal/traffic/collector.go:283-312 | An accepted tick starts from fresh baselines exactly when the installed ruleset is not the one the baselines belong to, and leaves the new epoch with a baselined tag |
| KernelRuns.TickTakesAll | internal/traffic/collector.go:340-365 | An accepted tick books from every counter it reads exactly what that counter owes, and leaves every other counter owing what it did |
| KernelRuns.TickMissesNothing | internal/traffic/collector.go:264-390 | No tick, accepted or not, changes what is missed: counted by the kernel but neither booked nor still owed; totals never fall |
| KernelRuns.UnreadTablesBookNothingElse | internal/traffic/collector.go:283-320 | A round that cannot read the epoch or the baselines books either exactly what it would have booked with them, or nothing |
| KernelRuns.MissedStep | internal/traffic/collector.go:325-365 | What is missed grows at each step by exactly that step's loss, which is never negative: nothing for a tick, what a reset counter owed, all that was owed at a rebuild, and for traffic nothing unless a reset left the counter below its baseline |
| KernelRuns.LossesAddUp | internal/traffic/collector.go:325-365 | Over every run of the kernel and the collector, what is missed grows by exactly the sum of the losses of its steps, in bytes and in packets |
| KernelRuns.CountedIsAccounted | internal/traffic/collector.go:264-390 | From a fresh machine, in every run, what the kernel counted for a scope is what is booked, plus what is still owed, plus the losses of the run |
| KernelRuns.OvertakingIsExact | internal/traffic/collector.go:353-365 | Traffic loses bytes if and only if a counter climbs past its old baseline after a reset before a tick has seen it low, and then exactly as many as the baseline; the packets it loses under theirs are exact too |
| KernelRuns.OvertakingIsReached | internal/traffic/collector.go:353-365 | Count, tick, reset, count: four steps of a fresh machine and one more byte, which is missed |
| KernelRuns.NeverOverCounts | internal/traffic/collector.go:264-390 | In every run of traffic, resets, rebuilds, failed and partial readings, no scope is booked more bytes or packets than the kernel counted for it, in either direction |
| KernelRuns.TickCannotOverflow | internal/traffic/collector.go:325-385 | While the kernel's true counts fit 63 bits, the old total plus what is taken from any part of the counters read does too |
| KernelRuns.Telescoping | internal/traffic/collector.go:291-365 | Between two full accepted ticks with no reset or rebuild, totals grow by exactly the difference of the two snapshots, whatever failed, rejected or partial ticks fall between |
| KernelRuns.BaselinesAreKept | internal/traffic/collector.go:228-257 | Within one epoch no counter loses its baseline, and a snapshot without any tag is never booked over tagged baselines |
| KernelRuns.RunKeepsInv | internal/traffic/collector.go:283-312 | Every run keeps: one epoch tag installed, the recorded epoch's tag baselined, nothing booked or owed that was not counted |
| KernelRuns.DailyAgreesInEveryRun | internal/traffic/collector.go:153-219 | In every run totals equal the sum of daily over the days, however the day jumps |
| KernelRuns.TwoReadingsOverCount | internal/firewall/iptables.go:187-194 | With two different tags installed, two readings that meet them in different orders book the same bytes twice |
| KernelRuns.TwoTagsAreReached | internal/firewall/iptables.go:187-194 | A fresh machine reaches an unsafe installation with its first ruleset, and again with the second |
| KernelRuns.SingleTagIsExact | internal/firewall/iptables.go:187-194 | Installing a ruleset, over a recorded epoch or as the first, is safe in every continuation if and only if its epoch tags agree, or no epoch is recorded and a counter with a baseline is left out, so that every snapshot is turned away |
| Ledger.ManagerDb.IngestDelta | internal/manager/traffic/traffic.go:18-60 | One transaction: empty machine id and every failing statement report an error and publish nothing, a repeated sequence reports a duplicate and changes nothing, new data enters all three tables, the daily one under its own day |
| Ledger.ManagerDb.Lookup | internal/manager/db/schema.go:86-96 | The unique index finds exactly the stored machine and sequence pairs |
| Ledger.IngestKeepsBalance | internal/manager/traffic/traffic.go:28-59 | Every delivery keeps traffic_total and the sum of traffic_daily equal to the sum over the distinct events, with no event stored twice |
| Ledger.IngestFrame | internal/manager/traffic/traffic.go:18-60 | A delivery from one machine leaves every other machine's total and daily balances alone |
| Ledger.IngestCreditsItsDay | internal/manager/traffic/traffic.go:45-57 | An accepted delivery adds its bytes to the row of its own day and to the total, for its own machine and node, and changes no other row and no other day; anything else changes nothing |
| Ledger.DuplicateIsExact | internal/manager/traffic/traffic.go:21-43 | A delivery is reported as a duplicate if and only if it names a machine, the transaction opens, the insertion does not fail for another reason, and an event of its machine and sequence is stored |
| Ledger.DayHoldsItsDeliveries | internal/manager/traffic/traffic.go:28-57 | After any list of deliveries from opened ledgers, the balance of a day, machine and node is the sum of those deliveries of that day that were the first of their machine and sequence |
| Ledger.DeliveryOrderIrrelevant | internal/manager/traffic/traffic.go:28-59 | Deltas delivered in any order, with any repetitions and on any days leave the sum over the distinct ones |
| TrafficSync.Sync.ComputeDeltas | internal/agent/trafsync/trafsync.go:137-201 | The loop over scopes, for every outcome of its reads and writes: clamped increases over the baseline read, or over zero if it cannot be read, a fresh sequence whether or not it is saved, one pending row and, if its write succeeds, the new baseline per scope, stopping at a row that cannot be inserted |
| TrafficSync.Sync.FlushPending | internal/agent/trafsync/trafsync.go:204-246 | Sends every pending row once in ascending sequence order, or a prefix of that if the connection stops taking them |
| TrafficSync.Sync.OnAck | internal/agent/trafsync/trafsync.go:250-257 | An accepted ack of this machine deletes exactly the rows up to its sequence; any other ack, or a failed deletion, changes nothing |
| TrafficSync.Sync.constructor | internal/agent/trafsync/trafsync.go:78-84 | A restart resumes from the stored tables and the persisted sequence, or from zero if that cannot be read |
| TrafficSync.OrderedFacts | internal/agent/trafsync/trafsync.go:204-207 | The selected order lists every pending sequence once, ascending |
| TrafficSync.ComputeAllSucceeds | internal/agent/trafsync/trafsync.go:184-195 | With no pending row above the sequence in use, computeDeltas never fails to insert |
| TrafficSync.GoodIsComputeAll | internal/agent/trafsync/trafsync.go:137-201 | With every read and write succeeding the loop is the transition of an undisturbed round |
| SyncProtocol.RunKeepsBounded | internal/agent/trafsync/trafsync.go:135-257 | Over every run, with crashes at any write, failing reads and writes, restarts that fall behind and any network behaviour: pending rows, messages and booked events are issued ones, and no more was issued for a scope than its baseline, its surplus and the row in hand come to |
| SyncProtocol.RunKeepsSound | internal/agent/trafsync/trafsync.go:135-257 | As long as restarts resume at or above the issued sequences, what was issued for a scope is exactly its baseline plus its surplus plus the row in hand, and no two deltas share a sequence |
| SyncProtocol.ManagerNeverExceedsIssued | internal/manager/traffic/traffic.go:28-60 | Whatever is lost, repeated, reordered or fails, the manager's total is at most what was issued, which is at most the baseline plus the surplus plus the row in hand, and exactly that if no restart falls behind |
| SyncProtocol.SequencesNeverReused | internal/agent/trafsync/trafsync.go:78-90 | Over any number of crashes and restarts that resume at or above what was issued, later issued sequences exceed all earlier ones; with the saves and loads succeeding they stay within the persisted sequence |
| SyncProtocol.SavedRunIsSteady | internal/agent/trafsync/trafsync.go:78-90 | If every sequence can be saved and every restart can read it, no restart falls behind |
| SyncProtocol.LostSaveIsExact | internal/agent/trafsync/trafsync.go:78-90 | A restart keeps acks safe and traffic conserved in every orderly continuation if and only if it resumes at or above every issued sequence, whether it resumes from the persisted sequence or, unable to read it, from zero |
| SyncProtocol.LostSaveLosesBytes | internal/agent/trafsync/trafsync.go:78-90 | Otherwise a continuation draws an issued sequence again; the delta is acknowledged as a duplicate and deleted, and its bytes are behind the baseline, not pending and not at the manager |
| SyncProtocol.SaveDecides | internal/agent/trafsync/trafsync.go:184-195 | After a row has been inserted a restart that reads its sequence resumes safely if and only if that row's sequence was saved, or the saved one was ahead already |
| SyncProtocol.RowsTellTheirDraw | internal/agent/trafsync/trafsync.go:168-190 | Every delta a run issues bears the node of the scope and, as start and end, the time of the step that drew its sequence |
| SyncProtocol.LostSaveIsReached | internal/agent/trafsync/trafsync.go:78-90 | From the start: a sequence not saved, its row inserted, delivered, acked and deleted, a crash, the sequence drawn again, bytes gone |
| SyncProtocol.StepKeepsStrong | internal/agent/trafsync/trafsync.go:203-257 | Every orderly step keeps: nothing unbooked has left pending, everything issued before a queued delta is booked or ahead of it, and accepted acks tell the truth |
| SyncProtocol.AcksAreSafe | internal/agent/trafsync/trafsync.go:248-257 | In every orderly run a cumulative ack deletes only rows the manager has booked |
| SyncProtocol.FailedIngestIsExact | internal/manager/gateway/gateway.go:311-322 | A failed ingest is harmless, over all orderly continuations, if and only if the delta is booked already or nothing newer stands before its repetition in the queue |
| SyncProtocol.HarmfulIngestLoses | internal/manager/gateway/gateway.go:311-322 | Otherwise delivering the rest of the queue and returning the acks deletes the failed row unbooked |
| SyncProtocol.HarmfulIngestIsReached | internal/manager/gateway/gateway.go:311-322 | An orderly run from the start reaches a delivery whose failure is harmful: two rows in the queue, the first one failing |
| SyncProtocol.TrafficIsConserved | internal/agent/trafsync/trafsync.go:135-257 | Conservation: in every orderly run a scope's baseline plus surplus plus row in hand equals the manager's total plus the pending rows it has not booked |
| SyncProtocol.ComputeAllWithIsRun | internal/agent/trafsync/trafsync.go:137-201 | Whatever its reads and writes answer, the uninterrupted method is an orderly run of protocol steps |
| SyncProtocol.ComputeAllIsRun | internal/agent/trafsync/trafsync.go:137-201 | With all of them succeeding it keeps every invariant and brings every visited scope's baseline level with its total |
| SyncProtocol.DrainEmpties | internal/agent/trafsync/trafsync.go:204-257 | One undisturbed exchange on a new connection empties the pending table |
| SyncProtocol.OneRoundCatchesUp | internal/agent/trafsync/trafsync.go:116-133 | From every state an orderly run can reach, one undisturbed round leaves pending empty and the manager's total equal to the agent's total plus the surplus |
| Gateway.Server.Register | internal/manager/gateway/gateway.go:189-199 | A new connection becomes its machine's own and closes the one it replaces |
| Gateway.Server.Unregister | internal/manager/gateway/gateway.go:201-209 | An ended connection leaves the table only if it is still its machine's own; closing its channel again panics |
| Gateway.Server.DispatchDelta | internal/manager/gateway/gateway.go:311-322 | The delta is ingested first and the ack carries the ledger's verdict, duplicates counting as accepted; a full write queue drops only the ack |
| Gateway.Server.SendToMachine | internal/manager/gateway/gateway.go:250-271 | A message goes to the machine's current connection if it has one and its queue has room |
| Gateway.OnlineIsLatest | internal/manager/gateway/gateway.go:189-209 | For every order of connects and disconnects a machine is reached by exactly its last registered connection, for as long as that one has not ended |
| Gateway.PanicsIfReplaced | internal/manager/gateway/gateway.go:189-209 | Ending a connection closes its channel a second time if and only if the machine has reconnected in the meantime |
| Gateway.ReconnectingPanics | internal/manager/gateway/gateway.go:189-209 | Two registrations of one machine followed by the end of the first connection close its channel twice |
| EndToEnd.ManagerNeverExceedsKernel | internal/traffic/collector.go:264-390 | Collector and protocol composed: in every run, failing reads and writes and restarts that fall behind included, the manager never holds more bytes for a scope than the kernel counted, up to the surplus |
| EndToEnd.CleanManagerNeverExceedsKernel | internal/agent/trafsync/trafsync.go:184-198 | Without a crash or lost write between a pending row and its baseline, and without a row computed over an unread baseline other than zero, there is no surplus, so the manager never exceeds the kernel, crashes elsewhere included |
| EndToEnd.KernelReachesManager | internal/agent/trafsync/trafsync.go:116-133 | After any orderly history, one full tick and one undisturbed round leave at the manager precisely the kernel's count, less the losses of that history's resets, rebuilds and overtaken baselines, plus the surplus |
| EndToEnd.ExactlyTheKernel | internal/agent/trafsync/trafsync.go:116-133 | After an orderly history that leaves no surplus, the manager then holds exactly the kernel's count if and only if no step of the history lost anything: no reset of a counter that owed, no rebuild while something was owed, no baseline overtaken |
| EndToEnd.UndisturbedReachesManager | internal/agent/trafsync/trafsync.go:116-133 | In particular, with one ruleset installed and no reset since, the manager holds exactly the kernel's count, whatever readings, ticks, messages and connections failed on the way |
| EndToEnd.OverCountIsExact | internal/agent/trafsync/trafsync.go:137-201 | Over every orderly run from the start in which totals only grow: a careful continuation can make the manager count bytes twice if and only if in the run the agent died between a row and its baseline, a baseline was not stored, or a row computed over an unread baseline other than zero was inserted |
| EndToEnd.CrashIsExact | internal/agent/trafsync/trafsync.go:190-198 | A crash, whatever sequence the restart resumes from, can make the manager count bytes twice in some careful continuation if and only if it falls between the insertion of a row and the writing of its baseline |
| EndToEnd.UnreadBaselineIsExact | internal/agent/trafsync/trafsync.go:260-272 | Inserting the row computed for a scope can make the manager count bytes twice in some careful continuation if and only if the baseline could not be read and is not zero |
| EndToEnd.UnreadIsReached | internal/agent/trafsync/trafsync.go:260-272 | One clean round from the start reaches a baseline that, unread, makes a careful continuation count bytes twice |
| EndToEnd.DoubleCountIsReached | internal/agent/trafsync/trafsync.go:190-198 | A tick, a sequence and a row from the start reach such a crash, and a careful continuation then counts the bytes twice |
| NodeLifecycle.Manager.Dispatch | internal/manager/tasks/dispatcher.go:38-67 | A dispatch inserts a pending task and marks it sent if the machine took it; a task that cannot be created leaves nothing |
| NodeLifecycle.Manager.HandleCreateNode | internal/manager/api/handlers_nodes.go:88-110 | Places the node as provisioning and dispatches; a failed dispatch turns it to create_failed |
| NodeLifecycle.Manager.HandleUpdateNode | internal/manager/api/handlers_nodes.go:139-194 | Sets update_pending and dispatches; a failed dispatch turns it to config_error; an unknown node changes nothing |
| NodeLifecycle.Manager.HandleDeleteNode | internal/manager/api/handlers_nodes.go:205-222 | Sets delete_pending and dispatches, with no repair |
| NodeLifecycle.Manager.NodeAction | internal/manager/api/handlers_nodes.go:296-313 | Enable and disable set update_pending and dispatch, with no repair; a restart changes no status |
| NodeLifecycle.Manager.UpdateStatus | internal/manager/nodes/nodes.go:141-151 | Moves the status only from the expected one, and says whether it did |
| NodeLifecycle.Manager.MarkSent | internal/manager/tasks/tasks.go:86-91 | Only a pending task becomes sent, with the time of sending and one more attempt |
| NodeLifecycle.Manager.Complete | internal/manager/tasks/tasks.go:94-100 | Only a live task is completed; finished ones keep their result |
| NodeLifecycle.Manager.HandleNodeTaskResult | internal/manager/api/handlers_nodes.go:453-495 | The status changes each kind of task makes, conditional except for a creation with a local id and a successful deletion |
| NodeLifecycle.Manager.HandleTaskResult | internal/manager/tasks/dispatcher.go:77-94 | Completes the task if live and, even for a late or repeated result, fires the callback |
| NodeLifecycle.Manager.SweepTimeout | internal/manager/tasks/dispatcher.go:112-150 | Times out exactly the selected tasks that are still live, each with its callback |
| NodeLifecycle.LocalIdRoundTrip | internal/manager/api/handlers_nodes.go:500-509 | The agent's "node_id=N" gives back N, whatever words follow |
| NodeLifecycle.FirstIdWins | internal/manager/api/handlers_nodes.go:500-509 | Of any words the first that is node_id= and a 64-bit number decides, whatever stands before and after; without one the id is 0 |
| NodeLifecycle.CreationBringsItsId | internal/manager/api/handlers_nodes.go:453-465 | A creation reported with an id makes its node active under that id and changes nothing else |
| NodeLifecycle.LocalIdsAreReported | internal/manager/api/handlers_nodes.go:453-465 | In every run a node's local id is the one it had, 0 for a new node, or one that the report of its successful creation brought |
| NodeLifecycle.HandlersCompleteAsAsked | internal/manager/api/handlers_nodes.go:453-495 | Status by status for every kind of task: what its node waits in, what a success, a failure or a timeout makes of it, and what is left if the task cannot be created |
| NodeLifecycle.StepKeepsInv | internal/manager/api/handlers_nodes.go:453-495 | Every interleaved step of handlers, results, sweeps and callbacks keeps: a node in a pending status has a live task of a matching type, or a job about to create, repair or report one |
| NodeLifecycle.NodesConverge | internal/manager/tasks/dispatcher.go:77-150 | Once every live task is swept or reported on, in any interleaving with late, repeated and overlapping results, and the jobs are done, no node is left waiting |
| NodeLifecycle.SweepConverges | internal/manager/tasks/dispatcher.go:112-150 | After any orderly history at rest, if no live task was created or sent within the last two timeouts, one sweep leaves no node in a pending status |
| NodeLifecycle.SweepSettlesExactly | internal/manager/tasks/dispatcher.go:131-149 | In whatever order it visits its tasks, a sweep leaves waiting exactly the nodes none of them covered |
| NodeLifecycle.SweepSparesRecent | internal/manager/tasks/dispatcher.go:112-124 | Finished tasks, tasks pending for less than two timeouts and tasks sent less than one ago are left as they are |
| NodeLifecycle.DispatchedIsSweptOnTime | internal/manager/tasks/dispatcher.go:38-67 | In the caller's times: a task just dispatched is selected by a sweep at t if and only if t is past the dispatch by more than one timeout if the machine took it, and by more than two if it was offline |
| NodeLifecycle.RowsTellTheirHistory | internal/manager/tasks/tasks.go:65-100 | In every run from the empty database a task's row tells its history: created when its Insert step ran, sent when and as often as its Mark step found it pending, finished with the result and the time of the step that ended it |
| NodeLifecycle.SweepIsOnTime | internal/manager/tasks/dispatcher.go:112-124 | Over every run from the empty database a live task is selected by a sweep if and only if the step that sent it is more than one timeout ago or, never sent, the step that created it more than two |
| NodeLifecycle.TasksMoveForward | internal/manager/tasks/tasks.go:86-100 | A task keeps its node and kind, never moves back, and never changes once finished |
| NodeLifecycle.FailedInsertIsExact | internal/manager/api/handlers_nodes.go:214-222 | A task that cannot be created leaves every node settled at the end of all orderly continuations if and only if the handler repairs, its node does not wait, or another task or job is sure to move the node on |
| NodeLifecycle.FailedInsertCanStrand | internal/manager/api/handlers_nodes.go:214-222 | With a deployed node whose deletion task cannot be created not every orderly continuation settles the nodes |
| NodeLifecycle.DeployedIsReached | internal/manager/api/handlers_nodes.go:88-110 | Creating a node from an empty database, with every step in order, reaches that deployed node |
| NodeLifecycle.ConvergenceIsExact | internal/manager/tasks/dispatcher.go:77-150 | Every orderly continuation that ends all tasks and jobs settles every node if and only if no waiting node is abandoned by all of them |
| NodeLifecycle.RestartIsExact | internal/manager/tasks/dispatcher.go:77-150 | When the manager dies with all its jobs, the nodes still settle in every orderly continuation if and only if each waiting node has a live task of a matching kind in the database |
| NodeLifecycle.RestartCanStrand | internal/manager/tasks/dispatcher.go:77-94 | A node's first creation, its task inserted and completed: the manager's death before reporting the completion leaves the node provisioning and not every orderly continuation settles it; losing just that report is the same |
| NodeLifecycle.LostJobIsExact | internal/manager/tasks/dispatcher.go:77-94 | Losing one job, as when its read or its status update fails, leaves every node settled at the end of all orderly continuations if and only if the job would not have moved its node on, or something else is sure to |
| NodeLifecycle.StrandedStays | internal/manager/tasks/dispatcher.go:112-150 | A waiting node without live task or job keeps its status through every sweep until someone touches it or an old result is repeated |
| NodeLifecycle.ClaimsAreConfirmed | internal/manager/api/handlers_nodes.go:453-495 | A node newly shown as active, disabled or deleted has had a matching task confirmed by the agent in that run |
| NodeLifecycle.SuccessIsShown | internal/manager/api/handlers_nodes.go:453-495 | Reported on while it waits for that kind of task, a node shows what the task was for if and only if the task succeeded, and otherwise create_failed or config_error |
| NodeLifecycle.CallBackIsGuarded | internal/manager/api/handlers_nodes.go:453-495 | A completion changes a node if and only if it waits for that kind of task, or the task is a creation with a local id or a successful deletion; other nodes keep their rows |
| NodeLifecycle.SweepOneIsRun | internal/manager/tasks/dispatcher.go:131-149 | The sweep's loop body is a sweep step followed by its callback |
| NodeLifecycle.ReportedIsRun | internal/manager/tasks/dispatcher.go:77-94 | Handling a result is a result step followed by its callback |
| NodeLifecycle.DispatchIsRun | internal/manager/tasks/dispatcher.go:38-67 | A dispatch is the corresponding steps of its job, undisturbed |
| NodeLifecycle.FailedDispatchIsRun | internal/manager/api/handlers_nodes.go:102-110 | A dispatch whose task cannot be created is its job's failing insert followed, where the handler repairs, by the repair |
| Inbound.ValidateNodes | internal/nodes/store.go:342-370 | Accepts a list if and only if ids are positive, ports in range, types known, and no id or port occurs twice |
| Inbound.ValidListSays | internal/nodes/store.go:342-370 | That is, in the records' own fields: id a number above 0, port a number from 1 to 65535, one of the five types, no two ids and no two ports the same |
| Inbound.NumbersAsText | internal/nodes/store.go:299-315 | A number may come as text, with a sign and blanks around it; text outside 64 bits is none |
| Inbound.InboundServesItsNode | internal/nodes/inbound.go:36-114 | Read back by sing-box's schema, the inbound of every valid node gives the record's own type, port, credentials, server name, certificate and key files or reality keys, method, version and mode, with the stated defaults, its tag, and no other key |
| Inbound.ValidBuilds | internal/nodes/inbound.go:36-106 | Every validated node has an inbound |
| Inbound.RebuildConfig | internal/nodes/inbound.go:118-174 | The loops over inbounds and nodes, with every error path, compute the rebuilt configuration |
| Inbound.RebuildFailsExactly | internal/nodes/inbound.go:118-174 | For every configuration and list: a rebuild fails if and only if the configuration is no object, inbounds is there and no array of objects, route is there and no object, or a record has no readable port or none of the five types |
| Inbound.RebuiltServesTheNodes | internal/nodes/inbound.go:134-159 | In a rebuilt configuration the foreign inbounds stand first, each as it was and in their order, then one inbound per node in which a server reads what that node's record asks for |
| Inbound.RebuiltDefaults | internal/nodes/inbound.go:159-174 | Everything else stays; only missing outbounds, route and final outbound get their default |
| Inbound.RebuildReplacesOnlyOwned | internal/nodes/inbound.go:12-33 | A rebuild keeps foreign inbounds, in order, and other settings; the owned ones become those of the list, each under its node's tag, no tag twice |
| Inbound.RebuildAbsorbs | internal/nodes/inbound.go:118-174 | Rebuilding a rebuilt configuration gives what rebuilding the original would, errors included |
| NodeService.Service.NextID | internal/nodes/store.go:253-273 | Returns one past the largest id stored or in use and stores it, as far as the write takes effect |
| NodeService.Service.WriteCandidates | internal/agent/nodesvc/nodesvc.go:213-237 | Validates, rebuilds for the enabled nodes and writes both candidates, the second only after the first is fully done |
| NodeService.Service.AddNode | internal/agent/nodesvc/nodesvc.go:129-152 | Adds under a new id with default name and certificates; every failure leaves the live files alone |
| NodeService.Service.RemoveNode | internal/agent/nodesvc/nodesvc.go:155-173 | Writes the candidates without the first node of that id, or reports it missing |
| NodeService.Service.ReplaceNode | internal/agent/nodesvc/nodesvc.go:240-270 | Writes the candidates with the node of that uuid replaced |
| NodeService.Service.SetEnabled | internal/agent/nodesvc/nodesvc.go:273-295 | Writes the candidates with the node's disabled mark set or removed |
| NodeService.Service.Apply | internal/agent/nodesvc/nodesvc.go:363-426 | Check, backups, two swaps, restart and health check, with a rollback at each failure after the backups |
| NodeService.Service.Rollback | internal/agent/nodesvc/nodesvc.go:429-440 | Copies back what was backed up, each copy taking effect, failing or leaving a broken file, and throws the candidates away unless their removal fails |
| NodeService.ApplyIsAtomic | internal/agent/nodesvc/nodesvc.go:363-440 | With both files present, Apply returns 0 if and only if every answer is good, then both files are new; otherwise it returns 1, and both are the old ones provided the rollback's copies take effect |
| NodeService.AgreementInEveryRun | internal/agent/nodesvc/nodesvc.go:127-295 | With nodes.json present at the start, over every run of edits and applications, successful, failed or cut short by a crash, the owned inbounds of the live configuration are those of the enabled nodes of the live nodes.json, as long as each Apply leaves both live files new or neither, or equal inbounds; candidates may be half written, as long as such a pair is not installed |
| NodeService.RollbackIsExact | internal/agent/nodesvc/nodesvc.go:383-391 | A failing Apply keeps agreement if and only if nodes.json existed on entry, or its replacement had not taken effect, or the new list enables no node |
| NodeService.RollbackCanDisagree | internal/agent/nodesvc/nodesvc.go:383-391 | The first node of a machine without nodes.json reaches the failing case: a failed restart leaves its list without its inbound |
| NodeService.UndoIsExact | internal/agent/nodesvc/nodesvc.go:429-440 | A failing Apply whose rollback may fail too keeps agreement if and only if it failed before its backups were complete, or no copy mangled its file and, besides, both files were left swapped or neither was, or the new list yields the old inbounds |
| NodeService.ApplyIsItsActs | internal/agent/nodesvc/nodesvc.go:363-440 | The copies, renames and removals of Apply, one after the other, are Apply |
| NodeService.InterruptionIsExact | internal/agent/nodesvc/nodesvc.go:363-440 | An Apply that dies after any of its acts, in its rollback too, or in the middle of a copy keeps agreement if and only if no copy over a live file broke off and both live files are new or neither is, or the new list yields the old inbounds |
| NodeService.InterruptionCanDisagree | internal/agent/nodesvc/nodesvc.go:383-440 | Adding a first node and applying it reach deaths between the two swaps, between the two copies back and inside either copy that leave a disagreeing pair |
| NodeService.UndoCanDisagree | internal/agent/nodesvc/nodesvc.go:429-440 | So does a failed restart whose rollback cannot copy nodes.json back |
| NodeService.HalfWrittenPairIsExact | internal/agent/nodesvc/nodesvc.go:228-236 | If only the first candidate is written, applying later keeps agreement if and only if the list it is then paired with yields the same inbounds as the edited one |
| NodeService.HalfWriteCanDisagree | internal/agent/nodesvc/nodesvc.go:228-236 | An empty node list, one addition whose second candidate is not written and a smooth Apply reach the failing case |
| NodeService.AddAppends | internal/agent/nodesvc/nodesvc.go:129-152 | A successful addition appends the node to the candidate list and its inbound, unless disabled, to the owned ones; foreign inbounds stay |
| NodeService.RemoveRemoves | internal/agent/nodesvc/nodesvc.go:155-173 | A successful removal takes out the node with that id and no other |
| NodeService.ToggleSetsTheMark | internal/agent/nodesvc/nodesvc.go:273-295 | A successful toggle changes that node's mark as asked and nothing else |
| NodeService.ReplacementKeepsIdentity | internal/agent/nodesvc/nodesvc.go:254-264 | A replacement keeps the local id, the disabled mark and, if it brings none, the name |
| NodeService.AddedRecord | internal/agent/nodesvc/nodesvc.go:129-152 | A new node's record key by key: the new id, its own name or one of its type and id, the machine's certificate and key for trojan and anytls, everything else as it came |
| NodeService.ReplacedRecord | internal/agent/nodesvc/nodesvc.go:254-270 | A replaced node's record key by key: the older id, the older name if it brings none, the older disabled mark, the certificate of the new type, everything else as it came |
| NodeService.ReplaceReplaces | internal/agent/nodesvc/nodesvc.go:240-270 | A successful replacement takes the place of the first node with that node_uuid, and there is none to replace if and only if no node has it |
| NodeService.NextIdIsFresh | internal/nodes/store.go:253-273 | Short of 64-bit exhaustion a new id exceeds every id in use and every id handed out |
| NodeService.NextIdIsOnePastTheTop | internal/nodes/store.go:253-273 | For every state and list the new id is one past the largest of the cursor and the readable ids, at least 1, wrapping after the last 64-bit number |
| NodeService.IdsAreNeverRecycled | internal/nodes/store.go:251-273 | Whatever happens between two additions, removals included, the later id is larger |
| NodeService.RemoveUndoesAdd | internal/agent/nodesvc/nodesvc.go:155-173 | Removing the node just appended gives the old list back |
| NodeService.EnableUndoesDisable | internal/agent/nodesvc/nodesvc.go:273-295 | Enabling a node that was disabled gives the old list back |
| NodeService.DisabledIsInactive | internal/agent/nodesvc/nodesvc.go:217-223 | Switching a node off takes just that node out of the active list |
| RuleCompilers.GenNFT | internal/firewall/rules.go:12-72 | The nft table: counters, and both chains rule by rule, nodes without a valid port skipped |
| RuleCompilers.GenIPTables | internal/firewall/rules.go:76-129 | Both iptables chains, epoch and loopback rules first, one rule per node, range and protocol |
| RuleCompilers.ReadOne | internal/firewall/iptables.go:46-77 | Sums the listed counters per comment and family, epoch tags without counts; None only if neither chain could be listed |
| RuleCompilers.Iptables.Read | internal/firewall/iptables.go:79-120 | A family read once must be read in every later successful reading while its command is installed, otherwise the whole reading is refused; a reading is the merge of just the families read |
| RuleCompilers.NftMeans | internal/firewall/rules.go:47-69 | Per packet, the nft chain counts for a scope exactly what the packet is worth to it |
| RuleCompilers.IptMeans | internal/firewall/rules.go:93-116 | Per packet, the iptables chain counts for a scope exactly what the packet is worth to it |
| RuleCompilers.NftRunCounts | internal/firewall/rules.go:12-72 | After every trace each nft counter holds the worth of the packets to its scope |
| RuleCompilers.IptRunCounts | internal/firewall/rules.go:76-129 | After every trace the rules bearing a scope's comment in one family hold the worth of that family's packets |
| RuleCompilers.ReadBackFacts | internal/firewall/iptables.go:46-77 | Reading a family back sums its chains per comment, and only names of ours occur |
| RuleCompilers.ReadBackIsRead | internal/firewall/iptables.go:46-77 | The listing of a family's rules, read by ReadOne, gives the sums its two chains hold |
| RuleCompilers.ChargedIsChargeable | internal/firewall/iptables.go:142-162 | Only "system" and decimal node scopes are ever charged |
| RuleCompilers.BackendsAgree | internal/firewall/rules.go:12-129 | For every node list with decimal ids and every trace of packets, both backends, iptables as listed and read back per family and merged, show the same bytes and packets for every scope and direction, namely the packets' worth |
| RuleCompilers.ValidIdsAreDecimal | internal/nodes/store.go:342-370 | Validated lists have decimal ids |
| RuleCompilers.NodesWithinSystem | internal/firewall/rules.go:47-69 | With a validated list the node counters of a direction sum to at most its system counter |
| RuleCompilers.PacketIsCountedIfDue | internal/nodes/store.go:373-397 | In either ruleset a packet adds its size, or one, to a node's own counter if and only if it is off the loopback interface, on the node's port, and tcp, or udp for a shadowsocks or snell node |
| RuleCompilers.NodesAreCountedExactly | internal/firewall/rules.go:12-129 | After every trace both backends report for each node of a valid list the sum over just those packets of the direction |
| RuleCompilers.SystemIsCountedExactly | internal/firewall/rules.go:12-129 | And for the system the sum over all packets of the direction that are off the loopback interface |
| RuleCompilers.AnyRecordIsCounted | internal/nodes/store.go:373-397 | Of any record, valid or not, both rulesets count what its readable port and its type in lower case ask for; without a port from 1 to 65535 nothing |
| RuleCompilers.TableIsLoadable | internal/firewall/rules.go:12-27 | Every counter the nft rules name is declared in their table |
| RuleCompilers.EpochIsReadBack | internal/firewall/iptables.go:187-194 | After every trace a reading of either backend carries the epoch its ruleset was compiled with and no other, so the collector finds it in whatever order it meets the names |
| LoginThrottle.Throttle.Locked | internal/manager/api/hardening.go:57-68 | Reports a running lock; a lock seen to have ended is forgotten with the failures |
| LoginThrottle.Throttle.Fail | internal/manager/api/hardening.go:71-87 | Prunes in order, adds the failure and locks at the limit |
| LoginThrottle.Throttle.Reset | internal/manager/api/hardening.go:90-95 | Forgets failures and lock of one address |
| LoginThrottle.PrunedRefinesFull | internal/manager/api/hardening.go:57-95 | Under a monotone clock the pruned table has the same locks as the full history and the same recent failures at every later time, and never holds maxFails of them |
| LoginThrottle.LocksExactlyAtTheLimit | internal/manager/api/hardening.go:71-87 | A failure locks an address if and only if with it the full history since the last clearing has maxFails failures in the window |
| LoginThrottle.LockedIsExact | internal/manager/api/hardening.go:57-95 | In every run from the empty table under a monotone clock, in nanoseconds: an address is answered locked at a time if and only if a failure of it was the fifth within 600000000000 since the last clearing, no reset followed, and the time is before that failure's plus 600000000000 |
| LoginThrottle.OthersUnaffected | internal/manager/api/hardening.go:57-95 | No event changes another address's failures or lock |
| Enforcement.SortInPlace | internal/agent/iplimit/iplimit.go:208-213 | The in-place insertion sort yields an ordered permutation |
| Enforcement.SortedIPs | internal/agent/iplimit/iplimit.go:203-215 | The addresses of the set, each once, strictly ascending |
| Enforcement.LessIsLexicographic | internal/agent/iplimit/iplimit.go:203-215 | The order is that of the first differing character, a proper prefix coming first |
| Enforcement.TailIsSuffix | internal/agent/iplimit/iplimit.go:119-125 | What follows the first limit places of the sorted list are the addresses of rank at least limit, whatever the map order |
| Enforcement.BlockedIsRight | internal/agent/iplimit/iplimit.go:105-126 | An address is blocked if and only if, on the known port of some node with a limit above 0, at least that many active addresses come before it; each such node keeps at most its limit of unblocked addresses |
| Enforcement.IpEnforcer.Check | internal/agent/iplimit/iplimit.go:100-140 | One check decides that set and applies it only if it differs from the one applied last |
| Enforcement.SameSet | internal/agent/iplimit/iplimit.go:217-227 | The size-and-inclusion test is equality |
| Enforcement.SettledTracks | internal/agent/iplimit/iplimit.go:129-138 | In every run of working and failing applications the remembered set is the installed one |
| Enforcement.InForce | internal/agent/iplimit/iplimit.go:129-138 | After a check the decided set is installed if and only if it was already or its application worked; without a kept error it is |
| Enforcement.StaleErrorIsExact | internal/agent/iplimit/iplimit.go:129-138 | After any run, a check that finds its decided set in force still keeps an error if and only if that set was the remembered one and an error was kept already, or it was only the installed one and applying it again failed |
| Enforcement.ErrorIsTheLastOutcome | internal/agent/iplimit/iplimit.go:129-138 | The error kept after a run is the outcome of the last application in it |
| Enforcement.StaleError | internal/agent/iplimit/iplimit.go:158-159 | Two checks reach a stale error: it survives a return to the set still installed |
| Enforcement.QuotaEnforcer.SetLimit | internal/agent/quota/quota.go:55-63 | A new limit keeps the exceeded flag of an existing row |
| Enforcement.QuotaEnforcer.MarkExceeded | internal/agent/quota/quota.go:89-97 | Sets the flag of an existing row only |
| Enforcement.QuotaEnforcer.Check | internal/agent/quota/quota.go:194-231 | Decides the ports of the exhausted nodes, updates the flags where usage is known, and applies the set only if it changed; limits that cannot be read leave everything as it was |
| Enforcement.QuotaIsRight | internal/agent/quota/quota.go:194-231 | A port is closed if and only if a measured node using it has used up its quota, flags say so, and raising or lifting a quota opens the port unless another exhausted node uses it |
| Enforcement.RowsKeep | internal/agent/quota/quota.go:55-63 | A round changes nothing but flags of nodes with a quota and a known usage; a new limit changes that one limit and keeps the flag |
| PyQuote.Quote | internal/nodes/pyquote.go:10-24 | Byte by byte: unreserved and safe bytes stay, the rest become upper-case escapes |
| PyQuote.QuotePlus | internal/nodes/pyquote.go:31-47 | The same with a plus sign for a space |
| PyQuote.EachByteAsStated | internal/nodes/pyquote.go:10-47 | Wherever it stands a byte becomes itself if it is a letter, a digit, one of _.-~ or declared safe, and otherwise a percent sign and two upper-case digits; in a form a space becomes a plus sign |
| PyQuote.QuoteRoundTrip | internal/nodes/pyquote.go:10-24 | Percent-decoding undoes PyQuote on every byte string if and only if the percent sign is not declared safe |
| PyQuote.QuotePlusRoundTrip | internal/nodes/pyquote.go:31-47 | Form-decoding undoes PyQuotePlus on every byte string |
| PyQuote.EncodeQuery | internal/nodes/pyquote.go:76-82 | Joins the encoded pairs in order |
| PyQuote.QueryRoundTrip | internal/nodes/pyquote.go:76-82 | A query string parses back to its pairs, in order |
| PyQuote.EncodeQueryInjective | internal/nodes/pyquote.go:76-82 | Different lists of pairs have different query strings |

## Left out

- Concurrent synchronisation loops: OnConnect starts a loop per connection (cmd/sbx-agent/main.go:293-329). The protocol has one loop, and each flush goes out on one connection.
- Deltas sent under another machine's id: the gateway does not compare the id in a delta with its connection's, so the protocol assumes other connections carry other ids.
- The caches of rates and connection counts that Tick refreshes after the commit.
- KernelRuns.NeverOverCounts: assumes rulesets are installed with a single epoch tag; `KernelRuns.SingleTagIsExact` shows that this is needed.
- Integer width in the ledgers: totals are unbounded; `KernelRuns.TickCannotOverflow` shows 64 bits suffice while the kernel's counts do. Sequences and times are unbounded too. Ids are 64-bit.
- Inbound.RebuildConfig: fields of a node that hold arrays or objects count as empty strings, and floating-point numbers are literals with a zero test.
- EditNode, the node queries and share links, credentials and certificates: easy beside the edits that are modelled.
- RuleCompilers.GenNFT: rulesets are abstract syntax, not text, and the commands' listing is its parsed lines; the names inside are the printed strings.
- RuleCompilers.BackendsAgree: packets dropped by other chains and a family whose command is missing are not part of a trace.
- The slice that Fail filters in place (internal/manager/api/hardening.go:75-80): the list is rebuilt, so aliasing with the old slice is not captured.
- Enforcement.IpEnforcer.Check: a failed application is taken to install nothing, and the text of the nft set is not modelled.
- The gateway's handshake, challenges, heartbeats and queue capacity, the executor, HTTP routing, cookies, audit, enrolment and machine records.
- Wall-clock days, time zones, number formatting and rates.
