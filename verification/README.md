# pulse-conflux: a verified model

pulse-conflux hosts several agents in one process. Each reads a Redis stream through its own consumer group,
dispatches what it read under a bounded retry budget, acknowledges it, and reports lag and anomalies; a log agent
drains a list into period summaries, and periodic agents do housekeeping. This project models the parts of it that
carry state or arithmetic and proves what holds of every input, every history and every interleaving.

`dafny verify dfyconfig.toml` checks everything.

| files | what they hold |
|---|---|
| `consumer_group.dfy`, `consumer_group_safety.dfy`, `consumer_group_agents.dfy`, `consumer_group_theorems.dfy`, `consumer_group_lifecycle.dfy`, `consumer_group_resolution.dfy`, `consumer_group_progress.dfy` | the stream and its groups as a step system, its invariant, and the theorems over all runs |
| `stream_agent.dfy`, `stream_agent_runs.dfy`, `stream_agent_progress.dfy` | the stream agent's loops, its whole runs as runs of the protocol, and how fast they read a backlog |
| `reclaim.dfy`, `reclaim_complete.dfy`, `reclaim_exact.dfy` | the reclaim pass over one group, and exactly when it is complete |
| `stream_ids.dfy`, `lag.dfy` | stream ids as text, their comparison, and the lag reading that rests on it |
| `retry.dfy`, `dispatch.dfy` | the retry policy and the dispatcher |
| `anomaly.dfy`, `anomaly_rate.dfy`, `anomaly_ceiling.dfy`, `anomaly_history.dfy`, `anomaly_notices.dfy` | the anomaly detector |
| `aggregator.dfy`, `aggregator_groupby.dfy`, `aggregator_totals.dfy`, `envelope.dfy`, `log_drain.dfy`, `rfc3339.dfy`, `summary_ids.dfy` | the log aggregator, the log-drain agent and the identity of summaries |
| `supervisor.dfy`, `runner.dfy`, `periodic.dfy` | the supervised restart loop and the periodic agent's overlap guard |
| `text.dfy`, `agent_keys.dfy`, `config.dfy` | configuration of agents: keys, variables, group and consumer names |
| `prelude.dfy`, `decimals.dfy` | what several modules share, and numbers as decimal text |

## How the model reads the program

- Redis is an append-only log of entries with strictly increasing ids, a position up to which it was trimmed and, per
  group, a cursor and a pending list. An entry id is the rank of its `<ms>-<seq>` pair. Concurrency is a step system: a
  run is any sequence of steps, and a step whose guard fails changes nothing.
- What the world answers is a parameter: replies, times, jitter, cancellation, failures of XACK, XAUTOCLAIM and the
  notifier. Time is an integer number of nanoseconds; 0 is Go's zero time. int64 wrap-around is written out where a
  duration is doubled.
- Classes stand where the source updates an object in place (the aggregator and its maps, the detector, the stream
  agent, the reclaim task, the status record, the runner, the periodic agent, the log-drain agent). Every method is
  proved equal to a function of the old state, and the theorems are about those functions over all histories.

## What turned out not to hold, and exactly when it does

- `compareIDs` clamps each half of an id at 2^63 - 1. Above it two valid 64-bit ids can compare in reverse
  (`StreamIds.ClampReversesOrder`); `StreamIds.CompareIsLexExactly` states when the answer is Redis's order.
- The hourly ceiling is a tumbling window, so the promise of "no more than a configured maximum per hour" can be
  broken by two windows that meet. Any hour holds at most twice the maximum (`AnomalyRate.AtMostTwiceTheCeiling`), and the
  maximum itself is kept in every history exactly when that many cooldowns last an hour, or nothing may be sent
  (`AnomalyCeiling.CeilingHoldsExactly`). The defaults, 4 per hour and 30 minutes, keep it.
- No dispatch under a policy panics in its jitter, whatever the destination does, exactly under the bounds of
  `Retry.SafeBackoffExactly`, which depend on the number of attempts; `Retry.SafeForAllBudgetsExactly` gives those for
  every number. The time bound in the comment of `Do` holds with max(BackoffInitial, BackoffMax) per wait.
- The trim flag tells whether unread entries were lost ahead of the cursor exactly for the ids of
  `Lag.FlagTellsLossExactly`. For ids below 2^63 - 1 it fails only by a false alarm, with the cursor between the last
  trimmed and the first surviving entry, as in a fresh group. At the clamp a loss can read as exact
  (`Lag.HiddenLoss`); `Lag.ExactMeansNothingMissingExactly` states when it does not.
- XAUTOCLAIM (Redis 7) clears a pending entry whose stream entry was trimmed. So there is a fifth class of entry,
  `Cleared`, next to unread, trimmed unread, pending and acknowledged.
- A reclaim pass takes an empty page for the end of the scan, and a page is empty before the end when ten times its size of
  fresh entries use up the scan or when its whole size goes into clearing trimmed ones. Over every reachable pending list of
  at most n entries, t of them trimmed, a pass that meets no failure takes every idle entry exactly when (n is at most ten
  pages, or minIdle is not positive) and (t is less than a page, or n is at most a page):
  `ReclaimExact.ReclaimCompleteExactly`. XPENDING, which the pass asks first, gives n and not t, so what it can settle on its
  own is that a pass over no more than a page of entries is complete.
- An acknowledged entry need not have been dispatched, dropped or recorded as unprocessable: a reclaim pass acknowledges what it
  claims and dispatches none of it (of an unprocessable one it keeps a record of its own). Everything the server shows as
  acknowledged is resolved in the record of some agent or was acknowledged by a reclaim pass
  (`ConsumerGroupResolution.AcknowledgedIsSettled`), and it is resolved exactly when an agent has its acknowledgement on record
  (`ConsumerGroupResolution.SettledIsRecorded`). In `ConsumerGroupResolution.StolenRun` a reclaimer acknowledges an entry that
  a cancelled agent had read and not begun. So the promise holds in every run exactly for the groups that no reclaim task is
  given (`ConsumerGroupResolution.SettledExactly`); `TaskFor` gives a reclaim task its own agent's group
  (`Config.ReclaimedGroupsExactly`).
- The overlap guard bounds the tasks that run, not the workers: a worker clears the guard before it leaves the wait
  group, so any number may be unfinished at once (`Periodic.UnfinishedUnbounded`).
- Supervised restarts wait `min(initial * 2^j, 30s)` in every history exactly when 0 <= initial <= 30 s
  (`Supervisor.WaitsExactly`).
- Summary ids are pairwise distinct in every history exactly when the period is at least a second
  (`SummaryIds.IdsDistinctExactly`).
- Agents that were started under one id are supervised separately, but health shows only the last of them
  (`Runner.HealthIsOwnExactly`).
- Two agents can be given the same consumer name when one id continues the other after a colon
  (`Config.ConsumersClashExactly`). They are in different groups, where it does no harm.
- Where comments and code differ the model follows the code: a read asks only for new entries, so an agent never sees its own
  pending entries again.

## Model

| member | source | states |
|---|---|---|
| `ConsumerGroup.FirstAbove` | internal/ingest/redis/stream.go:64-71 | where a `>` read starts: the first surviving entry above the cursor |
| `ConsumerGroupProgress.BatchExactly` | internal/ingest/redis/stream.go:64-90 | a read returns the contiguous stretch of the log from the first surviving entry above the cursor, of all that is unread without a positive count and of the smaller of the two with one |
| `ConsumerGroupProgress.ReadMakesProgress` | internal/ingest/redis/stream.go:64-90 | from any reachable state a read takes as many unread entries as it asks for, answered or not: pending for the reader, cursor moved, none else touched |
| `ConsumerGroupProgress.RunAddsNone` | internal/ingest/redis/stream.go:64-90 | over any continuation only appends add to what a group has not read |
| `ConsumerGroupSafety.DeliverNext` | internal/ingest/redis/stream.go:64-90 | delivering such a stretch keeps the books: handed out in order, each id pending, acknowledged or cleared, no gap behind the cursor |
| `ConsumerGroupSafety.ScanExact` | internal/ingest/redis/pending.go:42-49 | what a claim page takes and clears, entry by entry, both ways: walked, surviving and idle enough; walked and trimmed |
| `ConsumerGroupSafety.PageKeeps` | internal/ingest/redis/pending.go:42-69 | a claim page moves ownership and clears trimmed entries without losing account of any |
| `ConsumerGroupSafety.TrimKeeps` | internal/ingest/redis/stream.go:140-144 | trimming puts exactly what a group had not read on its list of lost entries |
| `ConsumerGroupAgents.RecordKeeps` | internal/agent/stream.go:62-104 | an acknowledgement on record follows its resolution, and nothing about the id follows it |
| `ConsumerGroupAgents.GroupStepKeeps` | internal/agent/stream.go:34-104 | every step of a group (start, read, lost reply, next, resolve, ack, failed ack, cancel, claim, retire) keeps its invariant |
| `ConsumerGroupTheorems.RunKeeps` | internal/agent/stream.go:34-104 | every reachable state of every interleaving is well-formed |
| `ConsumerGroupTheorems.ExactlyOneClass` | internal/agent/stream.go:34-104 | an entry appended after a group's start is in exactly one class for it: unread, trimmed unread, pending, acknowledged, cleared |
| `ConsumerGroupTheorems.StepMoves` | internal/ingest/redis/stream.go:92-113 | an entry leaves pending only by the ack of the agent that has it in hand or of the reclaim that claimed it, or by a claim scan after it was trimmed |
| `ConsumerGroupTheorems.ClassesOnlyAdvance` | internal/agent/stream.go:49-56 | over any continuation an entry only moves forward; acknowledged, trimmed unread and cleared are final |
| `ConsumerGroupTheorems.DeliveredOnceInOrder` | internal/ingest/redis/stream.go:64-90 | `>` reads give a group each entry that was not trimmed first, once, in id order |
| `ConsumerGroupTheorems.OneConsumerPerEntry` | internal/ingest/redis/stream.go:227-235 | within a group no entry is in the records of two stream agents; a reclaiming consumer keeps no such record |
| `ConsumerGroupTheorems.AcknowledgedWasResolved` | internal/agent/stream.go:62-104 | an id an agent acknowledged was unprocessable or had exactly one outcome per destination in order, through cancellation and crashes |
| `ConsumerGroupResolution.AcknowledgedIsSettled` | internal/agent/stream.go:50-104 | in every reachable state, an id the server shows as acknowledged is resolved and acknowledged in some agent's record, or a reclaim pass acknowledged it |
| `ConsumerGroupResolution.SettledIsRecorded` | internal/agent/stream.go:62-104 | in every reachable state an id is resolved and acknowledged in some agent's record iff an agent recorded its acknowledgement |
| `ConsumerGroupResolution.StolenRun` | internal/housekeeping/reclaim.go:76-93 | in a group of any name, a run that acknowledges an entry which no agent resolved |
| `ConsumerGroupResolution.SettledExactly` | internal/housekeeping/reclaim.go:76-93 | every acknowledged entry of a group is resolved in every run iff no reclaim task is given the group |
| `ConsumerGroupTheorems.GroupsDoNotInterfere` | internal/agent/registry.go:92-95 | any interleaved run projected onto one group is that group's solo run over the same appends and trims |
| `ConsumerGroupLifecycle.NoOrphans` | internal/ingest/redis/pending.go:79-109 | in every reachable state each pending entry belongs to a consumer the group still has: retirement orphans nothing |
| `ConsumerGroupLifecycle.ConsumersExactly` | internal/ingest/redis/pending.go:86-109 | a consumer leaves its group exactly when it is retired idle and holding nothing; only reads and claims make it active |
| `ConsumerGroupLifecycle.CancelledTakesNothingUp` | internal/agent/stream.go:49-56 | over any continuation a cancelled agent with nothing in hand records and acknowledges nothing until it is started again |
| `StreamAgents.StreamAgent.Handle` | internal/agent/stream.go:62-104 | one delivery: recorded or sent everywhere, then acknowledged, then counted |
| `StreamAgents.RecordExactly` | internal/agent/stream.go:62-104 | what a delivery leaves on record: per destination, in order, whether its last attempt was accepted, up to a panic, and then the acknowledgement |
| `StreamAgents.TallyExactly` | internal/agent/stream.go:62-104 | what a delivery counts, by its dispatches alone: unprocessable, processed iff some last attempt was accepted and the ack went through, one drop per destination not reached |
| `StreamAgents.StreamAgent.HandleBatch` | internal/agent/stream.go:49-56 | no delivery at or after the cancellation is handled and none after a panic, every one before is; the loop is left early iff there is such a point; the rest of the batch is not recorded and stays pending |
| `StreamAgents.StreamAgent.Run` | internal/agent/stream.go:34-58 | batch after batch up to the first turn that is cancelled, fails or does not get to the end of its batch, with an error iff a read failed uncancelled |
| `StreamAgents.StreamAgent.AnyOf` | internal/agent/stream.go:95-100 | whether some destination took the event |
| `StreamAgentRuns.DeliverySteps` | internal/agent/stream.go:62-104 | the protocol's Next, one Resolve per destination and Ack, or what came before a panic and the restart, leave the record and the rest of the batch that handling the delivery leaves |
| `StreamAgentRuns.RoundSteps` | internal/agent/stream.go:49-56 | a batch is a run of the protocol with the same record, through a panic in it or a cancellation, after which it is the protocol that drops the rest |
| `StreamAgentRuns.RoundBooks` | internal/agent/stream.go:49-56 | a batch, with its cancellation or panic, changes the group's books as it changes the agent's memory |
| `StreamAgentRuns.Interleaved` | internal/agent/stream.go:49-56 | whatever steps fall among an agent's own while it handles a batch, its record is the one its own steps alone leave |
| `StreamAgentRuns.RunIsSteps` | internal/agent/stream.go:34-58 | the record of a whole run, whatever the world does between its turns and during its batches and with failed reads that took effect, is the one a run of the protocol leaves |
| `StreamAgentRuns.TurnBooks` | internal/agent/stream.go:34-58 | each batch of a run that nothing disturbs changes the group's books, from its read on, as it changes the agent's memory |
| `StreamAgentRuns.RunAcksAreResolved` | internal/agent/stream.go:34-104 | from any reachable state on, what a run acknowledged it had resolved, once, in destination order |
| `StreamAgentProgress.BacklogIsRead` | internal/agent/stream.go:34-58 | k turns of a run that read `count` entries each leave k * count fewer unread, whatever else happens but appends |
| `StreamAgentProgress.BacklogCanBeRead` | internal/agent/stream.go:34-58 | from every reachable state with the agent at its read, u / count rounds, rounded up, leave nothing unread |
| `StreamAgents.CountersAddUp` | internal/agent/stream.go:62-104 | with one destination processed + unprocessable + dropped counts every delivery handled, but for deliveries that went out and whose ack failed, and one lost in a jitter panic |
| `StreamAgents.RunCountersAddUp` | internal/agent/stream.go:34-104 | the same over every run, with failed reads and mid-batch cancellation |
| `Reclaim.PassStep` | internal/ingest/redis/pending.go:41-76 | one page carries the pass from its cursor to the next: what was idle is taken, the rest keeps its owner |
| `Reclaim.PageAdvances` | internal/ingest/redis/pending.go:71-75 | a page that claims anything moves the cursor on, so the loop ends |
| `Reclaim.LoopWalks` | internal/ingest/redis/pending.go:36-77 | the loop takes strictly increasing ids, all idle long enough and up to where it stops; what it does not take keeps its owner |
| `Reclaim.ReclaimTask.Reclaim` | internal/ingest/redis/pending.go:36-77 | the loop with pages answered, lost or refused, its place in the protocol, and the claimer's last activity |
| `Reclaim.PassResult` | internal/housekeeping/reclaim.go:71-93 | a pass and its acks touch only entries idle for minIdle or trimmed; a complete one acknowledges every idle surviving entry |
| `Reclaim.ReclaimTask.AckClaimed` | internal/housekeeping/reclaim.go:76-93 | acknowledges in order up to the first that is not answered, which may have been carried out |
| `Reclaim.ReclaimTask.RetireConsumers` | internal/ingest/redis/pending.go:86-109 | deletes only consumers without pending entries that were idle long enough, counts them, fails iff a deletion is not answered, and else deletes all |
| `Reclaim.ReclaimTask.ReclaimOne` | internal/housekeeping/reclaim.go:61-104 | the whole pass with the answers to each command: what it may do to each entry, when it is complete, whom it retires (not a claimer that is still active), and that it fails iff some command it needs is not answered |
| `Reclaim.TaskIsRun` | internal/housekeeping/reclaim.go:61-104 | from any reachable state what the task has done is a run of the protocol that leaves the group with the task's books and consumers, every entry accounted for and no pending entry orphaned |
| `ReclaimComplete.RoomIsEnough` | internal/ingest/redis/pending.go:41-76 | with room every answered pass takes every surviving idle entry |
| `ReclaimComplete.TooManyFresh` | internal/ingest/redis/pending.go:72 | for every batch size, fresh entries that keep a pass from an idle one |
| `ReclaimComplete.TooManyTrimmed` | internal/ingest/redis/pending.go:72 | for every batch size, trimmed entries that keep a pass from an idle one |
| `ReclaimExact.StuckReachable` | internal/ingest/redis/pending.go:41-76 | reading, claiming and trimming reach the states of both failures |
| `ReclaimExact.ReclaimCompleteExactly` | internal/ingest/redis/pending.go:36-77 | every answered pass from a reachable state with at most n pending entries, t of them trimmed, is complete iff there is room |
| `ReclaimComplete.LostPageClaims` | internal/ingest/redis/pending.go:42-55 | a page whose answer is lost leaves what was idle enough with the claimer, and a refused one leaves everything, when all that is pending fits in a page |
| `StreamIds.ParseDecimal` | internal/ingest/redis/stream.go:208-215 | parsing undoes decimal printing up to the clamp of int64 |
| `StreamIds.SplitPrint` | internal/ingest/redis/stream.go:208-215 | splitID inverts printing of ids below 2^63 and clamps each half above |
| `StreamIds.ComparePreorder` | internal/ingest/redis/stream.go:189-206 | compareIDs is a total preorder on any two strings |
| `StreamIds.CompareIsLexExactly` | internal/ingest/redis/stream.go:189-206 | compareIDs is the lexicographic order exactly on ids whose deciding halves the clamp does not merge |
| `StreamIds.ClampReversesOrder` | internal/ingest/redis/stream.go:189-215 | two 64-bit ids that compare in reverse |
| `StreamIds.BelowExactly` | internal/ingest/redis/stream.go:189-215 | compareIDs says below iff it is so and not hidden by the clamp, or is reversed by it |
| `Lag.ReadLag` | internal/ingest/redis/stream.go:145-173 | the first group of the name: its own lag and its flag, the length and a raised flag for a null lag, or the error |
| `Lag.FlagExactly` | internal/ingest/redis/stream.go:177-186 | on a non-empty stream the flag is up iff the group has read no surviving entry, exactly for ids the clamp spares |
| `Lag.FlagTellsLossExactly` | internal/ingest/redis/stream.go:140-186 | in every reachable state the flag agrees with loss ahead of the cursor exactly for telling ids; below the clamp, iff the cursor is not in the gap |
| `Lag.ExactMeansNothingMissingExactly` | internal/ingest/redis/stream.go:145-186 | in every reachable state an exact reading of a non-empty stream means every entry above the cursor survives, iff no trimmed entry ahead is hidden by the clamp |
| `Lag.HiddenLoss` | internal/ingest/redis/stream.go:182-215 | a run that loses an entry ahead of the cursor and reads as exact |
| `Lag.ReadClearsFlag` | internal/ingest/redis/stream.go:182-185 | after a read that returns something the flag is up iff the clamp reverses, although the loss remains |
| `Lag.FreshGroupIsFlagged` | internal/ingest/redis/stream.go:182-185 | a run whose new group is flagged with nothing lost |
| `Lag.EmptyStreamIsNotFlagged` | internal/ingest/redis/stream.go:182-184 | a run that loses an unread entry on a stream that is never flagged |
| `Retry.DecisiveStatuses` | internal/dispatch/retry.go:51-64 | success is the 2xx class, permanent is the 4xx class without 408 and 429, all else is retried |
| `Retry.Do` | internal/dispatch/retry.go:108-156 | verdict, observer labels and elapsed time of the loop, tied to the first attempt that stops |
| `Retry.DoEndsExactly` | internal/dispatch/retry.go:108-156 | every dispatch, cancelled or not: sent iff its last attempt was accepted, no attempt after a decisive, refused or cancelled one, attempts = labels, and the drop label by the last reply |
| `Retry.CancelledIsLost` | internal/dispatch/retry.go:143-149 | short of its budget, on a reply that decides nothing and without a panic, a dispatch was cancelled there and counts as an exhausted budget |
| `Retry.ElapsedExactly` | internal/dispatch/retry.go:108-156 | the time is that of the attempts and of a wait after each but the last, or after that too when cancelled in it |
| `Retry.DoCallsExactly` | internal/dispatch/retry.go:108-156 | for every policy exactly min(MaxAttempts, first decisive reply) calls, or a panic iff the jitter refuses a backoff before the last of them; a transient prefix, one label each, and a permanent drop label iff the last was permanent |
| `Retry.SafeBackoffExactly` | internal/dispatch/retry.go:143-152 | no dispatch under the policy panics, for any destination, iff the stated bounds hold for its number of attempts |
| `Retry.SafeForAllBudgetsExactly` | internal/dispatch/retry.go:143-152 | the bounds that are safe for every number of attempts |
| `Retry.BackoffClosedForm` | internal/dispatch/retry.go:150-152 | the i-th jitter bound is min(initial * 2^i, max) |
| `Retry.DoWithinBudget` | internal/dispatch/retry.go:104-108 | attempts in time and jitter in bounds keep one dispatch within MaxAttempts timeouts and MaxAttempts - 1 waits |
| `Dispatch.Send` | internal/dispatch/outcome.go:31-73 | the outcomes, the drop counters by reason and the time of one Send |
| `Dispatch.OutcomesIndependent` | internal/dispatch/outcome.go:27-30 | each outcome names its destination in order and depends on that destination alone |
| `Dispatch.OutcomesTellAttempts` | internal/dispatch/outcome.go:35-71 | each outcome is delivered iff its destination's last attempt was accepted, with its attempts and its drop reason; sending ends at the first destination that panics, if any |
| `Dispatch.SendReachesAll` | internal/dispatch/outcome.go:35-71 | with safe backoffs every destination has an outcome |
| `Dispatch.SendWithinBudget` | internal/dispatch/outcome.go:35-71 | one Send stays within the sum of the destinations' budgets |
| `Anomaly.SentExactly` | internal/observability/anomaly.go:126-158 | a notification goes out iff the notifier takes it and it is forced or the cooldown has passed and the window has room; what it changes |
| `Anomaly.Detector.Observe` | internal/observability/anomaly.go:70-123 | one observation: the pair's new state, what it tried to send, and no other pair's state |
| `Anomaly.Detector.Active` | internal/observability/anomaly.go:161-171 | the number of active pairs |
| `AnomalyRate.AtMostTwiceTheCeiling` | internal/observability/anomaly.go:126-141 | in every history any half-open hour holds at most 2 x maxPerHour unforced notifications |
| `AnomalyCeiling.CooldownKept` | internal/observability/anomaly.go:132-136 | an unforced notification comes at least the cooldown after the previous one of either kind |
| `AnomalyCeiling.StraddlingBreaksCeiling` | internal/observability/anomaly.go:127-130 | a burst over two windows sends maxPerHour + 1 within an hour |
| `AnomalyCeiling.CeilingHoldsExactly` | internal/observability/anomaly.go:126-158 | maxPerHour is kept in every hour of every history iff maxPerHour cooldowns last an hour or maxPerHour is not positive |
| `AnomalyHistory.ActiveIsConfirmed` | internal/observability/anomaly.go:82-120 | active iff the current unbroken run of breaches holds an observation without sustain or sustainFor after its start |
| `AnomalyHistory.ImmediateActivation` | internal/observability/anomaly.go:104-115 | without a sustain window the first breach activates |
| `AnomalyHistory.ActivationLatency` | internal/observability/anomaly.go:104-115 | a breach that lasts sustainFor, checked at most c apart, is raised at a check less than sustainFor + c after onset, and stays raised |
| `AnomalyHistory.OneResolutionPerClear` | internal/observability/anomaly.go:82-98 | RESOLVED attempts equal falling edges; rising edges exceed them by one iff still active |
| `AnomalyNotices.AttemptsExactly` | internal/observability/anomaly.go:82-122 | in every history an unforced attempt is made iff the last observation is a breach without sustain or sustainFor after its run's start, with its detail; RESOLVED iff it ends a confirmed run, with the detail of the last breach |
| `AnomalyNotices.NoticesExactly` | internal/observability/anomaly.go:82-158 | exactly when a notification goes out, in terms of the observations, the notifications before and when the window opened |
| `AnomalyHistory.KeyInjective` | internal/observability/anomaly.go:71 | the key determines type and scope |
| `AnomalyHistory.PairsAreIndependent` | internal/observability/anomaly.go:70-123 | however reports interleave, a pair's state is that of its own observations alone |
| `Aggregation.Aggregator.Observe` | internal/housekeeping/summarize.go:58-84 | one entry folded in, a closed summary if it opens a later period |
| `Aggregation.Aggregator.OnTick` | internal/housekeeping/summarize.go:88-98 | a period closed by the clock |
| `Aggregation.Aggregator.CloseLocked` | internal/housekeeping/summarize.go:100-114 | the summary handed out, with the old map, and a fresh one put in its place |
| `AggregationGroupBy.ReachedIsMaximum` | internal/housekeeping/summarize.go:66-76 | the open period is the running maximum of the buckets seen |
| `AggregationGroupBy.EmittedIsGroupBy` | internal/housekeeping/summarize.go:52-114 | every emitted count and breakdown is the offline group-by of the whole history at that period |
| `AggregationGroupBy.EveryEntryIsGrouped` | internal/housekeeping/summarize.go:58-84 | every entry belongs to an emitted period or the open one |
| `AggregationGroupBy.EmittedWhenPassed` | internal/housekeeping/summarize.go:78-114 | a summary is made by the first event past its period, at the time of that event |
| `AggregationGroupBy.StartsIncrease` | internal/housekeeping/summarize.go:88-114 | emitted starts strictly increase, and only the first summary is partial |
| `AggregationTotals.CountsAreConserved` | internal/housekeeping/summarize.go:78-114 | emitted counts plus the open count equal the entries observed |
| `EnvelopeParsing.ParsedExactly` | internal/envelope/parse.go:17-39 | an entry becomes an envelope iff every required field is there, and then names its gateway and its time; otherwise the first field missing is the fault |
| `AggregationTotals.BreakdownAddsUp` | internal/housekeeping/summarize.go:78-114 | with non-empty gateways every breakdown sums to its count |
| `AggregationTotals.BucketExactly` | internal/housekeeping/summarize.go:50-54 | a time is in the bucket of exactly the aligned start at most a period before it |
| `AggregationTotals.TimeOfExactly` | internal/housekeeping/summarize.go:62-66 | an entry counts at the time it was received, and at the time it is drained only when it says none |
| `AggregationTotals.EmittedAligned` | internal/housekeeping/summarize.go:50-54 | emitted starts lie on the clock grid |
| `AggregationTotals.OrderedSummariesAreExact` | internal/housekeeping/summarize.go:52-114 | for time-ordered input a summary counts exactly the entries received inside its period, in all and per gateway |
| `AggregationTotals.NoPeriodSkipped` | internal/housekeeping/summarize.go:86-98 | events at most a period apart leave no period out |
| `LogDrain.LogDrainAgent.Drain` | internal/agent/logdrain.go:74-91 | every delivery is unprocessable or folded in, in order, up to the first that closes a period whose summary's dispatch panics |
| `LogDrain.LogDrainAgent.Run` | internal/agent/logdrain.go:48-93 | the turns of one run, where it ends, by a panicking dispatch too, and whether with an error |
| `LogDrain.AllSeen` | internal/agent/logdrain.go:48-93 | the aggregator sees every delivery with its required fields, no other, and every tick |
| `LogDrain.LogDrainAgent.Restarting` | internal/agent/logdrain.go:48-93 | across any restarts handled = processed + unprocessable + interrupted, processed + interrupted = deliveries with their required fields, and emitted plus open count = processed + interrupted, with at most one interrupted entry per run and none where no dispatch panics; every breakdown sums to its count, each summary is dispatched once, and none has changed |
| `Rfc3339.DateOf` | internal/agent/logdrain.go:110 | the date of a day, within its month, from which the day can be computed again |
| `Rfc3339.FormatExactly` | internal/agent/logdrain.go:110 | which field of a timestamp stands where, and between which separators |
| `Rfc3339.RoundTrip` | internal/agent/logdrain.go:110 | a timestamp to the second reads back as that second |
| `SummaryIds.SameIdExactly` | internal/agent/logdrain.go:106-110 | two summaries share an id iff their periods start in the same second |
| `SummaryIds.IdsDistinctExactly` | internal/agent/logdrain.go:106-110 | ids are pairwise distinct in every history iff the period is at least a second |
| `Supervisor.StatusIsHistory` | internal/agent/runner.go:67-141 | at every step the status is a function of the runs: restarts = failures before cancellation, panics <= restarts + 1, the last error |
| `Supervisor.DegradedExactly` | internal/agent/runner.go:94-104 | while waiting, degraded iff the last three runs failed, running iff the last was clean |
| `Supervisor.StoppedIsTerminal` | internal/agent/runner.go:75-88 | once stopped nothing changes |
| `Supervisor.WaitsAreExponential` | internal/agent/runner.go:89-120 | every wait is min(initial * 2^j, 30s), j runs after the last clean or first one |
| `Supervisor.WaitsExactly` | internal/agent/runner.go:118-120 | that holds in every history iff 0 <= initial <= 30s |
| `Runner.RunsAreTurns` | internal/agent/runner.go:67-122 | the runs a goroutine has judged are the results of its turns, up to the first that cancellation cuts or a wait it interrupts; a panic in the turn that is cut is counted |
| `Runner.Runner.RunOnce` | internal/agent/runner.go:129-141 | a panic is counted and becomes an error |
| `Runner.Runner.Supervise` | internal/agent/runner.go:67-122 | the loop follows the step system, judges exactly those runs, and writes no status but its own |
| `Runner.Runner.Start` | internal/agent/runner.go:53-63 | a status of its own per agent; under one id the last is registered |
| `Runner.Runner.Health` | internal/agent/runner.go:170-183 | one row per id with its current status |
| `Runner.GoroutinesAreIndependent` | internal/agent/runner.go:65-67 | in every interleaving each goroutine is where its own steps alone take it |
| `Runner.HealthIsOwnExactly` | internal/agent/runner.go:53-63 | health shows every agent's own status in every interleaving iff the ids are unique |
| `Periodic.NoOverlap` | internal/agent/periodic.go:59-79 | at most one task runs; a tick starts one iff none holds the guard |
| `Periodic.TicksAddUp` | internal/agent/periodic.go:64-71 | ticks = starts + skips |
| `Periodic.CountsAreOutcomes` | internal/agent/periodic.go:81-99 | every success is counted as one, a failure as one only before cancellation, in every interleaving |
| `Periodic.OutcomeIsEnd` | internal/agent/periodic.go:81-99 | a worker is counted by how its task ended |
| `Periodic.ReturnIsQuiet` | internal/agent/periodic.go:61-63 | when Run returns every worker is done and counted, the guard is clear and nothing moves again |
| `Periodic.CanReturn` | internal/agent/periodic.go:59-79 | Run is never stuck: from every reachable state some continuation returns |
| `Periodic.UnfinishedUnbounded` | internal/agent/periodic.go:71-76 | for every n an interleaving with n unfinished workers |
| `Text.JoinSplit` | internal/config/config.go:184 | splitting loses nothing and leaves no separator |
| `Text.SplitJoin` | internal/config/config.go:184 | splitting undoes joining |
| `Text.TrimExactly` | internal/config/config.go:262 | trimming takes off nothing but what it cuts |
| `AgentKeys.KeyIsWords` | internal/config/config.go:100-106 | a key is the id's runs of letters and digits joined by single underscores |
| `AgentKeys.SameKeyExactly` | internal/config/config.go:100-106 | two ids share a key iff they have the same runs |
| `AgentKeys.NormalExactly` | internal/config/config.go:100-106 | a string is its own key iff it has no leading, trailing or doubled underscore and nothing else; hence idempotence |
| `Config.Csv` | internal/config/config.go:260-268 | the non-empty trimmed entries in order |
| `Config.ListRoundTrip` | internal/config/config.go:260-268 | a list of plain names reads back as written |
| `Config.EntriesAreParts` | internal/config/config.go:260-268 | the entries are the parts between commas, trimmed, in order, without the blank ones |
| `Config.EntriesArePlain` | internal/config/config.go:260-268 | whatever is read, every entry is a plain name |
| `Config.EnvNameInjective` | internal/config/config.go:198-210 | key and suffix are determined by the variable's name |
| `Config.OnlyOwnVariables` | internal/config/config.go:198-210 | setting one agent's variables changes no other agent |
| `Config.FieldsFromVariables` | internal/config/config.go:198-210 | which variable feeds which field, and what a blank or malformed one leaves |
| `Config.Defaults` | internal/config/config.go:199-210 | an agent with none of its variables set has the stated defaults |
| `Config.LoadAgents` | internal/config/config.go:175-213 | succeeds iff all keys are non-empty and distinct; else names the first id at fault and why |
| `Config.LoadedGroupsDiffer` | internal/ingest/redis/stream.go:219-225 | loaded agents have groups of their own |
| `Config.ReclaimedGroupsExactly` | internal/housekeeping/task.go:28 | the group of an agent is among those given to reclaim tasks iff the agent is a reclaimer |
| `Config.InstancesDiffer` | internal/ingest/redis/stream.go:227-235 | instances of one agent never share a consumer name |
| `Config.ConsumersClashExactly` | internal/ingest/redis/stream.go:227-235 | two agents can share a consumer name iff one id continues the other after a colon |

## Left out

- The Redis wire client and its reply types; the model uses the abstract stream and groups. XDEL is not modelled.
- Lag.ReadLag: how the client library decodes a null lag; the model takes the decoded numbers.
- Reclaim.ReclaimTask.ReclaimOne: one source, in a pass with no interleaved step; a consumer that reads between the snapshot
  of consumers and the deletion is not modelled, there or in `ConsumerGroup`, where retiring is one step. Interleaved claim
  pages and acks are steps of `ConsumerGroup`.
- ConsumerGroupTheorems.OneConsumerPerEntry: about the records of stream agents; a reclaiming consumer may acknowledge an entry
  that is in one of them.
- ConsumerGroupTheorems.AcknowledgedWasResolved: about the acknowledgements in agents' records; the server's are in
  `ConsumerGroupResolution`.
- ConsumerGroupResolution.AcknowledgedIsSettled: of what reclaim acknowledges it says only that reclaim did; the record that
  reclaim keeps of unprocessable entries is not modelled.
- StreamAgentRuns.TurnBooks: for batches that nothing else falls into; what an acknowledgement does to the books in any
  interleaving is `ConsumerGroupTheorems.StepMoves`.
- AggregationGroupBy.EmittedIsGroupBy: for entries stamped after the very first period of Go's calendar, where the open bucket
  is indistinguishable from the zero time.
- AggregationTotals.BreakdownAddsUp: for entries that name their gateway, which `LogDrainAgent` derives from the required fields.
- LogDrain.LogDrainAgent.Run: counts the dispatch of a summary and takes from the world whether it panics, but not its outcomes;
  the one-second ticker is input.
- Periodic.NoOverlap: for tasks that do not panic; a panic in a worker is outside the runner's recovery and ends the process.
- Config.LoadAgents: the library's parsers of numbers, durations and flags are parameters. Upper case is modelled as far as a
  key can tell.
- Anomaly.Detector.Observe: time differences are exact; saturation of Go's time.Sub after 292 years is not modelled, nor the
  gauge, which is per type and not per scope.
- JSON encoding and decoding, HTTP requests and endpoints, SMTP, metrics registration and logging: input and output.
- The monitor's polling, readiness, the report task and the drop-rate anomaly (declared, never raised): they would add easy
  members.
- Signals, shutdown grace, process start-up and .env loading.
