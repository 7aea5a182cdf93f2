# anvil-reth: a verified model of its dev-node control

The project models the stateful parts of anvil-reth, a local development node built on Reth, and proves what
they guarantee over whole runs:

- **Mining control** (`TriggerProtocol`, `TriggerTheorems`, `SharedTriggers`, `MiningSystem`, `MiningTheorems`,
  `MiningTasks`, `MiningCalls`, `MiningHistory`, `MiningController`). `trigger` is two atomic steps, `poll_next` is a load / compare-exchange / park loop that
  keeps its `Notified` future between calls, and around them run the automine task, the interval task on a
  watch channel, and any number of RPC calls. Everything is one transition system at the grain of single lock
  acquisitions and atomic operations; a run is a sequence of steps, so every interleaving is a run. The loop of
  `poll_next` is also written as a loop over shared fields, with other threads acting between any two of its
  steps, and shown to be a run of that system.
- **The block clock** (`BlockClock`, `BatchMining`): offset, last timestamp, exact timestamp and interval, in
  signed and unsigned machine arithmetic with its saturation and its truncating cast; `mine_blocks`, its
  200-poll wait and `anvil_mine` on top.
- **The state overlay** (`Overlay`, `StateDump`, `StateLoad`): overrides over a base state, read three ways
  (provider, dump merge, RPC helpers), dumped and loaded.
- **Impersonated senders** (`Senders`): the side table that keeps execution's sender equal to the pool's.

`Words` holds the integer types. Objects whose methods update fields are classes; each method is specified by
a function of the old state, and the properties are lemmas about runs of those functions.

## Assumptions

- Tokio's `Notify` is trusted: one stored permit, waiters served first in first out, `notify_one` marks the
  first registered waiter or else stores the permit. The watch channel is a value with a version.
- Memory operations are sequentially consistent, and `compare_exchange` does not fail spuriously. The counter
  wraps at 2^64; where a result needs the outstanding triggers to fit, it says so.
- Every transaction that becomes pending is announced to the listener after it is in the pool, and the
  listener's channel does not drop an announcement.
- Keccak-256 is collision-free: a hash is represented by what was hashed.
- The base provider and its dump describe the same base state, each address once.
- `start + 1` in `mine_blocks` panics at the last block number, as in a build with overflow checks.
- Wall clock, pool verdicts, mined hashes, failing provider reads and iteration orders are inputs: results hold
  for all of them.

## Where the code needs a condition

- With several streams a wake-up can be lost: a trigger is pending and none in flight, no permit is stored, one
  stream sleeps un-notified, and no other is inside a call or notified to begin one. Every run of n streams is
  free of that if and only if n <= 1 (`WakeUpsAreSafeExactly`). For each n >= 2,
  `SeveralStreamsCanLoseAWakeUp` reaches it with one outstanding trigger: the wake-up went to the future that
  another stream kept registered when it returned. The node makes exactly one stream (src/main.rs:95). For any
  n, when *all* streams sleep nothing is pending but what is in flight (`NoLostTrigger`).
- A clock moved past 2^64 seconds is truncated by the cast (`CastDropsHighBits`, at any wall-clock reading).
  `VirtualClock` gives the timestamp in every case, and says it is the ideal time if and only if that is below
  2^64.
- A load restores an account to its dumped reads only under a condition on nonce and slots
  (`RollbackExactly`, an if-and-only-if); `RaisedNonceStays` and `NewSlotStays` are inputs outside it. Without
  it the round trip keeps the larger nonce and the newer slots.
- Sender agreement fails when equal hashes do not mean equal senders, or when what is admitted without
  impersonation is not genuinely signed (`SharedHashBreaksAgreement`, `StoppedBeforeValidationBreaksAgreement`).
  `AgreementThroughoutExactly` is the exact condition on whole runs, submission by submission.
- `anvil_set_automine(false)` does not always leave a running interval alone: it reads the mode and replaces it
  in two steps, so an interval set between them is lost (`DisableOverridesNewInterval`). It replaces the mode if
  and only if it read Automine (`SetAutomineReplaces`).
- Balance top-ups commute unless one that cannot read the base relies on an earlier one: all orders give an
  account the same if and only if it has an override already, or no call for it can read the base, or those
  that cannot give it nothing (`OrderMattersExactly`).
- The sender table stays within the pool at every moment of a run if and only if each step is tidy where it
  happens (`TightThroughoutExactly`).
- `anvil_mine` puts the former interval back in every outcome but one: at the last block number the addition
  `start + 1` panics first. It does so over whatever others set meanwhile, so the restored interval is what the
  clock would hold without the call if and only if the last setting made meanwhile, if any, was that one
  (`BatchMining.DevNode.AnvilMine`); `OverlapLeavesStaleInterval` is an input outside it.

## Model

First the results over whole runs and inputs, then the invariants and lemmas they rest on, then the operations
with branches or loops, and last the single steps and field updates.

| member | source | states |
|---|---|---|
| TriggerTheorems.Conservation | src/mining.rs:97-100 | in every run each trigger is returned once or still pending, exactly while the outstanding ones fit the counter and modulo its width otherwise |
| TriggerTheorems.NoLostTrigger | src/mining.rs:121-146 | for any number of streams: whenever all of them are parked and un-notified, no permit is stored and pending is at most the triggers between their two steps, so with none in flight nothing is pending; with the node's single stream this is about that stream, also when its future was kept across a Ready |
| TriggerTheorems.WakeUpsAreSafeExactly | src/mining.rs:102-108 | every run of n streams is free of a lost wake-up (a trigger pending, none in flight, no permit, a stream asleep and every other asleep or returned) if and only if n is at most 1 |
| TriggerTheorems.SeveralStreamsCanLoseAWakeUp | src/mining.rs:102-108 | for every n >= 2 a run of n streams loses a wake-up with one trigger outstanding: the future a returned stream kept absorbed it while another sleeps, and nothing else is inside a call |
| TriggerTheorems.OneStreamSleepsThroughNothing | src/mining.rs:121-146 | with at most one stream no stream ever sleeps beside a pending trigger that is not in flight |
| TriggerTheorems.RunKeepsSomeoneAwake | src/mining.rs:96-147 | over every run, a pending trigger keeps a stream that will look again or has its own `notify_one` still to come |
| TriggerTheorems.PollRoundsBound | src/mining.rs:122-145 | one call of `poll_next` begins at most 1 + stored permit + already notified + steps of others rounds; at most three without interference |
| TriggerTheorems.StepsAreSafe | src/mining.rs:125-139 | the decrement never underflows and the future about to be polled is always there |
| SharedTriggers.TriggerCell.PollNext | src/mining.rs:121-146 | under any interference the loop ends, is a run of the protocol, respects the round bound, keeps some stream awake for every trigger not in flight, parks only registered and with no permit stored; left alone it takes a pending trigger at once and parks exactly when there is none |
| MiningTheorems.AutomineHandshake | src/mining.rs:58-67 | in every interleaving of arrivals, automine task, `anvil_set_automine` and mode changes: once settled with automine on, every transaction still pending had a trigger issued after it arrived |
| MiningHistory.EveryPendingWasAnswered | src/mining.rs:149-160 | in terms of the run alone: once settled with automine on, for every pending transaction some trigger was issued after the step that inserted it |
| MiningTheorems.SettledAutomineServedThePool | src/mining.rs:149-160 | end to end with all streams parked: all triggers consumed, and for each pending transaction a block was built for a trigger issued after it arrived |
| MiningTasks.AutomineTaskBooks | src/mining.rs:155-159 | over every run the automine task triggers exactly for the events that found automine on and then the pool non-empty, and every announced event is accounted for |
| MiningTasks.NoAutomineNoTrigger | src/mining.rs:156 | while automine is off it issues nothing, but for one trigger whose mode check it had passed |
| MiningTasks.EmptyPoolNoTrigger | src/mining.rs:156 | while nothing is pending it issues nothing, but for one trigger whose pool check it had passed |
| MiningTasks.EveryEventTriggers | src/mining.rs:155-159 | when no event finds another mode or an empty pool, each announced transaction gets its own trigger |
| MiningTasks.OneTriggerPerEvent | src/mining.rs:155-159 | from boot never more automine triggers than announced transactions |
| MiningTheorems.ParkedStreamsMissNothing | src/mining.rs:121-146 | the no-lost-trigger statement for the whole system and any number of streams: when all are parked and un-notified they miss only triggers whose `notify_one` is still to come |
| MiningTheorems.Projection | src/mining.rs:81-87 | every run of the whole system is, on the shared memory, a run of the trigger protocol |
| MiningTheorems.TriggersBecomeBlocks | src/mining.rs:96-147 | in every run of the system, for any number of streams, triggers issued = pending + blocks under way + blocks built, while the outstanding ones fit the counter |
| MiningTheorems.MineBlocksExact | src/anvil_api.rs:276-323 | from nothing outstanding, the wait of `mine_blocks` can succeed exactly when the head has reached start + n, and then is past it by at most the triggers others issued; with none it is exact and nothing is left over |
| MiningCalls.MineCallReturns | src/anvil_api.rs:305-323 | a returned `mine_blocks` issued exactly the triggers asked for, and returned once, on finding the head at start + n or by time-out; asked for none it does nothing |
| MiningTheorems.IntervalRateBound | src/mining.rs:162-189 | if every interval set is at least d seconds, at most T/d interval triggers are issued in the first T seconds, under any mode changes |
| MiningTheorems.IntervalRateWindow | src/mining.rs:173-186 | over any stretch of a run the bound is T/d + 1, for the one sleep already under way |
| MiningTheorems.IntervalStop | src/mining.rs:165-187 | after the mode leaves Interval and until it is set again, no interval trigger beyond one whose check at line 181 had already passed |
| MiningTasks.IntervalTriggersExactly | src/mining.rs:180-184 | over every run the interval task triggers exactly once for each completed sleep that finds interval mode |
| MiningTasks.IntervalRateExact | src/mining.rs:162-189 | after setting an interval of d seconds, undisturbed and prompt, the triggers issued and the one due are at every moment exactly the elapsed time over d, and a task with nothing to do sleeps towards a later deadline |
| MiningCalls.SetAutomineTriggers | src/anvil_api.rs:476-482 | in every interleaving a returned enabling call has looked at the pool once and triggered exactly if it found a pending transaction; a disabling one never looks and never triggers |
| MiningCalls.SetAutomineTakesEffect | src/mining.rs:58-67 | a returned call took effect: at some moment since it began automine was on (enabling) or off (disabling) |
| MiningCalls.SetAutomineReplaces | src/mining.rs:58-67 | a returned call has read the mode once and replaced it exactly if it read one to change |
| MiningCalls.DisableOverridesNewInterval | src/mining.rs:59-66 | an interval set between the read and the replacement of a disabling call that read Automine is lost |
| MiningCalls.ModeIsLastAsked | src/mining.rs:58-75 | over every run the mode is the one asked for last and the watch version counts the replacements |
| BlockClock.TimestampOrder | src/time.rs:86-120 | between resets, for any wall clock and any calls: timestamps never fall, rise strictly without an exact time until the last second, exact times are met to the second, and a pending one stays ahead |
| BlockClock.ClockIsHistory | src/time.rs:32-120 | over every run, resets included: the last timestamp is the latest block's time or reset's start, whichever came last; the pending exact time is the latest accepted one since; the interval is the last one set |
| BlockClock.ResetForgets | src/time.rs:32-37 | after a reset everything that follows is independent of the clock before it, backward moves included |
| BlockClock.BlockAfterReset | src/time.rs:32-37 | the block right after a reset is one second (or one spacing) past the reset's second |
| BlockClock.VirtualClock | src/time.rs:86-120 | with a monotone wall clock: clock plus offset is never negative, a plain block gets the later of last + 1 and the low 64 bits of the ideal time (anchor + increases + wall time, capped at the offset type's maximum), and that is the ideal time itself if and only if it is below 2^64 |
| BlockClock.CastDropsHighBits | src/time.rs:96 | at any wall-clock reading, a reset and one increase reach the truncating cast |
| BlockClock.ReachableExactAhead | src/time.rs:61-69 | in every reachable clock a pending exact time is not below the last timestamp, so the correction at lines 100-102 is never taken |
| BatchMining.DevNode.AnvilMine | src/anvil_api.rs:489-510 | under any background of blocks and clock calls: success from nothing outstanding is exactly n consecutive blocks and nothing left; with an interval every block has the closed form's timestamp unless others set times or intervals meanwhile, and the former interval is back in every outcome but the panic at the last block number, which is right if and only if others last left it so; oversized arguments change nothing |
| BatchMining.TimesOutExactly | src/anvil_api.rs:276-290 | with every read answered a call times out exactly if the head is still short of start + n at the last of 200 polls |
| BatchMining.OverlapLeavesStaleInterval | src/anvil_api.rs:493-503 | an `anvil_mine` begun inside another and ending last leaves the other's interval set |
| Overlay.OverlayRefinesFlat | src/state_provider.rs:41-59 | after any writes every provider read (existence, balance, nonce, code bytes, storage) equals that of a flat state that took the writes directly |
| Overlay.FreshOverlayRefinesFlat | src/state_provider.rs:169-181 | the same from an empty overlay over any coherent base |
| Overlay.WriteIsRead | src/state.rs:58-88 | each write changes exactly one field of one account in what the provider reads, and that account exists from then on |
| StateDump.DumpAgrees | src/state_dump.rs:41-82 | the dump lists exactly the accounts the provider reports, with its balance, nonce, code bytes and zero-defaulted slots |
| StateDump.RecordedSlots | src/state_dump.rs:76-80 | a dump records the base record's slots and every overridden one, zero words included |
| StateLoad.AnvilRpc.LoadState | src/anvil_api.rs:379-396 | the loops give the closed form; a failing base read leaves exactly the accounts below it loaded |
| StateLoad.RoundTrip | src/anvil_api.rs:361-396 | dump in one state, load in any other, even over another base: balance, code and recorded slots return (every overridden slot among them, zero words included), nonces take the maximum, the rest is as in the second state |
| StateLoad.RollbackExactly | src/anvil_api.rs:384-392 | a load returns an account to its dumped reads if and only if its nonce has not grown and no slot outside the dump is non-zero (unlisted: if and only if still absent) |
| StateLoad.RaisedNonceStays | src/anvil_api.rs:384 | a nonce raised after the dump survives the load, so that load is not a rollback |
| StateLoad.NewSlotStays | src/anvil_api.rs:390-392 | a slot first written after the dump survives the load, so that load is not a rollback |
| StateLoad.LoadIsIdempotent | src/anvil_api.rs:379-396 | loading twice is loading once |
| StateLoad.LoadBackChangesNothing | src/anvil_api.rs:361-396 | loading a dump straight back changes no read |
| StateLoad.EventsKeepCodeTable | src/anvil_api.rs:379-396 | after any mix of writes, top-ups and loads, loads stopped anywhere by a failing base read included, the two tables are tied |
| StateLoad.TopUpsAccumulate | src/anvil_api.rs:648-655 | after any calls of `anvil_addBalance`, any of them failing, each address reads min(2^256 - 1, former balance + what its successful calls gave), by helper and provider, nothing else changed |
| StateLoad.TopUpsCommute | src/anvil_api.rs:648-655 | two orders of the same calls leave every read of an account equal, saturation and failures included, when nothing it is given depends on an earlier call |
| StateLoad.OrderMattersExactly | src/anvil_api.rs:648-655 | all orders of the calls give an account the same if and only if it has an override, or no call can read its base balance, or those that cannot give nothing |
| Senders.AgreementThroughoutExactly | src/evm.rs:131-142 | for every run: execution and pool agree after each of its steps if and only if each submission is safe where it happens (an impersonated one does not contradict the pooled transaction of its hash; any other that gets in has its own sender recorded, or nothing recorded and a signature by its sender) |
| Senders.SenderAgreement | src/evm.rs:131-142 | if equal hashes mean equal senders and unimpersonated admissions are genuinely signed, after every run execution attributes each pooled transaction to the pool's sender |
| Senders.SharedHashBreaksAgreement | src/impersonation.rs:91-100 | with the constant placeholder signature two impersonated senders of one body break agreement |
| Senders.StoppedBeforeValidationBreaksAgreement | src/impersonation.rs:147-152 | signing before and validating after impersonation stops breaks agreement |
| Senders.TightThroughoutExactly | src/impersonation.rs:66-71 | for every run: the table lists only pooled transactions after each step if and only if no step evicts a listed one or refuses an impersonated submission a place |
| Senders.PooledExactly | src/anvil_api.rs:539-560 | over every run a transaction is pooled exactly if a submission got it in and no drop, removal of its sender, new head or eviction has taken it out since |
| Senders.TableIsLatestSender | src/impersonation.rs:58-75 | over every run the table holds for a hash exactly the latest impersonated sender submitted with it and not forgotten since |
| Senders.ImpersonatedExactly | src/impersonation.rs:31-46 | over every run an account is impersonated exactly if it was last impersonated rather than stopped, or the automatic setting was last on |
| TriggerProtocol.ApplyKeepsValid | src/mining.rs:96-147 | every atomic step of `trigger` and `poll_next`, for any number of threads and streams, keeps: the waiter queue lists exactly the registered streams once each, a permit is stored only when nobody waits, and issued = taken + pending (+ wraps) |
| TriggerProtocol.WakeKeepsQueue | src/mining.rs:99 | handing a wake-up to the first waiter, or storing it, leaves exactly the registered streams queued |
| TriggerProtocol.ParkKeepsQueue | src/mining.rs:135-144 | polling the stored future registers or removes exactly the polled stream |
| TriggerTheorems.ApplyKeepsSomeoneAwake | src/mining.rs:96-147 | one step of anyone never leaves a pending trigger without a stream that will look again or its own `notify_one` still to come |
| MiningSystem.ApplyKeepsLinked | src/mining.rs:149-189 | every step of tasks, RPCs, streams and miner keeps: exactly the threads at the second half of `trigger` are in flight, and blocks built + blocks under way = triggers taken |
| MiningSystem.BootIsLinked | src/mining.rs:36-44 | a node as started satisfies the invariant, with any number of streams |
| MiningTheorems.ApplyKeepsHandshake | src/anvil_api.rs:476-482 | every step of every thread keeps the handshake: no pending transaction is left without a trigger issued since it arrived or a reason one will be |
| MiningTheorems.ApplyKeepsAnswer | src/mining.rs:155-159 | one step never leaves a pending transaction without its event, a committed trigger, an RPC about to count the pool, or automine off |
| MiningTheorems.RpcKeepsPromise | src/anvil_api.rs:476-482 | while the pool holds a transaction, an RPC committed to trigger stays committed through every step but its own trigger |
| MiningTheorems.RunKeepsMine | src/anvil_api.rs:312-320 | at every moment of a `mine_blocks` call the triggers issued are its own so far plus those of others |
| MiningHistory.PendingExactly | src/mining.rs:149-160 | from boot a transaction is pending, with the number of triggers before it, exactly if it was inserted then and neither built nor evicted since |
| MiningTheorems.SleepsFit | src/mining.rs:180 | n sleeps of d seconds fit in T only if n is at most T/d |
| BlockClock.RunStaysAnchored | src/time.rs:48-58 | over every run the offset is that of the latest reset or exact block plus the increases since, capped at the type's maximum |
| BlockClock.InOrderIsSorted | src/time.rs:99-105 | the order spelled out for any two blocks |
| BlockClock.NextOfBatch | src/time.rs:93-105 | at a fixed interval the next block continues last + k·i, or e + (k-1)·i after an exact e, saturating, whatever the wall clock |
| BlockClock.BatchFollowsClosedForm | src/time.rs:93-105 | all blocks of a batch at a fixed interval follow the closed form for any wall clock and any increases meanwhile |
| BlockClock.IntervalIsLastSetting | src/time.rs:72-84 | over every run the interval in force is the last one asked for |
| BlockClock.NormalizedUnits | src/anvil_api.rs:263-269 | inputs up to 10^12 are seconds, larger ones milliseconds |
| BatchMining.NumbersAreConsecutive | src/anvil_api.rs:322 | the returned numbers are consecutive |
| BatchMining.SuccessIsExact | src/anvil_api.rs:305-323 | from what every call promises, success from nothing outstanding is exactly the blocks asked for |
| BatchMining.CallAtInterval | src/anvil_api.rs:492-503 | the timestamps of an undisturbed batch, the interval in force after it, and exactly when the restored one is what the same events without the call would leave |
| BatchMining.OutcomeOfWait | src/anvil_api.rs:276-323 | everything promised of a call follows from the poll at which its wait ends |
| BatchMining.ExecutedExactly | src/time.rs:128-141 | between two steps all calls of others go through in order, and blocks as attempts and room allow |
| Overlay.RunKeepsCodeTable | src/state.rs:68-79 | after any writes every non-empty code hash has an entry that hashes to it, and the empty hash is never a key |
| Overlay.CodeIsPreimage | src/state_provider.rs:183-191 | under that tie the hash-then-lookup read returns the code the hash was made from |
| StateDump.BaseDumpAgrees | src/state_dump.rs:110-119 | the records of a faithful base dump read as the base |
| StateDump.MergeFindsCode | src/state_dump.rs:65-74 | the missing-bytecode default is never taken |
| StateLoad.LoadKeepsCodeTable | src/anvil_api.rs:388 | loading keeps the two tables tied |
| StateLoad.LoadRestores | src/anvil_api.rs:383-393 | listed accounts take the record with the larger nonce, every other account and slot is untouched |
| StateLoad.LoadedOneMore | src/anvil_api.rs:383-393 | loading one more record extends the closed form, and the nonce compared is the one from before the load |
| StateLoad.HelpersAgree | src/anvil_api.rs:325-359 | the RPC helpers read what the provider reads |
| StateLoad.TopUpReceivers | src/anvil_api.rs:648-655 | exactly the receivers of a successful call gain an entry, even for an amount of zero |
| StateLoad.OverriddenAfter | src/anvil_api.rs:648-655 | an address has a balance override after the calls exactly if it had one or one of its calls could read the base |
| Senders.StepKeepsAgreementExactly | src/pool.rs:53-66 | a step from agreement keeps it if and only if its submission is safe; drops, mining, eviction and stopping impersonation always do |
| Senders.StepKeepsTightExactly | src/impersonation.rs:66-71 | one step keeps the table within the pool if and only if it is tidy: every drop, removal and new head forgets what it removes |
| BatchMining.DevNode.MineAtInterval | src/anvil_api.rs:492-503 | the clock and the timestamps are those of the blocks and of the others' calls from the clock with the interval set, and then the former interval returns unless the call panics |
| BatchMining.DevNode.MineBlocks | src/anvil_api.rs:305-323 | head + outstanding grows by exactly the blocks asked for (by nothing if the starting head cannot be read), the outcome is that of the poll at which the wait ends, the list is start+1..=end, and clock and timestamps are those of the events that happened |
| BatchMining.DevNode.WaitForBlockNumber | src/anvil_api.rs:276-290 | the wait ends at the first of 200 polls that fails to read or finds the head there, and expires otherwise, with the head its scheduling points lead to |
| BatchMining.DevNode.TriggerAll | src/anvil_api.rs:312-314 | as many triggers as blocks asked for, with the head they lead to |
| BatchMining.DevNode.Background | src/anvil_api.rs:317-319 | between two steps of the call others' clock calls go through and the miner builds as many blocks as triggers and attempts allow, conserving their sum |
| BatchMining.DevNode.BuildOne | src/time.rs:128-141 | one consumed trigger is one block with one timestamp from the clock |
| BatchMining.DevNode.Perform | src/time.rs:32-84 | a clock call by somebody else is the clock's event |
| StateDump.SerializableState.MergeAnvilState | src/state_dump.rs:55-82 | the nested loops give the closed-form merge for every iteration order |
| StateDump.SerializableState.MergeAccount | src/state_dump.rs:56-81 | visiting one more account extends the closed form |
| StateDump.MergeOverride | src/state_dump.rs:59-80 | one account's overrides laid over its record |
| StateDump.InsertAll | src/state_dump.rs:76-80 | the slot loop is map union, later slots winning, in any order |
| StateLoad.AnvilRpc.DumpState | src/anvil_api.rs:361-377 | refuses historical states, fails exactly when the base dump or the head cannot be read; otherwise the records agree with live reads |
| StateLoad.AnvilRpc.LoadAccount | src/anvil_api.rs:384-393 | the writes of one record, together |
| StateLoad.AnvilRpc.AddBalance | src/anvil_api.rs:648-655 | the balance read grows by the amount, saturating, or a failed read changes nothing |
| StateLoad.AnvilRpc.ReadBalance | src/anvil_api.rs:325-342 | the override first; fails exactly when the base is needed and fails |
| StateLoad.AnvilRpc.ReadNonce | src/anvil_api.rs:344-359 | the base is read first, so it fails even under an override |
| BlockClock.TimeManager.ComputeNextTimestamp | src/time.rs:86-109 | the branches compute the specified timestamp, and an offset update exactly for an exact time |
| BlockClock.TimeManager.NextTimestamp | src/time.rs:112-120 | returns the specified timestamp and leaves the specified clock |
| BlockClock.TimeManager.SetTime | src/anvil_api.rs:626-631 | resets to the normalised time and replies how far the clock moved forward |
| Senders.AnvilPool.SubmitTransaction | src/pool.rs:48-67 | inserted exactly if new, with room, and admitted or impersonated; a refused submission may still write the table |
| Senders.AnvilPool.Validate | src/pool.rs:48-67 | an impersonated sender is remembered and valid, any other gets the inner verdict |
| Senders.AnvilPool.ConvertTransaction | src/evm.rs:134-141 | the table's sender, else the recovered one |
| Senders.AnvilPool.DropTransaction | src/anvil_api.rs:539-544 | forgets the sender only if the pool held the transaction |
| Senders.AnvilPool.DropAllTransactions | src/anvil_api.rs:546-553 | empties the pool and forgets its hashes |
| Senders.AnvilPool.RemovePoolTransactions | src/anvil_api.rs:555-560 | exactly the sender's transactions leave the pool and the table, the others are unchanged |
| Senders.AnvilPool.OnNewHeadBlock | src/pool.rs:69-78 | forgets and removes exactly the mined hashes |
| Senders.AnvilPool.AutoImpersonateAccount | src/anvil_api.rs:463-466 | everybody is impersonated while it is on |
| Senders.AnvilPool.StopImpersonatingAccount | src/anvil_api.rs:458-461 | the account is no longer impersonated by name; the table stays |
| Senders.AnvilPool.ImpersonateAccount | src/anvil_api.rs:453-456 | the account is impersonated from then on |
| MiningController.SetAutomineAlone | src/mining.rs:58-67 | the two separate steps of `set_automine`, run back to back, set the mode the object sets |
| MiningController.EnableEnds | src/mining.rs:58-67 | enabling, uninterrupted, ends in Automine about to count the pool |
| MiningController.DisableEnds | src/mining.rs:58-67 | disabling, uninterrupted, turns Automine into Manual, leaves any other mode, and ends without counting or triggering |
| MiningController.CountAlone | src/anvil_api.rs:478-480 | after enabling, one trigger exactly when the pool holds a pending transaction |
| SharedTriggers.TriggerCell.constructor | src/mining.rs:90-109 | counter and notifier start empty, the streams without a future |
| SharedTriggers.TriggerCell.FetchAdd | src/mining.rs:98 | the first half of `trigger` on the fields is the protocol's step |
| SharedTriggers.TriggerCell.NotifyOne | src/mining.rs:99 | the second half of `trigger` on the fields is the protocol's step |
| SharedTriggers.TriggerCell.Trigger | src/mining.rs:97-100 | an uninterrupted `trigger` is the run of its two steps |
| SharedTriggers.TriggerCell.LoadPending | src/mining.rs:123-124 | the load of `poll_next` and the branch it decides |
| SharedTriggers.TriggerCell.CompareExchange | src/mining.rs:125-132 | succeeds exactly when the counter is unchanged since the load |
| SharedTriggers.TriggerCell.CreateWaiter | src/mining.rs:135-137 | a future is created only when none is stored |
| SharedTriggers.TriggerCell.PollStored | src/mining.rs:139-144 | ready consumes a hand-over or a permit and drops the future, and then one wake-up fewer is stored; not ready means registered |
| SharedTriggers.TriggerCell.Interfere | src/mining.rs:121-147 | between two steps exactly the enabled steps of others are executed, and they leave the stream's own position alone |
| MiningController.Controller.constructor | src/mining.rs:36-44 | mining starts in automine |
| MiningController.Controller.IsAutomine | src/mining.rs:47-49 | true exactly in automine mode |
| MiningController.Controller.IntervalMining | src/mining.rs:51-56 | the interval's seconds exactly in interval mode |
| MiningController.Controller.SetAutomine | src/mining.rs:58-67 | enabling always ends in automine, disabling leaves an interval running, and the watch is notified exactly when the mode changes |
| MiningController.Controller.SetIntervalMining | src/mining.rs:69-75 | zero means manual, anything else that interval, and the watch is always notified |
| BlockClock.TimeManager.constructor | src/time.rs:20-29 | a new clock is a reset one without interval |
| BlockClock.TimeManager.Reset | src/time.rs:32-37 | pins clock and last timestamp and drops a pending exact time, keeping the interval |
| BlockClock.TimeManager.IncreaseTime | src/time.rs:48-58 | the offset grows by the seconds, saturating |
| BlockClock.TimeManager.SetNextBlockTimestamp | src/time.rs:61-69 | accepted exactly when not below the last timestamp, otherwise nothing changes |
| BlockClock.TimeManager.SetBlockTimestampInterval | src/time.rs:72-74 | sets the interval only |
| BlockClock.TimeManager.RemoveBlockTimestampInterval | src/time.rs:82-84 | removes the interval and says whether there was one |
| Overlay.AnvilState.constructor | src/state.rs:53-55 | both tables start empty |
| Overlay.AnvilState.SetBalance | src/state.rs:58-60 | writes one field of the account's entry, created if missing |
| Overlay.AnvilState.SetNonce | src/state.rs:63-65 | writes one field of the account's entry, created if missing |
| Overlay.AnvilState.SetCode | src/state.rs:68-79 | non-empty code goes to the second table under its hash, empty code only sets the fixed hash |
| Overlay.AnvilState.SetStorageAt | src/state.rs:82-88 | writes one slot of the account's entry |
| StateDump.SerializableState.constructor | src/state_dump.rs:41-53 | collects the dumped accounts by address |
| Senders.ImpersonationState.constructor | src/impersonation.rs:20-28 | nobody is impersonated at first |
| Senders.ImpersonationState.Impersonate | src/impersonation.rs:31-33 | adds the account |
| Senders.ImpersonationState.StopImpersonating | src/impersonation.rs:35-37 | removes the account and leaves the sender table |
| Senders.ImpersonationState.SetAutoImpersonate | src/impersonation.rs:39-41 | sets the flag |
| Senders.ImpersonationState.IsImpersonated | src/impersonation.rs:43-46 | flag or membership |
| Senders.ImpersonationState.RememberTxSender | src/impersonation.rs:58-60 | records the sender under the hash |
| Senders.ImpersonationState.ForgetTxSender | src/impersonation.rs:62-64 | forgets one hash |
| Senders.ImpersonationState.ForgetTxSenders | src/impersonation.rs:66-71 | the loop forgets exactly the listed hashes |
| Senders.ImpersonationState.TxSender | src/impersonation.rs:73-75 | the recorded sender, if any |

## Left out

- The RPC trait and its wiring, error texts, node information and metadata, node assembly in src/main.rs and src/eth_builder.rs: plumbing over Reth.
- The two task loops are step machines of `MiningSystem`, not methods with loops, because they run for ever between other threads' steps.
- JSON and gzip in `encode_gzipped` and `decode`: library codecs; dump and load work on the records.
- `find_erc20_storage_slot`, dealERC20 and the allowance RPC: they depend on EVM execution outside the repository.
- Trie, proof, root and block-hash methods of the provider: they forward unchanged.
- src/block_env.rs and the overrides in `next_evm_env`: set and take of options.
- `anvil_mine_detailed` and `anvil_increase_time`: conversions and a clamp around modelled operations.
- Pool internals (ordering, replacement, limits) and reorgs: the pool is a map, and eviction removes any hashes.
- Races between the separate locks of `TimeManager`, and between a drop RPC and revalidation: those methods are atomic here.
- BatchMining.DevNode.AnvilMine: a call runs to its end (a request cancelled during the wait restores nothing), and triggers by others during the call are in `MiningTheorems.MineBlocksExact` instead.
- Transaction decoding in the payload conversion: a transaction that does not decode is an error before any sender is looked up.
- The parsing of EIP-7702 designators in `Bytecode::new_raw`: stored code is its original bytes.
- StateLoad.AnvilRpc.LoadState: nothing is written between two of its accounts, because the overlay's lock is taken per account and concurrent writers are not modelled.
- MiningTheorems.AutomineHandshake: does not cover an announcement dropped by a full listener channel, because the channel belongs to Reth.
