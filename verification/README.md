# Mining pool: verified model

A Dafny model of the backend of a multi-coin mining pool, with proofs of what
its stateful core promises. `dafny verify dfyconfig.toml` checks everything.

| part | files |
|---|---|
| Tiered worker history: ring buffers, layout, cascade, storage between appends | `HistoryLayout`, `HistoryCascade`, `WorkerHistory`, `WorkerHistoryRuns` |
| PPLNS payout of a block, from shares to stored fractions and whole units, and who gets what | `Pplns`, `PplnsPrecalc`, `PplnsRecipients`, `PplnsWindow` |
| Share cleanup and what it must not delete | `ShareCleanup`, `ShareRetention` |
| Work codec: wire format, repair of overflowing work, the adapter around the generated codecs | `WireFormat`, `WorkCodec`, `WorkMessage`, `WorkDecode` |
| Queues and budgets | `TaskQueue`, `VerifierPool`, `ShareIngress` |
| Block lifecycle and the credits of a block | `BlockLifecycle`, `BalanceLookup`, `BalanceCredits`, `SqlTransaction`, `BlockPayout` |
| Fast forms of simple computations | `ChunkedScan`, `AltBlockPruning`, `PoolStats`, `ResponseCache` |
| Payments: batch state machine, processor, runtime, operator's unlock | `PaymentBatches`, `PaymentSafety`, `PaymentProcessor`, `PaymentsRuntime`, `BatchUnlock` |

How the model is built:

- Objects that the program updates in place are classes with a `Valid()`
  invariant; a method is one call or one turn of the event loop. What happens
  outside a turn (replies, failures, clocks, steps of other processes) is a
  parameter or an arbitrary choice, so what every method keeps holds in every
  interleaving.
- Each loop is a method proved against a function of its inputs; the laws are
  lemmas about that function and do not mention the loop.
- Work, means and fractions are real numbers; credits, bytes, heights and
  amounts are integers.
- SQL transactions and local store transactions are atomic.

What the proofs found, where the code does not do what one would expect:

- `historyPoints` with a limit of zero or less returns one point
  (`WorkerHistoryRuns.HistoryPoints`).
- `repairLegacyOverflow` takes an `end` of zero as the end of the buffer
  (`WorkCodec.RepairLegacyOverflow`).
- The retention threshold, floor(2 x window), covers a window exactly from
  one half on (`ShareRetention.TwiceWindowCovers`), and a payout whose anchor
  is rounded down can still lose shares when much work lies above the rounded
  anchor (`ShareRetention.RoundingCanLosePayout`);
  `ShareCleanup.PayoutSurvivesIff` says exactly when.
- The cursor loops of `pool_stats.js` and `local_comms.js` end at a key of
  zero. In the totals such a row is invisible but counted as an entry, so a
  deletion can go unnoticed (`PoolStats.ZeroKeyHidesDeletion`); it also does
  when the store does not tell its size, or when an insertion above the head
  makes up for it (`PoolStats.UnknownSizeHidesDeletion`,
  `PoolStats.ReplacedRowIsMiscounted`). `PoolStats.RefreshIsRebuildIff` is the
  exact condition. In the share cleanup, a block at height zero hides every
  pending main block (`ShareRetention.ZeroHeightHidesAll`); the unlockers then
  list none either.
- A hash request whose verifier input cannot be built, such as a RandomX
  template without its seed hash (lib/coins/core/factories.js:1167-1169),
  throws after the miner's counter was raised. The counter is then too high for
  good, and after 101 such requests the miner is refused for as long as the
  process lives (`VerifierPool.LockOut`).
- `createTaskQueue` relies on each task being reported done once and on
  workers that do not throw (`TaskQueue.ReportedAgainExceedsLimit`).
- `withTransaction` swallows a failing rollback and releases the connection
  with the transaction open (`SqlTransaction.Connection.WithTransaction`).
- A response that is not a string leaves an older entry of its key in the
  cache (`ResponseCache.ResponseCache.Set`).
- A reservation relies on its plan being current; the guarded SQL does not
  compare amounts (`PaymentSafety.StalePlanOverdraws`,
  `PaymentSafety.FinalizeOverdrawsIff`).
- A confirmed unlock skips the wallet check when the batch was loaded without
  a submit stamp, and its update then also accepts a submitting batch: one that
  crossed the boundary in between, or a row without a stamp, which the table
  allows (`BatchUnlock.ReleasedUncheckedIff`, `BatchUnlock.RaceReleasesSentBatch`,
  `BatchUnlock.UnstampedIsReleasedUnchecked`).
- The unique key of the balance table lets rows without a payment id repeat
  (deployment/base.sql:9-14), so two processes can create two rows for one
  recipient, and the next lookup stops the manager
  (`BalanceLookup.RacedInsert`, `BalanceLookup.RacedInsertStops`).
- `verifyAdvisoryLock` does not look at the fail-stop latch: a stop by a
  recovery requested from outside the cycle can be followed by one reservation
  (`PaymentsRuntime.ReservedAfterStop`).

## Model

| member | source | states |
|---|---|---|
| `HistoryLayout.NormalizePositiveInteger` | lib/common/worker_history.js:27-34 | a number of one or more gives the whole number below it, anything else the fallback |
| `HistoryLayout.DistributeCapacity` | lib/common/worker_history.js:73-83 | the loop computes the even share with the remainder in the first tiers |
| `HistoryLayout.DistributeIsEvenShare` | lib/common/worker_history.js:73-83 | capacities add up to the points to distribute, never grow from one tier to the next, and differ by at most one |
| `HistoryLayout.DistributeIsSafe` | lib/common/worker_history.js:107-135 | with at most maxPoints / tierRatio tiers, every tier of a multi-tier layout has at least tierRatio slots |
| `HistoryLayout.CalculateCoverage` | lib/common/worker_history.js:91-99 | the loop with its running multiplier computes base interval times the capacities weighted by powers of the ratio |
| `HistoryLayout.ChooseCapacities` | lib/common/worker_history.js:107-135 | the fewest tiers that reach the target span are chosen, or the most that are allowed |
| `HistoryLayout.BuildTierLayout` | lib/common/worker_history.js:107-135 | every layout, from any options, has capacities that sum to maxPoints and are safe to compact |
| `HistoryCascade.AverageIsUnique` | lib/common/worker_history.js:241-260 | the summing-and-dividing mean is the one point whose rates times the count are the totals and whose stamp is the newest |
| `HistoryCascade.AverageOfAverages` | lib/common/worker_history.js:241-260 | the mean of means over equal blocks is the mean over all their samples |
| `HistoryCascade.AppendCovers` | lib/common/worker_history.js:268-284 | one cascading append keeps the tiers an exact summary of a contiguous suffix, and drops samples only from a full last tier |
| `HistoryCascade.PointAt` | lib/common/worker_history.js:241-284 | point j of tier i is the mean of exactly tierRatio^i consecutive samples, at the position the tiers' sizes say |
| `HistoryCascade.AppendBacked` | lib/common/worker_history.js:268-284 | a tier that was ever full keeps at least capacity - ratio + 1 points while a coarser tier holds anything |
| `HistoryCascade.FullHoldsFloor` | lib/common/worker_history.js:268-284 | once the last tier is full, the history represents at least the stated number of samples |
| `HistoryCascade.RunInvariant` | lib/common/worker_history.js:268-284 | the summary invariant holds after every sequence of appends from empty tiers |
| `HistoryCascade.HistoryIsExactSummary` | lib/common/worker_history.js:241-284 | after any appends the tiers cover a contiguous suffix without gap or overlap, and at least min(n, floor) samples |
| `WorkerHistory.SlotRoundTrip` | lib/common/worker_history.js:179-205 | a point written to a slot reads back unchanged |
| `WorkerHistory.NormalizedIsStamped` | lib/common/worker_history.js:222-233 | a point is accepted exactly when its hashrate is finite, and then has a whole-second stamp |
| `WorkerHistory.NormalizedIsNearest` | lib/common/worker_history.js:57-58 | an accepted stamp is the whole second nearest to the given milliseconds, halves up, and a missing second rate is zero |
| `WorkerHistory.Tier.GetPoint` | lib/common/worker_history.js:179-189 | reading a logical index gives that element of the tier's contents, wherever the ring's head is |
| `WorkerHistory.Tier.AppendPoint` | lib/common/worker_history.js:197-205 | writing behind the newest point appends to the contents |
| `WorkerHistory.Tier.DropOldestPoints` | lib/common/worker_history.js:211-216 | dropping removes a prefix of the contents, clamped to what is there |
| `WorkerHistory.Tier.CompactOldestBucket` | lib/common/worker_history.js:241-260 | the loop averages the oldest bucket and removes exactly it, never reading an unwritten slot |
| `WorkerHistory.AppendToTier` | lib/common/worker_history.js:268-284 | the recursive in-place cascade over ring buffers refines the cascade on sequences |
| `WorkerHistory.CreateEmptyHistory` | lib/common/worker_history.js:141-165 | a new history represents empty tiers of the layout |
| `WorkerHistory.NormalizeBinaryTier` | lib/common/worker_history.js:291-314 | a stored tier is refused or restored to exactly its stored points |
| `WorkerHistory.NormalizeTieredHistoryPayload` | lib/common/worker_history.js:320-355 | a payload is refused or restored, decided by the payload alone |
| `WorkerHistory.SerializeTier` | lib/common/worker_history.js:436-452 | a serialised tier is readable and holds the same points |
| `WorkerHistory.SerializeHistory` | lib/common/worker_history.js:436-452 | serialise and parse is the identity on what a history represents |
| `WorkerHistoryRuns.HistoryPoints` | lib/common/worker_history.js:379-392 | points are returned newest first across tiers, cut at the limit; a limit of zero or less returns one point |
| `WorkerHistoryRuns.ImportHistoryPoints` | lib/common/worker_history.js:410-418 | importing newest-first points equals appending them oldest first |
| `WorkerHistoryRuns.ReplayHistory` | lib/common/worker_history.js:424-430 | a history of another layout is replayed into the new one, oldest first |
| `WorkerHistoryRuns.GetWorkerHistoryState` | lib/common/worker_history.js:424-430 | the state opened from any payload, readable or not, matches the layout |
| `WorkerHistoryRuns.AppendHistorySample` | lib/common/worker_history.js:469-475 | the payload after one sample reads as the opened state with that sample appended |
| `WorkerHistoryRuns.AppendHistorySamples` | lib/common/worker_history.js:469-475 | a whole run of calls, each serialising and parsing, stores the cascade of all accepted samples |
| `WorkerHistoryRuns.StoredHistoryIsExactSummary` | lib/common/worker_history.js:241-475 | after any run of calls every stored point is the mean of tierRatio^i consecutive samples, and the tiers cover a contiguous suffix of at least the floor |
| `Pplns.SplitIsExact` | lib/block_manager.js:477-487 | the four parts of a share are nonnegative and add up to it, for fee percentages in range |
| `Pplns.PayBalanced` | lib/block_manager.js:565-580 | one capped payment keeps amounts nonnegative and their sum equal to what is paid, at most the window |
| `Pplns.PayShareBalanced` | lib/block_manager.js:477-487 | the four payments of one share keep the balance however the window edge falls inside it |
| `Pplns.WalkBalanced` | lib/block_manager.js:499-548 | the newest-first walk pays min(window, work walked) |
| `Pplns.PayoutConservesWork` | lib/block_manager.js:499-580 | the amounts are nonnegative and sum to min(window, positive PPLNS work up to the block's height) |
| `PplnsRecipients.PayoutByPieces` | lib/block_manager.js:477-580 | for every configuration, store and height, a row holds exactly what fits the window of the pieces cut for its recipient from the shares, newest first: first the miner's part, then the pool's, the pool developer's and the coin developer's, each to its own row |
| `PplnsRecipients.BelowWindowEachHoldsItsShare` | lib/block_manager.js:477-580 | while the window is not reached, each row holds (1 - pplnsFee / 100) of the work of its own shares, and the three fee addresses their percentages of the fee on top, added up where addresses coincide |
| `PplnsRecipients.EdgeOfShare` | lib/block_manager.js:477-487 | at the window edge the miner's part is taken before the pool's, the pool developer's and the coin developer's, and the rows of nobody else change |
| `PplnsRecipients.PayoutRowsAreNamed` | lib/block_manager.js:437-460 | every row is named by its address and payment id, and these are a fee address or those of a share |
| `PplnsRecipients.StoredIsOwed` | lib/block_manager.js:588-645 | every stored fraction is what fits of its recipient's pieces over the window that was paid, and every recipient with anything has one |
| `PplnsWindow.PayoutReports` | lib/block_manager.js:499-548 | the two stamps are those of the first share with work, newest height first, and of the last before which the window was not full; each port has the work of the heights down to the one at which the window is full |
| `PplnsPrecalc.Precalculation.AddPayment` | lib/block_manager.js:565-580 | the fraction arithmetic with its correction beyond the reward refines the capped payment |
| `PplnsPrecalc.Precalculation.AddPplnsSharePayments` | lib/block_manager.js:477-487 | the four guarded calls refine the payment of a share |
| `PplnsPrecalc.Precalculation.VisitShare` | lib/block_manager.js:520-540 | a cursor step refines the visit of a share, including ignored shares |
| `PplnsPrecalc.Precalculation.CollectPplnsSharePayments` | lib/block_manager.js:499-548 | the cursor loops refine the whole newest-first fold |
| `PplnsPrecalc.BlockRowsTotal` | lib/block_manager.js:631-645 | the stored fractions are nonnegative and sum to the paid work over the pay window |
| `PplnsPrecalc.RatioBounds` | lib/block_manager.js:631-633 | the window correction leaves a paid fraction between 0.9999 and 1 |
| `PplnsPrecalc.PayWindowIs` | lib/block_manager.js:631-633 | the window is corrected to what was paid exactly when that is less than 0.9999 of it |
| `PplnsPrecalc.PreCalculatePPLNSPayments` | lib/block_manager.js:551-674 | the precalculation stores the rows of the fold, retrying while the top height moves |
| `PplnsPrecalc.PaymentsToRows` | lib/block_manager.js:635-645 | the loop stores one fraction per positive payment |
| `PplnsPrecalc.FlooringLosesLittle` | lib/block_manager.js:694-708 | flooring to atomic units loses less than one unit per row |
| `PplnsPrecalc.CreditsMatchReward` | lib/block_manager.js:551-708 | end to end, credits are nonnegative, total at most the reward and more than 0.9999 of it minus one unit per row; nothing is stored exactly when there is no work |
| `ShareCleanup.ScanHeight` | lib/common/local_comms.js:718-739 | the loop over one height counts work up to the threshold |
| `ShareCleanup.ScanShares` | lib/common/local_comms.js:708-745 | the scan collects exactly the heights below the first kept one |
| `ShareCleanup.KeptWork` | lib/common/local_comms.js:708-745 | the kept heights hold at least the threshold, and fewer would not |
| `ShareCleanup.DeletedIff` | lib/common/local_comms.js:708-745 | a height is deleted exactly when it holds shares and the heights above it, from the start down, hold shares with at least the threshold of work; nothing else changes |
| `ShareCleanup.PayoutNeedsOnlyWindow` | lib/block_manager.js:499-548 | a payout depends only on the heights that fill its window |
| `ShareCleanup.CleanupKeepsPayout` | lib/common/local_comms.js:708-745 | for any start, below or above, whose window plus the work strictly between fits the threshold, cleaning leaves the payout unchanged |
| `ShareCleanup.PayoutSurvivesIff` | lib/common/local_comms.js:708-745 | when anything is deleted, the payments survive if and only if the kept heights still fill the window or nothing payable was deleted |
| `ShareRetention.GetOldestLockedBlockHeight` | lib/common/local_comms.js:573-618 | the two cursor loops find the least height of all blocks that wait for their payout calculation, up to a zero key |
| `ShareRetention.CleanShareDB` | lib/common/local_comms.js:621-792 | a cleanup cycle scans from that height with the threshold of its window, deletes only as the block cleaner, and otherwise changes nothing |
| `ShareRetention.TwiceWindowCovers` | lib/common/local_comms.js:757-787 | floor(2 x window) covers a window if and only if the window is at least one half |
| `ShareRetention.PendingMainPayoutsSurvive` | lib/common/local_comms.js:573-618 | a scan from the oldest pending height leaves the payout of every waiting main block whose window is within the threshold |
| `ShareRetention.CycleKeepsMainPayouts` | lib/common/local_comms.js:621-792 | a whole cleanup cycle leaves the payout of a waiting main block that the cursor sees unchanged, if its window is within the threshold or is that of the oldest pending height and at least one half |
| `ShareRetention.IdleCycleKeepsPayouts` | lib/common/local_comms.js:757-787 | with nothing pending, and a header of height h and difficulty d, every start from h - 1 on and every window up to floor(2 x d x shareMulti) has the same payout before and after |
| `ShareRetention.IdleCycleDeletes` | lib/common/local_comms.js:757-787 | and a height that holds anything is deleted exactly when that much work is kept above it, from h - 1 down |
| `ShareRetention.PendingCycleDeletes` | lib/common/local_comms.js:621-792 | with a pending block, a height that holds anything is deleted exactly when floor(2 x window) of work is kept above it, from below the oldest pending height down |
| `ShareRetention.UnansweredCycleDeletesNothing` | lib/common/local_comms.js:621-792 | a cycle without a header, without the difficulty it needs, or in which deleting is not enabled, deletes nothing |
| `ShareRetention.ZeroHeightHidesAll` | lib/common/local_comms.js:598-609 | a stored block at height zero hides every pending main block |
| `ShareRetention.ZeroHeightCanLosePayout` | lib/common/local_comms.js:598-609 | the cycle can then lose the payout of a pending block: a concrete store |
| `ShareRetention.PendingAltPayoutsSurvive` | lib/block_manager.js:888-935 | nor of any anchored block whose window and the work above its rounded anchor fit the threshold |
| `ShareRetention.RoundingCanLosePayout` | lib/block_manager.js:888-935 | without that condition rounding the anchor down can lose part of a payout: a concrete store |
| `WireFormat.VarintRoundTrip` | lib/common/work_codec.js:75-87 | reading a printed varint gives its value and length, whatever follows |
| `WireFormat.VarintIsCanonical` | lib/common/work_codec.js:75-87 | every varint the reader accepts is the printed form of its value |
| `WireFormat.FieldRoundTrip` | lib/common/work_codec.js:89-135 | reading a printed field gives the field back |
| `WireFormat.FieldIsCanonical` | lib/common/work_codec.js:89-135 | every field the scan accepts is the printed form of what was read |
| `WireFormat.ParseOfEncode` | lib/common/work_codec.js:89-135 | parsing printed fields gives them back |
| `WireFormat.EncodeOfParse` | lib/common/work_codec.js:89-135 | printing parsed fields gives the bytes back |
| `WorkCodec.CodecTagsAreValid` | lib/common/work_codec.js:197-200 | the tags of the three codecs print in at most two bytes and extensions are no work tags |
| `WorkCodec.NotesMean` | lib/common/work_codec.js:96-108 | what the scan notes is whether any field overflowed and whether any extension is present |
| `WorkCodec.DuplicatesMean` | lib/common/work_codec.js:98-101 | duplicate work is noted exactly when two positions carry the same work tag |
| `WorkCodec.ReadVarintAt` | lib/common/work_codec.js:75-87 | the loop over the shared position refines the recursive reader, on every byte string |
| `WorkCodec.ScanField` | lib/common/work_codec.js:90-133 | one turn of the scan reads one field or fails, and never moves past the limit |
| `WorkCodec.Replacement` | lib/common/work_codec.js:112-122 | the bytes built by hand are the printed zero sentinel and double extension |
| `WorkCodec.RepairLegacyOverflow` | lib/common/work_codec.js:60-137 | without offset and end the repair of the whole buffer; with both inside the buffer the repair of the bytes between, an end of zero being the whole length; null for anything outside the buffer; the scan ends on every buffer |
| `WorkCodec.RepairIsExactAndFinal` | lib/common/work_codec.js:60-137 | a repaired buffer parses to the input's fields with each overflow replaced by sentinel and extension, and repairing it again returns null |
| `WorkCodec.UntouchedFieldsKeepTheirBytes` | lib/common/work_codec.js:134-136 | every other field is byte-identical and in its place |
| `WorkMessage.PrepareWire` | lib/common/work_codec.js:29-47 | preparation throws exactly on work that is not a finite nonnegative number; large work moves to its extension beside a zero and all else stays |
| `WorkMessage.Restore` | lib/common/work_codec.js:172-186 | decoding throws exactly on an extension that is not large integral work beside a zero or on invalid work, and otherwise restores |
| `WorkMessage.RoundTrip` | lib/common/work_codec.js:153-187 | whatever can be encoded decodes again, with large work exact and smaller work cut to an integer |
| `WorkDecode.CodecNamesAreValid` | lib/common/work_codec.js:197-200 | work fields and extensions of the three codecs are distinct |
| `WorkDecode.OneWorkField` | lib/common/work_codec.js:103-136 | in a repaired message a work tag occurs once, and its extension exactly if the work overflows |
| `WorkDecode.LegacyMessageDecodes` | lib/common/work_codec.js:161-187 | a legacy message with overflowing work decodes, after the repair, to each work value or the double of it; decoding throws exactly on a value in the negative 64-bit range |
| `TaskQueue.AccountsTakeOut` | lib/common/callbacks.js:42-45 | taking a task out of the queue moves exactly that task |
| `TaskQueue.EveryTaskIsSomewhere` | lib/common/callbacks.js:13-77 | enqueued tasks are pending, running, finished or removed, each counted once |
| `TaskQueue.TaskQueue.Enqueue` | lib/common/callbacks.js:26-35 | an enqueue keeps every account, starts what can start, and otherwise puts it where asked |
| `TaskQueue.TaskQueue.StartNext` | lib/common/callbacks.js:43-46 | the head of the queue starts, for the first time |
| `TaskQueue.TaskQueue.Pump` | lib/common/callbacks.js:37-53 | after an outermost call nothing is pending or concurrency is reached, under any synchronous and re-entrant completions, unless user code threw |
| `TaskQueue.TaskQueue.OnDone` | lib/common/callbacks.js:46-50 | a report takes one off the running count, be it the first for its task or another, and refills |
| `TaskQueue.TaskQueue.RemoveTasks` | lib/common/callbacks.js:68-73 | removal keeps exactly what the predicate spares, in order |
| `TaskQueue.RemovalTakesVictims` | lib/common/callbacks.js:68-73 | a removal takes every victim and nothing else |
| `TaskQueue.RemovalKeepsOrder` | lib/common/callbacks.js:68-73 | what a removal leaves stays in its order |
| `TaskQueue.TaskQueue.Oldest` | lib/common/callbacks.js:60-66 | the earliest-enqueued pending task is found wherever it sits |
| `TaskQueue.RunScript` | lib/common/callbacks.js:13-77 | over every script, all tasks are accounted for; the tasks that run exceed the running count by exactly the repeated reports, so the limit holds without them; and without a throw no task is left waiting |
| `TaskQueue.ReportedAgainExceedsLimit` | lib/common/callbacks.js:46-50 | a task reported done twice lets two run under a limit of one: a concrete queue |
| `VerifierPool.DecrementedCounts` | lib/coins/index.js:84-89 | the decrement of a miner's counter changes only that counter, by one |
| `VerifierPool.VerifierPool.SlowHashAsync` | lib/coins/index.js:931-975 | a share is queued exactly when its miner's counter is at most 100 |
| `VerifierPool.VerifierPool.SlowHashThrows` | lib/coins/index.js:945-961 | a request whose verifier input cannot be built raises the counter and queues nothing |
| `VerifierPool.VerifierPool.ExactUnlessThrown` | lib/coins/index.js:945-961 | a miner's counter equals its waiting tasks if and only if none of its requests threw after raising it |
| `VerifierPool.VerifierPool.VerifyPearlAsync` | lib/coins/index.js:898-928 | a proof is queued exactly when the limits per miner, of tasks and of bytes allow it |
| `VerifierPool.VerifierPool.Start` | lib/coins/index.js:209-244 | a started task leaves its miner's count, and is answered and released at once when too old |
| `VerifierPool.VerifierPool.OnConnect` | lib/coins/index.js:246-272 | connecting may start a compression |
| `VerifierPool.VerifierPool.OnCompressed` | lib/coins/index.js:263-269 | a compression that ends after the answer finishes its task, once |
| `VerifierPool.VerifierPool.OnOutcome` | lib/coins/index.js:226-232 | the first of timeout, reply and error answers a task, and finishes it unless a compression is under way |
| `VerifierPool.VerifierPool.End` | lib/coins/index.js:97-102 | the budget falls by exactly the bytes of one task; the clamps at zero never act |
| `VerifierPool.VerifierPool.SweepExpired` | lib/coins/index.js:322-344 | the sweep of a queue does nothing unless the earliest task waiting there is too old, and then ends exactly the tasks waiting there that are |
| `VerifierPool.SweepIsComplete` | lib/coins/index.js:324-325 | while the clock does not go back, the sweep ends exactly the expired tasks of its queue |
| `VerifierPool.ClockStepHidesExpired` | lib/coins/index.js:324-325 | after a step back of the clock an expired task can stay: a concrete queue |
| `VerifierPool.RunEvents` | lib/coins/index.js:207-346 | in every interleaving the budget equals the sum and count over live tasks, stays within 32 MiB and 256, and each task is answered and released once; each miner's counter equals its waiting tasks and its requests that threw, hence its waiting tasks if and only if none threw |
| `VerifierPool.LockOut` | lib/coins/index.js:945-947 | after 101 requests that threw, a miner with nothing waiting is refused for the rest of the process, whatever happens |
| `ShareIngress.FlattenAppend` | lib/remote_share.js:222-241 | a committed batch extends what is stored |
| `ShareIngress.ShareIngress.QueueShare` | lib/remote_share.js:171-185 | a share is accepted unless the store is broken, and a flush is then due |
| `ShareIngress.ShareIngress.FlushNextChunk` | lib/remote_share.js:216-242 | one batch is committed, or goes back in front with the reject latch set and the waiters released |
| `ShareIngress.ShareIngress.FinishShareDrain` | lib/remote_share.js:199-202 | an ended drain leaves no waiter |
| `ShareIngress.ShareIngress.DrainShareQueue` | lib/remote_share.js:204-245 | a drain starts unless one is active, and stores a prefix of what was accepted |
| `ShareIngress.ShareIngress.OnShareTimer` | lib/remote_share.js:180-183 | after the timer a nonempty queue has an active drain |
| `ShareIngress.ShareIngress.OnImmediate` | lib/remote_share.js:240-241 | each further turn shortens the queue or ends the drain |
| `ShareIngress.ShareIngress.WaitForShareDrain` | lib/remote_share.js:248-255 | a caller waits only while a drain is active |
| `ShareIngress.ShareIngress.EnterRejectMode` | lib/remote_share.js:136-159 | the reject latch is never released |
| `ShareIngress.ShareIngress.StopIntervals` | lib/remote_share.js:589-594 | shutdown clears the timer and loses nothing |
| `ShareIngress.ShareIngress.DrainToEnd` | lib/remote_share.js:632-644 | with a working store, waiting for the drain stores everything accepted, in order |
| `ShareIngress.RunTurns` | lib/remote_share.js:136-255 | over every sequence of turns with any store failing, stored batches and queue are the accepted shares in order, and those are all offered ones unless the runtime rejects |
| `BlockLifecycle.BlockManager.InvalidateBlock` | lib/common/local_comms.js:378-395 | an invalidated block is closed for good |
| `BlockLifecycle.BlockManager.StoreRows` | lib/block_manager.js:368-386 | payout rows of a block still open are stored |
| `BlockLifecycle.BlockManager.MarkReady` | lib/common/local_comms.js:505-536 | the ready mark follows stored rows |
| `BlockLifecycle.BlockManager.CreditBlock` | lib/block_manager.js:677-742 | a credit is given once, to a ready and valid block, and stops the manager when sums look wrong |
| `BlockLifecycle.BlockManager.ExecutePayout` | lib/block_manager.js:745-760 | credited exactly when rows are stored and its transaction commits, unlocked exactly when that is reported paid, stopped exactly when the sums fail or look wrong |
| `BlockLifecycle.BlockManager.PreCalculateAndMark` | lib/block_manager.js:837-848 | every block of the group is stored and marked ready exactly when the precalculation succeeds, keeps or loses its rows otherwise, and nothing else happens to any block |
| `BlockLifecycle.BlockManager.HandleMainBlock` | lib/block_manager.js:851-885 | the record, rows and events of a main block after it was handled, and whether it threw or stopped, each by the depth, the flags and the replies |
| `BlockLifecycle.BlockManager.RunBlockUnlocker` | lib/block_manager.js:851-885 | over a whole call, each listed block that no lower block's exception kept from being reached is invalidated, marked ready, credited and unlocked exactly under the conditions on top, height, blocksRequired and replies; every other block and its rows stay as they were; it throws and stops exactly when one of them does |
| `BlockLifecycle.BlockManager.HandleAltBlock` | lib/block_manager.js:888-935 | the record, rows and events of a block of another coin, and its group, each by the flags and the replies |
| `BlockLifecycle.BlockManager.ScanAltBlocks` | lib/block_manager.js:938-951 | the first pass handles the blocks whose anchor is more than 720 deep, by id up to the first that throws, and groups those that are due by their rounded anchor |
| `BlockLifecycle.BlockManager.PrecalculateGroups` | lib/block_manager.js:957-981 | the second pass marks the blocks of an anchor ready exactly when it is one of the ten least, none before it threw, its header came and its precalculation succeeded |
| `BlockLifecycle.BlockManager.RunAltblockUnlocker` | lib/block_manager.js:938-989 | over a whole call, which blocks of other coins are invalidated, marked ready, credited and unlocked, each exactly; every other block stays as it was; when it throws and stops |
| `BlockLifecycle.BlockManager.RunCycle` | lib/block_manager.js:992-992 | what becomes of every block in a cycle, from the state at its beginning and the replies alone; the other coins wait when the main chain threw or stopped |
| `BlockLifecycle.CreditedIsDeep` | lib/block_manager.js:851-951 | a credited block was ready with stored rows, and deeper than five and blocksRequired, or than 720 below its anchor |
| `BlockLifecycle.Run` | lib/block_manager.js:992-1010 | over every run of cycles with arbitrary replies and failing transactions, each hash is credited at most once, only after its rows were stored and marked ready, and never after invalidation; and every cycle on the way does to every block exactly what its replies say |
| `BalanceCredits.CreditResolver.ClaimNext` | lib/block_manager.js:304-308 | a worker claims the next index, once |
| `BalanceCredits.CreditResolver.GetOrCreateBalanceId` | lib/block_manager.js:232-296 | within one process a recipient resolves to one balance id, created when missing; the whole lookup as one step |
| `BalanceCredits.CreditResolver.ResolveClaimed` | lib/block_manager.js:309-309 | the claimed index is resolved to the recipient's id and amount |
| `BalanceCredits.CreditResolver.Interleave` | lib/block_manager.js:302-311 | in every interleaving of the workers a finished resolution has every payment at its own index with its own recipient's balance, and no known balance changes |
| `BalanceCredits.CreditResolver.AwaitAll` | lib/block_manager.js:304-311 | waiting for all workers resolves every payment, whatever the interleaving before |
| `BalanceLookup.BalanceLookups.GetOrCreateBalanceId` | lib/block_manager.js:246-249 | a caller is answered from its process's cache, joins the lookup in progress, or starts one |
| `BalanceLookup.BalanceLookups.OnLoaded` | lib/block_manager.js:251-258 | one row answers, none is inserted, and several stop the manager, which is the case if and only if inserts of the recipient raced |
| `BalanceLookup.BalanceLookups.OnInserted` | lib/block_manager.js:258-275 | the unique key refuses the insert only for a recipient with a payment id that has a row; otherwise a row is added, whatever rows there are |
| `BalanceLookup.BalanceLookups.OnReloaded` | lib/block_manager.js:275-286 | after a refused insert there is exactly one row, so this read never stops the manager |
| `BalanceLookup.BalanceLookups.OnFailed` | lib/block_manager.js:289-294 | a failed lookup is forgotten, and a later caller starts anew |
| `BalanceLookup.RunLookups` | lib/block_manager.js:232-296 | for any processes and orders of turns, a recipient keeps to one row if and only if it has a payment id or no insert of it overtook another process between load and insert; answers of one process agree, those of several do without such a race, and nobody stops without one |
| `BalanceLookup.RacedInsert` | lib/block_manager.js:258-266 | two processes that both find no row for a recipient without a payment id create two rows and are answered differently: a concrete run |
| `BalanceLookup.RacedInsertStops` | lib/block_manager.js:253-257 | the next process that looks that recipient up stops: a concrete run |
| `BalanceCredits.Aggregate` | lib/block_manager.js:312-321 | aggregation has one entry per balance and keeps each balance's sum |
| `BalanceCredits.CaseIsSum` | lib/block_manager.js:336-346 | over distinct ids, the CASE expression adds each balance its sum |
| `BalanceCredits.AffectedIffAllExist` | lib/block_manager.js:346-352 | the affected-row check passes if and only if every credited balance exists |
| `BalanceCredits.UpdateBatch` | lib/block_manager.js:328-352 | one update credits its batch |
| `BalanceCredits.ApplyBalanceCredits` | lib/block_manager.js:325-355 | the updates of 100 rows together add to each balance its sum, or throw exactly when a balance is missing |
| `BlockPayout.ApplyWork` | lib/block_manager.js:715-722 | the record and the updates of 100 rows do what the transaction's work is stated to do |
| `BlockPayout.CreditInTransaction` | lib/block_manager.js:714-726 | as an instance of the transaction wrapper: committed, every balance grew by exactly the sum of its credits and all together by their total; otherwise nothing changed, and a begun transaction was rolled back |
| `BlockPayout.CollectPayments` | lib/block_manager.js:694-705 | one payment per row that comes to a whole unit, to the row's recipient, with short payment ids dropped |
| `BlockPayout.LookUp` | lib/block_manager.js:299-322 | in every interleaving of the workers' steps the credits are the payments, each to the balance of its own recipient, and no known balance changes |
| `BlockPayout.ResolvedGrowth` | lib/block_manager.js:694-708 | for every balance the credits add up to the floors of fraction times reward over the rows of its recipient |
| `SqlTransaction.Connection.WithTransaction` | lib/common/mysql_transaction.js:10-35 | all of the work is stored or nothing; the connection is released exactly once and last, rolled back exactly when begun and not committed, and still in a transaction exactly when that rollback fails |
| `BlockPayout.DoPplnsPayments` | lib/block_manager.js:677-742 | credited, each balance grew by exactly the sum of floor(fraction x reward) over the stored rows whose recipient resolves to it, every row of at least a unit has a balance and no two recipients share one; otherwise nothing changed; and exactly which replies make it credit, report paid, stop the manager or throw |
| `BlockPayout.PrecalculatedMatchesReward` | lib/block_manager.js:594-606 | the bounds on the credits hold at whichever top height the precalculation found work |
| `BlockPayout.PayBlock` | lib/block_manager.js:551-742 | from shares to balances, with the retries at other heights: a credited payout raises each balance by exactly its recipient's rows, and all together by at most the reward and by more than 0.9999 of it minus one unit per row |
| `BlockPayout.RowFromShares` | lib/block_manager.js:551-645 | each of those rows is what fits the window of its recipient's pieces of the shares, as a fraction of the window that was paid |
| `BalanceCredits.BalancesGrowByCredits` | lib/block_manager.js:715-722 | the balances together grow by the total of the credits |
| `ChunkedScan.RankKeepsOrder` | lib/long_runner.js:60-108 | keys compared as byte strings may be taken by their rank |
| `ChunkedScan.LowerBound` | lib/long_runner.js:84-89 | positioning at a key finds the first entry not below it |
| `ChunkedScan.BeyondIsPast` | lib/long_runner.js:80-90 | resuming continues with exactly the keys beyond the last one, in both directions |
| `ChunkedScan.ReadChunk` | lib/long_runner.js:91-98 | a chunk is the next entries in scan order, and the scan is done exactly when it is short |
| `ChunkedScan.ScanDb` | lib/long_runner.js:60-108 | in both directions, for every chunk size and whatever changes between chunks, visited keys are strictly monotone and every key present throughout is visited |
| `AltBlockPruning.AltBlockStore.FlushDeletes` | lib/long_runner.js:116-136 | a flush deletes exactly the listed keys, missing ones included |
| `AltBlockPruning.AltBlockStore.VisitChunk` | lib/long_runner.js:348-370 | visiting a chunk keeps per-port counts and deletes in batches while the scan goes on |
| `AltBlockPruning.AltBlockStore.CleanAltBlockDB` | lib/long_runner.js:332-372 | pruning while scanning in chunks leaves exactly the specified rows, for every chunk size |
| `AltBlockPruning.KeptExactly` | lib/long_runner.js:358-368 | a block is kept if and only if it is locked, or within its port's newest 10000 and one year |
| `AltBlockPruning.PruningIsFinal` | lib/long_runner.js:332-372 | pruning again at the same time deletes nothing |
| `PoolStats.OneAnswer` | lib/pool_stats.js:339-354 | totals, port counts and head are determined by the rows |
| `PoolStats.BuildAltBlockState` | lib/pool_stats.js:339-354 | a full rebuild describes the rows the cursor reaches |
| `PoolStats.ScanUntil` | lib/pool_stats.js:430-444 | the delta scan sums the rows above the cached head, or all visible rows when it does not come to that head |
| `PoolStats.PoolStats.RefreshAltBlockState` | lib/pool_stats.js:406-465 | the method computes a function of the cached totals, the store and its size, about which the following rows speak |
| `PoolStats.PoolStats.RefreshBlockState` | lib/pool_stats.js:357-403 | the same function without ports, for the pool's own blocks |
| `PoolStats.TotalExactIff` | lib/pool_stats.js:406-465 | each single total is what a rebuild counts if and only if the refresh rebuilds or the visible rows up to the head number as many as before |
| `PoolStats.RefreshIsRebuildIff` | lib/pool_stats.js:406-465 | a refresh equals a rebuild if and only if the entry count is below the cached total, the head is gone, or the visible rows up to the head number as many as before for every pool type and port |
| `PoolStats.BlockRefreshIsRebuildIff` | lib/pool_stats.js:357-403 | the same for the pool's own blocks, where only the two totals without ports count |
| `PoolStats.GrownStoreIsExact` | lib/pool_stats.js:412-462 | after insertions above the head and harmless edits a refresh equals a rebuild |
| `PoolStats.ShrunkStoreIsExact` | lib/pool_stats.js:414-418 | after deletions that the entry count shows a refresh equals a rebuild |
| `PoolStats.ReplacedRowIsMiscounted` | lib/pool_stats.js:415-418 | after a deletion below the head and an insertion above it the refresh gives three where a rebuild gives two: a concrete store |
| `PoolStats.ZeroKeyHidesDeletion` | lib/pool_stats.js:230-249 | with a row at key zero a deletion goes unnoticed, and the refresh gives two where a rebuild gives one: a concrete store |
| `PoolStats.UnknownSizeHidesDeletion` | lib/pool_stats.js:252-262 | without an entry count a deletion below the head goes unnoticed: a concrete store |
| `ResponseCache.EvictIsShortestPrefix` | lib/api.js:138-142 | victims are the shortest least-recently-used prefix after which the new entry fits |
| `ResponseCache.ByteLengthIsEncoded` | lib/api.js:133-133 | the size of a body is the number of bytes of its UTF-8 encoding |
| `ResponseCache.ResponseCache.Get` | lib/api.js:112-126 | a hit is the unexpired body of the latest set of that key and becomes the most recent; an expired entry is removed |
| `ResponseCache.ResponseCache.Set` | lib/api.js:129-148 | an accepted set drops expired and evicted entries only, keeps both limits, and the check after eviction never rejects |
| `ResponseCache.ResponseCache.PruneExpired` | lib/api.js:104-108 | deleting while iterating removes exactly the expired entries |
| `ResponseCache.ResponseCache.EvictOldest` | lib/api.js:138-142 | the loop evicts exactly that prefix |
| `ResponseCache.ResponseCache.Clear` | lib/api.js:151-154 | clearing leaves no entry and no bytes |
| `ResponseCache.RunCalls` | lib/api.js:87-156 | over every sequence of calls and clocks, each hit is the unexpired body of the latest set of its key |
| `PaymentBatches.RowEvolvesTransitive` | lib/payments/processor.js:56-101 | the order on rows behind the state machine is transitive |
| `PaymentBatches.WrittenEvolves` | lib/payments/common.js:461-495 | every guarded write leaves a well-formed row that follows from the row it found |
| `PaymentBatches.RowWriteKeeps` | lib/payments/processor.js:286-365 | claiming, holding for retry, recording a transfer and escalating keep all tables consistent |
| `PaymentBatches.ClaimIsFirst` | lib/payments/processor.js:481-499 | the status guard of the claim passes only for a batch that nobody claimed, holds or sent |
| `PaymentBatches.SendKeeps` | lib/payments/processor.js:1133-1135 | a process that asks for the transfer after its claim asks for a batch not sent before |
| `PaymentBatches.ReserveKeeps` | lib/payments/planner.js:61-130 | a reservation pins exactly its balances and keeps all tables consistent |
| `PaymentBatches.ReleaseKeeps` | lib/payments/processor.js:847-874 | a release unpins exactly the batch's balances and keeps all tables consistent |
| `PaymentBatches.FinalizeKeeps` | lib/payments/processor.js:721-844 | finalising takes from each balance of the batch its gross amount, books one transaction, and keeps all tables consistent |
| `PaymentBatches.StepKeeps` | lib/payments/processor.js:56-101 | every write any process may make keeps the tables consistent and moves rows forward only |
| `PaymentBatches.RunKeeps` | lib/payments/processor.js:56-101 | so does every interleaving of writes |
| `PaymentSafety.EveryRunIsSafe` | lib/payments/processor.js:56-101 | in every interleaving of processes the wallet is asked at most once per batch, because one claim passes its guard; reservations are disjoint, every final batch has its one transaction, and credits equal balances plus payments |
| `PaymentSafety.SameStatusSameRow` | lib/payments/common.js:479-490 | comparing the status is enough for a stale process: an unchanged status means an unchanged row |
| `PaymentSafety.NeverReopened` | lib/payments/processor.js:94-101 | past the submit boundary a batch never becomes eligible again, keeps its transaction hash, and is released only by an operator |
| `PaymentSafety.PayoutsWithinCredits` | lib/payments/processor.js:809-824 | if reservations are made from current plans, no balance goes negative and what is sent from a balance never exceeds what was credited |
| `PaymentSafety.PinnedHolds` | lib/payments/processor.js:805-816 | while a batch is in flight, what its balances hold changes by credits only, whoever does what |
| `PaymentSafety.FinalizeOverdrawsIff` | lib/payments/processor.js:805-816 | a finalised batch leaves a balance negative if and only if its item exceeds what the balance held at any time since the reservation and what was credited after |
| `PaymentSafety.PlanStaysCurrent` | lib/payments.js:254-258 | a plan stays current until a batch of one of its balances is finalised |
| `PaymentSafety.StalePlanOverdraws` | lib/payments/planner.js:107-116 | a reservation from an outdated plan overdraws a balance: a concrete run of two runtimes |
| `PaymentProcessor.WalletMatchMeans` | lib/payments/processor.js:518-558 | unavailable, none, several, incomplete, and waiting for, missing or having its key: each answer exactly for the transfers listed and the key reply |
| `PaymentProcessor.Processor.HoldBatch` | lib/payments/processor.js:268-283 | nothing is written about the transfer, and the outcome is cleared exactly when the row is finalised and for review exactly when it is in review, whatever others did meanwhile |
| `PaymentProcessor.Processor.HoldBatchForRetry` | lib/payments/processor.js:286-318 | only a row without any submit stamp, hash or key is reopened, guarded by its status; the outcome says what the row says |
| `PaymentProcessor.Processor.MarkManualReview` | lib/payments/processor.js:344-367 | the one guarded escalation is tried with the hash, key and fee given; the outcome says what the row says, and the runtime stops exactly when that is review |
| `PaymentProcessor.Processor.ClaimForSubmit` | lib/payments/processor.js:481-499 | the one guarded claim is tried; one that goes through is the first for its batch, and this process holds the batch then |
| `PaymentProcessor.Processor.HandleLostSubmitClaim` | lib/payments/processor.js:502-515 | a lost claim is reported as what the other process made of the batch, and one in review stops the runtime |
| `PaymentProcessor.Processor.PersistSubmitted` | lib/payments/processor.js:877-893 | the one guarded record is tried with hash, key and fee; a stale process does not overwrite what another one settled |
| `PaymentProcessor.Processor.FinalizeBatch` | lib/payments/processor.js:721-844 | which write is tried, by hash, key and the wallet's reply; reported finalised exactly when the booking went through, all or nothing |
| `PaymentProcessor.Processor.ReleaseReservation` | lib/payments/processor.js:847-874 | the one guarded release is tried, and reported released exactly when it went through |
| `PaymentProcessor.Processor.ReconcileSubmitted` | lib/payments/processor.js:927-949 | the transfer is booked only when the wallet shows it and the fee is plausible; an implausible fee is for review, anything else waits; cleared means finalised with the runtime not stopped |
| `PaymentProcessor.Processor.RecordAndFinalize` | lib/payments/processor.js:617-624 | a transfer is recorded first, and booked only when that went through |
| `PaymentProcessor.Processor.ReconcileBatch` | lib/payments/processor.js:952-1027 | which writes are tried for each answer about the wallet's transfers, none of them a submission; cleared means finalised with the runtime not stopped |
| `PaymentProcessor.Processor.ReconcileCheckedError` | lib/payments/processor.js:627-661 | after an error that claims nothing was sent nothing is booked: without a match the batch waits, with any it is for review |
| `PaymentProcessor.Processor.ReconcileAmbiguous` | lib/payments/processor.js:912-924 | reconciled in the same call unless another process changed the row, and then nothing is tried; cleared means finalised |
| `PaymentProcessor.Processor.RecordAccepted` | lib/payments/processor.js:1030-1056 | an accepted transfer is recorded with the key there is, handed over when its key is missing, and booked only when the wallet shows it |
| `PaymentProcessor.Processor.AskWallet` | lib/payments/processor.js:1135-1157 | the process that holds the batch asks for the transfer exactly once, and which writes are tried for each reply |
| `PaymentProcessor.Processor.SubmitReservedBatch` | lib/payments/processor.js:1113-1158 | the wallet is asked exactly when the lock is held, the funds are there, the lock is still held and the claim goes through, in that order, and never for a batch claimed before; cleared means finalised |
| `PaymentProcessor.Processor.RecoverBatch` | lib/payments/processor.js:1080-1108 | what is tried by status: review stops, a retry is submitted, a reservation without stamp is released, anything else is reconciled; a batch reported recovered is no longer in flight |
| `PaymentProcessor.Processor.RecoverPendingBatches` | lib/payments/processor.js:1072-1110 | when recovery succeeds, every batch there was is finalised or released; otherwise it ended at the first that was not recovered, with all before it settled and the lock held for each; the wallet is asked only for batches that were waiting for a retry |
| `BatchUnlock.CollectUnsafeUnlockFlags` | manage_scripts/payment_batch_unlock.js:73-84 | each flag is raised exactly for its sign, and no flag is raised exactly when the batch has no trace of a transfer and, unconfirmed, no submit stamp |
| `BatchUnlock.CollectRiskFlags` | manage_scripts/payment_batch_unlock.js:87-95 | each flag is raised exactly for its oddity, and no flag is raised exactly for an unreleased reserved or retrying batch with all its balances reserved |
| `BatchUnlock.ReservedAreItems` | manage_scripts/payment_batch_unlock.js:137-154 | a batch in flight has reserved exactly the balances of its items |
| `BatchUnlock.UnlockTool.UnlockBatch` | manage_scripts/payment_batch_unlock.js:255-319 | for any stored rows: exactly when an unlock succeeds, what a refusal reports, and that row and balances change together or not at all; consistent tables stay consistent |
| `BatchUnlock.OnlySafeBatchesAreReleased` | manage_scripts/payment_batch_unlock.js:157-173 | for any stored rows, forced or not: released are only batches reserved or retrying at the transaction, or submitting and confirmed, loaded without trace of a transfer, and if loaded with a submit stamp, with no matching wallet transfer |
| `BatchUnlock.ReleaseFreesExactlyItsBalances` | manage_scripts/payment_batch_unlock.js:283-303 | for any stored rows, the release frees the balances reserved for the batch and no others, and takes nothing from any |
| `BatchUnlock.ReleasedUncheckedIff` | manage_scripts/payment_batch_unlock.js:276-299 | for any stored rows, a batch that is submitting at the transaction is released without the wallet showing no match if and only if it is confirmed, was loaded without a submit stamp and no other sign stands in the way |
| `BatchUnlock.ConsistentBatchesAreSafe` | manage_scripts/payment_batch_unlock.js:270-299 | in consistent tables only reserved, retrying or wallet-checked submitting batches are released, and one past the boundary unchecked if and only if it crossed the boundary after it was loaded |
| `BatchUnlock.UnstampedIsReleasedUnchecked` | manage_scripts/payment_batch_unlock.js:276-295 | a submitting row without a submit stamp is released under force and confirmation despite a matching transfer: a concrete row |
| `BatchUnlock.StampedRetryingIsChecked` | manage_scripts/payment_batch_unlock.js:276-295 | a retrying row with a submit stamp is released exactly with the wallet's consent |
| `BatchUnlock.UnconfirmedStaysBeforeBoundary` | manage_scripts/payment_batch_unlock.js:296-299 | without confirmation nothing past the boundary is released |
| `BatchUnlock.RaceReleasesSentBatch` | manage_scripts/payment_batch_unlock.js:276-295 | the unchecked release is possible: a concrete interleaving |
| `PaymentsRuntime.AfterFailStop` | lib/payments.js:129-148 | after the fail-stop no cycle starts and the cycle stamp stays, only a cycle begun before may still plan, and at most one reservation follows, only after a stop from outside, whose batch is not cleared |
| `PaymentsRuntime.Runtime.EnterFailStop` | lib/payments.js:129-148 | fail-stop is entered once and latched |
| `PaymentsRuntime.Runtime.OnConnectionClose` | lib/payments.js:107-127 | the loss of the connection stops the runtime wherever the cycle is |
| `PaymentsRuntime.Runtime.OnOutsideStop` | lib/payments.js:286-290 | a recovery requested from outside that stops the runtime keeps the connection and leaves the cycle where it is |
| `PaymentsRuntime.Runtime.ReleaseLock` | lib/payments.js:204-211 | stopping gives the lock back |
| `PaymentsRuntime.Runtime.StartCycle` | lib/payments.js:293-306 | a tick joins a cycle in progress, and a stopped runtime does nothing |
| `PaymentsRuntime.Runtime.OnConnected` | lib/payments.js:152-178 | a failed connection stops the runtime |
| `PaymentsRuntime.Runtime.OnConnectionId` | lib/payments.js:159-162 | the id and the close handlers belong to the kept connection |
| `PaymentsRuntime.Runtime.OnLockReply` | lib/payments.js:163-178 | a busy lock stops the runtime, a granted one leads to recovery |
| `PaymentsRuntime.Runtime.OnReleased` | lib/payments.js:169-172 | after a busy lock the connection is given back and the runtime stopped |
| `PaymentsRuntime.Runtime.BeginRecovery` | lib/payments.js:286-290 | recovery checks the latch and the lock again |
| `PaymentsRuntime.Runtime.OnVerified` | lib/payments.js:181-202 | the cycle goes on exactly when the lock is found held by the runtime's connection, whether stopped or not, and then reserves directly; otherwise the runtime stops |
| `PaymentsRuntime.Runtime.ReserveNext` | lib/payments.js:256-258 | a reservation follows a verification directly, after recovery, with all earlier batches of the cycle cleared, and after no fail-stop but one from outside |
| `PaymentsRuntime.Runtime.OnRecovered` | lib/payments.js:252-254 | only a successful recovery leads to planning |
| `PaymentsRuntime.Runtime.OnPlanned` | lib/payments.js:254-257 | planning follows recovery in the same cycle |
| `PaymentsRuntime.Runtime.NextBatch` | lib/payments.js:256-278 | lastPaymentCycle advances exactly when the plan is done without a fail-stop, and the next batch waits for the lock while the connection is there |
| `PaymentsRuntime.Runtime.OnReserved` | lib/payments.js:258-260 | a failed reservation ends the cycle |
| `PaymentsRuntime.Runtime.OnSubmitted` | lib/payments.js:260-278 | a batch that is not cleared ends the cycle and leaves lastPaymentCycle |
| `PaymentsRuntime.RunTurns` | lib/payments.js:90-306 | over every sequence of turns what happened is safe as a whole; after a fail-stop nothing starts or advances, and nothing is reserved but one batch at most after a stop from outside |
| `PaymentsRuntime.ReservedAfterStop` | lib/payments.js:180-202 | a stop from outside while the lock is being verified is followed by a reservation: a concrete run |

## Left out

- Floating-point rounding: `Math.fround`, double sums and the conversion of large integers to doubles; the latter is a parameter of `WorkCodec`, and `WorkMessage.RoundTrip` takes from it only that doubles from 2^63 on are integers.
- Bytes of a history slot and base64: a slot is the record of its three numbers, with the stamp rounded to seconds.
- The generated protobuf codecs: `WorkMessage` describes what they do to a message; the wire format follows the Protocol Buffers Encoding guide, sections "Base 128 Varints" and "Message Structure".
- LMDB and MySQL internals, and isolation between concurrent SQL transactions: tables are sequences and maps, transactions are atomic steps.
- PplnsPrecalc.PreCalculatePPLNSPayments: does not model shares without a timestamp, the caches written from port shares and stamps, the share dump and the e-mails.
- ShareRetention.CleanShareDB: does not model the in-progress flag, the retry count after a stuck cleanup and the deletion in several transactions.
- WorkCodec.RepairLegacyOverflow: offsets and ends that are not integers are not modelled.
- WorkMessage.RoundTrip: is about messages the generated codec accepts at once; the attempt after a repair is in `WorkDecode`, where required fields that are missing are left out.
- TaskQueue.RunScript: that nothing is left waiting is promised only while no worker or callback throws, because a throw leaves the queue pumping or unpumped.
- VerifierPool.VerifierPool.SlowHashAsync: does not model hashing without verifier hosts; which queue a task goes to and how many run at once is left open, so every schedule is covered.
- VerifierPool.VerifierPool.OnOutcome: assumes that callbacks do not throw; one that throws before its task is finished (lib/coins/index.js:226-232) would leave budget and queue slot taken.
- VerifierPool.VerifierPool.SweepExpired: assumes that callbacks do not enqueue during the sweep, and that a destroyed socket does not connect.
- PoolStats.PoolStats.RefreshAltBlockState: the recent-reward summaries built beside the totals are left out.
- BlockLifecycle.Run: covers one process lifetime; what a restart finds in the SQL tables is not modelled.
- BlockLifecycle.BlockManager.RunCycle: timers, overlapping cycles and the choice of payout header checks per coin are reduced to the order of calls and their replies.
- BalanceCredits.CreditResolver.GetOrCreateBalanceId: is the lookup as one atomic step of one process; its turns, races and failures are in `BalanceLookup`.
- SqlTransaction.Connection.WithTransaction: a failing commit is taken not to have happened, and a failing acquisition of the connection is left out.
- BalanceLookup.RunLookups: starts from a table with at most one row per recipient; statements of a process that ended are not modelled.
- PaymentBatches.StepKeeps: assumes rows are changed only by the modelled writes, and balances only by credits besides; net amounts, fees of items and the payments table are not modelled.
- PaymentProcessor.Processor.SubmitReservedBatch: an SQL error outside the finalising transaction abandons the call where it stands and is not modelled as a branch of its own; every prefix of the call keeps the tables consistent.
- PaymentProcessor.WalletMatchMeans: which transfer matches a batch is decided by the wallet data and given with each transfer; the wallet's replies are arbitrary.
- PaymentSafety.PayoutsWithinCredits: that plans are current is a premise, because nothing in the SQL guards it once the advisory lock is lost between its verification and the reservation.
- PaymentsRuntime.Runtime.OnRecovered: takes from the processor that success means it did not stop the runtime, which `PaymentProcessor.Processor.RecoverPendingBatches` shows.
- PaymentsRuntime.Runtime.StartCycle: a recovery requested from outside that opens the lock connection itself or loses it while the cycle opens one, the wallet-store heartbeat and the timers are left out.
- Planning of payments (thresholds, denominations, fees, batching), wallet and daemon calls, coin profiles, proof-of-work hashing, e-mail, logging, HTTP routes, statistics of workers and ports, and the other management scripts: request plumbing or single-branch guards.
- The circular buffer in `lib/common/support.js` and `findSeries` in `lib/common/callbacks.js`: easier than the history ring and `TaskQueue`.
