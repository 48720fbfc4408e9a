# Kryon: order book, settlement ledger and their neighbours, proved

Dafny 4.11 proofs about the off-chain half of Kryon. `dafny verify dfyconfig.toml` checks everything.

The centre is the order book and its ledger. `Matching` holds `matchAll` with its nested loops and early exits, proved
equal to a scan that visits every pair of orders; `MatchingTheorems` says what the matches are worth. `Ledger` holds the
`Order`, `Fill`, `TxJob` and `Market` rows and each group of SQL statements that the matcher and the reconciler run on
them, once as a function on the rows and once as a method of class `Database`. `LedgerFacts` and `Rollbacks` prove what
the groups keep and undo, and `Effects` says row by row what a persist, a rollback, a whole tick, a resubmission, a
failed transaction and an expiry leave behind. `Settlement` interleaves users, matcher, the requests of the sign route
and one reconciler over these rows. A step is one group of statements or one call to the chain; between two steps the
reconciler holds the rows its query returned and a request of the route the job it claimed, however outdated they
become. A run is any list of enabled steps, so a theorem about every run covers every interleaving of them. `Steps` says
what a step does as one job sees it. `Invariant` proves what every step keeps, and what only the orderly steps keep:
those that do not roll back the fill of a job they leave active. `SettlementTheorems` proves the ledger over the runs of
orderly steps and filled sizes and fills over every run, `JobLife` the life of a job, and `Orphans` which fills nobody
answers for, over every run. `Promises` says exactly when each promise of the settlement code holds, and `Histories` has
a run from a ledger without orders in which it breaks.

Around it: the WebAssembly section codec (`WasmSections`), liquidation sizing and search (`Liquidation`), signed
messages (`SigningMessage`, on `Strings`), order intake up to the matcher's signature check (`OrderIntake`), the local
rate limiter (`RateLimit`), price aggregation and the publish gate (`OracleKeeper`), and profit and loss (`Pnl`).
`Sequences`, `BigInt` and `Wrappers` are shared.

## Where the code does not keep a promise

Each item has an exact condition among the lemmas, and an input or a run that breaks it.

- A rollback is to remove the fill of a job that is finished with. Two steps leave the job active: a rollback that is
  cut off before the status update, and an expiry on an outdated row. The invariant is kept by all other steps and by
  none of these: `StepInvIff`. Expiry rolls back before it looks at the current status: `ExpiryRaceIff`,
  `ExpiryStrandsJob`.
- The reconciler's rollback is called safe to repeat (settlement-reconciler.ts:77-79). It is exactly when the fill was
  the only live one of both its orders: `RetryIdempotentIff`, `RollbackExactIff`, `RetryTakesFromOtherFill`. Filled
  sizes stay in bounds in any case: `BoundedOverEveryRun`.
- A CONFIRMED job is to stay confirmed. `recordSettlementFailure` sets FAILED over whatever is there, and the updates of
  a process that still holds the job have no guard: `TerminalLeftIff`, `SettledTradeMarkedFailed`,
  `ConfirmedJobMarkedFailed`. Otherwise a terminal status is final: `JobsOverEveryRun`.
- The claims are to prevent a double submission (settlement-reconciler.ts:188, sign/route.ts:147-149). The reconciler's
  also takes a SUBMITTED job without a hash, so it takes one that a request of the route is just sending:
  `DoubleSendIff`, `JobSentTwice`. The later hash overwrites the earlier one: `OverwrittenIff`.
- A job that is SUBMITTED without a hash is to be sent again. Unless someone still attends to it, nobody ever will:
  `StuckIff`, `StuckForever`, `DeadRequestLeavesJobStuck`.
- A confirmed trade is to carry its transaction's hash. The job is marked first and the fill stamped after; a
  reconciler that dies in between leaves the fill pending for good: `OrphanedIff`, `ConfirmedFillStaysPending`.
- A transaction the network lost is to be sent again (settlement-reconciler.ts:163). A SUBMITTED job with a recorded
  hash can never be claimed, so it never is: `LostTransactionResentIff`, `LostTransactionIgnored`,
  `LostTransactionStays`.
- Every terminal failure is to roll its fill back (settlement-reconciler.ts:81-85). The fill survives exactly when the
  job failed while being sent: `FailureRollsBackIff`, `FailedSendStrandsFill`.
- A rolled-back match is to be matched and settled again. On the signing path the upsert does not reopen a finished
  job, so the second fill waits for nobody: `RequeuedIff`, `RequeuedTradeStranded`. These are two of the five ways to
  a fill that nobody answers for, and such a fill stays: `OrphanedIff`, `OrphansOverEveryRun`, `OrphanForever`.
- The reconciler never gives volume back; the surplus is exactly the notional it rolled back: `LedgerOverEveryRun`.
- The first liquidation size is to restore the account. Below a bare minimum of 4 the safety margin is rounded away:
  `FirstRungRestoresIff`, `FirstRungTooSmall`. A shortfall that rounds to nothing starts with half of the position:
  `HeadMonotoneIff`, `SmallShortfallClosesHalf`.
- The splitter accepts a module that is cut short and the joiner rewrites it: `JoinSplitIff`, `TruncatedModuleAccepted`.
  The doc blanking is off by the extra bytes of a name length that is not minimal: `SpecContentIff`,
  `LongNameLengthShiftsSpec`.

## Idealisations

- `pseudoTxHash` is a 32-bit hash in the source. Here it is the tuple that is hashed, so it is injective and never
  equal to the hash of a transaction.
- Each group of SQL statements of one helper is one step, except that the reconciler may die inside its rollback and
  inside its confirmation. The ages that the reconciler's queries ask for are left out:
  it may read any row that is QUEUED or SUBMITTED, at any time it is not inside `resubmitJob`.
- The orders of the histories are rows without a stored signature. The intake (`OrderIntake.Validate`) refuses new ones,
  but the matcher still serves such rows on its queue path, so `PlaceOrder` places them too.
- The chain, the oracle, signature verification, UTF-8 decoding, the doc-blanking tool, `Number(…)` and clocks are
  parameters. Source prices are rationals. Sizes and prices are unbounded integers, as BigInt is.
- JavaScript's `sort` is the stable insertion sort of `Sequences`, which `SortSorted` and `SortStable` describe.
- Order ids are the pair (owner, nonce) rather than the string `owner:nonce`.
- In `read_uleb` the bits that `|=` joins are disjoint (`ReadUlebStep` keeps the old ones below the new), so it is a sum.

## Model

| member | source | states |
|---|---|---|
| Sequences.SortSorted | client/scripts/matcher-service.ts:185-191 | sorting by a total preorder gives a sorted sequence of the same elements |
| Sequences.SortStable | client/scripts/matcher-service.ts:185-191 | elements that tie keep their order |
| Matching.SidesSorted | client/scripts/matcher-service.ts:185-191 | the two sides of the book hold exactly the limits of that side, in price-time order |
| Matching.ExhaustedRowIdle | client/scripts/matcher-service.ts:206 | leaving a row when its order is exhausted skips nothing that would have traded |
| Matching.UncrossedRowIdle | client/scripts/matcher-service.ts:230 | leaving a row at the first ask above the bid skips nothing that would have crossed |
| Matching.TakeLiquidity | client/scripts/matcher-service.ts:197-207 | the inner loop of the market passes, with its exits, equals visiting the whole opposite side |
| Matching.CrossBid | client/scripts/matcher-service.ts:228-242 | the inner loop of the limit pass, with its exits, equals visiting every ask |
| Matching.MatchAll | client/scripts/matcher-service.ts:174-246 | both passes emit the matches of the scan over all pairs, in the same order |
| MatchingTheorems.MatchSpecInv | client/scripts/matcher-service.ts:178-182 | after each scan pending fills equal the traded sizes, nothing is overfilled, and every matched pair is settled |
| MatchingTheorems.NoOverfill | client/scripts/matcher-service.ts:171-182 | pending fills are the emitted fills per order, filled plus matched never exceeds the size, no pair is matched twice |
| MatchingTheorems.LongVolumeIsShortVolume | client/scripts/matcher-service.ts:196-243 | the volume bought equals the volume sold |
| MatchingTheorems.PairSettled | client/scripts/matcher-service.ts:227-243 | two orders that met in a scan and could trade are not both left open |
| MatchingTheorems.Maximality | client/scripts/matcher-service.ts:196-243 | no crossing pair of different owners is left, and no market order beside a limit it could take |
| MatchingTheorems.Origin | client/scripts/matcher-service.ts:196-243 | every match pairs two orders of one scan, and all earlier partners of either end exhausted |
| MatchingTheorems.PriceTimePriority | client/scripts/matcher-service.ts:169 | when a limit trades, every strictly better limit of its side ends with nothing left unless its owner is the counterparty |
| MatchingTheorems.MarketQueuePriority | client/scripts/matcher-service.ts:154-196 | market orders take resting limits only; every market order of the same side that was loaded earlier and could trade with the limit ends with nothing left |
| MatchingTheorems.TiesInOrder | client/scripts/matcher-service.ts:185-191 | limits of the same side, price and age are served in the order in which they were loaded |
| MatchingTheorems.StagesInOrder | client/scripts/matcher-service.ts:193-227 | market sells trade before market buys, and both before limits cross |
| MatchingTheorems.FewerMatchesThanOrders | client/scripts/matcher-service.ts:201-205 | a call emits fewer matches than there were open orders |
| MatchingTheorems.PriceWithinLimits | client/scripts/matcher-service.ts:235-240 | the maker is a limit, its price rules, lies between the two limits, and between limits the older order makes |
| MatchingTheorems.TickStaysInBand | client/scripts/matcher-service.ts:634-651 | every match of the filtered book deviates from the oracle by at most the allowed basis points, up or down; without an oracle price there are none |
| MatchingTheorems.BandMeaning | client/scripts/matcher-service.ts:554-557 | the floored band holds exactly the prices that deviate no more than the allowed basis points |
| MatchingTheorems.PreFilterIff | client/scripts/matcher-service.ts:634-636 | a loaded limit is kept exactly when its price deviates no more, and none without an oracle price |
| MatchingTheorems.PreFilterInOrder | client/scripts/matcher-service.ts:634-636 | the limits that are kept stay in the order in which they were loaded |
| Ledger.Database.RaiseFilled | client/scripts/matcher-service.ts:293-300 | the guarded increment happens exactly when the order has room, and nothing else changes |
| Ledger.Database.LowerFilled | client/scripts/matcher-service.ts:356-361 | the clamped decrement of one order and nothing else; nothing for a missing order |
| Ledger.Database.PersistFill | client/scripts/matcher-service.ts:260-332 | all four exits with the exact rows each leaves |
| Ledger.Database.RollbackFill | client/scripts/matcher-service.ts:337-372 | the fill is deleted, volume and both filled sizes are given back with clamps |
| Ledger.Database.RecordSettlementFailure | client/scripts/matcher-service.ts:395-415 | the job becomes FAILED, whatever it was, and keeps its hash and payload; no other row changes |
| Ledger.Database.ExecuteSettlement | client/scripts/matcher-service.ts:417-525 | confirmed on the signed path, queued on the other, failed when refused |
| Ledger.Database.CancelPoisonOrder | client/scripts/matcher-service.ts:579-584 | only the cancelled flag of that order changes |
| Ledger.Database.MatcherTick | client/scripts/matcher-service.ts:620-689 | a market's tick is the fold of band check, quarantine, persist, settle and rollback over the matches |
| Ledger.Database.RollbackJobFill | client/scripts/settlement-reconciler.ts:87-104 | the reconciler's rollback, which leaves the volume alone |
| Ledger.Database.ResubmitJob | client/scripts/settlement-reconciler.ts:171-269 | claim, send, record, poll, with the job and fill each outcome leaves |
| Ledger.Database.ReconcileSubmitted | client/scripts/settlement-reconciler.ts:108-167 | the effect of each chain answer on job, fill and orders |
| Ledger.Database.ExpireStaleQueued | client/scripts/settlement-reconciler.ts:273-299 | every returned job without both signatures is rolled back and failed |
| LedgerFacts.PersistComplete | client/scripts/matcher-service.ts:288-311 | with room on both sides a persist writes everything or finds the fill there; the half-written exits are unreachable |
| LedgerFacts.WrittenKeeps | client/scripts/matcher-service.ts:264-322 | writing a fill keeps filled sizes equal to the live fills |
| LedgerFacts.LiveFill | client/scripts/settlement-reconciler.ts:91-103 | a live fill is contained in the filled size of both its orders |
| LedgerFacts.RollbackLive | client/scripts/settlement-reconciler.ts:91-103 | rolling back a live fill hits no clamp and keeps the ledger exact |
| LedgerFacts.StampKeeps | client/scripts/settlement-reconciler.ts:132-141 | stamping the chain hash moves no size and no other pending fill |
| Rollbacks.ReturnExact | client/scripts/matcher-service.ts:349-355 | a live fill's notional is given back in full |
| Rollbacks.TwinStep | client/scripts/matcher-service.ts:642-687 | an operation on another fill does the same with and without a given fill in the table |
| Rollbacks.RollbackUndoesPersist | client/scripts/matcher-service.ts:334-336 | after any operations on other fills, rolling a fill back gives what would have been without it |
| Rollbacks.RejectedLeavesOnlyTrace | client/scripts/matcher-service.ts:379-394 | a refused settlement leaves the ledger as it was and one FAILED job |
| Rollbacks.RetryIdempotentIff | client/scripts/settlement-reconciler.ts:77-79 | repeating the reconciler's rollback is idle exactly when the fill was the only live one of both orders |
| Rollbacks.RollbackExactIff | client/scripts/settlement-reconciler.ts:91-103 | a rollback leaves filled sizes equal to live fills exactly when the fill is live or neither order has fills |
| Effects.PersistExits | client/scripts/matcher-service.ts:284-332 | on any tables: known fills are left alone, a new row stays even without room, only with room for both is the fill reported and the volume booked |
| Effects.PersistRaises | client/scripts/matcher-service.ts:291-311 | the maker is raised if it has room, the taker if both have, and no other order changes |
| Effects.PersistWrites | client/scripts/matcher-service.ts:264-322 | a match with room adds its own pending row, raises both orders by its size, and sets its market's last price and volume |
| Effects.RollbackWrites | client/scripts/matcher-service.ts:337-372 | on any tables: exactly the rows under the pending hash go; both orders and the volume are lowered, not below zero, and the last price stays |
| Effects.SettlementWrites | client/scripts/matcher-service.ts:417-525 | an attempt writes only the job of its fill: FAILED, CONFIRMED with the hash, or queued with an empty payload unless it was there |
| Effects.TickWrites | client/scripts/matcher-service.ts:642-687 | after a tick exactly the matches that are near the oracle, validly signed, new and accepted have a row, in order, and fill their orders; each attempted match has the job its answer asks for, all other jobs are untouched; exactly the matched orders with bad signatures are cancelled |
| Invariant.MatchesFit | client/scripts/matcher-service.ts:622-642 | the matches of a freshly loaded book fit into its orders all together |
| Steps.HeadFits | client/scripts/matcher-service.ts:643-660 | the next match of a tick has room whatever other processes did meanwhile |
| Invariant.StepKept | client/scripts/settlement-reconciler.ts:303-337 | every step of every process keeps the bounds of the orders, the room for the tick and what is known of each job and of those who hold it |
| SettlementTheorems.EveryRunKept | client/scripts/settlement-reconciler.ts:303-337 | so it holds in every state that any run from an empty ledger reaches; the theorems about jobs start from such states |
| Invariant.ExactPersist | client/scripts/matcher-service.ts:660 | persisting the next match keeps filled sizes equal to the live fills and the volume accounted for |
| Invariant.ExactRollbackInflight | client/scripts/matcher-service.ts:674 | so does rolling it back |
| Invariant.ExactRemoval | client/scripts/settlement-reconciler.ts:91-103 | so does the reconciler's rollback of a live fill, with its volume booked as surplus |
| Invariant.ExactStamp | client/scripts/settlement-reconciler.ts:131-142 | so does stamping a fill with the hash of its transaction |
| Invariant.StepInvIff | client/scripts/settlement-reconciler.ts:303-337 | the invariant is kept by every step of every process but those that roll back a job they leave active, and by none of these |
| SettlementTheorems.LedgerOverEveryRun | client/scripts/settlement-reconciler.ts:74-86 | in every state reached by such steps filled sizes are the live fills, active jobs have exactly one, volume is base plus live plus rolled back by the reconciler |
| SettlementTheorems.NoHalfWrittenFill | client/scripts/matcher-service.ts:291-311 | no run whatever reaches the half-written exits of a persist |
| SettlementTheorems.BoundedOverEveryRun | client/scripts/settlement-reconciler.ts:147-156 | filled sizes stay between 0 and the size over every run, rollbacks cut off, repeated or on outdated rows included |
| SettlementTheorems.TickKeepsInv | client/scripts/matcher-service.ts:614-692 | the matcher's tick as a whole keeps the invariant |
| SettlementTheorems.ResubmitKeepsInv | client/scripts/settlement-reconciler.ts:171-269 | so does the resubmission of any row read earlier |
| SettlementTheorems.ExpireAllKeepsInv | client/scripts/settlement-reconciler.ts:282-294 | so does the expiry loop, unless one of its jobs was submitted since the query |
| JobLife.TerminalLeftIff | client/scripts/matcher-service.ts:395-415 | a terminal status changes exactly when the same match settles again with the opposite outcome, or a process still holding the job writes its own |
| JobLife.StatusAdvances | client/scripts/settlement-reconciler.ts:126-130 | a step moves a job from QUEUED to SUBMITTED to terminal and never back, and never straight from QUEUED to CONFIRMED |
| JobLife.JobsOverEveryRun | client/scripts/settlement-reconciler.ts:188-196 | over every run the order holds, a hash is permanent once nobody is recording another, a terminal status is final once nobody holds the job unless its match is settled again |
| JobLife.FastPathFinal | client/scripts/matcher-service.ts:284-289 | a trade settled on the fast path stays CONFIRMED, with its hash and its fill, over every run |
| JobLife.SendsOverEveryRun | client/scripts/settlement-reconciler.ts:188-196 | over every run each of the two senders sends a job at most once, and both only a contested one |
| JobLife.DoubleSendIff | client/app/api/settlements/[id]/sign/route.ts:147-155 | after a claim of the reconciler a double send can follow exactly if the route holds the job or has sent it; never from QUEUED |
| JobLife.OverwrittenIff | client/app/api/settlements/[id]/sign/route.ts:210-212 | a recorded hash can be overwritten exactly while some process is yet to record another |
| JobLife.OnlyContested | client/scripts/settlement-reconciler.ts:188-196 | both need a job that the reconciler claimed while it was SUBMITTED |
| JobLife.ContestedIff | client/scripts/settlement-reconciler.ts:189-195 | which happens exactly by a claim that finds it SUBMITTED without a hash, on a row read while it was QUEUED |
| JobLife.StuckForever | client/scripts/settlement-reconciler.ts:113 | a SUBMITTED job without a hash that nobody attends to stays so over every run, its fill live |
| JobLife.StuckKeepsOrdersFilled | client/scripts/settlement-reconciler.ts:81-85 | over the runs of orderly steps it also fills both its orders |
| JobLife.StuckIff | client/app/api/settlements/[id]/sign/route.ts:167-170 | a job gets there exactly when the last one attending to it lets go |
| Orphans.OrphanedIff | client/scripts/settlement-reconciler.ts:252-268 | a live fill is orphaned exactly by a matcher that dies before settling, a settlement queued onto a finished job, a failed send of either sender, or a reconciler that dies between confirming and stamping |
| Orphans.OrphansOverEveryRun | client/scripts/matcher-service.ts:672-676 | over every run there is no other way |
| Orphans.OrphanForever | client/scripts/settlement-reconciler.ts:81-85 | an orphan that the reconciler has no row of is neither settled nor undone by any run |
| Orphans.OrphanKeepsOrdersFilled | client/scripts/settlement-reconciler.ts:81-85 | over the runs of orderly steps it also fills both its orders |
| Promises.ConfirmStampsFill | client/scripts/settlement-reconciler.ts:131-142 | success stamps exactly the job's own fill and confirms the job if it is still SUBMITTED |
| Effects.ConfirmSentStampsFill | client/scripts/settlement-reconciler.ts:234-250 | a resubmitted transaction that succeeds stamps exactly the job's own fill with the hash it was sent under and the ledger, and confirms the job |
| Effects.ResubmitOutcomes | client/scripts/settlement-reconciler.ts:171-269 | it acts exactly on a job with both entries that is QUEUED, or SUBMITTED without a hash; status, hash and fill follow from the send and the first poll that settles it, and nothing else changes |
| Effects.FailedPollWrites | client/scripts/settlement-reconciler.ts:147-156 | a transaction that failed on chain takes its one fill and exactly its size off both orders, keeps the volume, and fails the job if it is still SUBMITTED |
| Effects.ExpiryWrites | client/scripts/settlement-reconciler.ts:282-293 | an expiry does the same to a job without both entries, if it is still QUEUED, and nothing to one with both |
| Promises.LostTransactionResentIff | client/scripts/settlement-reconciler.ts:163-196 | a lost transaction is sent again exactly when the job is claimable |
| Promises.LostTransactionIgnored | client/scripts/settlement-reconciler.ts:113-166 | which it is in no state that any run reaches; an unreachable chain or a row without a hash changes nothing either |
| Promises.FailureRollsBackIff | client/scripts/settlement-reconciler.ts:252-268 | a failed job's fill survives exactly when the failure came while sending |
| Promises.RequeuedIff | client/scripts/matcher-service.ts:513-521 | a queued settlement waits for the reconciler exactly when no job row existed |
| Promises.ExpiryRaceIff | client/scripts/settlement-reconciler.ts:282-293 | expiry strands the job exactly when it was submitted since its row was read |
| Histories.ReachableIff | client/scripts/settlement-reconciler.ts:303-337 | the reachable states of the histories are those that runs from an empty ledger lead to |
| Histories.FailedSendStrandsFill | client/scripts/settlement-reconciler.ts:261-268 | a run after which a failed send leaves a FAILED job with a live fill |
| Histories.DeadRequestLeavesJobStuck | client/app/api/settlements/[id]/sign/route.ts:150-170 | a run after which a request dies behind its claim and leaves the job stuck |
| Histories.LostTransactionStays | client/scripts/settlement-reconciler.ts:163-166 | a run to a lost transaction that the reconciler ignores |
| Histories.RequeuedTradeStranded | client/scripts/matcher-service.ts:513-521 | a run in which a trade that failed on chain trades again and is orphaned |
| Histories.ExpiryStrandsJob | client/scripts/settlement-reconciler.ts:282-293 | a run in which expiry takes the fill of a job that was submitted meanwhile |
| Histories.RetryTakesFromOtherFill | client/scripts/settlement-reconciler.ts:147-156 | a run in which a repeated rollback takes the size of another fill |
| Histories.SettledTradeMarkedFailed | client/scripts/matcher-service.ts:395-415 | a run in which the job of a trade settled on chain turns FAILED |
| Histories.ConfirmedFillStaysPending | client/scripts/settlement-reconciler.ts:126-141 | a run after which a confirmed trade keeps its pending hash |
| Histories.JobSentTwice | client/scripts/settlement-reconciler.ts:226-228 | a run in which route and reconciler both send a job and the second hash overwrites the first |
| Histories.ConfirmedJobMarkedFailed | client/app/api/settlements/[id]/sign/route.ts:214-222 | a run in which the route marks a job FAILED that the reconciler confirmed |
| WasmSections.ReadUlebAt | kryon-protocol/infra/deploy/optimize-wasm.py:57-65 | the shifting loop reads what the recursive definition of the number says |
| WasmSections.WriteUlebBytes | kryon-protocol/infra/deploy/optimize-wasm.py:68-77 | the writing loop produces the recursive encoding |
| WasmSections.UlebRoundTrip | kryon-protocol/infra/deploy/optimize-wasm.py:57-77 | a written number is read back with its exact length, whatever surrounds it |
| WasmSections.UlebCanonicalIff | kryon-protocol/infra/deploy/optimize-wasm.py:57-77 | a read number is written back the same exactly when it was minimal |
| WasmSections.ReadName | kryon-protocol/infra/deploy/optimize-wasm.py:90-93 | the name of a custom section, or the error |
| WasmSections.SplitSections | kryon-protocol/infra/deploy/optimize-wasm.py:80-96 | the splitting loop equals the recursive splitter, errors included |
| WasmSections.JoinSections | kryon-protocol/infra/deploy/optimize-wasm.py:99-105 | the joining loop equals the concatenation of the encoded sections |
| WasmSections.SplitJoinIff | kryon-protocol/infra/deploy/optimize-wasm.py:80-105 | joined sections split into themselves exactly when they are named consistently |
| WasmSections.JoinSplitIff | kryon-protocol/infra/deploy/optimize-wasm.py:80-105 | a module is rebuilt exactly when its sizes are minimal and it is complete |
| WasmSections.TruncatedModuleAccepted | kryon-protocol/infra/deploy/optimize-wasm.py:89 | a module cut short is split without an error and joined into another one |
| WasmSections.FilterSections | kryon-protocol/infra/deploy/optimize-wasm.py:149-157 | the loop drops and rewrites exactly the named sections |
| WasmSections.Optimize | kryon-protocol/infra/deploy/optimize-wasm.py:141-161 | split, filter, join, with the splitter's errors |
| WasmSections.OptimizedSplits | kryon-protocol/infra/deploy/optimize-wasm.py:11-20 | the output splits into the kept sections; all but the spec are byte for byte and in order |
| WasmSections.StripRemovesOnlySpecAndMeta | kryon-protocol/infra/deploy/optimize-wasm.py:149-152 | with --strip-spec the output has the input's sections, unchanged and in order, all but the custom sections whose own bytes spell contractspecv0 or contractmetav0 |
| WasmSections.NothingLostWithoutStrip | kryon-protocol/infra/deploy/optimize-wasm.py:149-157 | without it every section is in its place, unchanged but for the spec, which keeps its name in front of the blanked bytes from 15 on |
| WasmSections.NotWasmIff | kryon-protocol/infra/deploy/optimize-wasm.py:82 | a module is refused as not being one exactly when it does not start with the magic bytes and version 1 |
| WasmSections.LongNameLengthShiftsSpec | kryon-protocol/infra/deploy/optimize-wasm.py:153-156 | a spec section whose name length takes two bytes, and what the rewrite makes of it |
| WasmSections.SpecContentIff | kryon-protocol/infra/deploy/optimize-wasm.py:153-156 | the blanked part is the spec's content exactly when the name length took one byte |
| Liquidation.CloseSizeLadder | client/lib/market/liquidation-sizing.ts:53-78 | strictly ascending, exactly the rungs, at most three, within the position, ending in all of it |
| Liquidation.FirstRungBounds | client/lib/market/liquidation-sizing.ts:33-37 | from a bare minimum of 4 the first rung covers the shortfall and exceeds it by at most a quarter |
| Liquidation.FirstRungRestoresIff | client/lib/market/liquidation-sizing.ts:65-72 | it covers the shortfall if and only if the bare minimum is at least 4 or its own floored notional still covers it |
| Liquidation.UnroundedRestores | client/lib/market/liquidation-sizing.ts:65-72 | a bare minimum that was not rounded covers it |
| Liquidation.ExactNotionalIff | client/lib/market/liquidation-sizing.ts:65-72 | where the position's notional is exact, these are the only cases |
| Liquidation.FirstRungTooSmall | client/lib/market/liquidation-sizing.ts:65-72 | an input where it does not |
| Liquidation.LadderHead | client/lib/market/liquidation-sizing.ts:73-77 | the first entry of the ladder is the smallest rung |
| Liquidation.HeadMonotoneIff | client/lib/market/liquidation-sizing.ts:41-48 | a deeper shortfall starts no lower exactly when the shallower does not round to nothing, or the deeper starts at half too |
| Liquidation.SmallShortfallClosesHalf | client/lib/market/liquidation-sizing.ts:69-73 | an input where the smaller shortfall closes more |
| Liquidation.LiquidateAccount | client/scripts/liquidation-keeper.ts:270-335 | the smallest accepted size of the first position that has one, by size times entry price and then by the order given; nothing only if everything is refused |
| Strings.JoinInjective | client/lib/market/signing-message.ts:26-28 | parts without the separator are read back from their join |
| Strings.JoinInjectiveAfterFirst | client/lib/market/signing-message.ts:85-96 | so are parts behind a first part that may contain it |
| Strings.PrintParses | client/lib/validation.ts:32-41 | a printed integer is accepted and read back |
| Strings.ParsePrintsIff | client/lib/validation.ts:32-41 | an accepted spelling prints as itself exactly when it is canonical |
| SigningMessage.SettlementMessageInjective | client/lib/market/signing-message.ts:80-97 | equal settlement messages have equal domain, key and order fields |
| SigningMessage.SettlementLayout | client/lib/market/signing-message.ts:69-97 | the settlement message is the documented ten fields in their order, separated by bars |
| SigningMessage.CanonicalPairsInjective | client/lib/market/signing-message.ts:26-28 | a message determines its values |
| SigningMessage.PlaceLayout | client/lib/market/signing-message.ts:31-54 | the text of a place-order message, line by line |
| SigningMessage.CancelLayout | client/lib/market/signing-message.ts:106-118 | the text of a cancel message |
| SigningMessage.CancelAllLayout | client/lib/market/signing-message.ts:133-147 | the text of a bulk-cancel message |
| SigningMessage.PlaceMessageInjective | client/lib/market/signing-message.ts:31-54 | a place-order message determines order and network |
| SigningMessage.CancelMessageInjective | client/lib/market/signing-message.ts:106-118 | a cancel message determines owner, nonce and network |
| SigningMessage.CancelAllMessageInjective | client/lib/market/signing-message.ts:133-147 | a bulk-cancel message determines owner, time, scope and network |
| SigningMessage.MessagesNeverCoincide | client/lib/market/signing-message.ts:31-147 | the four kinds of messages are pairwise different |
| OrderIntake.StoreLoads | client/app/api/orders/route.ts:57-78 | the stored row loads as the accepted order |
| OrderIntake.AcceptedOrderSettleable | client/scripts/matcher-service.ts:564-577 | intake and matcher verify the same bytes, so no accepted order is quarantined; accepted orders are in bounds |
| OrderIntake.SettlementSigIff | client/scripts/matcher-service.ts:564-577 | an order with a signature passes exactly when it verifies against the bytes rebuilt from its own stored fields |
| OrderIntake.SettlementMessageBinds | client/scripts/matcher-service.ts:564-577 | stored orders with the same bytes agree in every signed field |
| OrderIntake.SpacesIgnored | client/lib/validation.ts:32-41 | a number is read the same whatever white space surrounds it |
| OrderIntake.AcceptedIff | client/lib/validation.ts:53-135 | a body is accepted as an order exactly when its fields have the right types and spell that order, the order is in bounds, and the signature verifies against its settlement message |
| OrderIntake.ClientOrderAcceptedIff | client/lib/validation.ts:53-135 | a client's order is accepted exactly when it is in bounds and signed, with the client's own numbers |
| OrderIntake.NonceSource.NextOrderNonce | client/lib/market/order-intent.ts:37-41 | the nonce is above the last one and not below the clock, and the state moves on |
| OrderIntake.NoncesIncrease | client/lib/market/order-intent.ts:18-33 | nonces strictly increase whatever the clock does, and stay near the clock |
| RateLimit.Limiter.LocalRateLimit | client/lib/rate-limit.ts:35-51 | the answer and the new table, pruning included |
| RateLimit.Limiter.DeleteExpired | client/lib/rate-limit.ts:38-40 | the deleting loop removes exactly the expired buckets |
| RateLimit.PruningInvisible | client/lib/rate-limit.ts:37-41 | under a monotone clock pruning never changes an answer |
| RateLimit.FirstWindow | client/lib/rate-limit.ts:43-50 | within a minute of the first request of a key, request i passes exactly if i is 1 or at most the limit |
| RateLimit.NextWindow | client/lib/rate-limit.ts:43-47 | the first request after that minute and all behind it are answered as if nothing had come before |
| RateLimit.KeysIndependent | client/lib/rate-limit.ts:43-50 | the requests of other keys change nothing for a key |
| RateLimit.SlidingWindowBound | client/lib/rate-limit.ts:43-50 | any interval of the window's length admits fewer than twice the limit of that key |
| RateLimit.BoundAttained | client/lib/rate-limit.ts:43-50 | and for every limit one less than twice is attained |
| OracleKeeper.OrderIrrelevant | client/scripts/oracle-keeper.ts:194-198 | the aggregate does not depend on the order of the answers |
| OracleKeeper.AggregateIff | client/scripts/oracle-keeper.ts:200-212 | there is an aggregate exactly when enough sources answered and no two answers are further apart than the bound allows, and it counts them |
| OracleKeeper.MedianMeaning | client/scripts/oracle-keeper.ts:214-216 | the mid price is halfway between the two answers in the middle, or the one there is |
| OracleKeeper.CloseToEverySource | client/scripts/oracle-keeper.ts:208-216 | the mid price is within the deviation bound of every source |
| OracleKeeper.OneLiarIsContained | client/scripts/oracle-keeper.ts:184-189 | of three answers no one moves the mid price outside the other two |
| OracleKeeper.RoundedPrice | client/scripts/oracle-keeper.ts:217 | the published integer is the mid price to half a unit and not negative |
| OracleKeeper.ConfidenceCovers | client/scripts/oracle-keeper.ts:218-220 | every source lies within twice the confidence |
| OracleKeeper.ConfidenceExact | client/scripts/oracle-keeper.ts:218-220 | it is half the distance of the outermost answers, rounded, or a floored thousandth of the price, whichever is more |
| OracleKeeper.SkipIffFresh | client/scripts/oracle-keeper.ts:270-276 | the gate skips exactly when the last price is within the threshold and younger than the heartbeat |
| OracleKeeper.Keeper.PublishMarket | client/scripts/oracle-keeper.ts:371-410 | only a confirmed write changes what is published; a skip means it is fresh, a publication makes it so |
| Pnl.CloseRealizesUnrealized | client/lib/stats.ts:34-52 | a fill realizes what the part it closes of the first opposing position shows as unrealized at its price |
| Pnl.OpeningRealizesNothing | client/lib/stats.ts:41-44 | where no position is open on the other side it realizes nothing |
| Pnl.ProfitBySide | client/lib/math.ts:45-54 | a long gains by a rise and a short by a fall, size times move rounded toward zero |
| Pnl.LegsCancel | client/lib/math.ts:45-54 | equal long and short legs sum to zero |
| Pnl.SplitCloseLoss | client/lib/stats.ts:57 | k partial closes book at most k - 1 units less than one, in profit and in loss |

## Left out

- The contracts and the risk engine: the chain is an accept-or-refuse answer.
- Partial failures inside one group of SQL statements other than the reconciler's rollback and confirmation.
- Which open orders the loading queries return, and order expiry: a tick may load any part of the open book.
- `clear-stale-jobs.ts`, a manual script that repeats the expiry without its status guard.
- `recordFillPnl`, stats aggregation and leaderboard SQL; `calcLiqPrice` and display formatting.
- The distributed rate limiter and the production fallback around the local one.
- Stablecoin publication, the Reflector comparison, idling and staggering in the oracle keeper.
- `settleDeficit` and the keepalive transactions of the liquidation keeper.
- Floating-point rounding in the source prices.
- Pnl.SplitCloseLoss: speaks of one price difference for all parts, as one fill price gives.
