# Verified model of the trade collector

The repository collects PumpSwap and constant-product pool trades from a stream of Solana
transactions and stores every one of them exactly once. This project models its decoding and
its ingestion pipeline in Dafny and proves what the collector's comments, tests and
documentation promise about them, for all transactions and all runs. `dafny verify
dfyconfig.toml` checks everything.

| file | models |
|---|---|
| `CallTree.dfy` | executed call trees, their flattened trace, and the scan that finds an instruction's own events |
| `Bytes.dfy`, `PumpEvents.dfy` | little-endian fields, the event layouts and decoders, reserves and market caps |
| `Routes.dfy` | hops, sides, spent mint and routed tag of `multi_hop_swap` |
| `AmmHandler.dfy`, `AmmProperties.dfy` | the PumpSwap handler, and what it promises |
| `AmmRecords.dfy` | what its records mean, read off the transaction by key and position |
| `CoverageAudit.dfy`, `AuditRefinement.dfy` | the audit script's independent decoder, and its agreement with the handler |
| `Cpmm.dfy`, `CpmmHandler.dfy` | constant-product pool swaps, their events and their handler |
| `CpmmMatching.dfy`, `CpmmProperties.dfy` | remove-first-by-pool in general, and what it means for the handler's records |
| `CpmmRecords.dfy` | which swaps are accepted, and what each source of amounts puts into a record |
| `TradeStore.dfy`, `BatchInserter.dfy` | the upsert rule, coalescing, the buffered inserter |
| `GrpcConnection.dfy`, `Pipeline.dfy` | stream and reconnect loops; ingestion as a state machine with crashes and replay |
| `PipelineFailures.dfy` | the same machine when statements fail and their rows are retried |
| `PipelineErrors.dfy` | the same machine in any run at all: failing handlers, refused replays, live connections, crashes at any moment |
| `Base58.dfy`, `PrimeField.dfy`, `Ed25519.dfy` | the audit script's base58 codec and on-curve test |
| `Dict.dfy`, `LaneOrder.dfy`, `WholeBlocks.dfy`, `SlotRates.dfy` | the aggregation of the two analysis scripts |
| `LaneTotals.dfy`, `BlockRows.dfy` | every row of their tables as a sum over the races or the neighbouring transactions it speaks of |

How the source's forms are kept. The inserter, the database, the connection manager and the
pair aggregate are classes whose methods change fields. Loops that update variables are methods
with invariants, each proved equal to (or against a property of) a specification function; the
lemmas are about those functions. Parsers written as expressions are functions. Every lemma
carries `{:induction false}`: no proof rests on automatic induction, each inductive step is
written out.

Where the code and its own words differ, the model follows the code:

- The routed tag is documented as "neither spent nor received by the user". `RoutedTagMeaning`
  says for every chaining route exactly when the code's test means that; `MixedRouteIsNotTagged`
  is a route that turns around, whose middle coin goes untagged.
- A restart replays from 32 slots before the highest committed slot. As long as no statement
  fails the margin is not needed (`BelowCheckpointCommitted`). When statements fail, a crash is
  safe exactly when every waiting row below the restart point is stored (`CrashInRunIff`,
  `FailedFlushThenCrashIff`); rows at most 32 slots behind are covered (`MarginCovers`), rows
  further behind are not (`FailedChunkThenCrashLoses`). A crash before the first commit is not
  covered by any margin (`CrashIsSafeIff`).
- A failed route is decoded alike by the audit script and the handler exactly when it chains from
  the mint of the spent account's row or neither records anything of it (`FailedRouteAgreesIff`).
  Where a route stops chaining the script keeps the rows before the break and the handler drops
  the route (`BrokenRouteDisagrees`); where only the row is wrong the handler reads the input off
  the hops and records more than the script (`WrongRowDisagrees`).
- Removing the first logged event of a pool pairs swaps with their own events exactly when no
  rejected swap comes before an accepted one on its pool (`OwnEventsIff`). The chain ties a pool to
  one configuration and one pair of mints, so with a fixed table of tracked mints that always holds
  (`FixedTableRejectsNone`). The table is refreshed concurrently, and every instruction looks it up
  anew: a refresh between two swaps of a transaction can shift their events
  (`RejectedSwapShiftsEvents`).
- Amounts rebuilt from vault balances are called exact. They are exactly when everything else the
  transaction moved through the two vaults cancels out (`RebuiltAmountsExactIff`), as for the pool's
  only swap; two swaps on one pool without logged events each get the net movement of both.
- The inserter is said to flush when its buffer reaches 500 rows. The code tests for exactly 500
  (`ThresholdIff`): once a failed flush retains 500 rows or more, no further record flushes
  anything until a tick or the end of the channel (`RecordsNeverFlushFull`).
- What was received but not committed is said to be delivered again. After a handler error that
  holds exactly when every transaction below the resume point whose handler failed is stored or
  waiting all the same (`HandlerErrorsIff`); after a refused replay, exactly when every transaction
  missed before or not yet come to is (`RefusedReplayIff`). In any run at all, what is lost is what
  those turns, live connections and crashes pass over, and nothing else (`CaughtUpIff`).

The Ed25519 theorem is conditional on 2^255 - 19 being prime and on nothing else: Fermat's
little theorem, and that 2 is not a square modulo a prime that is 5 modulo 8, are proved.

## Model

| member | source | states |
|---|---|---|
| CallTree.DirectChildEventsAreChildren | src/utils/transaction.rs:336-374 | for every executed transaction and every call in it, the skip / take-while / filter scan yields exactly the events among that call's immediate children, in order, each at its own position |
| CallTree.NodeIsListed | src/utils/transaction.rs:336-374 | in a pre-order trace every node sits at its own position with its whole subtree right behind it, closed by something no deeper |
| CallTree.ScanForest | src/utils/transaction.rs:360-374 | scanning a forest at its parent's height collects the roots' events and skips everything below them |
| CallTree.OneCallPerEvent | src/utils/transaction.rs:363-368 | two calls recorded in one block never claim the same inner instruction, for any present heights |
| CallTree.HeightsAreNeeded | src/utils/transaction.rs:350-368 | without stack heights a nested trade's event is claimed by its caller too, whatever the trade's data |
| PumpEvents.ExtractVirtualQuoteReserves | src/utils/transaction.rs:434-451 | the walker over the variable-length name computes the specified reading |
| PumpEvents.VirtualReservesRoundTrip | src/utils/transaction.rs:405-451 | an encoded BuyEvent or SellEvent gives back its signed virtual reserve, for every name length and every 128-bit value |
| PumpEvents.TruncatedHasNoVirtualReserves | src/utils/transaction.rs:434-451 | every cut that removes part of the field, the pre-upgrade layout included, reads as absent |
| PumpEvents.HeadRoundTrip | src/utils/transaction.rs:290-298 | the fixed-offset decoders return the encoded amount, reserves, volumes, pool and discriminator, whatever follows |
| PumpEvents.BoostRoundTrip | src/utils/transaction.rs:526-539 | an encoded boost event gives back what was burned and used, the base reserve, and as quote side the true signed sum of vault and virtual reserve clamped to 64 bits |
| PumpEvents.TruncatedBoost | src/utils/transaction.rs:528-531 | a cut inside the fixed part reads as no event, a cut behind it changes nothing |
| PumpEvents.AppendingIsHarmless | src/utils/transaction.rs:384-391 | fields appended to an event change no decoder's answer |
| PumpEvents.EffectiveQuoteReserves | src/utils/transaction.rs:467-478 | the saturating addition and the clamps give the true signed sum clamped to 64 bits |
| PumpEvents.MarketCapIgnoresUnit | src/utils/transaction.rs:718-749 | over exact reals the market cap does not depend on the quote currency's unit |
| PumpEvents.MarketCapValue | src/utils/transaction.rs:542-556 | from post-trade reserves the cap is quote * 10^15 / base, rounded and clamped |
| PumpEvents.MarketCapAfterTrade | src/utils/transaction.rs:718-749 | the cap after any trade: a buy takes its tokens out of the base side and adds its quote, a sell the other way round; nothing without a base side |
| PumpEvents.RoundsToNearest | src/utils/transaction.rs:748-748 | rounding gives a nearest integer, halves upwards, cut to the range of 64 bits |
| Routes.ResolvedAccount | src/utils/transaction.rs:209-216 | an account index resolves exactly to the account it names, if there is one and it is an address |
| Routes.HopsByPosition | src/utils/transaction.rs:202-224 | a route's hops are its accounts from the seventeenth on, five to a hop, base, quote and pool first; what is short of a whole hop is left over |
| Routes.MultiHopSides | src/utils/transaction.rs:272-287 | the loop over the current mint computes each hop's side, or nothing when the route does not chain |
| Routes.InputMintOfChain | src/utils/transaction.rs:249-270 | on a chaining route the spent mint is read off the first two hops whenever they determine it; otherwise the balance row decides |
| Routes.RowMintIsFirst | src/utils/transaction.rs:263-266 | the spent mint read from the balance rows is that of the first row of the account, none without one |
| Routes.SpentAccount | src/utils/transaction.rs:260-268 | the spent account is the instruction's second |
| Routes.RowDecides | src/utils/transaction.rs:249-270 | where the second hop trades both mints of the first, or neither, the balance row of the spent account decides |
| Routes.ChainsFromOneMint | src/utils/transaction.rs:249-287 | a route whose second hop does not trade both mints of the first chains from one mint only |
| Routes.ReversedRoute | src/utils/transaction.rs:272-287 | the reversed route, walked from the output, gives the reversed and negated sides and hands the input back |
| Routes.EndMints | src/utils/transaction.rs:272-287 | what a chaining route spends and hands out is read off the side of its first and of its last hop |
| Routes.UserCoin | src/utils/transaction.rs:226-245 | the user's own coin of a one-direction route: its output for buys, its input for sells |
| Routes.RoutedTagMeaning | src/utils/transaction.rs:226-245 | for every chaining route, whatever its directions: exactly when the tag, which looks at one end hop only, says that the user neither spent nor received the coin |
| Routes.OneDirectionTag | src/utils/transaction.rs:226-245 | on one-direction routes the tag means "not the user's own coin", and the documented meaning exactly when the far coin is not also a middle coin |
| Routes.ExactlyOneHopNotRouted | src/utils/transaction.rs:238-245 | with distinct base mints exactly one hop is not routed: the last of a buy, the first of a sell |
| Routes.MixedRouteIsNotTagged | src/utils/transaction.rs:226-245 | a buy followed by a sell of the same coin is not tagged although the coin never reaches the user |
| AmmHandler.GetProgramInstructions | src/utils/transaction.rs:558-602 | the loops list the program's top-level calls, then its inner calls, each with its scan start |
| AmmHandler.MatchEvents | src/handler/amm_handler.rs:462-519 | the whole success loop; the search position never passes the end |
| AmmHandler.PlaceRequested | src/handler/amm_handler.rs:547-561 | where the requested input and output amounts go, both on the same fill for a one-hop route |
| AmmHandler.RequestFills | src/handler/amm_handler.rs:533-569 | the loop over a failed route's hops |
| AmmHandler.EmitFills | src/handler/amm_handler.rs:335-434 | fills are appended under consecutive indexes |
| AmmHandler.ProcessPumpSwapTx | src/handler/amm_handler.rs:335-434 | every fill of the transaction becomes one record, numbered 0, 1, 2, ... without gaps |
| AmmProperties.EncodedEventRead | src/handler/amm_handler.rs:213-251 | an encoded trade event is read back as its side, pool and amounts, priced against the effective quote reserves |
| AmmProperties.EncodedBoostRead | src/handler/amm_handler.rs:213-231 | an encoded boost event is read back as its amounts, priced against the effective quote reserves |
| AmmProperties.GreedyMatchesRoute | src/handler/amm_handler.rs:462-519 | over the events of an executed route the greedy search gives every eligible pool hop, in order, the amounts and the position of its own event, also where the route visits a pool twice |
| AmmProperties.TradesMatchRoute | src/handler/amm_handler.rs:462-519 | the same from any hop on, for the trade events alone |
| AmmProperties.ExecutedShapes | src/handler/amm_handler.rs:462-519 | those fills have the side and tag the route specifies |
| AmmProperties.ExecutedRouteRecorded | src/handler/amm_handler.rs:452-532 | composed with the call tree: a successful route is recorded as it executed, each fill from its own child event |
| AmmProperties.ExecutedSwapsRecorded | src/handler/amm_handler.rs:452-532 | when those events encode the swaps that executed, the fills hold the amounts each swap traded and the cap of the reserves it left |
| AmmProperties.FailedMatchesRoute | src/handler/amm_handler.rs:533-569 | decoding a failed attempt gives every eligible hop its chained side and tag |
| AmmProperties.RouteDecodersAgree | src/handler/amm_handler.rs:452-570 | for every chaining route of pool and curve hops, the executed call, read from its recorded call tree, and the failed instruction decode to the same pools, mints, sides and tags, both equal to the route's specification |
| AmmProperties.RequestedTotal | src/handler/amm_handler.rs:533-569 | the amounts over all fills of a failed route add up to the requested input plus the minimum output, exactly when first and last hop are recorded |
| AmmProperties.RequestedPlacement | src/handler/amm_handler.rs:547-561 | with all hops eligible, the input amount sits on the first hop's input side, the output amount on the last hop's output side, nothing elsewhere |
| AmmProperties.RequestedByHop | src/handler/amm_handler.rs:533-569 | whichever hops are eligible, the fills of a failed route are theirs, in order, each with what its own hop was to carry, without cap or reserves |
| AmmProperties.CallSources | src/handler/amm_handler.rs:335-434 | every event-sourced fill of a call names one of that call's own events, each at most once |
| AmmProperties.NoEventCountedTwice | src/handler/amm_handler.rs:335-434 | over a whole transaction, whatever routes, trades and routers it nests, two records never read the same inner instruction |
| AmmRecords.ProgramAtIndex | src/utils/transaction.rs:564-568 | the program index is the first position of the program among the accounts, none when it is not among them |
| AmmRecords.CallsByKey | src/utils/transaction.rs:558-602 | with distinct accounts, an instruction is listed exactly when it stands at its own outer and inner place of the transaction and its program account is the program |
| AmmRecords.CallsInOrder | src/utils/transaction.rs:558-602 | top-level calls come first, in order; the calls below one top-level call come in order; so each is listed once |
| AmmRecords.OnlyTrackedRecorded | src/handler/amm_handler.rs:335-434 | whatever a transaction does, every fill is of the canonical pool of its two mints, of a base coin other than the wrapped native one that is whitelisted unless the collector is read-only |
| AmmRecords.ExecutedTradeRecorded | src/handler/amm_handler.rs:360-434 | an executed single-pool trade of a tracked pool whose first own event encodes a swap gives one fill with the amounts of the swap, the cap of the reserves it left and those reserves, in whatever quote currency |
| AmmRecords.ExecutedBoostRecorded | src/handler/amm_handler.rs:360-434 | so does a boost |
| AmmRecords.RequestedTradeRecorded | src/handler/amm_handler.rs:387-434 | a trade that failed or left no event gives one fill with the two amounts it asked for, on the sides its kind says, and neither cap nor reserves |
| AmmRecords.CutRequestRecorded | src/utils/transaction.rs:490-504 | a request whose arguments are cut off counts as nothing |
| CoverageAudit.InspectSingle | analysis/audit_pump_amm_coverage.py:268-325 | the script's single-trade decoding, its candidate loop included |
| CoverageAudit.InspectRoute | analysis/audit_pump_amm_coverage.py:378-400 | the rows of a successful route |
| CoverageAudit.InspectFailedRoute | analysis/audit_pump_amm_coverage.py:402-432 | the rows of a failed route, hop by hop until one does not chain |
| CoverageAudit.TransactionTrades | analysis/audit_pump_amm_coverage.py:230-446 | outer instructions, then inner ones, in order |
| CoverageAudit.ZeroIsTopLevel | analysis/audit_pump_amm_coverage.py:433-446 | an inner instruction without a stack height, or with zero, is taken for the top level |
| AuditRefinement.SameCandidate | analysis/audit_pump_amm_coverage.py:284-306 | the script's candidate loop finds the event the handler finds |
| AuditRefinement.SameAmounts | analysis/audit_pump_amm_coverage.py:268-325 | with complete event data the script's row holds the amounts the handler takes, and is marked executed exactly when they come from an event |
| AuditRefinement.SingleTradesAgree | analysis/audit_pump_amm_coverage.py:268-325 | single-pool trades with complete data give the same row on both sides |
| AuditRefinement.CutRequestsAgreeIff | analysis/audit_pump_amm_coverage.py:268-325 | on a failed trade whose arguments are cut off, script and handler agree exactly when the first argument is missing too or zero |
| AuditRefinement.RoutesAgree | analysis/audit_pump_amm_coverage.py:378-400 | successful routes give the same rows apart from the routed tag |
| AuditRefinement.SuccessfulRoutesAgree | analysis/audit_pump_amm_coverage.py:378-400 | the script's qualifying rows of a successful route are exactly the handler's fills |
| AuditRefinement.FailedRoutesAgree | analysis/audit_pump_amm_coverage.py:402-432 | failed routes that chain from the spent mint give the same rows |
| AuditRefinement.FailedRouteAgreesIff | analysis/audit_pump_amm_coverage.py:402-432 | for every failed route: rows and fills are the same exactly when it chains from the mint of the spent account's row, or no hop before the first break is eligible and the handler finds no input mint, no chain or no eligible hop |
| AuditRefinement.AuditMatchesCollector | analysis/audit_pump_amm_coverage.py:230-446 | for every transaction both can read in full, the audit's qualifying rows are the handler's records: same pools, mints, sides, users, amounts, sources, CPI flags, in the same order |
| AuditRefinement.BrokenRouteDisagrees | analysis/audit_pump_amm_coverage.py:413-432 | a two-hop failed route whose second hop trades neither mint of the first: the script's rows are not empty, the handler records nothing |
| AuditRefinement.WrongRowDisagrees | analysis/audit_pump_amm_coverage.py:402-432 | a route that turns round at its first pool with the row naming the wrong end: one row against two fills |
| Cpmm.ParseRoundTrip | src/utils/cpmm.rs:55-83 | parsing an emitted swap event gives it back; a body of any other length is not an event |
| Cpmm.MarketCap | src/utils/cpmm.rs:132-138 | the cap is the exact floor of quote * supply / base, clamped; the 128-bit product never saturates |
| Cpmm.SideOfEvent | src/utils/cpmm.rs:104-128 | an event resolves to either of its mints and no other: input and output on the legs of their mints, reserves what the swap left in the vaults, saturated |
| Cpmm.AmountIsFirst | src/utils/cpmm.rs:187-192 | a vault's balance is that of its first row, none without one |
| Cpmm.RebuiltSwapSides | src/utils/cpmm.rs:104-128 | a swap rebuilt from vault balances reports exactly the two post balances as reserves, its two legs mirror each other, and it carries no fees |
| Cpmm.RebuiltAmountsExactIff | src/utils/cpmm.rs:172-218 | a swap rebuilt from the vaults has exactly its own amounts if and only if everything else the transaction moved through the two vaults cancels out, as when it is the pool's only swap |
| Cpmm.CapsDifferByRounding | src/utils/cpmm.rs:132-138 | at a supply of 10^15 the two market caps differ by at most one unit, even where they saturate |
| CpmmHandler.RecordSwaps | src/handler/cpmm_handler.rs:106-230 | the record loop over a shrinking list of logged events, decoded on first use, every instruction with the table of tracked mints its own lookups find |
| CpmmHandler.ProcessCpmmTx | src/handler/cpmm_handler.rs:62-345 | sorted instructions, one record per accepted swap, numbered without gaps |
| CpmmProperties.SortingIsExecutionOrder | src/handler/cpmm_handler.rs:90-97 | sorting by (outer, inner) lists the program's instructions in the order the transaction executed them, whatever order the blocks came in |
| CpmmMatching.OwnTakenIff | src/handler/cpmm_handler.rs:177-194 | for any instructions and any distinct events: remove-first-by-pool gives every accepted swap exactly the event it left, or none, if and only if no rejected one leaves an event that a later accepted one on its pool takes, and no accepted one without an event takes a later one's |
| CpmmProperties.LogDecoded | src/utils/cpmm.rs:164-171 | a log that carries emitted swap events among other payloads is decoded to those events, in the order they were logged |
| CpmmProperties.EverySwapGetsItsOwnEvent | src/handler/cpmm_handler.rs:90-194 | from the payloads of a log cut at any point: when no rejected swap comes before an accepted one on its pool, every accepted swap is recorded from its own event, or from none if it was cut off |
| CpmmProperties.OwnEventsIff | src/handler/cpmm_handler.rs:90-194 | with distinct events the condition is exact: the events taken are the swaps' own if and only if no rejected swap comes before an accepted one on its pool |
| CpmmProperties.CutUndisturbedIff | src/handler/cpmm_handler.rs:177-194 | in a log cut at one point only a rejected swap can disturb a later one |
| CpmmProperties.PoolOnlyAcceptance | src/handler/cpmm_handler.rs:106-176 | acceptance that depends on the pool only is enough |
| CpmmProperties.SamePoolSameAnswer | src/handler/cpmm_handler.rs:117-164 | with one table of tracked mints, of two swaps naming the same pool, configuration and mints, in either direction, both are accepted or none |
| CpmmProperties.FixedTableRejectsNone | src/handler/cpmm_handler.rs:117-164 | so without a refresh in between no swap is rejected before an accepted one on its pool |
| CpmmProperties.RejectedSwapShiftsEvents | src/handler/cpmm_handler.rs:180-194 | in a successful transaction, a swap rejected under a stale table followed by one on the same pool accepted under a refreshed table: the one record comes from the log, with the side and the amounts of the first swap's event |
| CpmmProperties.EventAndRequestAgree | src/handler/cpmm_handler.rs:232-282 | a swap recorded from its event and the same swap failed, recorded from its arguments, have the same side and put input and output on the same legs |
| CpmmProperties.VaultFallback | src/handler/cpmm_handler.rs:195-227 | without an event a swap is recorded from the vaults: reserves are their two post balances, amounts what moved between pre and post, the cap the exact clamped floor over those reserves, the fees zero |
| CpmmRecords.LaunchSwapAccepted | src/handler/cpmm_handler.rs:113-170 | every swap instruction of a tracked launch's migration pool, found by its accounts, is accepted under that launch, in either direction |
| CpmmRecords.AcceptedIsLaunchSwap | src/handler/cpmm_handler.rs:113-170 | nothing else is accepted: one of the two swap instructions, the platform's configuration, one mint tracked and the other not but its quote mint, the pool derived from the pair in byte order or recorded |
| CpmmRecords.OnlyLaunchesRecorded | src/handler/cpmm_handler.rs:106-345 | whatever the log says, every fill is of the migration pool of a launch tracked when its instruction was looked at |
| CpmmRecords.RecordedFromLog | src/handler/cpmm_handler.rs:177-282 | a swap that takes a logged event is recorded with that event's amounts, reserves, fees and exact cap, on the sides of the tracked mint |
| CpmmRecords.RecordedFromSelfCpi | src/handler/cpmm_handler.rs:183-194 | without a logged event, with those of the first event it emitted itself |
| CpmmRecords.RecordedFromVaults | src/handler/cpmm_handler.rs:195-227 | without either, with what moved through its two vault accounts |
| CpmmRecords.VaultsMustExist | src/handler/cpmm_handler.rs:195-209 | a vault index outside the accounts leaves nothing to rebuild from |
| CpmmRecords.RecordedFromRequest | src/handler/cpmm_handler.rs:258-282 | without any, with the two amounts it asked for, the first of them the input's; cut arguments count as nothing |
| CpmmRecords.FailedHasNoEvent | src/handler/cpmm_handler.rs:180-230 | a failed transaction has no event, whatever its log holds |
| TradeStore.CoalesceDuplicateRows | src/database/trades.rs:280-299 | one row per key, in first-appearance order, holding the last value delivered |
| TradeStore.CoalescedByPosition | src/database/trades.rs:280-299 | by position: every kept row is the last one of its key, every key is kept, and keys come in the order they first appear |
| TradeStore.UpsertAllAt | src/database/trades.rs:259-275 | what is stored under a key after upserting rows one by one: last row, first creation time, last quote decimals given |
| TradeStore.StoredAt | src/database/trades.rs:259-275 | by position: a key holds the slot and columns of its last row, and the creation time stored before, or that of its first row |
| TradeStore.DecimalsStoredAt | src/database/alt_trades.rs:245-258 | by position: the stored quote decimals are those of the key's last row that carries any; if none does, those stored before stay |
| TradeStore.OthersUntouched | src/database/trades.rs:259-275 | a key no row mentions keeps what it had |
| TradeStore.BatchEqualsRowByRow | src/database/trades.rs:178-299 | one statement over the coalesced rows stores what upserting the rows one by one stores, on every overwritten column |
| TradeStore.BatchOnOtherColumns | src/database/alt_trades.rs:245-258 | exactly when the statement also agrees on quote decimals (COALESCE) and on the creation time (never overwritten) |
| BatchInserter.Database.InsertBatch | src/database/trades.rs:178-278 | one statement is all or nothing and stays under 65,535 bind parameters |
| BatchInserter.InsertChunks | src/database/trades.rs:413-439 | the chunk loop goes on after a failed chunk and collects the failed rows |
| BatchInserter.FlushConserves | src/database/trades.rs:413-439 | committed rows and retained rows are the flushed rows, as multisets, whatever fails |
| BatchInserter.RetainedInOrder | src/database/trades.rs:413-439 | retained rows keep their relative order |
| BatchInserter.FlushWithoutFailure | src/database/trades.rs:413-439 | without a failure everything is committed, in order |
| BatchInserter.LaterChunkCommitsFirst | src/database/trades.rs:413-439 | after a failed chunk a later one may commit: commits are not a prefix |
| BatchInserter.CommitsArePrefixIff | src/database/trades.rs:413-439 | what a flush commits is a prefix of what was waiting exactly when no chunk succeeds after a failed one |
| BatchInserter.FlushKeeps | src/database/trades.rs:413-439 | a flush keeps the inserter's balance: received = committed + buffered, order, statement size, table contents |
| BatchInserter.BatchInserter.FlushBuffer | src/database/trades.rs:413-439 | takes the buffer, commits its successful chunks and refills it with the failed ones |
| BatchInserter.BatchInserter.Receive | src/database/trades.rs:348-352 | a record is appended, and flushed with everything before it when it is exactly the 500th; otherwise nothing is flushed |
| BatchInserter.FullBufferFlush | src/database/trades.rs:348-352 | the flush a record triggers is one statement: it commits all 500 rows or keeps them all |
| BatchInserter.TicksFlush | src/database/trades.rs:336-361 | a tick or the end of the channel leaves in the buffer exactly the rows of failed chunks, row by row, and appends all others to the commits in order; if nothing fails, the whole buffer |
| BatchInserter.ChunksByRow | src/database/trades.rs:413-439 | retained and committed rows by position: a row is retained exactly when the statement of its own 500-row chunk fails |
| BatchInserter.ThresholdIff | src/database/trades.rs:324-352 | "when the buffer reaches 500 rows" describes a record exactly when fewer than 500 rows are waiting, or the flush would commit nothing anyway |
| BatchInserter.RecordsNeverFlushFull | src/database/trades.rs:348-352 | with 500 or more rows retained, no number of records flushes anything |
| BatchInserter.BatchInserter.Handle | src/database/trades.rs:336-363 | one turn of the select loop: a tick and the end of the channel flush whatever is buffered, a record only as the 500th; which events leave the loop |
| BatchInserter.BatchInserter.Drain | src/database/trades.rs:366-372 | what is left in the channel is buffered and flushed once: the successful chunks are committed, the failed ones stay |
| BatchInserter.BatchInserter.Run | src/database/trades.rs:326-376 | over any events and any failures every received row is in a committed batch or still buffered, and buffer and batches are exactly those of the turns taken; without failures nothing is left at exit |
| GrpcConnection.ProcessStream | src/grpc/connection.rs:175-216 | reports the highest slot of a handled transaction up to the first error, and an out-of-range replay |
| GrpcConnection.ConnectionManager.AfterAttempt | src/grpc/connection.rs:84-137 | resume slot, attempt counter and backoff after one connection attempt |
| GrpcConnection.BackoffClosedForm | src/grpc/connection.rs:108-136 | the n-th refusal in a row waits min(first * 2^n, 60) seconds; giving up at the tenth changes no wait |
| GrpcConnection.EndedStartsAfresh | src/grpc/connection.rs:108-136 | after a stream that ran the next attempt comes a second later, whatever the counters were, and the n-th refusal after it waits min(2 * 2^n, 60) seconds |
| GrpcConnection.MaxSlot | src/database/trades.rs:164-171 | the highest slot in the table, none for an empty one |
| Pipeline.StreamLoopReportsLast | src/grpc/connection.rs:92-113 | over any stretch of a stream the machine's highest handled slot is what the stream loop reports for the messages delivered, and disconnecting resumes from it |
| Pipeline.StepKeepsInv | src/database/trades.rs:326-439 | every step of a safe run keeps the pipeline invariant |
| Pipeline.FlushIsCommitSteps | src/database/trades.rs:413-439 | a flush in which no chunk fails is a run of the machine's commit steps |
| Pipeline.SafeRunKeepsInv | src/main.rs:145-158 | the invariant holds in every state of every safe run |
| Pipeline.ResumeSkipsNothing | src/grpc/connection.rs:92-113 | whenever a safe run connects, everything before the point where delivery resumes is stored or on its way |
| Pipeline.BelowCheckpointCommitted | src/main.rs:145-158 | in every state of a safe run all trades below the highest committed slot are committed |
| Pipeline.CaughtUpEqualsUninterrupted | src/main.rs:145-158 | once caught up, whatever disconnects and crashes happened, the table agrees with that of an uninterrupted run on every overwritten column |
| Pipeline.ConnectIsSafeIff | src/grpc/connection.rs:97-113 | a connection skips nothing exactly when it has a replay point or nothing was to be recorded |
| Pipeline.CrashIsSafeIff | src/main.rs:149-158 | a crash loses nothing exactly when something had been committed or nothing was to be recorded |
| Pipeline.FailedChunkThenCrashLoses | src/database/trades.rs:413-439 | the instance the margin does not cover: the first chunk fails, one more than 32 slots ahead commits, a crash restarts behind rows never stored |
| PipelineFailures.FlushIsMoves | src/database/trades.rs:413-439 | a flush in which any chunks fail is a run of the machine's chunk commits, the failed rows left at the front |
| PipelineFailures.MoveKeepsLoose | src/database/trades.rs:413-439 | every move, chunks committing out of order included, keeps the weaker invariant that covers failures |
| PipelineFailures.ReconnectSkipsNothing | src/grpc/connection.rs:92-113 | in runs where statements fail at will a reconnection still skips nothing |
| PipelineFailures.CrashInRunIff | src/main.rs:145-158 | in every state of such a run with a non-empty table, a crash and reconnection skip nothing exactly when every waiting row in scope below the restart point is stored |
| PipelineFailures.CrashAfterFailuresIff | src/main.rs:145-158 | the same from any state of the weaker invariant |
| PipelineFailures.InvCrashIsSafe | src/main.rs:145-158 | that condition always holds where nothing failed |
| PipelineFailures.FailedFlushThenCrashIff | src/database/trades.rs:413-439 | from any state without failures: flush with any failing chunks, crash and reconnect skip nothing exactly when every retained or still queued row in scope below the new restart point is stored |
| PipelineFailures.MarginCovers | src/main.rs:145-158 | the 32-slot margin makes a crash safe when no waiting row is further behind the highest committed slot |
| PipelineFailures.CaughtUpDespiteFailures | src/main.rs:145-158 | once caught up and every retry committed, the table agrees with that of an uninterrupted run on every overwritten column |
| PipelineErrors.TurnKeepsLoose | src/grpc/connection.rs:84-137 | whatever a turn does, failed handler, refused replay, live connection or crash, the transactions it does not miss stay accounted for |
| PipelineErrors.ReconnectIff | src/grpc/connection.rs:92-113 | in any run, a reconnection from a replay point skips nothing exactly when every missed transaction below that point is stored or waiting by now |
| PipelineErrors.HandlerErrorsIff | src/grpc/connection.rs:196-205 | with failing handlers and statements only: exactly when every transaction below the resume point whose handler failed is |
| PipelineErrors.MissedHaveFailed | src/grpc/connection.rs:196-205 | in such runs only transactions whose handler failed are ever missed |
| PipelineErrors.RefusedReplayIff | src/grpc/connection.rs:97-104 | after a refused replay, resuming live skips nothing exactly when every transaction missed before, and every one the refused stream had not come to, is stored or waiting |
| PipelineErrors.RefusedInRunIff | src/grpc/connection.rs:97-104 | the same at any refusal of any run |
| PipelineErrors.CaughtUpIff | src/main.rs:145-158 | once any run has caught up and committed, everything it did not miss is stored, and its table is that of an uninterrupted run exactly when what it missed is stored too |
| PipelineErrors.LoopReportsUnderFailures | src/grpc/connection.rs:175-216 | failed handlers and a refusal included, the machine resumes from what the stream loop reports for the messages it heard |
| PipelineErrors.HeardInOrder | src/grpc/connection.rs:175-216 | a stream hears the ledger transaction by transaction from where it was opened, failed handlers included, and stands behind the last one heard |
| Base58.MinimalBytes | analysis/audit_pump_amm_coverage.py:58-58 | the big-endian bytes of the computed width are the base-256 digits, without a leading zero |
| Base58.RecodeRoundTrip | analysis/audit_pump_amm_coverage.py:54-68 | changing base and back, leading zeros carried over, is the identity |
| Base58.B58Decode | analysis/audit_pump_amm_coverage.py:54-59 | the loops decode, or reject a character outside the alphabet |
| Base58.B58Encode | analysis/audit_pump_amm_coverage.py:62-68 | the division loop encodes |
| Base58.DecodeOfEncode | analysis/audit_pump_amm_coverage.py:54-68 | decoding inverts encoding on every byte string |
| Base58.EncodeOfDecode | analysis/audit_pump_amm_coverage.py:54-68 | encoding inverts decoding on every string over the alphabet |
| PrimeField.Fermat | analysis/audit_pump_amm_coverage.py:79-84 | Fermat's little theorem, which makes the (p-2)-nd power an inverse |
| PrimeField.InversePower | analysis/audit_pump_amm_coverage.py:79-84 | `pow(a, p - 2, p)` inverts every a that p does not divide |
| PrimeField.TwoIsNonResidue | analysis/audit_pump_amm_coverage.py:86-87 | for p = 5 mod 8, 2^((p-1)/2) = -1, so 2^((p-1)/4) is a square root of -1 |
| PrimeField.RootFound | analysis/audit_pump_amm_coverage.py:85-88 | the (p+3)/8 power, corrected by the root of -1, squares to w whenever anything does |
| Ed25519.NoPointAtPole | analysis/audit_pump_amm_coverage.py:81-83 | when the denominator vanishes no x satisfies the curve equation |
| Ed25519.Decided | analysis/audit_pump_amm_coverage.py:88-91 | the last test accepts exactly when a root of the required parity exists |
| Ed25519.HasPointTest | analysis/audit_pump_amm_coverage.py:79-91 | the arithmetic of the test decides, for any prime that is 5 modulo 8, whether a point with this y and sign exists |
| Ed25519.EncodingHasPoint | analysis/audit_pump_amm_coverage.py:73-78 | splitting off the sign bit turns encodings of points into a y below p and a parity |
| Ed25519.IsEd25519Point | analysis/audit_pump_amm_coverage.py:71-91 | given that 2^255 - 19 is prime, true exactly on the 32-byte encodings of curve points (RFC 8032, sections 5.1.2 and 5.1.3) |
| LaneOrder.CollectRaces | analysis/analyze_lane_order.py:13-30 | the row loop builds the races |
| LaneOrder.EntryIsEarliest | analysis/analyze_lane_order.py:21-30 | a lane's entry is its earliest row together with the number of its rows |
| LaneOrder.CollectedAreRanked | analysis/analyze_lane_order.py:13-30 | distinct row ids give every race lanes with distinct earliest ids |
| LaneOrder.RankIsLosses | analysis/analyze_lane_order.py:43-59 | in a race with distinct ids a lane's rank is the number of pairwise comparisons it lost |
| LaneOrder.TallyLanes | analysis/analyze_lane_order.py:43-50 | the loop over lanes and periods |
| LaneOrder.TallyPairs | analysis/analyze_lane_order.py:51-59 | the nested loops over lane pairs |
| LaneOrder.Analyse | analysis/analyze_lane_order.py:36-59 | the race loop |
| LaneOrder.TotalsConserved | analysis/analyze_lane_order.py:36-50 | summed over lanes, firsts and the neutral expectation both equal the analyzable races, for all time and over the weeks |
| LaneOrder.LossesAreRanks | analysis/analyze_lane_order.py:43-59 | over the whole pair table the comparisons a lane lost are the sum of its ranks |
| LaneOrder.RowsConserved | analysis/analyze_lane_order.py:10-59 | both laws from the input rows |
| LaneTotals.LaneRowsAreSums | analysis/analyze_lane_order.py:36-50 | for every leader, class, lane and period, each of the five columns is the sum over the leader's analyzable races of that period in which the lane took part: presence, a win if no lane was earlier, 1/n, its rows, and the number of lanes ahead of it over n - 1 |
| LaneTotals.PairRowsAreSums | analysis/analyze_lane_order.py:51-59 | for every leader, class and pair of lanes, comparisons, wins, comparisons at fees within 5% and wins among those are counted once per race in which both took part, under the lower lane |
| LaneTotals.WeekOfFirstRow | analysis/analyze_lane_order.py:18-20 | a race is filed under the week of its first row |
| WholeBlocks.Agg.AddPair | analysis/analyze_whole_blocks.py:66-84 | one pair's effect on every field of the aggregate |
| WholeBlocks.WinsMean | analysis/analyze_whole_blocks.py:66-79 | the first trade wins a field when its unit price, its priority fee or its tip is the higher one |
| WholeBlocks.OneWinPerComparison | analysis/analyze_whole_blocks.py:76-79 | of a pair and the same pair turned round, each compared field is won exactly once |
| WholeBlocks.Agg.MergeSlot | analysis/analyze_whole_blocks.py:27-35 | fields are added; a slot's win rate is appended only where it compared something |
| BlockRows.ById | analysis/analyze_whole_blocks.py:129-129 | a slot's transactions are taken in id order, none added or lost |
| WholeBlocks.Process | analysis/analyze_whole_blocks.py:142-150 | every pair of neighbours goes to its gap bucket under all time, its week and its load, unless the cohort skips it |
| WholeBlocks.AggregateSlot | analysis/analyze_whole_blocks.py:127-160 | grouping by mint and compute account, then the four cohorts |
| WholeBlocks.MergeSlotInto | analysis/analyze_whole_blocks.py:162-163 | a slot's aggregates are merged under the leader and client |
| WholeBlocks.Aggregate | analysis/analyze_whole_blocks.py:117-163 | the slot loop; slots without metadata are skipped |
| WholeBlocks.SignersSplit | analysis/analyze_whole_blocks.py:142-149 | each neighbouring pair is either cross-signer or same-signer |
| WholeBlocks.PeriodsConserved | analysis/analyze_whole_blocks.py:148-163 | for every counter of the aggregates, all time = sum over weeks = sum over loads |
| WholeBlocks.CohortsConserved | analysis/analyze_whole_blocks.py:142-163 | for every counter and gap, all pairs of a mint = cross-signer + same-signer pairs (the rate lists are not additive over cohorts) |
| BlockRows.PairIsDue | analysis/analyze_whole_blocks.py:66-84 | what one pair counts for, in whole numbers: compared and won per field by unit price, fee, tip, both, both per unit; a conflict where fee and tip disagree |
| BlockRows.GroupsAreNeighbours | analysis/analyze_whole_blocks.py:136-160 | summing over groups is summing, over the transactions of the slot, the pair each forms with the last one before it in its group |
| BlockRows.SlotRow | analysis/analyze_whole_blocks.py:127-160 | every row of a slot holds what its neighbours of that cohort and gap are worth, in the slot's own three periods and no other |
| BlockRows.RowsAreSums | analysis/analyze_whole_blocks.py:117-163 | every counter of every row of the table is the sum over the slots of its leader and client that lie in its period |
| BlockRows.RatesAreSlotRates | analysis/analyze_whole_blocks.py:27-35 | every row lists, slot by slot, the win rate of each such slot that compared anything |
| SlotRates.RatesConserved | analysis/analyze_whole_blocks.py:27-35 | for every field the slot rates listed for all time are, as a multiset, those of all weeks together and those of all loads together |

## Left out

- Floating point: market caps, fee ratios, rates and the 5% fee match are over exact reals or integers; the rounding of operands to 64-bit floats is not modelled.
- Program-derived addresses and SHA-256: the canonical pool of a mint pair is a parameter, a function of the two mints; the search over bump seeds is not modelled.
- Primality of 2^255 - 19: a hypothesis of the Ed25519 theorem.
- Base64 and log text: the handler is given the decoded `Program data:` payloads; addresses are 32-byte strings, so the audit's comparison of base58 text is a comparison of bytes (justified by `DecodeOfEncode`).
- The provider stream, TLS, tokens, PostgreSQL itself, DDL, connection pool, logging, CSV and psql input and output, the trade pruner and the whitelist refresh itself.
- Priority fees, tips, the tip-provider table, compute units, and of constant-product records the user and the quote decimals: stored unchanged beside the modelled columns.
- Provenance: a fill's `Source` names the inner instruction it was read from, which the stored `amount_source` text does not; it exists to state that no event is used twice.
- Machine integers: list positions and slots are unbounded; 64- and 128-bit amounts keep their ranges, and every saturation and clamp is written out.
- EverySwapGetsItsOwnEvent: assumes one logged event per executed swap, naming its pool, up to one cut of the log; what the concurrent refresh of the tracked mints does is the sequence of tables the instructions see; `OwnEventsIff` also that the events are distinct, since equal events cannot be told apart.
- RouteDecodersAgree: the executed route's own events are its pool hops' Buy/SellEvents in order among any other events; token amounts of a swap's execution are not modelled.
- AuditMatchesCollector: readonly mode is excluded (the audit always filters by whitelist), stack height zero does not occur, and executed routes are compared without the routed tag, whose balance test is a parameter; a failed route is admitted exactly where `FailedRouteAgreesIff` says both agree, a trade with arguments cut off (`CutRequestsAgreeIff`) is not; an instruction whose account indexes do not resolve, for which the script raises, is excluded.
- ResumeSkipsNothing, BelowCheckpointCommitted, CaughtUpEqualsUninterrupted: safe runs have no failed chunk, no handler error and no refused replay, ask for a replay point at every reconnection and crash only once something is committed; `ConnectIsSafeIff` and `CrashIsSafeIff` say what happens otherwise, `PipelineFailures.dfy` admits failed chunks and `PipelineErrors.dfy` everything else. Collection starts with an empty table, and `GRPC_FROM_SLOT` overrides the replay point at the first start only.
- ReconnectSkipsNothing, MoveKeepsLoose, CaughtUpDespiteFailures: runs with failed chunks still ask for a replay point at every reconnection, have no handler error and no refused replay, and crash only where `CrashInRunIff` says a crash skips nothing; `PipelineErrors.dfy` drops these conditions.
- Crash recovery of `alt_trades`: the checkpoint comes from `amm_trades`, so nothing is claimed.
- The pipeline's channel and buffer are one queue; timing of ticks and shutdown, and the bounded channel's back-pressure, are not modelled.
- The dictionaries of aggregates hold values: `Agg` is a class with the script's two methods, but the tables of the whole-block script store its field values, so aliasing between entries is not captured. Provider counts, standard errors and the output files of both scripts are left out.
- Discriminator bytes are constants; SQL policy scripts and test fixtures are not modelled.
