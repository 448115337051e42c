# Options protocol: a Dafny model

This project models the logic of an on-chain options protocol and of the clients
around it, and proves properties of the model for all inputs, all runs and all
reachable states.

| part | modules |
|---|---|
| The pooled call bucket: writes, first in, first out exercise through a cursor, tombstones, spreads, redemption | `Strike`, `FifoLedger`, `Solvency`, `WriteQueue`, `QueueWalk`, `BucketSteps`, `CallBucket`, `SolventRuns`, `BucketRuns`, `InexactBuckets` |
| All buckets together: option coins in wallets and in escrows, spreads backed by other buckets | `CoinBooks`, `Transactions`, `SpreadChains` |
| The route plan to transaction compiler | `RouteProgram`, `RoutePlan`, `RouteFill`, `RouteMeaning`, `RouteTotals` |
| The RFQ WebSocket client and the hook on top of it | `QuotingCalls`, `QuotingProtocol`, `QuotingOutcomes`, `QuotingClient`, `RfqHook` |
| The oracle price client | `OraclePrice` |
| Text codecs: Move types, decimal amounts, ULEB128 | `MoveTypes`, `FixedTypes`, `Units`, `Uleb128` |
| The selective-deploy decision | `Names`, `Globs`, `Affected`, `DeployRules` |
| Order entry: book walk, grid arithmetic, escrow | `BookWalk`, `Escrow` |
| The event-derived withdraw queue | `WithdrawQueue` |
| Single-use key generation and signing sessions | `FrostSessions` |
| Shared definitions | `Wrappers`, `Integers`, `Chars`, `HexNumbers` |

Each state machine is written twice. A reference form on values carries the
properties of whole runs; a class with the source's own fields and handlers is
proved to take exactly the reference form's steps. What those steps mean is then
said once more without them: what every event tells each caller of the RFQ client
(`QuotingOutcomes`), what every part of a route plan asks of the transaction
(`RoutePlan`), the number that an address spells (`HexNumbers`), the chain of
manifests that puts a crate into an image (`Affected.InImage`).

The central result is about the bucket. The repository says its O(1) cursor is
equivalent to assigning exercises to positions one by one (README.md:9).
`CallBucket.Bucket` is the contract's object with its cursor, tombstones and
spread list; `FifoLedger` is the position-by-position bookkeeping; every entry
point of the first is one step of the second, so every history of a bucket is a
run of the ledger and inherits what is proved of all runs. `Transactions` runs the
entry points over any set of buckets: every transaction keeps a history of each
bucket and keeps the coins in wallets and in escrows equal to each supply.

Some properties one might expect turn out to be false of the code. Each has a
concrete failing input and the exact condition under which it holds:

- *The settlement pool can always pay every redemption, and is empty once all are
  paid.* An exercise and a redemption round the strike cost separately. Over the
  runs that 64-bit coins allow, both hold if and only if the strike is whole or so
  small that no payment reaches half a unit: for a normalized pair `(sig, exp)`,
  `exp == 0` or `2 * sig * (2^64 - 2) < 10^exp` (`SolventRuns.SolventInEveryRunIff`,
  `SolventRuns.EmptiesInEveryRunIff`, `BucketRuns.ExactMeans`). For every other
  strike `InexactBuckets.BuildInexact` drives a bucket into each failure, and
  `InexactBuckets.HalfStrikeStrandsSecond` follows the smallest one to the
  redemption that aborts. The pool is never short by more than half a unit per
  exercise and per position (`Solvency.ShortfallAtMostHalfAUnitEach`).
- *A response or a close settles every RFQ in flight.* Each call is told at most
  one outcome in every run, and the unsettled calls are those with a live timer
  (`QuotingProtocol.EveryRunSettlesAtMostOnce`). But a call can become an orphan,
  unsettled and held by neither table, which no response, error or close reaches.
  A step makes a call an orphan if and only if it reuses the call's id while the
  call is in flight, or is the timer of another call that had the same id, which
  deletes the newer call's entry
  (`QuotingProtocol.StepOrphansIff`). A close settles everything except exactly the
  orphans (`QuotingProtocol.CloseSettlesAllButOrphans`). Over a whole run, every
  state has its unsettled calls, entries and timers in one-to-one correspondence
  if and only if no step of the run reuses an id in flight
  (`QuotingProtocol.AlwaysOneToOneIffNoReuse`).
- *Canonicalising a canonical type changes nothing.* Words separated by white space
  are joined in the output, so a second pass reads them as one. For every accepted
  text it changes nothing if and only if each stretch between two delimiters, its
  printed words joined, is printed as it stands (`FixedTypes.SecondPassFixedIff`);
  this holds of every text with at most one word in each stretch
  (`FixedTypes.OneWordPerRunIsFixed`) and fails of the text in
  `MoveTypes.GluedAtomsAreNotFixed`.
- *A spread's escrow guarantees that its crank succeeds while the long bucket is
  live* (contracts/core/sources/bucket.move:903-909). The escrowed coins and cash
  always suffice, but the long bucket may itself be blocked by a spread.
  `Transactions.UnwindSpread` has the exact condition, `SpreadChains.BlockedCrank`
  a chain of three buckets that fails it, and `SpreadChains.EscrowGuaranteesCrank`
  the case in which the note holds.
- *Formatting an amount gives its shortest spelling.* It does if and only if the
  amount is zero or at least one whole unit: `.5` is accepted and shorter than
  `0.5` (`Units.ShortestIff`).
- *Orders placed from one read of orders and escrow are all covered.* Posted with
  nothing in between, they are if and only if the read has room for them in every
  token (`Escrow.OneReadCoversIff`). With fills and cancels in between, that room
  still suffices (`Escrow.RoomCoversInterleaved`).

Where a comment and its code disagree the model follows the code: the note that a
single `*` stops at a slash (rust-backend/deployment/affected.py:93-94) does not
hold of `fnmatch`, whose star spans directories.

## Model

| member | source | states |
|---|---|---|
| `CallBucket.PowerOfTen` | contracts/core/sources/bucket.move:98-107 | the loop computes the power of ten used everywhere else |
| `CallBucket.ApplyStrike` | contracts/core/sources/bucket.move:115-120 | the payment is the strike cost rounded half up, and the call aborts exactly when the 128-bit or 64-bit arithmetic would overflow |
| `Strike.RoundsHalfUp` | contracts/core/sources/bucket.move:109-120 | the rounded quotient is within half a unit of the exact one, and an exact half goes up |
| `Strike.WholeStrikeIsLinear` | contracts/core/sources/bucket.move:115-120 | with a whole strike the payment is exact and therefore linear in the amount |
| `Strike.NegligiblePaysNothing` | contracts/core/sources/bucket.move:115-120 | when twice the strike times the largest supply is below one unit, every payment a bucket can make is zero |
| `Strike.RoundingLeaks` | contracts/core/sources/bucket.move:115-120 | for every other fractional normalized strike there is an amount, within what a bucket can hold, whose payment differs from the sum of its units' payments |
| `CallBucket.CompareStrikes` | contracts/core/sources/bucket.move:847-870 | strikes of different scales are compared as ratios: the lower one is the one at which no amount costs more |
| `Strike.StrikeAtMostIff` | contracts/core/sources/bucket.move:863-869 | the cross-multiplied comparison holds if and only if every amount's payment at the first strike is at most its payment at the second |
| `Strike.RoundingKeepsOrder` | contracts/core/sources/bucket.move:109-120 | rounding half up keeps the order of two costs in different units |
| `QueueWalk.InsertClosed` | contracts/core/sources/bucket.move:1041-1056 | inserting a tombstone keeps the list sorted and maximally merged, adds exactly the new units and loses none |
| `QueueWalk.InsertedMembers` | contracts/core/sources/bucket.move:1041-1056 | a unit is in the new list exactly when it was in the old one or in the inserted slice |
| `QueueWalk.MergedIsInserted` | contracts/core/sources/bucket.move:1041-1056 | in-place insertion followed by merging to the right and left equals insertion by position in the list |
| `QueueWalk.OverlapsSpread` | contracts/core/sources/bucket.move:1058-1068 | true exactly when some spread range meets the given range |
| `QueueWalk.FindSpread` | contracts/core/sources/bucket.move:1070-1079 | the first index with the given start, or the length when there is none |
| `QueueWalk.SkipTombstones` | contracts/core/sources/bucket.move:1008-1036 | jumping tombstones at the cursor moves no live unit |
| `QueueWalk.AdvanceCursor` | contracts/core/sources/bucket.move:1008-1036 | the walk succeeds exactly when enough live units lie ahead of the first spread, and then leaves every position with its first in, first out share |
| `WriteQueue.CursorIsFifo` | contracts/core/sources/bucket.move:1008-1036 | moving the cursor over any stretch free of spreads is the first in, first out assignment of the live units passed |
| `WriteQueue.ReachableUpTo` | contracts/core/sources/bucket.move:1008-1036 | what the walk can consume is what lies ahead of the first spread |
| `FifoLedger.AssignKeepsOrder` | contracts/core/sources/bucket.move:585-629 | an exercise leaves no later writer assigned while an earlier one has live units |
| `FifoLedger.StepKeepsInvariant` | contracts/core/sources/bucket.move:507-1000 | every operation keeps the write order of assignment, the pool equal to the live pooled units and the supply equal to all live units before expiry |
| `FifoLedger.EveryRunKeepsInvariant` | contracts/core/sources/bucket.move:507-1000 | the same over every run |
| `Solvency.WholeStrikeSettlesExactly` | contracts/core/sources/bucket.move:585-680 | with a whole strike the settlement pool equals what it owes after every run |
| `Solvency.SolventPaysEveryPosition` | contracts/core/sources/bucket.move:631-680 | a solvent bucket after expiry can pay any position, and stays solvent for the others |
| `Solvency.DrainedMeansSolvent` | contracts/core/sources/bucket.move:631-680 | if every position gets out after expiry, in any order, the bucket was solvent and keeps exactly what it held beyond what it owed |
| `Solvency.DrainFrom` | contracts/core/sources/bucket.move:631-680 | from a solvent bucket after expiry everybody can get out |
| `Solvency.CleanUpPossibleIff` | contracts/core/sources/bucket.move:695-734 | after expiry the bucket can be emptied down to zero settlement, as clean-up demands, exactly when it holds just what it owes |
| `Solvency.DrainedPoolsAreEmpty` | contracts/core/sources/bucket.move:695-734 | once every position is out no underlying is left and nothing is owed |
| `SolventRuns.ExactStrikeSettlesExactly` | contracts/core/sources/bucket.move:585-680 | with a whole or negligible strike the pool equals what it owes after every run within 64-bit coins |
| `SolventRuns.SinglesPaid` | contracts/core/sources/bucket.move:585-680 | one write exercised unit by unit pays the sum of the units' payments and owes the amount's |
| `SolventRuns.AmountPaid` | contracts/core/sources/bucket.move:585-680 | single-unit writes exercised at once pay the amount's payment and owe the sum of the units' |
| `SolventRuns.InexactStrikeLeaks` | contracts/core/sources/bucket.move:585-680 | every other strike has one such run that leaves the pool short and another that leaves a surplus |
| `InexactBuckets.HalfStrikeStrandsSecond` | contracts/core/sources/bucket.move:585-680 | on the bucket itself, at a strike of one half: two writes, one exercise of both, the first redemption is paid and the second aborts for want of balance |
| `InexactBuckets.BuildInexact` | contracts/core/sources/bucket.move:585-680 | on the bucket itself, for every strike that is not exact: calls that leave one bucket short and another with a surplus |
| `InexactBuckets.ExerciseSingly` | contracts/core/sources/bucket.move:585-629 | the calls of the run that exercises unit by unit all go through |
| `InexactBuckets.ExerciseAtOnce` | contracts/core/sources/bucket.move:585-629 | the calls of the run that exercises all at once go through |
| `SolventRuns.SolventInEveryRunIff` | contracts/core/sources/bucket.move:585-680 | for a normalized strike, solvent in every run within 64-bit coins if and only if the strike is whole or negligible |
| `SolventRuns.EmptiesInEveryRunIff` | contracts/core/sources/bucket.move:695-734 | for a normalized strike, an emptied bucket has no settlement left in every such run if and only if the strike is whole or negligible |
| `Solvency.ShortfallAtMostHalfAUnitEach` | contracts/core/sources/bucket.move:585-680 | over every run the shortfall is at most half a unit per exercise and per position |
| `BucketSteps.WriteStep` | contracts/core/sources/bucket.move:551-567 | a write is the ledger's write and keeps the queue's invariant |
| `BucketSteps.ExerciseStep` | contracts/core/sources/bucket.move:585-629 | an exercise with an advanced cursor is the ledger's exercise |
| `BucketSteps.CloseStep` | contracts/core/sources/bucket.move:786-824 | tombstoning the tail of a position is the ledger's close |
| `BucketSteps.CloseSpreadStep` | contracts/core/sources/bucket.move:945-972 | buying back a spread is the ledger's close of its lot |
| `BucketSteps.UnwindStep` | contracts/core/sources/bucket.move:910-939 | unwinding turns the spread's lot into a pooled one at its place in the queue |
| `BucketSteps.RedeemStep` | contracts/core/sources/bucket.move:631-680 | redeeming is the ledger's redemption of that lot |
| `BucketSteps.RedeemSpreadStep` | contracts/core/sources/bucket.move:978-1000 | an expired spread leaves without touching the pools |
| `BucketSteps.SupplyIsCapacity` | contracts/core/sources/bucket.move:585-629 | before expiry the live supply is exactly the room between cursor, tombstones and total, so the capacity check never fails |
| `BucketSteps.RedeemIsCovered` | contracts/core/sources/bucket.move:631-680 | the pool always holds a position's unexercised underlying |
| `CallBucket.Bucket.constructor` | contracts/core/sources/bucket.move:137-187 | a new bucket is the empty one |
| `CallBucket.Bucket.Write` | contracts/core/sources/bucket.move:507-567 | aborts exactly on expiry, freeze, zero or overflow and then changes nothing; otherwise one ledger write, returning the new range |
| `CallBucket.Bucket.WriteSpread` | contracts/core/sources/bucket.move:847-902 | the exact abort condition, and otherwise one ledger spread write whose escrowed cash is what exercising its long costs, and no amount costs more at the long strike than at the bucket's own |
| `CallBucket.Bucket.CheckWriteSpread` | contracts/core/sources/bucket.move:856-890 | the gate of a spread write, exactly; the strike check fails if and only if some amount costs more at the long strike |
| `CallBucket.Bucket.FileSpread` | contracts/core/sources/bucket.move:875-890 | the range is queued and its escrow filed under its start, one ledger spread write |
| `CallBucket.Bucket.CheckExercise` | contracts/core/sources/bucket.move:585-610 | the exact conditions before the walk; the capacity abort is unreachable |
| `CallBucket.Bucket.Walk` | contracts/core/sources/bucket.move:1008-1036 | succeeds exactly when the ledger can assign the amount |
| `CallBucket.Bucket.SettleExercise` | contracts/core/sources/bucket.move:605-629 | settling the coins after the walk completes one ledger exercise |
| `CallBucket.Bucket.Exercise` | contracts/core/sources/bucket.move:585-629 | goes through exactly when before expiry, paid exactly, within arithmetic and not blocked by a spread; then one ledger exercise; never aborts for capacity or balance |
| `CallBucket.Bucket.CheckCloseOffset` | contracts/core/sources/bucket.move:786-812 | a tail may be closed exactly when it is unexercised, within the position, pooled and before expiry |
| `CallBucket.Bucket.CloseOffset` | contracts/core/sources/bucket.move:786-824 | one ledger close, and the position keeps the rest of its range |
| `CallBucket.Bucket.Tombstone` | contracts/core/sources/bucket.move:1041-1056 | the closed tail joins the tombstones and nothing else does |
| `CallBucket.Bucket.TouchesSpread` | contracts/core/sources/bucket.move:1058-1068 | the overlap test tells a position's own spread exactly |
| `CallBucket.Bucket.FindOwnSpread` | contracts/core/sources/bucket.move:1081-1087 | the exact search finds a position's spread entry and its escrow |
| `CallBucket.Bucket.QuoteRedemption` | contracts/core/sources/bucket.move:631-667 | pays underlying for the units past the cursor and settlement for those behind it; fails for want of funds only on the settlement side |
| `CallBucket.Bucket.Payout` | contracts/core/sources/bucket.move:654-667 | the payment and its exact abort conditions |
| `CallBucket.Bucket.Redeem` | contracts/core/sources/bucket.move:631-680 | the exact success condition and one ledger redemption |
| `CallBucket.Bucket.CheckCloseSpread` | contracts/core/sources/bucket.move:945-960 | a spread may be bought back exactly before expiry and in full |
| `CallBucket.Bucket.BuyBackSpread` | contracts/core/sources/bucket.move:945-972 | the range is tombstoned and its escrow leaves |
| `CallBucket.Bucket.CloseSpread` | contracts/core/sources/bucket.move:945-972 | returns the whole escrow of that range and only it |
| `CallBucket.Bucket.RedeemSpread` | contracts/core/sources/bucket.move:978-1000 | after expiry an untouched spread gets its whole escrow back |
| `CallBucket.Bucket.LocateSpread` | contracts/core/sources/bucket.move:1070-1079 | the spread found by start is the one whose escrow is filed there |
| `CallBucket.Bucket.Physicalize` | contracts/core/sources/bucket.move:910-939 | the range becomes a pooled write in place |
| `CallBucket.Bucket.UnwindSpread` | contracts/core/sources/bucket.move:910-939 | one ledger unwind here and one ledger exercise in the long bucket; the escrowed cash is always the right payment |
| `CallBucket.Bucket.BurnExpired` | contracts/core/sources/bucket.move:682-692 | only after expiry, and only the supply falls |
| `CallBucket.Bucket.SetInvalidated` | contracts/core/sources/bucket.move:736-762 | the freeze flips only before expiry and only when it changes, and touches nothing else |
| `CallBucket.Bucket.MayCleanUp` | contracts/core/sources/bucket.move:695-734 | destruction is allowed only when no position has anything left in the pool and no spread is out |
| `BucketRuns.HistoryIsRun` | contracts/core/sources/bucket.move:507-1036 | every history of steps within 64-bit coins, such as the transactions keep for each bucket, is a possible run of the position-by-position ledger |
| `BucketRuns.HistorySettlesExactly` | contracts/core/sources/bucket.move:585-680 | in every history of a bucket with an exact strike the settlement pool equals what is owed |
| `BucketRuns.RedemptionNeverAborts` | contracts/core/sources/bucket.move:631-680 | in every history with an exact normalized strike a pooled position can always redeem |
| `BucketRuns.NormalizeStrike` | contracts/core/sources/option_coin.move:81-91 | the result is canonical and the same ratio, and it aborts only when no canonical encoding fits |
| `BucketRuns.CanonicalUnique` | contracts/core/sources/option_coin.move:76-91 | each strike has exactly one canonical encoding |
| `BucketRuns.WholeMeansNoScale` | contracts/core/sources/option_coin.move:81-91 | a normalized strike is whole exactly when its scale is zero |
| `BucketRuns.ExactMeans` | contracts/core/sources/option_coin.move:81-91 | for a normalized pair, exact means scale zero, or twice the significand times the largest supply below ten to the scale |
| `CoinBooks.LockedRemove` | contracts/core/sources/bucket.move:847-939 | the coins locked in a set of escrows are those of any one escrow and those of the rest, whatever the order of counting |
| `CoinBooks.EscrowWithinSupply` | contracts/core/sources/bucket.move:903-939 | if wallets and escrows add up to each supply, the coins of any escrow are within their bucket's supply |
| `CoinBooks.PlainKeeps` | contracts/core/sources/bucket.move:507-762 | a call that leaves the escrows alone and moves wallets as it moves the supply keeps the books: histories, escrows and supplies |
| `CoinBooks.SpreadKeeps` | contracts/core/sources/bucket.move:847-902 | locking coins of another bucket in a new escrow and minting against it keeps the books |
| `CoinBooks.ReturnedKeeps` | contracts/core/sources/bucket.move:903-1000 | taking an escrow out and returning its coins keeps the books |
| `CoinBooks.JoinedKeeps` | contracts/core/sources/bucket.move:137-187 | a new bucket keeps the books |
| `Transactions.Create` | contracts/core/sources/bucket.move:137-187 | the new bucket joins the books empty |
| `Transactions.Write` | contracts/core/sources/bucket.move:507-567 | the exact success condition; the new coins reach a wallet, and over all buckets histories, escrows and supplies stay in step |
| `Transactions.Exercise` | contracts/core/sources/bucket.move:585-629 | the same for coins taken from a wallet and burned |
| `Transactions.CloseOffset` | contracts/core/sources/bucket.move:786-824 | the same for coins netted against a position's tail |
| `Transactions.Redeem` | contracts/core/sources/bucket.move:631-680 | no coins move; with an exact strike every pooled position is paid after expiry, whatever transactions came before |
| `Transactions.SettlesExactly` | contracts/core/sources/bucket.move:585-680 | whatever transactions came before, a bucket with an exact strike holds exactly the settlement it owes |
| `Transactions.BurnExpired` | contracts/core/sources/bucket.move:682-692 | only after expiry, and only coins of a wallet |
| `Transactions.SetInvalidated` | contracts/core/sources/bucket.move:736-762 | the exact success condition, and the books are untouched |
| `Transactions.WriteSpread` | contracts/core/sources/bucket.move:847-902 | the exact success condition; long coins move from a wallet into the new escrow and the new coins into a wallet |
| `Transactions.CloseSpread` | contracts/core/sources/bucket.move:945-972 | the exact success condition; just that escrow leaves and its coins return to a wallet |
| `Transactions.RedeemSpread` | contracts/core/sources/bucket.move:978-1000 | the same after expiry, burning nothing |
| `Transactions.UnwindSpread` | contracts/core/sources/bucket.move:903-939 | succeeds if and only if the spread is there, the long bucket is live and not blocked by a spread ahead of that many units, and no balance overflows; that the escrowed coins exist is proved, not assumed |
| `SpreadChains.EscrowGuaranteesCrank` | contracts/core/sources/bucket.move:903-939 | if the long bucket is live and holds no spread the crank succeeds unless a balance overflows |
| `SpreadChains.BlockedCrank` | contracts/core/sources/bucket.move:903-939 | on three buckets: the crank aborts although its long bucket is live, and succeeds once the long bucket's own spread is unwound |
| `RouteFill.SkeletonByDigest` | exchange-dashboard/src/tx/routeFill.ts:19-25 | the map holds the last skeleton command of each digest |
| `RouteFill.BuildHop` | exchange-dashboard/src/tx/routeFill.ts:56-137 | the loop over a hop's legs emits the reference compilation of that hop |
| `RouteFill.BuildRouteFillTx` | exchange-dashboard/src/tx/routeFill.ts:27-152 | the nested loops build a transaction if and only if there is a path and every part of the plan passes, and it follows the plan part by part |
| `RoutePlan.VisitsInOrder` | exchange-dashboard/src/tx/routeFill.ts:50-139 | the parts of a plan are its paths, hops and legs, each once, in that nesting and order |
| `RouteFill.LastForIsLast` | exchange-dashboard/src/tx/routeFill.ts:19-25 | the lookup finds the last skeleton command that carries the digest, or none |
| `RouteFill.LegServed` | exchange-dashboard/src/tx/routeFill.ts:69-128 | a leg's command carries the leg's order and amount, its hop's market, the skeleton's whitelist or else the options', and goes through the adapter with the skeleton's ids exactly for a vault leg; or the error is that leg's first failed check |
| `RouteFill.ProgramFollowsPlan` | exchange-dashboard/src/tx/routeFill.ts:27-152 | said of the plan alone: the coins taken and fills made are what the paths and legs ask for, one by one and in order, then one floor check of the target token and one transfer to the sender; an error is that of the first part that fails |
| `RouteMeaning.LegSticksIffDisagrees` | exchange-dashboard/src/tx/routeFill.ts:66-128 | an emitted leg is ill typed exactly when it is a vault leg whose skeleton direction disagrees with the hop |
| `RouteMeaning.LegsMeaning` | exchange-dashboard/src/tx/routeFill.ts:66-130 | the legs of a hop draw on one coin in turn: outputs collected, change passed on |
| `RouteMeaning.HopMeaning` | exchange-dashboard/src/tx/routeFill.ts:56-137 | a hop turns one input coin into one output coin and one residual |
| `RouteMeaning.PathConserves` | exchange-dashboard/src/tx/routeFill.ts:56-137 | each hop's input is the previous hop's summed output and splits into what was taken and one residual |
| `RouteMeaning.RouteConservation` | exchange-dashboard/src/tx/routeFill.ts:50-139 | the same over every path of a route |
| `RouteMeaning.ResidualPerHop` | exchange-dashboard/src/tx/routeFill.ts:131-150 | exactly one residual coin per hop |
| `RouteMeaning.FinishMeaning` | exchange-dashboard/src/tx/routeFill.ts:140-151 | outputs are joined, checked against the floor once and sent with all residuals; below the floor the transaction halts |
| `RouteMeaning.CompiledRouteMeaning` | exchange-dashboard/src/tx/routeFill.ts:27-152 | for every typed plan and any fill behaviour the program is linear and well typed, leaves no coin over, conserves value hop by hop and gives the sender at least the floor |
| `RouteTotals.EveryTokenIsConserved` | exchange-dashboard/src/tx/routeFill.ts:27-152 | in a run that goes through, for every token, inputs and payouts equal what makers took and what the sender was sent |
| `RouteTotals.PathBalances` | exchange-dashboard/src/tx/routeFill.ts:56-137 | the same balance along one path |
| `QuotingProtocol.EveryRunSettlesAtMostOnce` | frontend/src/api/quotingClient.ts:79-335 | over every interleaving and whatever the ids, no call is told more than one outcome and the unsettled calls are exactly those with a live timer |
| `QuotingProtocol.StepKeepsOneToOneIff` | frontend/src/api/quotingClient.ts:79-335 | a step keeps unsettled calls, table entries and timers in one-to-one correspondence if and only if it does not reuse an id in flight |
| `QuotingProtocol.AlwaysOneToOneIffNoReuse` | frontend/src/api/quotingClient.ts:79-335 | every state of a run has the correspondence if and only if no step of the run reuses an id in flight; reusing the id of a settled call is fine |
| `QuotingProtocol.StepOrphansIff` | frontend/src/api/quotingClient.ts:79-335 | a call in flight becomes an orphan exactly when its id is reused or when the timer of another call of its id fires |
| `QuotingProtocol.DistinctIdsStayOneToOne` | frontend/src/api/quotingClient.ts:79-335 | ids that are never used twice are enough for no step to reuse one in flight, and so for the correspondence in every state |
| `QuotingProtocol.CloseSettlesAllButOrphans` | frontend/src/api/quotingClient.ts:216-251 | after any close, even of a stale socket, both tables are empty and the calls still unsettled are exactly those that neither table held |
| `QuotingProtocol.CloseSettlesEverything` | frontend/src/api/quotingClient.ts:216-251 | with the correspondence, every close leaves no timer and every call with exactly one outcome |
| `QuotingOutcomes.RfqResponseMeaning` | frontend/src/api/quotingClient.ts:275-283 | a response tells the RFQ on file under its id exactly its quotes, takes its entry and timer away and touches nothing else; with no such RFQ it does nothing |
| `QuotingOutcomes.BulkResponseMeaning` | frontend/src/api/quotingClient.ts:284-291 | the same for a bulk view and its premiums |
| `QuotingOutcomes.ErrorMeaning` | frontend/src/api/quotingClient.ts:292-323 | an error frame answers an RFQ with nothing for no quotes and rejects it for any other code, answers a bulk view with nothing, and without a known id does nothing |
| `QuotingOutcomes.OtherFramesTouchNothing` | frontend/src/api/quotingClient.ts:324-334 | acknowledgements, pings and bucket updates touch no call |
| `QuotingOutcomes.SendMeaning` | frontend/src/api/quotingClient.ts:79-159 | a new call is rejected at once if the socket is not open or the send throws, else on file under its id with its timer running and told nothing |
| `QuotingOutcomes.TimerMeaning` | frontend/src/api/quotingClient.ts:101-104 | a timer rejects its own call as timed out and takes the entry under its id off file |
| `QuotingOutcomes.CloseMeaning` | frontend/src/api/quotingClient.ts:216-236 | a close rejects every RFQ on file, answers every bulk view on file with nothing and leaves every other call as it was |
| `QuotingOutcomes.StaysOnFile` | frontend/src/api/quotingClient.ts:79-335 | over any run without reuse a call stays on file until something answers it, times it out or a socket closes |
| `QuotingOutcomes.EveryResponseReachesItsCall` | frontend/src/api/quotingClient.ts:79-335 | in every run without reuse in flight, a response to any call in flight tells its caller exactly those quotes |
| `QuotingOutcomes.SentIsAnswered` | frontend/src/api/quotingClient.ts:79-335 | from the send to the answer: nothing until the response comes, then its quotes |
| `QuotingOutcomes.ExchangeSucceeds` | frontend/src/api/quotingClient.ts:79-335 | from any state without a usable or pending connection, connecting, opening, acknowledging and sending is possible, and the response then resolves the call |
| `QuotingOutcomes.ConnectMeaning` | frontend/src/api/quotingClient.ts:161-183 | after a connect the client is usable or waits for the newest socket's acknowledgement |
| `QuotingOutcomes.ReconnectMeaning` | frontend/src/api/quotingClient.ts:266-272 | a reconnect timer leaves a socket current, a new one exactly when there was none |
| `QuotingOutcomes.OpenMeaning` | frontend/src/api/quotingClient.ts:184-195 | an opened socket can be sent on; a Hello that throws rejects its promise once |
| `QuotingOutcomes.AckMeaning` | frontend/src/api/quotingClient.ts:204-212 | an acknowledgement completes the handshake, starts the backoff over and resolves the promise if it was waiting |
| `QuotingOutcomes.CloseDisconnects` | frontend/src/api/quotingClient.ts:216-246 | a close shows the client disconnected, schedules one reconnect, drops only its own socket and rejects a waiting promise |
| `QuotingOutcomes.AttemptsAreCloses` | frontend/src/api/quotingClient.ts:204-269 | in every run the attempts counted are the closes since the last acknowledgement |
| `QuotingOutcomes.DelayDoubles` | frontend/src/api/quotingClient.ts:260-265 | the delays are half a second, doubled each time, up to eight seconds |
| `QuotingProtocol.OrphanWaitsForItsTimer` | frontend/src/api/quotingClient.ts:79-335 | over any run without its own timer, a displaced call is reached by no response, error or close |
| `QuotingCalls.OrphanTimerDropsNewerCall` | frontend/src/api/quotingClient.ts:101-105 | the displaced call's timer deletes the newer call's entry, so that the newer call's response is dropped |
| `QuotingCalls.ReuseOrphans` | frontend/src/api/quotingClient.ts:101-105 | a send under an id in flight displaces the older call |
| `QuotingProtocol.ReusedIdIsOrphaned` | frontend/src/api/quotingClient.ts:79-114 | the smallest run in which the close settles the newer call and leaves the displaced one to its timer |
| `QuotingProtocol.StepConsistent` | frontend/src/api/quotingClient.ts:79-335 | a frame that resolves a call carries the call's own id (a close resolves bulk calls with none), and the shown status is the handshake's |
| `QuotingProtocol.HandshakesSettleOnce` | frontend/src/api/quotingClient.ts:175-253 | a connect promise is settled once, at the latest by its socket's close |
| `QuotingProtocol.SecondSocketWhileClosing` | frontend/src/api/quotingClient.ts:161-253 | a second socket opens while the current one is closing, and the older one's close then flushes every request but leaves the new socket current |
| `QuotingProtocol.DelayBounds` | frontend/src/api/quotingClient.ts:260-273 | reconnect delays never shrink and stay between base and cap |
| `QuotingClient.Client.EnsureConnected` | frontend/src/api/quotingClient.ts:161-173 | one protocol step: reuse an acknowledged or pending connection, else open a socket |
| `QuotingClient.Client.Connect` | frontend/src/api/quotingClient.ts:175-183 | a new socket replaces the old one and the handshake starts over, its promise pending |
| `QuotingClient.Client.OnOpen` | frontend/src/api/quotingClient.ts:184-195 | one protocol step: a Hello that throws rejects the connect promise |
| `QuotingClient.Client.OnClosing` | frontend/src/api/quotingClient.ts:85-89 | one protocol step: a closing socket is not open, and its close handler has yet to run |
| `QuotingClient.Client.SendRfq` | frontend/src/api/quotingClient.ts:79-114 | one protocol step: filed with a timer, or rejected at once |
| `QuotingClient.Client.SendBulkView` | frontend/src/api/quotingClient.ts:122-159 | one protocol step, in the bulk table |
| `QuotingClient.Client.Enqueue` | frontend/src/api/quotingClient.ts:100-113 | the timer and the entry are filed, and undone with a rejection if the send throws |
| `QuotingClient.Client.OnTimeout` | frontend/src/api/quotingClient.ts:101-104 | the timer removes its entry and rejects its call |
| `QuotingClient.Client.OnMessage` | frontend/src/api/quotingClient.ts:197-214 | an acknowledgement completes the handshake; anything else is dispatched |
| `QuotingClient.Client.Acknowledge` | frontend/src/api/quotingClient.ts:204-212 | the handshake is done, the backoff starts over and the connect promise resolves if it was pending |
| `QuotingClient.Client.DispatchFrame` | frontend/src/api/quotingClient.ts:275-335 | a response or error settles exactly the call filed under its id |
| `QuotingClient.Client.FlushTable` | frontend/src/api/quotingClient.ts:222-236 | every entry of a table is told the same outcome once, whatever the order |
| `QuotingClient.Client.OnClose` | frontend/src/api/quotingClient.ts:216-253 | one protocol step: drop the socket, flush both tables, reject a pending connect promise, schedule a reconnect |
| `QuotingClient.Client.ScheduleReconnect` | frontend/src/api/quotingClient.ts:260-265 | the timer's delay is that of the attempts so far, which it then counts |
| `QuotingClient.Client.OnReconnectTimer` | frontend/src/api/quotingClient.ts:260-273 | opens a socket only if none is current |
| `RfqHook.NextSound` | frontend/src/api/useRfq.ts:43-88 | every step keeps what is shown tied to the request for the current inputs |
| `RfqHook.ReadyQuotesAreForCurrentInputs` | frontend/src/api/useRfq.ts:43-88 | over every run, whenever the hook is ready its quotes came in a frame carrying the id of the RFQ sent for the current spec, amount and side |
| `RfqHook.EffectMeaning` | frontend/src/api/useRfq.ts:43-60 | idle exactly when disabled or without a bucket or with no or a zero amount; otherwise pending, to ask for the bucket, amount and side of the options |
| `RfqHook.RequestMeaning` | frontend/src/api/useRfq.ts:60-63 | after the debounce the request waits bound to its instance and inputs, and when its frame goes out it is the client's newest call |
| `RfqHook.CallbackMeaning` | frontend/src/api/useRfq.ts:63-82 | the current instance shows the quotes or the reason it was given; a cancelled one paints nothing |
| `RfqHook.NoConnectionMeaning` | frontend/src/api/useRfq.ts:75-82 | a connection that does not come up is shown as the failure of the current instance only |
| `RfqHook.UseRfq.OnEffect` | frontend/src/api/useRfq.ts:43-60 | one step: the old instance is cancelled, the new one starts pending or idle |
| `RfqHook.UseRfq.OnDebounce` | frontend/src/api/useRfq.ts:60-63 | one step: the request is bound to the instance and inputs of its effect |
| `RfqHook.UseRfq.OnFrameGoes` | frontend/src/api/useRfq.ts:60-63 | one step together with the client's own send |
| `RfqHook.UseRfq.OnConnectFails` | frontend/src/api/useRfq.ts:75-82 | only a live instance shows the failure, with its reason |
| `RfqHook.UseRfq.OnSettled` | frontend/src/api/useRfq.ts:63-82 | a cancelled instance paints nothing; a live one shows the quotes or the reason of the rejection |
| `OraclePrice.EveryRunStaysConnected` | frontend/src/api/pyth.ts:96-193 | without subscriptions there is neither socket nor retry timer, with some there is exactly one of the two, and backoff stays in bounds, in every reachable state |
| `OraclePrice.CacheIsLatest` | frontend/src/api/pyth.ts:195-224 | the cached price is the latest live frame if any arrived, else the snapshot's |
| `OraclePrice.FrameMeaning` | frontend/src/api/pyth.ts:195-207 | a frame caches its own price, confidence and time in whole seconds under its feed and tells exactly that to each subscriber of the feed, and nothing to anybody else |
| `OraclePrice.SnapshotMeaning` | frontend/src/api/pyth.ts:209-224 | a snapshot fills only feeds with no price, from the first entry for each |
| `OraclePrice.SubscribersAreThoseWanting` | frontend/src/api/pyth.ts:96-119 | in every run the subscribers of a feed are exactly those whose last word on it was to subscribe |
| `OraclePrice.SeededIffSubscribed` | frontend/src/api/pyth.ts:129-135 | in every run the snapshot has been asked for exactly once somebody has subscribed |
| `OraclePrice.BackoffMeaning` | frontend/src/api/pyth.ts:146-193 | an opened socket starts the backoff over; the close of the current one doubles it up to the cap and leaves a retry pending |
| `OraclePrice.OneSnapshot` | frontend/src/api/pyth.ts:129-140 | in any run at most one snapshot request is answered, by prices or by a failure, none while one is pending, and one has been made exactly if one is pending or answered |
| `OraclePrice.EverySubscriberSeesCache` | frontend/src/api/pyth.ts:96-124 | every current subscriber was last called with the cached price |
| `OraclePrice.OraclePriceClient.OnSubscribe` | frontend/src/api/pyth.ts:96-107 | one step: register, deliver the cached price, connect |
| `OraclePrice.OraclePriceClient.OnUnsubscribe` | frontend/src/api/pyth.ts:109-119 | one step: the last unsubscribe disconnects |
| `OraclePrice.OraclePriceClient.Connect` | frontend/src/api/pyth.ts:129-169 | connects only when subscribed and neither connected nor waiting |
| `OraclePrice.OraclePriceClient.OnClose` | frontend/src/api/pyth.ts:155-193 | a close of the current socket schedules one retry; a deliberately closed one has lost its handler and does nothing |
| `OraclePrice.OraclePriceClient.OnRetryTimer` | frontend/src/api/pyth.ts:185-193 | the retry clears itself and connects |
| `OraclePrice.OraclePriceClient.DispatchFrame` | frontend/src/api/pyth.ts:195-207 | the cache is set and every subscriber of the feed is called with it |
| `OraclePrice.OraclePriceClient.OnSnapshot` | frontend/src/api/pyth.ts:209-224 | only feeds without a cached price are seeded |
| `MoveTypes.ParseIffMatches` | exchange-dashboard/src/format.ts:38 | parsing a struct atom finds exactly the strings the regular expression matches |
| `MoveTypes.CanonicalizeType` | exchange-dashboard/src/format.ts:49-80 | the character loop computes the scan |
| `MoveTypes.ScannerPrintsTheTree` | exchange-dashboard/src/format.ts:40-80 | for every spelling of every type tree, addresses being numbers, the flat scanner returns the canonical printing of the tree |
| `MoveTypes.PrintUnique` | exchange-dashboard/src/format.ts:40-80 | the canonical printing determines the tree, whatever follows it |
| `MoveTypes.SameTextIffSameType` | exchange-dashboard/src/format.ts:40-80 | two spellings canonicalise alike if and only if they denote the same type, addresses compared as numbers |
| `MoveTypes.AddressPadsTheNumber` | exchange-dashboard/src/format.ts:58-62 | lower-casing and padding turn the digits written into the 64 lower-case digits of the number they spell |
| `MoveTypes.SameAddressIff` | exchange-dashboard/src/format.ts:58-62 | two spellings of an address come out alike exactly when they spell the same number |
| `MoveTypes.BlankIsRefused` | exchange-dashboard/src/format.ts:67-80 | blank input is refused |
| `MoveTypes.CanonicalIsFixed` | exchange-dashboard/src/format.ts:40-80 | canonicalising the canonical text of a type tree changes nothing |
| `MoveTypes.MalformedPathRefused` | exchange-dashboard/src/format.ts:58-61 | a struct path the expression does not match is refused wherever it stands |
| `MoveTypes.WordsAreGlued` | exchange-dashboard/src/format.ts:67-76 | any two words with white space between them come out as one |
| `MoveTypes.GluedAtomsAreNotFixed` | exchange-dashboard/src/format.ts:67-76 | a text that a second pass refuses: two words joined into a malformed path |
| `FixedTypes.SecondPassFixedIff` | exchange-dashboard/src/format.ts:40-80 | for every accepted text, a second pass changes nothing if and only if every stretch between delimiters, its printed words joined, is printed as it stands |
| `FixedTypes.RescanIff` | exchange-dashboard/src/format.ts:49-80 | rescanning what the scan of any text emitted, after any printed words of the same stretch, returns it unchanged exactly under that condition |
| `FixedTypes.ScanAppends` | exchange-dashboard/src/format.ts:49-80 | the scan only ever appends to its output |
| `FixedTypes.PrintedWord` | exchange-dashboard/src/format.ts:40-66 | what one word prints as is one word and prints as itself |
| `FixedTypes.OneWordPerRunIsFixed` | exchange-dashboard/src/format.ts:40-80 | every accepted text with at most one word between delimiters, type tree or not, is left alone by a second pass |
| `Units.AcceptedIff` | exchange-dashboard/src/format.ts:5-14 | accepted exactly when the text is digits with at most one point, at least one digit and at most the allowed places |
| `Units.ParsedExactly` | exchange-dashboard/src/format.ts:5-15 | the parsed amount is the exact decimal value scaled by the power of ten |
| `Units.ParseFormat` | exchange-dashboard/src/format.ts:5-23 | parsing a formatted amount gives it back, for every amount and number of decimals |
| `Units.NearlyShortest` | exchange-dashboard/src/format.ts:17-23 | shortest among spellings with a digit before the point, never more than one character longer than any |
| `Units.LeadingZeroIsDispensable` | exchange-dashboard/src/format.ts:17-23 | for every amount strictly between zero and one unit a spelling one character shorter |
| `Units.ShortestIff` | exchange-dashboard/src/format.ts:17-23 | shortest if and only if zero or at least one unit |
| `Uleb128.EncodeU64` | frontend/frost-wasm/src/lib.rs:62-76 | the loop computes the encoding |
| `Uleb128.DecodeEncode` | frontend/frost-wasm/src/lib.rs:62-76 | decoding gives the number back whatever bytes follow |
| `Uleb128.PrefixFree` | frontend/frost-wasm/src/lib.rs:62-76 | no encoding is a prefix of another number's |
| `Uleb128.Minimal` | frontend/frost-wasm/src/lib.rs:61-76 | every other byte string for the number is longer |
| `Uleb128.U64Length` | frontend/frost-wasm/src/lib.rs:62-76 | at most ten bytes for a 64-bit number |
| `Uleb128.PreimageInjective` | frontend/frost-wasm/src/lib.rs:78-95 | the hashed bytes determine the message, and no transaction shares them |
| `Uleb128.PreimagePrefixFree` | frontend/frost-wasm/src/lib.rs:78-88 | no message's preimage is a proper prefix of another's |
| `Globs.MatchAny` | rust-backend/deployment/affected.py:274-284 | true exactly when some glob matches |
| `Globs.GlobMeaning` | rust-backend/deployment/affected.py:274-284 | a literal glob matches itself only, a trailing double star everything below its directory |
| `Globs.StarMeaning` | rust-backend/deployment/affected.py:274-284 | a star stands for any stretch of the path, slashes included |
| `Globs.StemMatches` | rust-backend/deployment/affected.py:274-284 | whatever follows it, a literal stem of a glob must start the path |
| `Affected.DepNames` | rust-backend/deployment/affected.py:198-206 | exactly the names in image-bearing sections, target sections included, test-only ones excluded |
| `Affected.Closure` | rust-backend/deployment/affected.py:258-269 | the worklist ends, duplicates included, with exactly the crates reachable along dependency edges |
| `Affected.DirectGraph` | rust-backend/deployment/affected.py:247-254 | every crate's direct dependencies are the workspace crates its own manifest needs, or failure exactly when some crate's manifest is unreadable |
| `Affected.NeedsIff` | rust-backend/deployment/affected.py:209-235 | the crates found for a manifest are those with a workspace entry under `crates/` that some image-bearing section of it names |
| `Affected.ImageIsReachable` | rust-backend/deployment/affected.py:238-271 | the crates reached in the graph are those at the end of a chain of manifests, each needing the next, from the service's own |
| `Affected.UnreadableIff` | rust-backend/deployment/affected.py:209-254 | what makes the derivation fail, said of the manifests: none for the workspace, no entry under `crates/`, or an entry or a service without one |
| `Affected.ChangedIff` | rust-backend/deployment/affected.py:328-330 | a path counts as changed exactly when some line is that path with white space around it |
| `Affected.CrateGlobs` | rust-backend/deployment/affected.py:209-271 | fails exactly when a manifest is unreadable, else gives each service the globs of the crates in its image |
| `Affected.AffectedServices` | rust-backend/deployment/affected.py:314-351 | returns exactly the services the decision rebuilds, sorted by name |
| `DeployRules.RebuildAllMeaning` | rust-backend/deployment/affected.py:72-78 | which paths rebuild everything |
| `DeployRules.ListedServices` | rust-backend/deployment/affected.py:61-181 | the canonical service list is the two glob tables together |
| `DeployRules.RebuiltIff` | rust-backend/deployment/affected.py:314-351 | a service is rebuilt if and only if a workspace-wide path counts, a manifest is unreadable, or a counted path lies below the service or below a crate at the end of a chain of manifests from it, names with glob characters being read as globs |
| `DeployRules.OnlyListed` | rust-backend/deployment/affected.py:314-351 | only listed services, and none for an empty change |
| `DeployRules.OtherPathsNeverRemove` | rust-backend/deployment/affected.py:287-305 | a changed path outside data-room never removes a service |
| `DeployRules.CarveOutIff` | rust-backend/deployment/affected.py:287-305 | a data-room path makes the lockfile stop counting exactly when the lockfile was the only changed path under `rust-backend/` |
| `DeployRules.DataRoomPathRemovesIff` | rust-backend/deployment/affected.py:287-351 | a data-room path removes a service exactly when the lockfile was alone and nothing else rebuilds that service |
| `DeployRules.WholeFleet` | rust-backend/deployment/affected.py:331-336 | a counted lockfile rebuilds exactly the listed services |
| `DeployRules.CarveOutInAction` | rust-backend/deployment/affected.py:287-336 | a bare lockfile rebuilds the fleet, the lockfile beside a data-room manifest nothing |
| `BookWalk.MarketEstimate` | frontend/src/components/TradePanel.tsx:129-142 | the walk takes full levels then part of one; its cost is that of what it took; partial exactly when the book is short by more than the tolerance |
| `BookWalk.GreedyIsOptimal` | frontend/src/components/TradePanel.tsx:129-142 | no other way of taking the same total is cheaper to buy or dearer to sell |
| `BookWalk.BestEstimate` | frontend/src/components/TradePanel.tsx:129-142 | the estimate itself is the optimum over all allocations of its total |
| `BookWalk.DisplayKeepsOrder` | frontend/src/api/orderbook.ts:291-342 | a book served best tick first is displayed best price first |
| `BookWalk.DisplayIsExact` | frontend/src/api/orderbook.ts:291-342 | a displayed price times the lot is ticks times tick in display units, a displayed price typed back is its tick on either side, and a displayed quantity is the served one |
| `BookWalk.SnapToLot` | frontend/src/api/orderbook.ts:321-326 | the largest multiple of the lot within the amount |
| `BookWalk.NotionalIsExact` | frontend/src/components/TradePanel.tsx:304-306 | on a snapped quantity quote times lot equals ticks times tick times quantity |
| `BookWalk.LimitPriceRespected` | frontend/src/api/orderbook.ts:303-319 | a bid never offers more, an ask never demands less, than the typed price, within one tick |
| `Escrow.Shortfall` | frontend/src/components/TradePanel.tsx:323-337 | the top-up covers committed amounts plus the new order, and no more than that when it is needed |
| `Escrow.CommittedAfterOne` | frontend/src/components/TradePanel.tsx:323-337 | an order counts as committed with its whole amount, in its own token, exactly while it is open |
| `Escrow.ClosingLowersTopUp` | frontend/src/components/TradePanel.tsx:323-337 | closing an order lowers the next top-up in its token by its amount, as far as a top-up is needed |
| `Escrow.StepKeepsCovered` | frontend/src/components/TradePanel.tsx:299-374 | every placement, fill and cancel keeps all open orders covered, and every fill payable |
| `Escrow.EveryRunIsCovered` | frontend/src/components/TradePanel.tsx:299-374 | from a covered state no run gets stuck on a fill and every state is covered |
| `Escrow.RunKeepsCovered` | frontend/src/components/TradePanel.tsx:299-374 | whatever state a run reaches is covered |
| `Escrow.OrdersAreOnRecord` | frontend/src/components/TradePanel.tsx:299-374 | after any run the orders are one for each posted placement, in order, with its token and amount, filled by exactly what was taken |
| `Escrow.StatusFollows` | frontend/src/components/TradePanel.tsx:299-374 | an order stays open until it is cancelled or filled up |
| `Escrow.BalancesMove` | frontend/src/components/TradePanel.tsx:323-374 | a placement deposits its top-up, a fill pays what it takes and credits its proceeds, a cancel moves nothing |
| `Escrow.StaleByFillsIsCovered` | frontend/src/components/TradePanel.tsx:323-337 | a top-up worked out from reads that fills and cancels have made stale still covers |
| `Escrow.OneReadCoversIff` | frontend/src/components/TradePanel.tsx:323-374 | any number of orders in any tokens, posted from one read with nothing in between, are all covered if and only if in each token the read shows nothing free, or the parts of the free balance they count on come to no more than what is free and what has been filled |
| `Escrow.RoomCoversInterleaved` | frontend/src/components/TradePanel.tsx:323-374 | under that condition every order stays covered and every fill is paid when fills and cancels come between the posts |
| `Escrow.TwoOrdersFromOneRead` | frontend/src/components/TradePanel.tsx:323-374 | two orders of the whole free balance from one read leave the second uncovered |
| `WithdrawQueue.ViewIsReplay` | dashboard/src/api/indexer.ts:93-158 | if not truncated, the pending list is the replayed queue in ascending order, whatever order the queries answered in, the two counts are those of the log, and the three add up to the requests |
| `WithdrawQueue.ReplayMembers` | dashboard/src/api/indexer.ts:66-67 | replaying the log leaves exactly the requested-but-not-completed entries |
| `WithdrawQueue.RequestsAreConserved` | dashboard/src/api/indexer.ts:66-67 | every request is pending, fulfilled or settled, and counted once |
| `WithdrawQueue.SortAscending` | dashboard/src/api/indexer.ts:148 | sorting keyed entries gives a strictly ascending permutation |
| `WithdrawQueue.TruncationIsReported` | dashboard/src/api/indexer.ts:149-157 | truncation is flagged exactly when some history reaches the scan limit |
| `WithdrawQueue.HiddenCompletionsOnlyAdd` | dashboard/src/api/indexer.ts:121-148 | as long as all requests are returned, cut-off completions can only add entries: the whole replayed queue is shown |
| `FrostSessions.KeygenSession.Round2` | frontend/frost-wasm/src/lib.rs:157-178 | one step: the stage is taken out and only success puts one back |
| `FrostSessions.KeygenSession.Finish` | frontend/frost-wasm/src/lib.rs:181-216 | one step: the session is over whatever happens |
| `FrostSessions.KeygenResultIff` | frontend/frost-wasm/src/lib.rs:112-217 | over any calls a result comes out exactly at a second call that finishes after a successful first round, made from that round's service package |
| `FrostSessions.KeygenPackageIff` | frontend/frost-wasm/src/lib.rs:112-178 | a package for the service comes out exactly at a first call that is a round 2 that goes through, and is the one it produced |
| `FrostSessions.FailureEndsKeygen` | frontend/frost-wasm/src/lib.rs:112-217 | after a failure or a result every later call fails |
| `FrostSessions.SignSession.Round2` | frontend/frost-wasm/src/lib.rs:290-330 | one step: the nonces are taken before anything can fail |
| `FrostSessions.NoncesSignAtMostOnce` | frontend/frost-wasm/src/lib.rs:256-331 | over any calls the nonces are used at most once, only by the first call, over a 32-byte digest, and what comes out is that one signature and its package |
| `FrostSessions.SignatureIff` | frontend/frost-wasm/src/lib.rs:256-331 | a signature comes out exactly at a first call over a 32-byte message with readable commitments, and is the share and the signing package over just that message and those commitments |

## Left out

- Bucket creation checks, whitelist gating, the writer and trader quote flows, premium and fee transfers, events and object transfer: the bucket's queue and pools do not depend on them. Time is a parameter of every call.
- The put bucket, vaults, waterfall, matching engine and router contracts.
- SolventRuns.SolventInEveryRunIff: the strike is normalized, as every bucket created on chain has it; buckets created for tests with other strikes are outside it.
- CallBucket.Bucket.Exercise: like the other methods that burn coins it takes an amount of at most the supply; over all buckets `Transactions` proves that wallets and escrows never hold more. Coins are counted per bucket, not per owner, and a position is tied to its write by a ghost index.
- RouteMeaning.CompiledRouteMeaning: fills return change equal to input minus what was taken; signed orders and type arguments are opaque payloads, and coin selection and gas are not modelled.
- QuotingClient.Client.EnsureConnected: awaiting the connection is a separate step, so a send happens when its caller resumes; how each connect promise is settled is modelled, who awaits it is not; listeners and the role are not modelled.
- OraclePrice.OraclePriceClient.DispatchFrame: subscribers do not re-enter the client while being called, and the random jitter of a delay is not modelled.
- Frame decoding, HTTP, JSON, React rendering, wallets and local storage: their results are arbitrary events.
- Units.ParseFormat: amounts are non-negative, as on-chain amounts are; decimals are a natural number.
- Affected.AffectedServices: a manifest whose sections have the wrong type is not modelled.
- BookWalk.MarketEstimate: prices and quantities are exact reals, so floating-point rounding is not captured.
- BookWalk.BestEstimate: the same.
- BookWalk.DisplayKeepsOrder: the same for display prices.
- BookWalk.LimitPriceRespected: the same for ticks.
- RfqHook.ReadyQuotesAreForCurrentInputs: a render with new inputs and the effect that follows it are one step; in the source the first render with new inputs still returns the old quotes with status ready, until that effect runs.
- RfqHook.UseRfq.OnSettled: the reason of a failure is modelled, its wording is not.
- Escrow.RoomCoversInterleaved: one way only, since a fill or cancel between the posts can free what the read did not show.
- Escrow.StepKeepsCovered: withdrawals, mirror polling and signing are not modelled; a placement that stops after its deposit is.
- WithdrawQueue.ViewIsReplay: the decoding of event payloads into entries and `fetchVaultFlows` are not modelled; the three queries see the same log.
- FROST key generation, signing and aggregation, Blake2b, base64 and BCS internals: parameters or left out.
