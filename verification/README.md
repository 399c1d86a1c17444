# Exchange core: model and proofs

The exchange takes deposits and limit orders for a few markets. A reserved order is matched in
price-time priority against the resting orders of its market, its fills are settled between the
accounts, what is left of it rests on its own side of the book, and everything touched is written
to the store and the cache. A new process reloads accounts, open orders and trades from the store
and rebuilds its books and reservations from them.

The project has two layers.

* Values. `Domain`, `Matching`, `Priority`, `BookModel`, `WalletModel`, `Settlement`, `Recovery` and
  `Machine` describe the exchange as a state machine: deposit, place an order, restart, read, expire a
  cache entry, each a function from state to state with the source's branches, errors and clamps.
  `Invariant.Good` is what holds between operations: books in strict price-time order and uncrossed,
  locks equal to what the resting orders hold over all books, wallet equal to store with versions,
  stored open orders equal to resting orders, orders and balances accounted for by the trade tape,
  cache equal to its sources. `Money`, `Executing`, `Syncing`, `OrderRecords`, `Placing`, `Restarting`
  and `Runs` prove it for every run; `Requests` says what one request gets, in terms of the request and the
  answer; `Consequences`, `MarketTape` and `Auditing` spell out what follows over whole runs.
* Objects. `OrderBooks`, `Wallets`, `Stores` and `Exchanges` hold the classes. Order records are shared
  by reference between the books, the fills of a submission and the exchange, and are updated in place
  in the source's order: a submission changes all makers' remainders first, the fill loop moves the money
  afterwards, changed accounts and orders are collected in maps and written back in any order. Every
  method is proved to do to the objects what the machine does to the values, failures included, so that
  `Exchange.PlaceOrder` and `Exchange.NewExchange` keep the invariant of the running objects. `Patching`,
  `Steps` and `StartUp` hold what these proofs need to know about values.

`ConcurrentDeposits` is a separate state machine for deposits to one account that interleave step by step;
`DepositSchedules` says which schedules of it lose money or leave the cache behind, and `DepositOutcomes` which
deposits are turned away. `Arrivals` follows the
arrival numbers over a whole history, and `Rounds` builds runs of sells and matching buys that show the
conditions below are met and missed by runs that really occur.

The central step is `Settlement.TwoPhaseIsOnePhase`: matching a whole order and settling its fills
afterwards reaches what matching and settling one maker at a time reaches. The money is then followed
through the simpler form, with no notion of pending fills.

Some things a reader might expect turn out to hold only under a condition, and the condition is exact:

* The sequence counter of a book survives a restart exactly when its last arrival still rests, or
  nothing ever arrived (`Restarting.CounterSurvivesIff`). `Rounds.CounterCanDrop` is a run after which it is
  lower, and `Rounds.ArrivalsCanRepeat` goes on to record a second order under the same number.
* The arrival numbers recorded for a symbol are pairwise distinct exactly when no order was placed there
  while the counter stood below the largest recorded number (`Arrivals.ArrivalsDistinctIff`). Among resting
  orders they always are.
* The trade lists show the whole tape after a restart exactly when the tape has at most 1000 trades
  (`MarketTape.RestartShowsTapeIff`). `Rounds.RoundsFillTape` reaches every tape length, and
  `Rounds.RestartCanCutTape` a restart that shows less than the tape. What is shown in general, after any number
  of restarts, is `MarketTape.TradesReadAfterRestarts`.
* A new process comes up over arbitrary tables exactly when no open order of a known market belongs to an
  account that has a version but no balance row (`StartUp.StartFailsIff`); reachable states have none.
* Under concurrent deposits the cached account is the wallet's exactly when nothing was published or the
  last write to the cache is that of the last deposit published (`DepositSchedules.CacheIsCurrentIff`);
  `CacheCanLag` is a run in which it is not. A reader can tell by the version
  (`ConcurrentDeposits.CacheShowsItsVersion`).
* Over the no-op store, which ignores versions, concurrent deposits lose nothing exactly when no deposit is
  published after another one that was itself published since the first was read
  (`DepositSchedules.NoopLosesNothingIff`); `NoopStoreLosesADeposit` is a run that loses one. With the
  versioned store they never lose anything: a deposit's persist succeeds exactly when every deposit
  persisted by then was already published when its copy was read (`DepositSchedules.PersistSucceedsIff`), so
  the schedule alone decides who is turned away (`DepositOutcomes.DepositFailsIff`), and deposits that take
  turns all succeed (`DepositOutcomes.TurnsAllSucceed`).

## Model

| member | source | states |
|---|---|---|
| Matching.MatchHasShape | internal/engine/book.go:100-172 | Fills consume a prefix of the opposite side, each at its maker's price and within the limit; every fill but the last exhausts its maker; matching stops only when the taker is done, the side is empty or the best maker left is outside the limit. |
| Matching.FilledQuantity | internal/engine/book.go:100-172 | The filled quantity is the lesser of what the order wants and all that is on offer within its limit. |
| Matching.GreedyIsOptimal | internal/engine/book.go:100-172 | No allocation to eligible makers that respects the order's quantity takes more, and among those that take as much the fills cost a buyer the least and bring a seller the most. |
| Matching.UnderWayStep | internal/engine/book.go:103-132 | One round of the matching loop keeps the invariant that what is done, followed by matching the rest, is the specified match. |
| Priority.StableSortIsStable | internal/engine/book.go:174-188 | Sorting a side leaves entries of equal price and arrival number in their relative order. |
| Priority.StableSortPermutes | internal/engine/book.go:174-188 | Sorting a side neither loses nor duplicates an order. |
| Priority.StableSortSorts | internal/engine/book.go:174-188 | With distinct arrival numbers the sorted side is in strict price-time order. |
| Priority.AppendAndSortInserts | internal/engine/book.go:64-75 | Appending an order to a sorted side and sorting is inserting it at the one position that keeps the side sorted; all others keep their relative order. |
| Priority.CanonicalSide | internal/engine/book.go:174-188 | Sorting any permutation of the same orders gives the identical side. |
| Priority.SortedByMembers | internal/engine/book.go:174-188 | A side in strict order is determined by which orders are on it. |
| BookModel.MatchedInOrder | internal/engine/book.go:53-75 | After matching and before the rest is placed, both sides are in order and the taker's arrival number is new to both. |
| BookModel.SubmitKeepsOrder | internal/engine/book.go:53-87 | Submitting any order to an ordered book leaves an ordered book: the taker's side gains one insertion, the other side is what matching left. |
| WalletModel.ReserveFailsWithoutCover | internal/wallet/service.go:41-73 | Reserve succeeds exactly when the available balance covers the order's full cost, and then records that cost on the order; otherwise it names the lacking asset and leaves the order alone. |
| WalletModel.ReserveEffect | internal/wallet/service.go:41-73 | Reserve moves exactly the order's cost from available to locked in its lock asset, and no other balance; nothing when it fails. |
| WalletModel.SettleFailsOnUnderflow | internal/wallet/service.go:75-113 | Settle succeeds exactly when the locked balance covers the traded quantity at the order's own limit; otherwise it names the lock's asset and no balance changes. |
| WalletModel.SettleEffect | internal/wallet/service.go:75-113 | Settle takes the traded quantity's cost at the order's limit out of the lock, and changes the account's total by exactly the trade: a buyer's surplus over the trade price returns to available. |
| WalletModel.ReleaseEffect | internal/wallet/service.go:115-147 | Releasing an order with nothing left to trade moves its reservation, or the lock when that is less, to available, and clears the reservation; an order with something left is untouched. |
| WalletModel.AdjustEffect | internal/wallet/service.go:149-154 | What a fill consumes leaves the reservation, which never falls below zero. |
| WalletModel.ReleaseOfNothing | internal/wallet/service.go:115-147 | Releasing an order with nothing reserved changes neither account nor order. |
| Settlement.TwoPhaseIsOnePhase | internal/platform/exchange.go:174-196 | Matching the whole order first and settling its fills afterwards gives the same accounts, order records, trades, side and failure as matching and settling one maker at a time. |
| Settlement.ApplyIgnoresProgress | internal/platform/exchange.go:333-366 | What settling one fill does to accounts and maker does not depend on how far the taker's later matching has gone. |
| Settlement.FailedTradeEffect | internal/platform/exchange.go:333-345 | A fill that fails names the lock that was short: the maker's, and then nothing moved, or the taker's, and then the maker's settlement stands; both records are untouched. |
| Money.StepSucceeds | internal/platform/exchange.go:333-366 | When the locks cover both orders, one maker's trade settles on both sides without underflow, both reservations end up exactly limit times remainder with no clamp binding, and releasing an exhausted maker moves nothing. |
| Money.StepKeepsSound | internal/platform/exchange.go:182-189 | After one maker's trade the locks still cover the taker and every maker that remains, self-trades and several makers of one account included. |
| Money.RunSucceeds | internal/platform/exchange.go:182-196 | No settlement of a covered order fails; each maker met and the taker end up fulfilled for exactly what they traded. |
| Money.RunMoney | internal/platform/exchange.go:182-196 | Over a whole order every balance's total moves by its trades alone, each lock by what the records hold, and no available balance shrinks. |
| Recovery.RebuildConserves | internal/wallet/service.go:173-253 | From any non-negative balances a rebuild keeps every total and both parts non-negative, makes the lock of an affected key the sum of its orders' rewritten reservations, and leaves other keys alone. |
| Recovery.RebuildGrants | internal/wallet/service.go:207-241 | Each order is granted its recorded reservation, or when none is recorded price times remainder for a buy and the remainder for a sell, but no more than the key's total leaves after the orders before it; nothing else of it changes. |
| Recovery.RebuildWithinRemainder | internal/wallet/service.go:215-232 | An order with no reservation recorded is never granted more than its remainder costs. |
| Recovery.RebuildSkipsUnknown | internal/wallet/service.go:208-211 | Orders of other markets are left as they are. |
| Recovery.RebuildFundsPrefix | internal/wallet/service.go:207-241 | On each key a prefix of the orders is funded in full, at most one in part, and none after it. |
| Recovery.RebuildReadsTotals | internal/wallet/service.go:182-241 | The result depends on the stored split between available and locked only through the total. |
| Recovery.RebuildIdempotent | internal/wallet/service.go:173-253 | Rebuilding twice is rebuilding once. |
| Recovery.RebuildIsNoOp | internal/wallet/service.go:173-253 | When every lock is what the listed orders hold, a rebuild changes no account and no order, and no clamp or fallback is taken. |
| Executing.ExecuteIsRun | internal/platform/exchange.go:174-196 | Executing a reserved order never fails and equals the one-maker-at-a-time run in accounts, records, trades and book. |
| Executing.TakerReleasesNothing | internal/platform/exchange.go:191-196 | The final release of a filled order moves zero. |
| Executing.ExecuteMoney | internal/platform/exchange.go:174-196 | An execution turns the order's own hold into what the new book holds, and changes every total by exactly its trades' flows. |
| Executing.ExecuteBookOk | internal/engine/book.go:53-87 | The executed book is in strict price-time order, uncrossed, and made of orders with positive remainders, exact reservations and honest statuses. |
| Syncing.SnapshotsAreLive | internal/platform/exchange.go:177-195 | When the fill loop ends, every snapshot in the changed accounts is the live account, every account that moved has one, and identities and versions are untouched. |
| Syncing.SyncAllAgrees | internal/platform/exchange.go:380-387 | Writing such snapshots back meets no version conflict, leaves wallet and store equal, moves exactly their versions on by one and changes no balance. |
| Syncing.PersistComparesVersion | internal/storage/postgres.go:66-98 | An account is persisted exactly when it carries the stored version, zero for a new one; its row is then one version on with its balances over the stored ones, and no other row changes. |
| Syncing.SyncAllCaches | internal/platform/exchange.go:401-414 | Cached accounts stay what the wallet would return while changed accounts are written to both. |
| Syncing.ExecuteIsAhead | internal/platform/exchange.go:177-200 | After an execution the wallet is ahead of the store by exactly the collected snapshots. |
| Syncing.ExecuteTouches | internal/platform/exchange.go:177-195 | The accounts collected are exactly the one that placed the order and those it traded with. |
| OrderRecords.AfterIdentity | internal/platform/exchange.go:389-399 | The records written back change only an order's progress, never its identity, price or quantity. |
| OrderRecords.BookIsKnown | internal/platform/exchange.go:389-399 | Every order on the executed book is in the order table, field for field. |
| OrderRecords.OpenIsOnBook | internal/platform/exchange.go:389-399 | Every unfinished order of the symbol in the table is on the executed book. |
| OrderRecords.AccountingCarries | internal/platform/exchange.go:201-206 | With the new trades appended to the tape, every order's quantity is still its remainder plus what the tape says it traded. |
| OrderRecords.TapeCarries | internal/platform/exchange.go:204-206 | Every trade on the tape still joins two recorded orders on opposite sides at the maker's price within the taker's limit. |
| OrderRecords.LedgerCarries | internal/platform/exchange.go:204-255 | Replaying the extended tape and audit trail changes each balance by exactly the new trades' flows. |
| Placing.ReservationSucceeds | internal/platform/exchange.go:164-172 | For an order that passed validation, Reserve and the account sync both succeed and wallet, store and cache agree afterwards. |
| Placing.ReservationIsReady | internal/platform/exchange.go:164-172 | After the reservation every lock is what the books hold plus the new order's own cost, and no total has changed. |
| Placing.ExecutionSucceeds | internal/platform/exchange.go:174-200 | For an order that passed validation no settlement underflows and the write-back of the changed accounts meets no version conflict. |
| Placing.AcceptedIsPlaced | internal/platform/exchange.go:140-271 | An order that passes validation in a good state is placed; it cannot get stuck halfway. |
| Placing.FinalBalances | internal/platform/exchange.go:140-271 | After placing an order every lock equals what the resting orders hold over all books, nothing is negative, and every total has changed by exactly the order's trades. |
| Placing.PlacingKeepsGood | internal/platform/exchange.go:140-271 | Placing an order takes a good state to a good state. |
| Restarting.RestoreKeepsOrder | internal/engine/book.go:35-51 | Restoring an order whose arrival number is new puts it, and nothing else, on its side and keeps the book in order. |
| Restarting.RestoreAllCounter | internal/engine/book.go:35-51 | After restoring a list, a book's counter is the largest of where it stood and its restored arrival numbers. |
| Restarting.CanonicalBooks | internal/platform/exchange.go:73-79 | Restoring the same orders in any sequence gives identical books, counters included. |
| Restarting.BooksComeBack | internal/platform/exchange.go:73-79 | From any listing of the stored open orders, each book comes back with the same bids and asks in order; its counter may drop. |
| Restarting.RestartRebuildsNothing | internal/platform/exchange.go:427-437 | On what a good state stored, the reload misses no account and the rebuild changes neither account nor order. |
| Restarting.RestartIsInvisible | internal/platform/exchange.go:52-85 | A restart from a good state succeeds and returns the same balances and the same bids and asks, with wallet and store equal. |
| Restarting.CounterSurvivesIff | internal/engine/book.go:39-41 | After a restart a counter is the last arrival number still resting, or zero, and it is unchanged exactly when the last arrival of all still rests or none ever came. |
| Restarting.RestartKeepsGood | internal/platform/exchange.go:427-449 | A restart takes a good state to a good state, warmed caches included. |
| Restarting.RestartVersions | internal/platform/exchange.go:427-437 | A restart moves on by one version exactly the accounts with an open order, or all of them when there is no open order; apart from that every account is as it was. |
| Restarting.RestartWarms | internal/platform/exchange.go:439-446 | After a restart every market's book and trade list are cached as they stand, and so is every account written back. |
| Runs.DepositEffect | internal/platform/exchange.go:102-125 | A positive deposit succeeds: store, wallet and cache hold the credited account one version on, and the audit trail records it. |
| Runs.DepositSucceedsIff | internal/platform/exchange.go:102-138 | A deposit succeeds exactly when its amount is positive, and otherwise changes nothing. |
| Runs.DepositBalance | internal/platform/exchange.go:127-138 | A deposit changes exactly one balance, by exactly its amount, in its available part. |
| Runs.AccountReadIsUncached | internal/platform/exchange.go:273-287 | A cache-first account read answers the wallet's account, or an empty one at version 0, caches its answer and changes nothing else. |
| Runs.BookReadIsUncached | internal/platform/exchange.go:289-305 | A cache-first book read answers both sides as they stand, caches its answer and changes nothing else. |
| Runs.TradesReadIsUncached | internal/platform/exchange.go:307-323 | A cache-first trade list read answers what the market data would, caches its answer and changes nothing else. |
| Runs.SideIsReadInAnyCase | internal/domain/types.go:104-113 | A side string reads as buy or sell exactly when it spells that word, in either case of each letter. |
| Runs.PlacedIff | internal/risk/service.go:18-45 | In a good state a request is placed exactly when its symbol is traded, its side reads, price and quantity are positive and the account can pay; a rejection names what is wrong. |
| Runs.PlaceIsAllOrNothing | internal/platform/exchange.go:140-271 | In a good state an order is either rejected or placed into a good state. |
| Runs.RunsStayGood | internal/platform/exchange.go:102-323 | Every sequence of deposits, orders, reads, cache expiries and restarts keeps the state good. |
| Runs.ReachableIsGood | internal/platform/exchange.go:42-50 | Every state reachable from the empty exchange with the source's two markets is good. |
| Consequences.LockedIsOnTheBooks | scripts/full-acceptance.sh:165-185 | In every reachable state an account's locked USDT is the cost of its bids on both books, and its locked BTC and ETH are the remainders of its asks. |
| Consequences.BalancesReplayTheLedger | internal/platform/exchange.go:127-208 | In every reachable state each balance is the account's deposits plus the flows of the trades on the tape. |
| Consequences.PlacingConserves | internal/platform/exchange.go:140-271 | An accepted order leaves the total of every asset over all accounts as it was. |
| Consequences.RunConserves | internal/platform/exchange.go:102-271 | Over any run the total of an asset grows by exactly what was deposited of it. |
| Consequences.NothingFromNothing | internal/platform/exchange.go:102-271 | From the start there is of each asset exactly what was deposited. |
| Consequences.BuyerPaysItsTrades | internal/wallet/service.go:81-96 | An incoming buy gives up exactly what its trades with others cost, at most its limit times what it filled; only limit times the unfilled remainder stays locked for it and the rest is available again. |
| Consequences.SellerIsPaidItsTrades | internal/wallet/service.go:97-107 | An incoming sell gives up exactly what it sold to others and receives exactly what they pay, at least its limit times what it filled; its unfilled remainder stays locked. |
| Consequences.AnswerIsTheMatch | internal/platform/exchange.go:174-196 | An accepted order keeps what it is, takes the next arrival number, and is filled for the lesser of its quantity and what was on offer within its limit. |
| Consequences.PriorityIsHonoured | internal/engine/book.go:100-188 | Of two resting orders the better priced, or the earlier at the same price, is exhausted before the other trades at all. |
| Consequences.AcceptedIsBestExecution | internal/engine/book.go:100-172 | For every accepted order no allocation to the resting orders that trades as much costs a buyer less or brings a seller more, and none within its limit and quantity trades more. |
| Consequences.AcceptedHonoursPriority | internal/engine/book.go:100-188 | On the book an accepted order meets, a resting order of higher priority is exhausted before one of lower priority trades. |
| Consequences.OrdersMatchTheTape | internal/platform/exchange.go:356-378 | Every order ever accepted has quantity equal to remainder plus traded quantity, a status that says exactly which, the exact reservation, and rests on its book exactly while it is unfinished. |
| Consequences.TradesHonourBothLimits | internal/engine/book.go:103-127 | Every trade on the tape joins a maker and a taker on opposite sides of its symbol at the maker's price and within the taker's limit. |
| Consequences.BooksStayOrdered | internal/engine/book.go:53-188 | In every reachable state both sides are in price-time order without ties, arrival numbers are distinct and bounded by the counter, remainders are positive, and the best bid is below the best ask. |
| Consequences.WalletIsStored | internal/storage/postgres.go:231-271 | In every reachable state the wallet is the stored accounts, versions included, and a reload misses none of them. |
| Requests.RequestIsPlaced | internal/platform/exchange.go:140-206 | A placed request comes back as an order with its id, account, symbol, side, price and quantity, the next arrival number, and a remainder short of its trades; it is recorded as answered, exactly its trades join the tape, and no other book changes. |
| Requests.RequestTrades | internal/engine/book.go:103-127 | Its i-th trade is with the i-th order it met, at that order's price within the request's limit, for all that order has unless it is the last. |
| Requests.RequestLeavesRecords | internal/platform/exchange.go:389-399 | A recorded order it traded with is short of the traded quantity, every other record is untouched, and none changes identity or arrival number. |
| Requests.RequestIsBestExecuted | internal/engine/book.go:100-172 | No way of taking quantities within the request's price and quantity takes more, and none that takes as much is cheaper for a buyer or brings a seller more. |
| Requests.RequestHonoursPriority | internal/engine/book.go:174-188 | Of two orders it met, the better priced or the earlier at the same price trades all it has before the other trades at all. |
| Requests.BuyRequestPays | internal/wallet/service.go:81-96 | A buy pays exactly what its trades with others cost, at most its own price for what it filled; its own price for the rest stays locked, and it receives what they sold. |
| Requests.SellRequestIsPaid | internal/wallet/service.go:97-107 | A sell gives up exactly what others bought of it and receives what they pay, at least its own price for what it filled; the rest stays locked. |
| Requests.RequestIsAudited | internal/platform/exchange.go:210-255 | The trail gains the acceptance of the order as answered with the number of its trades, then each trade in order under the order's own id, and nothing else. |
| Requests.RequestVersions | internal/platform/exchange.go:170-200 | The account that places an order moves on by two versions, one it trades with by one, and every other account is unchanged. |
| Requests.RequestIsCached | internal/platform/exchange.go:257-263 | The symbol's book and trade list and every touched account are cached as they now stand. |
| Requests.RequestRejectedFor | internal/risk/service.go:18-45 | Which error a request is rejected with: the first of unknown symbol, unreadable side, price, quantity and funds that is wrong; with nothing wrong it is placed. |
| Auditing.TrailTellsTheTape | internal/platform/exchange.go:232-255 | Over every run the trade events of the audit trail are the trades of the tape, in order, each under its taker's order. |
| Auditing.TrailTellsEveryOrderOnce | internal/platform/exchange.go:210-230 | Over every run the trail accepts each recorded order once and no other, with its identity, its arrival number and the number of trades it took. |
| MarketTape.RestartShowsTapeIff | internal/storage/postgres.go:300-322 | After a restart the market data shows the whole tape exactly when the tape has at most 1000 trades. |
| MarketTape.RestartShowsFirstTrades | internal/storage/postgres.go:300-322 | After a restart a trade list read answers the symbol's trades among the first 1000 of the tape, in order. |
| MarketTape.TradesReadShowTheTape | internal/platform/exchange.go:307-323 | In runs whose restarts happen within that limit, a trade list read answers exactly the symbol's trades on the tape, in order. |
| MarketTape.TradesReadAfterRestarts | internal/marketdata/service.go:20-47 | Over every run, a trade list read answers the symbol's trades among the first 1000 at the last restart and all made since, in order. |
| ConcurrentDeposits.PersistComparesVersions | internal/storage/postgres.go:351-383 | In every reachable point of the protocol a deposit's persist succeeds exactly when its copy carries the stored version, and then it credits what the store holds. |
| ConcurrentDeposits.RunsStayConsistent | internal/platform/exchange.go:102-112 | Every interleaving of reading, persisting, publishing and caching keeps the protocol's invariant. |
| ConcurrentDeposits.StoreCountsEveryDeposit | internal/storage/postgres.go:66-98 | Under every interleaving the stored balance is the initial one plus the amounts of exactly the persisted deposits, and the version moved on once for each. |
| ConcurrentDeposits.WalletTrailsByOne | internal/platform/exchange.go:108-111 | At most one deposit is persisted and not yet published, and the wallet trails the store by exactly that one. |
| ConcurrentDeposits.WalletCatchesUp | internal/wallet/service.go:167-171 | Once every persisted deposit is published the wallet equals the store. |
| ConcurrentDeposits.CacheShowsItsVersion | internal/platform/exchange.go:410-414 | Whoever reads a cached account can tell by its version whether it is the wallet's. |
| ConcurrentDeposits.CacheCanLag | internal/platform/exchange.go:111-112 | A run of two deposits after which the cache keeps the older account although both succeeded. |
| ConcurrentDeposits.NoopStoreLosesADeposit | internal/storage/noop.go:20 | A run of two deposits over the no-op store that loses one of them although neither failed. |
| DepositSchedules.NoopLosesNothingIff | internal/storage/noop.go:20 | Over every run of deposits on the no-op store, each balance has grown by all published deposits exactly when no deposit was published on top of one that was published after its copy was read. |
| DepositSchedules.CacheIsCurrentIff | internal/platform/exchange.go:111-112 | Over every run on the versioned store, the cached account is the wallet's exactly when nothing was published or the last cache write belongs to the last deposit published. |
| DepositSchedules.PersistSucceedsIff | internal/storage/postgres.go:351-383 | A deposit's persist succeeds exactly when every deposit persisted by then had been published before its copy was read. |
| DepositSchedules.SomeDepositPersists | internal/storage/postgres.go:66-98 | When all deposits are finished and one of the amounts is positive, at least one of them has been stored: they cannot all lose the race. |
| DepositOutcomes.DepositFailsIff | internal/platform/exchange.go:102-110 | Over every run a deposit is turned away exactly when it read with nothing to deposit or tried to persist while somebody had persisted who was not published before it read, and it is stored exactly when it tried otherwise. |
| DepositOutcomes.NoopFailsIff | internal/storage/noop.go:20 | Over the no-op store only a deposit with nothing to deposit is turned away. |
| DepositOutcomes.AloneIsDeposit | internal/platform/exchange.go:102-112 | The steps of one uninterrupted deposit do to store, wallet and cache what the exchange's deposit does, and it is turned away, with nothing changed, exactly when that fails. |
| DepositOutcomes.AloneOverNoop | internal/storage/noop.go:20 | Over the no-op store they credit wallet and cache at the version read, and store nothing. |
| DepositOutcomes.TurnsAllSucceed | internal/platform/exchange.go:102-112 | Deposits that take turns, in any order, all succeed: the account has every amount, one version on for each, in store, wallet and cache. |
| Arrivals.PlacedArrival | internal/engine/book.go:53-59 | An accepted order is recorded under the number after its book's counter, which the counter becomes; every other recorded order keeps its symbol and number, and no other book changes. |
| Arrivals.ArrivalsDistinctIff | internal/engine/book.go:35-59 | Over every run from the start, the arrival numbers recorded for a symbol are pairwise distinct exactly when no order was placed while the counter stood below the largest recorded one. |
| Rounds.CounterCanDrop | internal/engine/book.go:39-41 | A run from the start (deposits, a sell, a buy that fills it, a restart) after which the book's counter is lower than before. |
| Rounds.ArrivalsCanRepeat | internal/engine/book.go:57-58 | The same run with one more order records two orders of one symbol under one arrival number. |
| Rounds.RoundsFillTape | internal/platform/exchange.go:204-206 | For every k, a run of k sells and matching buys puts exactly k trades on the tape. |
| Rounds.RestartCanCutTape | internal/storage/postgres.go:300-322 | After more than 1000 such rounds a restart shows fewer trades than were made. |
| OrderBooks.OrderBook.MatchBuy | internal/engine/book.go:100-135 | Matches in place against the asks: records, fills and remaining side are the specified match, every fill points at its maker's shared record, and a maker leaves the side exactly when exhausted. |
| OrderBooks.OrderBook.MatchSell | internal/engine/book.go:137-172 | The same against the bids. |
| OrderBooks.OrderBook.SortSide | internal/engine/book.go:174-188 | A stable insertion sort of one side's records. |
| OrderBooks.OrderBook.SortBooks | internal/engine/book.go:174-188 | Sorts both sides stably in place. |
| OrderBooks.OrderBook.Submit | internal/engine/book.go:53-87 | Book, order, trades and fills are the specified submission; the same records stay on the book, the order at its place among them. |
| OrderBooks.OrderBook.Restore | internal/engine/book.go:35-51 | Book and counter are the specified restore, and the shared record itself is what joins the side. |
| OrderBooks.OrderBook.Snapshot | internal/engine/book.go:89-98 | Returns copies of both sides as they stand. |
| Wallets.Wallet.Reserve | internal/wallet/service.go:41-73 | Accounts, order record and error are the specified reservation. |
| Wallets.Wallet.Settle | internal/wallet/service.go:75-113 | Accounts and error are the specified settlement of one side of a trade. |
| Wallets.Wallet.ReleaseRemaining | internal/wallet/service.go:115-147 | Accounts and order record are the specified release, clamp included. |
| Wallets.Wallet.RebuildReservations | internal/wallet/service.go:173-253 | Accounts and rewritten orders are the specified rebuild, and exactly the accounts with an affected key are returned as they then stand. |
| Wallets.Wallet.EnsureAccount | internal/wallet/service.go:255-265 | Creates the account empty when it is missing and changes nothing otherwise. |
| Stores.PostgresStore.LockAndBumpAccountVersion | internal/storage/postgres.go:351-383 | Fails without effect on a version mismatch, and otherwise moves the row's version on by one. |
| Stores.PostgresStore.PersistAccount | internal/storage/postgres.go:66-98 | One compare-and-swap: on success the row holds the given balances over the stored ones at the next version, on conflict nothing changes. |
| Stores.PostgresStore.PersistTrades | internal/storage/postgres.go:141-177 | Appends the trades to the tape. |
| Stores.PostgresStore.UpsertTakesProgress | internal/storage/postgres.go:107-118 | A stored order keeps its identity and takes over remainder, reservation, arrival number and status; a new one is stored as it is; no other row changes. |
| Stores.PostgresStore.LoadAccountRows | internal/storage/postgres.go:231-271 | Lists every account that has a balance row, once, and no other. |
| Stores.PostgresStore.LoadOpenOrders | internal/storage/postgres.go:273-298 | Lists every unfinished order, once, and no other. |
| Stores.PostgresStore.LoadTrades | internal/storage/postgres.go:300-322 | Returns the first 1000 trades of the tape, or all when there are fewer. |
| Stores.MarketData.Load | internal/marketdata/service.go:20-27 | Files trades by symbol, in their order. |
| Stores.MarketData.Record | internal/marketdata/service.go:29-37 | Appends a submission's trades to its symbol; an empty submission leaves no entry. |
| Exchanges.Exchange.UpdateOrderStatus | internal/platform/exchange.go:368-378 | The status becomes filled, partially filled or open as the remainder says, and nothing else of the record changes. |
| Exchanges.Exchange.ApplyTrade | internal/platform/exchange.go:333-366 | Wallet, maker record and taker record are the specified settlement of one fill; a failed one leaves both records alone. |
| Exchanges.Exchange.SettleFills | internal/platform/exchange.go:177-189 | The fill loop leaves wallet and records as settling all fills specifies, collects exactly the accepted order and its makers, and retakes every snapshot a fill outdates; when a fill fails, those before it are settled and noted and the later makers' records untouched. |
| Exchanges.Exchange.SyncAccount | internal/platform/exchange.go:401-408 | Persists one account and on success writes its new version to wallet and cache; on conflict changes nothing. |
| Exchanges.Exchange.PersistChangedAccounts | internal/platform/exchange.go:380-387 | Whatever order the map yields them in, exactly the accounts written before the first version conflict are one version on in store, wallet and cache, and the error is the conflict of one that was not written; without a conflict all are. |
| Exchanges.Exchange.PersistChangedOrders | internal/platform/exchange.go:389-399 | Whatever order the map yields them in, the order table ends up with exactly the changed records replaced or added. |
| Exchanges.Exchange.ExecuteOn | internal/platform/exchange.go:174-196 | Submitting, settling and releasing leave the shared book, records, wallet, trades and changed maps as the machine's execution specifies, also when a settlement fails; no foreign record joins the book. |
| Exchanges.Exchange.ExecuteIn | internal/platform/exchange.go:174-196 | The same, with every other book's records and order untouched. |
| Exchanges.Exchange.Deposit | internal/platform/exchange.go:102-125 | Does to the objects what the machine's deposit does to the state, and keeps the invariant. |
| Exchanges.Exchange.PlaceOrder | internal/platform/exchange.go:140-271 | Does to the objects what the machine's order does to the state, answers and stores the order that was asked for, never gets stuck, leaves everything as it was on rejection, and keeps the invariant. |
| Exchanges.Exchange.GetAccount | internal/platform/exchange.go:273-287 | The cache-first read; the answer is the wallet's. |
| Exchanges.Exchange.OrderBookOf | internal/platform/exchange.go:289-305 | The cache-first read; the answer is the book's. |
| Exchanges.Exchange.TradesOf | internal/platform/exchange.go:307-323 | The cache-first read; the answer is the market data's. |
| Exchanges.Exchange.RebuildRecoveredState | internal/platform/exchange.go:427-449 | Over any loaded tables, rebuilding, syncing the reconciled accounts and warming the caches reach the machine's restart; on a version conflict the accounts written by then, and nothing else, are written back. |
| Exchanges.Exchange.NewExchange | internal/platform/exchange.go:31-86 | Over any tables a new process starts exactly when the machine's restart does and then is in its state; over what a good exchange left it always starts and satisfies the invariant. |
| StartUp.StartFailsIff | internal/storage/postgres.go:231-271 | A start fails exactly when an open order of a known market belongs to an account that has a version but no balance row, which the reload misses. |
| StartUp.StartCanFail | internal/platform/exchange.go:427-437 | Tables over which no process starts. |
| StartUp.StartReconciles | internal/platform/exchange.go:427-437 | Over any tables without negative balances, a start that succeeds leaves wallet and store with the same balances and every stored total as it was; a lock that open orders draw on is the sum of what they now hold, and other balances are as stored. |
| StartUp.RewrittenBooks | internal/platform/exchange.go:73-82 | Rewriting the reservations on records that already stand on the books gives the books that restoring the rewritten orders would give. |
| Steps.WrittenIff | internal/platform/exchange.go:380-387 | A write-back of several accounts succeeds exactly when none conflicts, in whatever order they are taken. |

## Left out

- HTTP, JSON, configuration, start-up retries, audit listing, Redis and Kafka clients, SQL text and the outbox: plumbing. Store and cache are maps, publishing is a no-op, and calls into them succeed except for version conflicts.
- Floating-point rounding: prices, quantities and balances are exact reals. The clamps that absorb drift are modelled and proved idle in reachable states. NaN and infinities do not occur.
- Integer width: sequence numbers and versions are unbounded integers instead of `int64`.
- Timestamps and id generation: an order's id is a parameter, assumed fresh; trade and event ids and all time fields are omitted. The tape keeps trades in the order they were persisted, where the source orders a reload by execution time and id.
- The third value a `Side` string could take: `ParseSide` only returns two, so the `default` branches of the wallet and of validation have no counterpart.
- Map iteration order and `ORDER BY`: loops over maps and the loads from the store visit entries in an arbitrary order, and results are proved for every order.
- Mutexes, and any concurrency between `PlaceOrder` and another call: operations are atomic steps, except in the deposit protocol.
- Crashes and store failures inside `PlaceOrder`: restarts happen between operations.
- Account records are held by value: the wallet clones every account that crosses its boundary, so no alias of one exists outside it.
- `sort.SliceStable` is modelled as a stable insertion sort; which algorithm the library uses is not part of this model.
- `wallet.Service.Deposit` and the in-memory audit list: not used by the operations modelled.
- `PlaceOrder`'s answer does not say what state an underflow or a version conflict would leave behind: such an outcome is proved unreachable. What each step of it leaves behind when it fails is stated by `ExecuteOn` and `PersistChangedAccounts`.
- Stores.PostgresStore.PersistTrades: trades carry no id here, so that storing one twice is ignored is not stated; the model never stores one twice.
- Stores.PostgresStore.LoadAccountRows: the ascending order by id is not stated; what is proved of a start holds for every order of the rows. It demands that rows are filed under their own ids, which the primary key gives the source.
- Stores.PostgresStore.LoadOpenOrders: the order by symbol and sequence is not stated; what is proved of a start holds for every order of the rows. It demands that rows are filed under their own ids, which the primary key gives the source.
- Stores.PostgresStore.LoadTrades: rows come in the order they were persisted, where the source orders them by execution time and id.
- Exchanges.Exchange.NewExchange: demands that account and order rows are filed under their own ids, which the primary keys give the source.
