# The matching engine of a stock exchange, and what runs beside it

This project models the core of a simulated stock exchange and proves what that core promises:

- **Settlement**: one database transaction between a taker and a maker, with cash, shares, average cost, fills and
  trades (`Settlement`, `Ledger`, `AverageCost`).
- **The order book in Redis**: sorted sets of text members, a hash per order, a sequence counter, and the commands that
  keep them (`BookEncoding`, `OrderBook`, `BookScan`).
- **The matching loop** as a class whose methods send one command after another (`MatchingEngineModel`), proved against a
  specification that is a single left-to-right pass over a price-time queue (`Matching`, `MatchingSteps`, `PriceTime`).
- **Everything at once** (`Exchange` and the modules named after it): a transition system in which any number of matching
  runs, user cancels, market closes, expiries, new orders, crashes, repeated jobs and expiring locks interleave at the
  grain of one database statement or Redis command. Orders that a run carries are snapshots and may be stale.
- **The neighbours**: market calendar (`MarketClock`), order-expiry jobs (`OrderExpiry`), the lock with its time to live
  (`StockLock`), refresh-token rotation (`RefreshTokens`) and one-time codes (`Otp`).

Money is in integer cents. Ids are wrapped text; a row id of a refresh token is its place in the order of insertion.
Random values (lock tokens, token hashes, codes) and the clock are parameters. The CHECK constraints that PostgreSQL
enforces on every row are types (`Cents`, `Quantity`, `nat` holdings); `users.balance` has no such constraint in the
schema, so it is an `int` and its sign is proved. Each database transaction, each Redis command and each
MULTI block is one atomic step.

## Where the code and its description part ways

- `bestOppositeOrder` says it scans the first 100 price levels. It reads the first 100 *members*, that is, orders, and
  does not refill the window when it skips some. `BookScan.WindowIsSound` is the exact condition under which the window
  still answers for the whole book, and `BookScan.FewSkippedIsSound` the condition the loop's theorems use: fewer than
  100 own or closed entries on the side. `ExchangeHiddenMatch.FullWindowCrossesTheBook` is a complete run in which a
  user's own 100 asks hide the one it could buy from, and its bid comes to rest crossing it.
- The book is guaranteed to be uncrossed at rest only if no lock expires under a live run and no truncated window is
  skipped through to its end. `ExchangeUncrossed.NeverCrossedAtRest` is the theorem for every run of that kind,
  `ExchangeUncrossed.FewSkippedIsUndisturbed` derives the second half from what a run finds when it looks.
  `ExchangeLostLock.LostLockCrossesTheBook` and `ExchangeHiddenMatch.FullWindowCrossesTheBook` are complete traces, one
  for each half, that end with a crossed book.
- Closed entries are meant to be dropped lazily. `BookScan.RemovalNeedsTheHash` says exactly when a removal works, and
  `BookScan.RacedCancelLeavesAnEntry` is a race after which no later clean-up of that order removes its entry. Such
  entries are harmless (they are skipped) but they use up the window.
- Below 10^20 the 20-digit padding keeps text order and sequence order the same
  (`BookEncoding.MemberOrderIsSequenceOrder`). Reading a member back does not depend on that bound.
- The comment above `verifyOtp` says attempts are not limited; the code limits them to five. A further comment says five
  wrong guesses lock the user out until the window ends; asking for a new code ends the lock-out at once, as in the model.
- A comment in `scheduler.js` names expiry jobs `order-expiry:<id>`, the code `order-expiry-<id>`; only that the id is
  one per order matters here.

## How the results fit together

From any valid state, `MatchingEngineModel.MatchingEngine.MatchOrder` is proved to keep the book a valid index of the
resting orders, each in its place, in every state it persists. If the window and the sequence have room (`Roomy`), it is
proved to leave exactly `Matching.Completes`: the database is `FinalDb` (the pass over the queue, then the cancel of a
market order's remainder) and the open entries of every book are `FinalView`. What that pass means is stated
independently of it: the queue holds precisely the eligible orders in price-time order
(`PriceTime.QueueIsPriceTimeOrder`), nobody is overtaken (`PriceTime.PriorityIsHonoured`), and nothing that crosses is
left (`PriceTime.RunLeavesNothingCrossed`). The method also records, in the field `trail`, every state it persisted; with
room, each is proved to be one from which a new run has the same outcome. `MatchWithCrashes` puts that to use: it runs,
cuts the run off after any number of its writes, starts a new engine on what is left, and so on as often as there are
sequence numbers, and ends where one undisturbed run would have. It needs room for one skipped entry more than a run that does not die: if a
user's own 99 entries are ahead and a run dies right after its first COMMIT, the maker it closed is the hundredth entry,
and the next run sees nothing behind it. A second crash costs no more, because the next scan that finds an order has
cleared that entry away (`BookScan.FindingClears`). `BookHistories` follows the book over whole histories, command by
command and request by request, and asks nothing of the window.

The transition system and the class are tied to the same specification: `ExchangeAlone.LeftAloneItCompletes` proves that
a thread of `Exchange` that is left alone does, command by command, what `MatchOrder` is proved to do. What each single
statement does to each column is said in plain terms, without the helpers that decide it, in `SettlementEffects` and
`ExchangeEffects`.

The class runs alone. `Exchange` gives up that assumption; there the theorems are invariants over all interleavings. The
ledger properties, book completeness, monotonicity and progress need no condition at all; price priority
(`ExchangePriority.NobodyIsOvertaken`) needs the locks, and the uncrossed book the locks and the window.

## Model

| member | source | states |
|---|---|---|
| Settlement.RoundedQuotient | api/sql/002_trading.sql:49 | a quotient kept to the cent is the nearest one, a half going up: the error is within half the divisor |
| Ledger.TradeConservesCash | api/src/matching/matching-engine.js:221-223 | a trade moves cash from buyer to seller and creates or destroys none |
| Ledger.TradeConservesShares | api/src/matching/matching-engine.js:224-236 | a trade leaves the number of shares of every symbol as it was, whether or not the seller is sold out |
| Ledger.TradeKeepsOrders | api/src/matching/matching-engine.js:237-240 | both rows stay within their quantity and their status agrees with their fill; all other rows are untouched |
| Ledger.TradeKeepsMoney | api/src/matching/matching-engine.js:210-214 | nobody is overdrawn by a trade, though the schema does not forbid it, and empty holdings have average 0 |
| Ledger.TradeKeepsFills | api/src/matching/matching-engine.js:237-242 | after a trade every order's filled quantity is still the sum of the trades that name it |
| Ledger.TradeKeepsTrades | api/src/matching/matching-engine.js:197-203 | the new trade joins a buy and a sell of one symbol and two users, within both limits and at the limit of one of them |
| Ledger.SettleIsSafe | api/src/matching/matching-engine.js:173-323 | any settlement that commits, for any two ids and however stale the caller, keeps the whole ledger, moves rows only forward and conserves cash and shares |
| Ledger.TradesAtMakerPrice | api/src/matching/matching-engine.js:199-203 | a settlement records one trade at the resting order's price for the reported quantity and fills both orders by it, or moves no cash and no shares |
| Ledger.TradePaysAndDelivers | api/src/matching/matching-engine.js:221-236 | the buyer of the recorded trade pays price times quantity to its seller and gets that many shares from it; no other balance or holding moves |
| Ledger.WhoIsCancelled | api/src/matching/matching-engine.js:215-220 | when nothing can trade the seller is cancelled if and only if it has no shares, otherwise the buyer, who cannot pay for one share; the other order stays as it was |
| Ledger.OpenPairTrades | api/src/matching/matching-engine.js:211-214 | two open crossing orders of different users trade the executable quantity whenever there is one |
| Ledger.AttemptClosesOne | api/src/matching/matching-engine.js:212-240 | settling two orders that crossed when read commits and leaves at most one open, in whatever state the rows are by then |
| Ledger.HowATradeEnds | api/src/matching/matching-engine.js:69-76 | exactly when a trade leaves either side filled or cancelled, from what both want, the seller has and the buyer can pay |
| Ledger.FillDecidesStatus | api/src/matching/matching-engine.js:324-331 | filling an open order by no more than it wants keeps its row consistent and its terms; it stays open exactly if something is left and the remainder is not given up |
| Ledger.CancelIsSafe | api/src/matching/matching-engine.js:332-337 | a cancel keeps the ledger, conserves everything and leaves the order closed |
| Ledger.CloseMarketIsSafe | api/src/queues/scheduler.worker.js:81-87 | market close keeps the ledger, conserves everything and leaves no limit order open |
| Ledger.SubmitIsSafe | api/src/controllers/orders.controller.js:118-121 | a new row keeps the ledger, and every row, balance, holding and trade that was there is as it was; what is stored is the subject of `SettlementEffects.SubmitStoresTheRow` |
| Ledger.RegisterIsSafe | api/sql/001_init.sql:9 | a new account adds exactly the opening balance to the exchange's cash and no shares |
| SettlementEffects.OpenMeansUnfinished | api/src/matching/matching-engine.js:38-40 | of a sound row: open exactly if neither filled nor cancelled, and which of the two open statuses it has |
| SettlementEffects.CanMatchExactly | api/src/matching/matching-engine.js:162-172 | a taker matches an order of its symbol and the other side, at any price if it is a market order and otherwise exactly if the bid is no lower than the ask |
| SettlementEffects.MeetingOrdersTradeTheMost | api/src/matching/matching-engine.js:185-214 | two open orders of different users that meet, the taker a market order or reaching the maker's price, trade the most that both orders, the seller's shares and the buyer's cash allow: that many fit and one more would not |
| SettlementEffects.MeetingOrdersThatCannotTrade | api/src/matching/matching-engine.js:215-220 | if not even one share can change hands, a seller without shares is cancelled, otherwise the buyer, and nothing else changes |
| SettlementEffects.ApartIsLeftAlone | api/src/matching/matching-engine.js:179-196 | if one of the two is closed or missing, they are the same or of one user, or their symbols, sides or prices do not meet, settling changes nothing and reports the stored rows |
| SettlementEffects.RollsBackExactly | api/src/matching/matching-engine.js:201-209 | a settlement rolls back if and only if the pair is none of these and the maker has no price |
| SettlementEffects.ReportedIsStored | api/src/matching/matching-engine.js:187-219 | what a settlement reports to the loop are the rows of these two orders as they are stored now, the taker's always and the maker's unless both are of one user |
| SettlementEffects.TradeMovesAverages | api/src/matching/matching-engine.js:224-236 | a trade moves the buyer's average to the nearest cent of all paid for all held, and leaves the seller's until it has sold out, when it is 0 |
| SettlementEffects.CancelChangesOneStatus | api/src/matching/matching-engine.js:332-337 | an order of open status is cancelled and nothing else of it or of any row changes; otherwise nothing does |
| SettlementEffects.CloseChangesOnlyStatuses | api/src/queues/scheduler.worker.js:81-87 | exactly the limit orders of open status are cancelled, keeping fill and terms |
| SettlementEffects.SubmitStoresTheRow | api/src/controllers/orders.controller.js:118-121 | a row with a new id, a known user, a price exactly if it is a limit order, no fill and status open is stored as submitted, any other is refused |
| SettlementEffects.RegisterOpensOneAccount | api/sql/001_init.sql:9 | a new account opens with 100000.00, a known one is left alone |
| BookEncoding.MemberRoundTrip | api/src/controllers/realtime.controller.js:13-18 | every member the engine writes is read back to its order id, and its digits spell its sequence; what they spell is what the snapshot's `Number` yields below 2^53 |
| BookEncoding.OrderIdFollowsTheColon | api/src/matching/matching-engine.js:143-146 | of any text, an order id is read exactly if there is a colon, and is all that follows the first one |
| BookEncoding.MemberTextIsInjective | api/src/matching/matching-engine.js:346-347 | two members are equal only for the same sequence and the same order |
| BookEncoding.MemberOrderIsSequenceOrder | api/src/matching/matching-engine.js:363-365 | below 10^20 the text order of members is the order of their sequences, in both directions |
| OrderBook.InsertKeepsSorted | api/src/matching/matching-engine.js:365 | adding an entry keeps a sorted set sorted by score and then member |
| OrderBook.PlaceContents | api/src/matching/matching-engine.js:365 | ZADD leaves exactly the new entry and every entry with another member |
| OrderBook.WithoutContents | api/src/matching/matching-engine.js:373 | ZREM removes exactly the entries with that member |
| OrderBook.SortedUnique | api/src/matching/matching-engine.js:141 | a sorted set is determined by what it contains |
| OrderBook.PlaceAgain | api/src/matching/matching-engine.js:344-365 | adding an entry again changes nothing |
| Matching.BookIsDistinct | api/src/matching/matching-engine.js:344-347 | no order has two entries in one book |
| Matching.EligibleMembers | api/src/matching/matching-engine.js:142-159 | an order is seen in a book exactly if an entry names it and it is open and of another user |
| MatchingSteps.PassIsSafe | api/src/matching/matching-engine.js:97-111 | a whole pass keeps the ledger and moves rows only forward |
| MatchingSteps.FinalDbIsSafe | api/src/matching/matching-engine.js:86-125 | so does a whole run |
| MatchingSteps.QueueHead | api/src/matching/matching-engine.js:136-161 | the head of a queue is an open limit order of another user on the other side of the symbol |
| MatchingSteps.SettleShortensQueue | api/src/matching/matching-engine.js:97-111 | after settling with the head one of the two is closed, and the queue is what it was, without the head if that is the one |
| MatchingSteps.SettleStep | api/src/matching/matching-engine.js:103-106 | a committed settlement is one step of the pass: a run from before it and one from after it leave the same behind |
| MatchingSteps.CancelMarketStep | api/src/matching/matching-engine.js:114-118 | so is the cancel of a market order that found no more liquidity |
| MatchingSteps.IncrementStep | api/src/matching/matching-engine.js:346 | a sequence number taken and lost to a crash changes no outcome and keeps the book valid |
| MatchingSteps.DropKeepsValid | api/src/matching/matching-engine.js:368-376 | a removal keeps hashes and members in bijection, scores equal to prices and sequences unique |
| MatchingSteps.DropStep | api/src/matching/matching-engine.js:152-155 | removing the entry of an order that cannot rest, on a snapshot of it, is invisible to every run |
| MatchingSteps.SyncKeepsMember | api/src/matching/matching-engine.js:344-345 | an order that rests keeps its member: syncing it from any open snapshot changes nothing, so time priority survives partial fills |
| MatchingSteps.FreshMemberIsLast | api/src/matching/matching-engine.js:346-347 | a newly numbered member sorts behind every member there |
| MatchingSteps.PutKeepsValid | api/src/matching/matching-engine.js:343-366 | a new entry keeps hashes and members in bijection, scores equal to prices and sequences unique |
| MatchingSteps.PutEligible | api/src/matching/matching-engine.js:343-366 | to a reader of the book a new entry joins the queue behind every order whose price is as good |
| MatchingSteps.PutStep | api/src/matching/matching-engine.js:104-105 | resting the taker early, before the rest of its run, changes no outcome |
| MatchingSteps.SyncStep | api/src/matching/matching-engine.js:338-367 | one sync keeps the book valid, the taker's queue and the outcome, and never adds to the other side's book |
| MatchingSteps.SettleKeeps | api/src/matching/matching-engine.js:173-323 | settling any two ids leaves the book a valid index, rows moved only forward and resting orders in their place |
| MatchingSteps.SyncKeeps | api/src/matching/matching-engine.js:338-367 | so does a sync on the row as it is, of any order, with no condition on window or sequence |
| MatchingSteps.SettleKeepsBehind | api/src/matching/matching-engine.js:97-111 | settling with the head of the queue leaves no more entries to skip behind the first eligible one |
| PriceTime.QueueIsPriceTimeOrder | api/src/matching/matching-engine.js:363-365 | the queue of a taker is exactly the open resting orders of others on the other side, sorted by best price for the taker and then earliest sequence |
| PriceTime.PassSweeps | api/src/matching/matching-engine.js:97-111 | a pass works on a prefix of the queue, closes all of it but the last, and leaves nobody crossing an open taker |
| PriceTime.PriorityIsHonoured | api/src/matching/matching-engine.js:97-111 | a run touches an order only if every order ahead of it in the queue ends closed |
| PriceTime.RunLeavesNothingCrossed | api/src/matching/matching-engine.js:97-121 | if the order is still open after its run, it crosses no open resting order of another user |
| PriceTime.RunGoesAsFarAsItCan | api/src/matching/matching-engine.js:97-121 | what a run comes to: the order is filled, or cancelled because its owner has no share left to sell or not the price of one more share, or every order of its queue is closed or out of its reach, and then a market order gives up and a limit order rests |
| BookScan.ScanFindsBest | api/src/matching/matching-engine.js:136-161 | the scan, cleaning up as it goes, returns the best eligible order among the entries it read |
| BookScan.ScanNeverAdds | api/src/matching/matching-engine.js:142-159 | whatever a scan cleans up, it adds no entry to any book |
| BookScan.StrangersAreRemoved | api/src/matching/matching-engine.js:148-151 | an entry whose order has no row is gone after a scan that came across it |
| BookScan.WindowIsSound | api/src/matching/matching-engine.js:138-141 | the first hundred members answer for the whole book if and only if they hold an eligible order or the book holds none |
| BookScan.FewSkippedIsSound | api/src/matching/matching-engine.js:138-159 | fewer than a hundred own or closed entries on the side make the answer that of the whole book |
| BookScan.FindingClears | api/src/matching/matching-engine.js:142-159 | a scan of a valid book that finds an order has cleared away every closed entry ahead of it |
| ExchangeHiddenMatch.HundredOwnOrdersHideTheBook | api/src/matching/matching-engine.js:138-160 | a valid state, reached by submitting 101 asks, whose best ask for the taker the scan does not find |
| ExchangeHiddenMatch.FullWindowCrossesTheBook | api/src/matching/matching-engine.js:97-121 | from an empty exchange, by submissions and matching runs one after another alone, to a completed bid at 101 and a completed ask at 101 of another user, both open: and settling them would trade: why the condition on the window is needed |
| BookScan.RemovalNeedsTheHash | api/src/matching/matching-engine.js:368-376 | a removal takes an entry out if and only if the order's hash still names it |
| BookScan.RacedCancelLeavesAnEntry | api/src/controllers/orders.controller.js:99 | a cancel that races a stale sync leaves an entry that no later clean-up of that order removes |
| MatchingEngineModel.MatchingEngine.RemoveBookEntry | api/src/matching/matching-engine.js:368-376 | its effect on Redis, persisted in one transaction |
| MatchingEngineModel.MatchingEngine.SyncOrderBook | api/src/matching/matching-engine.js:338-367 | its effect on Redis, and the two states it persists when it has to take a number first |
| MatchingEngineModel.MatchingEngine.BestOppositeOrder | api/src/matching/matching-engine.js:136-161 | returns what the scan specification says; on a valid book each clean-up leaves every outcome, queue and resting order in place |
| MatchingEngineModel.MatchingEngine.Settle | api/src/matching/matching-engine.js:173-323 | the statements in their order amount to the settlement specification, committed at once or rolled back |
| MatchingEngineModel.MatchingEngine.MoveMoneyAndShares | api/src/matching/matching-engine.js:221-236 | the four updates of balances and holdings amount to one payment and one delivery |
| MatchingEngineModel.MatchingEngine.Upsert | api/src/matching/matching-engine.js:224-230 | a first buy inserts, a later one averages |
| MatchingEngineModel.MatchingEngine.CancelOrder | api/src/matching/matching-engine.js:332-337 | closes an open order and returns it, and otherwise returns none and changes nothing |
| MatchingEngineModel.MatchingEngine.AcquireStockLock | api/src/matching/matching-engine.js:377-387 | takes the lock exactly if it is free, under a token no lock has had |
| MatchingEngineModel.MatchingEngine.ReleaseStockLock | api/src/matching/matching-engine.js:26-31 | afterwards the token holds nothing here; every lock of another symbol or another holder stays and none appears |
| MatchingEngineModel.MatchingEngine.MatchOrder | api/src/matching/matching-engine.js:86-125 | from any valid state, however full the window: the trail records every write, one store at a time, and everything on it keeps the book a valid index with resting orders in their place, a busy run changes nothing, a completed one frees its lock. With room in window and sequence: a completed run leaves exactly the specified database and open book entries, every state persisted on the way has the same outcome, and the loop settles at most once for each open eligible order of the other side and goes round at most once more |
| MatchingEngineModel.MatchingEngine.SyncReported | api/src/matching/matching-engine.js:104-105 | syncing the orders of a settlement keeps the book valid and, with room, leaves the outcome and the queue of the run in place |
| MatchingEngineModel.MatchingEngine.FinishOpen | api/src/matching/matching-engine.js:114-120 | the end of a run that is still open keeps the book valid and, with room, completes the run |
| MatchingEngineModel.MatchingEngine.MatchLocked | api/src/matching/matching-engine.js:93-121 | the same as `MatchOrder` under the lock: the loop terminates from any valid state, after at most one attempt for each open order |
| MatchingEngineModel.DroppingClosedTidies | api/src/matching/matching-engine.js:152-155 | the clean-up of a closed entry changes nothing a run can see and drops no order that rests |
| MatchingEngineModel.ScanAnswers | api/src/matching/matching-engine.js:98-102 | with room in the window the scan returns the head of the queue, and stopping there is right |
| MatchingEngineModel.MarketFinish | api/src/matching/matching-engine.js:114-118 | cancelling and syncing a stopped market order completes its run |
| MatchingEngineModel.LimitFinish | api/src/matching/matching-engine.js:120 | the last sync of a stopped limit order completes its run |
| MatchingEngineModel.RetryIsInvisible | api/src/queues/order-matching.queue.js:16-30 | a state that a run persisted has room for a new run with one crash less to come, and completing from there is completing from the start |
| MatchingEngineModel.MatchWithCrashes | api/src/queues/order-matching.queue.js:16-30 | run after run on what the last one left, each cut off after any number of its writes, and then one left alone: it leaves exactly what a single undisturbed run would have, and orders that rest throughout keep their member; one entry of room serves any number of crashes |
| MatchingEngineModel.RerunChangesNothing | api/src/queues/order-matching.queue.js:26-30 | running a completed order again has nothing left to change |
| BookHistories.EmptyExchangeIsValid | api/src/matching/matching-engine.js:338-376 | the empty exchange satisfies everything a run asks for |
| BookHistories.CancelAndSyncKeeps | api/src/controllers/orders.controller.js:89-99 | a cancel with its book sync keeps the book valid and every other resting order in its place |
| BookHistories.CancelTakesItOut | api/src/controllers/orders.controller.js:89-99 | the owner of an order still open gets it cancelled and out of book and hashes, with every other row, entry and hash in place; for anybody else, and any other order, nothing changes |
| BookHistories.ClosingCommands | api/src/queues/scheduler.worker.js:81-137 | what a close, an expiry and a cancel do to every row |
| BookHistories.OpeningCommands | api/src/controllers/orders.controller.js:118-124 | accounts and orders are stored as given, a number taken is the next, and settling a pair that must not trade changes nothing |
| BookHistories.PairCommandTrades | api/src/matching/matching-engine.js:173-243 | settling a pair that meets adds one trade of the most that fits, at the maker's price, and leaves the book alone |
| BookHistories.SyncCommandPlacesTheRow | api/src/matching/matching-engine.js:338-376 | after its sync a row has an entry in the book of its side exactly if it is an open limit order, and no other hash has changed |
| BookHistories.CommandKeeps | api/src/matching/matching-engine.js:173-376 | each command alone, of a run, a user or a job: settle any two ids, take a number, sync a row, cancel, close, expire, insert |
| BookHistories.EveryHistoryKeepsTheIndex | api/src/matching/matching-engine.js:338-376 | over every sequence of such commands from a valid state, whatever the window holds: hashes and members stay in bijection with scores equal to prices and sequences apart, and an order that rests from one moment to a later one has the same member at both |
| BookHistories.Serve | api/src/matching/matching-engine.js:86-125 | the same over every history of requests in which the engine itself runs, whole or cut off after any number of writes; whole runs with room also leave what they should |
| ExchangeSafety.AdvancingKeepsOk | api/src/matching/matching-engine.js:103-111 | a step of one run leaves everything the others rely on, stale snapshots included |
| ExchangeSafety.CallAdvances | api/src/matching/matching-engine.js:338-376 | each Redis command of a sync or removal on a stale snapshot keeps the invariant |
| ExchangeSafety.ScanAdvances | api/src/matching/matching-engine.js:142-159 | each step of a scan over members read earlier keeps the invariant |
| ExchangeSafety.SettlementAdvances | api/src/matching/matching-engine.js:103-105 | a settlement of stale orders commits and keeps the invariant |
| ExchangeSafety.FinishAdvances | api/src/matching/matching-engine.js:112-121 | so does the end of a run |
| ExchangeTheorems.ActionAdvances | api/src/controllers/orders.controller.js:87-126 | so does everything else: new users and orders, user cancels, closes, expiries, lost locks and crashes |
| ExchangeEffects.OnlyTheOwnerCancels | api/src/controllers/orders.controller.js:89-99 | the owner of an order still open finds it cancelled, nothing else of the database changed and the sync of the closed row begun; anybody else, and any other order, changes nothing at all |
| ExchangeEffects.CloseCancelsEveryLimitOrder | api/src/queues/scheduler.worker.js:81-87 | every limit order still open is cancelled, no other row, entry or run is touched |
| ExchangeEffects.ExpiryCancelsItsOrder | api/src/queues/scheduler.worker.js:129-137 | its own order is cancelled if it is a limit order still open, and nothing else happens |
| ExchangeEffects.WaitsForItsLock | api/src/matching/matching-engine.js:380-385 | a run waits while its lock is held and takes it when it is free |
| ExchangeEffects.OthersLocksStay | api/src/matching/matching-engine.js:388-390 | no action takes a lock away except a step of its own holder and its expiry |
| ExchangeEffects.ComingsAndGoings | api/src/controllers/orders.controller.js:118-124 | what new accounts and orders, new runs, expired locks and crashes do, and that they do no more |
| ExchangeAlone.ScanRuns | api/src/matching/matching-engine.js:142-160 | the commands of a scan in the transition system, with the syncs of closed orders in between, amount to the scan |
| ExchangeAlone.SettleRuns | api/src/matching/matching-engine.js:103-106 | so do those of a settlement with its two syncs and the next reading of the order |
| ExchangeAlone.LeftAloneItCompletes | api/src/matching/matching-engine.js:86-125 | a run of the transition system that is left alone, on a valid book with room and a free lock, ends and has done exactly what the specification of a whole run says, with everything else as it was |
| ExchangeTheorems.RunConserves | api/src/matching/matching-engine.js:221-236 | over every run cash grows by the opening balances alone and shares do not change |
| ExchangeTheorems.EveryRunIsSafe | api/src/matching/matching-engine.js:173-243 | in every reachable state, even with lost locks: conservation, no negative balance, orders and fills consistent with the trades, every trade proper |
| ExchangeTheorems.EveryRunKeepsBookComplete | api/src/matching/matching-engine.js:338-376 | in every reachable state, each open order with a completed run is a limit order with an entry at its price on its side |
| ExchangeTheorems.EveryRunIsMonotone | api/src/matching/matching-engine.js:324-337 | along every run terms never change, fills only grow and closed orders are final |
| ExchangeUncrossed.RangeAwaits | api/src/matching/matching-engine.js:141 | a resting order that crosses is in the members read or behind all of them |
| ExchangeUncrossed.OneHolderPerSymbol | api/src/matching/matching-engine.js:90-92 | two runs past the lock work on different symbols |
| ExchangeUncrossed.ActionKeepsWatched | api/src/matching/matching-engine.js:97-121 | every action that neither loses a lock nor exhausts a truncated window keeps completed orders uncrossed and no run misses one |
| ExchangeUncrossed.NeverCrossedAtRest | api/src/matching/matching-engine.js:97-121 | after every such run, an open bid and an open ask of different users whose runs completed leave a gap between their prices |
| ExchangePriority.ScanChoosesBest | api/src/matching/matching-engine.js:142-159 | a scan over members read earlier passes over no completed order that is better than the one it chooses |
| ExchangePriority.NobodyIsOvertaken | api/src/matching/matching-engine.js:97-103 | along every run in which no live run loses its lock: whenever a run is about to settle with a maker, no open order of another user on that side whose own run has completed has a better price; nothing is asked of the window |
| ExchangeUncrossed.RangeIsHopeful | api/src/matching/matching-engine.js:138-141 | in a book deeper than the window, fewer than a hundred own or closed entries leave an eligible one among the members read |
| ExchangeUncrossed.FewSkippedIsUndisturbed | api/src/matching/matching-engine.js:136-161 | a condition on the surroundings that suffices for books of any depth: no live run loses its lock, each look at a book finds one that fits the window or fewer than a hundred entries to skip, and no order in a truncated window is closed before the scan reaches it |
| ExchangeLostLock.LostLockCrossesTheBook | api/src/matching/matching-engine.js:381 | a trace with one expired lock that ends with a crossed book whose two orders would trade |
| ExchangeProgress.SettleKeepsTried | api/src/matching/matching-engine.js:97-111 | a settlement attempt adds to the makers tried one that was not among them, and it is closed if the run goes on |
| ExchangeProgress.EveryRunTriesEachMakerOnce | api/src/matching/matching-engine.js:97-111 | under every interleaving a run tries no maker twice and only orders of others on the other side that were open at any given moment before its first attempt or came later; so it tries at most as many as there are of those, and goes round its loop at most once more |
| MarketClock.NextMarketCloseUTC | api/src/queues/scheduler.js:97-113 | terminates with the least close strictly after now, at most 72 hours ahead |
| MarketClock.CloseWeekday | api/src/queues/scheduler.js:78-84 | at 10:00 UTC the weekday in India is the UTC weekday |
| MarketClock.NextCloseIsMonotone | api/src/queues/scheduler.js:97-113 | a later call never yields an earlier close, and calls between two closes agree |
| MarketClock.WeekendWaitIsTight | api/src/queues/scheduler.js:97-113 | from Friday, 5 January 2024, 10:00 UTC, the next close is on the Monday, exactly 72 hours later |
| MarketClock.CronIsMarketClose | api/src/queues/scheduler.js:150-151 | the cron line fires exactly at market closes |
| MarketClock.NextCloseIsNextCronFiring | api/src/queues/scheduler.js:150-151 | the next close is the next firing of the cron line, in both directions |
| StockLock.SectionsDoNotOverlap | api/src/matching/matching-engine.js:377-387 | over every timed run two critical sections overlap only if one has lasted 30 s |
| StockLock.LateReleaseIsHarmless | api/src/matching/matching-engine.js:26-31 | a holder that finishes late leaves the next holder's lock in place |
| StockLock.TimelyReleaseFrees | api/src/matching/matching-engine.js:388-390 | a holder that finishes in time frees the lock for the next attempt |
| StockLock.SlowSectionIsOvertaken | api/src/matching/matching-engine.js:381 | a section of exactly 30 s can be overtaken, so the bound is tight |
| StockLock.StockLockClient.AcquireStockLock | api/src/matching/matching-engine.js:377-387 | polling every 100 ms while others do anything to the lock, it takes the lock at the first poll before the deadline that finds it free and gives up exactly if none does |
| StockLock.StockLockClient.ReleaseStockLock | api/src/matching/matching-engine.js:388-390 | ends the section, and leaves a lock that another token holds |
| AverageCost.RoundedQuotientBetween | api/src/matching/matching-engine.js:227-228 | rounding does not leave an interval of whole cents |
| AverageCost.AverageIsBetweenPrices | api/src/matching/matching-engine.js:224-236 | over every history of buys and sells, from no row or any row, the average lies between the lowest and highest price paid since the holding was last empty, and is 0 when it is empty |
| AverageCost.SettlementIsOneMove | api/src/matching/matching-engine.js:221-242 | a settlement is one buy of the recorded quantity and price for the buyer, one sell for the seller and nothing for any other holding |
| ExchangeAverages.EveryAverageIsBetweenPrices | api/src/matching/matching-engine.js:224-242 | in every reachable state of the exchange each holding is the history of the recorded trades that name its owner, and its average obeys those bounds |
| AverageCost.RoundingDriftIsBounded | api/src/matching/matching-engine.js:226-228 | after k buys the stored average is within (k - 1) / 2 cents of the exact one |
| RefreshTokens.StoreOpensOneSession | api/src/auth/tokens.js:50-56 | refused exactly if the hash is taken; otherwise its user has one live token more and nobody else does, it is found by its hash and usable for seven days, and every other token is found where it was |
| RefreshTokens.TokenTable.IssueSession | api/src/auth/tokens.js:57-63 | a login appends one row |
| RefreshTokens.TokenTable.RotateSession | api/src/auth/tokens.js:64-98 | its effect on the table, exactly when the caller gets a new session, and whose: that of the unrevoked and unexpired row whose hash was presented, which is also the user of the new row |
| RefreshTokens.EventKeepsLinked | api/src/auth/tokens.js:50-103 | every operation keeps links forward, within one user, unshared and only on revoked rows |
| RefreshTokens.EveryHistoryIsLinked | api/src/auth/tokens.js:50-103 | so the links are such in every reachable table |
| RefreshTokens.ChainsAreDisjoint | api/src/auth/tokens.js:83-84 | two rows that lead to a common row lie on one chain |
| RefreshTokens.ChainsDoNotBranch | api/src/auth/tokens.js:83-84 | of two rows reached from one, one leads to the other |
| RefreshTokens.OneLiveTokenPerChain | api/src/auth/tokens.js:64-98 | in every reachable table a chain has at most one unrevoked token |
| RefreshTokens.RotationKeepsSessions | api/src/auth/tokens.js:82-85 | a rotation kills the presented token, links it to one successor that lives seven days keeps every user's number of live tokens and touches no other row |
| RefreshTokens.ReuseEndsEverySession | api/src/auth/tokens.js:75-81 | presenting a revoked or expired token leaves its user with none, and other users as they were |
| RefreshTokens.StrangersChangeNothing | api/src/auth/tokens.js:71-81 | presenting a hash that no row has changes nothing, and neither does a rotation whose new hash is taken |
| RefreshTokens.LogoutEndsOneSession | api/src/auth/tokens.js:99-103 | logging out ends the presented session if it was live and no other, and the token is unusable at any time after |
| RefreshTokens.TokensAreSpentOnce | api/src/auth/tokens.js:50-103 | over every history a revoked token stays revoked with the successor it had, so none is exchanged twice |
| RefreshTokens.SessionsComeFromLogins | api/src/auth/tokens.js:50-103 | over every history a user has at most as many live tokens as logins |
| OrderExpiry.EventKeepsOk | api/src/queues/scheduler.js:181-250 | every single step of scheduling, removal, firing and the rest of the exchange keeps the protocol's invariant |
| OrderExpiry.OpenOrdersKeepTheirJob | api/src/queues/scheduler.js:227-250 | in every history an open order that was scheduled still has its job, due at the first close after scheduling |
| OrderExpiry.NoOrderOutlivesTheClose | api/src/queues/scheduler.worker.js:125-143 | if jobs fire on time, no scheduled order is open after that close |
| OrderExpiry.FiringLeavesClosedOrders | api/src/queues/scheduler.worker.js:126-143 | a job alters neither a closed order nor any order but its own |
| OrderExpiry.StepsAddUp | api/src/queues/scheduler.js:181-250 | the steps of a scheduling and of a removal add up to the whole call; a job that fires is gone and has closed its order if that was a limit order still open |
| OrderExpiry.ExpiryScheduler.ScheduleOrderExpiry | api/src/queues/scheduler.js:181-213 | a first call adds a job due at the next close and a row, a repeated one leaves the job |
| OrderExpiry.ExpiryScheduler.CancelOrderExpiryJob | api/src/queues/scheduler.js:227-250 | removes job and row if there is a row, and nothing otherwise |
| OrderExpiry.ExpiryScheduler.HandleOrderExpiry | api/src/queues/scheduler.worker.js:125-143 | closes exactly an open limit order of that id, and reports whether it did |
| OrderExpiry.ExpiryScheduler.HandleMarketClose | api/src/queues/scheduler.worker.js:76-88 | afterwards no limit order is open, market orders are untouched and nothing else moved |
| Otp.EveryHistoryIsCounted | api/src/controllers/auth.controller.js:141-153 | in every history the counter holds every failure against a live code and outlives it |
| Otp.GuessesAreBounded | api/src/controllers/auth.controller.js:231-274 | each code sees at most five failures and one success; after five it is refused, even the right one, and after a success it is never accepted again |
| Otp.AcceptedExactly | api/src/controllers/auth.controller.js:229-276 | a live code is accepted if and only if it has failed fewer than five times, is right and is for this action |
| Otp.SendReplacesTheCode | api/src/controllers/auth.controller.js:187-191 | whatever came before, for the next 600 seconds and no longer exactly the new code is accepted, for its own action or when none is claimed, and nobody is locked out |
| Otp.SuccessSpendsTheCode | api/src/controllers/auth.controller.js:271-276 | after a code was accepted nothing is, until another is sent, and the failures are forgotten |
| Otp.LockedOutAsksInVain | api/src/controllers/auth.controller.js:229-233 | who is locked out changes nothing by asking, and is let in again exactly when the counter expires |
| Otp.WrongGuessCounts | api/src/controllers/auth.controller.js:149-153 | in every history a refused guess is counted once for 600 seconds, leaves the code in place, and is still counted for as long as the code lives |
| Otp.OtpStore.VerifyOtp | api/src/controllers/auth.controller.js:220-281 | its answer and its effect on both keys |

## Left out

- Floating point, `toFixed` and the parsing of money: amounts are integer cents (products stay below 10^15, well under 2^53).
- The scale PostgreSQL uses inside a NUMERIC division: the quotient is rounded once, to the nearest cent.
- Integer widths: quantities and sequence numbers are unbounded; `INCR` overflow at 2^63 and JavaScript numbers above 2^53 are not modelled.
- BookEncoding.MemberRoundTrip: reads sequences as whole numbers of any size; the public snapshot's `Number` is exact only below 2^53.
- The hash's other fields (`remaining`, `status`, prices for display) and the contents of the public snapshot: they may be stale and nothing in matching reads them.
- Deletion of users and orders: the source never deletes an order.
- MatchingEngineModel.MatchingEngine.AcquireStockLock: one attempt instead of polling for five seconds, because an undisturbed lock does not change; the polling loop is `StockLock.StockLockClient.AcquireStockLock`.
- MatchingEngineModel.MatchingEngine.MatchOrder: runs undisturbed; that it leaves what the specification says is promised for fewer than 100 skipped entries and a sequence below 10^20; interference is the subject of `Exchange`.
- MatchingEngineModel.MatchingEngine.MatchLocked: the same; and the branch for a maker whose row has vanished, which `Exchange` keeps.
- MatchingEngineModel.MatchWithCrashes: asks for a sequence number a crash and for room for one skipped entry in all (`Load`); database and open book entries are compared, raw sequence numbers and hash metadata are not.
- BookHistories.EveryHistoryKeepsTheIndex: every sync acts on the row as it is; with stale snapshots the index can keep an entry too many, see `BookScan.RacedCancelLeavesAnEntry`.
- OrderExpiry.NoOrderOutlivesTheClose: speaks of orders whose scheduling completed; an order whose scheduling failed after the insert is closed by market close only.
- BullMQ's back-off, attempt limits and de-duplication: a job may run any number of times, at any time.
- Idempotency keys and the validation of requests in `submitOrder`: an insert happens or does not.
- Notifications, e-mails, pub/sub, the profit-and-loss loop and the market-open handler: effects after the commit that no modelled state depends on.
- JWTs, cookies, hashing, the join with `users`, legacy plain-text codes and constant-time comparison: tokens and codes are compared as text.
- OTP handlers of one user that run at the same time: they are taken one after another.
- Read endpoints, portfolio sums, bots, the frontend, configuration and migrations.
