/** Settlement of one taker against one maker: the database transaction of `settle`, as a function
    from the database before to the database after (or a rollback), and what it promises. */
module Settlement {
  import opened Orders
  import opened Totals

  /** What `settle` returns to the matching loop. */
  datatype Report = Report(executed: nat, orders: seq<Order>)

  datatype Failure = RestingMarketOrder | MissingUser

  datatype Transaction = Committed(db: Db, report: Report) | RolledBack(failure: Failure)

  // ----- Holdings and their average cost

  /** NUMERIC(15, 2) keeps the quotient to the nearest cent, a half going up. */
  function RoundedQuotient(n: nat, d: int): (r: nat)
    requires 0 < d
    ensures -d <= 2 * (n - r * d) < d
  {
    (2 * n + d) / (2 * d)
  }

  /** The upsert of the buyer's holding. */
  function Bought(holding: Option<Holding>, quantity: Quantity, price: Cents): Holding {
    match holding
    case None => Holding(quantity, price)
    case Some(h) =>
      Holding(h.quantity + quantity,
              RoundedQuotient(h.quantity * h.averageCents + quantity * price, h.quantity + quantity))
  }

  function Sold(holding: Holding, quantity: Quantity): Holding
    requires quantity <= holding.quantity
  {
    if holding.quantity == quantity then Holding(0, 0)
    else holding.(quantity := holding.quantity - quantity)
  }

  function HoldingOf(db: Db, user: UserId, symbol: Symbol): Option<Holding> {
    var key := HoldingKey(user, symbol);
    if key in db.holdings then Some(db.holdings[key]) else None
  }

  function SharesOf(db: Db, user: UserId, symbol: Symbol): nat {
    var holding := HoldingOf(db, user, symbol);
    if holding.None? then 0 else holding.value.quantity
  }

  // ----- The transaction

  function Requested(buy: Order, sell: Order): int {
    Min(Remaining(buy), Remaining(sell))
  }

  function Affordable(db: Db, buy: Order, price: Cents): int
    requires buy.userId in db.balances
  {
    db.balances[buy.userId] / price
  }

  /** The quantity that changes hands: what both orders still want, the seller owns and the buyer can pay. */
  function Executable(db: Db, buy: Order, sell: Order, price: Cents): int
    requires buy.userId in db.balances
  {
    Min(Min(Requested(buy, sell), SharesOf(db, sell.userId, sell.symbol)), Affordable(db, buy, price))
  }

  predicate CancelsBuy(db: Db, buy: Order, sell: Order, price: Cents)
    requires buy.userId in db.balances
  {
    var quantity := Executable(db, buy, sell, price);
    quantity < Requested(buy, sell) && Affordable(db, buy, price) <= quantity
  }

  predicate CancelsSell(db: Db, buy: Order, sell: Order, price: Cents)
    requires buy.userId in db.balances
  {
    var quantity := Executable(db, buy, sell, price);
    quantity < Requested(buy, sell) && SharesOf(db, sell.userId, sell.symbol) <= quantity
  }

  function PayAndDeliver(db: Db, buy: Order, sell: Order, price: Cents, quantity: Quantity): Db
    requires buy.userId in db.balances && sell.userId in db.balances
    requires quantity <= SharesOf(db, sell.userId, sell.symbol)
  {
    var total := quantity * price;
    var debited := db.balances[buy.userId := db.balances[buy.userId] - total];
    var credited := debited[sell.userId := debited[sell.userId] + total];
    var bought := db.holdings[HoldingKey(buy.userId, buy.symbol) :=
                    Bought(HoldingOf(db, buy.userId, buy.symbol), quantity, price)];
    var seller := HoldingKey(sell.userId, sell.symbol);
    db.(balances := credited, holdings := bought[seller := Sold(db.holdings[seller], quantity)])
  }

  function ExecuteTrade(db: Db, buy: Order, sell: Order, price: Cents): Db
    requires buy.userId in db.balances && sell.userId in db.balances
    requires 0 < Executable(db, buy, sell, price)
  {
    var quantity := Executable(db, buy, sell, price);
    var updatedBuy := SetOrderState(buy, quantity, CancelsBuy(db, buy, sell, price));
    var updatedSell := SetOrderState(sell, quantity, CancelsSell(db, buy, sell, price));
    PayAndDeliver(db, buy, sell, price, quantity).(
      orders := db.orders[buy.id := updatedBuy][sell.id := updatedSell],
      trades := db.trades + [Trade(buy.id, sell.id, buy.symbol, price, quantity)])
  }

  function Settle(db: Db, incomingId: OrderId, restingId: OrderId): Transaction {
    if incomingId == restingId || incomingId !in db.orders || restingId !in db.orders then
      Committed(db, Report(0, []))
    else
      var incoming := db.orders[incomingId];
      var resting := db.orders[restingId];
      if !IsOpen(incoming) || !IsOpen(resting) || !CanMatch(incoming, resting) then
        Committed(db, Report(0, [incoming, resting]))
      else if incoming.userId == resting.userId then
        Committed(db, Report(0, [incoming]))
      else if resting.price.None? then
        RolledBack(RestingMarketOrder)
      else
        SettleOpenPair(db, incoming, resting, resting.price.value)
  }

  function SettleOpenPair(db: Db, incoming: Order, resting: Order, price: Cents): Transaction {
    var buy := if incoming.side.Buy? then incoming else resting;
    var sell := if incoming.side.Sell? then incoming else resting;
    if buy.userId !in db.balances || sell.userId !in db.balances then
      RolledBack(MissingUser)
    else if Executable(db, buy, sell, price) <= 0 then
      var unfillable := if SharesOf(db, sell.userId, sell.symbol) <= 0 then sell else buy;
      var cancelled := SetOrderState(unfillable, 0, true);
      Committed(db.(orders := db.orders[unfillable.id := cancelled]),
                Report(0, [cancelled, if unfillable.id == incoming.id then resting else incoming]))
    else
      var after := ExecuteTrade(db, buy, sell, price);
      Committed(after, Report(Executable(db, buy, sell, price), [after.orders[buy.id], after.orders[sell.id]]))
  }

  // ----- The other statements that touch orders and users

  /** `cancelOrder` of the engine, of the user, and the expiry job: all close one open order.
      (The expiry job also asks for a limit order, see `OrderExpiry`.) */
  function Cancel(db: Db, id: OrderId): Db {
    if id in db.orders && OpenStatus(db.orders[id].status) then
      db.(orders := db.orders[id := db.orders[id].(status := Cancelled)])
    else db
  }

  /** `handleMarketClose`: one UPDATE over every open limit order. */
  function CloseMarket(db: Db): Db {
    db.(orders := map id | id in db.orders ::
          if OpenStatus(db.orders[id].status) && db.orders[id].orderType.Limit?
          then db.orders[id].(status := Cancelled) else db.orders[id])
  }

  /** A row the INSERT of `submitOrder` accepts: the table's CHECK constraints and defaults. */
  predicate Insertable(db: Db, order: Order) {
    && order.id !in db.orders
    && order.userId in db.balances
    && (order.orderType.Limit? <==> order.price.Some?)
    && order.filled == 0
    && order.status.Open?
  }

  function Submit(db: Db, order: Order): Db {
    if Insertable(db, order) then db.(orders := db.orders[order.id := order]) else db
  }

  /** A new account starts with the column default of 100000.00. */
  const OPENING_BALANCE: Cents := 10_000_000

  function Register(db: Db, user: UserId): Db {
    if user in db.balances then db else db.(balances := db.balances[user := OPENING_BALANCE])
  }

  // ----- What every committed state satisfies

  /** Quantity of the trades that name an order. */
  function Traded(trades: seq<Trade>, id: OrderId): nat {
    if trades == [] then 0
    else
      var last := trades[|trades| - 1];
      Traded(trades[..|trades| - 1], id) +
          (if last.buyOrderId == id || last.sellOrderId == id then last.quantity else 0)
  }

  predicate OrderOk(order: Order) {
    && order.filled <= order.quantity
    && (order.orderType.Limit? <==> order.price.Some?)
    && (order.status.Filled? <==> order.filled == order.quantity)
    && (order.status.Open? ==> order.filled == 0)
    && (order.status.PartiallyFilled? ==> 0 < order.filled)
  }

  predicate OrdersOk(db: Db) {
    forall id <- db.orders ::
      db.orders[id].id == id && db.orders[id].userId in db.balances && OrderOk(db.orders[id])
  }

  /** A trade joins a buy and a sell of one symbol and two users, at the limit price of one of the
      two (the maker) and within the limit of both. */
  predicate TradeOk(orders: map<OrderId, Order>, trade: Trade) {
    && trade.buyOrderId in orders && trade.sellOrderId in orders
    && var buy, sell := orders[trade.buyOrderId], orders[trade.sellOrderId];
    && buy.side.Buy? && sell.side.Sell?
    && buy.symbol == trade.symbol == sell.symbol
    && buy.userId != sell.userId
    && (buy.price.Some? ==> trade.price <= buy.price.value)
    && (sell.price.Some? ==> sell.price.value <= trade.price)
    && (buy.price == Some(trade.price) || sell.price == Some(trade.price))
  }

  predicate Solvent(db: Db) {
    forall user <- db.balances :: 0 <= db.balances[user]
  }

  predicate EmptyHoldingsAreFree(db: Db) {
    forall key <- db.holdings :: db.holdings[key].quantity == 0 ==> db.holdings[key].averageCents == 0
  }

  predicate TradesOk(db: Db) {
    forall i | 0 <= i < |db.trades| :: TradeOk(db.orders, db.trades[i])
  }

  /** The fill ledger: what an order has filled is what the trades that name it moved. */
  ghost predicate FillsAreTraded(db: Db) {
    forall id :: Traded(db.trades, id) == if id in db.orders then db.orders[id].filled else 0
  }

  ghost predicate LedgerOk(db: Db) {
    OrdersOk(db) && Solvent(db) && EmptyHoldingsAreFree(db) && TradesOk(db) && FillsAreTraded(db)
  }

  /** How the database may move: rows stay, terms stay, fills grow, closed orders stay as they are. */
  ghost predicate Follows(before: Db, after: Db) {
    && before.balances.Keys <= after.balances.Keys
    && before.trades <= after.trades
    && forall id <- before.orders ::
      && id in after.orders
      && SameTerms(before.orders[id], after.orders[id])
      && before.orders[id].filled <= after.orders[id].filled
      && (!IsOpen(before.orders[id]) ==> after.orders[id] == before.orders[id])
  }

  lemma FollowsIsTransitive(a: Db, b: Db, c: Db)
    requires Follows(a, b) && Follows(b, c)
    ensures Follows(a, c)
  {
  }

  lemma ConservedIsReflexive(db: Db)
    ensures Conserved(db, db)
  {
  }

  lemma ConservedIsTransitive(a: Db, b: Db, c: Db)
    requires Conserved(a, b) && Conserved(b, c)
    ensures Conserved(a, c)
  {
  }

  ghost function TotalCash(db: Db): int {
    Total(db.balances)
  }

  ghost function Positions(holdings: map<HoldingKey, Holding>, symbol: Symbol): map<HoldingKey, int> {
    map key | key in holdings :: if key.symbol == symbol then holdings[key].quantity else 0
  }

  ghost function TotalShares(db: Db, symbol: Symbol): int {
    Total(Positions(db.holdings, symbol))
  }

  ghost predicate Conserved(before: Db, after: Db) {
    && TotalCash(after) == TotalCash(before)
    && forall symbol :: TotalShares(after, symbol) == TotalShares(before, symbol)
  }
}
