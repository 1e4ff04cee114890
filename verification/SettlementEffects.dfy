/** What the statements on orders do, in plain terms: from the columns of the rows before to the columns
    of the rows after, without the helpers that decide it. */
module SettlementEffects {
  import opened Orders
  import opened Settlement
  import opened Ledger

  // ----- The helpers, in plain terms

  /** An order is open as long as it is neither filled nor cancelled; its two open statuses say whether
      anything has been filled yet. */
  lemma OpenMeansUnfinished(order: Order)
    requires OrderOk(order)
    ensures IsOpen(order) <==> order.status == Open || order.status == PartiallyFilled
    ensures IsOpen(order) <==> order.filled < order.quantity && order.status != Cancelled
    ensures IsOpen(order) && 0 < order.filled ==> order.status == PartiallyFilled
  {
  }

  /** A taker matches an order of the same symbol and the other side, at any price if it is a market
      order, and otherwise if the bid is no lower than the ask. */
  lemma CanMatchExactly(taker: Order, maker: Order)
    ensures CanMatch(taker, maker) <==>
              && taker.symbol == maker.symbol && taker.side != maker.side
              && (taker.orderType == Market
                  || (taker.price.Some? && maker.price.Some?
                      && if taker.side == Buy then maker.price.value <= taker.price.value
                         else taker.price.value <= maker.price.value))
  {
  }

  // ----- Two orders that meet

  /** An open buy and an open sell of one symbol and two users, one resting at `price` and the other, the
      taker, content with it. */
  predicate Meeting(db: Db, buy: Order, sell: Order, taker: OrderId, maker: OrderId, price: Cents) {
    && buy.id in db.orders && buy == db.orders[buy.id] && (buy.status == Open || buy.status == PartiallyFilled)
    && sell.id in db.orders && sell == db.orders[sell.id] && (sell.status == Open || sell.status == PartiallyFilled)
    && buy.side == Buy && sell.side == Sell && buy.symbol == sell.symbol && buy.userId != sell.userId
    && ((taker == buy.id && maker == sell.id && sell.price == Some(price)
         && (buy.orderType == Market || (buy.price.Some? && price <= buy.price.value)))
        || (taker == sell.id && maker == buy.id && buy.price == Some(price)
            && (sell.orderType == Market || (sell.price.Some? && sell.price.value <= price))))
  }

  predicate Fits(db: Db, buy: Order, sell: Order, price: Cents, quantity: nat)
    requires buy.userId in db.balances
  {
    var owned := HoldingKey(sell.userId, sell.symbol);
    && buy.filled + quantity <= buy.quantity && sell.filled + quantity <= sell.quantity
    && quantity <= (if owned in db.holdings then db.holdings[owned].quantity else 0)
    && quantity * price <= db.balances[buy.userId]
  }

  lemma MeetingMatches(db: Db, buy: Order, sell: Order, taker: OrderId, maker: OrderId, price: Cents)
    requires OrdersOk(db) && Meeting(db, buy, sell, taker, maker, price)
    ensures IsOpen(buy) && IsOpen(sell) && CanMatch(db.orders[taker], db.orders[maker])
    ensures buy.id != sell.id && {taker, maker} == {buy.id, sell.id} && db.orders[maker].price == Some(price)
    ensures taker == buy.id ==> db.orders[taker] == buy && db.orders[maker] == sell
    ensures taker != buy.id ==> db.orders[taker] == sell && db.orders[maker] == buy
  {
    assert OrderOk(buy) && OrderOk(sell);
  }

  lemma ExecutableIsTheMost(db: Db, buy: Order, sell: Order, price: Cents)
    requires buy.userId in db.balances && 0 <= db.balances[buy.userId]
    requires buy.filled < buy.quantity && sell.filled < sell.quantity
    ensures var q := Executable(db, buy, sell, price);
            0 <= q && Fits(db, buy, sell, price, q) && !Fits(db, buy, sell, price, q + 1)
  {
    hide Requested, SharesOf;
    var balance := db.balances[buy.userId];
    var q := Executable(db, buy, sell, price);
    MostAffordable(balance, price, Affordable(db, buy, price), q);
    assert Requested(buy, sell) ==
      Min(buy.quantity - buy.filled, sell.quantity - sell.filled) by { RequestedIs(buy, sell); }
    SharesAre(db, sell);
  }

  lemma RequestedIs(buy: Order, sell: Order)
    ensures Requested(buy, sell) == Min(buy.quantity - buy.filled, sell.quantity - sell.filled)
  {
  }

  lemma SharesAre(db: Db, sell: Order)
    ensures var owned := HoldingKey(sell.userId, sell.symbol);
            SharesOf(db, sell.userId, sell.symbol) == if owned in db.holdings then db.holdings[owned].quantity else 0
  {
  }

  /** A quantity within the funds can be paid, and one more than the funds cannot. */
  lemma MostAffordable(balance: nat, price: Cents, funds: int, q: int)
    requires funds == balance / price && q <= funds
    ensures 0 <= funds && (0 <= q ==> q * price <= balance) && (q == funds ==> balance < (q + 1) * price)
  {
    FloorFits(balance, price, funds);
    Scale(q, funds, price);
  }

  lemma Scale(q: int, funds: int, price: Cents)
    requires q <= funds
    ensures q * price <= funds * price && (q + 1) * price == q * price + price
  {
  }

  lemma FloorFits(balance: nat, price: Cents, funds: int)
    requires funds == balance / price
    ensures 0 <= funds && funds * price <= balance < funds * price + price
  {
  }

  lemma SettleOfMeeting(db: Db, buy: Order, sell: Order, taker: OrderId, maker: OrderId, price: Cents)
    requires OrdersOk(db) && Meeting(db, buy, sell, taker, maker, price)
    ensures Settle(db, taker, maker) == SettleOpenPair(db, db.orders[taker], db.orders[maker], price)
    ensures var tx := Settle(db, taker, maker);
            tx.Committed? && tx.report.executed ==
              if Executable(db, buy, sell, price) <= 0 then 0 else Executable(db, buy, sell, price)
  {
    hide CanMatch, IsOpen, ExecuteTrade, Executable, SharesOf, SetOrderState;
    MeetingMatches(db, buy, sell, taker, maker, price);
  }

  /** Two orders that meet trade the most that both orders, the seller's shares and the buyer's cash
      allow: that many fit, and one more would not. */
  lemma MeetingOrdersTradeTheMost(db: Db, buy: Order, sell: Order, taker: OrderId, maker: OrderId, price: Cents)
    requires OrdersOk(db) && Solvent(db) && Meeting(db, buy, sell, taker, maker, price)
    ensures var tx := Settle(db, taker, maker);
            && tx.Committed? && buy.userId in db.balances
            && Fits(db, buy, sell, price, tx.report.executed) && !Fits(db, buy, sell, price, tx.report.executed + 1)
  {
    hide Settle, Executable, Fits;
    assert OrderOk(buy) && OrderOk(sell);
    SettleOfMeeting(db, buy, sell, taker, maker, price);
    ExecutableIsTheMost(db, buy, sell, price);
  }

  /** If nothing can trade, the one who cannot go on is closed, the seller before the buyer, and nothing
      else changes. */
  lemma MeetingOrdersThatCannotTrade(db: Db, buy: Order, sell: Order, taker: OrderId, maker: OrderId, price: Cents)
    requires OrdersOk(db) && Solvent(db) && Meeting(db, buy, sell, taker, maker, price)
    requires buy.userId in db.balances && !Fits(db, buy, sell, price, 1)
    ensures var owned := HoldingKey(sell.userId, sell.symbol);
            var closed := if owned !in db.holdings || db.holdings[owned].quantity == 0 then sell else buy;
            Settle(db, taker, maker).Committed?
            && Settle(db, taker, maker).db == db.(orders := db.orders[closed.id := closed.(status := Cancelled)])
  {
    hide CanMatch, ExecuteTrade, Executable;
    assert OrderOk(buy) && OrderOk(sell);
    MeetingMatches(db, buy, sell, taker, maker, price);
    SettleOfMeeting(db, buy, sell, taker, maker, price);
    ExecutableIsTheMost(db, buy, sell, price);
    NotEvenOne(db, buy, sell, price, Executable(db, buy, sell, price));
  }

  lemma NotEvenOne(db: Db, buy: Order, sell: Order, price: Cents, q: nat)
    requires buy.userId in db.balances && Fits(db, buy, sell, price, q) && !Fits(db, buy, sell, price, 1)
    ensures q == 0
  {
    hide Fits;
    if 1 <= q {
      FewerFit(db, buy, sell, price, q);
    }
  }

  lemma FewerFit(db: Db, buy: Order, sell: Order, price: Cents, q: nat)
    requires buy.userId in db.balances && Fits(db, buy, sell, price, q) && 1 <= q
    ensures Fits(db, buy, sell, price, 1)
  {
    assert price <= q * price;
  }

  // ----- Two orders that do not meet

  /** A pair that must not trade: one of the two is closed or missing, they are the same order or of the
      same user, their symbols or sides do not fit, or their prices do not meet. */
  predicate Apart(db: Db, a: OrderId, b: OrderId) {
    || a == b || a !in db.orders || b !in db.orders
    || var taker, maker := db.orders[a], db.orders[b];
       || taker.status == Filled || taker.status == Cancelled || maker.status == Filled || maker.status == Cancelled
       || taker.userId == maker.userId || taker.symbol != maker.symbol || taker.side == maker.side
       || (taker.orderType == Limit
           && (taker.price.None? || maker.price.None?
               || (taker.side == Buy && taker.price.value < maker.price.value)
               || (taker.side == Sell && maker.price.value < taker.price.value)))
  }

  /** Settling such a pair changes nothing at all, and reports the rows as they are. */
  lemma ApartIsLeftAlone(db: Db, a: OrderId, b: OrderId)
    requires OrdersOk(db) && Apart(db, a, b)
    ensures var tx := Settle(db, a, b);
            && tx.Committed? && tx.db == db && tx.report.executed == 0
            && forall o <- tx.report.orders :: o.id in {a, b} && o.id in db.orders && o == db.orders[o.id]
  {
    hide SettleOpenPair;
    if a in db.orders && b in db.orders {
      assert OrderOk(db.orders[a]) && OrderOk(db.orders[b]);
    }
  }

  /** A settlement rolls back exactly for a pair that is not apart and whose maker has no price or one of
      whose users is gone; with sound rows only the first can be. */
  lemma RollsBackExactly(db: Db, a: OrderId, b: OrderId)
    requires OrdersOk(db)
    ensures Settle(db, a, b).RolledBack? <==> !Apart(db, a, b) && db.orders[b].price.None?
  {
    hide ExecuteTrade, Executable, SharesOf, SetOrderState;
    if a in db.orders && b in db.orders {
      assert OrderOk(db.orders[a]) && OrderOk(db.orders[b]);
    }
  }

  /** What the loop goes on with are rows as they are stored now: the taker's, and the maker's unless the
      two are of one user. */
  lemma ReportedIsStored(db: Db, a: OrderId, b: OrderId)
    requires OrdersOk(db) && Settle(db, a, b).Committed?
    ensures var tx := Settle(db, a, b);
            && (forall o <- tx.report.orders :: o.id in {a, b} && o.id in tx.db.orders && o == tx.db.orders[o.id])
            && (a != b && a in db.orders && b in db.orders ==>
                  && (exists o <- tx.report.orders :: o.id == a)
                  && (db.orders[a].userId != db.orders[b].userId ==> exists o <- tx.report.orders :: o.id == b))
  {
    hide PayAndDeliver, Executable, CancelsBuy, CancelsSell, CanMatch, IsOpen, SharesOf, OrderOk;
    var tx := Settle(db, a, b);
    if tx.report.orders != [] {
      assert tx.report.orders[0] in tx.report.orders;
      if 1 < |tx.report.orders| {
        assert tx.report.orders[1] in tx.report.orders;
      }
    }
  }

  // ----- The averages of a trade

  /** `average` is the nearest cent to `paid` shared out over `quantity`. */
  predicate NearestCent(paid: int, quantity: int, average: int) {
    -quantity <= 2 * (paid - average * quantity) <= quantity
  }

  lemma DeliveryMovesAverages(db: Db, buy: Order, sell: Order, price: Cents, quantity: Quantity)
    requires buy.userId in db.balances && sell.userId in db.balances && buy.userId != sell.userId
    requires buy.symbol == sell.symbol && quantity <= SharesOf(db, sell.userId, sell.symbol)
    ensures var after := PayAndDeliver(db, buy, sell, price, quantity).holdings;
            var bought, sold := HoldingKey(buy.userId, buy.symbol), HoldingKey(sell.userId, sell.symbol);
            var had := if bought in db.holdings then db.holdings[bought] else Holding(0, 0);
            && bought in after && sold in after && sold in db.holdings
            && NearestCent(had.quantity * had.averageCents + quantity * price,
                           after[bought].quantity, after[bought].averageCents)
            && after[sold].averageCents
               == if quantity == db.holdings[sold].quantity then 0 else db.holdings[sold].averageCents
  {
    hide NearestCent;
    var bought := HoldingKey(buy.userId, buy.symbol);
    var had := if bought in db.holdings then db.holdings[bought] else Holding(0, 0);
    FirstBuyIsExact(quantity, price);
    QuotientIsNearest(had.quantity * had.averageCents + quantity * price, had.quantity + quantity);
  }

  lemma FirstBuyIsExact(quantity: nat, price: nat)
    ensures NearestCent(0 * 0 + quantity * price, quantity, price)
  {
  }

  lemma QuotientIsNearest(n: nat, d: int)
    requires 0 < d
    ensures NearestCent(n, d, RoundedQuotient(n, d))
  {
  }

  /** The buyer's average becomes the nearest cent to all it has paid for all it holds; the seller's stays
      until it has sold out, and is then 0. */
  lemma TradeMovesAverages(db: Db, incomingId: OrderId, restingId: OrderId)
    requires OrdersOk(db) && Settle(db, incomingId, restingId).Committed?
    requires Settle(db, incomingId, restingId).report.executed != 0
    ensures var after := Settle(db, incomingId, restingId).db;
            && |after.trades| == |db.trades| + 1
            && var trade := after.trades[|db.trades|];
            && trade.buyOrderId in db.orders && trade.sellOrderId in db.orders
            && var bought := HoldingKey(db.orders[trade.buyOrderId].userId, trade.symbol);
            && var sold := HoldingKey(db.orders[trade.sellOrderId].userId, trade.symbol);
            && bought in after.holdings && sold in after.holdings && sold in db.holdings
            && var had := if bought in db.holdings then db.holdings[bought] else Holding(0, 0);
            && var has := after.holdings[bought];
            && NearestCent(had.quantity * had.averageCents + trade.quantity * trade.price,
                           has.quantity, has.averageCents)
            && after.holdings[sold].averageCents
               == if trade.quantity == db.holdings[sold].quantity then 0 else db.holdings[sold].averageCents
  {
    hide PayAndDeliver, Affordable, CancelsBuy, CancelsSell, OrderOk, NearestCent, SetOrderState;
    var incoming, resting := db.orders[incomingId], db.orders[restingId];
    var buy := if incoming.side.Buy? then incoming else resting;
    var sell := if incoming.side.Sell? then incoming else resting;
    DeliveryMovesAverages(db, buy, sell, resting.price.value, Executable(db, buy, sell, resting.price.value));
  }

  // ----- Rows coming, closing and joining

  predicate StillOpen(order: Order) {
    order.status == Open || order.status == PartiallyFilled
  }

  /** An open order of the id is cancelled, keeping its fill and its terms; anything else is left as it is. */
  lemma CancelChangesOneStatus(db: Db, id: OrderId)
    ensures if id in db.orders && (db.orders[id].status == Open || db.orders[id].status == PartiallyFilled)
            then Cancel(db, id) == db.(orders := db.orders[id := db.orders[id].(status := Cancelled)])
            else Cancel(db, id) == db
  {
  }

  /** Every open limit order is cancelled, keeping its fill and its terms, and no other row is touched. */
  lemma CloseChangesOnlyStatuses(db: Db)
    ensures CloseMarket(db) == db.(orders := CloseMarket(db).orders) && CloseMarket(db).orders.Keys == db.orders.Keys
    ensures forall id <- db.orders ::
              var order := db.orders[id];
              CloseMarket(db).orders[id]
              == if order.orderType == Limit && (order.status == Open || order.status == PartiallyFilled)
                 then order.(status := Cancelled) else order
  {
  }

  /** A row with a new id, a known user, a price exactly if it is a limit order, nothing filled and the
      status open is stored as it was submitted; any other is refused. */
  lemma SubmitStoresTheRow(db: Db, order: Order)
    ensures if && order.id !in db.orders && order.userId in db.balances
               && (order.orderType == Limit <==> order.price.Some?) && order.filled == 0 && order.status == Open
            then Submit(db, order) == db.(orders := db.orders[order.id := order])
            else Submit(db, order) == db
  {
  }

  /** A new account opens with 100000.00 and moves nothing else; a known user keeps what it has. */
  lemma RegisterOpensOneAccount(db: Db, user: UserId)
    ensures if user in db.balances then Register(db, user) == db
            else Register(db, user) == db.(balances := db.balances[user := 10_000_000])
  {
  }
}
