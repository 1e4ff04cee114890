/** What settlement and the other statements keep, over one step: no cash or share appears or
    vanishes, nobody is overdrawn, fills agree with the trades, and closed orders stay closed. */
module Ledger {
  import opened Orders
  import opened Totals
  import opened Settlement

  lemma TradedAppend(trades: seq<Trade>, trade: Trade, id: OrderId)
    ensures Traded(trades + [trade], id)
         == Traded(trades, id) + (if trade.buyOrderId == id || trade.sellOrderId == id then trade.quantity else 0)
  {
    assert (trades + [trade])[..|trades|] == trades;
  }

  // ----- The trade itself

  /** The money of a trade goes from the buyer to the seller, to the cent. */
  lemma TradeConservesCash(db: Db, buy: Order, sell: Order, price: Cents)
    requires buy.userId in db.balances && sell.userId in db.balances
    requires 0 < Executable(db, buy, sell, price)
    ensures TotalCash(ExecuteTrade(db, buy, sell, price)) == TotalCash(db)
  {
    var total := Executable(db, buy, sell, price) * price;
    var debited := db.balances[buy.userId := db.balances[buy.userId] - total];
    TotalUpdate(db.balances, buy.userId, db.balances[buy.userId] - total);
    TotalUpdate(debited, sell.userId, debited[sell.userId] + total);
  }

  /** The shares of a trade go from the seller to the buyer; other symbols are not touched. */
  lemma TradeConservesShares(db: Db, buy: Order, sell: Order, price: Cents, symbol: Symbol)
    requires buy.userId in db.balances && sell.userId in db.balances && buy.userId != sell.userId
    requires buy.symbol == sell.symbol
    requires 0 < Executable(db, buy, sell, price)
    ensures TotalShares(ExecuteTrade(db, buy, sell, price), symbol) == TotalShares(db, symbol)
  {
    var after := ExecuteTrade(db, buy, sell, price);
    var buyer, seller := HoldingKey(buy.userId, buy.symbol), HoldingKey(sell.userId, sell.symbol);
    var before := Positions(db.holdings, symbol);
    var bought := if symbol == buy.symbol then after.holdings[buyer].quantity else 0;
    var sold := if symbol == sell.symbol then after.holdings[seller].quantity else 0;
    assert Positions(after.holdings, symbol) == before[buyer := bought][seller := sold];
    TotalUpdate(before, buyer, bought);
    TotalUpdate(before[buyer := bought], seller, sold);
  }

  lemma PaymentIsAffordable(balance: int, price: Cents, quantity: nat)
    requires quantity <= balance / price
    ensures quantity * price <= balance
  {
    assert quantity * price <= (balance / price) * price;
  }

  lemma TradeKeepsOrders(db: Db, buy: Order, sell: Order, price: Cents)
    requires OrdersOk(db)
    requires buy.id in db.orders && buy == db.orders[buy.id] && sell.id in db.orders && sell == db.orders[sell.id]
    requires IsOpen(buy) && IsOpen(sell) && buy.id != sell.id
    requires 0 < Executable(db, buy, sell, price)
    ensures OrdersOk(ExecuteTrade(db, buy, sell, price))
    ensures Follows(db, ExecuteTrade(db, buy, sell, price))
  {
    hide Affordable, Bought;
    var after := ExecuteTrade(db, buy, sell, price);
    assert SameTerms(buy, after.orders[buy.id]) && OrderOk(after.orders[buy.id]);
    assert SameTerms(sell, after.orders[sell.id]) && OrderOk(after.orders[sell.id]);
    assert after.balances.Keys == db.balances.Keys;
  }

  lemma TradeKeepsMoney(db: Db, buy: Order, sell: Order, price: Cents)
    requires Solvent(db) && EmptyHoldingsAreFree(db)
    requires buy.userId in db.balances && sell.userId in db.balances
    requires 0 < Executable(db, buy, sell, price)
    ensures Solvent(ExecuteTrade(db, buy, sell, price))
    ensures EmptyHoldingsAreFree(ExecuteTrade(db, buy, sell, price))
  {
    PaymentIsAffordable(db.balances[buy.userId], price, Executable(db, buy, sell, price));
  }

  lemma TradeKeepsFills(db: Db, buy: Order, sell: Order, price: Cents)
    requires FillsAreTraded(db)
    requires buy.id in db.orders && buy == db.orders[buy.id] && sell.id in db.orders && sell == db.orders[sell.id]
    requires buy.id != sell.id && buy.userId in db.balances && sell.userId in db.balances
    requires 0 < Executable(db, buy, sell, price)
    ensures FillsAreTraded(ExecuteTrade(db, buy, sell, price))
  {
    var after := ExecuteTrade(db, buy, sell, price);
    forall id ensures Traded(after.trades, id) == if id in after.orders then after.orders[id].filled else 0 {
      TradedAppend(db.trades, after.trades[|db.trades|], id);
    }
  }

  lemma TradesStayOk(before: Db, after: Db)
    requires TradesOk(before) && Follows(before, after) && after.trades == before.trades
    ensures TradesOk(after)
  {
    forall i | 0 <= i < |after.trades| ensures TradeOk(after.orders, after.trades[i]) {
      assert TradeOk(before.orders, before.trades[i]);
    }
  }

  lemma FillsStayTraded(before: Db, after: Db)
    requires FillsAreTraded(before) && after.trades == before.trades && before.orders.Keys <= after.orders.Keys
    requires forall id <- after.orders ::
               after.orders[id].filled == if id in before.orders then before.orders[id].filled else 0
    ensures FillsAreTraded(after)
  {
    forall id ensures Traded(after.trades, id) == if id in after.orders then after.orders[id].filled else 0 {
      assert Traded(before.trades, id) == if id in before.orders then before.orders[id].filled else 0;
    }
  }

  lemma TradeKeepsTrades(db: Db, buy: Order, sell: Order, price: Cents)
    requires OrdersOk(db) && TradesOk(db)
    requires buy.id in db.orders && buy == db.orders[buy.id] && sell.id in db.orders && sell == db.orders[sell.id]
    requires IsOpen(buy) && IsOpen(sell) && buy.side.Buy? && sell.side.Sell?
    requires buy.symbol == sell.symbol && buy.userId != sell.userId
    requires buy.price.Some? ==> price <= buy.price.value
    requires sell.price.Some? ==> sell.price.value <= price
    requires buy.price == Some(price) || sell.price == Some(price)
    requires 0 < Executable(db, buy, sell, price)
    ensures TradesOk(ExecuteTrade(db, buy, sell, price))
  {
    var after := ExecuteTrade(db, buy, sell, price);
    TradeKeepsOrders(db, buy, sell, price);
    TradesStayOk(db, after.(trades := db.trades));
    forall i | 0 <= i < |after.trades| ensures TradeOk(after.orders, after.trades[i]) {
      if i < |db.trades| {
        assert TradeOk(after.orders, db.trades[i]);
      }
    }
  }

  lemma LedgerGivesOrders(db: Db)
    requires LedgerOk(db)
    ensures OrdersOk(db)
  {
  }

  // ----- Every statement

  lemma ReplacingOneOrderKeepsLedger(db: Db, order: Order)
    requires LedgerOk(db)
    requires order.id in db.orders && IsOpen(db.orders[order.id])
    requires SameTerms(db.orders[order.id], order) && order.filled == db.orders[order.id].filled && OrderOk(order)
    ensures var after := db.(orders := db.orders[order.id := order]); LedgerOk(after) && Follows(db, after)
  {
    hide TradesOk, FillsAreTraded;
    TradesStayOk(db, db.(orders := db.orders[order.id := order]));
    FillsStayTraded(db, db.(orders := db.orders[order.id := order]));
  }

  /** Settlement, whatever the two ids are and however stale the caller's view of them was. */
  lemma SettleIsSafe(db: Db, incomingId: OrderId, restingId: OrderId)
    requires LedgerOk(db)
    requires Settle(db, incomingId, restingId).Committed?
    ensures var after := Settle(db, incomingId, restingId).db;
            LedgerOk(after) && Follows(db, after) && Conserved(db, after)
  {
    hide Affordable, PayAndDeliver, Solvent, EmptyHoldingsAreFree, TradesOk, FillsAreTraded;
    var after := Settle(db, incomingId, restingId).db;
    if after != db {
      var incoming, resting := db.orders[incomingId], db.orders[restingId];
      var price := resting.price.value;
      var buy := if incoming.side.Buy? then incoming else resting;
      var sell := if incoming.side.Sell? then incoming else resting;
      if Executable(db, buy, sell, price) <= 0 {
        var unfillable := if SharesOf(db, sell.userId, sell.symbol) <= 0 then sell else buy;
        ReplacingOneOrderKeepsLedger(db, SetOrderState(unfillable, 0, true));
      } else {
        TradeKeepsTrades(db, buy, sell, price);
        TradeKeepsOrders(db, buy, sell, price);
        TradeKeepsMoney(db, buy, sell, price);
        TradeKeepsFills(db, buy, sell, price);
        TradeConservesCash(db, buy, sell, price);
        forall symbol ensures TotalShares(after, symbol) == TotalShares(db, symbol) {
          TradeConservesShares(db, buy, sell, price, symbol);
        }
      }
    }
  }

  lemma CancelIsSafe(db: Db, id: OrderId)
    requires LedgerOk(db)
    ensures LedgerOk(Cancel(db, id)) && Follows(db, Cancel(db, id)) && Conserved(db, Cancel(db, id))
    ensures id in db.orders ==> !IsOpen(Cancel(db, id).orders[id])
  {
    if Cancel(db, id) != db {
      ReplacingOneOrderKeepsLedger(db, db.orders[id].(status := Cancelled));
    }
  }

  lemma CloseMarketIsSafe(db: Db)
    requires LedgerOk(db)
    ensures LedgerOk(CloseMarket(db)) && Follows(db, CloseMarket(db)) && Conserved(db, CloseMarket(db))
    ensures forall id <- db.orders :: db.orders[id].orderType.Limit? ==> !IsOpen(CloseMarket(db).orders[id])
  {
    hide TradesOk, FillsAreTraded;
    var after := CloseMarket(db);
    forall id | id in db.orders
      ensures SameTerms(db.orders[id], after.orders[id]) && OrderOk(after.orders[id])
      ensures after.orders[id].filled == db.orders[id].filled
    {
      assert OrderOk(db.orders[id]);
    }
    TradesStayOk(db, after);
    FillsStayTraded(db, after);
  }

  /** A new row leaves every other row, balance, holding and trade as it was. */
  lemma SubmitIsSafe(db: Db, order: Order)
    requires LedgerOk(db)
    ensures LedgerOk(Submit(db, order)) && Follows(db, Submit(db, order)) && Conserved(db, Submit(db, order))
    ensures forall id <- db.orders :: Submit(db, order).orders[id] == db.orders[id]
    ensures Submit(db, order).orders.Keys <= db.orders.Keys + {order.id}
    ensures Submit(db, order) == db.(orders := Submit(db, order).orders)
  {
    hide TradesOk, FillsAreTraded;
    TradesStayOk(db, Submit(db, order));
    FillsStayTraded(db, Submit(db, order));
  }

  lemma RegisterIsSafe(db: Db, user: UserId)
    requires LedgerOk(db)
    ensures LedgerOk(Register(db, user)) && Follows(db, Register(db, user))
    ensures TotalCash(Register(db, user)) == TotalCash(db) + (if user in db.balances then 0 else 10_000_000)
    ensures forall symbol :: TotalShares(Register(db, user), symbol) == TotalShares(db, symbol)
  {
    TotalUpdate(db.balances, user, OPENING_BALANCE);
  }

  /** A trade is recorded at the maker's limit price, for the quantity reported, between exactly the
      two orders; without one, nobody's cash or shares move. */
  lemma TradesAtMakerPrice(db: Db, incomingId: OrderId, restingId: OrderId)
    requires Settle(db, incomingId, restingId).Committed? && OrdersOk(db)
    ensures var tx := Settle(db, incomingId, restingId);
            if tx.report.executed == 0 then
              tx.db == db.(orders := tx.db.orders)
            else
              && |tx.db.trades| == |db.trades| + 1
              && var trade := tx.db.trades[|db.trades|];
              && db.orders[restingId].price == Some(trade.price) && trade.quantity == tx.report.executed
              && {trade.buyOrderId, trade.sellOrderId} == {incomingId, restingId}
              && tx.db.orders[incomingId].filled == db.orders[incomingId].filled + trade.quantity
              && tx.db.orders[restingId].filled == db.orders[restingId].filled + trade.quantity
  {
    hide Bought, Sold, HoldingOf, CancelsBuy, CancelsSell;
  }

  /** Who pays and who delivers, read off the trade itself: the buyer pays price times quantity to the
      seller and gets that many of the seller's shares; every other balance and position stays. */
  lemma TradePaysAndDelivers(db: Db, incomingId: OrderId, restingId: OrderId)
    requires OrdersOk(db) && Settle(db, incomingId, restingId).Committed?
    requires Settle(db, incomingId, restingId).report.executed != 0
    ensures var after := Settle(db, incomingId, restingId).db;
            && |after.trades| == |db.trades| + 1
            && var trade := after.trades[|db.trades|];
            && trade.buyOrderId in db.orders && trade.sellOrderId in db.orders
            && var buyer, seller := db.orders[trade.buyOrderId].userId, db.orders[trade.sellOrderId].userId;
            && buyer in db.balances && seller in db.balances && buyer != seller
            && after.balances == db.balances[buyer := db.balances[buyer] - trade.quantity * trade.price]
                                            [seller := db.balances[seller] + trade.quantity * trade.price]
            && SharesOf(after, buyer, trade.symbol) == SharesOf(db, buyer, trade.symbol) + trade.quantity
            && SharesOf(after, seller, trade.symbol) == SharesOf(db, seller, trade.symbol) - trade.quantity
            && forall user, symbol :: symbol != trade.symbol || (user != buyer && user != seller) ==>
                 HoldingOf(after, user, symbol) == HoldingOf(db, user, symbol)
  {
    hide Affordable, CancelsBuy, CancelsSell, OrderOk, RoundedQuotient;
  }

  /** Two open crossing orders trade whenever their owners have something to trade with. */
  lemma OpenPairTrades(db: Db, buy: Order, sell: Order, price: Cents)
    requires buy.id in db.orders && buy == db.orders[buy.id] && IsOpen(buy) && buy.side.Buy?
    requires sell.id in db.orders && sell == db.orders[sell.id] && IsOpen(sell) && sell.side.Sell?
    requires CanMatch(buy, sell) && buy.userId != sell.userId && sell.price == Some(price)
    requires buy.userId in db.balances && sell.userId in db.balances && 0 < Executable(db, buy, sell, price)
    ensures var tx := Settle(db, buy.id, sell.id);
            tx.Committed? && tx.report.executed == Executable(db, buy, sell, price)
  {
    hide ExecuteTrade, Executable, CanMatch, IsOpen;
  }

  /** Two open crossing orders that cannot trade: the seller is cancelled exactly if it has no share
      left, otherwise the buyer, who then cannot pay for one; the other order stays as it was. */
  lemma WhoIsCancelled(db: Db, incoming: Order, resting: Order)
    requires OrdersOk(db)
    requires incoming.id in db.orders && incoming == db.orders[incoming.id] && IsOpen(incoming)
    requires resting.id in db.orders && resting == db.orders[resting.id] && IsOpen(resting)
    requires CanMatch(incoming, resting) && incoming.userId != resting.userId && resting.price.Some?
    requires Settle(db, incoming.id, resting.id).Committed? && Settle(db, incoming.id, resting.id).report.executed == 0
    ensures var after := Settle(db, incoming.id, resting.id).db.orders;
            var buy := if incoming.side.Buy? then incoming else resting;
            var sell := if incoming.side.Buy? then resting else incoming;
            && buy.id in after && sell.id in after
            && if SharesOf(db, sell.userId, sell.symbol) == 0
               then after[sell.id] == sell.(status := Cancelled) && after[buy.id] == buy
               else after[buy.id] == buy.(status := Cancelled) && after[sell.id] == sell
                    && db.balances[buy.userId] < resting.price.value
  {
    hide PayAndDeliver, CancelsBuy, CancelsSell;
  }

  /** A fill within what an open order still wants keeps its row consistent; the order stays open exactly
      if something is left and the remainder is not given up. */
  lemma FillDecidesStatus(order: Order, executed: nat, cancelRemainder: bool)
    requires OrderOk(order) && IsOpen(order) && executed <= Remaining(order)
    ensures var updated := SetOrderState(order, executed, cancelRemainder);
            && OrderOk(updated) && SameTerms(order, updated)
            && Remaining(updated) == Remaining(order) - executed
            && (IsOpen(updated) <==> executed < Remaining(order) && !cancelRemainder)
            && (updated.status.Filled? <==> executed == Remaining(order))
  {
  }

  // ----- Progress

  /** Progress: one settlement attempt on two orders that were open and crossing when the loop read
      them leaves at most one of them open, in whatever state the database is by then. */
  lemma AttemptClosesOne(db: Db, incoming: Order, resting: Order)
    requires OrdersOk(db)
    requires incoming.id in db.orders && SameTerms(incoming, db.orders[incoming.id])
    requires resting.id in db.orders && SameTerms(resting, db.orders[resting.id])
    requires CanMatch(incoming, resting) && incoming.userId != resting.userId && resting.price.Some?
    ensures var tx := Settle(db, incoming.id, resting.id);
            tx.Committed? && (!IsOpen(tx.db.orders[incoming.id]) || !IsOpen(tx.db.orders[resting.id]))
  {
  }

  /** How a trade leaves the two orders, from what each side wants and has: full, cancelled because
      its owner ran out first, or open. */
  lemma HowATradeEnds(db: Db, buy: Order, sell: Order, price: Cents)
    requires buy.userId in db.balances && sell.userId in db.balances
    requires buy.id != sell.id && IsOpen(buy) && IsOpen(sell)
    requires 0 < Executable(db, buy, sell, price)
    ensures var after := ExecuteTrade(db, buy, sell, price).orders;
            var shares, funds := SharesOf(db, sell.userId, sell.symbol), Affordable(db, buy, price);
            var wanted, offered := Remaining(buy), Remaining(sell);
            && (after[buy.id].status.Filled? <==> wanted <= offered && wanted <= shares && wanted <= funds)
            && (after[sell.id].status.Filled? <==> offered <= wanted && offered <= shares && offered <= funds)
            && (after[buy.id].status.Cancelled? <==> funds < wanted && funds < offered && funds <= shares)
            && (after[sell.id].status.Cancelled? <==> shares < wanted && shares < offered && shares <= funds)
  {
    var quantity := Executable(db, buy, sell, price);
    assert ExecuteTrade(db, buy, sell, price).orders[buy.id] ==
      SetOrderState(buy, quantity, CancelsBuy(db, buy, sell, price));
    assert ExecuteTrade(db, buy, sell, price).orders[sell.id] ==
      SetOrderState(sell, quantity, CancelsSell(db, buy, sell, price));
  }
}
