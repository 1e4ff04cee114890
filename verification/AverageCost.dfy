/** The weighted average cost of a holding over any history of buys and sells. */
module AverageCost {
  import opened Orders
  import opened Settlement

  datatype Move = BuyMove(quantity: Quantity, price: Cents) | SellMove(quantity: Quantity)

  /** One settlement's effect on one holding; nobody sells more than the row holds. */
  function After(holding: Option<Holding>, move: Move): Option<Holding> {
    match move
    case BuyMove(quantity, price) => Some(Bought(holding, quantity, price))
    case SellMove(quantity) =>
      if holding.Some? && quantity <= holding.value.quantity then Some(Sold(holding.value, quantity)) else holding
  }

  /** What a holding has become after some moves; `first` is the row before them, if there was one. */
  function History(first: Option<Holding>, moves: seq<Move>): Option<Holding> {
    if moves == [] then first else After(History(first, moves[..|moves| - 1]), moves[|moves| - 1])
  }

  predicate Owns(holding: Option<Holding>) {
    holding.Some? && 0 < holding.value.quantity
  }

  predicate FreeWhenEmpty(holding: Option<Holding>) {
    holding.Some? && holding.value.quantity == 0 ==> holding.value.averageCents == 0
  }

  /** The prices paid since the holding was last empty, newest last; shares that were there from the
      beginning count at their average. */
  function PaidSinceEmpty(first: Option<Holding>, moves: seq<Move>): seq<int> {
    if !Owns(History(first, moves)) then []
    else if moves == [] then [first.value.averageCents]
    else
      var front := PaidSinceEmpty(first, moves[..|moves| - 1]);
      match moves[|moves| - 1]
      case BuyMove(_, price) => front + [price]
      case SellMove(_) => front
  }

  // ----- Rounding

  lemma MulMonotone(x: int, y: int, d: int)
    requires x <= y && 0 <= d
    ensures x * d <= y * d && d * x <= d * y
  {
  }

  lemma LessMultiple(x: int, y: int, d: int)
    requires 0 < d && x * d < y * d + d
    ensures x <= y
  {
    if y < x {
      MulMonotone(y + 1, x, d);
    }
  }

  /** A number of `d`ths within half a unit of `r` and between two whole numbers keeps `r` between them. */
  lemma NearestBetween(n: int, d: int, r: int, lo: int, hi: int)
    requires 0 < d && lo * d <= n <= hi * d && -d <= 2 * (n - r * d) < d
    ensures lo <= r <= hi
  {
    LessMultiple(lo, r, d);
    LessMultiple(r, hi, d);
  }

  lemma RoundedQuotientBetween(n: nat, d: int, lo: int, hi: int)
    requires 0 < d && lo * d <= n <= hi * d
    ensures lo <= RoundedQuotient(n, d) <= hi
  {
    hide RoundedQuotient;
    NearestBetween(n, d, RoundedQuotient(n, d), lo, hi);
  }

  lemma MixBetween(a: int, q: int, p: int, m: int, lo: int, hi: int)
    requires 0 <= q && 0 <= m && lo <= p <= hi && (0 < q ==> lo <= a <= hi)
    ensures lo * (q + m) <= q * a + m * p <= hi * (q + m)
  {
    if 0 < q {
      assert q * lo <= q * a <= q * hi;
    }
    assert m * lo <= m * p <= m * hi;
    assert lo * (q + m) == q * lo + m * lo && hi * (q + m) == q * hi + m * hi;
  }

  // ----- Bounds over every history

  ghost predicate Within(prices: seq<int>, lo: int, hi: int) {
    forall i | 0 <= i < |prices| :: lo <= prices[i] <= hi
  }

  lemma WithinFront(front: seq<int>, price: int, lo: int, hi: int)
    requires Within(front + [price], lo, hi)
    ensures Within(front, lo, hi) && lo <= price <= hi
  {
    assert forall i | 0 <= i < |front| :: front[i] == (front + [price])[i];
    assert (front + [price])[|front|] == price;
  }

  /** The stored average of a holding lies between the lowest and the highest price paid since the
      holding was last empty; an empty holding has average 0. */
  lemma {:induction false} AverageIsBetweenPrices(first: Option<Holding>, moves: seq<Move>, lo: int, hi: int)
    requires FreeWhenEmpty(first) && Within(PaidSinceEmpty(first, moves), lo, hi)
    ensures FreeWhenEmpty(History(first, moves))
    ensures Owns(History(first, moves)) ==> lo <= History(first, moves).value.averageCents <= hi
  {
    if moves == [] {
      if Owns(first) {
        assert lo <= PaidSinceEmpty(first, moves)[0] <= hi;
      }
    } else {
      hide Bought, Within;
      var front, last := moves[..|moves| - 1], moves[|moves| - 1];
      var before := History(first, front);
      if Owns(History(first, moves)) {
        if last.BuyMove? {
          WithinFront(PaidSinceEmpty(first, front), last.price, lo, hi);
        }
        AverageIsBetweenPrices(first, front, lo, hi);
        if last.BuyMove? {
          AveragingStays(before, last.quantity, last.price, lo, hi);
        }
      } else if last.SellMove? && History(first, moves) == before {
        EmptyIsWithin(lo, hi);
        AverageIsBetweenPrices(first, front, lo, hi);
      }
    }
  }

  lemma EmptyIsWithin(lo: int, hi: int)
    ensures Within([], lo, hi)
  {
  }

  lemma AveragingStays(before: Option<Holding>, quantity: Quantity, price: Cents, lo: int, hi: int)
    requires lo <= price <= hi && (Owns(before) ==> lo <= before.value.averageCents <= hi)
    ensures lo <= Bought(before, quantity, price).averageCents <= hi
    ensures 0 < Bought(before, quantity, price).quantity
  {
    hide RoundedQuotient;
    match before
    case None =>
    case Some(h) =>
      MixBetween(h.averageCents, h.quantity, price, quantity, lo, hi);
      RoundedQuotientBetween(h.quantity * h.averageCents + quantity * price, h.quantity + quantity, lo, hi);
  }

  // ----- Rounding drift

  function Cost(moves: seq<Move>): nat {
    if moves == [] then 0
    else
      var last := moves[|moves| - 1];
      Cost(moves[..|moves| - 1]) + (if last.BuyMove? then last.quantity * last.price else 0)
  }

  /** Twice the distance between the stored total and the exact one is at most `k` cents a share. */
  predicate Drifts(average: nat, quantity: nat, cost: nat, k: nat) {
    -(k * quantity) <= 2 * (average * quantity - cost) <= k * quantity
  }

  lemma NoDriftYet(quantity: nat, price: nat)
    ensures Drifts(price, quantity, quantity * price, 0)
  {
  }

  lemma DriftStep(q: nat, a: nat, c: nat, m: nat, p: nat, k: nat, r: nat)
    requires Drifts(a, q, c, k)
    requires -(q + m) <= 2 * (q * a + m * p - r * (q + m)) < q + m
    ensures Drifts(r, q + m, c + m * p, k + 1)
  {
    MulMonotone(q, q + m, k);
    Combine(q * a, c, m * p, r * (q + m), q + m, k * q, k * (q + m));
    OneMore(k, q + m);
  }

  lemma OneMore(k: int, d: int)
    ensures (k + 1) * d == k * d + d
  {
  }

  lemma Combine(exact: int, c: int, paid: int, stored: int, all: int, drift: int, most: int)
    requires -drift <= 2 * (exact - c) <= drift && drift <= most
    requires -all <= 2 * (exact + paid - stored) < all
    ensures -(most + all) <= 2 * (stored - (c + paid)) <= most + all
  {
  }

  /** After k buys and no sells, the stored average is within (k - 1) / 2 cents of the exact average:
      the first buy is exact and each later one rounds once. */
  lemma {:induction false} RoundingDriftIsBounded(moves: seq<Move>)
    requires moves != [] && forall i | 0 <= i < |moves| :: moves[i].BuyMove?
    ensures var h := History(None, moves);
            Owns(h) && Drifts(h.value.averageCents, h.value.quantity, Cost(moves), |moves| - 1)
  {
    hide RoundedQuotient, Drifts;
    var front, last := moves[..|moves| - 1], moves[|moves| - 1];
    if front == [] {
      assert History(None, front) == None && Cost(front) == 0;
      NoDriftYet(last.quantity, last.price);
    } else {
      RoundingDriftIsBounded(front);
      var h := History(None, front).value;
      var r := RoundedQuotient(h.quantity * h.averageCents + last.quantity * last.price, h.quantity + last.quantity);
      DriftStep(h.quantity, h.averageCents, Cost(front), last.quantity, last.price, |front| - 1, r);
    }
  }

  // ----- The moves of the recorded trades

  /** What a trade does to one user's holding of one symbol. */
  function MoveOf(orders: map<OrderId, Order>, trade: Trade, user: UserId, symbol: Symbol): Option<Move> {
    if trade.symbol != symbol then None
    else if trade.buyOrderId in orders && orders[trade.buyOrderId].userId == user then
      Some(BuyMove(trade.quantity, trade.price))
    else if trade.sellOrderId in orders && orders[trade.sellOrderId].userId == user then
      Some(SellMove(trade.quantity))
    else None
  }

  function MovesOf(orders: map<OrderId, Order>, trades: seq<Trade>, user: UserId, symbol: Symbol): seq<Move> {
    if trades == [] then []
    else
      var front := MovesOf(orders, trades[..|trades| - 1], user, symbol);
      var move := MoveOf(orders, trades[|trades| - 1], user, symbol);
      if move.Some? then front + [move.value] else front
  }

  lemma MovesAppend(orders: map<OrderId, Order>, trades: seq<Trade>, trade: Trade, user: UserId, symbol: Symbol)
    ensures var front, move := MovesOf(orders, trades, user, symbol), MoveOf(orders, trade, user, symbol);
            MovesOf(orders, trades + [trade], user, symbol) == if move.Some? then front + [move.value] else front
  {
    assert (trades + [trade])[..|trades|] == trades;
  }

  /** Settling is one buy for the buyer, one sell for the seller and nothing for anybody else. */
  lemma SettlementIsOneMove(db: Db, incomingId: OrderId, restingId: OrderId, user: UserId, symbol: Symbol)
    requires OrdersOk(db) && Settle(db, incomingId, restingId).Committed?
    ensures var after := Settle(db, incomingId, restingId).db;
            || (after.trades == db.trades && after.holdings == db.holdings)
            || (&& |after.trades| == |db.trades| + 1 && after.trades == db.trades + [after.trades[|db.trades|]]
                && var move := MoveOf(after.orders, after.trades[|db.trades|], user, symbol);
                HoldingOf(after, user, symbol)
                == if move.Some? then After(HoldingOf(db, user, symbol), move.value) else HoldingOf(db, user, symbol))
  {
    hide Affordable, CancelsBuy, CancelsSell, OrderOk, Bought;
  }
}
