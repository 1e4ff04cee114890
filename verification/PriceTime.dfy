/** Price-time priority of a run: which orders the queue holds and in what order, who may trade
    before whom, and that nothing that crosses is left behind. */
module PriceTime {
  import opened Orders
  import opened Settlement
  import opened Ledger
  import opened BookEncoding
  import opened OrderBook
  import opened Matching
  import opened MatchingSteps
  import opened SettlementEffects

  /** `a` goes before `b`: a better price for the taker, or the same price and an earlier sequence. */
  ghost predicate Precedes(s: State, a: OrderId, b: OrderId) {
    && a in s.redis.hashes && b in s.redis.hashes
    && SequenceOf(s.redis.hashes[a]).Some? && SequenceOf(s.redis.hashes[b]).Some?
    && (|| ScoreOf(s.db.orders, a) < ScoreOf(s.db.orders, b)
        || (&& ScoreOf(s.db.orders, a) == ScoreOf(s.db.orders, b)
            && SequenceOf(s.redis.hashes[a]).value < SequenceOf(s.redis.hashes[b]).value))
  }

  lemma EntriesPrecede(s: State, key: BookKey, x: Entry, y: Entry)
    requires Valid(s) && SequenceAt(s.redis, key.symbol) < 100_000_000_000_000_000_000
    requires x in BookOf(s.redis, key) && y in BookOf(s.redis, key) && Before(x, y)
    ensures Precedes(s, OrderIdOf(x.member).value, OrderIdOf(y.member).value)
  {
    hide LedgerOk;
    var a, b := OrderIdOf(x.member).value, OrderIdOf(y.member).value;
    assert Stands(s.db.orders, key, x) && Stands(s.db.orders, key, y);
    if x.score == y.score {
      TextLessIrreflexive(x.member);
      assert a != b;
      MemberOrderIsSequenceOrder(SequenceOf(x.member).value, a, SequenceOf(y.member).value, b);
    }
  }

  ghost predicate InPriceTimeOrder(s: State, ids: seq<OrderId>) {
    forall i, j | 0 <= i < j < |ids| :: Precedes(s, ids[i], ids[j])
  }

  lemma EmptyInOrder(s: State)
    ensures InPriceTimeOrder(s, [])
  {
  }

  lemma FirstInOrder(s: State, id: OrderId, rest: seq<OrderId>)
    requires InPriceTimeOrder(s, rest) && forall j | 0 <= j < |rest| :: Precedes(s, id, rest[j])
    ensures InPriceTimeOrder(s, [id] + rest)
  {
    hide Precedes;
  }

  lemma {:induction false} EligiblePrecede(s: State, key: BookKey, exclude: Option<UserId>, book: seq<Entry>)
    requires Valid(s) && SequenceAt(s.redis, key.symbol) < 100_000_000_000_000_000_000
    requires Sorted(book) && forall e <- book :: e in BookOf(s.redis, key)
    ensures InPriceTimeOrder(s, EligibleIds(s.db.orders, exclude, book))
  {
    hide Valid, Precedes, InPriceTimeOrder;
    if book == [] {
      EmptyInOrder(s);
    } else {
      EligiblePrecede(s, key, exclude, book[1..]);
      assert book[0] in book;
      if Eligible(s.db.orders, exclude, book[0]) {
        var rest := EligibleIds(s.db.orders, exclude, book[1..]);
        var id := OrderIdOf(book[0].member).value;
        forall j | 0 <= j < |rest| ensures Precedes(s, id, rest[j]) {
          EligibleMembers(s.db.orders, exclude, book[1..], rest[j]);
          var e :| e in book[1..] && Eligible(s.db.orders, exclude, e) && OrderIdOf(e.member) == Some(rest[j]);
          EntriesPrecede(s, key, book[0], e);
        }
        FirstInOrder(s, id, rest);
      }
    }
  }

  /** The queue of a taker holds exactly the open resting orders of other users on the other side
      of its symbol, each once, best price first and earliest sequence first within a price. */
  lemma QueueIsPriceTimeOrder(s: State, taker: Order)
    requires Valid(s) && SequenceAt(s.redis, taker.symbol) < 100_000_000_000_000_000_000
    ensures var queue := Queue(s, taker);
            && (forall id :: id in queue <==>
                  && id in s.redis.hashes && IsOpen(s.db.orders[id])
                  && s.db.orders[id].userId != taker.userId && KeyOf(s.db.orders[id]) == OppositeKey(taker))
            && (forall i, j | 0 <= i < j < |queue| :: Precedes(s, queue[i], queue[j]))
            && (forall i, j | 0 <= i < j < |queue| :: NoWorse(taker, s.db.orders[queue[i]], s.db.orders[queue[j]]))
  {
    hide LedgerOk, BookSound, EntriesHashed, SequencesUnique, Precedes, EligibleIds, NoWorse;
    var key := OppositeKey(taker);
    var book := BookOf(s.redis, key);
    assert Sorted(book) by { ValidBookIsSorted(s, key); }
    EligiblePrecede(s, key, Some(taker.userId), book);
    var queue := Queue(s, taker);
    assert queue == EligibleIds(s.db.orders, Some(taker.userId), book);
    forall id
      ensures id in queue <==>
                && id in s.redis.hashes && IsOpen(s.db.orders[id])
                && s.db.orders[id].userId != taker.userId && KeyOf(s.db.orders[id]) == key
    {
      InQueue(s, taker, id);
    }
    forall i, j | 0 <= i < j < |queue| ensures NoWorse(taker, s.db.orders[queue[i]], s.db.orders[queue[j]]) {
      assert queue[i] in queue && queue[j] in queue;
      EarlierIsNoWorse(s, taker, queue[i], queue[j]);
    }
  }

  /** To the taker the first price is at least as good: to a buyer not higher, to a seller not lower. */
  predicate NoWorse(taker: Order, first: Order, second: Order) {
    && first.price.Some? && second.price.Some?
    && if taker.side == Buy then first.price.value <= second.price.value else second.price.value <= first.price.value
  }

  lemma EarlierIsNoWorse(s: State, taker: Order, a: OrderId, b: OrderId)
    requires Valid(s) && a in s.redis.hashes && b in s.redis.hashes && Precedes(s, a, b)
    requires KeyOf(s.db.orders[a]) == OppositeKey(taker) && KeyOf(s.db.orders[b]) == OppositeKey(taker)
    ensures NoWorse(taker, s.db.orders[a], s.db.orders[b])
  {
    hide LedgerOk, BookSound, EntriesHashed, SequencesUnique;
  }

  lemma ValidBookIsSorted(s: State, key: BookKey)
    requires BookSound(s)
    ensures Sorted(BookOf(s.redis, key))
  {
  }

  lemma InQueue(s: State, taker: Order, id: OrderId)
    requires Valid(s)
    ensures id in Queue(s, taker) <==>
              && id in s.redis.hashes && IsOpen(s.db.orders[id])
              && s.db.orders[id].userId != taker.userId && KeyOf(s.db.orders[id]) == OppositeKey(taker)
  {
    hide LedgerOk, SequencesUnique, Numbered;
    var key := OppositeKey(taker);
    EligibleMembers(s.db.orders, Some(taker.userId), BookOf(s.redis, key), id);
    if id in s.redis.hashes && KeyOf(s.db.orders[id]) == key {
      var order := s.db.orders[id];
      var e := Entry(Score(order.side, order.price.value), s.redis.hashes[id]);
      assert e in BookOf(s.redis, key) && OrderIdOf(e.member) == Some(id);
    }
    if id in Queue(s, taker) {
      var e :| e in BookOf(s.redis, key) && Eligible(s.db.orders, Some(taker.userId), e) &&
        OrderIdOf(e.member) == Some(id);
      assert Stands(s.db.orders, key, e);
    }
  }

  // ----- The pass over a queue

  /** What the pass needs of the orders it is about to visit. */
  ghost predicate QueueOk(db: Db, takerId: OrderId, queue: seq<OrderId>) {
    && takerId in db.orders
    && (forall i, j | 0 <= i < j < |queue| :: queue[i] != queue[j])
    && (forall i | 0 <= i < |queue| ::
          && queue[i] in db.orders && queue[i] != takerId
          && var resting := db.orders[queue[i]];
          && IsOpen(resting) && resting.price.Some? && resting.userId != db.orders[takerId].userId
          && KeyOf(resting) == OppositeKey(db.orders[takerId]))
    && (forall i, j | 0 <= i < j < |queue| :: ScoreOf(db.orders, queue[i]) <= ScoreOf(db.orders, queue[j]))
  }

  lemma ValidQueueOk(s: State, id: OrderId)
    requires Valid(s) && id in s.db.orders && SequenceAt(s.redis, s.db.orders[id].symbol) < 100_000_000_000_000_000_000
    ensures QueueOk(s.db, id, Queue(s, s.db.orders[id]))
  {
    hide LedgerOk, BookSound, EntriesHashed, SequencesUnique;
    var taker := s.db.orders[id];
    var queue := Queue(s, taker);
    QueueIsPriceTimeOrder(s, taker);
    forall i, j | 0 <= i < j < |queue|
      ensures queue[i] != queue[j] && ScoreOf(s.db.orders, queue[i]) <= ScoreOf(s.db.orders, queue[j])
    {
      assert Precedes(s, queue[i], queue[j]);
    }
    forall i | 0 <= i < |queue| ensures queue[i] in s.db.orders && s.db.orders[queue[i]].price.Some? {
      assert queue[i] in queue;
    }
  }

  /** If the head of the queue does not cross, nothing behind it does. */
  lemma WorsePricesDoNotCross(db: Db, id: OrderId, queue: seq<OrderId>)
    requires QueueOk(db, id, queue) && queue != [] && !CanMatch(db.orders[id], db.orders[queue[0]])
    ensures forall i | 0 <= i < |queue| :: !CanMatch(db.orders[id], db.orders[queue[i]])
  {
    forall i | 0 <= i < |queue| ensures !CanMatch(db.orders[id], db.orders[queue[i]]) {
      if i > 0 {
        assert ScoreOf(db.orders, queue[0]) <= ScoreOf(db.orders, queue[i]);
      }
    }
  }

  lemma QueueOkAfterSettle(db: Db, id: OrderId, queue: seq<OrderId>)
    requires LedgerOk(db) && QueueOk(db, id, queue) && queue != []
    requires Settle(db, id, queue[0]).Committed?
    ensures QueueOk(Settle(db, id, queue[0]).db, id, queue[1..])
  {
    hide Settle, LedgerOk;
    SettleIsSafe(db, id, queue[0]);
    assert OrdersOk(db) by { LedgerGivesOrders(db); }
    SettleTouchesTwo(db, id, queue[0]);
    var next := Settle(db, id, queue[0]).db;
    forall i | 0 <= i < |queue| ensures SameTerms(db.orders[queue[i]], next.orders[queue[i]]) {}
    forall i | 1 <= i < |queue| ensures next.orders[queue[i]] == db.orders[queue[i]] {}
  }

  /** What one pass leaves of the queue: everyone it traded with or cancelled is a prefix, all of
      that prefix but its last order is closed, and if the taker is still open nobody left crosses it. */
  ghost predicate Swept(before: Db, after: Db, id: OrderId, queue: seq<OrderId>, reached: nat) {
    && reached <= |queue| && id in before.orders && id in after.orders
    && (0 < reached ==> IsOpen(before.orders[id]))
    && (forall i | 0 <= i < |queue| :: queue[i] in before.orders && queue[i] in after.orders)
    && (forall i | reached <= i < |queue| :: after.orders[queue[i]] == before.orders[queue[i]])
    && (forall i | 0 <= i < reached - 1 :: !IsOpen(after.orders[queue[i]]))
    && (IsOpen(after.orders[id]) ==>
          && (forall i | 0 <= i < reached :: !IsOpen(after.orders[queue[i]]))
          && (forall i | reached <= i < |queue| :: !CanMatch(after.orders[id], after.orders[queue[i]])))
  }

  lemma HeadIsAttempted(db: Db, id: OrderId, queue: seq<OrderId>)
    requires LedgerOk(db) && QueueOk(db, id, queue) && queue != []
    requires CanMatch(db.orders[id], db.orders[queue[0]])
    ensures var tx := Settle(db, id, queue[0]);
            tx.Committed? && Follows(db, tx.db) && LedgerOk(tx.db)
            && (!IsOpen(tx.db.orders[id]) || !IsOpen(tx.db.orders[queue[0]]))
            && forall i | 1 <= i < |queue| :: tx.db.orders[queue[i]] == db.orders[queue[i]]
  {
    hide Settle, CanMatch, Follows, Conserved;
    AttemptClosesOne(db, db.orders[id], db.orders[queue[0]]);
    SettleIsSafe(db, id, queue[0]);
    SettleTouchesTwo(db, id, queue[0]);
  }

  lemma SweptOnceMore(before: Db, next: Db, after: Db, id: OrderId, queue: seq<OrderId>, rest: nat)
    requires queue != [] && id in before.orders && IsOpen(before.orders[id])
    requires Follows(before, next) && Follows(next, after)
    requires forall i | 0 <= i < |queue| :: queue[i] in before.orders
    requires forall i | 1 <= i < |queue| :: next.orders[queue[i]] == before.orders[queue[i]]
    requires !IsOpen(next.orders[id]) || !IsOpen(next.orders[queue[0]])
    requires Swept(next, after, id, queue[1..], rest)
    ensures Swept(before, after, id, queue, rest + 1)
  {
    hide CanMatch, SameTerms;
    forall i | 1 <= i < |queue| ensures queue[i] == queue[1..][i - 1] {}
  }

  lemma {:induction false} PassSweeps(db: Db, id: OrderId, queue: seq<OrderId>) returns (reached: nat)
    requires LedgerOk(db) && QueueOk(db, id, queue)
    ensures Swept(db, Pass(db, id, queue), id, queue, reached)
    decreases |queue|
  {
    hide Settle, LedgerOk, CanMatch;
    if queue == [] || !IsOpen(db.orders[id]) {
      reached := 0;
    } else if !CanMatch(db.orders[id], db.orders[queue[0]]) {
      WorsePricesDoNotCross(db, id, queue);
      reached := 0;
    } else {
      hide QueueOk, Swept, Follows;
      HeadIsAttempted(db, id, queue);
      var next := Settle(db, id, queue[0]).db;
      QueueOkAfterSettle(db, id, queue);
      reached := PassSweeps(next, id, queue[1..]);
      PassIsSafe(next, id, queue[1..]);
      assert queue[0] in db.orders;
      SweptOnceMore(db, next, Pass(next, id, queue[1..]), id, queue, reached);
      reached := reached + 1;
    }
  }

  // ----- What a whole run leaves behind

  /** Price-time priority over a whole run: an order behind another in the queue is touched only if
      every order in front of it has been closed. */
  lemma PriorityIsHonoured(s: State, id: OrderId, i: nat, j: nat)
    requires Valid(s) && id in s.db.orders && IsOpen(s.db.orders[id])
    requires SequenceAt(s.redis, s.db.orders[id].symbol) < 100_000_000_000_000_000_000
    requires i < j < |Queue(s, s.db.orders[id])|
    ensures var queue := Queue(s, s.db.orders[id]);
            var final := FinalDb(s, id).orders;
            && queue[i] in final && queue[j] in final && queue[j] in s.db.orders
            && (final[queue[j]] != s.db.orders[queue[j]] ==> !IsOpen(final[queue[i]]))
  {
    hide LedgerOk, BookSound, BookIndexed, Pass, CanMatch, Queue;
    ValidQueueOk(s, id);
    var queue := Queue(s, s.db.orders[id]);
    var reached := PassSweeps(s.db, id, queue);
    assert queue[i] != id && queue[j] != id;
  }

  /** Nothing that crosses is left behind: if the order is still open after its run, every open
      resting order of another user on the other side is out of its reach. */
  lemma RunLeavesNothingCrossed(s: State, id: OrderId, other: OrderId)
    requires Valid(s) && id in s.db.orders && IsOpen(s.db.orders[id])
    requires SequenceAt(s.redis, s.db.orders[id].symbol) < 100_000_000_000_000_000_000
    requires other in s.redis.hashes
    ensures var final := FinalDb(s, id).orders;
            && id in final && other in final
            && (IsOpen(final[id]) && IsOpen(final[other]) ==> !Crossing(final[id], final[other]))
  {
    hide LedgerOk, BookSound, EntriesHashed, SequencesUnique, Pass, CanMatch, Queue;
    ValidQueueOk(s, id);
    var taker := s.db.orders[id];
    var queue := Queue(s, taker);
    var reached := PassSweeps(s.db, id, queue);
    FinalDbIsSafe(s, id);
    InQueue(s, taker, other);
    var final := FinalDb(s, id).orders;
    if IsOpen(final[id]) && IsOpen(final[other]) && Crossing(final[id], final[other]) {
      CrossingMeansOpposite(taker, s.db.orders[other], final[id], final[other]);
    }
  }

  lemma CrossingMeansOpposite(a: Order, b: Order, finalA: Order, finalB: Order)
    requires SameTerms(a, finalA) && SameTerms(b, finalB) && Crossing(finalA, finalB)
    ensures a.userId != b.userId && KeyOf(b) == OppositeKey(a) && finalA.orderType.Limit?
  {
  }

  // ----- As far as its means go

  /** The owner of a taker can do no more: a seller has no share of the symbol left, a buyer not the price
      of one share of some order it was to trade with. */
  predicate Spent(db: Db, taker: Order, queue: seq<OrderId>) {
    if taker.side == Sell then
      var owned := HoldingKey(taker.userId, taker.symbol);
      owned !in db.holdings || db.holdings[owned].quantity == 0
    else
      && taker.userId in db.balances
      && exists y <- queue ::
           y in db.orders && db.orders[y].price.Some? && db.balances[taker.userId] < db.orders[y].price.value
  }

  /** A settlement cancels a taker only when its owner is spent. */
  lemma SettleCancelsTheSpent(db: Db, taker: Order, maker: Order, price: Cents)
    requires OrdersOk(db) && Solvent(db) && taker.userId != maker.userId && maker.price == Some(price)
    requires taker.id in db.orders && taker == db.orders[taker.id] && IsOpen(taker)
    requires maker.id in db.orders && maker == db.orders[maker.id] && IsOpen(maker)
    requires CanMatch(taker, maker)
    ensures var tx := Settle(db, taker.id, maker.id);
            && tx.Committed? && taker.id in tx.db.orders && maker.id in tx.db.orders
            && tx.db.orders[maker.id].price == Some(price)
            && (tx.db.orders[taker.id].status == Cancelled ==> Spent(tx.db, taker, [maker.id]))
  {
    hide CancelsBuy, CancelsSell, Bought, OrderOk;
    var buy := if taker.side.Buy? then taker else maker;
    var sell := if taker.side.Buy? then maker else taker;
    assert taker.id != maker.id && buy.id != sell.id;
    var funds := Affordable(db, buy, price);
    FloorFits(db.balances[buy.userId], price, funds);
    if 0 < Executable(db, buy, sell, price) {
      HowATradeEnds(db, buy, sell, price);
    }
  }

  lemma WiderQueue(db: Db, taker: Order, again: Order, queue: seq<OrderId>, rest: seq<OrderId>)
    requires SameTerms(taker, again) && Spent(db, again, rest) && forall y <- rest :: y in queue
    ensures Spent(db, taker, queue)
  {
  }

  /** A pass leaves its taker cancelled only if its owner is spent. */
  lemma {:induction false} PassCancelsTheSpent(db: Db, id: OrderId, queue: seq<OrderId>)
    requires LedgerOk(db) && QueueOk(db, id, queue) && IsOpen(db.orders[id])
    ensures var final := Pass(db, id, queue);
            id in final.orders && (final.orders[id].status == Cancelled ==> Spent(final, db.orders[id], queue))
    decreases |queue|
  {
    hide Settle, LedgerOk, CanMatch, Spent, IsOpen, Follows;
    if queue == [] || !CanMatch(db.orders[id], db.orders[queue[0]]) {
      OpenIsNotCancelled(db, id);
    } else {
      var taker, maker := db.orders[id], db.orders[queue[0]];
      LedgerIds(db, id);
      LedgerIds(db, queue[0]);
      LedgerIsSolvent(db);
      SettleCancelsTheSpent(db, taker, maker, maker.price.value);
      HeadIsAttempted(db, id, queue);
      QueueOkAfterSettle(db, id, queue);
      var next := Settle(db, id, queue[0]).db;
      KeepsTerms(db, next, id);
      if IsOpen(next.orders[id]) {
        PassCancelsTheSpent(next, id, queue[1..]);
        if Pass(next, id, queue[1..]).orders[id].status == Cancelled {
          WiderQueue(Pass(next, id, queue[1..]), taker, next.orders[id], queue, queue[1..]);
        }
      } else if next.orders[id].status == Cancelled {
        WiderQueue(next, taker, taker, queue, [maker.id]);
      }
    }
  }

  lemma OpenIsNotCancelled(db: Db, id: OrderId)
    requires id in db.orders && IsOpen(db.orders[id])
    ensures db.orders[id].status != Cancelled
  {
  }

  lemma LedgerIsSolvent(db: Db)
    requires LedgerOk(db)
    ensures OrdersOk(db) && Solvent(db)
  {
  }

  lemma KeepsTerms(before: Db, after: Db, id: OrderId)
    requires Follows(before, after) && id in before.orders
    ensures id in after.orders && SameTerms(before.orders[id], after.orders[id])
  {
  }

  /** The price of the resting order does not content the taker. */
  predicate OutOfReach(taker: Order, maker: Order) {
    && taker.orderType == Limit && taker.price.Some? && maker.price.Some?
    && if taker.side == Buy then taker.price.value < maker.price.value else maker.price.value < taker.price.value
  }

  lemma NoMatchIsOutOfReach(taker: Order, maker: Order)
    requires OrderOk(taker) && maker.price.Some? && KeyOf(maker) == OppositeKey(taker)
    ensures CanMatch(taker, maker) <==> !OutOfReach(taker, maker)
  {
  }

  /** What a whole run comes to: the order is filled; or it is cancelled because its owner is spent; or
      every resting order it could trade with is closed or out of its reach, and then a market order,
      which reaches every price, gives up and a limit order rests. */
  lemma RunGoesAsFarAsItCan(s: State, id: OrderId)
    requires Valid(s) && id in s.db.orders && IsOpen(s.db.orders[id])
    requires SequenceAt(s.redis, s.db.orders[id].symbol) < 100_000_000_000_000_000_000
    ensures var taker, queue, final := s.db.orders[id], Queue(s, s.db.orders[id]), FinalDb(s, id);
            && id in final.orders
            && (|| final.orders[id].status == Filled
                || (final.orders[id].status == Cancelled && Spent(final, taker, queue))
                || (&& (final.orders[id].status == Cancelled <==> taker.orderType == Market)
                    && forall y <- queue :: y in final.orders &&
                        (IsOpen(final.orders[y]) ==> OutOfReach(taker, final.orders[y]))))
  {
    hide LedgerOk, BookSound, BookIndexed, Pass, CanMatch, Queue, Spent, OutOfReach, Swept;
    ValidQueueOk(s, id);
    var taker, queue := s.db.orders[id], Queue(s, s.db.orders[id]);
    var passed := Pass(s.db, id, queue);
    var reached := PassSweeps(s.db, id, queue);
    PassIsSafe(s.db, id, queue);
    PassCancelsTheSpent(s.db, id, queue);
    LedgerIds(passed, id);
    if IsOpen(passed.orders[id]) {
      SweptOutOfReach(s.db, passed, id, queue, reached);
    }
  }

  lemma SweptOutOfReach(before: Db, after: Db, id: OrderId, queue: seq<OrderId>, reached: nat)
    requires LedgerOk(after) && Follows(before, after) && QueueOk(before, id, queue)
    requires Swept(before, after, id, queue, reached) && IsOpen(after.orders[id])
    ensures forall y <- queue ::
              y in after.orders && (IsOpen(after.orders[y]) ==> OutOfReach(before.orders[id], after.orders[y]))
  {
    hide LedgerOk, CanMatch, IsOpen;
    forall y | y in queue
      ensures y in after.orders && (IsOpen(after.orders[y]) ==> OutOfReach(before.orders[id], after.orders[y]))
    {
      var i :| 0 <= i < |queue| && queue[i] == y;
      LedgerIds(after, id);
      assert SameTerms(before.orders[y], after.orders[y]);
      NoMatchIsOutOfReach(after.orders[id], after.orders[y]);
    }
  }
}
