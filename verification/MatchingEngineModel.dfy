/** The matching engine as it runs: an object over the database and the book that sends one command
    after another.  `trail` records what is persisted after each command, that is, every state a
    crashed run can leave behind. */
module MatchingEngineModel {
  import opened Orders
  import opened Settlement
  import opened Ledger
  import opened BookEncoding
  import opened OrderBook
  import opened Matching
  import opened MatchingSteps
  import opened BookScan
  import opened PriceTime

  datatype Settled = Returned(report: Report) | Thrown(failure: Failure)

  datatype MatchOutcome = Completed | Busy

  // ----- Relations between the states of one run

  /** Clean-up only: what the scan may do to the book. */
  ghost predicate Tidied(s: State, t: State) {
    && t.db == s.db && Valid(t)
    && t.redis.sequences == s.redis.sequences
    && (forall id: OrderId :: SameOutcome(s, t, id))
    && (forall key: BookKey, exclude: Option<UserId> ::
          EligibleIds(s.db.orders, exclude, BookOf(t.redis, key)) ==
              EligibleIds(s.db.orders, exclude, BookOf(s.redis, key)))
    && (forall key: BookKey :: |BookOf(t.redis, key)| <= |BookOf(s.redis, key)|)
    && (forall key: BookKey, exclude: Option<UserId> ::
          Behind(s.db.orders, exclude, BookOf(t.redis, key)) <= Behind(s.db.orders, exclude, BookOf(s.redis, key)))
    && MembersStay(s, t)
    && t.redis.hashes.Keys <= s.redis.hashes.Keys
  }

  lemma TidiedIsReflexive(s: State)
    requires Valid(s)
    ensures Tidied(s, s)
  {
    forall id: OrderId ensures SameOutcome(s, s, id) { SameOutcomeIsReflexive(s, id); }
  }

  lemma TidiedIsTransitive(a: State, b: State, c: State)
    requires Tidied(a, b) && Tidied(b, c)
    ensures Tidied(a, c)
  {
    hide Valid, SameOutcome, EligibleIds, Behind, BookOf;
    forall id: OrderId ensures SameOutcome(a, c, id) { SameOutcomeIsTransitive(a, b, c, id); }
  }

  lemma DroppingClosedTidies(s: State, order: Order)
    requires Valid(s) && order.id in s.db.orders && order == s.db.orders[order.id] && !IsOpen(order)
    ensures Tidied(s, State(s.db, SyncOrderBook(s.redis, order)))
  {
    hide LedgerOk, BookSound, BookIndexed, SameOutcome, EligibleIds, RemoveBookEntry, Behind;
    var next := State(s.db, SyncOrderBook(s.redis, order));
    DropHashes(s.redis, order);
    DropKeepsValid(s, order);
    forall id: OrderId ensures SameOutcome(s, next, id) { DropStep(s, order, id); }
    forall key: BookKey, exclude: Option<UserId>
      ensures EligibleIds(s.db.orders, exclude, BookOf(next.redis, key)) ==
        EligibleIds(s.db.orders, exclude, BookOf(s.redis, key))
    {
      DropKeepsEligible(s, order, s.db.orders, exclude, key);
    }
    forall key: BookKey, exclude: Option<UserId>
      ensures Behind(s.db.orders, exclude, BookOf(next.redis, key))
           <= Behind(s.db.orders, exclude, BookOf(s.redis, key))
    {
      DropKeepsBehind(s, order, exclude, key);
    }
    forall key: BookKey
      ensures |BookOf(next.redis, key)| <= |BookOf(s.redis, key)|
    {
      DropNeverGrows(s.redis, order, key);
    }
  }

  function SkippedFor(s: State, taker: Order): nat {
    Skipped(s.db.orders, Some(taker.userId), BookOf(s.redis, OppositeKey(taker)))
  }

  function BehindFor(s: State, taker: Order): nat {
    Behind(s.db.orders, Some(taker.userId), BookOf(s.redis, OppositeKey(taker)))
  }

  /** The most entries a run may ever have to skip, or a new run after it died: a settlement closes one
      maker after the scan has cleared the closed entries ahead of it. */
  function Load(s: State, taker: Order): nat {
    if SkippedFor(s, taker) <= BehindFor(s, taker) then BehindFor(s, taker) + 1 else SkippedFor(s, taker)
  }

  /** The window condition and room in the sequence, for a run on this order that may die `crashes` times. */
  predicate Roomy(s: State, id: OrderId, crashes: nat) {
    id in s.db.orders ==>
      && SkippedFor(s, s.db.orders[id]) < 100
      && (0 < crashes ==> Load(s, s.db.orders[id]) < 100)
      && SequenceAt(s.redis, s.db.orders[id].symbol) + 1 + crashes < 100_000_000_000_000_000_000
  }

  /** What a run for `id` that began in `start` may have persisted at any moment. */
  ghost predicate Reached(start: State, t: State, id: OrderId) {
    && id in start.db.orders && id in t.db.orders
    && Keeps(start, t) && SameOutcome(start, t, id)
    && Load(t, start.db.orders[id]) <= Load(start, start.db.orders[id])
    && SequenceAt(t.redis, start.db.orders[id].symbol) <= SequenceAt(start.redis, start.db.orders[id].symbol) + 1
  }

  /** The same at the head of the loop, where the book has been tidied. */
  ghost predicate AtLoop(start: State, t: State, id: OrderId) {
    && Reached(start, t, id)
    && var taker := t.db.orders[id];
    IsOpen(taker) ==>
      && SkippedFor(t, taker) <= SkippedFor(start, taker)
      && (id !in t.redis.hashes ==> SequenceAt(t.redis, taker.symbol) <= SequenceAt(start.redis, taker.symbol))
  }

  /** How many makers an open taker may still try. */
  function StillQueued(s: State, id: OrderId): nat
    requires id in s.db.orders
  {
    if IsOpen(s.db.orders[id]) then |Queue(s, s.db.orders[id])| else 0
  }

  ghost predicate KeptSince(start: State, trail: seq<State>, n: nat) {
    n <= |trail| && forall i | n <= i < |trail| :: Keeps(start, trail[i])
  }

  ghost predicate ReachedSince(start: State, trail: seq<State>, n: nat, id: OrderId) {
    n <= |trail| && forall i | n <= i < |trail| :: Reached(start, trail[i], id)
  }

  /** `trail` leads from `origin` to `now`, one write to one store at a time. */
  ghost predicate Recorded(origin: State, trail: seq<State>, now: State) {
    var states := [origin] + trail;
    && states[|trail|] == now
    && forall i | 0 <= i < |trail| :: states[i].db == states[i + 1].db || states[i].redis == states[i + 1].redis
  }

  /** Whatever one store holds next, the record goes on. */
  lemma OneStoreMoves(origin: State, trail: seq<State>, now: State)
    requires Recorded(origin, trail, now)
    ensures forall db: Db :: Recorded(origin, trail + [State(db, now.redis)], State(db, now.redis))
    ensures forall redis: Redis :: Recorded(origin, trail + [State(now.db, redis)], State(now.db, redis))
  {
    forall next: State | next.db == now.db || next.redis == now.redis
      ensures Recorded(origin, trail + [next], next)
    {
      var states := [origin] + trail;
      assert [origin] + (trail + [next]) == states + [next];
    }
  }

  class MatchingEngine {
    ghost const origin: State
    var db: Db
    var redis: Redis
    var locks: map<Symbol, nat>
    var lastToken: nat
    var trail: seq<State>

    constructor (db: Db, redis: Redis)
      ensures this.db == db && this.redis == redis && locks == map[] && trail == []
      ensures OnRecord()
    {
      origin := State(db, redis);
      this.db, this.redis := db, redis;
      locks, lastToken, trail := map[], 0, [];
    }

    function Now(): State
      reads this
    {
      State(db, redis)
    }

    /** Every write so far is on the trail. */
    ghost predicate OnRecord()
      reads this
    {
      Recorded(origin, trail, Now())
    }

    method GetOrder(id: OrderId) returns (order: Option<Order>)
      ensures order == if id in db.orders then Some(db.orders[id]) else None
    {
      order := if id in db.orders then Some(db.orders[id]) else None;
    }

    // ----- The book

    method RemoveBookEntry(order: Order)
      requires OnRecord()
      modifies this`redis, this`trail
      ensures redis == OrderBook.RemoveBookEntry(old(redis), order)
      ensures trail == old(trail) + [Now()]
      ensures OnRecord()
    {
      hide Recorded;
      OneStoreMoves(origin, trail, Now());
      var member := MemberOf(redis, order.id);
      redis := DropEntry(redis, order, member);
      trail := trail + [Now()];
    }

    /** Two writes at most: INCR, when the order has no member yet, and the transaction. */
    method SyncOrderBook(order: Order)
      requires OnRecord()
      modifies this`redis, this`trail
      ensures redis == OrderBook.SyncOrderBook(old(redis), order)
      ensures trail == old(trail) + [Now()] ||
              (Restable(order) && order.id !in old(redis).hashes &&
                  trail == old(trail) + [State(db, Increment(old(redis), order.symbol)), Now()])
      ensures OnRecord()
    {
      hide Recorded;
      OneStoreMoves(origin, trail, Now());
      if !Restable(order) {
        RemoveBookEntry(order);
        return;
      }
      var member := MemberOf(redis, order.id);
      if member.None? {
        redis := Increment(redis, order.symbol);
        trail := trail + [Now()];
        member := Some(MemberText(SequenceAt(redis, order.symbol), order.id));
        OneStoreMoves(origin, trail, Now());
      }
      redis := PutEntry(redis, order, member.value);
      trail := trail + [Now()];
    }

    method BestOppositeOrder(symbol: Symbol, incomingSide: Side, exclude: Option<UserId>) returns (order: Option<Order>)
      requires OnRecord()
      modifies this`redis, this`trail
      ensures OnRecord()
      ensures var key := BookKey(symbol, incomingSide.Opposite());
              (order, redis) == Scan(db, old(redis), key, Members(Window(BookOf(old(redis), key))), exclude)
      ensures old(trail) <= trail
      ensures old(Valid(Now())) ==>
                Tidied(old(Now()), Now()) && forall i | |old(trail)| <= i < |trail| :: Tidied(old(Now()), trail[i])
    {
      hide Valid, Tidied, Recorded, OrderBook.SyncOrderBook, Window, Members, MemberText, OrderIdOf, IsOpen, Without;
      var key := BookKey(symbol, incomingSide.Opposite());
      var members := Members(Window(BookOf(redis, key)));
      ghost var start, wasValid := Now(), Valid(Now());
      if wasValid { TidiedIsReflexive(start); }
      var i := 0;
      while i < |members|
        invariant 0 <= i <= |members|
        invariant db == start.db
        invariant Scan(db, redis, key, members[i..], exclude) == Scan(db, start.redis, key, members, exclude)
        invariant old(trail) <= trail && OnRecord()
        invariant wasValid ==> Tidied(start, Now()) && forall j | |old(trail)| <= j < |trail| :: Tidied(start, trail[j])
      {
        ghost var rest := members[i..];
        assert rest[1..] == members[i + 1..] && rest[0] == members[i];
        var id := OrderIdOf(members[i]);
        if id.None? {
          i := i + 1;
          continue;
        }
        var found := GetOrder(id.value);
        if found.None? {
          if wasValid {
            WindowMembersStand(start, key, i);
            assert false;
          }
          OneStoreMoves(origin, trail, Now());
          redis := RemoveMember(redis, key, members[i]);
          trail := trail + [Now()];
        } else if !IsOpen(found.value) {
          ghost var before := Now();
          if wasValid { TidyingStep(start, before, id.value); }
          SyncOrderBook(found.value);
          if wasValid { TidiedIsTransitive(start, before, Now()); }
        } else if Some(found.value.userId) != exclude {
          return found;
        }
        i := i + 1;
      }
      order := None;
    }

    // ----- Settlement, one transaction

    method SetOrderState(tx: Db, order: Order, executed: nat, cancelRemainder: bool) returns (after: Db, updated: Order)
      ensures updated == Orders.SetOrderState(order, executed, cancelRemainder)
      ensures OrderOk(order) && IsOpen(order) && executed <= Remaining(order) ==>
        OrderOk(updated) && SameTerms(order, updated)
      ensures after == tx.(orders := tx.orders[order.id := updated])
    {
      var status := StatusAfterFill(order, executed, cancelRemainder);
      updated := order.(filled := order.filled + executed, status := status);
      after := tx.(orders := tx.orders[order.id := updated]);
    }

    /** Statement by statement; `db` moves at COMMIT only. */
    method Settle(incomingId: OrderId, restingId: OrderId) returns (settled: Settled)
      requires OrdersOk(db) && OnRecord()
      modifies this`db, this`trail
      ensures OnRecord()
      ensures match Settlement.Settle(old(db), incomingId, restingId)
              case Committed(after, report) => db == after && settled == Returned(report)
              case RolledBack(failure) => db == old(db) && settled == Thrown(failure)
      ensures trail == old(trail) + [Now()] || (settled.Thrown? && trail == old(trail))
    {
      hide PayAndDeliver, Bought, Sold, OrderOk, CanMatch, IsOpen, Orders.SetOrderState, Recorded;
      OneStoreMoves(origin, trail, Now());
      var tx := db;
      if incomingId == restingId || incomingId !in tx.orders || restingId !in tx.orders {
        trail := trail + [Now()];
        return Returned(Report(0, []));
      }
      var incoming, resting := tx.orders[incomingId], tx.orders[restingId];
      if !IsOpen(incoming) || !IsOpen(resting) || !CanMatch(incoming, resting) {
        trail := trail + [Now()];
        return Returned(Report(0, [incoming, resting]));
      }
      if incoming.userId == resting.userId {
        trail := trail + [Now()];
        return Returned(Report(0, [incoming]));
      }
      var buyOrder := if incoming.side.Buy? then incoming else resting;
      var sellOrder := if incoming.side.Sell? then incoming else resting;
      if resting.price.None? {
        return Thrown(RestingMarketOrder);
      }
      var price := resting.price.value;
      if buyOrder.userId !in tx.balances || sellOrder.userId !in tx.balances {
        return Thrown(MissingUser);
      }
      var sellerKey := HoldingKey(sellOrder.userId, sellOrder.symbol);
      var sellerAvailable := if sellerKey in tx.holdings then tx.holdings[sellerKey].quantity else 0;
      var buyerAffordable := tx.balances[buyOrder.userId] / price;
      var requested := Min(Remaining(buyOrder), Remaining(sellOrder));
      var quantity := Min(Min(requested, sellerAvailable), buyerAffordable);
      if quantity <= 0 {
        var unfillable := if sellerAvailable <= 0 then sellOrder else buyOrder;
        var cancelled;
        tx, cancelled := SetOrderState(tx, unfillable, 0, true);
        db := tx;
        trail := trail + [Now()];
        return Returned(Report(0, [cancelled, if unfillable.id == incoming.id then resting else incoming]));
      }
      tx := MoveMoneyAndShares(tx, buyOrder, sellOrder, price, quantity, sellerAvailable);
      var cancelBuyRemainder := quantity < requested && buyerAffordable <= quantity;
      var cancelSellRemainder := quantity < requested && sellerAvailable <= quantity;
      var updatedBuy, updatedSell;
      tx, updatedBuy := SetOrderState(tx, buyOrder, quantity, cancelBuyRemainder);
      tx, updatedSell := SetOrderState(tx, sellOrder, quantity, cancelSellRemainder);
      tx := tx.(trades := tx.trades + [Trade(buyOrder.id, sellOrder.id, buyOrder.symbol, price, quantity)]);
      db := tx;
      trail := trail + [Now()];
      settled := Returned(Report(quantity, [updatedBuy, updatedSell]));
    }

    method MoveMoneyAndShares(before: Db, buyOrder: Order, sellOrder: Order, price: Cents, quantity: Quantity,
        sellerAvailable: nat)
      returns (tx: Db)
      requires buyOrder.userId in before.balances && sellOrder.userId in before.balances
      requires buyOrder.userId != sellOrder.userId
      requires sellerAvailable == SharesOf(before, sellOrder.userId, sellOrder.symbol) && quantity <= sellerAvailable
      ensures tx == PayAndDeliver(before, buyOrder, sellOrder, price, quantity)
      ensures tx.orders == before.orders && tx.trades == before.trades
    {
      hide RoundedQuotient;
      var total := quantity * price;
      tx := before;
      tx := tx.(balances := tx.balances[buyOrder.userId := tx.balances[buyOrder.userId] - total]);
      tx := tx.(balances := tx.balances[sellOrder.userId := tx.balances[sellOrder.userId] + total]);
      tx := Upsert(tx, buyOrder.userId, buyOrder.symbol, quantity, price);
      var sellerKey := HoldingKey(sellOrder.userId, sellOrder.symbol);
      if sellerAvailable == quantity {
        tx := tx.(holdings := tx.holdings[sellerKey := Holding(0, 0)]);
      } else {
        var left := tx.holdings[sellerKey].(quantity := sellerAvailable - quantity);
        tx := tx.(holdings := tx.holdings[sellerKey := left]);
      }
    }

    method Upsert(tx: Db, user: UserId, symbol: Symbol, quantity: Quantity, price: Cents) returns (after: Db)
      ensures var bought := Bought(HoldingOf(tx, user, symbol), quantity, price);
              after == tx.(holdings := tx.holdings[HoldingKey(user, symbol) := bought])
    {
      var key := HoldingKey(user, symbol);
      if key !in tx.holdings {
        after := tx.(holdings := tx.holdings[key := Holding(quantity, price)]);
      } else {
        var old' := tx.holdings[key];
        var average := RoundedQuotient(old'.quantity * old'.averageCents + quantity * price, old'.quantity + quantity);
        after := tx.(holdings := tx.holdings[key := Holding(old'.quantity + quantity, average)]);
      }
    }

    method CancelOrder(id: OrderId) returns (cancelled: Option<Order>)
      requires OnRecord()
      modifies this`db, this`trail
      ensures OnRecord()
      ensures db == Cancel(old(db), id)
      ensures cancelled
           == if id in old(db).orders && OpenStatus(old(db).orders[id].status) then Some(db.orders[id]) else None
      ensures trail == old(trail) + [Now()]
    {
      hide Recorded;
      OneStoreMoves(origin, trail, Now());
      cancelled := None;
      if id in db.orders && OpenStatus(db.orders[id].status) {
        db := db.(orders := db.orders[id := db.orders[id].(status := Cancelled)]);
        cancelled := Some(db.orders[id]);
      }
      trail := trail + [Now()];
    }

    // ----- The run

    /** Tokens are numbered as they are drawn; none in use is yet to come. */
    predicate TokensDrawn()
      reads this
    {
      forall symbol <- locks :: locks[symbol] <= lastToken
    }

    /** Takes the lock if it is free, under a token that no other lock has ever had. */
    method AcquireStockLock(symbol: Symbol) returns (token: Option<nat>)
      requires TokensDrawn()
      modifies this`locks, this`lastToken
      ensures TokensDrawn()
      ensures token.Some? <==> symbol !in old(locks)
      ensures token.Some? ==> old(lastToken) < token.value
      ensures token.Some? ==> forall other <- old(locks) :: old(locks)[other] != token.value
      ensures locks == if token.Some? then old(locks)[symbol := token.value] else old(locks)
    {
      token := None;
      if symbol !in locks {
        lastToken := lastToken + 1;
        locks := locks[symbol := lastToken];
        token := Some(lastToken);
      }
    }

    /** Afterwards this token holds nothing here, and every lock of another holder stays. */
    method ReleaseStockLock(symbol: Symbol, token: nat)
      modifies this`locks
      ensures symbol in locks ==> locks[symbol] != token
      ensures forall other <- old(locks) ::
                other != symbol || old(locks)[other] != token ==> other in locks && locks[other] == old(locks)[other]
      ensures forall other <- locks :: other in old(locks) && locks[other] == old(locks)[other]
    {
      if symbol in locks && locks[symbol] == token {
        locks := locks - {symbol};
      }
    }

    /** A run for one order.  Whatever the book holds, every state it persists keeps the book an index of
        the resting orders, each in its place.  If the window and the sequence have room, a completed run
        leaves exactly what the specification says, and every state it persisted on the way is one from
        which a new run leaves the same behind. */
    method MatchOrder(orderId: OrderId) returns (outcome: MatchOutcome, ghost attempts: nat, ghost rounds: nat)
      requires Valid(Now()) && TokensDrawn() && OnRecord()
      modifies this
      ensures TokensDrawn() && OnRecord()
      ensures Keeps(old(Now()), Now())
      ensures old(trail) <= trail
      ensures KeptSince(old(Now()), trail, |old(trail)|)
      ensures outcome.Busy? ==> Now() == old(Now()) && trail == old(trail)
      ensures outcome.Busy? <==>
        orderId in old(db).orders && IsOpen(old(db).orders[orderId]) && old(db).orders[orderId].symbol in old(locks)
      ensures outcome.Completed? ==> locks == old(locks)
      ensures rounds <= attempts + 1 && attempts <= OpenOrders(old(db))
      ensures Roomy(old(Now()), orderId, 0) && outcome.Completed? ==> Completes(old(Now()), orderId, Now())
      ensures Roomy(old(Now()), orderId, 0) && orderId in old(db).orders ==>
        Reached(old(Now()), Now(), orderId) && attempts <= |Queue(old(Now()), old(db).orders[orderId])|
      ensures Roomy(old(Now()), orderId, 0) ==> ReachedSince(old(Now()), trail, |old(trail)|, orderId)
    {
      hide Reached, Valid, Completes, Queue, Keeps, Roomy, OpenOrders, Recorded;
      attempts, rounds := 0, 0;
      KeepsItself(Now());
      var initialOrder := GetOrder(orderId);
      if initialOrder.None? || !IsOpen(initialOrder.value) {
        ClosedCompletes(Now(), orderId);
        if initialOrder.Some? { BeginsAtLoop(Now(), orderId); }
        outcome := Completed;
        return;
      }
      BeginsAtLoop(Now(), orderId);
      var symbol := initialOrder.value.symbol;
      var lockToken := AcquireStockLock(symbol);
      if lockToken.None? {
        outcome := Busy;
        return;
      }
      attempts, rounds := MatchLocked(orderId);
      ReleaseStockLock(symbol, lockToken.value);
      assert locks == old(locks);
      outcome := Completed;
    }

    /** The loop over the orders a settlement reports. */
    method SyncReported(orders: seq<Order>, ghost start: State, ghost taker: OrderId, ghost maker: OrderId,
        ghost roomy: bool)
      requires OnRecord() && Valid(start) && Keeps(start, Now()) && ReportsBoth(db, orders, taker, maker)
      requires roomy ==>
                 && taker != maker && Roomy(start, taker, 0) && Syncing(start, Now(), Now(), taker, maker, [])
                 && taker in db.orders && maker in db.orders && KeyOf(db.orders[maker]) == OppositeKey(db.orders[taker])
      modifies this`redis, this`trail
      ensures Keeps(start, Now()) && old(trail) <= trail && OnRecord()
      ensures KeptSince(start, trail, |old(trail)|)
      ensures roomy ==> Syncing(start, old(Now()), Now(), taker, maker, orders)
      ensures roomy ==> ReachedSince(start, trail, |old(trail)|, taker)
    {
      hide Valid, Keeps, Reached, Syncing, ReportsBoth, Roomy, Recorded, OrderBook.SyncOrderBook, BookOf, IsOpen;
      ghost var base := Now();
      for k := 0 to |orders|
        invariant Keeps(start, Now()) && old(trail) <= trail && OnRecord()
        invariant KeptSince(start, trail, |old(trail)|)
        invariant roomy ==> Syncing(start, base, Now(), taker, maker, orders[..k])
        invariant roomy ==> ReachedSince(start, trail, |old(trail)|, taker)
      {
        ReportIsCurrent(db, orders, taker, maker, k);
        SyncKeepsStart(start, Now(), orders[k].id);
        if roomy { SyncingStep(start, base, Now(), taker, maker, orders, k); }
        SyncOrderBook(orders[k]);
      }
      assert orders[..|orders|] == orders;
    }

    /** `attempts` counts the settlements, `rounds` the times round the loop. */
    method MatchLocked(orderId: OrderId) returns (ghost attempts: nat, ghost rounds: nat)
      requires Valid(Now()) && orderId in db.orders && OnRecord()
      modifies this`db, this`redis, this`trail
      ensures Keeps(old(Now()), Now()) && old(trail) <= trail && OnRecord()
      ensures KeptSince(old(Now()), trail, |old(trail)|)
      ensures rounds <= attempts + 1 && attempts <= OpenOrders(old(db))
      ensures Roomy(old(Now()), orderId, 0) ==>
        Completes(old(Now()), orderId, Now()) && Reached(old(Now()), Now(), orderId)
      ensures Roomy(old(Now()), orderId, 0) ==> attempts <= |Queue(old(Now()), old(db).orders[orderId])|
      ensures Roomy(old(Now()), orderId, 0) ==> ReachedSince(old(Now()), trail, |old(trail)|, orderId)
    {
      hide Valid, Keeps, Reached, AtLoop, Syncing, ReportsBoth, Tidied, Stopped, Completes, Roomy, OpenOrders;
      hide KeptSince, ReachedSince, OrderBook.SyncOrderBook, Settlement.Settle, Scan, Queue, CanMatch, OrdersOk;
      hide Window, Members, BookOf, IsOpen, Recorded;
      ghost var start, roomy := Now(), Roomy(Now(), orderId, 0);
      attempts, rounds := 0, 0;
      KeepsItself(start);
      NothingSince(start, trail, orderId);
      var incoming := GetOrder(orderId);
      BeginsAtLoop(start, orderId);
      if incoming.None? || !IsOpen(incoming.value) {
        ClosedCompletes(Now(), orderId);
        return;
      }
      while incoming.Some? && IsOpen(incoming.value)
        invariant Keeps(start, Now()) && old(trail) <= trail && OnRecord()
        invariant orderId in db.orders && incoming == Some(db.orders[orderId])
        invariant KeptSince(start, trail, |old(trail)|)
        invariant rounds == attempts && attempts + OpenOrders(db) <= OpenOrders(start.db)
        invariant roomy ==> AtLoop(start, Now(), orderId)
        invariant roomy ==> attempts + StillQueued(Now(), orderId) <= |Queue(start, start.db.orders[orderId])|
        invariant roomy ==> ReachedSince(start, trail, |old(trail)|, orderId)
        decreases OpenOrders(db)
      {
        rounds := rounds + 1;
        ghost var head, before := Now(), trail;
        KeepsIsValid(start, head, orderId);
        var resting := BestOppositeOrder(incoming.value.symbol, incoming.value.side, Some(incoming.value.userId));
        ghost var tidy := Now();
        TidiedSince(start, head, tidy, before, trail, |old(trail)|, orderId, roomy);
        if roomy {
          ScanAnswers(start, head, tidy, orderId, resting);
        }
        if resting.None? {
          break;
        }
        if !CanMatch(incoming.value, resting.value) {
          break;
        }
        attempts := attempts + 1;
        ghost var scanned := trail;
        SettledKeeps(start, head, tidy, orderId, resting.value);
        if roomy { SettledReport(start, tidy, orderId, resting.value.id); }
        var settled := Settle(incoming.value.id, resting.value.id);
        ghost var base := Now();
        var report := settled.report;
        OneSince(start, scanned, base, |old(trail)|, orderId, roomy);
        ghost var settledTrail := trail;
        SyncReported(report.orders, start, orderId, resting.value.id, roomy);
        SinceGrows(start, settledTrail, trail, |old(trail)|, orderId, roomy);
        incoming := GetOrder(orderId);
        // `matchOrder` also drops the entry of a maker whose row has vanished; orders are never
        // deleted, so `report.orders` is never empty here.
        if roomy { SyncedBothReachesLoop(start, tidy, base, Now(), orderId, resting.value.id, report.orders); }
      }
      KeepsIsValid(start, Now(), orderId);
      if incoming.None? || !IsOpen(incoming.value) {
        if roomy { ClosedAfterLoop(start, Now(), orderId); }
        return;
      }
      ghost var matched := trail;
      FinishOpen(incoming.value, start, roomy);
      SinceGrows(start, matched, trail, |old(trail)|, orderId, roomy);
    }

    /** No liquidity is left: a market order gives up its remainder, a limit order rests. */
    method FinishOpen(incoming: Order, ghost start: State, ghost roomy: bool)
      requires Valid(start) && Keeps(start, Now()) && OnRecord()
      requires incoming.id in db.orders && incoming == db.orders[incoming.id] && IsOpen(incoming)
      requires roomy ==> AtLoop(start, Now(), incoming.id) && Stopped(Now(), incoming.id)
      requires roomy ==> Roomy(start, incoming.id, 0)
      modifies this`db, this`redis, this`trail
      ensures Keeps(start, Now()) && old(trail) <= trail && OnRecord()
      ensures KeptSince(start, trail, |old(trail)|)
      ensures roomy ==> Completes(start, incoming.id, Now()) && Reached(start, Now(), incoming.id)
      ensures roomy ==> ReachedSince(start, trail, |old(trail)|, incoming.id)
    {
      hide Valid, Keeps, Reached, AtLoop, Stopped, Completes, Roomy, Recorded, OrderBook.SyncOrderBook, IsOpen;
      ghost var last := Now();
      if incoming.orderType.Market? {
        if roomy { MarketFinish(start, last, incoming.id); }
        CancelKeepsStart(start, last, incoming.id);
        var cancelled := CancelOrder(incoming.id);
        if cancelled.Some? {
          SyncKeepsStart(start, Now(), incoming.id);
          SyncOrderBook(cancelled.value);
        }
        return;
      }
      if roomy { LimitFinish(start, last, incoming.id); }
      SyncKeepsStart(start, last, incoming.id);
      SyncOrderBook(incoming);
    }
  }

  /** A scan over members that name orders only tidies the book. */
  lemma {:induction false} ScanTidies(s: State, key: BookKey, members: seq<string>, exclude: Option<UserId>)
    requires Valid(s)
    requires forall m <- members :: OrderIdOf(m).Some? && OrderIdOf(m).value in s.db.orders
    ensures Tidied(s, State(s.db, Scan(s.db, s.redis, key, members, exclude).1))
    decreases |members|
  {
    hide Valid, Tidied, OrderBook.SyncOrderBook, OrderIdOf, IsOpen;
    TidiedIsReflexive(s);
    if members == [] {
    } else {
      var id := OrderIdOf(members[0]).value;
      assert members[0] in members && forall m <- members[1..] :: m in members;
      if !IsOpen(s.db.orders[id]) {
        var next := State(s.db, OrderBook.SyncOrderBook(s.redis, s.db.orders[id]));
        TidyingStep(s, s, id);
        TidiedIsValid(s, next);
        ScanTidies(next, key, members[1..], exclude);
        TidiedIsTransitive(s, next, State(s.db, Scan(s.db, s.redis, key, members, exclude).1));
      } else if Some(s.db.orders[id].userId) == exclude {
        ScanTidies(s, key, members[1..], exclude);
      }
    }
  }

  lemma TidiedIsValid(s: State, t: State)
    requires Tidied(s, t)
    ensures Valid(t) && t.db == s.db
  {
  }

  lemma WindowTidies(s: State, key: BookKey, exclude: Option<UserId>)
    requires Valid(s)
    ensures Tidied(s, State(s.db, Scan(s.db, s.redis, key, Members(Window(BookOf(s.redis, key))), exclude).1))
  {
    hide Valid, Tidied, Scan, Window, BookOf;
    var members := Members(Window(BookOf(s.redis, key)));
    forall m | m in members ensures OrderIdOf(m).Some? && OrderIdOf(m).value in s.db.orders {
      var i :| 0 <= i < |members| && members[i] == m;
      WindowMembersStand(s, key, i);
    }
    ScanTidies(s, key, members, exclude);
  }

  // ----- What a run has persisted since some moment

  lemma NothingSince(start: State, trail: seq<State>, id: OrderId)
    ensures KeptSince(start, trail, |trail|) && ReachedSince(start, trail, |trail|, id)
  {
  }

  lemma SinceGrows(start: State, before: seq<State>, after: seq<State>, n: nat, id: OrderId, roomy: bool)
    requires KeptSince(start, before, n) && before <= after && KeptSince(start, after, |before|)
    requires roomy ==> ReachedSince(start, before, n, id) && ReachedSince(start, after, |before|, id)
    ensures KeptSince(start, after, n) && (roomy ==> ReachedSince(start, after, n, id))
  {
    hide Keeps, Reached;
    forall i | n <= i < |after| ensures Keeps(start, after[i]) && (roomy ==> Reached(start, after[i], id)) {
      if i < |before| {
        assert after[i] == before[i];
      }
    }
  }

  lemma OneSince(start: State, before: seq<State>, next: State, n: nat, id: OrderId, roomy: bool)
    requires KeptSince(start, before, n) && Keeps(start, next)
    requires roomy ==> ReachedSince(start, before, n, id) && Reached(start, next, id)
    ensures KeptSince(start, before + [next], n) && (roomy ==> ReachedSince(start, before + [next], n, id))
  {
    hide Keeps, Reached;
  }

  lemma TidiedSince(start: State, head: State, tidy: State, before: seq<State>, after: seq<State>, n: nat, id: OrderId,
      roomy: bool)
    requires Valid(start) && Keeps(start, head) && Tidied(head, tidy)
    requires before <= after && forall i | |before| <= i < |after| :: Tidied(head, after[i])
    requires KeptSince(start, before, n) && (roomy ==> AtLoop(start, head, id) && ReachedSince(start, before, n, id))
    ensures Keeps(start, tidy) && KeptSince(start, after, n)
    ensures roomy ==> AtLoop(start, tidy, id) && ReachedSince(start, after, n, id)
  {
    hide Valid, Keeps, Tidied, Reached, AtLoop;
    TidiedKeepsStart(start, head);
    if roomy {
      TidiedKeepsLoop(start, head, id);
    }
    SinceGrows(start, before, after, n, id, roomy);
  }

  // ----- What holds with or without room

  function OpenOrders(db: Db): nat {
    |set id | id in db.orders && IsOpen(db.orders[id])|
  }

  /** Closing one of two open orders and opening none leaves fewer open. */
  lemma FewerOpen(before: Db, after: Db, a: OrderId, b: OrderId)
    requires Follows(before, after) && after.orders.Keys == before.orders.Keys
    requires a in before.orders && b in before.orders && IsOpen(before.orders[a]) && IsOpen(before.orders[b])
    requires !IsOpen(after.orders[a]) || !IsOpen(after.orders[b])
    ensures OpenOrders(after) < OpenOrders(before)
  {
    hide IsOpen;
    var was := set id | id in before.orders && IsOpen(before.orders[id]);
    var are := set id | id in after.orders && IsOpen(after.orders[id]);
    var gone := if IsOpen(after.orders[a]) then b else a;
    assert are <= was - {gone};
    SubsetIsSmaller(are, was - {gone});
  }

  lemma {:induction false} SubsetIsSmaller(a: set<OrderId>, b: set<OrderId>)
    requires a <= b
    ensures |a| <= |b|
  {
    if a == {} {
    } else {
      var x :| x in a;
      SubsetIsSmaller(a - {x}, b - {x});
    }
  }

  lemma KeepsIsValid(start: State, s: State, id: OrderId)
    requires Keeps(start, s) && id in s.db.orders
    ensures Valid(s) && OrdersOk(s.db) && s.db.orders[id].id == id
  {
    LedgerIds(s.db, id);
  }

  lemma TidiedKeepsStart(start: State, s: State)
    requires Valid(start) && Keeps(start, s)
    ensures forall t :: Tidied(s, t) ==> Keeps(start, t)
  {
    hide Valid, Follows, MembersStay;
    forall t | Tidied(s, t) ensures Keeps(start, t) {
      KeepsItself(s);
      KeepsIsTransitive(start, s, t);
    }
  }

  lemma SyncKeepsStart(start: State, s: State, id: OrderId)
    requires Valid(start) && Keeps(start, s) && id in s.db.orders
    ensures Keeps(start, State(s.db, OrderBook.SyncOrderBook(s.redis, s.db.orders[id])))
    ensures Keeps(start, State(s.db, Increment(s.redis, s.db.orders[id].symbol)))
  {
    hide Valid, Follows, MembersStay, OrderBook.SyncOrderBook, Increment;
    SyncKeeps(s, id);
    IncrementKeeps(s, s.db.orders[id].symbol);
    KeepsIsTransitive(start, s, State(s.db, OrderBook.SyncOrderBook(s.redis, s.db.orders[id])));
    KeepsIsTransitive(start, s, State(s.db, Increment(s.redis, s.db.orders[id].symbol)));
  }

  lemma CancelKeepsStart(start: State, s: State, id: OrderId)
    requires Valid(start) && Keeps(start, s)
    ensures Keeps(start, State(Cancel(s.db, id), s.redis))
  {
    hide Valid, Follows, MembersStay;
    CancelKeeps(s, id);
    KeepsIsTransitive(start, s, State(Cancel(s.db, id), s.redis));
  }

  lemma ReportIsCurrent(db: Db, orders: seq<Order>, id: OrderId, maker: OrderId, k: nat)
    requires ReportsBoth(db, orders, id, maker) && k < |orders|
    ensures orders[k].id in db.orders && orders[k] == db.orders[orders[k].id]
  {
    assert orders[k] in orders;
  }

  /** Whatever a scan of a valid book returns is the row of an open order of somebody else that has a price. */
  lemma FoundMaker(s: State, taker: Order, resting: Order)
    requires Valid(s)
    requires var members := Members(Window(BookOf(s.redis, OppositeKey(taker))));
             Scan(s.db, s.redis, OppositeKey(taker), members, Some(taker.userId)).0 == Some(resting)
    ensures resting.id in s.db.orders && resting == s.db.orders[resting.id] && IsOpen(resting)
    ensures resting.userId != taker.userId && resting.price.Some?
  {
    hide LedgerOk, BookIndexed, Sorted, Scan, IsOpen;
    var key := OppositeKey(taker);
    var book := BookOf(s.redis, key);
    ScanFindsBest(s.db, s.redis, key, Window(book), Some(taker.userId));
    var ids := EligibleIds(s.db.orders, Some(taker.userId), Window(book));
    EligibleMembers(s.db.orders, Some(taker.userId), Window(book), ids[0]);
    var e :| e in Window(book) && Eligible(s.db.orders, Some(taker.userId), e) && OrderIdOf(e.member) == Some(ids[0]);
    assert e in book && Stands(s.db.orders, key, e);
    LedgerIds(s.db, ids[0]);
  }

  /** A settlement attempt of the loop commits, closes one of the two orders and reports both rows. */
  lemma SettledKeeps(start: State, s: State, t: State, id: OrderId, resting: Order)
    requires Valid(start) && Keeps(start, s) && Keeps(start, t) && Tidied(s, t)
    requires id in s.db.orders && IsOpen(s.db.orders[id]) && CanMatch(s.db.orders[id], resting)
    requires var taker := s.db.orders[id];
             var members := Members(Window(BookOf(s.redis, OppositeKey(taker))));
             Scan(s.db, s.redis, OppositeKey(taker), members, Some(taker.userId)).0 == Some(resting)
    ensures OrdersOk(t.db) && id in t.db.orders && t.db.orders[id].id == id
    ensures var tx := Settlement.Settle(t.db, id, resting.id);
            && tx.Committed? && id in tx.db.orders
            && Keeps(start, State(tx.db, t.redis))
            && ReportsBoth(tx.db, tx.report.orders, id, resting.id)
            && OpenOrders(tx.db) < OpenOrders(t.db)
  {
    hide Valid, Follows, MembersStay, Settlement.Settle, Scan, ReportsBoth, OpenOrders, CanMatch, IsOpen, Conserved;
    KeepsIsValid(start, s, id);
    var taker := s.db.orders[id];
    FoundMaker(s, taker, resting);
    LedgerOfValid(s);
    MakerIsAnother(taker, resting);
    SettleReportsBoth(s.db, id, resting.id);
    AttemptClosesOne(s.db, taker, resting);
    SettleIsSafe(s.db, id, resting.id);
    SettleTouchesTwo(s.db, id, resting.id);
    var tx := Settlement.Settle(s.db, id, resting.id);
    FewerOpen(s.db, tx.db, id, resting.id);
    SettleKeeps(t, id, resting.id);
    KeepsIsTransitive(start, t, State(tx.db, t.redis));
  }

  lemma LedgerOfValid(s: State)
    requires Valid(s)
    ensures LedgerOk(s.db)
  {
  }

  lemma MakerIsAnother(taker: Order, maker: Order)
    requires CanMatch(taker, maker)
    ensures taker.id == maker.id ==> taker != maker
    ensures SameTerms(taker, taker) && SameTerms(maker, maker)
  {
  }

  lemma WindowMembersStand(s: State, key: BookKey, i: nat)
    requires Valid(s) && i < |Window(BookOf(s.redis, key))|
    ensures var id := OrderIdOf(Members(Window(BookOf(s.redis, key)))[i]); id.Some? && id.value in s.db.orders
  {
    var e := Window(BookOf(s.redis, key))[i];
    assert e in BookOf(s.redis, key);
    assert Stands(s.db.orders, key, e);
  }

  lemma TidyingStep(start: State, s: State, id: OrderId)
    requires Tidied(start, s) && id in s.db.orders && !IsOpen(s.db.orders[id])
    ensures Tidied(s, State(s.db, OrderBook.SyncOrderBook(s.redis, s.db.orders[id])))
  {
    LedgerIds(s.db, id);
    DroppingClosedTidies(s, s.db.orders[id]);
  }

  // ----- Crash and retry

  /** A state that a run has persisted leaves room for a new run with one crash less to spare, and what
      completes the order from there completes it from the start. */
  lemma RetryIsInvisible(start: State, crashed: State, retried: State, id: OrderId, spare: nat)
    requires Reached(start, crashed, id) && Roomy(start, id, 1 + spare)
    ensures Valid(crashed) && Roomy(crashed, id, spare)
    ensures Completes(crashed, id, retried) <==> Completes(start, id, retried)
  {
    hide Valid, FinalDb, FinalView, View;
    SkippedForTerms(crashed, start.db.orders[id], crashed.db.orders[id]);
  }

  lemma SameOutcomeCompletes(start: State, later: State, done: State, id: OrderId)
    requires SameOutcome(start, later, id) && Completes(later, id, done)
    ensures Completes(start, id, done)
  {
    hide FinalDb, FinalView, View;
  }

  /** What is left of a run that died, seen from the first run of all. */
  lemma OneMoreCrash(start: State, at: State, crashed: State, id: OrderId, spare: nat)
    requires Valid(start) && SameOutcome(start, at, id) && Keeps(start, at)
    requires Reached(at, crashed, id) && Roomy(at, id, 1 + spare)
    ensures Roomy(crashed, id, spare) && SameOutcome(start, crashed, id) && Keeps(start, crashed)
  {
    hide Valid, SameOutcome, MembersStay, Follows, Completes, Roomy;
    RetryIsInvisible(at, crashed, crashed, id, spare);
    SameOutcomeIsTransitive(start, at, crashed, id);
    KeepsIsTransitive(start, at, crashed);
  }

  /** Crash and retry: run after run dies, the i-th after `crashes[i]` writes, each leaving its last
      write to the next, until one is left alone.  What that one leaves is what a single undisturbed
      run would have left, and an order that rests throughout keeps its member. */
  method MatchWithCrashes(db: Db, redis: Redis, orderId: OrderId, crashes: seq<nat>) returns (done: State)
    requires Valid(State(db, redis)) && Roomy(State(db, redis), orderId, |crashes|)
    ensures Completes(State(db, redis), orderId, done) && Keeps(State(db, redis), done)
  {
    hide Valid, Keeps, SameOutcome, Roomy, Reached, Completes, Queue;
    ghost var start := State(db, redis);
    var at := State(db, redis);
    SameOutcomeIsReflexive(start, orderId);
    KeepsItself(start);
    for i := 0 to |crashes|
      invariant Valid(at) && SameOutcome(start, at, orderId) && Roomy(at, orderId, |crashes| - i) && Keeps(start, at)
    {
      ghost var spare := |crashes| - i - 1;
      assert Roomy(at, orderId, 0) by { LessRoom(at, orderId, 1 + spare, 0); }
      LessRoom(at, orderId, 1 + spare, spare);
      var engine := new MatchingEngine(at.db, at.redis);
      var outcome, _, _ := engine.MatchOrder(orderId);
      var writes := if crashes[i] < |engine.trail| then crashes[i] else |engine.trail|;
      if 0 < writes {
        OneMoreCrash(start, at, engine.trail[writes - 1], orderId, spare);
        at := engine.trail[writes - 1];
        KeptIsValid(start, at);
      }
    }
    var engine := new MatchingEngine(at.db, at.redis);
    var outcome, _, _ := engine.MatchOrder(orderId);
    done := engine.Now();
    SameOutcomeCompletes(start, at, done, orderId);
    KeepsAfter(start, at, done);
  }

  lemma LessRoom(s: State, id: OrderId, more: nat, less: nat)
    requires Roomy(s, id, more) && less <= more
    ensures Roomy(s, id, less)
  {
    hide SequenceAt, Load;
  }

  lemma KeptIsValid(start: State, s: State)
    requires Keeps(start, s)
    ensures Valid(s)
  {
  }

  lemma KeepsAfter(start: State, at: State, done: State)
    requires Valid(start) && Keeps(start, at) && Keeps(at, done)
    ensures Keeps(start, done)
  {
    hide Valid, Keeps;
    KeepsIsTransitive(start, at, done);
  }

  /** Running a completed order again changes nothing. */
  lemma RerunChangesNothing(start: State, done: State, id: OrderId)
    requires Reached(start, done, id) && Completes(start, id, done)
    ensures Completes(done, id, done)
  {
    hide Valid, FinalDb, FinalView, View;
  }

  // ----- The proof of one run, step by step

  lemma ClosedCompletes(s: State, id: OrderId)
    requires Valid(s) && (id in s.db.orders ==> !IsOpen(s.db.orders[id]))
    ensures Completes(s, id, s)
  {
  }

  lemma BeginsAtLoop(s: State, id: OrderId)
    requires Valid(s) && id in s.db.orders
    ensures AtLoop(s, s, id) && Reached(s, s, id)
  {
    hide Valid, FinalDb, FinalView;
    SameOutcomeIsReflexive(s, id);
  }

  lemma AtLoopIsValid(start: State, s: State, id: OrderId)
    requires AtLoop(start, s, id)
    ensures Valid(s) && id in s.db.orders && s.db.orders[id].id == id && OrdersOk(s.db)
    ensures id in start.db.orders && SameTerms(start.db.orders[id], s.db.orders[id])
  {
  }

  lemma HashedRests(s: State, id: OrderId)
    requires Valid(s) && id in s.redis.hashes && IsOpen(s.db.orders[id])
    ensures Restable(s.db.orders[id])
  {
    LedgerIds(s.db, id);
  }

  lemma TidiedReached(start: State, s: State, t: State, id: OrderId)
    requires AtLoop(start, s, id) && Tidied(s, t)
    ensures AtLoop(start, t, id)
  {
    hide Valid, EligibleIds;
    SameOutcomeIsTransitive(start, s, t, id);
    var taker := s.db.orders[id];
    if id in s.redis.hashes && IsOpen(taker) { HashedRests(s, id); }
    assert SkippedFor(t, start.db.orders[id]) <= SkippedFor(s, start.db.orders[id]);
    assert SkippedFor(t, taker) <= SkippedFor(s, taker);
  }

  lemma TidiedKeepsLoop(start: State, s: State, id: OrderId)
    requires AtLoop(start, s, id)
    ensures forall t :: Tidied(s, t) ==> AtLoop(start, t, id) && Reached(start, t, id)
  {
    hide Tidied, Reached;
    forall t | Tidied(s, t) ensures AtLoop(start, t, id) && Reached(start, t, id) {
      TidiedReached(start, s, t, id);
    }
  }

  /** With fewer than a hundred skipped entries the scan answers with the head of the queue. */
  lemma ScanAnswers(start: State, s: State, t: State, id: OrderId, resting: Option<Order>)
    requires AtLoop(start, s, id) && Tidied(s, t) && Roomy(start, id, 0) && IsOpen(s.db.orders[id])
    requires var taker := s.db.orders[id];
             var members := Members(Window(BookOf(s.redis, OppositeKey(taker))));
             (resting, t.redis) == Scan(s.db, s.redis, OppositeKey(taker), members, Some(taker.userId))
    ensures var taker := t.db.orders[id];
            var queue := Queue(t, taker);
            && taker == s.db.orders[id] && queue == Queue(s, taker)
            && (resting.None? ==> queue == [] && Stopped(t, id))
            && (resting.Some? ==> queue != [] && queue[0] in t.db.orders && resting.value == t.db.orders[queue[0]]
                                  && resting.value.id == queue[0]
                                  && SkippedFor(t, taker) < Load(start, start.db.orders[id])
                                  && (!CanMatch(taker, resting.value) ==> Stopped(t, id)))
  {
    hide LedgerOk, BookSound, BookIndexed, SameOutcome, EligibleIds, Scan, Behind;
    var taker := s.db.orders[id];
    var key := OppositeKey(taker);
    var book := BookOf(s.redis, key);
    var exclude := Some(taker.userId);
    assert SkippedFor(s, taker) < 100;
    ScanFindsBest(s.db, s.redis, key, Window(book), exclude);
    FewSkippedIsSound(s.db.orders, exclude, book);
    EligibleAreOrders(s.db.orders, exclude, book);
    assert Queue(t, taker) == EligibleIds(s.db.orders, exclude, book);
    if resting.Some? {
      LedgerIds(s.db, EligibleIds(s.db.orders, exclude, book)[0]);
      FindingClears(s, key, exclude);
    }
  }

  /** While the orders a settlement changed are being synced. */
  ghost predicate Syncing(start: State, base: State, s: State, id: OrderId, maker: OrderId, done: seq<Order>) {
    && Reached(start, s, id) && s.db == base.db && maker in s.db.orders
    && var taker := s.db.orders[id];
    var key := OppositeKey(taker);
    && Queue(s, taker) == Queue(base, taker)
    && |BookOf(s.redis, key)| <= |BookOf(base.redis, key)|
    && ((exists o <- done :: o.id == maker) && !IsOpen(s.db.orders[maker]) ==>
        |BookOf(s.redis, key)| < |BookOf(base.redis, key)|)
    && ((forall o <- done :: o.id != maker) ==> maker in s.redis.hashes)
    && (id !in s.redis.hashes && IsOpen(taker) ==>
        SequenceAt(s.redis, taker.symbol) <= SequenceAt(start.redis, taker.symbol))
  }

  /** The two orders of a settlement, as they are in the database after it. */
  ghost predicate ReportsBoth(db: Db, orders: seq<Order>, id: OrderId, maker: OrderId) {
    && |orders| == 2 && orders[0].id != orders[1].id
    && {orders[0].id, orders[1].id} == {id, maker}
    && forall o <- orders :: o.id in db.orders && o == db.orders[o.id]
  }

  lemma SettleReportsBoth(db: Db, id: OrderId, maker: OrderId)
    requires OrdersOk(db) && id in db.orders && maker in db.orders && id != maker
    requires IsOpen(db.orders[id]) && IsOpen(db.orders[maker]) && CanMatch(db.orders[id], db.orders[maker])
    requires db.orders[id].userId != db.orders[maker].userId && db.orders[maker].price.Some?
    ensures var tx := Settlement.Settle(db, id, maker); tx.Committed? && ReportsBoth(tx.db, tx.report.orders, id, maker)
  {
    hide PayAndDeliver, Executable, CancelsBuy, CancelsSell;
  }

  lemma SettledReport(start: State, s: State, id: OrderId, maker: OrderId)
    requires AtLoop(start, s, id) && IsOpen(s.db.orders[id]) && Roomy(start, id, 0)
    requires SkippedFor(s, s.db.orders[id]) < Load(start, start.db.orders[id])
    requires var queue := Queue(s, s.db.orders[id]);
             queue != [] && queue[0] == maker && maker in s.db.orders && CanMatch(s.db.orders[id], s.db.orders[maker])
    ensures var tx := Settlement.Settle(s.db, id, maker);
            && tx.Committed?
            && var base := State(tx.db, s.redis);
            && Follows(s.db, tx.db)
            && Reached(start, base, id) && ReportsBoth(tx.db, tx.report.orders, id, maker)
            && id != maker && maker in base.db.orders && KeyOf(base.db.orders[maker]) == OppositeKey(base.db.orders[id])
            && Syncing(start, base, base, id, maker, [])
            && (IsOpen(base.db.orders[id]) ==> !IsOpen(base.db.orders[maker]))
            && Queue(base, base.db.orders[id]) ==
                if IsOpen(base.db.orders[maker]) then Queue(s, s.db.orders[id]) else Queue(s, s.db.orders[id])[1..]
  {
    hide LedgerOk, BookSound, BookIndexed, SameOutcome, EligibleIds, Settlement.Settle, CanMatch, ReportsBoth, Behind;
    var taker := s.db.orders[id];
    AtLoopIsValid(start, s, id);
    QueueHead(s, taker);
    SettleReportsBoth(s.db, id, maker);
    SettleShortensQueue(s, id);
    SettleKeepsBehind(s, id);
    SettleStep(s, id);
    var base := State(Settlement.Settle(s.db, id, maker).db, s.redis);
    SameOutcomeIsTransitive(start, s, base, id);
    FollowsIsTransitive(start.db, s.db, base.db);
    SettleTouchesTwo(s.db, id, maker);
    MembersStayUnder(start, s, base);
    assert maker in s.redis.hashes by { InQueue(s, taker, maker); }
    assert SkippedFor(base, start.db.orders[id]) <= SkippedFor(s, taker) + 1;
    assert BehindFor(base, start.db.orders[id]) <= BehindFor(s, taker) <= SkippedFor(s, taker);
  }

  lemma MembersStayUnder(start: State, s: State, base: State)
    requires MembersStay(start, s) && base.redis == s.redis
    requires Follows(s.db, base.db) && base.db.orders.Keys == s.db.orders.Keys
    ensures MembersStay(start, base)
  {
    hide IsOpen;
  }

  lemma SyncingStep(start: State, base: State, s: State, id: OrderId, maker: OrderId, orders: seq<Order>, k: nat)
    requires k < |orders| && ReportsBoth(base.db, orders, id, maker) && id != maker
    requires Syncing(start, base, s, id, maker, orders[..k]) && Roomy(start, id, 0)
    requires KeyOf(s.db.orders[maker]) == OppositeKey(s.db.orders[id])
    ensures Syncing(start, base, State(s.db, OrderBook.SyncOrderBook(s.redis, orders[k])), id, maker, orders[..k + 1])
    ensures Reached(start, State(s.db, OrderBook.SyncOrderBook(s.redis, orders[k])), id)
    ensures Restable(orders[k]) && orders[k].id !in s.redis.hashes ==>
              Reached(start, State(s.db, Increment(s.redis, orders[k].symbol)), id)
  {
    hide Valid, SameOutcome, Queue, OrderBook.SyncOrderBook, Reached;
    var order := orders[k];
    var next := State(s.db, OrderBook.SyncOrderBook(s.redis, order));
    var done := orders[..k];
    assert orders[..k + 1] == done + [order];
    assert order in orders;
    assert order.id == id || order.id == maker by { assert order.id in {orders[0].id, orders[1].id}; }
    assert forall o <- done :: o.id != order.id;
    SyncingHasRoom(start, base, s, id, maker, orders, k);
    SyncStep(s, order, id);
    SyncKeepsReached(start, s, order, id);
    if Restable(order) && order.id !in s.redis.hashes {
      IncrementReached(start, s, id);
    }
    if id in s.redis.hashes && IsOpen(s.db.orders[id]) {
      HashedRests(s, id);
    }
  }

  lemma SyncingHasRoom(start: State, base: State, s: State, id: OrderId, maker: OrderId, orders: seq<Order>, k: nat)
    requires k < |orders| && ReportsBoth(base.db, orders, id, maker) && id != maker
    requires Syncing(start, base, s, id, maker, orders[..k]) && Roomy(start, id, 0)
    ensures Valid(s) && id in s.db.orders && SameTerms(start.db.orders[id], s.db.orders[id])
    ensures orders[k].id == maker ==> maker in s.redis.hashes
    ensures Restable(orders[k]) && orders[k].id !in s.redis.hashes ==>
              && orders[k].id == id
              && SequenceAt(s.redis, orders[k].symbol) <= SequenceAt(start.redis, orders[k].symbol)
              && SequenceAt(s.redis, orders[k].symbol) + 1 < 100_000_000_000_000_000_000
  {
    hide Valid, SameOutcome, Queue, BookOf;
    assert orders[k] in orders;
    assert orders[k].id in {orders[0].id, orders[1].id};
    assert forall o <- orders[..k] :: o.id != orders[k].id;
  }

  lemma SyncKeepsReached(start: State, s: State, order: Order, id: OrderId)
    requires Reached(start, s, id) && order.id in s.db.orders && order == s.db.orders[order.id]
    requires Restable(order) && order.id !in s.redis.hashes ==>
               && order.id == id
               && SequenceAt(s.redis, order.symbol) <= SequenceAt(start.redis, order.symbol)
               && SequenceAt(s.redis, order.symbol) + 1 < 100_000_000_000_000_000_000
    ensures Reached(start, State(s.db, OrderBook.SyncOrderBook(s.redis, order)), id)
  {
    hide Valid, SameOutcome, OrderBook.SyncOrderBook, Queue;
    SyncStep(s, order, id);
    var next := State(s.db, OrderBook.SyncOrderBook(s.redis, order));
    var taker := s.db.orders[id];
    SameOutcomeIsTransitive(start, s, next, id);
    SkippedIsRest(s, taker);
    SkippedIsRest(next, taker);
    SkippedForTerms(s, start.db.orders[id], taker);
    SkippedForTerms(next, start.db.orders[id], taker);
  }

  lemma IncrementReached(start: State, s: State, id: OrderId)
    requires Reached(start, s, id)
    requires SequenceAt(s.redis, start.db.orders[id].symbol) <= SequenceAt(start.redis, start.db.orders[id].symbol)
    ensures Reached(start, State(s.db, Increment(s.redis, start.db.orders[id].symbol)), id)
  {
    hide Valid, SameOutcome, EligibleIds;
    var next := State(s.db, Increment(s.redis, start.db.orders[id].symbol));
    IncrementStep(s, start.db.orders[id].symbol, id);
    SameOutcomeIsTransitive(start, s, next, id);
  }

  lemma SyncedBothReachesLoop(start: State, tidy: State, base: State, s: State, id: OrderId, maker: OrderId,
      orders: seq<Order>)
    requires AtLoop(start, tidy, id) && IsOpen(tidy.db.orders[id]) && base.redis == tidy.redis &&
      Follows(tidy.db, base.db)
    requires ReportsBoth(base.db, orders, id, maker) && Syncing(start, base, s, id, maker, orders)
    requires IsOpen(base.db.orders[id]) ==> !IsOpen(base.db.orders[maker])
    requires Queue(tidy, tidy.db.orders[id]) != []
    requires Queue(base, base.db.orders[id])
          == if IsOpen(base.db.orders[maker]) then Queue(tidy, tidy.db.orders[id])
             else Queue(tidy, tidy.db.orders[id])[1..]
    ensures AtLoop(start, s, id)
    ensures IsOpen(s.db.orders[id]) ==> |Queue(s, s.db.orders[id])| < |Queue(tidy, tidy.db.orders[id])|
  {
    hide Valid, SameOutcome;
    var taker := s.db.orders[id];
    if IsOpen(taker) {
      assert orders[0].id == maker || orders[1].id == maker;
      assert orders[0] in orders && orders[1] in orders;
      assert OppositeKey(taker) == OppositeKey(tidy.db.orders[id]);
      SkippedIsRest(s, taker);
      SkippedIsRest(tidy, tidy.db.orders[id]);
    }
  }

  lemma SkippedIsRest(s: State, taker: Order)
    ensures SkippedFor(s, taker) == |BookOf(s.redis, OppositeKey(taker))| - |Queue(s, taker)|
  {
  }

  lemma ClosedAfterLoop(start: State, s: State, id: OrderId)
    requires AtLoop(start, s, id) && !IsOpen(s.db.orders[id])
    ensures Completes(start, id, s) && Valid(s) && Reached(start, s, id)
  {
    hide Valid, FinalDb, FinalView, SameOutcome;
    StoppedCompletes(start, s, id);
  }

  lemma FollowingKeepsSkipped(s: State, after: Db, id: OrderId)
    requires Valid(s) && id in s.db.orders && id in after.orders && Follows(s.db, after)
    requires forall other <- s.db.orders :: other != id ==> after.orders[other] == s.db.orders[other]
    ensures SkippedFor(State(after, s.redis), s.db.orders[id]) == SkippedFor(s, s.db.orders[id])
    ensures BehindFor(State(after, s.redis), s.db.orders[id]) <= BehindFor(s, s.db.orders[id])
  {
    hide LedgerOk, BookIndexed;
    BookIsDistinct(s, OppositeKey(s.db.orders[id]));
    var taker := s.db.orders[id];
    var key := OppositeKey(taker);
    forall e | e in BookOf(s.redis, key)
      ensures Eligible(s.db.orders, Some(taker.userId), e) <==> Eligible(after.orders, Some(taker.userId), e)
      ensures OpenEntry(after.orders, e) ==> OpenEntry(s.db.orders, e)
    {
      assert Stands(s.db.orders, key, e);
    }
    EligibleDepends(s.db.orders, after.orders, Some(taker.userId), BookOf(s.redis, key));
    BehindUnder(s.db.orders, after.orders, Some(taker.userId), BookOf(s.redis, key), None);
  }

  lemma CancelReached(start: State, s: State, id: OrderId)
    requires AtLoop(start, s, id) && Stopped(s, id)
    requires IsOpen(s.db.orders[id]) && s.db.orders[id].orderType.Market?
    ensures Reached(start, State(Cancel(s.db, id), s.redis), id)
  {
    hide SameOutcome, LedgerOk, BookSound, BookIndexed, Behind, EligibleIds;
    var cancelled := State(Cancel(s.db, id), s.redis);
    CancelMarketStep(s, id);
    CancelIsSafe(s.db, id);
    FollowsIsTransitive(start.db, s.db, cancelled.db);
    SameOutcomeIsTransitive(start, s, cancelled, id);
    FollowingKeepsSkipped(s, cancelled.db, id);
  }

  lemma SyncedReached(start: State, s: State, id: OrderId)
    requires Reached(start, s, id) && s.db.orders[id].id == id
    requires Restable(s.db.orders[id]) && id !in s.redis.hashes ==>
               && SequenceAt(s.redis, start.db.orders[id].symbol) <= SequenceAt(start.redis, start.db.orders[id].symbol)
               && SequenceAt(start.redis, start.db.orders[id].symbol) + 1 < 100_000_000_000_000_000_000
    ensures var next := State(s.db, OrderBook.SyncOrderBook(s.redis, s.db.orders[id]));
            Reached(start, next, id) && (Restable(s.db.orders[id]) ==> id in next.redis.hashes)
  {
    hide Valid, SameOutcome, OrderBook.SyncOrderBook, Queue;
    SyncStep(s, s.db.orders[id], id);
    SyncKeepsReached(start, s, s.db.orders[id], id);
  }

  lemma SkippedForTerms(s: State, a: Order, b: Order)
    requires SameTerms(a, b)
    ensures SkippedFor(s, a) == SkippedFor(s, b)
  {
  }

  /** A market order that found no more liquidity is cancelled and the run is complete. */
  lemma MarketFinish(start: State, s: State, id: OrderId)
    requires AtLoop(start, s, id) && Stopped(s, id)
    requires IsOpen(s.db.orders[id]) && s.db.orders[id].orderType.Market?
    ensures var cancelled := State(Cancel(s.db, id), s.redis);
            && OpenStatus(s.db.orders[id].status) && id in cancelled.db.orders
            && Reached(start, cancelled, id)
            && var done := State(cancelled.db, OrderBook.SyncOrderBook(s.redis, cancelled.db.orders[id]));
            Reached(start, done, id) && Valid(done) && Completes(start, id, done)
  {
    hide SameOutcome, Valid, OrderBook.SyncOrderBook, FinalDb, FinalView, View;
    AtLoopIsValid(start, s, id);
    CancelReached(start, s, id);
    var cancelled := State(Cancel(s.db, id), s.redis);
    SyncedReached(start, cancelled, id);
    var done := State(cancelled.db, OrderBook.SyncOrderBook(s.redis, cancelled.db.orders[id]));
    StoppedCompletes(start, done, id);
  }

  lemma HashedIsViewed(s: State, id: OrderId)
    requires Valid(s) && id in s.redis.hashes && IsOpen(s.db.orders[id])
    ensures id in View(s, KeyOf(s.db.orders[id]))
  {
    var order := s.db.orders[id];
    var e := Entry(Score(order.side, order.price.value), s.redis.hashes[id]);
    assert e in BookOf(s.redis, KeyOf(order)) && OrderIdOf(e.member) == Some(id);
    EligibleMembers(s.db.orders, None, BookOf(s.redis, KeyOf(order)), id);
  }

  lemma StoppedStays(s: State, t: State, id: OrderId)
    requires t.db == s.db && id in s.db.orders && Queue(t, s.db.orders[id]) == Queue(s, s.db.orders[id]) &&
      Stopped(s, id)
    ensures Stopped(t, id)
  {
  }

  lemma RestsWhenOpen(s: State, id: OrderId)
    requires Valid(s) && id in s.db.orders && IsOpen(s.db.orders[id]) && s.db.orders[id].orderType.Limit?
    ensures Restable(s.db.orders[id])
  {
    LedgerIds(s.db, id);
  }

  /** A limit order that found no more liquidity rests in the book and the run is complete. */
  lemma LimitFinish(start: State, s: State, id: OrderId)
    requires AtLoop(start, s, id) && Stopped(s, id) && Roomy(start, id, 0)
    requires IsOpen(s.db.orders[id]) && s.db.orders[id].orderType.Limit?
    ensures var done := State(s.db, OrderBook.SyncOrderBook(s.redis, s.db.orders[id]));
            Reached(start, done, id) && Valid(done) && Completes(start, id, done)
    ensures Restable(s.db.orders[id]) && id !in s.redis.hashes ==>
              Reached(start, State(s.db, Increment(s.redis, s.db.orders[id].symbol)), id)
  {
    hide SameOutcome, Valid, OrderBook.SyncOrderBook, FinalDb, FinalView, View, Queue, CanMatch;
    AtLoopIsValid(start, s, id);
    RestsWhenOpen(s, id);
    SyncedReached(start, s, id);
    var done := State(s.db, OrderBook.SyncOrderBook(s.redis, s.db.orders[id]));
    SyncStep(s, s.db.orders[id], id);
    StoppedStays(s, done, id);
    HashedIsViewed(done, id);
    StoppedCompletes(start, done, id);
    if id !in s.redis.hashes {
      IncrementReached(start, s, id);
    }
  }
}
