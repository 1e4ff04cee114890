/** Every command the engine sends during a run leaves the outcome of that run where it was. */
module MatchingSteps {
  import opened Orders
  import opened Settlement
  import opened Ledger
  import opened BookEncoding
  import opened OrderBook
  import opened Matching

  // ----- The database moves

  lemma ValidFollows(s: State, after: Db)
    requires Valid(s) && LedgerOk(after) && Follows(s.db, after)
    ensures Valid(State(after, s.redis))
  {
    var t := State(after, s.redis);
    forall key: BookKey
      ensures Sorted(BookOf(t.redis, key)) && forall e <- BookOf(t.redis, key) :: Stands(t.db.orders, key, e)
    {
      forall e | e in BookOf(t.redis, key) ensures Stands(t.db.orders, key, e) {
        assert Stands(s.db.orders, key, e);
      }
    }
    assert BookIndexed(t);
  }

  lemma SettleTouchesTwo(db: Db, a: OrderId, b: OrderId)
    requires OrdersOk(db)
    requires Settle(db, a, b).Committed?
    ensures var after := Settle(db, a, b).db;
            after.orders.Keys == db.orders.Keys
            && forall id <- db.orders :: id != a && id != b ==> after.orders[id] == db.orders[id]
  {
  }

  lemma {:induction false} PassIsSafe(db: Db, id: OrderId, queue: seq<OrderId>)
    requires LedgerOk(db)
    ensures var after := Pass(db, id, queue); LedgerOk(after) && Follows(db, after) && Conserved(db, after)
    decreases |queue|
  {
    hide Settle, LedgerOk, Conserved, CanMatch;
    var after := Pass(db, id, queue);
    if after == db {
      ConservedIsReflexive(db);
    } else {
      var next := Settle(db, id, queue[0]).db;
      SettleIsSafe(db, id, queue[0]);
      PassIsSafe(next, id, queue[1..]);
      FollowsIsTransitive(db, next, after);
      ConservedIsTransitive(db, next, after);
    }
  }

  lemma FinalDbIsSafe(s: State, id: OrderId)
    requires LedgerOk(s.db)
    ensures var after := FinalDb(s, id); LedgerOk(after) && Follows(s.db, after) && Conserved(s.db, after)
  {
    hide Pass, LedgerOk, Conserved, Cancel, Queue;
    if id in s.db.orders && IsOpen(s.db.orders[id]) {
      var queue := Queue(s, s.db.orders[id]);
      var passed := Pass(s.db, id, queue);
      PassIsSafe(s.db, id, queue);
      CancelIsSafe(passed, id);
      FollowsIsTransitive(s.db, passed, Cancel(passed, id));
      ConservedIsTransitive(s.db, passed, Cancel(passed, id));
    } else {
      ConservedIsReflexive(s.db);
    }
  }

  lemma {:induction false} DropHead(before: map<OrderId, Order>, after: map<OrderId, Order>, exclude: Option<UserId>,
      book: seq<Entry>)
    requires Distinct(book)
    requires EligibleIds(before, exclude, book) != []
    requires var head := EligibleIds(before, exclude, book)[0];
             forall e <- book :: Eligible(after, exclude, e) <==>
                 Eligible(before, exclude, e) && OrderIdOf(e.member) != Some(head)
    ensures EligibleIds(after, exclude, book) == EligibleIds(before, exclude, book)[1..]
  {
    assert book[0] in book;
    var rest := book[1..];
    assert Distinct(rest);
    if Eligible(before, exclude, book[0]) {
      forall e | e in rest ensures Eligible(before, exclude, e) <==> Eligible(after, exclude, e) {
        assert OrderIdOf(e.member) != OrderIdOf(book[0].member);
      }
      EligibleDepends(before, after, exclude, rest);
    } else {
      DropHead(before, after, exclude, rest);
    }
  }

  /** Closing an order leaves no more entries behind the first eligible one, whether or not it was that one. */
  lemma {:induction false} BehindUnder(before: map<OrderId, Order>, after: map<OrderId, Order>, exclude: Option<UserId>,
      book: seq<Entry>, gone: Option<OrderId>)
    requires Distinct(book)
    requires forall e <- book :: OpenEntry(after, e) ==> OpenEntry(before, e)
    requires forall e <- book ::
               Eligible(after, exclude, e) <==>
                   Eligible(before, exclude, e) && (gone.Some? ==> OrderIdOf(e.member) != gone)
    requires forall e <- book :: gone.Some? && OrderIdOf(e.member) == gone ==> !OpenEntry(after, e)
    requires gone.Some? ==> EligibleIds(before, exclude, book) != []
    requires gone.Some? ==> EligibleIds(before, exclude, book)[0] == gone.value
    ensures Behind(after, exclude, book) <= Behind(before, exclude, book)
  {
    if book == [] {
    } else {
      var rest := book[1..];
      assert book[0] in book && Distinct(rest) && forall e <- rest :: e in book;
      if Eligible(before, exclude, book[0]) {
        forall e | e in rest ensures Eligible(before, exclude, e) <==> Eligible(after, exclude, e) {
          assert OrderIdOf(e.member) != OrderIdOf(book[0].member);
        }
        EligibleDepends(before, after, exclude, rest);
      } else {
        BehindUnder(before, after, exclude, rest, gone);
      }
    }
  }

  lemma {:induction false} BehindWithout(orders: map<OrderId, Order>, exclude: Option<UserId>, book: seq<Entry>,
      member: string)
    requires forall e <- book :: e.member == member ==> !OpenEntry(orders, e)
    ensures Behind(orders, exclude, Without(book, member)) <= Behind(orders, exclude, book)
  {
    if book == [] {
    } else {
      var rest := Without(book[1..], member);
      assert book[0] in book && forall e <- book[1..] :: e in book;
      BehindWithout(orders, exclude, book[1..], member);
      EligibleWithout(orders, exclude, book[1..], member);
      assert [] + rest == rest && ([book[0]] + rest)[1..] == rest;
    }
  }

  /** The head of the queue is an open limit order of another user on the other side of the book. */
  lemma QueueHead(s: State, taker: Order)
    requires Valid(s) && Queue(s, taker) != []
    ensures var head := Queue(s, taker)[0];
            && head in s.db.orders && IsOpen(s.db.orders[head]) && s.db.orders[head].id == head
            && s.db.orders[head].userId != taker.userId && s.db.orders[head].price.Some?
            && KeyOf(s.db.orders[head]) == OppositeKey(taker)
  {
    var head := Queue(s, taker)[0];
    var book := BookOf(s.redis, OppositeKey(taker));
    EligibleMembers(s.db.orders, Some(taker.userId), book, head);
    var e :| e in book && Eligible(s.db.orders, Some(taker.userId), e) && OrderIdOf(e.member) == Some(head);
    assert Stands(s.db.orders, OppositeKey(taker), e);
  }

  /** After a settlement with the head of the queue, one of the two orders is closed; if it is the
      head, the rest of the queue is as it was. */
  lemma SettleShortensQueue(s: State, id: OrderId)
    requires Valid(s) && id in s.db.orders && IsOpen(s.db.orders[id])
    requires var queue := Queue(s, s.db.orders[id]);
             queue != [] && queue[0] in s.db.orders && CanMatch(s.db.orders[id], s.db.orders[queue[0]])
    ensures var queue := Queue(s, s.db.orders[id]);
            var tx := Settle(s.db, id, queue[0]);
            && tx.Committed?
            && var next := State(tx.db, s.redis);
            && Valid(next) && Follows(s.db, next.db)
            && (!IsOpen(next.db.orders[id]) || !IsOpen(next.db.orders[queue[0]]))
            && Queue(next, next.db.orders[id]) == if IsOpen(next.db.orders[queue[0]]) then queue else queue[1..]
  {
    hide Settle, LedgerOk, BookSound, BookIndexed, Eligible, IsOpen;
    var taker := s.db.orders[id];
    var queue := Queue(s, taker);
    var head := queue[0];
    QueueHead(s, taker);
    LedgerIds(s.db, id);
    LedgerIds(s.db, head);
    LedgerGivesOrders(s.db);
    AttemptClosesOne(s.db, taker, s.db.orders[head]);
    SettleIsSafe(s.db, id, head);
    var next := State(Settle(s.db, id, head).db, s.redis);
    ValidFollows(s, next.db);
    var key := OppositeKey(taker);
    BookIsDistinct(s, key);
    var exclude := Some(taker.userId);
    SettleTouchesHead(s, id, head);
    if IsOpen(next.db.orders[head]) {
      EligibleDepends(s.db.orders, next.db.orders, exclude, BookOf(s.redis, key));
    } else {
      DropHead(s.db.orders, next.db.orders, exclude, BookOf(s.redis, key));
    }
  }

  /** On the other side of the book a settlement touches the maker's entry alone. */
  lemma SettleTouchesHead(s: State, id: OrderId, head: OrderId)
    requires Valid(s) && id in s.db.orders && head in s.db.orders && Settle(s.db, id, head).Committed?
    ensures var taker, next := s.db.orders[id], Settle(s.db, id, head).db.orders;
            head in next && forall e <- BookOf(s.redis, OppositeKey(taker)) ::
              && (Eligible(next, Some(taker.userId), e) <==>
                    Eligible(s.db.orders, Some(taker.userId), e) &&
                        (OrderIdOf(e.member) == Some(head) ==> IsOpen(next[head])))
              && (OpenEntry(next, e) ==> OpenEntry(s.db.orders, e))
  {
    hide Settle, FillsAreTraded, TradesOk, BookIndexed, OrderIdOf;
    var taker := s.db.orders[id];
    SettleIsSafe(s.db, id, head);
    SettleTouchesTwo(s.db, id, head);
    forall e | e in BookOf(s.redis, OppositeKey(taker)) ensures OrderIdOf(e.member) != Some(id) {
      assert Stands(s.db.orders, OppositeKey(taker), e);
    }
  }

  /** Settling with the head leaves no more entries behind it. */
  lemma SettleKeepsBehind(s: State, id: OrderId)
    requires Valid(s) && id in s.db.orders && Queue(s, s.db.orders[id]) != []
    requires var head := Queue(s, s.db.orders[id])[0]; head in s.db.orders && Settle(s.db, id, head).Committed?
    ensures var taker := s.db.orders[id];
            var book := BookOf(s.redis, OppositeKey(taker));
            Behind(Settle(s.db, id, Queue(s, taker)[0]).db.orders, Some(taker.userId), book)
            <= Behind(s.db.orders, Some(taker.userId), book)
  {
    hide Settle, LedgerOk, BookSound, BookIndexed, Behind;
    var taker := s.db.orders[id];
    var key := OppositeKey(taker);
    var head := Queue(s, taker)[0];
    var next := Settle(s.db, id, head).db.orders;
    BookIsDistinct(s, key);
    SettleTouchesHead(s, id, head);
    var gone := if IsOpen(next[head]) then None else Some(head);
    BehindUnder(s.db.orders, next, Some(taker.userId), BookOf(s.redis, key), gone);
  }

  lemma CancelClosedDoesNothing(db: Db, id: OrderId)
    requires OrdersOk(db) && id in db.orders && !IsOpen(db.orders[id])
    ensures Cancel(db, id) == db
  {
    assert OrderOk(db.orders[id]);
  }

  /** One settlement is one step of the pass. */
  lemma SettleStep(s: State, id: OrderId)
    requires Valid(s) && id in s.db.orders && IsOpen(s.db.orders[id])
    requires var queue := Queue(s, s.db.orders[id]);
             queue != [] && queue[0] in s.db.orders && CanMatch(s.db.orders[id], s.db.orders[queue[0]])
    requires Settle(s.db, id, Queue(s, s.db.orders[id])[0]).Committed?
    ensures SameOutcome(s, State(Settle(s.db, id, Queue(s, s.db.orders[id])[0]).db, s.redis), id)
  {
    hide Settle, CanMatch, Solvent, FillsAreTraded, TradesOk, EmptyHoldingsAreFree, BookSound, BookIndexed, Queue;
    SettleShortensQueue(s, id);
    var queue := Queue(s, s.db.orders[id]);
    var next := State(Settle(s.db, id, queue[0]).db, s.redis);
    assert Pass(s.db, id, queue) == Pass(next.db, id, queue[1..]);
    if IsOpen(next.db.orders[id]) {
      assert Pass(s.db, id, queue) == Pass(next.db, id, Queue(next, next.db.orders[id]));
    } else {
      assert Pass(next.db, id, queue[1..]) == next.db;
      CancelClosedDoesNothing(next.db, id);
    }
    assert FinalDb(s, id) == FinalDb(next, id);
  }

  /** When the loop stops with a market order still open, cancelling it is the last step. */
  lemma CancelMarketStep(s: State, id: OrderId)
    requires Valid(s) && Stopped(s, id)
    requires id in s.db.orders && IsOpen(s.db.orders[id]) && s.db.orders[id].orderType.Market?
    ensures var next := State(Cancel(s.db, id), s.redis); Valid(next) && SameOutcome(s, next, id)
  {
    CancelIsSafe(s.db, id);
    ValidFollows(s, Cancel(s.db, id));
  }

  /** The loop has nothing more to do. */
  predicate Stopped(s: State, id: OrderId) {
    id in s.db.orders && IsOpen(s.db.orders[id]) ==>
      var queue := Queue(s, s.db.orders[id]);
      queue == [] || (queue[0] in s.db.orders && !CanMatch(s.db.orders[id], s.db.orders[queue[0]]))
  }

  /** A stopped run whose open taker is a limit order already in the book has completed. */
  lemma StoppedCompletes(start: State, s: State, id: OrderId)
    requires SameOutcome(start, s, id) && Stopped(s, id) && id in s.db.orders
    requires IsOpen(s.db.orders[id]) ==> Restable(s.db.orders[id]) && id in View(s, KeyOf(s.db.orders[id]))
    ensures Completes(start, id, s)
  {
  }

  // ----- The book moves

  lemma {:induction false} EnqueueEntry(orders: map<OrderId, Order>, key: BookKey, book: seq<Entry>, entry: Entry)
    requires Sorted(book) && forall e <- book :: Stands(orders, key, e)
    requires Stands(orders, key, entry)
    requires forall e <- book :: e.score == entry.score ==> Before(e, entry)
    ensures var id := OrderIdOf(entry.member).value;
            EligibleIds(orders, None, Insert(book, entry))
            == if IsOpen(orders[id]) then Enqueue(orders, EligibleIds(orders, None, book), id)
               else EligibleIds(orders, None, book)
  {
    var id := OrderIdOf(entry.member).value;
    if book == [] {
      assert Insert(book, entry)[1..] == [];
    } else {
      assert book[0] in book;
      if Before(entry, book[0]) {
        assert Insert(book, entry)[1..] == book;
        if entry.score == book[0].score {
          BeforeTransitive(entry, book[0], entry);
          BeforeTotal(entry, entry);
        }
        LaterScores(orders, key, book, entry.score);
      } else {
        EnqueueEntry(orders, key, book[1..], entry);
        assert Insert(book, entry)[1..] == Insert(book[1..], entry);
        BeforeTotal(entry, book[0]);
        if OpenEntry(orders, book[0]) {
          assert EligibleIds(orders, None, book)[1..] == EligibleIds(orders, None, book[1..]);
        }
      }
    }
  }

  lemma LaterScores(orders: map<OrderId, Order>, key: BookKey, book: seq<Entry>, score: int)
    requires Sorted(book) && forall e <- book :: Stands(orders, key, e)
    requires book != [] && score < book[0].score
    ensures forall id <- EligibleIds(orders, None, book) :: score < ScoreOf(orders, id)
  {
    forall id | id in EligibleIds(orders, None, book) ensures score < ScoreOf(orders, id) {
      EligibleMembers(orders, None, book, id);
      var e :| e in book && Eligible(orders, None, e) && OrderIdOf(e.member) == Some(id);
      assert Stands(orders, key, e);
    }
  }

  /** Only the open entries of each book decide what a run does. */
  lemma OutcomeDependsOnEligible(a: State, b: State, id: OrderId)
    requires a.db == b.db
    requires forall key: BookKey, exclude: Option<UserId> ::
               EligibleIds(a.db.orders, exclude, BookOf(a.redis, key)) ==
                   EligibleIds(b.db.orders, exclude, BookOf(b.redis, key))
    requires forall key: BookKey ::
               EligibleIds(FinalDb(a, id).orders, None, BookOf(a.redis, key)) ==
                   EligibleIds(FinalDb(a, id).orders, None, BookOf(b.redis, key))
    ensures SameOutcome(a, b, id)
  {
    hide Pass, Cancel, EligibleIds, BookOf, Enqueue;
  }

  lemma IncrementStep(s: State, symbol: Symbol, id: OrderId)
    requires Valid(s)
    ensures var next := State(s.db, Increment(s.redis, symbol)); Valid(next) && SameOutcome(s, next, id)
  {
    hide LedgerOk, Stands, Pass, SameOutcome, EligibleIds, FinalDb, Numbered;
    var next := State(s.db, Increment(s.redis, symbol));
    forall key: BookKey ensures BookOf(next.redis, key) == BookOf(s.redis, key) {}
    NumberedStays(s, next);
    OutcomeDependsOnEligible(s, next, id);
  }

  // ----- Removing the entry of an order that cannot rest

  lemma OtherMembersDiffer(s: State, key: BookKey, e: Entry, id: OrderId)
    requires BookIndexed(s) && e in BookOf(s.redis, key) && id in s.redis.hashes
    ensures e.member == s.redis.hashes[id] <==> OrderIdOf(e.member) == Some(id)
  {
  }

  lemma DropContents(s: State, order: Order, key: BookKey, e: Entry)
    requires Valid(s) && order.id in s.db.orders && SameTerms(order, s.db.orders[order.id])
    ensures e in BookOf(RemoveBookEntry(s.redis, order), key) <==>
            e in BookOf(s.redis, key) && OrderIdOf(e.member) != Some(order.id)
  {
    hide LedgerOk, Stands, Numbered;
    if order.id in s.redis.hashes {
      WithoutContents(BookOf(s.redis, KeyOf(order)), s.redis.hashes[order.id]);
      if e in BookOf(s.redis, key) {
        OtherMembersDiffer(s, key, e, order.id);
        if OrderIdOf(e.member) == Some(order.id) {
          StandsUnderOwnKey(s, key, e, order.id);
        }
      }
    }
  }

  /** The books are what they were, without the entry of one order. */
  ghost predicate OneOrderGone(s: State, next: State, id: OrderId) {
    && (forall key: BookKey :: Sorted(BookOf(next.redis, key)))
    && (forall key: BookKey :: forall e <- BookOf(next.redis, key) ::
          e in BookOf(s.redis, key) && OrderIdOf(e.member) != Some(id))
    && (forall key: BookKey :: forall e <- BookOf(s.redis, key) ::
          OrderIdOf(e.member) != Some(id) ==> e in BookOf(next.redis, key))
  }

  lemma DropSelects(s: State, order: Order, next: State)
    requires Valid(s) && order.id in s.db.orders && SameTerms(order, s.db.orders[order.id])
    requires next.redis == RemoveBookEntry(s.redis, order)
    ensures OneOrderGone(s, next, order.id)
  {
    hide LedgerOk, BookSound, BookIndexed, RemoveBookEntry, BookOf, Sorted;
    forall key: BookKey
      ensures Sorted(BookOf(next.redis, key))
      ensures forall e <- BookOf(next.redis, key) :: e in BookOf(s.redis, key) && OrderIdOf(e.member) != Some(order.id)
      ensures forall e <- BookOf(s.redis, key) :: OrderIdOf(e.member) != Some(order.id) ==> e in BookOf(next.redis, key)
    {
      DropKeepsSorted(s, order, key);
      forall e: Entry
        ensures e in BookOf(next.redis, key) <==> e in BookOf(s.redis, key) && OrderIdOf(e.member) != Some(order.id)
      {
        DropContents(s, order, key, e);
      }
    }
  }

  lemma OneGoneIsSound(s: State, next: State, id: OrderId)
    requires BookSound(s) && next.db == s.db && OneOrderGone(s, next, id)
    ensures BookSound(next)
  {
    hide Stands, Sorted, BookOf, OrderIdOf;
  }

  lemma OneGoneIsIndexed(s: State, next: State, id: OrderId)
    requires BookIndexed(s) && next.db == s.db && OneOrderGone(s, next, id)
    requires next.redis.hashes == s.redis.hashes - {id}
    requires forall symbol, member, id ::
               Numbered(s.redis, symbol, member, id) ==> Numbered(next.redis, symbol, member, id)
    ensures BookIndexed(next)
  {
    hide Numbered, BookOf, Sorted;
    assert EntriesHashed(next);
    assert HashesEntered(next);
    assert SequencesUnique(next);
  }

  lemma DropKeepsValid(s: State, order: Order)
    requires Valid(s) && order.id in s.db.orders && SameTerms(order, s.db.orders[order.id])
    ensures Valid(State(s.db, RemoveBookEntry(s.redis, order)))
  {
    hide LedgerOk, BookSound, BookIndexed, Numbered, RemoveBookEntry, OneOrderGone;
    var next := State(s.db, RemoveBookEntry(s.redis, order));
    DropHashes(s.redis, order);
    NumberedStays(s, next);
    DropSelects(s, order, next);
    OneGoneIsSound(s, next, order.id);
    OneGoneIsIndexed(s, next, order.id);
  }

  lemma DropHashes(redis: Redis, order: Order)
    ensures var next := RemoveBookEntry(redis, order);
            next.hashes == redis.hashes - {order.id} && next.sequences == redis.sequences
  {
  }

  lemma DropKeepsSorted(s: State, order: Order, key: BookKey)
    requires BookSound(s)
    ensures Sorted(BookOf(RemoveBookEntry(s.redis, order), key))
  {
    assert Sorted(BookOf(s.redis, key)) && Sorted(BookOf(s.redis, KeyOf(order)));
    if order.id in s.redis.hashes {
      WithoutKeepsSorted(BookOf(s.redis, KeyOf(order)), s.redis.hashes[order.id]);
    }
  }

  lemma StandsUnderOwnKey(s: State, key: BookKey, e: Entry, id: OrderId)
    requires BookSound(s) && e in BookOf(s.redis, key) && OrderIdOf(e.member) == Some(id)
    ensures id in s.db.orders && key == KeyOf(s.db.orders[id])
  {
    assert Stands(s.db.orders, key, e);
  }

  lemma NumberedStays(s: State, next: State)
    requires forall symbol :: SequenceAt(s.redis, symbol) <= SequenceAt(next.redis, symbol)
    ensures forall symbol, member, id ::
              Numbered(s.redis, symbol, member, id) ==> Numbered(next.redis, symbol, member, id)
  {
  }

  lemma DropKeepsEligible(s: State, order: Order, orders: map<OrderId, Order>, exclude: Option<UserId>, key: BookKey)
    requires Valid(s) && order.id in s.db.orders
    requires order.id in orders && !IsOpen(orders[order.id])
    ensures EligibleIds(orders, exclude, BookOf(RemoveBookEntry(s.redis, order), key))
         == EligibleIds(orders, exclude, BookOf(s.redis, key))
  {
    hide LedgerOk, BookSound;
    if order.id in s.redis.hashes && key == KeyOf(order) {
      forall e | e in BookOf(s.redis, key) && e.member == s.redis.hashes[order.id] ensures !OpenEntry(orders, e) {
        OtherMembersDiffer(s, key, e, order.id);
      }
      EligibleWithout(orders, exclude, BookOf(s.redis, key), s.redis.hashes[order.id]);
    }
  }

  lemma DropKeepsBehind(s: State, order: Order, exclude: Option<UserId>, key: BookKey)
    requires Valid(s) && order.id in s.db.orders && !IsOpen(s.db.orders[order.id])
    ensures Behind(s.db.orders, exclude, BookOf(RemoveBookEntry(s.redis, order), key))
         <= Behind(s.db.orders, exclude, BookOf(s.redis, key))
  {
    hide LedgerOk, BookSound, Behind;
    if order.id in s.redis.hashes && key == KeyOf(order) {
      forall e | e in BookOf(s.redis, key) && e.member == s.redis.hashes[order.id] ensures !OpenEntry(s.db.orders, e) {
        OtherMembersDiffer(s, key, e, order.id);
      }
      BehindWithout(s.db.orders, exclude, BookOf(s.redis, key), s.redis.hashes[order.id]);
    }
  }

  /** Removing the entry of an order that is closed, or never rests, is invisible to every run. */
  lemma DropStep(s: State, order: Order, id: OrderId)
    requires Valid(s) && order.id in s.db.orders && SameTerms(order, s.db.orders[order.id])
    requires !Restable(s.db.orders[order.id])
    ensures var next := State(s.db, RemoveBookEntry(s.redis, order)); Valid(next) && SameOutcome(s, next, id)
  {
    hide LedgerOk, BookSound, BookIndexed, RemoveBookEntry, SameOutcome, FinalDb, EligibleIds;
    var next := State(s.db, RemoveBookEntry(s.redis, order));
    DropKeepsValid(s, order);
    if IsOpen(s.db.orders[order.id]) {
      UnpricedHasNoHash(s, order.id);
      DropUnknown(s.redis, order);
    } else {
      FinalDbIsSafe(s, id);
      forall exclude, key
        ensures EligibleIds(s.db.orders, exclude, BookOf(next.redis, key)) ==
          EligibleIds(s.db.orders, exclude, BookOf(s.redis, key))
        ensures EligibleIds(FinalDb(s, id).orders, exclude, BookOf(next.redis, key))
             == EligibleIds(FinalDb(s, id).orders, exclude, BookOf(s.redis, key))
      {
        DropKeepsEligible(s, order, s.db.orders, exclude, key);
        DropKeepsEligible(s, order, FinalDb(s, id).orders, exclude, key);
      }
    }
    OutcomeDependsOnEligible(s, next, id);
  }

  lemma DropUnknown(redis: Redis, order: Order)
    requires order.id !in redis.hashes
    ensures RemoveBookEntry(redis, order) == redis
  {
    assert redis.hashes - {order.id} == redis.hashes;
  }

  lemma UnpricedHasNoHash(s: State, id: OrderId)
    requires Valid(s) && id in s.db.orders && IsOpen(s.db.orders[id]) && !Restable(s.db.orders[id])
    ensures id !in s.redis.hashes
  {
    assert OrderOk(s.db.orders[id]);
  }

  // ----- Adding the entry of an order that rests

  /** Time priority: an order that rests keeps its member, so syncing it again changes nothing. */
  lemma SyncKeepsMember(s: State, order: Order)
    requires Valid(s) && Restable(order) && order.id in s.redis.hashes
    requires order.id in s.db.orders && SameTerms(order, s.db.orders[order.id])
    ensures SyncOrderBook(s.redis, order) == s.redis
  {
    hide LedgerOk, EntriesHashed, SequencesUnique, Place, Sorted, MemberText, Increment, RemoveBookEntry;
    var key := KeyOf(order);
    var entry := Entry(Score(order.side, order.price.value), s.redis.hashes[order.id]);
    assert entry in BookOf(s.redis, key);
    forall e | e in BookOf(s.redis, key) && e.member == entry.member ensures e == entry {
      assert Stands(s.db.orders, key, e);
    }
    PlaceAgain(BookOf(s.redis, key), entry);
    assert s.redis.books[key := BookOf(s.redis, key)] == s.redis.books;
  }

  /** A member numbered by the next increment sorts behind every member of the same score. */
  lemma FreshMemberIsLast(s: State, order: Order, e: Entry)
    requires Valid(s) && e in BookOf(s.redis, KeyOf(order))
    requires SequenceAt(s.redis, order.symbol) + 1 < 100_000_000_000_000_000_000
    ensures TextLess(e.member, MemberText(SequenceAt(s.redis, order.symbol) + 1, order.id))
  {
    var id := OrderIdOf(e.member).value;
    MemberOrderIsSequenceOrder(SequenceOf(e.member).value, id, SequenceAt(s.redis, order.symbol) + 1, order.id);
  }

  /** The entry a sync adds for an order that has none. */
  function FreshEntry(redis: Redis, order: Order): Entry
    requires order.price.Some?
  {
    Entry(Score(order.side, order.price.value), MemberText(SequenceAt(redis, order.symbol) + 1, order.id))
  }

  lemma PutShape(s: State, order: Order)
    requires Valid(s) && Restable(order) && order.id !in s.redis.hashes
    ensures var next, entry := SyncOrderBook(s.redis, order), FreshEntry(s.redis, order);
            && next.hashes == s.redis.hashes[order.id := entry.member]
            && next.sequences == s.redis.sequences[order.symbol := SequenceAt(s.redis, order.symbol) + 1]
            && (forall key: BookKey :: BookOf(next, key) ==
                  if key == KeyOf(order) then Insert(BookOf(s.redis, key), entry) else BookOf(s.redis, key))
            && OrderIdOf(entry.member) == Some(order.id)
            && SequenceOf(entry.member) == Some(SequenceAt(s.redis, order.symbol) + 1)
  {
    hide LedgerOk, BookSound, HashesEntered, Numbered;
    var entry := FreshEntry(s.redis, order);
    MemberRoundTrip(SequenceAt(s.redis, order.symbol) + 1, order.id);
    forall e | e in BookOf(s.redis, KeyOf(order)) ensures e.member != entry.member {
      assert OrderIdOf(e.member).Some?;
    }
    WithoutAbsent(BookOf(s.redis, KeyOf(order)), entry.member);
  }

  lemma PutKeepsSound(s: State, order: Order)
    requires Valid(s) && Restable(order) && order.id !in s.redis.hashes
    requires order.id in s.db.orders && SameTerms(order, s.db.orders[order.id])
    ensures BookSound(State(s.db, SyncOrderBook(s.redis, order)))
  {
    hide LedgerOk, SyncOrderBook, Insert, MemberText, SequenceOf, BookIndexed, Before, Sorted;
    var next := State(s.db, SyncOrderBook(s.redis, order));
    var key := KeyOf(order);
    var entry := FreshEntry(s.redis, order);
    PutShape(s, order);
    assert Stands(next.db.orders, key, entry);
    NoEntryWithoutHash(s, key, order.id);
    InsertContents(BookOf(s.redis, key), entry);
    InsertKeepsSorted(BookOf(s.redis, key), entry);
  }

  lemma HashesEnteredAfterPut(s: State, next: State, order: Order, entry: Entry)
    requires HashesEntered(s) && next.db == s.db && order.id in s.db.orders && s.db.orders[order.id].price.Some?
    requires OrderIdOf(entry.member) == Some(order.id)
    requires entry.score == Score(s.db.orders[order.id].side, s.db.orders[order.id].price.value)
    requires entry in BookOf(next.redis, KeyOf(s.db.orders[order.id]))
    requires next.redis.hashes == s.redis.hashes[order.id := entry.member]
    requires forall key: BookKey, e :: e in BookOf(s.redis, key) ==> e in BookOf(next.redis, key)
    ensures HashesEntered(next)
  {
    hide BookOf, OrderIdOf;
  }

  lemma PutKeepsValid(s: State, order: Order)
    requires Valid(s) && Restable(order) && order.id !in s.redis.hashes
    requires order.id in s.db.orders && SameTerms(order, s.db.orders[order.id])
    ensures Valid(State(s.db, SyncOrderBook(s.redis, order)))
  {
    hide LedgerOk, BookSound, SyncOrderBook, Insert, MemberText, SequenceOf, EntriesHashed, HashesEntered;
    hide SequencesUnique, OrderIdOf;
    var next := State(s.db, SyncOrderBook(s.redis, order));
    var entry := FreshEntry(s.redis, order);
    PutShape(s, order);
    PutKeepsSound(s, order);
    InsertContents(BookOf(s.redis, KeyOf(order)), entry);
    NumberedStays(s, next);
    assert Numbered(next.redis, order.symbol, entry.member, order.id);
    hide Numbered, BookOf;
    EntriesHashedAfterPut(s, next, order, entry);
    HashesEnteredAfterPut(s, next, order, entry);
    UniqueAfterPut(s, next, order, entry);
  }

  lemma HashesAreNumbered(s: State, id: OrderId)
    requires Valid(s) && id in s.redis.hashes
    ensures Numbered(s.redis, s.db.orders[id].symbol, s.redis.hashes[id], id)
  {
    var order := s.db.orders[id];
    var e := Entry(Score(order.side, order.price.value), s.redis.hashes[id]);
    assert e in BookOf(s.redis, KeyOf(order));
  }

  lemma UniqueAfterPut(s: State, next: State, order: Order, entry: Entry)
    requires Valid(s) && next.db == s.db && order.id in s.db.orders && s.db.orders[order.id].symbol == order.symbol
    requires next.redis.hashes == s.redis.hashes[order.id := entry.member]
    requires SequenceOf(entry.member) == Some(SequenceAt(s.redis, order.symbol) + 1)
    ensures SequencesUnique(next)
  {
    hide LedgerOk, BookSound, EntriesHashed, MemberText, SequenceOf;
    forall id | id in s.redis.hashes && s.db.orders[id].symbol == order.symbol
      ensures SequenceOf(s.redis.hashes[id]) != SequenceOf(entry.member)
    {
      HashesAreNumbered(s, id);
    }
  }

  lemma NoEntryWithoutHash(s: State, key: BookKey, id: OrderId)
    requires BookIndexed(s) && id !in s.redis.hashes
    ensures forall e <- BookOf(s.redis, key) :: OrderIdOf(e.member) != Some(id)
  {
  }

  lemma EntriesHashedAfterPut(s: State, next: State, order: Order, entry: Entry)
    requires EntriesHashed(s) && order.id !in s.redis.hashes
    requires next.redis.hashes == s.redis.hashes[order.id := entry.member]
    requires forall key: BookKey, e :: e in BookOf(next.redis, key) ==>
      e in BookOf(s.redis, key) || (e == entry && key == KeyOf(order))
    requires forall symbol, member, id ::
               Numbered(s.redis, symbol, member, id) ==> Numbered(next.redis, symbol, member, id)
    requires OrderIdOf(entry.member) == Some(order.id) && Numbered(next.redis, order.symbol, entry.member, order.id)
    ensures EntriesHashed(next)
  {
    hide Numbered;
  }

  lemma PutEligible(s: State, order: Order, orders: map<OrderId, Order>, key: BookKey)
    requires Valid(s) && Restable(order) && order.id !in s.redis.hashes
    requires order.id in s.db.orders && SameTerms(order, s.db.orders[order.id])
    requires SequenceAt(s.redis, order.symbol) + 1 < 100_000_000_000_000_000_000
    requires forall id <- s.db.orders :: id in orders && SameTerms(s.db.orders[id], orders[id])
    ensures var ids := EligibleIds(orders, None, BookOf(s.redis, key));
            && order.id !in ids
            && EligibleIds(orders, None, BookOf(SyncOrderBook(s.redis, order), key))
               == if key == KeyOf(order) && IsOpen(orders[order.id]) then Enqueue(orders, ids, order.id) else ids
  {
    hide LedgerOk, SyncOrderBook, Insert, MemberText, SequenceOf, HashesEntered, Enqueue, EligibleIds, Numbered;
    var book := BookOf(s.redis, key);
    var entry := FreshEntry(s.redis, order);
    PutShape(s, order);
    NoEntryWithoutHash(s, key, order.id);
    EligibleMembers(orders, None, book, order.id);
    if key == KeyOf(order) {
      forall e | e in book ensures Stands(orders, key, e) {
        assert Stands(s.db.orders, key, e);
      }
      assert Stands(orders, key, entry);
      forall e | e in book && e.score == entry.score ensures Before(e, entry) {
        FreshMemberIsLast(s, order, e);
      }
      EnqueueEntry(orders, key, book, entry);
    }
  }

  lemma EnqueueContains(orders: map<OrderId, Order>, ids: seq<OrderId>, id: OrderId)
    ensures id in Enqueue(orders, ids, id)
  {
  }

  lemma PutKeepsFinalDb(s: State, id: OrderId)
    requires Valid(s) && id in s.db.orders && Restable(s.db.orders[id]) && id !in s.redis.hashes
    requires s.db.orders[id].id == id
    ensures FinalDb(State(s.db, SyncOrderBook(s.redis, s.db.orders[id])), id) == FinalDb(s, id)
  {
    hide Valid, SyncOrderBook, Pass, EligibleIds, Cancel, BookOf, MemberText, Insert;
    PutShape(s, s.db.orders[id]);
  }

  /** Resting the taker before or after the rest of the run gives it the same place in the queue. */
  lemma PutStep(s: State, id: OrderId)
    requires Valid(s) && id in s.db.orders && Restable(s.db.orders[id]) && id !in s.redis.hashes
    requires SequenceAt(s.redis, s.db.orders[id].symbol) + 1 < 100_000_000_000_000_000_000
    ensures var next := State(s.db, SyncOrderBook(s.redis, s.db.orders[id]));
            Valid(next) && SameOutcome(s, next, id) && id in View(next, KeyOf(s.db.orders[id]))
  {
    hide LedgerOk, BookSound, BookIndexed, SyncOrderBook, FinalDb, EligibleIds, Enqueue, BookOf, Conserved;
    var order := s.db.orders[id];
    assert order.id == id by { LedgerIds(s.db, id); }
    var next := State(s.db, SyncOrderBook(s.redis, order));
    PutKeepsValid(s, order);
    FinalDbIsSafe(s, id);
    var final := FinalDb(s, id);
    PutKeepsFinalDb(s, id);
    forall key: BookKey ensures FinalView(s, id, key) == FinalView(next, id, key) {
      PutEligible(s, order, final.orders, key);
      EnqueueContains(final.orders, EligibleIds(final.orders, None, BookOf(s.redis, key)), id);
    }
    PutEligible(s, order, s.db.orders, KeyOf(order));
    EnqueueContains(s.db.orders, View(s, KeyOf(order)), id);
  }

  lemma LedgerIds(db: Db, id: OrderId)
    requires LedgerOk(db) && id in db.orders
    ensures db.orders[id].id == id && OrderOk(db.orders[id])
  {
  }

  // ----- One call of syncOrderBook inside a run

  lemma {:induction false} WithoutShrinks(book: seq<Entry>, entry: Entry)
    requires entry in book
    ensures |Without(book, entry.member)| < |book|
  {
    if book[0] != entry {
      assert entry in book[1..];
      WithoutShrinks(book[1..], entry);
    }
  }

  lemma DropShrinks(s: State, order: Order)
    requires Valid(s) && order.id in s.redis.hashes && SameTerms(order, s.db.orders[order.id])
    ensures |BookOf(RemoveBookEntry(s.redis, order), KeyOf(order))| < |BookOf(s.redis, KeyOf(order))|
  {
    var entry := Entry(Score(order.side, order.price.value), s.redis.hashes[order.id]);
    assert entry in BookOf(s.redis, KeyOf(order));
    WithoutShrinks(BookOf(s.redis, KeyOf(order)), entry);
  }

  /** Orders that go on resting keep their member, and with it their place in the queue. */
  ghost predicate MembersStay(s: State, t: State) {
    forall id <- s.redis.hashes :: id in t.db.orders && IsOpen(t.db.orders[id]) ==>
      id in t.redis.hashes && t.redis.hashes[id] == s.redis.hashes[id]
  }

  lemma MembersStayIsTransitive(a: State, b: State, c: State)
    requires MembersStay(a, b) && MembersStay(b, c) && HashesEntered(a) && Follows(a.db, b.db) && Follows(b.db, c.db)
    ensures MembersStay(a, c)
  {
    hide IsOpen;
    forall id | id in a.redis.hashes && id in c.db.orders && IsOpen(c.db.orders[id])
      ensures id in c.redis.hashes && c.redis.hashes[id] == a.redis.hashes[id]
    {
      assert id in a.db.orders && id in b.db.orders;
      assert IsOpen(b.db.orders[id]);
    }
  }

  // ----- What every command keeps, whatever the window holds and however long the sequence is

  /** The book is still an index of the resting orders, rows have only moved forward, and every order
      that goes on resting has its place. */
  ghost predicate Keeps(s: State, t: State) {
    Valid(t) && Follows(s.db, t.db) && MembersStay(s, t)
  }

  lemma KeepsItself(s: State)
    requires Valid(s)
    ensures Keeps(s, s)
  {
    hide LedgerOk, BookSound, BookIndexed;
  }

  lemma KeepsIsTransitive(a: State, b: State, c: State)
    requires Valid(a) && Keeps(a, b) && Keeps(b, c)
    ensures Keeps(a, c)
  {
    hide LedgerOk, BookSound, EntriesHashed, SequencesUnique, HashesEntered, Follows, MembersStay;
    FollowsIsTransitive(a.db, b.db, c.db);
    MembersStayIsTransitive(a, b, c);
  }

  /** Any statement that touches the database alone. */
  lemma DatabaseKeeps(s: State, after: Db)
    requires Valid(s) && LedgerOk(after) && Follows(s.db, after)
    ensures Keeps(s, State(after, s.redis))
  {
    hide Valid, LedgerOk, Follows;
    ValidFollows(s, after);
  }

  lemma SettleKeeps(s: State, a: OrderId, b: OrderId)
    requires Valid(s) && Settle(s.db, a, b).Committed?
    ensures Keeps(s, State(Settle(s.db, a, b).db, s.redis))
  {
    hide LedgerOk, BookSound, BookIndexed, Settle, Follows, Conserved, Keeps;
    SettleIsSafe(s.db, a, b);
    DatabaseKeeps(s, Settle(s.db, a, b).db);
  }

  lemma CancelKeeps(s: State, id: OrderId)
    requires Valid(s)
    ensures Keeps(s, State(Cancel(s.db, id), s.redis))
  {
    hide LedgerOk, BookSound, BookIndexed, Cancel, Follows, Conserved, Keeps;
    CancelIsSafe(s.db, id);
    DatabaseKeeps(s, Cancel(s.db, id));
  }

  lemma IncrementKeeps(s: State, symbol: Symbol)
    requires Valid(s)
    ensures Keeps(s, State(s.db, Increment(s.redis, symbol)))
  {
    hide LedgerOk, BookSound, BookIndexed, SameOutcome;
    IncrementStep(s, symbol, OrderId(""));
  }

  /** A sync on the row as it is, first or repeated, of an order that rests or of one that cannot. */
  lemma SyncKeeps(s: State, id: OrderId)
    requires Valid(s) && id in s.db.orders
    ensures Keeps(s, State(s.db, SyncOrderBook(s.redis, s.db.orders[id])))
  {
    hide LedgerOk, BookSound, BookIndexed, RemoveBookEntry, PutEntry, Increment, MemberText;
    var order := s.db.orders[id];
    LedgerIds(s.db, id);
    if !Restable(order) {
      DropKeepsValid(s, order);
      DropHashes(s.redis, order);
      if IsOpen(order) {
        UnpricedHasNoHash(s, id);
      }
    } else if id in s.redis.hashes {
      SyncKeepsMember(s, order);
    } else {
      PutKeepsValid(s, order);
      PutShape(s, order);
    }
  }

  /** What a run for `id` may still see change when an order is synced: nothing but the entry of a
      closed order going away, or its own entry appearing on its own side. */
  ghost predicate Synced(s: State, next: State, order: Order, id: OrderId)
    requires id in s.db.orders
  {
    var taker := s.db.orders[id];
    var key := OppositeKey(taker);
    && next.db == s.db && Valid(next) && SameOutcome(s, next, id)
    && Queue(next, taker) == Queue(s, taker)
    && |BookOf(next.redis, key)| <= |BookOf(s.redis, key)|
    && (!IsOpen(order) && order.id in s.redis.hashes && KeyOf(order) == key ==>
        |BookOf(next.redis, key)| < |BookOf(s.redis, key)|)
    && (Restable(order) ==> order.id in next.redis.hashes)
    && (forall other <- s.redis.hashes :: other != order.id ==> other in next.redis.hashes)
    && MembersStay(s, next)
    && Behind(s.db.orders, Some(taker.userId), BookOf(next.redis, key))
       <= Behind(s.db.orders, Some(taker.userId), BookOf(s.redis, key))
    && SequenceAt(next.redis, taker.symbol) <= SequenceAt(s.redis, taker.symbol)
                                               + if Restable(order) && order.id !in s.redis.hashes then 1 else 0
  }

  lemma SyncStep(s: State, order: Order, id: OrderId)
    requires Valid(s) && order.id in s.db.orders && order == s.db.orders[order.id] && id in s.db.orders
    requires Restable(order) && order.id !in s.redis.hashes ==>
               order.id == id && SequenceAt(s.redis, order.symbol) + 1 < 100_000_000_000_000_000_000
    ensures Synced(s, State(s.db, SyncOrderBook(s.redis, order)), order, id)
  {
    hide Valid, Restable, SyncOrderBook, Synced;
    if !Restable(order) {
      SyncedDrop(s, order, id);
    } else if order.id in s.redis.hashes {
      SyncedAgain(s, order, id);
    } else {
      SyncedPut(s, order);
    }
  }

  lemma SyncedAgain(s: State, order: Order, id: OrderId)
    requires Valid(s) && order.id in s.db.orders && order == s.db.orders[order.id] && id in s.db.orders
    requires Restable(order) && order.id in s.redis.hashes
    ensures Synced(s, State(s.db, SyncOrderBook(s.redis, order)), order, id)
  {
    hide LedgerOk, BookSound, BookIndexed, SameOutcome, Queue, SyncOrderBook;
    SyncKeepsMember(s, order);
    SameOutcomeIsReflexive(s, id);
  }

  lemma SyncedPut(s: State, order: Order)
    requires Valid(s) && order.id in s.db.orders && order == s.db.orders[order.id]
    requires Restable(order) && order.id !in s.redis.hashes &&
      SequenceAt(s.redis, order.symbol) + 1 < 100_000_000_000_000_000_000
    ensures Synced(s, State(s.db, SyncOrderBook(s.redis, order)), order, order.id)
  {
    hide LedgerOk, BookSound, BookIndexed, SameOutcome, EligibleIds, SyncOrderBook, View, MemberText, Insert;
    PutStep(s, order.id);
    PutShape(s, order);
  }

  lemma SyncedDrop(s: State, order: Order, id: OrderId)
    requires Valid(s) && order.id in s.db.orders && order == s.db.orders[order.id] && id in s.db.orders
    requires !Restable(order)
    ensures Synced(s, State(s.db, SyncOrderBook(s.redis, order)), order, id)
  {
    hide LedgerOk, BookSound, BookIndexed, SameOutcome, EligibleIds, RemoveBookEntry;
    var taker := s.db.orders[id];
    var key := OppositeKey(taker);
    DropStep(s, order, id);
    DropHashes(s.redis, order);
    DropNeverGrows(s.redis, order, key);
    if IsOpen(order) {
      UnpricedHasNoHash(s, order.id);
      DropUnknown(s.redis, order);
    } else {
      DropKeepsEligible(s, order, s.db.orders, Some(taker.userId), key);
      DropKeepsBehind(s, order, Some(taker.userId), key);
      if order.id in s.redis.hashes {
        DropShrinks(s, order);
      }
    }
  }

  lemma SameOutcomeIsReflexive(s: State, id: OrderId)
    ensures SameOutcome(s, s, id)
  {
  }

  lemma DropNeverGrows(redis: Redis, order: Order, key: BookKey)
    ensures |BookOf(RemoveBookEntry(redis, order), key)| <= |BookOf(redis, key)|
  {
  }

  lemma SameOutcomeIsTransitive(a: State, b: State, c: State, id: OrderId)
    requires SameOutcome(a, b, id) && SameOutcome(b, c, id)
    ensures SameOutcome(a, c, id)
  {
    hide FinalDb, FinalView;
  }
}
