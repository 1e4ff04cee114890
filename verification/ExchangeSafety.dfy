/** What every interleaving keeps, whatever is stale, lost, repeated or crashed. */
module ExchangeSafety {
  import opened Orders
  import opened Settlement
  import opened Ledger
  import opened BookEncoding
  import opened OrderBook
  import opened Matching
  import opened BookScan
  import opened Exchange

  // ----- Snapshots and entries

  /** A row read earlier: its terms still hold, and if it was closed it still is. */
  predicate Snapshot(db: Db, order: Order) {
    && order.id in db.orders
    && SameTerms(order, db.orders[order.id])
    && (!IsOpen(order) ==> !IsOpen(db.orders[order.id]))
  }

  predicate NamesOrder(member: Option<string>, id: OrderId) {
    member.Some? ==> OrderIdOf(member.value) == Some(id)
  }

  /** A pending removal always acts on an order that can no longer rest: closed orders stay closed. */
  predicate CallOk(db: Db, call: BookCall) {
    match call
    case Sync(order) => Snapshot(db, order)
    case Forget(order) => false
    case Put(order, member) => Snapshot(db, order) && Restable(order) && NamesOrder(member, order.id)
    case Drop(order, member) => Snapshot(db, order) && !Restable(db.orders[order.id]) && NamesOrder(member, order.id)
  }

  ghost predicate InBook(redis: Redis, key: BookKey, id: OrderId) {
    exists e <- BookOf(redis, key) :: OrderIdOf(e.member) == Some(id)
  }

  /** Closed, or a limit order with an entry on its side of the book. */
  ghost predicate Rested(db: Db, redis: Redis, id: OrderId) {
    && id in db.orders
    && (IsOpen(db.orders[id]) ==> db.orders[id].orderType.Limit? && InBook(redis, KeyOf(db.orders[id]), id))
  }

  ghost predicate BookFaithful(db: Db, redis: Redis) {
    && BookSound(State(db, redis))
    && forall id <- redis.hashes :: OrderIdOf(redis.hashes[id]) == Some(id)
  }

  // ----- Threads

  predicate Reads(db: Db, incoming: Order, id: OrderId) {
    Snapshot(db, incoming) && incoming.id == id && IsOpen(incoming)
  }

  predicate MemberStands(db: Db, key: BookKey, member: string) {
    var id := OrderIdOf(member);
    && id.Some? && id.value in db.orders
    && db.orders[id.value].orderType.Limit? && db.orders[id.value].price.Some? && KeyOf(db.orders[id.value]) == key
  }

  function MemberScore(db: Db, member: string): int {
    var id := OrderIdOf(member);
    if id.None? then 0 else ScoreOf(db.orders, id.value)
  }

  /** The members a scan has still to look at: entries of the other side, best price first. */
  predicate RestOk(db: Db, incoming: Order, rest: seq<string>) {
    && (forall i | 0 <= i < |rest| :: MemberStands(db, OppositeKey(incoming), rest[i]))
    && (forall i, j | 0 <= i < j < |rest| :: MemberScore(db, rest[i]) <= MemberScore(db, rest[j]))
  }

  /** The last sync of a run puts its order into the book, or the order is closed. */
  ghost predicate WillRest(db: Db, redis: Redis, t: Thread) {
    && t.orderId in db.orders
    && if t.calls == [] then Rested(db, redis, t.orderId)
       else |t.calls| == 1 && t.calls[0].order.id == t.orderId
            && (IsOpen(db.orders[t.orderId]) ==>
                  (t.calls[0].Sync? || t.calls[0].Put?) && Restable(t.calls[0].order))
  }

  ghost predicate PhaseOk(db: Db, redis: Redis, t: Thread) {
    match t.phase
    case Ranging(incoming) => Reads(db, incoming, t.orderId)
    case Scanning(incoming, rest, _) => Reads(db, incoming, t.orderId) && RestOk(db, incoming, rest)
    case Settling(incoming, resting) =>
      && Reads(db, incoming, t.orderId) && Snapshot(db, resting)
      && CanMatch(incoming, resting) && incoming.userId != resting.userId && resting.price.Some?
    case Refetching(vanished) => vanished.None? && t.orderId in db.orders
    case Finishing(incoming) => Reads(db, incoming, t.orderId)
    case Acquiring(symbol) => t.orderId in db.orders && symbol == db.orders[t.orderId].symbol
    case Fetching => t.orderId in db.orders
    case Releasing => WillRest(db, redis, t)
    case _ => true
  }

  ghost predicate ThreadOk(db: Db, redis: Redis, t: Thread) {
    && (forall i | 0 <= i < |t.calls| :: CallOk(db, t.calls[i]))
    && PhaseOk(db, redis, t)
  }

  ghost predicate SysOk(s: Sys) {
    && LedgerOk(s.db)
    && BookFaithful(s.db, s.redis)
    && (forall tid <- s.threads :: tid < s.nextThread && ThreadOk(s.db, s.redis, s.threads[tid]))
    && (forall id <- s.completed :: Rested(s.db, s.redis, id))
  }

  // ----- Framing: what the other threads rely on survives every step

  ghost predicate BookStays(db: Db, before: Redis, after: Redis) {
    forall key: BookKey, id: OrderId ::
      InBook(before, key, id) && id in db.orders && Restable(db.orders[id]) ==> InBook(after, key, id)
  }

  lemma CallStays(before: Db, after: Db, call: BookCall)
    requires CallOk(before, call) && Follows(before, after)
    ensures CallOk(after, call)
  {
  }

  lemma RestedStays(before: Db, after: Db, redis: Redis, next: Redis, id: OrderId)
    requires Rested(before, redis, id) && Follows(before, after) && BookStays(after, redis, next) && OrdersOk(after)
    ensures Rested(after, next, id)
  {
    assert OrderOk(after.orders[id]);
  }

  lemma RestStays(before: Db, after: Db, incoming: Order, rest: seq<string>)
    requires RestOk(before, incoming, rest) && Follows(before, after)
    ensures RestOk(after, incoming, rest)
  {
    forall i | 0 <= i < |rest|
      ensures MemberStands(after, OppositeKey(incoming), rest[i]) &&
        MemberScore(after, rest[i]) == MemberScore(before, rest[i])
    {
      assert MemberStands(before, OppositeKey(incoming), rest[i]);
    }
  }

  lemma ThreadStays(before: Db, after: Db, redis: Redis, next: Redis, t: Thread)
    requires ThreadOk(before, redis, t) && Follows(before, after) && BookStays(after, redis, next) && OrdersOk(after)
    ensures ThreadOk(after, next, t)
  {
    hide RestOk, Rested, CallOk, OrdersOk, BookStays;
    forall i | 0 <= i < |t.calls| ensures CallOk(after, t.calls[i]) {
      CallStays(before, after, t.calls[i]);
    }
    match t.phase
    case Scanning(incoming, rest, _) => RestStays(before, after, incoming, rest);
    case Releasing =>
      if t.calls == [] {
        RestedStays(before, after, redis, next, t.orderId);
      }
    case _ =>
  }

  // ----- Redis commands

  lemma PutIsFaithful(db: Db, redis: Redis, order: Order, member: string)
    requires BookFaithful(db, redis) && Snapshot(db, order) && Restable(order) && OrderIdOf(member) == Some(order.id)
    ensures BookFaithful(db, PutEntry(redis, order, member))
    ensures BookStays(db, redis, PutEntry(redis, order, member))
    ensures InBook(PutEntry(redis, order, member), KeyOf(order), order.id)
  {
    var key := KeyOf(order);
    var book := BookOf(redis, key);
    var entry := Entry(Score(order.side, order.price.value), member);
    var next := PutEntry(redis, order, member);
    assert Sorted(book);
    PlaceContents(book, entry);
    PlaceKeepsSorted(book, entry);
    assert Stands(db.orders, key, entry);
    assert entry in BookOf(next, key);
    forall k: BookKey ensures Sorted(BookOf(next, k)) && forall e <- BookOf(next, k) :: Stands(db.orders, k, e) {
      assert BookOf(next, k) == if k == key then Place(book, entry) else BookOf(redis, k);
    }
    forall k: BookKey, id: OrderId | InBook(redis, k, id) ensures InBook(next, k, id) {
      var e :| e in BookOf(redis, k) && OrderIdOf(e.member) == Some(id);
      if k == key {
        assert e in Place(book, entry) || e.member == entry.member;
      } else {
        assert e in BookOf(next, k);
      }
    }
  }

  lemma DropIsFaithful(db: Db, redis: Redis, order: Order, member: Option<string>)
    requires BookFaithful(db, redis) && order.id in db.orders && !Restable(db.orders[order.id]) &&
      NamesOrder(member, order.id)
    ensures BookFaithful(db, DropEntry(redis, order, member))
    ensures BookStays(db, redis, DropEntry(redis, order, member))
  {
    var key := KeyOf(order);
    var book := BookOf(redis, key);
    var next := DropEntry(redis, order, member);
    assert Sorted(book);
    if member.Some? {
      WithoutContents(book, member.value);
      WithoutKeepsSorted(book, member.value);
    }
    forall k: BookKey ensures Sorted(BookOf(next, k)) && forall e <- BookOf(next, k) :: Stands(db.orders, k, e) {
      assert BookOf(next, k) == if member.Some? && k == key then Without(book, member.value) else BookOf(redis, k);
    }
    forall k: BookKey, id: OrderId | InBook(redis, k, id) && id in db.orders && Restable(db.orders[id])
      ensures InBook(next, k, id)
    {
      var e :| e in BookOf(redis, k) && OrderIdOf(e.member) == Some(id);
      assert e in BookOf(next, k);
    }
  }

  lemma IncrementIsFaithful(db: Db, redis: Redis, symbol: Symbol)
    requires BookFaithful(db, redis)
    ensures BookFaithful(db, Increment(redis, symbol)) && BookStays(db, redis, Increment(redis, symbol))
  {
    var next := Increment(redis, symbol);
    forall key: BookKey ensures BookOf(next, key) == BookOf(redis, key) {}
  }

  lemma FaithfulFollows(before: Db, after: Db, redis: Redis)
    requires BookFaithful(before, redis) && Follows(before, after)
    ensures BookFaithful(after, redis)
  {
    forall key: BookKey
      ensures Sorted(BookOf(redis, key)) && forall e <- BookOf(redis, key) :: Stands(after.orders, key, e)
    {
      forall e | e in BookOf(redis, key) ensures Stands(after.orders, key, e) {
        assert Stands(before.orders, key, e);
      }
    }
  }

  // ----- One step

  /** What a step of one thread, or an outside statement, must deliver for the invariant to go on. */
  ghost predicate Advances(s: Sys, next: Sys) {
    && LedgerOk(next.db) && Follows(s.db, next.db)
    && BookFaithful(next.db, next.redis) && BookStays(next.db, s.redis, next.redis)
    && s.nextThread <= next.nextThread
    && (forall tid <- next.threads ::
          && tid < next.nextThread
          && ((tid in s.threads && next.threads[tid] == s.threads[tid])
              || ThreadOk(next.db, next.redis, next.threads[tid])))
    && (forall id <- next.completed :: id in s.completed || Rested(next.db, next.redis, id))
  }

  lemma AdvancingKeepsOk(s: Sys, next: Sys)
    requires SysOk(s) && Advances(s, next)
    ensures SysOk(next)
  {
    hide LedgerOk, Follows, BookFaithful, BookStays, ThreadOk, Rested;
    LedgerGivesOrders(next.db);
    forall tid | tid in next.threads ensures ThreadOk(next.db, next.redis, next.threads[tid]) {
      if tid in s.threads && next.threads[tid] == s.threads[tid] {
        ThreadStays(s.db, next.db, s.redis, next.redis, s.threads[tid]);
      }
    }
    forall id | id in next.completed ensures Rested(next.db, next.redis, id) {
      if id in s.completed {
        RestedStays(s.db, next.db, s.redis, next.redis, id);
      }
    }
  }

  /** A statement that only touches the database. */
  lemma DatabaseAdvances(s: Sys, next: Sys)
    requires SysOk(s) && LedgerOk(next.db) && Follows(s.db, next.db)
    requires next == s.(db := next.db)
    ensures Advances(s, next)
  {
    hide LedgerOk, Follows, ThreadOk, Rested;
    FaithfulFollows(s.db, next.db, s.redis);
  }

  lemma QuietAdvances(s: Sys, next: Sys)
    requires SysOk(s) && next.db == s.db && next.redis == s.redis && next.nextThread == s.nextThread
    requires forall tid <- next.threads ::
               tid in s.threads && (next.threads[tid] == s.threads[tid] || ThreadOk(s.db, s.redis, next.threads[tid]))
    requires forall id <- next.completed :: id in s.completed || Rested(s.db, s.redis, id)
    ensures Advances(s, next)
  {
    hide LedgerOk, ThreadOk, Rested;
  }

  lemma PhaseOkAnywhere(db: Db, redis: Redis, t: Thread, calls: seq<BookCall>)
    requires PhaseOk(db, redis, t) && !t.phase.Releasing?
    ensures PhaseOk(db, redis, t.(calls := calls))
  {
  }

  lemma CallsAfterFirst(db: Db, t: Thread, first: seq<BookCall>)
    requires t.calls != [] && |first| <= 1
    requires forall i | 0 <= i < |t.calls| :: CallOk(db, t.calls[i])
    requires forall i | 0 <= i < |first| :: CallOk(db, first[i])
    ensures var calls := first + t.calls[1..]; forall i | 0 <= i < |calls| :: CallOk(db, calls[i])
  {
    hide CallOk;
  }

  /** HGET answered: the call goes on with the member it saw, which may be out of date by the time it writes. */
  lemma LookupAdvances(s: Sys, tid: nat)
    requires SysOk(s) && tid in s.threads && s.threads[tid].calls != [] && s.threads[tid].calls[0].Sync?
    ensures Advances(s, CallStep(s, tid))
  {
    hide LedgerOk, BookSound, Rested, RestOk;
    var t := s.threads[tid];
    var order := t.calls[0].order;
    var member := MemberOf(s.redis, order.id);
    var call := if Restable(order) then Put(order, member) else Drop(order, member);
    assert CallOk(s.db, t.calls[0]);
    assert CallOk(s.db, call) by {
      LedgerGivesOrders(s.db);
      assert OrderOk(s.db.orders[order.id]);
    }
    CallsAfterFirst(s.db, t, [call]);
    assert ThreadOk(s.db, s.redis, t.(calls := [call] + t.calls[1..]));
    QuietAdvances(s, CallStep(s, tid));
  }

  lemma IncrementAdvances(s: Sys, tid: nat)
    requires SysOk(s) && tid in s.threads && s.threads[tid].calls != []
    requires s.threads[tid].calls[0].Put? && s.threads[tid].calls[0].member.None?
    ensures Advances(s, CallStep(s, tid))
  {
    hide LedgerOk, BookFaithful, RestOk, MemberText, OrderIdOf, Increment;
    var t := s.threads[tid];
    var order := t.calls[0].order;
    var next := CallStep(s, tid);
    assert CallOk(s.db, t.calls[0]);
    IncrementIsFaithful(s.db, s.redis, order.symbol);
    MemberRoundTrip(SequenceAt(next.redis, order.symbol), order.id);
    var call := next.threads[tid].calls[0];
    assert CallOk(s.db, call);
    CallsAfterFirst(s.db, t, [call]);
    LedgerGivesOrders(s.db);
    ThreadStays(s.db, s.db, s.redis, next.redis, t);
  }

  /** The last call of a run done: its order rests. */
  lemma LastCallRests(db: Db, redis: Redis, next: Redis, t: Thread)
    requires t.phase.Releasing? && WillRest(db, redis, t) && t.calls != [] && OrdersOk(db)
    requires IsOpen(db.orders[t.orderId]) && Snapshot(db, t.calls[0].order) ==>
      InBook(next, KeyOf(t.calls[0].order), t.orderId)
    requires Snapshot(db, t.calls[0].order)
    ensures WillRest(db, next, t.(calls := t.calls[1..]))
  {
    assert t.calls[1..] == [];
    assert OrderOk(db.orders[t.orderId]);
  }

  lemma PutAdvances(s: Sys, tid: nat)
    requires SysOk(s) && tid in s.threads && s.threads[tid].calls != []
    requires s.threads[tid].calls[0].Put? && s.threads[tid].calls[0].member.Some?
    ensures Advances(s, CallStep(s, tid))
  {
    hide LedgerOk, BookFaithful, BookStays, RestOk, PutEntry, InBook, Rested, WillRest;
    var t := s.threads[tid];
    var order := t.calls[0].order;
    var next := CallStep(s, tid);
    assert CallOk(s.db, t.calls[0]);
    PutIsFaithful(s.db, s.redis, order, t.calls[0].member.value);
    CallsAfterFirst(s.db, t, []);
    assert [] + t.calls[1..] == t.calls[1..];
    LedgerGivesOrders(s.db);
    if t.phase.Releasing? {
      assert order.id == t.orderId by { CallsAreOwn(s.db, s.redis, t); }
      LastCallRests(s.db, s.redis, next.redis, t);
    } else {
      ThreadStays(s.db, s.db, s.redis, next.redis, t);
      PhaseOkAnywhere(s.db, next.redis, t, t.calls[1..]);
    }
  }

  lemma CallsAreOwn(db: Db, redis: Redis, t: Thread)
    requires WillRest(db, redis, t) && t.calls != []
    ensures t.calls[0].order.id == t.orderId && t.orderId in db.orders
    ensures IsOpen(db.orders[t.orderId]) ==> (t.calls[0].Sync? || t.calls[0].Put?)
  {
  }

  lemma DropAdvances(s: Sys, tid: nat)
    requires SysOk(s) && tid in s.threads && s.threads[tid].calls != [] && s.threads[tid].calls[0].Drop?
    ensures Advances(s, CallStep(s, tid))
  {
    hide LedgerOk, BookFaithful, BookStays, RestOk, DropEntry, InBook, Rested, WillRest;
    var t := s.threads[tid];
    var next := CallStep(s, tid);
    assert CallOk(s.db, t.calls[0]);
    DropIsFaithful(s.db, s.redis, t.calls[0].order, t.calls[0].member);
    CallsAfterFirst(s.db, t, []);
    assert [] + t.calls[1..] == t.calls[1..];
    LedgerGivesOrders(s.db);
    if t.phase.Releasing? {
      CallsAreOwn(s.db, s.redis, t);
      LastCallRests(s.db, s.redis, next.redis, t);
    } else {
      ThreadStays(s.db, s.db, s.redis, next.redis, t);
      PhaseOkAnywhere(s.db, next.redis, t, t.calls[1..]);
    }
  }

  lemma CallAdvances(s: Sys, tid: nat)
    requires SysOk(s) && tid in s.threads && s.threads[tid].calls != []
    ensures Advances(s, CallStep(s, tid))
  {
    hide Advances, LedgerOk, BookFaithful, PhaseOk, CallStep;
    assert CallOk(s.db, s.threads[tid].calls[0]);
    match s.threads[tid].calls[0]
    case Sync(_) => LookupAdvances(s, tid);
    case Forget(_) =>
    case Put(_, None) => IncrementAdvances(s, tid);
    case Put(_, Some(_)) => PutAdvances(s, tid);
    case Drop(_, _) => DropAdvances(s, tid);
  }

  // ----- The phases of a run

  lemma ReadingIsCurrent(db: Db, id: OrderId)
    requires LedgerOk(db) && id in db.orders
    ensures Snapshot(db, db.orders[id]) && db.orders[id].id == id
  {
  }

  lemma RangeReadsInOrder(db: Db, redis: Redis, incoming: Order)
    requires BookFaithful(db, redis)
    ensures RestOk(db, incoming, Members(Window(BookOf(redis, OppositeKey(incoming)))))
  {
    var key := OppositeKey(incoming);
    var window := Window(BookOf(redis, key));
    assert Sorted(BookOf(redis, key));
    forall i | 0 <= i < |window|
      ensures MemberStands(db, key, Members(window)[i]) && MemberScore(db, Members(window)[i]) == window[i].score
    {
      assert window[i] in BookOf(redis, key);
      assert Stands(db.orders, key, window[i]);
    }
  }

  lemma ScanAdvances(s: Sys, tid: nat)
    requires SysOk(s) && tid in s.threads && s.threads[tid].calls == [] && s.threads[tid].phase.Scanning?
    ensures Advances(s, ThreadStep(s, tid))
  {
    hide LedgerOk, BookFaithful, Rested, CanMatch, IsOpen, MemberScore, SameTerms, Advances, RemoveMember;
    var t := s.threads[tid];
    var next := ThreadStep(s, tid);
    assert ThreadOk(s.db, s.redis, t);
    var rest := t.phase.rest;
    if rest != [] {
      assert MemberStands(s.db, OppositeKey(t.phase.incoming), rest[0]);
      ReadingIsCurrent(s.db, OrderIdOf(rest[0]).value);
      assert RestOk(s.db, t.phase.incoming, rest[1..]);
    }
    QuietAdvances(s, next);
  }

  lemma SettledOrdersAreCurrent(db: Db, a: OrderId, b: OrderId)
    requires LedgerOk(db) && a in db.orders && b in db.orders && a != b && Settle(db, a, b).Committed?
    ensures var tx := Settle(db, a, b);
            tx.report.orders != [] && forall o <- tx.report.orders :: o.id in tx.db.orders && o == tx.db.orders[o.id]
  {
    hide PayAndDeliver, Executable, CancelsBuy, CancelsSell, Solvent, TradesOk, FillsAreTraded;
  }

  lemma SettlementAdvances(s: Sys, tid: nat)
    requires SysOk(s) && tid in s.threads && s.threads[tid].calls == [] && s.threads[tid].phase.Settling?
    ensures Advances(s, ThreadStep(s, tid))
  {
    hide LedgerOk, BookFaithful, BookStays, Settle, Rested, RestOk;
    var t := s.threads[tid];
    assert ThreadOk(s.db, s.redis, t);
    var a, b := t.phase.incoming, t.phase.resting;
    LedgerGivesOrders(s.db);
    AttemptClosesOne(s.db, a, b);
    SettleIsSafe(s.db, a.id, b.id);
    SettledOrdersAreCurrent(s.db, a.id, b.id);
    var tx := Settle(s.db, a.id, b.id);
    FaithfulFollows(s.db, tx.db, s.redis);
    forall o | o in tx.report.orders ensures CallOk(tx.db, Sync(o)) {}
    assert BookStays(tx.db, s.redis, s.redis) by { BookStaysPut(tx.db, s.redis); }
    var next := ThreadStep(s, tid);
    assert next.db == tx.db && next.redis == s.redis;
    assert ThreadOk(next.db, next.redis, next.threads[tid]);
  }

  lemma BookStaysPut(db: Db, redis: Redis)
    ensures BookStays(db, redis, redis)
  {
  }

  lemma FinishAdvances(s: Sys, tid: nat)
    requires SysOk(s) && tid in s.threads && s.threads[tid].calls == [] && s.threads[tid].phase.Finishing?
    ensures Advances(s, ThreadStep(s, tid))
  {
    hide LedgerOk, BookFaithful, BookStays, Cancel, Conserved, ThreadOk, Rested;
    var t, next := s.threads[tid], ThreadStep(s, tid);
    assert ThreadOk(s.db, s.redis, t);
    assert Reads(s.db, t.phase.incoming, t.orderId) by { FinishingReads(s.db, s.redis, t); }
    CancelIsSafe(s.db, t.phase.incoming.id);
    FaithfulFollows(s.db, next.db, s.redis);
    BookStaysPut(next.db, s.redis);
    FinishingRests(s, tid);
  }

  lemma FinishingReads(db: Db, redis: Redis, t: Thread)
    requires ThreadOk(db, redis, t) && t.phase.Finishing?
    ensures Reads(db, t.phase.incoming, t.orderId)
  {
  }

  /** The sync a run ends with puts a limit order into the book, or finds the order closed. */
  lemma FinishingRests(s: Sys, tid: nat)
    requires tid in s.threads && s.threads[tid].calls == [] && s.threads[tid].phase.Finishing?
    requires LedgerOk(s.db) && Reads(s.db, s.threads[tid].phase.incoming, s.threads[tid].orderId)
    ensures var next := ThreadStep(s, tid);
            tid in next.threads && ThreadOk(next.db, next.redis, next.threads[tid])
  {
    hide LedgerOk, BookFaithful, Follows, Conserved;
    var incoming := s.threads[tid].phase.incoming;
    LedgerGivesOrders(s.db);
    assert OrderOk(s.db.orders[incoming.id]);
  }

  lemma RunAdvances(s: Sys, tid: nat)
    requires SysOk(s) && tid in s.threads && s.threads[tid].calls == []
    requires !s.threads[tid].phase.Scanning? && !s.threads[tid].phase.Settling? && !s.threads[tid].phase.Finishing?
    ensures Advances(s, ThreadStep(s, tid))
  {
    hide LedgerOk, BookFaithful, RestOk, InBook, Advances, CallStep, ScanStep, SettleStep, FinishStep;
    hide CallOk, Members, Window, IsOpen;
    var t := s.threads[tid];
    var next := ThreadStep(s, tid);
    assert ThreadOk(s.db, s.redis, t);
    if t.orderId in s.db.orders {
      ReadingIsCurrent(s.db, t.orderId);
    }
    if t.phase.Ranging? {
      RangeReadsInOrder(s.db, s.redis, t.phase.incoming);
      assert PhaseOk(s.db, s.redis, next.threads[tid]) && next.threads[tid].calls == [];
    } else if t.phase.Releasing? || t.phase.Leaving? {
      assert tid !in next.threads;
    } else {
      assert tid in next.threads ==> PhaseOk(s.db, s.redis, next.threads[tid]) && next.threads[tid].calls == [];
    }
    QuietAdvances(s, next);
  }

  lemma CallFirst(s: Sys, tid: nat)
    requires tid in s.threads && s.threads[tid].calls != []
    ensures ThreadStep(s, tid) == CallStep(s, tid)
  {
  }

  lemma ThreadAdvances(s: Sys, tid: nat)
    requires SysOk(s) && tid in s.threads
    ensures Advances(s, ThreadStep(s, tid))
  {
    hide SysOk, Advances;
    var t := s.threads[tid];
    if t.calls != [] {
      CallAdvances(s, tid);
    } else if t.phase.Scanning? {
      ScanAdvances(s, tid);
    } else if t.phase.Settling? {
      SettlementAdvances(s, tid);
    } else if t.phase.Finishing? {
      FinishAdvances(s, tid);
    } else {
      RunAdvances(s, tid);
    }
  }
}
