/** What one run of the matching loop should do: a left-to-right pass over the resting orders of
    other users in price-time order, stated on the database and the open entries of the book. */
module Matching {
  import opened Orders
  import opened Settlement
  import opened BookEncoding
  import opened OrderBook

  /** What is persisted between two commands: the database and the book. */
  datatype State = State(db: Db, redis: Redis)

  // ----- A sound book

  /** The entry stands for a limit order of this symbol and side, scored by its price. */
  predicate Stands(orders: map<OrderId, Order>, key: BookKey, entry: Entry) {
    var id := OrderIdOf(entry.member);
    && id.Some? && id.value in orders
    && var order := orders[id.value];
    && order.orderType.Limit? && order.price.Some?
    && KeyOf(order) == key
    && entry.score == Score(order.side, order.price.value)
  }

  ghost predicate BookSound(s: State) {
    forall key: BookKey ::
      && Sorted(BookOf(s.redis, key))
      && forall e <- BookOf(s.redis, key) :: Stands(s.db.orders, key, e)
  }

  /** The member is one the engine wrote: its sequence was handed out by the symbol's counter. */
  ghost predicate Numbered(redis: Redis, symbol: Symbol, member: string, id: OrderId) {
    && var n := SequenceOf(member);
    && n.Some? && member == MemberText(n.value, id)
    && n.value <= SequenceAt(redis, symbol)
  }

  /** Every entry is the one its order's hash remembers, */
  ghost predicate EntriesHashed(s: State) {
    forall key: BookKey :: forall e <- BookOf(s.redis, key) ::
      var id := OrderIdOf(e.member);
      id.Some? && MemberOf(s.redis, id.value) == Some(e.member) && Numbered(s.redis, key.symbol, e.member, id.value)
  }

  /** and every hash remembers an entry. */
  ghost predicate HashesEntered(s: State) {
    forall id <- s.redis.hashes ::
      && id in s.db.orders && s.db.orders[id].price.Some?
      && OrderIdOf(s.redis.hashes[id]) == Some(id)
      && var order := s.db.orders[id];
      Entry(Score(order.side, order.price.value), s.redis.hashes[id]) in BookOf(s.redis, KeyOf(order))
  }

  /** No sequence number is used twice within a symbol. */
  ghost predicate SequencesUnique(s: State) {
    forall a <- s.redis.hashes, b <- s.redis.hashes ::
      a != b && a in s.db.orders && b in s.db.orders && s.db.orders[a].symbol == s.db.orders[b].symbol
      ==> SequenceOf(s.redis.hashes[a]) != SequenceOf(s.redis.hashes[b])
  }

  /** The hashes and the members of the sorted sets are in bijection, and numbered apart. */
  ghost predicate BookIndexed(s: State) {
    EntriesHashed(s) && HashesEntered(s) && SequencesUnique(s)
  }

  ghost predicate Valid(s: State) {
    LedgerOk(s.db) && BookSound(s) && BookIndexed(s)
  }

  // ----- The open entries, in priority order

  predicate OpenEntry(orders: map<OrderId, Order>, e: Entry) {
    var id := OrderIdOf(e.member);
    id.Some? && id.value in orders && IsOpen(orders[id.value])
  }

  /** An entry a taker of user `exclude` may trade with; None excludes nobody. */
  predicate Eligible(orders: map<OrderId, Order>, exclude: Option<UserId>, e: Entry) {
    OpenEntry(orders, e) && Some(orders[OrderIdOf(e.member).value].userId) != exclude
  }

  function EligibleIds(orders: map<OrderId, Order>, exclude: Option<UserId>, book: seq<Entry>): (r: seq<OrderId>)
    ensures |r| <= |book|
  {
    if book == [] then []
    else if Eligible(orders, exclude, book[0]) then
      [OrderIdOf(book[0].member).value] + EligibleIds(orders, exclude, book[1..])
    else EligibleIds(orders, exclude, book[1..])
  }

  /** How many entries of a book a taker passes over. */
  function Skipped(orders: map<OrderId, Order>, exclude: Option<UserId>, book: seq<Entry>): nat {
    |book| - |EligibleIds(orders, exclude, book)|
  }

  /** The same without the closed entries ahead of the first eligible one, which a scan clears away. */
  function Behind(orders: map<OrderId, Order>, exclude: Option<UserId>, book: seq<Entry>): (r: nat)
    ensures r <= Skipped(orders, exclude, book)
  {
    if book == [] then 0
    else if Eligible(orders, exclude, book[0]) then Skipped(orders, exclude, book[1..])
    else (if OpenEntry(orders, book[0]) then 1 else 0) + Behind(orders, exclude, book[1..])
  }

  /** What a reader of the book sees: the open orders of one side, best first. */
  function View(s: State, key: BookKey): seq<OrderId> {
    EligibleIds(s.db.orders, None, BookOf(s.redis, key))
  }

  function OppositeKey(order: Order): BookKey {
    BookKey(order.symbol, order.side.Opposite())
  }

  /** The resting orders a taker may trade with, in the order it must try them. */
  function Queue(s: State, taker: Order): seq<OrderId> {
    EligibleIds(s.db.orders, Some(taker.userId), BookOf(s.redis, OppositeKey(taker)))
  }

  // ----- The pass

  /** One left-to-right pass: settle with each order in turn until the taker is closed or the next
      order does not cross. */
  function Pass(db: Db, takerId: OrderId, queue: seq<OrderId>): Db
    decreases |queue|
  {
    if queue == [] || takerId !in db.orders || queue[0] !in db.orders then db
    else if !IsOpen(db.orders[takerId]) || !CanMatch(db.orders[takerId], db.orders[queue[0]]) then db
    else
      match Settle(db, takerId, queue[0])
      case RolledBack(_) => db
      case Committed(next, _) => Pass(next, takerId, queue[1..])
  }

  /** The database after a run for one order: the pass, then a market order gives up its remainder. */
  function FinalDb(s: State, id: OrderId): Db {
    if id !in s.db.orders || !IsOpen(s.db.orders[id]) then s.db
    else
      var passed := Pass(s.db, id, Queue(s, s.db.orders[id]));
      if id in passed.orders && passed.orders[id].orderType.Market? then Cancel(passed, id) else passed
  }

  function ScoreOf(orders: map<OrderId, Order>, id: OrderId): int {
    if id in orders && orders[id].price.Some? then Score(orders[id].side, orders[id].price.value) else 0
  }

  /** Joining a queue behind everyone whose price is as good. */
  function Enqueue(orders: map<OrderId, Order>, ids: seq<OrderId>, id: OrderId): seq<OrderId> {
    if ids == [] || ScoreOf(orders, id) < ScoreOf(orders, ids[0]) then [id] + ids
    else [ids[0]] + Enqueue(orders, ids[1..], id)
  }

  /** The open entries after a run: those still open, and the taker behind its price if it rests. */
  function FinalView(s: State, id: OrderId, key: BookKey): seq<OrderId> {
    var orders := FinalDb(s, id).orders;
    var ids := EligibleIds(orders, None, BookOf(s.redis, key));
    if id in orders && Restable(orders[id]) && KeyOf(orders[id]) == key && id !in ids
    then Enqueue(orders, ids, id) else ids
  }

  /** `done` is what a run for `id` from `start` must leave behind. */
  ghost predicate Completes(start: State, id: OrderId, done: State) {
    && done.db == FinalDb(start, id)
    && forall key: BookKey :: View(done, key) == FinalView(start, id, key)
  }

  /** Two states from which a run for `id` must leave the same behind. */
  ghost predicate SameOutcome(a: State, b: State, id: OrderId) {
    && FinalDb(a, id) == FinalDb(b, id)
    && forall key: BookKey :: FinalView(a, id, key) == FinalView(b, id, key)
  }

  // ----- Filtering sorted sets

  lemma {:induction false} EligibleMembers(orders: map<OrderId, Order>, exclude: Option<UserId>, book: seq<Entry>,
      id: OrderId)
    ensures id in EligibleIds(orders, exclude, book) <==>
            exists e <- book :: Eligible(orders, exclude, e) && OrderIdOf(e.member) == Some(id)
  {
    if book == [] {
    } else {
      EligibleMembers(orders, exclude, book[1..], id);
      assert book == [book[0]] + book[1..];
    }
  }

  lemma {:induction false} EligibleConcat(orders: map<OrderId, Order>, exclude: Option<UserId>, a: seq<Entry>,
      b: seq<Entry>)
    ensures EligibleIds(orders, exclude, a + b) == EligibleIds(orders, exclude, a) + EligibleIds(orders, exclude, b)
  {
    if a == [] {
      assert a + b == b;
    } else {
      assert (a + b)[1..] == a[1..] + b;
      EligibleConcat(orders, exclude, a[1..], b);
    }
  }

  lemma {:induction false} EligibleWithout(orders: map<OrderId, Order>, exclude: Option<UserId>, book: seq<Entry>,
      member: string)
    requires forall e <- book :: e.member == member ==> !OpenEntry(orders, e)
    ensures EligibleIds(orders, exclude, Without(book, member)) == EligibleIds(orders, exclude, book)
  {
    if book == [] {
    } else {
      EligibleWithout(orders, exclude, book[1..], member);
      var rest := Without(book[1..], member);
      assert [] + rest == rest && ([book[0]] + rest)[1..] == rest;
    }
  }

  /** Entries that are selected by neither database may differ in it. */
  lemma {:induction false} EligibleDepends(before: map<OrderId, Order>, after: map<OrderId, Order>,
      exclude: Option<UserId>, book: seq<Entry>)
    requires forall e <- book :: Eligible(before, exclude, e) <==> Eligible(after, exclude, e)
    ensures EligibleIds(before, exclude, book) == EligibleIds(after, exclude, book)
  {
    if book == [] {
    } else {
      assert book[0] in book;
      EligibleDepends(before, after, exclude, book[1..]);
    }
  }

  predicate Distinct(book: seq<Entry>) {
    forall i, j | 0 <= i < j < |book| :: OrderIdOf(book[i].member) != OrderIdOf(book[j].member)
  }

  lemma BookIsDistinct(s: State, key: BookKey)
    requires BookSound(s) && BookIndexed(s)
    ensures Distinct(BookOf(s.redis, key))
  {
    var book := BookOf(s.redis, key);
    forall i, j | 0 <= i < j < |book| ensures OrderIdOf(book[i].member) != OrderIdOf(book[j].member) {
      assert book[i] in book && book[j] in book;
      assert Stands(s.db.orders, key, book[i]) && Stands(s.db.orders, key, book[j]);
      BeforeTotal(book[i], book[j]);
      assert Before(book[i], book[j]);
    }
  }
}
