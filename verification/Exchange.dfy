/** The exchange with everything that runs at once: matching runs that advance one database or Redis
    command at a time, user cancels with their book sync, market close, order expiry, new orders,
    crashes, and locks that expire. */
module Exchange {
  import opened Orders
  import opened Settlement
  import opened BookEncoding
  import opened OrderBook
  import opened Matching
  import opened BookScan

  /** A call of syncOrderBook or removeBookEntry in progress, on the snapshot it was given. */
  datatype BookCall =
    | Sync(order: Order)                            // HGET not sent yet
    | Forget(order: Order)                          // removeBookEntry called directly
    | Put(order: Order, member: Option<string>)     // HGET answered; INCR or the transaction is next
    | Drop(order: Order, member: Option<string>)    // HGET answered; ZREM and DEL are next

  /** Where a run stands; the orders it carries are snapshots and may be stale. */
  datatype Phase =
    | Starting
    | Acquiring(symbol: Symbol)
    | Fetching
    | Ranging(incoming: Order)
    | Scanning(incoming: Order, rest: seq<string>, whole: bool)   // whole: ZRANGE returned the entire book
    | Settling(incoming: Order, resting: Order)
    | Refetching(vanished: Option<Order>)
    | Finishing(incoming: Order)
    | Releasing
    | Leaving                                       // not a run: a user's cancel syncing the book

  /** `tried` and `looks` are history: the makers this run has attempted to settle with, and how often
      it has gone round the loop. */
  datatype Thread = Thread(orderId: OrderId, calls: seq<BookCall>, phase: Phase, tried: seq<OrderId>, looks: nat)

  datatype Sys = Sys(
    db: Db,
    redis: Redis,
    locks: map<Symbol, nat>,
    threads: map<nat, Thread>,
    nextThread: nat,
    completed: set<OrderId>)       // history: orders one of whose runs has returned normally

  datatype Action =
    | NewUser(user: UserId)
    | NewOrder(order: Order)
    | StartRun(id: OrderId)
    | Step(thread: nat)
    | UserCancel(id: OrderId, user: UserId)
    | MarketClose
    | OrderExpiry(id: OrderId)
    | LockExpiry(symbol: Symbol)
    | Crash(thread: nat)

  // ----- Threads

  function Spawn(s: Sys, thread: Thread): Sys {
    s.(threads := s.threads[s.nextThread := thread], nextThread := s.nextThread + 1)
  }

  function Update(s: Sys, tid: nat, thread: Thread): Sys {
    s.(threads := s.threads[tid := thread])
  }

  function Goto(s: Sys, tid: nat, phase: Phase): Sys
    requires tid in s.threads
  {
    Update(s, tid, s.threads[tid].(phase := phase))
  }

  function End(s: Sys, tid: nat): Sys {
    s.(threads := s.threads - {tid})
  }

  /** The compare-and-delete script of releaseStockLock. */
  function Release(s: Sys, tid: nat, symbol: Symbol): Sys {
    if symbol in s.locks && s.locks[symbol] == tid then s.(locks := s.locks - {symbol}) else s
  }

  /** The next Redis command of the first book call. */
  function CallStep(s: Sys, tid: nat): Sys
    requires tid in s.threads && s.threads[tid].calls != []
  {
    var t := s.threads[tid];
    var rest := t.calls[1..];
    match t.calls[0]
    case Sync(order) =>
      var member := MemberOf(s.redis, order.id);
      Update(s, tid, t.(calls := [if Restable(order) then Put(order, member) else Drop(order, member)] + rest))
    case Forget(order) =>
      Update(s, tid, t.(calls := [Drop(order, MemberOf(s.redis, order.id))] + rest))
    case Put(order, None) =>
      var redis := Increment(s.redis, order.symbol);
      var member := MemberText(SequenceAt(redis, order.symbol), order.id);
      Update(s.(redis := redis), tid, t.(calls := [Put(order, Some(member))] + rest))
    case Put(order, Some(member)) =>
      if order.price.None? then End(s, tid)
      else Update(s.(redis := PutEntry(s.redis, order, member)), tid, t.(calls := rest))
    case Drop(order, member) =>
      Update(s.(redis := DropEntry(s.redis, order, member)), tid, t.(calls := rest))
  }

  /** The scan looks at the next member it read. */
  function ScanStep(s: Sys, tid: nat, incoming: Order, rest: seq<string>, whole: bool): Sys
    requires tid in s.threads && rest != []
  {
    var t := s.threads[tid];
    var key := OppositeKey(incoming);
    var onward := Goto(s, tid, Scanning(incoming, rest[1..], whole));
    var id := OrderIdOf(rest[0]);
    if id.None? then onward
    else if id.value !in s.db.orders then onward.(redis := RemoveMember(s.redis, key, rest[0]))
    else
      var order := s.db.orders[id.value];
      if !IsOpen(order) then
        Update(s, tid, t.(phase := Scanning(incoming, rest[1..], whole), calls := [Sync(order)]))
      else if order.userId == incoming.userId then onward
      else if CanMatch(incoming, order) then Goto(s, tid, Settling(incoming, order))
      else Goto(s, tid, Finishing(incoming))
  }

  function Syncs(orders: seq<Order>): (calls: seq<BookCall>)
    ensures |calls| == |orders| && forall i | 0 <= i < |orders| :: calls[i] == Sync(orders[i])
  {
    seq(|orders|, i requires 0 <= i < |orders| => Sync(orders[i]))
  }

  function SettleStep(s: Sys, tid: nat, incoming: Order, resting: Order): Sys
    requires tid in s.threads
  {
    match Settle(s.db, incoming.id, resting.id)
    case Committed(db, report) =>
      Update(s.(db := db), tid,
             s.threads[tid].(calls := Syncs(report.orders),
                             phase := Refetching(if report.orders == [] then Some(resting) else None),
                             tried := s.threads[tid].tried + [resting.id]))
    case RolledBack(_) => Release(End(s, tid), tid, incoming.symbol)
  }

  function FinishStep(s: Sys, tid: nat, incoming: Order): Sys
    requires tid in s.threads
  {
    var t := s.threads[tid];
    if incoming.orderType.Market? then
      var db := Cancel(s.db, incoming.id);
      var cancelled := incoming.id in s.db.orders && OpenStatus(s.db.orders[incoming.id].status);
      Update(s.(db := db), tid,
             t.(calls := if cancelled then [Sync(db.orders[incoming.id])] else [], phase := Releasing))
    else
      Update(s, tid, t.(calls := [Sync(incoming)], phase := Releasing))
  }

  /** One step of a thread: the next command of its book call, or else of its run. */
  function ThreadStep(s: Sys, tid: nat): Sys
    requires tid in s.threads
  {
    var t := s.threads[tid];
    var id := t.orderId;
    if t.calls != [] then CallStep(s, tid)
    else match t.phase
      case Starting =>
        if id !in s.db.orders then End(s, tid)
        else if !IsOpen(s.db.orders[id]) then End(s, tid).(completed := s.completed + {id})
        else Goto(s, tid, Acquiring(s.db.orders[id].symbol))
      case Acquiring(symbol) =>
        if symbol in s.locks then s
        else Goto(s, tid, Fetching).(locks := s.locks[symbol := tid])
      case Fetching =>
        if id !in s.db.orders || !IsOpen(s.db.orders[id]) then Goto(s, tid, Releasing)
        else Goto(s, tid, Ranging(s.db.orders[id]))
      case Ranging(incoming) =>
        var book := BookOf(s.redis, OppositeKey(incoming));
        Update(s, tid, t.(phase := Scanning(incoming, Members(Window(book)), |book| <= WINDOW), looks := t.looks + 1))
      case Scanning(incoming, rest, whole) =>
        if rest == [] then Goto(s, tid, Finishing(incoming)) else ScanStep(s, tid, incoming, rest, whole)
      case Settling(incoming, resting) => SettleStep(s, tid, incoming, resting)
      case Refetching(vanished) =>
        var calls := if vanished.Some? then [Forget(vanished.value)] else [];
        var phase := if id in s.db.orders && IsOpen(s.db.orders[id]) then Ranging(s.db.orders[id]) else Releasing;
        Update(s, tid, t.(calls := calls, phase := phase))
      case Finishing(incoming) => FinishStep(s, tid, incoming)
      case Releasing =>
        if id !in s.db.orders then End(s, tid)
        else Release(End(s, tid), tid, s.db.orders[id].symbol).(completed := s.completed + {id})
      case Leaving => End(s, tid)
  }

  /** The system after one action; an action that is not possible changes nothing. */
  function Apply(s: Sys, action: Action): Sys {
    match action
    case NewUser(user) => s.(db := Register(s.db, user))
    case NewOrder(order) => s.(db := Submit(s.db, order))
    case StartRun(id) => Spawn(s, Thread(id, [], Starting, [], 0))
    case Step(tid) => if tid in s.threads then ThreadStep(s, tid) else s
    case UserCancel(id, user) =>
      if id in s.db.orders && s.db.orders[id].userId == user && OpenStatus(s.db.orders[id].status) then
        var db := Cancel(s.db, id);
        Spawn(s.(db := db), Thread(id, [Sync(db.orders[id])], Leaving, [], 0))
      else s
    case MarketClose => s.(db := CloseMarket(s.db))
    case OrderExpiry(id) =>
      if id in s.db.orders && s.db.orders[id].orderType.Limit? then s.(db := Cancel(s.db, id)) else s
    case LockExpiry(symbol) => s.(locks := s.locks - {symbol})
    case Crash(tid) => End(s, tid)
  }

  function Run(s: Sys, actions: seq<Action>): Sys
    decreases |actions|
  {
    if actions == [] then s else Run(Apply(s, actions[0]), actions[1..])
  }

  /** An exchange that is starting up: any accounts and holdings, no orders, an empty book. */
  ghost predicate Initial(s: Sys) {
    && s.db.orders == map[] && s.db.trades == []
    && Solvent(s.db) && EmptyHoldingsAreFree(s.db)
    && s.redis == Redis(map[], map[], map[])
    && s.locks == map[] && s.threads == map[] && s.completed == {}
  }
}
