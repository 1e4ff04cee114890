/** Order expiry: one delayed job per limit order, added and removed in several steps while the rest
    of the exchange goes on. */
module OrderExpiry {
  import opened Orders
  import opened Settlement
  import opened Ledger
  import opened MarketClock

  /** `jobs` holds the instant each delayed job is due; `rows` is `order_expiry_jobs`.  The other
      fields are history and the removals in progress. */
  datatype Board = Board(
    now: int,
    db: Db,
    jobs: map<OrderId, int>,
    rows: set<OrderId>,
    scheduledAt: map<OrderId, int>,
    removing: set<OrderId>)

  datatype Event =
    | Wait(to: int)
    | Elsewhere(db: Db)            // anything else the exchange does to its rows
    | AddJob(id: OrderId, due: int)
    | InsertRow(id: OrderId)
    | BeginRemoval(id: OrderId)    // cancelOrderExpiryJob, called for a closed order, finds the row
    | RemoveJob(id: OrderId)
    | DeleteRow(id: OrderId)
    | Fire(id: OrderId)

  function Expire(db: Db, id: OrderId): Db {
    if id in db.orders && db.orders[id].orderType.Limit? then Cancel(db, id) else db
  }

  /** When each step can happen.  Scheduling is for limit orders, once each; removal starts after the
      order was seen filled or cancelled; a job fires once it is due. */
  ghost predicate Possible(b: Board, event: Event) {
    match event
    case Wait(to) => b.now <= to
    case Elsewhere(db) => LedgerOk(db) && Follows(b.db, db)
    case AddJob(id, due) =>
      && id in b.db.orders && b.db.orders[id].orderType.Limit?
      && id !in b.scheduledAt && IsNextClose(b.now, due)
    case InsertRow(id) => id in b.scheduledAt
    case BeginRemoval(id) => id in b.db.orders && !IsOpen(b.db.orders[id])
    case RemoveJob(id) => id in b.removing
    case DeleteRow(id) => id in b.removing
    case Fire(id) => id in b.jobs && b.jobs[id] <= b.now
  }

  function Apply(b: Board, event: Event): Board {
    match event
    case Wait(to) => b.(now := to)
    case Elsewhere(db) => b.(db := db)
    case AddJob(id, due) =>
      b.(jobs := if id in b.jobs then b.jobs else b.jobs[id := due], scheduledAt := b.scheduledAt[id := b.now])
    case InsertRow(id) => b.(rows := b.rows + {id})
    case BeginRemoval(id) => if id in b.rows then b.(removing := b.removing + {id}) else b
    case RemoveJob(id) => b.(jobs := b.jobs - {id})
    case DeleteRow(id) => b.(rows := b.rows - {id}, removing := b.removing - {id})
    case Fire(id) => b.(db := Expire(b.db, id), jobs := b.jobs - {id})
  }

  ghost predicate History(b: Board, events: seq<Event>)
    decreases |events|
  {
    events != [] ==> Possible(b, events[0]) && History(Apply(b, events[0]), events[1..])
  }

  function Run(b: Board, events: seq<Event>): Board
    decreases |events|
  {
    if events == [] then b else Run(Apply(b, events[0]), events[1..])
  }

  ghost predicate Initial(b: Board) {
    LedgerOk(b.db) && b.jobs == map[] && b.rows == {} && b.scheduledAt == map[] && b.removing == {}
  }

  ghost predicate BoardOk(b: Board) {
    && LedgerOk(b.db)
    && (forall id <- b.scheduledAt :: id in b.db.orders && b.scheduledAt[id] <= b.now)
    && (forall id <- b.scheduledAt :: IsOpen(b.db.orders[id]) ==> id in b.jobs)
    && (forall id <- b.jobs :: id in b.scheduledAt && IsNextClose(b.scheduledAt[id], b.jobs[id]))
    && (forall id <- b.jobs :: id in b.db.orders && b.db.orders[id].orderType.Limit?)
    && (forall id <- b.removing :: id in b.db.orders && !IsOpen(b.db.orders[id]))
  }

  lemma ExpireIsSafe(db: Db, id: OrderId)
    requires LedgerOk(db)
    ensures LedgerOk(Expire(db, id)) && Follows(db, Expire(db, id))
    ensures id in db.orders && db.orders[id].orderType.Limit? ==> !IsOpen(Expire(db, id).orders[id])
  {
    CancelIsSafe(db, id);
  }

  lemma EventKeepsOk(b: Board, event: Event)
    requires BoardOk(b) && Possible(b, event)
    ensures BoardOk(Apply(b, event)) && Follows(b.db, Apply(b, event).db)
  {
    hide BoardOk, Possible, Apply, Follows;
    if event.Fire? {
      FireKeepsOk(b, event.id);
    } else {
      OtherKeepsOk(b, event);
    }
  }

  lemma OtherKeepsOk(b: Board, event: Event)
    requires BoardOk(b) && Possible(b, event) && !event.Fire?
    ensures BoardOk(Apply(b, event)) && Follows(b.db, Apply(b, event).db)
  {
    hide LedgerOk, IsNextClose, IsOpen;
  }

  lemma FireKeepsOk(b: Board, id: OrderId)
    requires BoardOk(b) && Possible(b, Fire(id))
    ensures BoardOk(Apply(b, Fire(id))) && Follows(b.db, Apply(b, Fire(id)).db)
  {
    hide LedgerOk, IsNextClose, IsOpen, Expire;
    ExpireIsSafe(b.db, id);
  }

  lemma {:induction false} RunKeepsOk(b: Board, events: seq<Event>)
    requires BoardOk(b) && History(b, events)
    ensures BoardOk(Run(b, events))
    decreases |events|
  {
    hide BoardOk, Possible, Apply;
    if events == [] {
    } else {
      EventKeepsOk(b, events[0]);
      RunKeepsOk(Apply(b, events[0]), events[1..]);
    }
  }

  /** Time does not pass an unfired job's due instant. */
  predicate OnTime(b: Board, events: seq<Event>)
    decreases |events|
  {
    events != [] ==>
      && (events[0].Wait? ==> forall id <- b.jobs :: events[0].to <= b.jobs[id])
      && OnTime(Apply(b, events[0]), events[1..])
  }

  ghost predicate Punctual(b: Board) {
    forall id <- b.jobs :: b.now <= b.jobs[id]
  }

  lemma EventStaysPunctual(b: Board, event: Event)
    requires Punctual(b) && Possible(b, event)
    requires event.Wait? ==> forall id <- b.jobs :: event.to <= b.jobs[id]
    ensures Punctual(Apply(b, event))
  {
    hide LedgerOk, Follows, IsMarketClose, Expire, IsOpen;
  }

  lemma {:induction false} RunStaysPunctual(b: Board, events: seq<Event>)
    requires Punctual(b) && History(b, events) && OnTime(b, events)
    ensures Punctual(Run(b, events))
    decreases |events|
  {
    hide Punctual, Possible, Apply;
    if events == [] {
    } else {
      EventStaysPunctual(b, events[0]);
      RunStaysPunctual(Apply(b, events[0]), events[1..]);
    }
  }

  lemma InitialIsOk(b: Board)
    requires Initial(b)
    ensures BoardOk(b) && Punctual(b)
  {
  }

  /** In every history, an open order whose expiry was scheduled still has its job, due at the first
      market close after it was scheduled; removals only ever take the jobs of closed orders. */
  lemma OpenOrdersKeepTheirJob(b: Board, events: seq<Event>, id: OrderId)
    requires Initial(b) && History(b, events)
    requires var end := Run(b, events); id in end.scheduledAt && id in end.db.orders && IsOpen(end.db.orders[id])
    ensures var end := Run(b, events);
            id in end.jobs && id !in end.removing && IsNextClose(end.scheduledAt[id], end.jobs[id])
  {
    hide LedgerOk, IsNextClose, IsOpen;
    InitialIsOk(b);
    RunKeepsOk(b, events);
  }

  /** If jobs fire on time, no scheduled order is open after the first close that follows. */
  lemma NoOrderOutlivesTheClose(b: Board, events: seq<Event>, id: OrderId, close: int)
    requires Initial(b) && History(b, events) && OnTime(b, events)
    requires var end := Run(b, events);
             id in end.scheduledAt && id in end.db.orders && IsNextClose(end.scheduledAt[id], close) && close < end.now
    ensures !IsOpen(Run(b, events).db.orders[id])
  {
    hide LedgerOk, IsMarketClose, IsOpen;
    InitialIsOk(b);
    RunKeepsOk(b, events);
    RunStaysPunctual(b, events);
    var end := Run(b, events);
    if IsOpen(end.db.orders[id]) {
      NextCloseIsMonotone(end.scheduledAt[id], end.scheduledAt[id], end.jobs[id], close);
    }
  }

  /** A job that fires late, twice, or for a filled order changes nothing of a closed order. */
  lemma FiringLeavesClosedOrders(b: Board, id: OrderId, other: OrderId)
    requires BoardOk(b) && other in b.db.orders
    requires !IsOpen(b.db.orders[other]) || other != id
    ensures Apply(b, Fire(id)).db.orders[other] == b.db.orders[other]
  {
    LedgerHasOrder(b.db, other);
  }

  lemma LedgerHasOrder(db: Db, id: OrderId)
    requires LedgerOk(db) && id in db.orders
    ensures OrderOk(db.orders[id])
  {
  }

  /** The steps of a call add up to the call: scheduling adds a job, unless there is one, and a row;
      removal takes both away if there is a row; a job that fires is gone and has closed its order, if
      that was a limit order still open. */
  lemma StepsAddUp(b: Board, id: OrderId, due: int)
    ensures var scheduled := Apply(Apply(b, AddJob(id, due)), InsertRow(id));
            scheduled.jobs == (if id in b.jobs then b.jobs else b.jobs[id := due]) && scheduled.rows == b.rows + {id}
    ensures id in b.rows ==>
              var removed := Apply(Apply(Apply(b, BeginRemoval(id)), RemoveJob(id)), DeleteRow(id));
              removed.jobs == b.jobs - {id} && removed.rows == b.rows - {id} && removed.db == b.db
    ensures id !in b.rows ==> Apply(b, BeginRemoval(id)) == b
    ensures var fired := Apply(b, Fire(id));
            && fired.jobs == b.jobs - {id}
            && fired.db == if && id in b.db.orders && b.db.orders[id].orderType == Limit
                              && (b.db.orders[id].status == Open || b.db.orders[id].status == PartiallyFilled)
                           then b.db.(orders := b.db.orders[id := b.db.orders[id].(status := Cancelled)]) else b.db
  {
  }

  // ----- The functions themselves, run to the end

  class ExpiryScheduler {
    var now: int
    var db: Db
    var jobs: map<OrderId, int>
    var rows: set<OrderId>

    constructor (now: int, db: Db)
      ensures this.now == now && this.db == db && jobs == map[] && rows == {}
    {
      this.now, this.db := now, db;
      jobs, rows := map[], {};
    }

    method ScheduleOrderExpiry(id: OrderId)
      modifies this`jobs, this`rows
      ensures id in jobs && (id !in old(jobs) ==> IsNextClose(now, jobs[id])) && jobs - {id} == old(jobs) - {id}
      ensures id in old(jobs) ==> jobs == old(jobs)
      ensures rows == old(rows) + {id}
    {
      var closeTime := NextMarketCloseUTC(now);
      var delay := closeTime - now;
      if id !in jobs {
        jobs := jobs[id := now + delay];
      }
      rows := rows + {id};
    }

    method CancelOrderExpiryJob(id: OrderId)
      modifies this`jobs, this`rows
      ensures jobs == if id in old(rows) then old(jobs) - {id} else old(jobs)
      ensures rows == old(rows) - {id}
    {
      if id !in rows {
        return;
      }
      jobs := jobs - {id};
      rows := rows - {id};
    }

    method HandleOrderExpiry(id: OrderId) returns (expired: bool)
      requires LedgerOk(db)
      modifies this`db
      ensures db == Expire(old(db), id) && LedgerOk(db) && Follows(old(db), db)
      ensures expired <==>
                id in old(db).orders && old(db).orders[id].orderType.Limit? && OpenStatus(old(db).orders[id].status)
      ensures id in db.orders && db.orders[id].orderType.Limit? ==> !IsOpen(db.orders[id])
    {
      ExpireIsSafe(db, id);
      expired := false;
      if id in db.orders && OpenStatus(db.orders[id].status) && db.orders[id].orderType.Limit? {
        db := db.(orders := db.orders[id := db.orders[id].(status := Cancelled)]);
        expired := true;
      }
    }

    /** Afterwards no limit order is open, market orders are as they were and nothing else moved. */
    method HandleMarketClose()
      requires LedgerOk(db)
      modifies this`db
      ensures LedgerOk(db) && Follows(old(db), db) && Conserved(old(db), db)
      ensures db == old(db).(orders := db.orders) && db.orders.Keys == old(db).orders.Keys
      ensures forall id <- db.orders ::
                if db.orders[id].orderType.Limit? then !IsOpen(db.orders[id]) else db.orders[id] == old(db).orders[id]
    {
      CloseMarketIsSafe(db);
      db := CloseMarket(db);
    }
  }
}
