/** Histories of the book in which every sync acts on the row as it is: it stays an index of the resting
    orders, and an order keeps its place in it for as long as it rests. */
module BookHistories {
  import opened Orders
  import opened Settlement
  import opened Ledger
  import opened SettlementEffects
  import opened BookEncoding
  import opened OrderBook
  import opened Matching
  import opened MatchingSteps
  import opened MatchingEngineModel

  // ----- At the grain of commands

  /** One statement or command of whoever is at work.  A run is a sequence of settlements, syncs and at
      most one cancel; `TakeNumber` is what a sync that dies after its INCR leaves. */
  datatype Command =
    | NewAccount(user: UserId)
    | NewOrder(order: Order)
    | SettlePair(incoming: OrderId, resting: OrderId)
    | TakeNumber(symbol: Symbol)
    | SyncRow(id: OrderId)
    | CancelRow(id: OrderId)
    | MarketClose
    | Expiry(id: OrderId)

  function Perform(s: State, command: Command): State {
    match command
    case NewAccount(user) => State(Register(s.db, user), s.redis)
    case NewOrder(order) => State(Submit(s.db, order), s.redis)
    case SettlePair(incoming, resting) =>
      var tx := Settle(s.db, incoming, resting);
      if tx.Committed? then State(tx.db, s.redis) else s
    case TakeNumber(symbol) => State(s.db, Increment(s.redis, symbol))
    case SyncRow(id) => if id in s.db.orders then State(s.db, SyncOrderBook(s.redis, s.db.orders[id])) else s
    case CancelRow(id) => State(Cancel(s.db, id), s.redis)
    case MarketClose => State(CloseMarket(s.db), s.redis)
    case Expiry(id) =>
      if id in s.db.orders && s.db.orders[id].orderType.Limit? then State(Cancel(s.db, id), s.redis) else s
  }

  function After(s: State, commands: seq<Command>): State
    decreases |commands|
  {
    if commands == [] then s else After(Perform(s, commands[0]), commands[1..])
  }

  lemma CommandKeeps(s: State, command: Command)
    requires Valid(s)
    ensures Keeps(s, Perform(s, command))
  {
    hide Valid, Keeps, Follows, Conserved, Settle, SyncOrderBook, Cancel, CloseMarket, Submit, Register;
    LedgerOfValid(s);
    KeepsItself(s);
    match command
    case NewAccount(user) =>
      RegisterIsSafe(s.db, user);
      DatabaseKeeps(s, Register(s.db, user));
    case NewOrder(order) =>
      SubmitIsSafe(s.db, order);
      DatabaseKeeps(s, Submit(s.db, order));
    case SettlePair(incoming, resting) =>
      if Settle(s.db, incoming, resting).Committed? {
        SettleKeeps(s, incoming, resting);
      }
    case TakeNumber(symbol) => IncrementKeeps(s, symbol);
    case SyncRow(id) =>
      if id in s.db.orders {
        SyncKeeps(s, id);
      }
    case CancelRow(id) => CancelKeeps(s, id);
    case MarketClose =>
      CloseMarketIsSafe(s.db);
      DatabaseKeeps(s, CloseMarket(s.db));
    case Expiry(id) => CancelKeeps(s, id);
  }

  lemma {:induction false} HistoryKeeps(s: State, commands: seq<Command>)
    requires Valid(s)
    ensures Keeps(s, After(s, commands))
    decreases |commands|
  {
    hide Valid, Keeps, Perform;
    if commands == [] {
      KeepsItself(s);
    } else {
      var next := Perform(s, commands[0]);
      CommandKeeps(s, commands[0]);
      KeptIsValid(s, next);
      HistoryKeeps(next, commands[1..]);
      KeepsIsTransitive(s, next, After(next, commands[1..]));
    }
  }

  lemma EmptyExchangeIsValid()
    ensures Valid(State(Db(map[], map[], map[], []), Redis(map[], map[], map[])))
  {
  }

  /** Over every sequence of commands from a valid state, such as the empty exchange: hashes and members
      stay in bijection, scores equal prices and sequences stay apart; and an order that rests from one
      moment to a later one has the same member at both.  Nothing is asked of the window. */
  lemma EveryHistoryKeepsTheIndex(s: State, before: seq<Command>, more: seq<Command>)
    requires Valid(s)
    ensures var early := After(s, before);
            var late := After(early, more);
            && Valid(early) && Valid(late) && Follows(early.db, late.db)
            && forall id <- early.redis.hashes :: id in late.db.orders && IsOpen(late.db.orders[id]) ==>
                 id in late.redis.hashes && late.redis.hashes[id] == early.redis.hashes[id]
  {
    hide LedgerOk, BookSound, BookIndexed, Perform;
    HistoryKeeps(s, before);
    HistoryKeeps(After(s, before), more);
  }

  // ----- At the grain of requests, with the engine itself

  datatype Request =
    | Statement(command: Command)
    | UserCancel(id: OrderId, user: UserId)        // with its book sync
    | Match(id: OrderId, writes: Option<nat>)      // a whole run, or one that dies after some writes

  function CancelAndSync(s: State, id: OrderId, user: UserId): State {
    if id in s.db.orders && s.db.orders[id].userId == user && OpenStatus(s.db.orders[id].status)
    then After(s, [CancelRow(id), SyncRow(id)]) else s
  }

  /** One request after another, the runs by the engine.  Every state left behind keeps what every
      earlier one had, however full the window is; and a whole run with room leaves what it should. */
  method Serve(start: State, requests: seq<Request>) returns (states: seq<State>)
    requires Valid(start)
    ensures |states| == |requests| + 1 && states[0] == start
    ensures forall i, j | 0 <= i <= j < |states| :: Keeps(states[i], states[j])
    ensures forall i | 0 <= i < |requests| ::
              match requests[i]
              case Statement(command) => states[i + 1] == Perform(states[i], command)
              case UserCancel(id, user) => states[i + 1] == CancelAndSync(states[i], id, user)
              case Match(id, writes) =>
                Roomy(states[i], id, 0) && writes.None? ==> Completes(states[i], id, states[i + 1])
  {
    hide Valid, Keeps, Roomy, Completes, Reached, Perform, CancelAndSync, Queue;
    states := [start];
    KeepsItself(start);
    for n := 0 to |requests|
      invariant |states| == n + 1 && states[0] == start
      invariant forall i, j | 0 <= i <= j <= n :: Keeps(states[i], states[j])
      invariant forall i | 0 <= i < n ::
                  match requests[i]
                  case Statement(command) => states[i + 1] == Perform(states[i], command)
                  case UserCancel(id, user) => states[i + 1] == CancelAndSync(states[i], id, user)
                  case Match(id, writes) =>
                    Roomy(states[i], id, 0) && writes.None? ==> Completes(states[i], id, states[i + 1])
    {
      var now := states[n];
      KeptIsValid(now, now);
      var next;
      match requests[n] {
        case Statement(command) =>
          CommandKeeps(now, command);
          next := Perform(now, command);
        case UserCancel(id, user) =>
          CancelAndSyncKeeps(now, id, user);
          next := CancelAndSync(now, id, user);
        case Match(id, writes) =>
          var engine := new MatchingEngine(now.db, now.redis);
          var outcome, _, _ := engine.MatchOrder(id);
          if writes.None? {
            next := engine.Now();
          } else if writes.value == 0 || engine.trail == [] {
            next := now;
          } else {
            next := engine.trail[if writes.value < |engine.trail| then writes.value - 1 else |engine.trail| - 1];
          }
      }
      StatesKeep(states, next);
      states := states + [next];
    }
  }

  lemma CancelAndSyncKeeps(s: State, id: OrderId, user: UserId)
    requires Valid(s)
    ensures Keeps(s, CancelAndSync(s, id, user))
  {
    hide Valid, Keeps, After;
    KeepsItself(s);
    HistoryKeeps(s, [CancelRow(id), SyncRow(id)]);
  }

  /** The owner of an order that is still open gets it cancelled and out of the book, and nothing else
      moves: no other row, entry or hash.  Nobody else, and no other order, changes anything. */
  lemma CancelTakesItOut(s: State, id: OrderId, user: UserId)
    requires Valid(s)
    ensures var next := CancelAndSync(s, id, user);
            if && id in s.db.orders && s.db.orders[id].userId == user
               && (s.db.orders[id].status == Open || s.db.orders[id].status == PartiallyFilled)
            then
              && next.db == s.db.(orders := s.db.orders[id := s.db.orders[id].(status := Cancelled)])
              && next.redis.hashes == s.redis.hashes - {id} && next.redis.sequences == s.redis.sequences
              && OneOrderGone(s, next, id)
            else next == s
  {
    hide LedgerOk, BookSound, BookIndexed, After, RemoveBookEntry;
    if id in s.db.orders && s.db.orders[id].userId == user && StillOpen(s.db.orders[id]) {
      AfterTwo(s, CancelRow(id), SyncRow(id));
      SyncOfCancelled(s, id);
      CancelKeeps(s, id);
      CancelChangesOneStatus(s.db, id);
      LedgerIds(s.db, id);
      var closed := Cancel(s.db, id).orders[id];
      DropHashes(s.redis, closed);
      var next := CancelAndSync(s, id, user);
      DropSelects(State(Cancel(s.db, id), s.redis), closed, next);
      GoneFromTheSameBook(s, State(Cancel(s.db, id), s.redis), next, id);
    }
  }

  lemma GoneFromTheSameBook(s: State, t: State, next: State, id: OrderId)
    requires t.redis == s.redis && OneOrderGone(t, next, id)
    ensures OneOrderGone(s, next, id)
  {
    hide Sorted, BookOf, OrderIdOf;
  }

  lemma AfterTwo(s: State, first: Command, second: Command)
    ensures After(s, [first, second]) == Perform(Perform(s, first), second)
  {
    hide Perform;
    assert [first, second][1..] == [second] && [second][1..] == [];
    assert After(Perform(s, first), [second]) == After(Perform(Perform(s, first), second), []);
  }

  lemma SyncOfCancelled(s: State, id: OrderId)
    requires id in s.db.orders && StillOpen(s.db.orders[id])
    ensures Perform(Perform(s, CancelRow(id)), SyncRow(id))
         == State(Cancel(s.db, id), RemoveBookEntry(s.redis, Cancel(s.db, id).orders[id]))
  {
  }

  /** Among commands: a close, an expiry and a cancel close what they should and leave the book for the
      next sync or scan. */
  lemma ClosingCommands(s: State, id: OrderId)
    ensures var closed := Perform(s, MarketClose);
            && closed.redis == s.redis && closed.db == s.db.(orders := closed.db.orders)
            && closed.db.orders.Keys == s.db.orders.Keys
            && forall o <- s.db.orders ::
                 closed.db.orders[o]
                 == if s.db.orders[o].orderType == Limit && StillOpen(s.db.orders[o])
                    then s.db.orders[o].(status := Cancelled) else s.db.orders[o]
    ensures Perform(s, Expiry(id))
         == if id in s.db.orders && s.db.orders[id].orderType == Limit && StillOpen(s.db.orders[id])
            then s.(db := s.db.(orders := s.db.orders[id := s.db.orders[id].(status := Cancelled)])) else s
    ensures Perform(s, CancelRow(id))
         == if id in s.db.orders && StillOpen(s.db.orders[id])
            then s.(db := s.db.(orders := s.db.orders[id := s.db.orders[id].(status := Cancelled)])) else s
  {
    CloseChangesOnlyStatuses(s.db);
  }

  /** Among commands: accounts and orders come in as they are given, a number is taken, and a pair that
      must not trade is left alone. */
  lemma OpeningCommands(s: State, user: UserId, order: Order, symbol: Symbol, a: OrderId, b: OrderId)
    ensures Perform(s, NewAccount(user))
         == if user in s.db.balances then s else s.(db := s.db.(balances := s.db.balances[user := 10_000_000]))
    ensures Perform(s, NewOrder(order))
         == if && order.id !in s.db.orders && order.userId in s.db.balances
               && (order.orderType == Limit <==> order.price.Some?) && order.filled == 0 && order.status == Open
            then s.(db := s.db.(orders := s.db.orders[order.id := order])) else s
    ensures var taken := if symbol in s.redis.sequences then s.redis.sequences[symbol] + 1 else 1;
            Perform(s, TakeNumber(symbol)) == s.(redis := s.redis.(sequences := s.redis.sequences[symbol := taken]))
    ensures OrdersOk(s.db) && Apart(s.db, a, b) ==> Perform(s, SettlePair(a, b)) == s
  {
    hide Apart, Settle, OrderOk;
    if OrdersOk(s.db) && Apart(s.db, a, b) {
      ApartIsLeftAlone(s.db, a, b);
    }
  }

  /** Among commands: a pair that meets trades as much as it can, in one trade, and leaves the book alone. */
  lemma PairCommandTrades(s: State, buy: Order, sell: Order, taker: OrderId, maker: OrderId, price: Cents)
    requires OrdersOk(s.db) && Solvent(s.db) && Meeting(s.db, buy, sell, taker, maker, price)
    requires buy.userId in s.db.balances && Fits(s.db, buy, sell, price, 1)
    ensures var next := Perform(s, SettlePair(taker, maker));
            && next.redis == s.redis && |next.db.trades| == |s.db.trades| + 1
            && var trade := next.db.trades[|s.db.trades|];
            && trade == Trade(buy.id, sell.id, buy.symbol, price, trade.quantity)
            && Fits(s.db, buy, sell, price, trade.quantity) && !Fits(s.db, buy, sell, price, trade.quantity + 1)
  {
    hide Settle, Fits, OrderOk, Executable, PayAndDeliver;
    MeetingOrdersTradeTheMost(s.db, buy, sell, taker, maker, price);
    SettleOfMeeting(s.db, buy, sell, taker, maker, price);
    assert SettleOpenPair(s.db, s.db.orders[taker], s.db.orders[maker], price) == Settle(s.db, taker, maker);
  }

  /** Among commands: after its sync a row has an entry in the book of its side exactly if it is an open
      limit order, and no other order's place has moved. */
  lemma SyncCommandPlacesTheRow(s: State, id: OrderId)
    requires Valid(s) && id in s.db.orders
    ensures var next := Perform(s, SyncRow(id));
            && next.db == s.db && next.redis.hashes - {id} == s.redis.hashes - {id}
            && (StillOpen(s.db.orders[id]) && s.db.orders[id].orderType == Limit <==>
                  exists e <- BookOf(next.redis, KeyOf(s.db.orders[id])) :: OrderIdOf(e.member) == Some(id))
  {
    hide Valid, Keeps, SyncOrderBook, OrderIdOf, BookOf;
    LedgerOfValid(s);
    LedgerIds(s.db, id);
    CommandKeeps(s, SyncRow(id));
    KeptIsValid(s, Perform(s, SyncRow(id)));
    SyncMovesOneHash(s.redis, s.db.orders[id]);
    HashMeansEntry(Perform(s, SyncRow(id)), id);
  }

  lemma SyncMovesOneHash(redis: Redis, order: Order)
    ensures var next := SyncOrderBook(redis, order);
            && next.hashes - {order.id} == redis.hashes - {order.id}
            && (order.id in next.hashes <==> Restable(order))
  {
    hide MemberText, Place, Without, Restable;
    if Restable(order) {
      RestableIsPriced(order);
    }
  }

  lemma RestableIsPriced(order: Order)
    requires Restable(order)
    ensures order.price.Some?
  {
  }

  lemma HashMeansEntry(s: State, id: OrderId)
    requires Valid(s) && id in s.db.orders
    ensures id in s.redis.hashes <==>
              exists e <- BookOf(s.redis, KeyOf(s.db.orders[id])) :: OrderIdOf(e.member) == Some(id)
  {
    hide LedgerOk, BookSound, SequencesUnique, OrderIdOf, Numbered;
  }

  lemma StatesKeep(states: seq<State>, next: State)
    requires states != [] && Keeps(states[|states| - 1], next)
    requires forall i, j | 0 <= i <= j < |states| :: Keeps(states[i], states[j])
    ensures forall i | 0 <= i < |states| :: Keeps(states[i], next)
    ensures Keeps(next, next)
  {
    hide Valid, Keeps;
    KeptIsValid(states[|states| - 1], next);
    KeepsItself(next);
    forall i | 0 <= i < |states| ensures Keeps(states[i], next) {
      assert Keeps(states[i], states[i]);
      KeptIsValid(states[i], states[i]);
      KeepsIsTransitive(states[i], states[|states| - 1], next);
    }
  }
}
