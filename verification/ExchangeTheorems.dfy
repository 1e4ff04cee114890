/** Safety over every run of the exchange: any interleaving, any crash, any lost lock. */
module ExchangeTheorems {
  import opened Orders
  import opened Settlement
  import opened Ledger
  import opened BookEncoding
  import opened OrderBook
  import opened Matching
  import opened Exchange
  import opened ExchangeSafety

  // ----- Every action keeps the invariant

  lemma SpawnAdvances(s: Sys, db: Db, thread: Thread)
    requires SysOk(s) && LedgerOk(db) && Follows(s.db, db)
    requires ThreadOk(db, s.redis, thread)
    ensures Advances(s, Spawn(s.(db := db), thread))
  {
    hide LedgerOk, Follows, ThreadOk, Rested;
    FaithfulFollows(s.db, db, s.redis);
  }

  lemma CancelledIsCurrent(db: Db, id: OrderId, redis: Redis)
    requires LedgerOk(db) && id in db.orders && OpenStatus(db.orders[id].status)
    ensures ThreadOk(Cancel(db, id), redis, Thread(id, [Sync(Cancel(db, id).orders[id])], Leaving, [], 0))
  {
  }

  lemma FollowsIsReflexive(db: Db)
    ensures Follows(db, db)
  {
  }

  lemma ActionAdvances(s: Sys, action: Action)
    requires SysOk(s)
    ensures Advances(s, Apply(s, action))
  {
    hide LedgerOk, Follows, BookFaithful, BookStays, Rested, ThreadStep, ThreadOk, Advances, Cancel;
    hide CloseMarket, Submit, Register;
    FollowsIsReflexive(s.db);
    match action
    case NewUser(user) =>
      RegisterIsSafe(s.db, user);
      DatabaseAdvances(s, Apply(s, action));
    case NewOrder(order) =>
      SubmitIsSafe(s.db, order);
      DatabaseAdvances(s, Apply(s, action));
    case StartRun(id) =>
      StartingIsOk(s.db, s.redis, id);
      SpawnAdvances(s, s.db, Thread(id, [], Starting, [], 0));
    case Step(tid) =>
      if tid in s.threads {
        ThreadAdvances(s, tid);
      } else {
        QuietAdvances(s, s);
      }
    case UserCancel(id, user) =>
      if Apply(s, action) == s {
        QuietAdvances(s, s);
      } else {
        CancelIsSafe(s.db, id);
        CancelledIsCurrent(s.db, id, s.redis);
        SpawnAdvances(s, Cancel(s.db, id), Thread(id, [Sync(Cancel(s.db, id).orders[id])], Leaving, [], 0));
      }
    case MarketClose =>
      CloseMarketIsSafe(s.db);
      DatabaseAdvances(s, Apply(s, action));
    case OrderExpiry(id) =>
      CancelIsSafe(s.db, id);
      DatabaseAdvances(s, Apply(s, action));
    case LockExpiry(symbol) => QuietAdvances(s, Apply(s, action));
    case Crash(tid) => QuietAdvances(s, Apply(s, action));
  }

  lemma StartingIsOk(db: Db, redis: Redis, id: OrderId)
    ensures ThreadOk(db, redis, Thread(id, [], Starting, [], 0))
  {
  }

  lemma InitialIsOk(s: Sys)
    requires Initial(s)
    ensures SysOk(s)
  {
  }

  lemma {:induction false} RunKeepsOk(s: Sys, actions: seq<Action>)
    requires SysOk(s)
    ensures SysOk(Run(s, actions)) && Follows(s.db, Run(s, actions).db)
    decreases |actions|
  {
    hide SysOk, Follows, Apply;
    if actions == [] {
      FollowsIsReflexive(s.db);
    } else {
      var next := Apply(s, actions[0]);
      ActionAdvances(s, actions[0]);
      AdvancingKeepsOk(s, next);
      RunKeepsOk(next, actions[1..]);
      FollowsIsTransitive(s.db, next.db, Run(next, actions[1..]).db);
    }
  }

  // ----- Conservation

  /** Cash an action brings into the exchange: a new account's opening balance. */
  function Granted(s: Sys, action: Action): nat {
    if action.NewUser? && action.user !in s.db.balances then 10_000_000 else 0
  }

  function Grants(s: Sys, actions: seq<Action>): nat
    decreases |actions|
  {
    if actions == [] then 0 else Granted(s, actions[0]) + Grants(Apply(s, actions[0]), actions[1..])
  }

  /** The only statements of a thread that touch the database are settlement and the engine's cancel. */
  lemma ThreadStepDb(s: Sys, tid: nat)
    requires tid in s.threads
    ensures var t, db := s.threads[tid], ThreadStep(s, tid).db;
            || db == s.db
            || (t.phase.Finishing? && db == Cancel(s.db, t.phase.incoming.id))
            || (t.phase.Settling? && Settle(s.db, t.phase.incoming.id, t.phase.resting.id).Committed?
                && db == Settle(s.db, t.phase.incoming.id, t.phase.resting.id).db)
  {
    hide Settle, Cancel, IsOpen, CanMatch, BookOf, PutEntry, DropEntry, Increment, Insert, Without;
  }

  lemma ActionConserves(s: Sys, action: Action)
    requires LedgerOk(s.db)
    ensures TotalCash(Apply(s, action).db) == TotalCash(s.db) + Granted(s, action)
    ensures forall symbol :: TotalShares(Apply(s, action).db, symbol) == TotalShares(s.db, symbol)
  {
    hide LedgerOk, ThreadStep, Cancel, CloseMarket, Submit, Register, Settle, TotalCash, TotalShares;
    match action
    case NewUser(user) => RegisterIsSafe(s.db, user);
    case NewOrder(order) => SubmitIsSafe(s.db, order);
    case StartRun(id) =>
    case Step(tid) =>
      if tid in s.threads {
        ThreadStepDb(s, tid);
        var t := s.threads[tid];
        if t.phase.Finishing? {
          CancelIsSafe(s.db, t.phase.incoming.id);
        } else if t.phase.Settling? && Settle(s.db, t.phase.incoming.id, t.phase.resting.id).Committed? {
          SettleIsSafe(s.db, t.phase.incoming.id, t.phase.resting.id);
        }
      }
    case UserCancel(id, user) => CancelIsSafe(s.db, id);
    case MarketClose => CloseMarketIsSafe(s.db);
    case OrderExpiry(id) => CancelIsSafe(s.db, id);
    case LockExpiry(symbol) =>
    case Crash(tid) =>
  }

  /** Over every run, cash grows by the opening balances alone and the shares of each symbol stay. */
  lemma {:induction false} RunConserves(s: Sys, actions: seq<Action>)
    requires SysOk(s)
    ensures TotalCash(Run(s, actions).db) == TotalCash(s.db) + Grants(s, actions)
    ensures forall symbol :: TotalShares(Run(s, actions).db, symbol) == TotalShares(s.db, symbol)
    decreases |actions|
  {
    hide LedgerOk, Apply, TotalCash, TotalShares, Granted, BookFaithful, ThreadOk, Rested;
    if actions == [] {
    } else {
      ActionConserves(s, actions[0]);
      ActionAdvances(s, actions[0]);
      AdvancingKeepsOk(s, Apply(s, actions[0]));
      RunConserves(Apply(s, actions[0]), actions[1..]);
    }
  }

  // ----- What holds in every reachable state

  /** Cash, shares, fills and trades, under every interleaving from an empty exchange. */
  lemma EveryRunIsSafe(s: Sys, actions: seq<Action>)
    requires Initial(s)
    ensures var end := Run(s, actions);
            && TotalCash(end.db) == TotalCash(s.db) + Grants(s, actions)
            && (forall symbol :: TotalShares(end.db, symbol) == TotalShares(s.db, symbol))
            && (forall user <- end.db.balances :: 0 <= end.db.balances[user])
            && (forall id <- end.db.orders ::
                  && OrderOk(end.db.orders[id])
                  && Traded(end.db.trades, id) == end.db.orders[id].filled)
            && (forall i | 0 <= i < |end.db.trades| :: TradeOk(end.db.orders, end.db.trades[i]))
  {
    hide Initial, TotalCash, TotalShares, Traded, OrderOk, TradeOk, BookFaithful, ThreadOk, Rested;
    InitialIsOk(s);
    RunKeepsOk(s, actions);
    RunConserves(s, actions);
  }

  /** Book completeness: every open order one of whose runs has completed is a limit order with an
      entry on its side of the book, at the score of its price. */
  lemma EveryRunKeepsBookComplete(s: Sys, actions: seq<Action>, id: OrderId)
    requires Initial(s)
    requires id in Run(s, actions).completed
    ensures var end := Run(s, actions);
            && id in end.db.orders
            && (IsOpen(end.db.orders[id]) ==>
                  && end.db.orders[id].price.Some?
                  && exists e <- BookOf(end.redis, KeyOf(end.db.orders[id])) ::
                       && OrderIdOf(e.member) == Some(id)
                       && e.score == Score(end.db.orders[id].side, end.db.orders[id].price.value))
  {
    InitialIsOk(s);
    RunKeepsOk(s, actions);
    var end := Run(s, actions);
    RestedHasEntry(end, id);
  }

  lemma RestedHasEntry(s: Sys, id: OrderId)
    requires SysOk(s) && id in s.completed
    ensures id in s.db.orders
    ensures IsOpen(s.db.orders[id]) ==>
              && s.db.orders[id].price.Some?
              && exists e <- BookOf(s.redis, KeyOf(s.db.orders[id])) ::
                   && OrderIdOf(e.member) == Some(id)
                   && e.score == Score(s.db.orders[id].side, s.db.orders[id].price.value)
  {
    hide LedgerOk, ThreadOk;
    assert Rested(s.db, s.redis, id);
    if IsOpen(s.db.orders[id]) {
      var key := KeyOf(s.db.orders[id]);
      var e :| e in BookOf(s.redis, key) && OrderIdOf(e.member) == Some(id);
      assert Stands(s.db.orders, key, e);
    }
  }

  /** Along every run, an order's terms never change, its fills only grow and a closed order is final. */
  lemma EveryRunIsMonotone(s: Sys, actions: seq<Action>, more: seq<Action>)
    requires Initial(s)
    ensures Follows(Run(s, actions).db, Run(Run(s, actions), more).db)
  {
    InitialIsOk(s);
    RunKeepsOk(s, actions);
    RunKeepsOk(Run(s, actions), more);
  }
}
