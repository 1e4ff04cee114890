/** What the actions around the matching runs do to the exchange, in plain terms. */
module ExchangeEffects {
  import opened Orders
  import opened Settlement
  import opened SettlementEffects
  import opened OrderBook
  import opened BookScan
  import opened Exchange

  /** The owner of an order that is still open cancels it: its status changes and nothing else of the
      database, and the sync of the closed row is under way.  For anybody else, and for an order that is
      filled, cancelled or unknown, nothing happens at all. */
  lemma OnlyTheOwnerCancels(s: Sys, id: OrderId, user: UserId)
    ensures var next := Apply(s, UserCancel(id, user));
            if id in s.db.orders && s.db.orders[id].userId == user && StillOpen(s.db.orders[id]) then
              var closed := s.db.orders[id].(status := Cancelled);
              && next.db == s.db.(orders := s.db.orders[id := closed])
              && next.threads == s.threads[s.nextThread := Thread(id, [Sync(closed)], Leaving, [], 0)]
              && next == s.(db := next.db, threads := next.threads, nextThread := s.nextThread + 1)
            else next == s
  {
  }

  /** At market close every limit order that is still open is cancelled, no other order is touched, and
      neither the book nor any run is. */
  lemma CloseCancelsEveryLimitOrder(s: Sys)
    ensures var next := Apply(s, MarketClose);
            && next == s.(db := s.db.(orders := next.db.orders)) && next.db.orders.Keys == s.db.orders.Keys
            && forall id <- s.db.orders ::
                 next.db.orders[id]
                 == if s.db.orders[id].orderType == Limit && StillOpen(s.db.orders[id])
                    then s.db.orders[id].(status := Cancelled) else s.db.orders[id]
  {
    CloseChangesOnlyStatuses(s.db);
  }

  /** An expiry cancels its own order, if that is a limit order still open, and nothing else. */
  lemma ExpiryCancelsItsOrder(s: Sys, id: OrderId)
    ensures Apply(s, OrderExpiry(id))
         == if id in s.db.orders && s.db.orders[id].orderType == Limit && StillOpen(s.db.orders[id])
            then s.(db := s.db.(orders := s.db.orders[id := s.db.orders[id].(status := Cancelled)]))
            else s
  {
  }

  /** A run waits for its lock: while another holds it nothing happens, and when it is free it is taken. */
  lemma WaitsForItsLock(s: Sys, tid: nat, symbol: Symbol)
    requires tid in s.threads && s.threads[tid].calls == [] && s.threads[tid].phase == Acquiring(symbol)
    ensures Apply(s, Step(tid))
         == if symbol in s.locks then s
            else s.(locks := s.locks[symbol := tid], threads := s.threads[tid := s.threads[tid].(phase := Fetching)])
  {
  }

  /** Only its holder, or its time running out, takes a lock away: a release compares before it deletes,
      and a crash releases nothing. */
  lemma OthersLocksStay(s: Sys, action: Action, symbol: Symbol)
    requires symbol in s.locks && action != LockExpiry(symbol) && action != Step(s.locks[symbol])
    ensures symbol in Apply(s, action).locks && Apply(s, action).locks[symbol] == s.locks[symbol]
  {
    hide ThreadStep, Submit, Register, Cancel, CloseMarket, OpenStatus;
    match action
    case Step(tid) =>
      if tid in s.threads {
        StepSparesOthersLocks(s, tid, symbol);
      }
    case _ =>
  }

  lemma StepSparesOthersLocks(s: Sys, tid: nat, symbol: Symbol)
    requires tid in s.threads && symbol in s.locks && s.locks[symbol] != tid
    ensures symbol in ThreadStep(s, tid).locks && ThreadStep(s, tid).locks[symbol] == s.locks[symbol]
  {
    hide CallStep, ScanStep, SettleStep, FinishStep, IsOpen, BookOf, Members, Window;
    var t := s.threads[tid];
    if t.calls != [] {
      CallsTakeNoLock(s, tid);
    } else if t.phase.Settling? {
      SettlingSparesOthersLocks(s, tid, t.phase.incoming, t.phase.resting, symbol);
    } else if t.phase.Scanning? && t.phase.rest != [] {
      ScansTakeNoLock(s, tid, t.phase.incoming, t.phase.rest, t.phase.whole);
    } else if t.phase.Finishing? {
      FinishTakesNoLock(s, tid, t.phase.incoming);
    }
  }

  lemma CallsTakeNoLock(s: Sys, tid: nat)
    requires tid in s.threads && s.threads[tid].calls != []
    ensures CallStep(s, tid).locks == s.locks
  {
    hide PutEntry, DropEntry, Increment, Restable;
  }

  lemma ScansTakeNoLock(s: Sys, tid: nat, incoming: Order, rest: seq<string>, whole: bool)
    requires tid in s.threads && rest != []
    ensures ScanStep(s, tid, incoming, rest, whole).locks == s.locks
  {
    hide RemoveMember, CanMatch, IsOpen;
  }

  lemma SettlingSparesOthersLocks(s: Sys, tid: nat, incoming: Order, resting: Order, symbol: Symbol)
    requires tid in s.threads && symbol in s.locks && s.locks[symbol] != tid
    ensures var next := SettleStep(s, tid, incoming, resting);
            symbol in next.locks && next.locks[symbol] == s.locks[symbol]
  {
    hide Settle, Syncs;
  }

  lemma FinishTakesNoLock(s: Sys, tid: nat, incoming: Order)
    requires tid in s.threads
    ensures FinishStep(s, tid, incoming).locks == s.locks
  {
    hide Cancel, OpenStatus;
  }

  /** Accounts and orders come in as they are given, runs begin at the beginning, a lock that expires is
      gone, and a crash takes a run away and leaves everything it has written. */
  lemma ComingsAndGoings(s: Sys, user: UserId, order: Order, id: OrderId, symbol: Symbol, tid: nat)
    ensures Apply(s, NewUser(user))
         == if user in s.db.balances then s else s.(db := s.db.(balances := s.db.balances[user := 10_000_000]))
    ensures Apply(s, NewOrder(order))
         == if && order.id !in s.db.orders && order.userId in s.db.balances
               && (order.orderType == Limit <==> order.price.Some?) && order.filled == 0 && order.status == Open
            then s.(db := s.db.(orders := s.db.orders[order.id := order])) else s
    ensures Apply(s, StartRun(id))
         == s.(threads := s.threads[s.nextThread := Thread(id, [], Starting, [], 0)], nextThread := s.nextThread + 1)
    ensures Apply(s, LockExpiry(symbol)) == s.(locks := s.locks - {symbol})
    ensures Apply(s, Crash(tid)) == s.(threads := s.threads - {tid})
  {
  }
}
