/** The average cost of every holding, over every run of the exchange and read off its trades. */
module ExchangeAverages {
  import opened Orders
  import opened Settlement
  import opened Ledger
  import opened AverageCost
  import opened Exchange
  import opened ExchangeSafety
  import opened ExchangeTheorems

  /** The holding is what the recorded trades made of the row it began with. */
  predicate Accounted(first: Option<Holding>, db: Db, user: UserId, symbol: Symbol) {
    HoldingOf(db, user, symbol) == History(first, MovesOf(db.orders, db.trades, user, symbol))
  }

  lemma {:induction false} MovesStay(before: Db, after: Db, trades: seq<Trade>, user: UserId, symbol: Symbol)
    requires Follows(before, after) && forall i | 0 <= i < |trades| :: TradeOk(before.orders, trades[i])
    ensures MovesOf(after.orders, trades, user, symbol) == MovesOf(before.orders, trades, user, symbol)
  {
    if trades == [] {
    } else {
      MovesStay(before, after, trades[..|trades| - 1], user, symbol);
      assert TradeOk(before.orders, trades[|trades| - 1]);
    }
  }

  lemma QuietKeepsAccounted(first: Option<Holding>, before: Db, after: Db, user: UserId, symbol: Symbol)
    requires LedgerOk(before) && Follows(before, after) && Accounted(first, before, user, symbol)
    requires after.trades == before.trades && after.holdings == before.holdings
    ensures Accounted(first, after, user, symbol)
  {
    MovesStay(before, after, before.trades, user, symbol);
  }

  lemma SettleKeepsAccounted(first: Option<Holding>, db: Db, a: OrderId, b: OrderId, user: UserId, symbol: Symbol)
    requires LedgerOk(db) && Settle(db, a, b).Committed? && Accounted(first, db, user, symbol)
    ensures Accounted(first, Settle(db, a, b).db, user, symbol)
  {
    hide Settle, HoldingOf, OrdersOk, Conserved, Follows, After, FillsAreTraded;
    var after := Settle(db, a, b).db;
    SettleIsSafe(db, a, b);
    SettlementIsOneMove(db, a, b, user, symbol);
    if after.trades == db.trades && after.holdings == db.holdings {
      QuietKeepsAccounted(first, db, after, user, symbol);
    } else {
      MovesStay(db, after, db.trades, user, symbol);
      MovesAppend(after.orders, db.trades, after.trades[|db.trades|], user, symbol);
      HistoryAppend(first, MovesOf(db.orders, db.trades, user, symbol),
          MoveOf(after.orders, after.trades[|db.trades|], user, symbol));
    }
  }

  lemma HistoryAppend(first: Option<Holding>, moves: seq<Move>, move: Option<Move>)
    ensures move.Some? ==> History(first, moves + [move.value]) == After(History(first, moves), move.value)
  {
    if move.Some? {
      assert (moves + [move.value])[..|moves|] == moves;
    }
  }

  lemma OthersLeaveHoldings(s: Sys, action: Action)
    requires !action.Step?
    ensures Apply(s, action).db.trades == s.db.trades && Apply(s, action).db.holdings == s.db.holdings
  {
    hide OpenStatus;
  }

  lemma CancelLeavesHoldings(db: Db, id: OrderId)
    ensures Cancel(db, id).trades == db.trades && Cancel(db, id).holdings == db.holdings
  {
  }

  lemma ActionKeepsAccounted(first: Option<Holding>, s: Sys, action: Action, user: UserId, symbol: Symbol)
    requires SysOk(s) && Accounted(first, s.db, user, symbol)
    ensures Accounted(first, Apply(s, action).db, user, symbol)
  {
    hide LedgerOk, Follows, ThreadStep, Cancel, CloseMarket, Submit, Register, Settle, Accounted, BookFaithful;
    hide ThreadOk;
    hide Rested, BookStays;
    var next := Apply(s, action);
    ActionAdvances(s, action);
    if !action.Step? {
      OthersLeaveHoldings(s, action);
      QuietKeepsAccounted(first, s.db, next.db, user, symbol);
    } else if action.thread in s.threads {
      ThreadStepDb(s, action.thread);
      var phase := s.threads[action.thread].phase;
      if phase.Settling? && Settle(s.db, phase.incoming.id, phase.resting.id).Committed? {
        SettleKeepsAccounted(first, s.db, phase.incoming.id, phase.resting.id, user, symbol);
      } else if phase.Finishing? {
        CancelLeavesHoldings(s.db, phase.incoming.id);
      }
      if next.db.trades == s.db.trades && next.db.holdings == s.db.holdings {
        QuietKeepsAccounted(first, s.db, next.db, user, symbol);
      }
    }
  }

  lemma {:induction false} RunKeepsAccounted(first: Option<Holding>, s: Sys, actions: seq<Action>, user: UserId,
      symbol: Symbol)
    requires SysOk(s) && Accounted(first, s.db, user, symbol)
    ensures Accounted(first, Run(s, actions).db, user, symbol)
    decreases |actions|
  {
    hide SysOk, Accounted, Apply;
    if actions == [] {
    } else {
      ActionKeepsAccounted(first, s, actions[0], user, symbol);
      ActionAdvances(s, actions[0]);
      AdvancingKeepsOk(s, Apply(s, actions[0]));
      RunKeepsAccounted(first, Apply(s, actions[0]), actions[1..], user, symbol);
    }
  }

  /** In every reachable state each holding is the history of the trades that name its owner, so its
      average lies between the lowest and the highest price the owner paid since it was last empty. */
  lemma EveryAverageIsBetweenPrices(s: Sys, actions: seq<Action>, user: UserId, symbol: Symbol, lo: int, hi: int)
    requires Initial(s)
    requires var end := Run(s, actions).db;
             var moves := MovesOf(end.orders, end.trades, user, symbol);
             Within(PaidSinceEmpty(HoldingOf(s.db, user, symbol), moves), lo, hi)
    ensures var end := Run(s, actions).db;
            var holding := HoldingOf(end, user, symbol);
            && holding == History(HoldingOf(s.db, user, symbol), MovesOf(end.orders, end.trades, user, symbol))
            && FreeWhenEmpty(holding)
            && (Owns(holding) ==> lo <= holding.value.averageCents <= hi)
  {
    hide SysOk, Within, History, PaidSinceEmpty;
    InitialIsOk(s);
    assert Accounted(HoldingOf(s.db, user, symbol), s.db, user, symbol) by { NothingTradedYet(s.db, user, symbol); }
    RunKeepsAccounted(HoldingOf(s.db, user, symbol), s, actions, user, symbol);
    var end := Run(s, actions).db;
    AverageIsBetweenPrices(HoldingOf(s.db, user, symbol), MovesOf(end.orders, end.trades, user, symbol), lo, hi);
  }

  lemma NothingTradedYet(db: Db, user: UserId, symbol: Symbol)
    requires db.trades == []
    ensures Accounted(HoldingOf(db, user, symbol), db, user, symbol)
  {
  }
}
