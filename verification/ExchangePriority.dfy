/** Price priority under every interleaving: as long as no live run loses its lock, whoever a run is about
    to settle with, no order at rest offers it a better price. */
module ExchangePriority {
  import opened Orders
  import opened Settlement
  import opened BookEncoding
  import opened OrderBook
  import opened Matching
  import opened BookScan
  import opened Exchange
  import opened ExchangeSafety
  import opened ExchangeTheorems
  import opened ExchangeUncrossed

  /** While it scans, a run still has every completed order on the other side before it, or behind its
      window; and the maker it has chosen is as good as any of them. */
  predicate BestFirst(db: Db, completed: set<OrderId>, t: Thread) {
    match t.phase
    case Scanning(_, rest, whole) => forall y <- completed :: Offers(db, t.orderId, y) ==> Awaits(db, rest, whole, y)
    case Settling(_, resting) =>
      forall y <- completed :: Offers(db, t.orderId, y) ==> ScoreOf(db.orders, resting.id) <= ScoreOf(db.orders, y)
    case _ => true
  }

  ghost predicate Prioritised(s: Sys) {
    LocksHeld(s) && forall tid <- s.threads :: BestFirst(s.db, s.completed, s.threads[tid])
  }

  predicate LocksKept(s: Sys, actions: seq<Action>)
    decreases |actions|
  {
    actions != [] ==> KeepsLock(s, actions[0]) && LocksKept(Apply(s, actions[0]), actions[1..])
  }

  // ----- Framing

  lemma OfferedBefore(before: Db, after: Db, x: OrderId, y: OrderId)
    requires Follows(before, after) && x in before.orders && y in before.orders && Offers(after, x, y)
    ensures Offers(before, x, y)
  {
  }

  lemma BestFirstStays(before: Db, after: Db, redis: Redis, completed: set<OrderId>, more: set<OrderId>, t: Thread)
    requires ThreadOk(before, redis, t) && BestFirst(before, completed, t) && Follows(before, after)
    requires completed <= before.orders.Keys && completed <= more
    requires Critical(t.phase) ==>
               t.orderId in before.orders && forall y <- more - completed :: !Offers(after, t.orderId, y)
    ensures BestFirst(after, more, t)
  {
    hide Offers, Follows, IsOpen, CanMatch;
    if t.phase.Scanning? || t.phase.Settling? {
      forall y | y in more && Offers(after, t.orderId, y) ensures y in completed && Offers(before, t.orderId, y) {
        OfferedBefore(before, after, t.orderId, y);
      }
    }
    if t.phase.Scanning? {
      forall y | y in more && Offers(after, t.orderId, y) ensures Awaits(after, t.phase.rest, t.phase.whole, y) {
        AwaitsStays(before, after, t, y);
      }
    }
    if t.phase.Settling? {
      ScoreStays(before, after, t.phase.resting.id);
      forall y | y in more && Offers(after, t.orderId, y)
        ensures ScoreOf(after.orders, t.phase.resting.id) <= ScoreOf(after.orders, y)
      {
        ScoreStays(before, after, y);
      }
    }
  }

  lemma AwaitsStays(before: Db, after: Db, t: Thread, y: OrderId)
    requires Follows(before, after) && y in before.orders && t.phase.Scanning?
    requires RestOk(before, t.phase.incoming, t.phase.rest) && Awaits(before, t.phase.rest, t.phase.whole, y)
    ensures Awaits(after, t.phase.rest, t.phase.whole, y)
  {
    hide Follows;
    var rest := t.phase.rest;
    ScoreStays(before, after, y);
    forall m | m in rest ensures MemberScore(after, m) == MemberScore(before, m) {
      var i :| 0 <= i < |rest| && rest[i] == m;
      assert MemberStands(before, OppositeKey(t.phase.incoming), rest[i]);
      ScoreStays(before, after, OrderIdOf(m).value);
    }
  }

  // ----- One step

  lemma RangeSeesAll(s: Sys, tid: nat)
    requires SysOk(s) && tid in s.threads && s.threads[tid].calls == [] && s.threads[tid].phase.Ranging?
    ensures tid in ThreadStep(s, tid).threads && BestFirst(s.db, s.completed, ThreadStep(s, tid).threads[tid])
  {
    hide LedgerOk, BookFaithful, Rested, Offers, Awaits, IsOpen, Window, Members;
    var t := s.threads[tid];
    assert ThreadOk(s.db, s.redis, t);
    forall y | y in s.completed && Offers(s.db, t.orderId, y)
      ensures var book := BookOf(s.redis, OppositeKey(t.phase.incoming));
              Awaits(s.db, Members(Window(book)), |book| <= WINDOW, y)
    {
      RangeAwaits(s, t.orderId, y);
    }
  }

  /** The order a scan has reached is at least as good as any order it awaits. */
  lemma HeadIsBest(db: Db, incoming: Order, rest: seq<string>, whole: bool, y: OrderId)
    requires RestOk(db, incoming, rest) && rest != [] && Awaits(db, rest, whole, y)
    ensures OrderIdOf(rest[0]).Some? && ScoreOf(db.orders, OrderIdOf(rest[0]).value) <= ScoreOf(db.orders, y)
  {
    hide ScoreOf;
    assert MemberStands(db, OppositeKey(incoming), rest[0]);
    forall k | 0 <= k < |rest| ensures MemberScore(db, rest[0]) <= MemberScore(db, rest[k]) {}
    assert rest[0] in rest;
    if m :| m in rest && OrderIdOf(m) == Some(y) {
      var k :| 0 <= k < |rest| && rest[k] == m;
      assert MemberScore(db, rest[k]) == ScoreOf(db.orders, y);
    }
  }

  lemma ScanChoosesBest(s: Sys, tid: nat)
    requires SysOk(s) && tid in s.threads && s.threads[tid].calls == [] && s.threads[tid].phase.Scanning?
    requires BestFirst(s.db, s.completed, s.threads[tid])
    ensures tid in ThreadStep(s, tid).threads && BestFirst(s.db, s.completed, ThreadStep(s, tid).threads[tid])
  {
    hide LedgerOk, BookFaithful, Rested, CanMatch, RestOk, Awaits, IsOpen, Offers, ScoreOf;
    var t := s.threads[tid];
    assert ThreadOk(s.db, s.redis, t);
    var incoming, rest, whole := t.phase.incoming, t.phase.rest, t.phase.whole;
    if rest != [] {
      HeadStands(s.db, incoming, rest);
      var head := s.db.orders[OrderIdOf(rest[0]).value];
      ReadingIsCurrent(s.db, OrderIdOf(rest[0]).value);
      forall y | y in s.completed && Offers(s.db, t.orderId, y)
        ensures !IsOpen(head) || head.userId == incoming.userId ==> Awaits(s.db, rest[1..], whole, y)
        ensures ScoreOf(s.db.orders, head.id) <= ScoreOf(s.db.orders, y)
      {
        HeadIsBest(s.db, incoming, rest, whole, y);
        if !IsOpen(head) || head.userId == incoming.userId {
          SkipKeepsAwaiting(s.db, incoming, rest, whole, y);
        }
      }
    }
  }

  /** Only a scan chooses a maker, and only a look at the book begins a scan. */
  lemma OthersChooseNobody(s: Sys, tid: nat)
    requires tid in s.threads && s.threads[tid].calls == []
    requires !s.threads[tid].phase.Scanning? && !s.threads[tid].phase.Ranging?
    ensures tid in ThreadStep(s, tid).threads ==>
              !ThreadStep(s, tid).threads[tid].phase.Scanning? && !ThreadStep(s, tid).threads[tid].phase.Settling?
  {
    hide Settle, Cancel, IsOpen, CallStep, ScanStep;
  }

  lemma StepperChoosesBest(s: Sys, tid: nat)
    requires SysOk(s) && tid in s.threads && BestFirst(s.db, s.completed, s.threads[tid])
    ensures var next := ThreadStep(s, tid);
            tid in next.threads ==> BestFirst(next.db, s.completed, next.threads[tid])
  {
    hide SysOk, ThreadStep, Offers, Awaits;
    var t := s.threads[tid];
    if t.calls != [] {
      CallKeepsPlace(s, tid);
      ThreadStepShape(s, tid);
    } else if t.phase.Scanning? {
      ScanChoosesBest(s, tid);
      ScanTouchesNoRow(s, tid);
    } else if t.phase.Ranging? {
      RangeSeesAll(s, tid);
      ScanTouchesNoRow(s, tid);
    } else {
      OthersChooseNobody(s, tid);
    }
  }

  lemma CompletionOffersNothing(s: Sys, tid: nat, other: nat)
    requires LocksHeld(s) && tid in s.threads && other in s.threads && other != tid && Critical(s.threads[other].phase)
    requires var t := s.threads[tid];
             t.orderId in s.db.orders && (t.phase.Releasing? || !IsOpen(s.db.orders[t.orderId]))
    ensures !Offers(s.db, s.threads[other].orderId, s.threads[tid].orderId)
  {
    if s.threads[tid].phase.Releasing? {
      OneHolderPerSymbol(s, tid, other);
    }
  }

  lemma ThreadKeepsPriority(s: Sys, tid: nat)
    requires SysOk(s) && Prioritised(s) && tid in s.threads
    ensures Prioritised(ThreadStep(s, tid))
  {
    hide LedgerOk, BookFaithful, Rested, ThreadStep, Offers, BestFirst, ThreadOk, Follows, BookStays;
    var t, next := s.threads[tid], ThreadStep(s, tid);
    ThreadStepShape(s, tid);
    ThreadAdvances(s, tid);
    ThreadKeepsLocks(s, tid);
    CompletedAreOrders(s);
    forall other | other in next.threads ensures BestFirst(next.db, next.completed, next.threads[other]) {
      if other == tid {
        StepperChoosesBest(s, tid);
      } else {
        if Critical(s.threads[other].phase) && next.completed != s.completed {
          CompletionOffersNothing(s, tid, other);
        }
        assert Critical(s.threads[other].phase) ==> forall y <- next.completed - s.completed :: y == t.orderId;
        BestFirstStays(s.db, next.db, s.redis, s.completed, next.completed, s.threads[other]);
      }
    }
  }

  lemma OutsideKeepsPriority(s: Sys, next: Sys)
    requires SysOk(s) && Prioritised(s) && Follows(s.db, next.db) && next.completed == s.completed
    requires forall tid <- next.threads ::
               (tid in s.threads && next.threads[tid] == s.threads[tid]) || !Critical(next.threads[tid].phase)
    requires forall tid <- next.threads, symbol <- s.locks :: s.locks[symbol] == tid && tid in s.threads ==>
               symbol in next.locks && next.locks[symbol] == tid
    ensures Prioritised(next)
  {
    hide LedgerOk, BookFaithful, Rested, ThreadOk, Offers, Follows;
    CompletedAreOrders(s);
    OutsideKeepsLocks(s, next);
    forall tid | tid in next.threads ensures BestFirst(next.db, next.completed, next.threads[tid]) {
      if tid in s.threads && next.threads[tid] == s.threads[tid] {
        BestFirstStays(s.db, next.db, s.redis, s.completed, next.completed, s.threads[tid]);
      }
    }
  }

  lemma ActionKeepsPriority(s: Sys, action: Action)
    requires SysOk(s) && Prioritised(s) && KeepsLock(s, action)
    ensures Prioritised(Apply(s, action))
  {
    hide LedgerOk, BookFaithful, Rested, ThreadOk, ThreadStep, Prioritised, Follows, BookStays, Cancel, CloseMarket;
    hide Submit, Register;
    if action.Step? {
      if action.thread in s.threads {
        ThreadKeepsPriority(s, action.thread);
      }
    } else {
      ActionAdvances(s, action);
      OutsideKeepsPriority(s, Apply(s, action));
    }
  }

  lemma {:induction false} RunKeepsPriority(s: Sys, actions: seq<Action>)
    requires SysOk(s) && Prioritised(s) && LocksKept(s, actions)
    ensures Prioritised(Run(s, actions))
    decreases |actions|
  {
    hide SysOk, Prioritised, Apply, KeepsLock;
    if actions == [] {
    } else {
      ActionAdvances(s, actions[0]);
      AdvancingKeepsOk(s, Apply(s, actions[0]));
      ActionKeepsPriority(s, actions[0]);
      RunKeepsPriority(Apply(s, actions[0]), actions[1..]);
    }
  }

  lemma InitialIsPrioritised(s: Sys)
    requires Initial(s)
    ensures Prioritised(s)
  {
  }

  /** Price priority: whenever a run is about to settle with a maker, however stale its reading of the
      book may be by then, every open order of another user on the maker's side whose own run has
      completed asks for as much or more, or bids as much or less.  Nothing is asked of the window. */
  lemma NobodyIsOvertaken(s: Sys, actions: seq<Action>, tid: nat, y: OrderId)
    requires Initial(s) && LocksKept(s, actions)
    requires var end := Run(s, actions);
             && tid in end.threads && end.threads[tid].phase.Settling?
             && y in end.completed && Offers(end.db, end.threads[tid].orderId, y)
    ensures var orders := Run(s, actions).db.orders;
            var id := Run(s, actions).threads[tid].phase.resting.id;
            && id in orders && KeyOf(orders[id]) == KeyOf(orders[y]) && orders[id].price.Some? && orders[y].price.Some?
            && if orders[y].side.Sell? then orders[id].price.value <= orders[y].price.value
               else orders[y].price.value <= orders[id].price.value
  {
    hide Initial, LedgerOk, BookFaithful, Awaits;
    InitialIsOk(s);
    InitialIsPrioritised(s);
    RunKeepsOk(s, actions);
    RunKeepsPriority(s, actions);
    var end := Run(s, actions);
    assert ThreadOk(end.db, end.redis, end.threads[tid]);
    assert BestFirst(end.db, end.completed, end.threads[tid]);
    RestedHasEntry(end, y);
  }
}
