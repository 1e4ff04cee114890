/** The book is never crossed at rest, as long as no lock expires under a live holder and no scan
    runs out of members in a truncated window. */
module ExchangeUncrossed {
  import opened Orders
  import opened Settlement
  import opened Ledger
  import opened BookEncoding
  import opened OrderBook
  import opened Matching
  import opened BookScan
  import opened Exchange
  import opened ExchangeSafety
  import opened ExchangeTheorems

  /** Both open, and the engine would pair them. */
  predicate CrossedPair(db: Db, a: OrderId, b: OrderId) {
    && a in db.orders && b in db.orders
    && IsOpen(db.orders[a]) && IsOpen(db.orders[b])
    && Crossing(db.orders[a], db.orders[b])
  }

  /** `y` is open on the other side of `x`'s book and of another user, whatever its price. */
  predicate Offers(db: Db, x: OrderId, y: OrderId) {
    && x in db.orders && y in db.orders && IsOpen(db.orders[y])
    && KeyOf(db.orders[y]) == OppositeKey(db.orders[x]) && db.orders[y].userId != db.orders[x].userId
  }

  /** Past the lock. */
  predicate Critical(phase: Phase) {
    !phase.Starting? && !phase.Acquiring? && !phase.Leaving?
  }

  /** Mutual exclusion: a run past the lock still owns it. */
  predicate LocksHeld(s: Sys) {
    forall tid <- s.threads :: Critical(s.threads[tid].phase) ==>
      var id := s.threads[tid].orderId;
      id in s.db.orders && s.db.orders[id].symbol in s.locks && s.locks[s.db.orders[id].symbol] == tid
  }

  /** A completed order the taker crosses is still ahead of the scan, or beyond the window. */
  predicate Awaits(db: Db, rest: seq<string>, whole: bool, y: OrderId) {
    || (exists m <- rest :: OrderIdOf(m) == Some(y))
    || (!whole && forall m <- rest :: MemberScore(db, m) <= ScoreOf(db.orders, y))
  }

  predicate NoneMissed(db: Db, completed: set<OrderId>, t: Thread) {
    match t.phase
    case Scanning(incoming, rest, whole) =>
      forall y <- completed :: CrossedPair(db, t.orderId, y) ==> Awaits(db, rest, whole, y)
    case Finishing(_) => forall y <- completed :: !CrossedPair(db, t.orderId, y)
    case Releasing => forall y <- completed :: !CrossedPair(db, t.orderId, y)
    case _ => true
  }

  predicate Uncrossed(db: Db, completed: set<OrderId>) {
    forall a <- completed, b <- completed :: !CrossedPair(db, a, b)
  }

  ghost predicate Watched(s: Sys) {
    && LocksHeld(s)
    && Uncrossed(s.db, s.completed)
    && forall tid <- s.threads :: NoneMissed(s.db, s.completed, s.threads[tid])
  }

  /** The lock outlives its holder's work: it expires only when no live run holds it. */
  predicate KeepsLock(s: Sys, action: Action) {
    action.LockExpiry? && action.symbol in s.locks ==> s.locks[action.symbol] !in s.threads
  }

  /** The scan does not skip every one of its hundred members while the book holds more. */
  predicate KeepsWindow(s: Sys, action: Action) {
    action.Step? && action.thread in s.threads && s.threads[action.thread].calls == [] ==>
      match s.threads[action.thread].phase
      case Scanning(_, rest, whole) => rest == [] ==> whole
      case _ => true
  }

  predicate Undisturbed(s: Sys, actions: seq<Action>)
    decreases |actions|
  {
    actions != [] ==>
      KeepsLock(s, actions[0]) && KeepsWindow(s, actions[0]) && Undisturbed(Apply(s, actions[0]), actions[1..])
  }

  // ----- Framing

  lemma CrossedPairWas(before: Db, after: Db, a: OrderId, b: OrderId)
    requires Follows(before, after) && a in before.orders && b in before.orders && CrossedPair(after, a, b)
    ensures CrossedPair(before, a, b)
  {
  }

  lemma CrossedPairIsSymmetric(db: Db, a: OrderId, b: OrderId)
    ensures CrossedPair(db, a, b) <==> CrossedPair(db, b, a)
  {
  }

  lemma ScoreStays(before: Db, after: Db, id: OrderId)
    requires Follows(before, after) && id in before.orders
    ensures ScoreOf(after.orders, id) == ScoreOf(before.orders, id)
  {
  }

  /** Other threads miss nothing when the database moves and orders they do not cross complete. */
  lemma NoneMissedStays(before: Db, after: Db, redis: Redis, completed: set<OrderId>, more: set<OrderId>, t: Thread)
    requires ThreadOk(before, redis, t) && NoneMissed(before, completed, t) && Follows(before, after)
    requires completed <= before.orders.Keys && (Critical(t.phase) ==> t.orderId in before.orders)
    requires completed <= more
    requires Critical(t.phase) ==> forall y <- more - completed :: !CrossedPair(after, t.orderId, y)
    ensures NoneMissed(after, more, t)
  {
    hide Crossing, IsOpen, Follows;
    if Critical(t.phase) {
      forall y | y in more && CrossedPair(after, t.orderId, y)
        ensures y in completed && CrossedPair(before, t.orderId, y)
      {
        CrossedPairWas(before, after, t.orderId, y);
      }
      if t.phase.Scanning? {
        var rest := t.phase.rest;
        forall y | y in more && CrossedPair(after, t.orderId, y) ensures Awaits(after, rest, t.phase.whole, y) {
          assert Awaits(before, rest, t.phase.whole, y);
          ScoreStays(before, after, y);
          forall m | m in rest ensures MemberScore(after, m) == MemberScore(before, m) {
            var i :| 0 <= i < |rest| && rest[i] == m;
            assert MemberStands(before, OppositeKey(t.phase.incoming), rest[i]);
            ScoreStays(before, after, OrderIdOf(m).value);
          }
        }
      }
    }
  }

  // ----- The scan

  lemma OppositeSides(db: Db, a: OrderId, b: OrderId)
    requires CrossedPair(db, a, b)
    ensures Offers(db, a, b)
  {
  }

  /** Reading the window: a completed order is in it, or behind everything in it. */
  lemma RangeAwaits(s: Sys, x: OrderId, y: OrderId)
    requires BookFaithful(s.db, s.redis) && Rested(s.db, s.redis, y) && Offers(s.db, x, y)
    ensures var book := BookOf(s.redis, OppositeKey(s.db.orders[x]));
            Awaits(s.db, Members(Window(book)), |book| <= WINDOW, y)
  {
    var key := OppositeKey(s.db.orders[x]);
    var book := BookOf(s.redis, key);
    var members := Members(Window(book));
    assert InBook(s.redis, key, y);
    var e :| e in book && OrderIdOf(e.member) == Some(y);
    var k :| 0 <= k < |book| && book[k] == e;
    assert Sorted(book) && Stands(s.db.orders, key, e);
    if k < |members| {
      assert members[k] == e.member;
    } else {
      forall m | m in members ensures MemberScore(s.db, m) <= ScoreOf(s.db.orders, y) {
        var i :| 0 <= i < |members| && members[i] == m;
        assert book[i] in book;
        assert Stands(s.db.orders, key, book[i]);
        assert Before(book[i], book[k]);
      }
    }
  }

  /** If the best entry left does not cross, no completed order does. */
  lemma HeadDecides(db: Db, incoming: Order, rest: seq<string>, whole: bool, y: OrderId)
    requires Snapshot(db, incoming) && RestOk(db, incoming, rest) && rest != []
    requires var head := db.orders[OrderIdOf(rest[0]).value];
             head.userId != incoming.userId && !CanMatch(incoming, head)
    requires CrossedPair(db, incoming.id, y)
    ensures !Awaits(db, rest, whole, y)
  {
    OppositeSides(db, incoming.id, y);
    assert MemberStands(db, OppositeKey(incoming), rest[0]);
    forall k | 0 <= k < |rest| ensures MemberScore(db, rest[0]) <= MemberScore(db, rest[k]) {}
    assert rest[0] in rest;
  }

  /** Passing over a closed or own entry does not pass over a crossing completed order. */
  lemma SkipKeepsAwaiting(db: Db, incoming: Order, rest: seq<string>, whole: bool, y: OrderId)
    requires Snapshot(db, incoming) && RestOk(db, incoming, rest) && rest != []
    requires var head := db.orders[OrderIdOf(rest[0]).value];
             !IsOpen(head) || head.userId == incoming.userId
    requires Offers(db, incoming.id, y) && Awaits(db, rest, whole, y)
    ensures Awaits(db, rest[1..], whole, y)
  {
    assert MemberStands(db, OppositeKey(incoming), rest[0]);
    assert OrderIdOf(rest[0]) != Some(y);
    if m :| m in rest && OrderIdOf(m) == Some(y) {
      assert rest == [rest[0]] + rest[1..];
      assert m in rest[1..];
    }
  }

  lemma ScanMissesNothing(s: Sys, tid: nat)
    requires SysOk(s) && tid in s.threads && s.threads[tid].calls == [] && s.threads[tid].phase.Scanning?
    requires NoneMissed(s.db, s.completed, s.threads[tid]) && KeepsWindow(s, Step(tid))
    ensures NoneMissed(s.db, s.completed, ThreadStep(s, tid).threads[tid])
  {
    hide LedgerOk, BookFaithful, Rested, Crossing, CanMatch, RestOk, Awaits, IsOpen;
    var t := s.threads[tid];
    assert ThreadOk(s.db, s.redis, t);
    var incoming, rest, whole := t.phase.incoming, t.phase.rest, t.phase.whole;
    if rest == [] {
      forall y | y in s.completed ensures !CrossedPair(s.db, t.orderId, y) {
        NothingAwaitsAtEnd(s.db, y);
      }
    } else {
      HeadStands(s.db, incoming, rest);
      var head := s.db.orders[OrderIdOf(rest[0]).value];
      forall y | y in s.completed && CrossedPair(s.db, t.orderId, y)
        ensures !IsOpen(head) || head.userId == incoming.userId ==> Awaits(s.db, rest[1..], whole, y)
        ensures head.userId != incoming.userId ==> CanMatch(incoming, head)
      {
        if !IsOpen(head) || head.userId == incoming.userId {
          OppositeSides(s.db, t.orderId, y);
          SkipKeepsAwaiting(s.db, incoming, rest, whole, y);
        }
        if head.userId != incoming.userId && !CanMatch(incoming, head) {
          HeadDecides(s.db, incoming, rest, whole, y);
        }
      }
    }
  }

  lemma NothingAwaitsAtEnd(db: Db, y: OrderId)
    ensures !Awaits(db, [], true, y)
  {
  }

  lemma HeadStands(db: Db, incoming: Order, rest: seq<string>)
    requires RestOk(db, incoming, rest) && rest != []
    ensures OrderIdOf(rest[0]).Some? && OrderIdOf(rest[0]).value in db.orders
  {
    assert MemberStands(db, OppositeKey(incoming), rest[0]);
  }

  lemma RangeMissesNothing(s: Sys, tid: nat)
    requires SysOk(s) && tid in s.threads && s.threads[tid].calls == [] && s.threads[tid].phase.Ranging?
    ensures NoneMissed(s.db, s.completed, ThreadStep(s, tid).threads[tid])
  {
    hide LedgerOk, BookFaithful, Rested, Crossing, Awaits, IsOpen, Window, Members;
    var t := s.threads[tid];
    assert ThreadOk(s.db, s.redis, t);
    forall y | y in s.completed && CrossedPair(s.db, t.orderId, y)
      ensures var book := BookOf(s.redis, OppositeKey(t.phase.incoming));
              Awaits(s.db, Members(Window(book)), |book| <= WINDOW, y)
    {
      OppositeSides(s.db, t.orderId, y);
      RangeAwaits(s, t.orderId, y);
    }
  }

  /** How a thread's step touches the other threads, the locks and the completed orders. */
  ghost predicate StepShape(s: Sys, tid: nat, next: Sys)
    requires tid in s.threads
  {
    var t := s.threads[tid];
    && next.threads.Keys <= s.threads.Keys
    && (forall other <- s.threads :: other != tid ==> other in next.threads && next.threads[other] == s.threads[other])
    && (tid in next.threads ==> next.threads[tid].orderId == t.orderId && next.completed == s.completed)
    && (next.completed == s.completed ||
          (next.completed == s.completed + {t.orderId} && next.db == s.db && t.orderId in s.db.orders
           && (t.phase.Releasing? || !IsOpen(s.db.orders[t.orderId]))))
    && (forall symbol <- s.locks :: s.locks[symbol] != tid || tid in next.threads ==>
          symbol in next.locks && next.locks[symbol] == s.locks[symbol])
    && (tid in next.threads && Critical(next.threads[tid].phase) && !Critical(t.phase) ==>
          t.phase.Acquiring? && t.phase.symbol in next.locks && next.locks[t.phase.symbol] == tid)
  }

  lemma CallStepShape(s: Sys, tid: nat)
    requires tid in s.threads && s.threads[tid].calls != []
    ensures StepShape(s, tid, CallStep(s, tid))
  {
    hide IsOpen, BookOf, PutEntry, DropEntry, Increment, MemberText, Critical;
    assert CallStep(s, tid).locks == s.locks && CallStep(s, tid).completed == s.completed;
    assert tid in CallStep(s, tid).threads ==> CallStep(s, tid).threads[tid].phase == s.threads[tid].phase;
  }

  /** A step inside the critical section that moves one thread along. */
  lemma MovingOneThread(s: Sys, tid: nat, next: Sys, thread: Thread)
    requires tid in s.threads && Critical(s.threads[tid].phase) && thread.orderId == s.threads[tid].orderId
    requires next.threads == s.threads[tid := thread] && next.locks == s.locks && next.completed == s.completed
    ensures StepShape(s, tid, next)
  {
  }

  lemma ScanStepShape(s: Sys, tid: nat)
    requires tid in s.threads && s.threads[tid].calls == [] && s.threads[tid].phase.Scanning?
    ensures StepShape(s, tid, ThreadStep(s, tid))
  {
    hide IsOpen, CanMatch, BookOf, OrderIdOf, CallStep, RemoveMember, StepShape;
    var next := ThreadStep(s, tid);
    assert next.threads == s.threads[tid := next.threads[tid]];
    MovingOneThread(s, tid, next, next.threads[tid]);
  }

  lemma SettleStepShape(s: Sys, tid: nat)
    requires tid in s.threads && s.threads[tid].calls == [] &&
      (s.threads[tid].phase.Settling? || s.threads[tid].phase.Finishing?)
    ensures StepShape(s, tid, ThreadStep(s, tid))
  {
    hide Settle, Cancel, IsOpen, CallStep;
  }

  lemma RunStepShape(s: Sys, tid: nat)
    requires tid in s.threads && s.threads[tid].calls == []
    ensures StepShape(s, tid, ThreadStep(s, tid))
  {
    hide ThreadStep, StepShape;
    var phase := s.threads[tid].phase;
    if phase.Scanning? {
      ScanStepShape(s, tid);
    } else if phase.Settling? || phase.Finishing? {
      SettleStepShape(s, tid);
    } else if phase.Fetching? || phase.Ranging? || phase.Refetching? {
      InnerStepShape(s, tid);
    } else {
      OuterStepShape(s, tid);
    }
  }

  lemma InnerStepShape(s: Sys, tid: nat)
    requires tid in s.threads && s.threads[tid].calls == []
    requires var phase := s.threads[tid].phase; phase.Fetching? || phase.Ranging? || phase.Refetching?
    ensures StepShape(s, tid, ThreadStep(s, tid))
  {
    hide IsOpen, BookOf, Members, Window, CallStep, ScanStep, SettleStep, FinishStep, StepShape;
    var next := ThreadStep(s, tid);
    assert next.threads == s.threads[tid := next.threads[tid]];
    MovingOneThread(s, tid, next, next.threads[tid]);
  }

  /** Before and after the critical section. */
  lemma OuterStepShape(s: Sys, tid: nat)
    requires tid in s.threads && s.threads[tid].calls == []
    requires var phase := s.threads[tid].phase;
             phase.Starting? || phase.Acquiring? || phase.Releasing? || phase.Leaving?
    ensures StepShape(s, tid, ThreadStep(s, tid))
  {
    hide IsOpen, BookOf, Members, Window, CallStep, ScanStep, SettleStep, FinishStep;
  }

  lemma ThreadStepShape(s: Sys, tid: nat)
    requires tid in s.threads
    ensures StepShape(s, tid, ThreadStep(s, tid))
  {
    hide StepShape;
    if s.threads[tid].calls != [] {
      CallStepShape(s, tid);
    } else {
      RunStepShape(s, tid);
    }
  }

  lemma CallingMissesNothing(s: Sys, tid: nat)
    requires tid in s.threads && s.threads[tid].calls != [] && NoneMissed(s.db, s.completed, s.threads[tid])
    requires tid in CallStep(s, tid).threads
    ensures NoneMissed(CallStep(s, tid).db, s.completed, CallStep(s, tid).threads[tid])
  {
    hide CrossedPair, Awaits, BookOf, PutEntry, DropEntry, Increment, MemberText, IsOpen;
    var next := CallStep(s, tid);
    assert next.db == s.db;
    assert next.threads[tid].phase == s.threads[tid].phase && next.threads[tid].orderId == s.threads[tid].orderId;
  }

  lemma FinishMissesNothing(s: Sys, tid: nat)
    requires SysOk(s) && tid in s.threads && s.threads[tid].calls == [] && s.threads[tid].phase.Finishing?
    requires NoneMissed(s.db, s.completed, s.threads[tid])
    ensures NoneMissed(ThreadStep(s, tid).db, s.completed, ThreadStep(s, tid).threads[tid])
  {
    hide LedgerOk, BookFaithful, Rested, Crossing, Awaits, Cancel;
    var t := s.threads[tid];
    assert ThreadOk(s.db, s.redis, t);
    CancelIsSafe(s.db, t.phase.incoming.id);
    CompletedAreOrders(s);
    var next := ThreadStep(s, tid);
    forall y | y in s.completed ensures !CrossedPair(next.db, t.orderId, y) {
      if CrossedPair(next.db, t.orderId, y) {
        CrossedPairWas(s.db, next.db, t.orderId, y);
      }
    }
  }

  /** The other phases look at no entry; a run whose order is closed misses nothing. */
  lemma PlainStepMissesNothing(s: Sys, tid: nat)
    requires tid in s.threads && s.threads[tid].calls == []
    requires var phase := s.threads[tid].phase; !phase.Scanning? && !phase.Ranging? && !phase.Finishing?
    requires tid in ThreadStep(s, tid).threads && NoneMissed(s.db, s.completed, s.threads[tid])
    ensures NoneMissed(ThreadStep(s, tid).db, s.completed, ThreadStep(s, tid).threads[tid])
  {
    hide Settle, Crossing, IsOpen, CallStep, ScanStep, FinishStep, Awaits;
    var next := ThreadStep(s, tid);
    var phase := next.threads[tid].phase;
    assert phase.Releasing? ==>
      next.db == s.db && forall y <- s.completed :: !CrossedPair(s.db, s.threads[tid].orderId, y);
  }

  lemma StepperMissesNothing(s: Sys, tid: nat)
    requires SysOk(s) && tid in s.threads && NoneMissed(s.db, s.completed, s.threads[tid]) && KeepsWindow(s, Step(tid))
    requires tid in ThreadStep(s, tid).threads
    ensures NoneMissed(ThreadStep(s, tid).db, s.completed, ThreadStep(s, tid).threads[tid])
  {
    hide SysOk, NoneMissed, ThreadStep;
    var t := s.threads[tid];
    if t.calls != [] {
      assert ThreadStep(s, tid) == CallStep(s, tid) by { CallFirst(s, tid); }
      CallingMissesNothing(s, tid);
    } else if t.phase.Scanning? {
      ScanMissesNothing(s, tid);
      ScanTouchesNoRow(s, tid);
    } else if t.phase.Ranging? {
      RangeMissesNothing(s, tid);
      ScanTouchesNoRow(s, tid);
    } else if t.phase.Finishing? {
      FinishMissesNothing(s, tid);
    } else {
      PlainStepMissesNothing(s, tid);
    }
  }

  lemma ScanTouchesNoRow(s: Sys, tid: nat)
    requires tid in s.threads && s.threads[tid].calls == [] &&
      (s.threads[tid].phase.Scanning? || s.threads[tid].phase.Ranging?)
    ensures ThreadStep(s, tid).db == s.db
  {
    hide IsOpen, CanMatch, OrderIdOf, Members, Window, BookOf;
  }

  lemma ThreadKeepsLocks(s: Sys, tid: nat)
    requires SysOk(s) && tid in s.threads && LocksHeld(s)
    ensures LocksHeld(ThreadStep(s, tid))
  {
    hide LedgerOk, BookFaithful, Rested, ThreadStep;
    var next := ThreadStep(s, tid);
    ThreadStepShape(s, tid);
    ThreadAdvances(s, tid);
    assert ThreadOk(s.db, s.redis, s.threads[tid]);
    forall other | other in next.threads && Critical(next.threads[other].phase)
      ensures var id := next.threads[other].orderId;
              id in next.db.orders && next.db.orders[id].symbol in next.locks &&
                  next.locks[next.db.orders[id].symbol] == other
    {
      var id := next.threads[other].orderId;
      assert id in s.db.orders;
      assert SameTerms(s.db.orders[id], next.db.orders[id]);
    }
  }

  /** Two runs past the lock never work on the same symbol. */
  lemma OneHolderPerSymbol(s: Sys, a: nat, b: nat)
    requires LocksHeld(s) && a in s.threads && b in s.threads && Critical(s.threads[a].phase) &&
      Critical(s.threads[b].phase)
    requires a != b
    ensures s.threads[a].orderId in s.db.orders && s.threads[b].orderId in s.db.orders
    ensures s.db.orders[s.threads[a].orderId].symbol != s.db.orders[s.threads[b].orderId].symbol
  {
  }

  lemma CompletionIsUnseen(s: Sys, tid: nat, other: nat)
    requires LocksHeld(s) && tid in s.threads && other in s.threads && other != tid && Critical(s.threads[other].phase)
    requires var t := s.threads[tid];
             t.orderId in s.db.orders && (t.phase.Releasing? || !IsOpen(s.db.orders[t.orderId]))
    ensures !CrossedPair(s.db, s.threads[other].orderId, s.threads[tid].orderId)
  {
    if s.threads[tid].phase.Releasing? {
      OneHolderPerSymbol(s, tid, other);
    }
  }

  lemma ThreadKeepsWatched(s: Sys, tid: nat)
    requires SysOk(s) && Watched(s) && tid in s.threads && KeepsWindow(s, Step(tid))
    ensures Watched(ThreadStep(s, tid))
  {
    hide LedgerOk, BookFaithful, Rested, ThreadStep, CrossedPair, NoneMissed, ThreadOk, Follows, BookStays;
    var t := s.threads[tid];
    var next := ThreadStep(s, tid);
    ThreadStepShape(s, tid);
    ThreadAdvances(s, tid);
    ThreadKeepsLocks(s, tid);
    CompletedAreOrders(s);
    forall other | other in next.threads ensures NoneMissed(next.db, next.completed, next.threads[other]) {
      if other == tid {
        StepperMissesNothing(s, tid);
      } else {
        if Critical(s.threads[other].phase) && next.completed != s.completed {
          CompletionIsUnseen(s, tid, other);
        }
        assert Critical(s.threads[other].phase) ==> forall y <- next.completed - s.completed :: y == t.orderId;
        NoneMissedStays(s.db, next.db, s.redis, s.completed, next.completed, s.threads[other]);
      }
    }
    StepKeepsUncrossed(s, tid, next);
  }

  lemma CompletedAreOrders(s: Sys)
    requires SysOk(s)
    ensures s.completed <= s.db.orders.Keys
  {
    forall id | id in s.completed ensures id in s.db.orders {
      assert Rested(s.db, s.redis, id);
    }
  }

  lemma StepKeepsUncrossed(s: Sys, tid: nat, next: Sys)
    requires tid in s.threads && StepShape(s, tid, next) && Follows(s.db, next.db)
    requires s.completed <= s.db.orders.Keys && Uncrossed(s.db, s.completed) &&
      NoneMissed(s.db, s.completed, s.threads[tid])
    ensures Uncrossed(next.db, next.completed)
  {
    hide Crossing;
    var id := s.threads[tid].orderId;
    forall a, b | a in next.completed && b in next.completed ensures !CrossedPair(next.db, a, b) {
      if CrossedPair(next.db, a, b) {
        CrossedPairWas(s.db, next.db, a, b);
        CrossedPairIsSymmetric(s.db, a, b);
        if a == id && b == id {
          NoSelfCrossing(s.db, id);
        }
      }
    }
  }

  lemma NoSelfCrossing(db: Db, id: OrderId)
    ensures !CrossedPair(db, id, id)
  {
  }

  // ----- Every action, every run

  lemma OutsideKeepsLocks(s: Sys, next: Sys)
    requires LocksHeld(s) && Follows(s.db, next.db)
    requires forall tid <- next.threads ::
               (tid in s.threads && next.threads[tid] == s.threads[tid]) || !Critical(next.threads[tid].phase)
    requires forall tid <- next.threads, symbol <- s.locks :: s.locks[symbol] == tid && tid in s.threads ==>
               symbol in next.locks && next.locks[symbol] == tid
    ensures LocksHeld(next)
  {
    forall tid | tid in next.threads && Critical(next.threads[tid].phase)
      ensures var id := next.threads[tid].orderId;
              id in next.db.orders && next.db.orders[id].symbol in next.locks &&
                  next.locks[next.db.orders[id].symbol] == tid
    {
      assert SameTerms(s.db.orders[next.threads[tid].orderId], next.db.orders[next.threads[tid].orderId]);
    }
  }

  lemma OutsideKeepsWatched(s: Sys, next: Sys)
    requires SysOk(s) && Watched(s) && Follows(s.db, next.db)
    requires next.completed == s.completed
    requires forall tid <- next.threads ::
               (tid in s.threads && next.threads[tid] == s.threads[tid]) || !Critical(next.threads[tid].phase)
    requires forall tid <- next.threads, symbol <- s.locks :: s.locks[symbol] == tid && tid in s.threads ==>
               symbol in next.locks && next.locks[symbol] == tid
    ensures Watched(next)
  {
    hide LedgerOk, BookFaithful, Rested, CrossedPair, ThreadOk, Crossing;
    CompletedAreOrders(s);
    OutsideKeepsLocks(s, next);
    forall tid | tid in next.threads ensures NoneMissed(next.db, next.completed, next.threads[tid]) {
      if tid in s.threads && next.threads[tid] == s.threads[tid] {
        NoneMissedStays(s.db, next.db, s.redis, s.completed, next.completed, s.threads[tid]);
      }
    }
    forall a, b | a in next.completed && b in next.completed ensures !CrossedPair(next.db, a, b) {
      if CrossedPair(next.db, a, b) {
        CrossedPairWas(s.db, next.db, a, b);
      }
    }
  }

  lemma ActionKeepsWatched(s: Sys, action: Action)
    requires SysOk(s) && Watched(s) && KeepsLock(s, action) && KeepsWindow(s, action)
    ensures Watched(Apply(s, action))
  {
    hide LedgerOk, BookFaithful, Rested, ThreadOk, ThreadStep, Watched, Follows, BookStays, Cancel, CloseMarket;
    hide Submit, Register;
    if action.Step? {
      if action.thread in s.threads {
        ThreadKeepsWatched(s, action.thread);
      }
    } else {
      ActionAdvances(s, action);
      OutsideKeepsWatched(s, Apply(s, action));
    }
  }

  lemma {:induction false} RunKeepsWatched(s: Sys, actions: seq<Action>)
    requires SysOk(s) && Watched(s) && Undisturbed(s, actions)
    ensures Watched(Run(s, actions))
    decreases |actions|
  {
    hide SysOk, Watched, Apply, KeepsLock, KeepsWindow;
    if actions == [] {
    } else {
      ActionAdvances(s, actions[0]);
      AdvancingKeepsOk(s, Apply(s, actions[0]));
      ActionKeepsWatched(s, actions[0]);
      RunKeepsWatched(Apply(s, actions[0]), actions[1..]);
    }
  }

  lemma InitialIsWatched(s: Sys)
    requires Initial(s)
    ensures Watched(s)
  {
  }

  /** The book is never crossed at rest: an open bid and an open ask of different users, each with a
      completed run, always leave a gap between their prices. */
  lemma NeverCrossedAtRest(s: Sys, actions: seq<Action>, bid: OrderId, ask: OrderId)
    requires Initial(s) && Undisturbed(s, actions)
    requires var end := Run(s, actions);
             && bid in end.completed && ask in end.completed && bid in end.db.orders && ask in end.db.orders
             && IsOpen(end.db.orders[bid]) && IsOpen(end.db.orders[ask])
             && end.db.orders[bid].side.Buy? && end.db.orders[ask].side.Sell?
             && end.db.orders[bid].symbol == end.db.orders[ask].symbol
             && end.db.orders[bid].userId != end.db.orders[ask].userId
    ensures var orders := Run(s, actions).db.orders;
            orders[bid].price.Some? && orders[ask].price.Some? && orders[bid].price.value < orders[ask].price.value
  {
    hide Initial, BookFaithful, ThreadOk, NoneMissed;
    InitialIsOk(s);
    InitialIsWatched(s);
    RunKeepsOk(s, actions);
    RunKeepsWatched(s, actions);
    var end := Run(s, actions);
    RestedHasEntry(end, bid);
    RestedHasEntry(end, ask);
    LedgerGivesOrders(end.db);
    assert OrderOk(end.db.orders[bid]) && OrderOk(end.db.orders[ask]);
    assert !CrossedPair(end.db, bid, ask);
  }

  // ----- A condition on the surroundings

  /** The member names an order the taker could trade with. */
  predicate Promising(db: Db, incoming: Order, member: string) {
    var id := OrderIdOf(member);
    id.Some? && id.value in db.orders && IsOpen(db.orders[id.value]) && db.orders[id.value].userId != incoming.userId
  }

  /** A run that is about to read the other side finds a book that fits the window, or in it fewer than
      a hundred closed entries and entries of its own user. */
  predicate ReadsEnough(s: Sys, action: Action) {
    action.Step? && action.thread in s.threads && s.threads[action.thread].calls == [] ==>
      match s.threads[action.thread].phase
      case Ranging(incoming) =>
        var book := BookOf(s.redis, OppositeKey(incoming));
        |book| <= 100 || Skipped(s.db.orders, Some(incoming.userId), book) < 100
      case _ => true
  }

  /** No order that a scan of a truncated window has still to look at is closed under it. */
  predicate LeavesScannedOpen(s: Sys, action: Action) {
    forall tid <- s.threads :: s.threads[tid].phase.Scanning? && !s.threads[tid].phase.whole ==>
      forall m <- s.threads[tid].phase.rest ::
        Promising(s.db, s.threads[tid].phase.incoming, m) ==>
            Promising(Apply(s, action).db, s.threads[tid].phase.incoming, m)
  }

  predicate Supplied(s: Sys, actions: seq<Action>)
    decreases |actions|
  {
    actions != [] ==>
      && KeepsLock(s, actions[0]) && ReadsEnough(s, actions[0]) && LeavesScannedOpen(s, actions[0])
      && Supplied(Apply(s, actions[0]), actions[1..])
  }

  predicate Hopeful(db: Db, t: Thread) {
    t.phase.Scanning? && !t.phase.whole ==> exists m <- t.phase.rest :: Promising(db, t.phase.incoming, m)
  }

  predicate AllHopeful(s: Sys) {
    forall tid <- s.threads :: Hopeful(s.db, s.threads[tid])
  }

  /** Fewer than a hundred skipped entries cannot fill the window. */
  lemma RangeIsHopeful(db: Db, incoming: Order, book: seq<Entry>)
    requires 100 < |book| && Skipped(db.orders, Some(incoming.userId), book) < 100
    ensures exists m <- Members(Window(book)) :: Promising(db, incoming, m)
  {
    var exclude := Some(incoming.userId);
    EligibleConcat(db.orders, exclude, book[..100], book[100..]);
    assert book == book[..100] + book[100..];
    var ids := EligibleIds(db.orders, exclude, Window(book));
    assert ids != [];
    EligibleMembers(db.orders, exclude, Window(book), ids[0]);
    var e :| e in Window(book) && Eligible(db.orders, exclude, e);
    var i :| 0 <= i < |Window(book)| && Window(book)[i] == e;
    assert Members(Window(book))[i] == e.member;
    assert Promising(db, incoming, e.member);
  }

  lemma ScanStaysHopeful(s: Sys, tid: nat)
    requires tid in s.threads && s.threads[tid].calls == [] && s.threads[tid].phase.Scanning?
    requires Hopeful(s.db, s.threads[tid])
    ensures tid in ThreadStep(s, tid).threads && Hopeful(s.db, ThreadStep(s, tid).threads[tid])
  {
    hide IsOpen, CanMatch, OrderIdOf, CallStep;
    var phase := s.threads[tid].phase;
    if !phase.whole && phase.rest != [] && !Promising(s.db, phase.incoming, phase.rest[0]) {
      var m :| m in phase.rest && Promising(s.db, phase.incoming, m);
      assert m in phase.rest[1..];
    }
  }

  /** Only these steps scan. */
  lemma OnlyRangesBeginScans(s: Sys, tid: nat)
    requires tid in s.threads && s.threads[tid].calls == []
    requires !s.threads[tid].phase.Scanning? && !s.threads[tid].phase.Ranging?
    ensures tid in ThreadStep(s, tid).threads ==> !ThreadStep(s, tid).threads[tid].phase.Scanning?
  {
    hide Settle, Cancel, IsOpen, CallStep, ScanStep;
  }

  lemma CallKeepsPlace(s: Sys, tid: nat)
    requires tid in s.threads && s.threads[tid].calls != []
    ensures ThreadStep(s, tid).db == s.db
    ensures tid in ThreadStep(s, tid).threads ==> ThreadStep(s, tid).threads[tid].phase == s.threads[tid].phase
  {
    hide IsOpen, BookOf, PutEntry, DropEntry, Increment, MemberText;
  }

  lemma StepStaysHopeful(s: Sys, tid: nat)
    requires tid in s.threads && Hopeful(s.db, s.threads[tid]) && ReadsEnough(s, Step(tid))
    ensures var next := ThreadStep(s, tid); tid in next.threads ==> Hopeful(next.db, next.threads[tid])
  {
    hide ThreadStep, Promising, Skipped, Members, Window, BookOf;
    var t := s.threads[tid];
    if t.calls != [] {
      CallKeepsPlace(s, tid);
    } else if t.phase.Scanning? {
      ScanStaysHopeful(s, tid);
      ScanTouchesNoRow(s, tid);
    } else if t.phase.Ranging? {
      RangeStep(s, tid);
      var book := BookOf(s.redis, OppositeKey(t.phase.incoming));
      if 100 < |book| {
        RangeIsHopeful(s.db, t.phase.incoming, book);
      }
    } else {
      OnlyRangesBeginScans(s, tid);
    }
  }

  lemma RangeStep(s: Sys, tid: nat)
    requires tid in s.threads && s.threads[tid].calls == [] && s.threads[tid].phase.Ranging?
    ensures var incoming := s.threads[tid].phase.incoming;
            var book := BookOf(s.redis, OppositeKey(incoming));
            && ThreadStep(s, tid).db == s.db && tid in ThreadStep(s, tid).threads
            && ThreadStep(s, tid).threads[tid].phase == Scanning(incoming, Members(Window(book)), |book| <= WINDOW)
  {
    hide BookOf, Members, Window;
  }

  lemma ActionStaysHopeful(s: Sys, action: Action)
    requires AllHopeful(s) && ReadsEnough(s, action) && LeavesScannedOpen(s, action)
    ensures AllHopeful(Apply(s, action)) && KeepsWindow(s, action)
  {
    hide ReadsEnough, ThreadStep, Cancel, CloseMarket, Submit, Register, Promising, OpenStatus;
    var next := Apply(s, action);
    forall tid | tid in s.threads ensures Hopeful(next.db, s.threads[tid]) {
      var phase := s.threads[tid].phase;
      if phase.Scanning? && !phase.whole {
        var m :| m in phase.rest && Promising(s.db, phase.incoming, m);
        assert Promising(next.db, phase.incoming, m);
      }
    }
    if action.Step? && action.thread in s.threads {
      StepStaysHopeful(s, action.thread);
      ThreadStepShape(s, action.thread);
    }
  }

  lemma {:induction false} HopefulIsUndisturbed(s: Sys, actions: seq<Action>)
    requires AllHopeful(s) && Supplied(s, actions)
    ensures Undisturbed(s, actions)
    decreases |actions|
  {
    hide AllHopeful, Apply, KeepsLock, KeepsWindow, ReadsEnough, LeavesScannedOpen;
    if actions == [] {
    } else {
      ActionStaysHopeful(s, actions[0]);
      HopefulIsUndisturbed(Apply(s, actions[0]), actions[1..]);
    }
  }

  lemma InitialIsHopeful(s: Sys)
    requires Initial(s)
    ensures AllHopeful(s)
  {
  }

  /** If no live run loses its lock, every run that looks finds a book that fits the window or fewer
      than a hundred entries to skip in it, and no order in a truncated window is closed before the scan
      reaches it, then nothing disturbs the runs, however deep the books are. */
  lemma FewSkippedIsUndisturbed(s: Sys, actions: seq<Action>)
    requires Initial(s) && Supplied(s, actions)
    ensures Undisturbed(s, actions)
  {
    hide Supplied, Undisturbed;
    InitialIsHopeful(s);
    HopefulIsUndisturbed(s, actions);
  }
}
