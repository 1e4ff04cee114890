/** Progress of the matching loop under every interleaving: a run attempts each maker at most once. */
module ExchangeProgress {
  import opened Orders
  import opened Settlement
  import opened Ledger
  import opened BookEncoding
  import opened OrderBook
  import opened Matching
  import opened BookScan
  import opened Exchange
  import opened ExchangeSafety
  import opened ExchangeTheorems

  predicate Closed(db: Db, id: OrderId) {
    id in db.orders && !IsOpen(db.orders[id])
  }

  predicate AllClosed(db: Db, ids: seq<OrderId>) {
    forall i | 0 <= i < |ids| :: Closed(db, ids[i])
  }

  predicate Once(ids: seq<OrderId>) {
    forall i, j | 0 <= i < j < |ids| :: ids[i] != ids[j]
  }

  /** The makers a run has tried: each once, each on the other side and of another user; while the
      run goes on looking, each of them is closed.  Every time round the loop but the last ends in an
      attempt. */
  predicate TriedOk(db: Db, t: Thread) {
    && Once(t.tried)
    && LooksOk(t)
    && (t.tried != [] ==> t.orderId in db.orders)
    && (forall i | 0 <= i < |t.tried| ::
          && t.tried[i] in db.orders
          && KeyOf(db.orders[t.tried[i]]) == OppositeKey(db.orders[t.orderId])
          && db.orders[t.tried[i]].userId != db.orders[t.orderId].userId)
    && match t.phase
       case Starting => t.tried == []
       case Acquiring(_) => t.tried == []
       case Fetching => t.tried == []
       case Ranging(_) => AllClosed(db, t.tried)
       case Scanning(_, _, _) => AllClosed(db, t.tried)
       case Settling(_, resting) => AllClosed(db, t.tried) && resting.id !in t.tried
       case Refetching(_) => t.orderId in db.orders && (IsOpen(db.orders[t.orderId]) ==> AllClosed(db, t.tried))
       case _ => true
  }

  predicate LooksOk(t: Thread) {
    match t.phase
    case Starting => t.looks == 0
    case Acquiring(_) => t.looks == 0
    case Fetching => t.looks == 0
    case Ranging(_) => t.looks == |t.tried|
    case Scanning(_, _, _) => t.looks == |t.tried| + 1
    case Settling(_, _) => t.looks == |t.tried| + 1
    case Refetching(_) => t.looks == |t.tried|
    case _ => t.looks <= |t.tried| + 1
  }

  ghost predicate AllTriedOk(s: Sys) {
    forall tid <- s.threads :: TriedOk(s.db, s.threads[tid])
  }

  lemma TriedStays(before: Db, after: Db, t: Thread)
    requires TriedOk(before, t) && Follows(before, after)
    ensures TriedOk(after, t)
  {
    hide IsOpen;
    forall i | 0 <= i < |t.tried|
      ensures SameTerms(before.orders[t.tried[i]], after.orders[t.tried[i]])
      ensures Closed(before, t.tried[i]) ==> Closed(after, t.tried[i])
    {}
  }

  lemma CallKeepsTried(s: Sys, tid: nat)
    requires tid in s.threads && s.threads[tid].calls != [] && TriedOk(s.db, s.threads[tid])
    ensures CallStep(s, tid).db == s.db
    ensures tid in CallStep(s, tid).threads ==> TriedOk(s.db, CallStep(s, tid).threads[tid])
  {
    hide IsOpen, BookOf, PutEntry, DropEntry, Increment, MemberText, Closed, Once;
    var t, next := s.threads[tid], CallStep(s, tid);
    assert tid in next.threads ==> next.threads[tid] == t.(calls := next.threads[tid].calls);
  }

  lemma ScanKeepsTried(s: Sys, tid: nat)
    requires SysOk(s) && tid in s.threads && s.threads[tid].calls == [] && s.threads[tid].phase.Scanning?
    requires TriedOk(s.db, s.threads[tid])
    ensures TriedOk(s.db, ThreadStep(s, tid).threads[tid])
  {
    hide LedgerOk, BookFaithful, Rested, CanMatch, RestOk, Once;
    var t := s.threads[tid];
    assert ThreadOk(s.db, s.redis, t);
    if t.phase.rest != [] && OrderIdOf(t.phase.rest[0]).Some? && OrderIdOf(t.phase.rest[0]).value in s.db.orders {
      var id := OrderIdOf(t.phase.rest[0]).value;
      ReadingIsCurrent(s.db, id);
    }
  }

  lemma SettleKeepsTried(s: Sys, tid: nat)
    requires SysOk(s) && tid in s.threads && s.threads[tid].calls == [] && s.threads[tid].phase.Settling?
    requires TriedOk(s.db, s.threads[tid])
    ensures var next := ThreadStep(s, tid); tid in next.threads ==> TriedOk(next.db, next.threads[tid])
  {
    hide LedgerOk, BookFaithful, Rested, Settle, TriedOk, IsOpen, CanMatch, Conserved;
    var t, next := s.threads[tid], ThreadStep(s, tid);
    assert ThreadOk(s.db, s.redis, t);
    var a, b := t.phase.incoming, t.phase.resting;
    LedgerGivesOrders(s.db);
    AttemptClosesOne(s.db, a, b);
    SettleIsSafe(s.db, a.id, b.id);
    OppositeOfMatch(a, b);
    TriedStays(s.db, next.db, t);
    TriedOnceMore(next.db, t, next.threads[tid]);
  }

  lemma OppositeOfMatch(a: Order, b: Order)
    requires CanMatch(a, b)
    ensures KeyOf(b) == OppositeKey(a)
  {
  }

  lemma TriedOnceMore(db: Db, t: Thread, next: Thread)
    requires t.phase.Settling? && TriedOk(db, t)
    requires t.orderId in db.orders && t.phase.resting.id in db.orders
    requires var taker, maker := db.orders[t.orderId], db.orders[t.phase.resting.id];
             && KeyOf(maker) == OppositeKey(taker) && maker.userId != taker.userId
             && (IsOpen(taker) ==> !IsOpen(maker))
    requires next.orderId == t.orderId && next.phase.Refetching? && next.tried == t.tried + [t.phase.resting.id]
    requires next.looks == t.looks
    ensures TriedOk(db, next)
  {
    hide IsOpen;
    assert forall i | 0 <= i < |t.tried| :: next.tried[i] == t.tried[i] && Closed(db, next.tried[i]);
  }

  lemma PlainKeepsTried(s: Sys, tid: nat)
    requires LedgerOk(s.db) && tid in s.threads && s.threads[tid].calls == []
    requires !s.threads[tid].phase.Scanning? && !s.threads[tid].phase.Settling?
    requires TriedOk(s.db, s.threads[tid])
    ensures var next := ThreadStep(s, tid); tid in next.threads ==> TriedOk(next.db, next.threads[tid])
  {
    hide LedgerOk, ThreadStep, TriedOk;
    if s.threads[tid].phase.Finishing? {
      FinishKeepsTried(s, tid);
    } else {
      QuietKeepsTried(s, tid);
    }
  }

  lemma QuietKeepsTried(s: Sys, tid: nat)
    requires tid in s.threads && s.threads[tid].calls == []
    requires var phase := s.threads[tid].phase; !phase.Scanning? && !phase.Settling? && !phase.Finishing?
    requires TriedOk(s.db, s.threads[tid])
    ensures var next := ThreadStep(s, tid); tid in next.threads ==> TriedOk(next.db, next.threads[tid])
  {
    hide IsOpen, CallStep, ScanStep, SettleStep, FinishStep, Once, Members, Window, KeyOf, OppositeKey, BookOf;
  }

  lemma FinishKeepsTried(s: Sys, tid: nat)
    requires LedgerOk(s.db) && tid in s.threads && s.threads[tid].calls == [] && s.threads[tid].phase.Finishing?
    requires TriedOk(s.db, s.threads[tid])
    ensures var next := ThreadStep(s, tid); tid in next.threads && TriedOk(next.db, next.threads[tid])
  {
    hide LedgerOk, IsOpen, Cancel, Once, Conserved, KeyOf, OppositeKey, Follows;
    var t, next := s.threads[tid], ThreadStep(s, tid);
    CancelIsSafe(s.db, t.phase.incoming.id);
    FollowsIsReflexive(s.db);
    TriedStays(s.db, next.db, t);
  }

  lemma ThreadKeepsTried(s: Sys, tid: nat)
    requires SysOk(s) && AllTriedOk(s) && tid in s.threads
    ensures AllTriedOk(ThreadStep(s, tid))
  {
    hide LedgerOk, BookFaithful, ThreadOk, Rested, TriedOk, ThreadStep, Follows, BookStays;
    var t, next := s.threads[tid], ThreadStep(s, tid);
    ThreadAdvances(s, tid);
    assert tid in next.threads ==> TriedOk(next.db, next.threads[tid]) by {
      if t.calls != [] {
        CallKeepsTried(s, tid);
        CallFirst(s, tid);
      } else if t.phase.Scanning? {
        ScanKeepsTried(s, tid);
        ScanKeepsDb(s, tid);
      } else if t.phase.Settling? {
        SettleKeepsTried(s, tid);
      } else {
        PlainKeepsTried(s, tid);
      }
    }
    OthersUntouched(s, tid);
    forall other | other in next.threads ensures TriedOk(next.db, next.threads[other]) {
      if other != tid {
        TriedStays(s.db, next.db, s.threads[other]);
      }
    }
  }

  lemma ScanKeepsDb(s: Sys, tid: nat)
    requires tid in s.threads && s.threads[tid].calls == [] && s.threads[tid].phase.Scanning?
    ensures ThreadStep(s, tid).db == s.db && tid in ThreadStep(s, tid).threads
  {
    hide IsOpen, CanMatch, OrderIdOf;
  }

  lemma OthersUntouched(s: Sys, tid: nat)
    requires tid in s.threads
    ensures forall other <- ThreadStep(s, tid).threads :: other != tid ==>
      other in s.threads && ThreadStep(s, tid).threads[other] == s.threads[other]
  {
    hide Settle, Cancel, IsOpen, CanMatch, BookOf, PutEntry, DropEntry, Increment, Members, Window, OrderIdOf;
    hide MemberText;
  }

  lemma ActionKeepsTried(s: Sys, action: Action)
    requires SysOk(s) && AllTriedOk(s)
    ensures AllTriedOk(Apply(s, action))
  {
    hide LedgerOk, BookFaithful, ThreadOk, Rested, ThreadStep, Follows, BookStays, Cancel, CloseMarket, Submit;
    hide Register;
    if action.Step? {
      if action.thread in s.threads {
        ThreadKeepsTried(s, action.thread);
      }
    } else {
      ActionAdvances(s, action);
      var next := Apply(s, action);
      forall tid | tid in next.threads ensures TriedOk(next.db, next.threads[tid]) {
        if tid in s.threads && next.threads[tid] == s.threads[tid] {
          TriedStays(s.db, next.db, s.threads[tid]);
        }
      }
    }
  }

  lemma {:induction false} RunKeepsTried(s: Sys, actions: seq<Action>)
    requires SysOk(s) && AllTriedOk(s)
    ensures AllTriedOk(Run(s, actions))
    decreases |actions|
  {
    hide SysOk, AllTriedOk, Apply;
    if actions == [] {
    } else {
      ActionAdvances(s, actions[0]);
      AdvancingKeepsOk(s, Apply(s, actions[0]));
      ActionKeepsTried(s, actions[0]);
      RunKeepsTried(Apply(s, actions[0]), actions[1..]);
    }
  }

  lemma {:induction false} OnceIsBounded(ids: seq<OrderId>, all: set<OrderId>)
    requires Once(ids) && forall i | 0 <= i < |ids| :: ids[i] in all
    ensures |ids| <= |all|
  {
    if ids == [] {
    } else {
      var rest := ids[1..];
      forall i | 0 <= i < |rest| ensures rest[i] in all - {ids[0]} {
        assert rest[i] == ids[i + 1];
      }
      OnceIsBounded(rest, all - {ids[0]});
    }
  }

  // ----- Only orders that were open when the run began are tried

  /** Everything the run has tried or is about to try was open in an earlier database, or is newer. */
  predicate OpenThen(base: Db, t: Thread) {
    && (forall i | 0 <= i < |t.tried| :: t.tried[i] in base.orders ==> IsOpen(base.orders[t.tried[i]]))
    && (t.phase.Settling? ==> t.phase.resting.id in base.orders ==> IsOpen(base.orders[t.phase.resting.id]))
  }

  lemma ScanKeepsOpenThen(base: Db, s: Sys, tid: nat)
    requires SysOk(s) && Follows(base, s.db) && tid in s.threads && OpenThen(base, s.threads[tid])
    requires s.threads[tid].calls == [] && s.threads[tid].phase.Scanning?
    ensures tid in ThreadStep(s, tid).threads && OpenThen(base, ThreadStep(s, tid).threads[tid])
  {
    hide LedgerOk, BookFaithful, ThreadOk, Rested, CanMatch, IsOpen;
    var rest := s.threads[tid].phase.rest;
    if rest != [] && OrderIdOf(rest[0]).Some? && OrderIdOf(rest[0]).value in s.db.orders {
      ReadingIsCurrent(s.db, OrderIdOf(rest[0]).value);
    }
  }

  lemma StepKeepsOpenThen(base: Db, s: Sys, tid: nat)
    requires SysOk(s) && Follows(base, s.db) && tid in s.threads && OpenThen(base, s.threads[tid])
    ensures var next := ThreadStep(s, tid); tid in next.threads ==> OpenThen(base, next.threads[tid])
  {
    var t, next := s.threads[tid], ThreadStep(s, tid);
    if t.calls == [] && t.phase.Scanning? {
      ScanKeepsOpenThen(base, s, tid);
    } else if t.calls == [] && t.phase.Settling? {
      hide SysOk, Follows, Settle, IsOpen;
      assert tid in next.threads ==> next.threads[tid].tried == t.tried + [t.phase.resting.id];
    } else {
      OnlyScansChoose(s, tid);
    }
  }

  /** No other step picks a maker or records an attempt. */
  lemma OnlyScansChoose(s: Sys, tid: nat)
    requires tid in s.threads
    requires s.threads[tid].calls != [] || (!s.threads[tid].phase.Scanning? && !s.threads[tid].phase.Settling?)
    ensures var t, next := s.threads[tid], ThreadStep(s, tid);
            tid in next.threads ==>
              && next.threads[tid].tried == t.tried
              && (next.threads[tid].phase.Settling? ==> next.threads[tid].phase == t.phase)
  {
    hide Cancel, IsOpen, BookOf, PutEntry, DropEntry, Increment, MemberText, Members, Window, ScanStep, SettleStep;
  }

  lemma ActionKeepsOpenThen(base: Db, s: Sys, action: Action, tid: nat)
    requires SysOk(s) && Follows(base, s.db) && (tid in s.threads ==> OpenThen(base, s.threads[tid]))
    ensures var next := Apply(s, action); tid in next.threads ==> OpenThen(base, next.threads[tid])
  {
    hide SysOk, Follows, ThreadStep, Cancel, CloseMarket, Submit, Register, OpenStatus;
    if action.Step? && action.thread in s.threads {
      if action.thread == tid {
        StepKeepsOpenThen(base, s, tid);
      } else {
        OthersUntouched(s, action.thread);
      }
    }
  }

  lemma {:induction false} RunKeepsOpenThen(base: Db, s: Sys, actions: seq<Action>, tid: nat)
    requires SysOk(s) && Follows(base, s.db) && (tid in s.threads ==> OpenThen(base, s.threads[tid]))
    ensures var end := Run(s, actions); tid in end.threads ==> OpenThen(base, end.threads[tid])
    decreases |actions|
  {
    hide SysOk, Follows, OpenThen, Apply;
    if actions == [] {
    } else {
      var next := Apply(s, actions[0]);
      ActionAdvances(s, actions[0]);
      AdvancingKeepsOk(s, next);
      FollowsIsTransitive(base, s.db, next.db);
      ActionKeepsOpenThen(base, s, actions[0], tid);
      RunKeepsOpenThen(base, next, actions[1..], tid);
    }
  }

  /** The makers a run for this order may be paired with: orders of others on the other side that were
      open in the earlier database or have been submitted since. */
  function OpenMakers(earlier: Db, now: Db, id: OrderId): set<OrderId> {
    if id !in now.orders then {}
    else
      set y | y in now.orders
              && KeyOf(now.orders[y]) == OppositeKey(now.orders[id]) && now.orders[y].userId != now.orders[id].userId
              && (y in earlier.orders ==> IsOpen(earlier.orders[y]))
  }

  predicate Untried(s: Sys, tid: nat) {
    tid in s.threads ==> s.threads[tid].tried == [] && !s.threads[tid].phase.Settling?
  }

  /** However cancels, closes, crashes and other runs interleave, a run that had tried nothing by some
      moment tries each maker at most once, only makers that were open then or came later, and goes
      round its loop at most once more than it tries. */
  lemma EveryRunTriesEachMakerOnce(s: Sys, before: seq<Action>, after: seq<Action>, tid: nat)
    requires Initial(s) && Untried(Run(s, before), tid) && tid in Run(Run(s, before), after).threads
    ensures var start := Run(s, before);
            var end := Run(start, after);
            var t := end.threads[tid];
            && (forall i, j | 0 <= i < j < |t.tried| :: t.tried[i] != t.tried[j])
            && (forall i | 0 <= i < |t.tried| :: t.tried[i] in OpenMakers(start.db, end.db, t.orderId))
            && |t.tried| <= |OpenMakers(start.db, end.db, t.orderId)|
            && t.looks <= |OpenMakers(start.db, end.db, t.orderId)| + 1
  {
    hide Initial, SysOk, IsOpen, Follows;
    InitialIsOk(s);
    InitialHasNoThreads(s);
    RunKeepsTried(s, before);
    RunKeepsOk(s, before);
    var start := Run(s, before);
    var end := Run(start, after);
    FollowsIsReflexive(start.db);
    RunKeepsTried(start, after);
    RunKeepsOpenThen(start.db, start, after, tid);
    var t := end.threads[tid];
    assert TriedOk(end.db, t);
    OnceIsBounded(t.tried, OpenMakers(start.db, end.db, t.orderId));
  }

  lemma InitialHasNoThreads(s: Sys)
    requires Initial(s)
    ensures AllTriedOk(s)
  {
  }
}
