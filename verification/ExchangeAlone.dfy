/** A run that is left alone: stepping one thread of the exchange, command by command, does exactly what
    the specification of a whole run says. */
module ExchangeAlone {
  import opened Orders
  import opened Settlement
  import opened BookEncoding
  import opened OrderBook
  import opened Matching
  import opened MatchingSteps
  import opened BookScan
  import opened MatchingEngineModel
  import opened Exchange
  import opened ExchangeTraces

  // ----- Calls

  /** One syncOrderBook, in two commands or three. */
  lemma SyncRuns(s: Sys, tid: nat, order: Order, rest: seq<BookCall>) returns (n: nat)
    requires tid in s.threads && s.threads[tid].calls == [Sync(order)] + rest
    ensures Run(s, Steps(tid, n))
         == Update(s.(redis := OrderBook.SyncOrderBook(s.redis, order)), tid, s.threads[tid].(calls := rest))
  {
    var t := s.threads[tid];
    if Restable(order) && order.id !in s.redis.hashes {
      n := 3;
      FirstPuts(s, tid, order, rest);
    } else {
      n := 2;
      SyncInTwo(s, tid, order, rest);
    }
  }

  lemma SyncInTwo(s: Sys, tid: nat, order: Order, rest: seq<BookCall>)
    requires tid in s.threads && s.threads[tid].calls == [Sync(order)] + rest
    requires !Restable(order) || order.id in s.redis.hashes
    ensures Run(s, Steps(tid, 2))
         == Update(s.(redis := OrderBook.SyncOrderBook(s.redis, order)), tid, s.threads[tid].(calls := rest))
  {
    hide IsOpen, PutEntry, DropEntry, Increment;
    var t := s.threads[tid];
    assert t.calls[1..] == rest;
    var call := if Restable(order) then
      Put(order, MemberOf(s.redis, order.id)) else Drop(order, MemberOf(s.redis, order.id));
    var s1 := Update(s, tid, t.(calls := [call] + rest));
    assert Apply(s, Step(tid)) == s1;
    assert ([call] + rest)[1..] == rest;
    var s2 := Update(s.(redis := OrderBook.SyncOrderBook(s.redis, order)), tid, t.(calls := rest));
    assert Apply(s1, Step(tid)) == s2;
    hide Apply;
    FirstStep(s, tid, 2);
    FirstStep(s1, tid, 1);
  }

  lemma FirstPuts(s: Sys, tid: nat, order: Order, rest: seq<BookCall>)
    requires tid in s.threads && s.threads[tid].calls == [Sync(order)] + rest
    requires Restable(order) && order.id !in s.redis.hashes
    ensures Run(s, Steps(tid, 3))
         == Update(s.(redis := OrderBook.SyncOrderBook(s.redis, order)), tid, s.threads[tid].(calls := rest))
  {
    hide IsOpen, PutEntry, Increment;
    var t := s.threads[tid];
    assert t.calls[1..] == rest;
    var s1 := Update(s, tid, t.(calls := [Put(order, None)] + rest));
    assert Apply(s, Step(tid)) == s1;
    assert ([Put(order, None)] + rest)[1..] == rest;
    var redis := Increment(s.redis, order.symbol);
    var put := Put(order, Some(MemberText(SequenceAt(redis, order.symbol), order.id)));
    var s2 := Update(s.(redis := redis), tid, t.(calls := [put] + rest));
    assert Apply(s1, Step(tid)) == s2;
    assert ([put] + rest)[1..] == rest;
    var s3 := Update(s.(redis := OrderBook.SyncOrderBook(s.redis, order)), tid, t.(calls := rest));
    assert Apply(s2, Step(tid)) == s3;
    hide Apply;
    FirstStep(s, tid, 3);
    FirstStep(s1, tid, 2);
    FirstStep(s2, tid, 1);
  }

  // ----- The scan

  /** Where a run stands after a scan that found `found`. */
  function Scanned(incoming: Order, found: Option<Order>): Phase {
    if found.Some? && CanMatch(incoming, found.value) then Settling(incoming, found.value) else Finishing(incoming)
  }

  lemma SkipStep(s: Sys, tid: nat, incoming: Order, rest: seq<string>, whole: bool)
    requires tid in s.threads && s.threads[tid].calls == [] && s.threads[tid].phase == Scanning(incoming, rest, whole)
    requires rest != []
    ensures var next := Apply(s, Step(tid));
            var t := s.threads[tid];
            var id := OrderIdOf(rest[0]);
            var onward := t.(phase := Scanning(incoming, rest[1..], whole));
            next == if id.None? then Update(s, tid, onward)
                    else if id.value !in s.db.orders then
                      Update(s.(redis := RemoveMember(s.redis, OppositeKey(incoming), rest[0])), tid, onward)
                    else if !IsOpen(s.db.orders[id.value]) then
                      Update(s, tid, onward.(calls := [Sync(s.db.orders[id.value])] + []))
                    else if s.db.orders[id.value].userId == incoming.userId then Update(s, tid, onward)
                    else Update(s, tid, t.(phase := Scanned(incoming, Some(s.db.orders[id.value]))))
  {
    hide IsOpen, CanMatch, OrderIdOf, RemoveMember;
    if OrderIdOf(rest[0]).Some? && OrderIdOf(rest[0]).value in s.db.orders {
      var order := s.db.orders[OrderIdOf(rest[0]).value];
      assert [Sync(order)] + [] == [Sync(order)];
    }
  }

  /** The steps of a scan do what the scan does. */
  lemma {:induction false} ScanRuns(s: Sys, tid: nat, incoming: Order, rest: seq<string>, whole: bool) returns (n: nat)
    requires tid in s.threads && s.threads[tid].calls == [] && s.threads[tid].phase == Scanning(incoming, rest, whole)
    ensures var scan := Scan(s.db, s.redis, OppositeKey(incoming), rest, Some(incoming.userId));
            Run(s, Steps(tid, n)) ==
              Update(s.(redis := scan.1), tid, s.threads[tid].(phase := Scanned(incoming, scan.0)))
    decreases |rest|
  {
    hide IsOpen, CanMatch, OrderIdOf, RemoveMember, OrderBook.SyncOrderBook;
    if rest == [] {
      n := 1;
      assert Apply(s, Step(tid)) == Update(s, tid, s.threads[tid].(phase := Finishing(incoming)));
      FirstStep(s, tid, 1);
    } else {
      hide Apply;
      SkipStep(s, tid, incoming, rest, whole);
      var id := OrderIdOf(rest[0]);
      var next := Apply(s, Step(tid));
      if id.Some? && id.value in s.db.orders && IsOpen(s.db.orders[id.value])
         && s.db.orders[id.value].userId != incoming.userId {
        n := 1;
        FirstStep(s, tid, 1);
      } else if id.Some? && id.value in s.db.orders && !IsOpen(s.db.orders[id.value]) {
        var a := SyncRuns(next, tid, s.db.orders[id.value], []);
        var cleared := Run(next, Steps(tid, a));
        var b := ScanRuns(cleared, tid, incoming, rest[1..], whole);
        StepsSplit(next, tid, a, b);
        n := 1 + a + b;
        FirstStep(s, tid, n);
      } else {
        var b := ScanRuns(next, tid, incoming, rest[1..], whole);
        n := 1 + b;
        FirstStep(s, tid, n);
      }
    }
  }

  lemma RangeRuns(s: Sys, tid: nat, incoming: Order) returns (n: nat)
    requires tid in s.threads && s.threads[tid].calls == [] && s.threads[tid].phase == Ranging(incoming)
    ensures var book := BookOf(s.redis, OppositeKey(incoming));
            var scan := Scan(s.db, s.redis, OppositeKey(incoming), Members(Window(book)), Some(incoming.userId));
            var t := s.threads[tid].(phase := Scanned(incoming, scan.0), looks := s.threads[tid].looks + 1);
            Run(s, Steps(tid, n)) == Update(s.(redis := scan.1), tid, t)
  {
    hide BookOf, Members, Window, Scan, Scanned;
    var book := BookOf(s.redis, OppositeKey(incoming));
    var t := s.threads[tid].(phase := Scanning(incoming, Members(Window(book)), |book| <= WINDOW),
      looks := s.threads[tid].looks + 1);
    assert Apply(s, Step(tid)) == Update(s, tid, t);
    hide Apply;
    var b := ScanRuns(Update(s, tid, t), tid, incoming, Members(Window(book)), |book| <= WINDOW);
    n := 1 + b;
    FirstStep(s, tid, n);
  }

  // ----- A settlement with its syncs

  /** Where a run stands after it has read its order again. */
  function Refetched(db: Db, id: OrderId): Phase {
    if id in db.orders && IsOpen(db.orders[id]) then Ranging(db.orders[id]) else Releasing
  }

  lemma SettleRuns(s: Sys, tid: nat, incoming: Order, resting: Order, tx: Transaction) returns (n: nat)
    requires tid in s.threads && s.threads[tid].calls == [] && s.threads[tid].phase == Settling(incoming, resting)
    requires tx == Settle(s.db, incoming.id, resting.id) && tx.Committed? && |tx.report.orders| == 2
    ensures var first := OrderBook.SyncOrderBook(s.redis, tx.report.orders[0]);
            var redis := OrderBook.SyncOrderBook(first, tx.report.orders[1]);
            var t := s.threads[tid].(phase := Refetched(tx.db, s.threads[tid].orderId),
                                     tried := s.threads[tid].tried + [resting.id]);
            Run(s, Steps(tid, n)) == Update(s.(db := tx.db, redis := redis), tid, t)
  {
    hide Settle, OrderBook.SyncOrderBook, Apply, Run, Steps, Refetched, Syncs;
    var t := s.threads[tid];
    var a, b := tx.report.orders[0], tx.report.orders[1];
    var settled := t.(calls := [Sync(a)] + [Sync(b)], phase := Refetching(None), tried := t.tried + [resting.id]);
    var s1 := Update(s.(db := tx.db), tid, settled);
    SettlesFirst(s, tid, incoming, resting, tx);
    var i := SyncRuns(s1, tid, a, [Sync(b)]);
    var s2 := Update(s1.(redis := OrderBook.SyncOrderBook(s.redis, a)), tid, settled.(calls := [Sync(b)]));
    assert [Sync(b)] + [] == [Sync(b)];
    var j := SyncRuns(s2, tid, b, []);
    var s3 := Update(s2.(redis := OrderBook.SyncOrderBook(s2.redis, b)), tid, settled.(calls := []));
    ReadsAgain(s3, tid);
    n := 1 + (i + (j + 1));
    FirstStep(s, tid, n);
    StepsSplit(s1, tid, i, j + 1);
    StepsSplit(s2, tid, j, 1);
  }

  lemma SettlesFirst(s: Sys, tid: nat, incoming: Order, resting: Order, tx: Transaction)
    requires tid in s.threads && s.threads[tid].calls == [] && s.threads[tid].phase == Settling(incoming, resting)
    requires tx == Settle(s.db, incoming.id, resting.id) && tx.Committed? && |tx.report.orders| == 2
    ensures var t := s.threads[tid];
            var calls := [Sync(tx.report.orders[0])] + [Sync(tx.report.orders[1])];
            var settled := t.(calls := calls, phase := Refetching(None), tried := t.tried + [resting.id]);
            Apply(s, Step(tid)) == Update(s.(db := tx.db), tid, settled)
  {
    hide Settle;
    assert Syncs(tx.report.orders) == [Sync(tx.report.orders[0])] + [Sync(tx.report.orders[1])];
  }

  lemma ReadsAgain(s: Sys, tid: nat)
    requires tid in s.threads && s.threads[tid].calls == [] && s.threads[tid].phase == Refetching(None)
    ensures Run(s, Steps(tid, 1)) == Update(s, tid, s.threads[tid].(phase := Refetched(s.db, s.threads[tid].orderId)))
  {
    hide IsOpen;
    FirstStep(s, tid, 1);
  }

  // ----- The end of a run

  /** The system when the thread is gone, its lock released and its order marked. */
  function Ended(s: Sys, tid: nat, symbol: Symbol, id: OrderId): Sys {
    s.(threads := s.threads - {tid}, locks := Unlocked(s.locks, symbol, tid), completed := s.completed + {id})
  }

  lemma ReleaseRuns(s: Sys, tid: nat)
    requires tid in s.threads && s.threads[tid].calls == [] && s.threads[tid].phase == Releasing
    requires s.threads[tid].orderId in s.db.orders
    ensures Run(s, Steps(tid, 1)) == Ended(s, tid, s.db.orders[s.threads[tid].orderId].symbol, s.threads[tid].orderId)
  {
    FirstStep(s, tid, 1);
  }

  lemma FinishRuns(s: Sys, tid: nat, incoming: Order) returns (n: nat)
    requires tid in s.threads && s.threads[tid].calls == [] && s.threads[tid].phase == Finishing(incoming)
    requires s.threads[tid].orderId == incoming.id && incoming.id in s.db.orders && s.db.orders[incoming.id] == incoming
    requires OpenStatus(incoming.status)
    ensures var db := if incoming.orderType.Market? then Cancel(s.db, incoming.id) else s.db;
            && incoming.id in db.orders
            && var redis := OrderBook.SyncOrderBook(s.redis, db.orders[incoming.id]);
            Run(s, Steps(tid, n)) == Ended(s.(db := db, redis := redis), tid, incoming.symbol, incoming.id)
  {
    hide OrderBook.SyncOrderBook;
    var t := s.threads[tid];
    var db := if incoming.orderType.Market? then Cancel(s.db, incoming.id) else s.db;
    var row := db.orders[incoming.id];
    var s1 := Update(s.(db := db), tid, t.(calls := [Sync(row)] + [], phase := Releasing));
    assert [Sync(row)] + [] == [Sync(row)];
    assert Apply(s, Step(tid)) == s1;
    hide Apply;
    var i := SyncRuns(s1, tid, row, []);
    var s2 := Update(s1.(redis := OrderBook.SyncOrderBook(s.redis, row)), tid, t.(calls := [], phase := Releasing));
    ReleaseRuns(s2, tid);
    assert s2.threads - {tid} == s.threads - {tid};
    n := 1 + (i + 1);
    FirstStep(s, tid, n);
    StepsSplit(s1, tid, i, 1);
  }

  // ----- The loop

  function Now(s: Sys): State {
    State(s.db, s.redis)
  }

  /** Only the database, the book and this thread have moved. */
  ghost predicate OnlyThis(s: Sys, end: Sys, tid: nat) {
    tid in end.threads && end == s.(db := end.db, redis := end.redis, threads := s.threads[tid := end.threads[tid]])
  }

  lemma OnlyThisIsTransitive(a: Sys, b: Sys, c: Sys, tid: nat)
    requires OnlyThis(a, b, tid) && OnlyThis(b, c, tid)
    ensures OnlyThis(a, c, tid)
  {
  }

  /** A run has ended and left what the specification says of it, from `start`. */
  ghost predicate Done(s: Sys, end: Sys, tid: nat, id: OrderId, start: State) {
    && id in s.db.orders
    && end == Ended(s, tid, s.db.orders[id].symbol, id).(db := end.db, redis := end.redis)
    && Completes(start, id, Now(end))
  }

  lemma DoneFromBefore(a: Sys, b: Sys, end: Sys, tid: nat, id: OrderId, start: State)
    requires OnlyThis(a, b, tid) && Done(b, end, tid, id, start)
    requires id in a.db.orders && b.db.orders[id].symbol == a.db.orders[id].symbol
    ensures Done(a, end, tid, id, start)
  {
    hide Completes;
    assert b.threads - {tid} == a.threads - {tid};
  }

  /** A run inside its loop, which began in `start`. */
  ghost predicate Inside(s: Sys, tid: nat, id: OrderId, start: State) {
    && tid in s.threads && s.threads[tid].calls == [] && s.threads[tid].orderId == id
    && id in s.db.orders && Roomy(start, id, 0) && AtLoop(start, Now(s), id)
  }

  /** At the head of the loop. */
  ghost predicate Looping(s: Sys, tid: nat, id: OrderId, start: State) {
    Inside(s, tid, id, start) && IsOpen(s.db.orders[id]) && s.threads[tid].phase == Ranging(s.db.orders[id])
  }

  /** After the loop, with the order still open and nothing left to do for it. */
  ghost predicate Exhausted(s: Sys, tid: nat, id: OrderId, start: State) {
    && Inside(s, tid, id, start) && IsOpen(s.db.orders[id]) && s.threads[tid].phase == Finishing(s.db.orders[id])
    && Stopped(Now(s), id)
  }

  /** After the loop, with the order closed. */
  ghost predicate ClosedInside(s: Sys, tid: nat, id: OrderId, start: State) {
    Inside(s, tid, id, start) && !IsOpen(s.db.orders[id]) && s.threads[tid].phase == Releasing
  }

  function Left(s: Sys, id: OrderId): nat
    requires id in s.db.orders
  {
    |Queue(Now(s), s.db.orders[id])|
  }

  lemma ExhaustedIsDone(s: Sys, tid: nat, id: OrderId, start: State) returns (n: nat)
    requires Exhausted(s, tid, id, start)
    ensures Done(s, Run(s, Steps(tid, n)), tid, id, start)
  {
    hide Roomy, AtLoop, Stopped, Completes, OrderBook.SyncOrderBook, Reached, Valid, Run, Steps;
    AtLoopIsValid(start, Now(s), id);
    var incoming := s.db.orders[id];
    n := FinishRuns(s, tid, incoming);
    if incoming.orderType.Market? {
      MarketFinish(start, Now(s), id);
    } else {
      LimitFinish(start, Now(s), id);
    }
  }

  lemma ClosedIsDone(s: Sys, tid: nat, id: OrderId, start: State)
    requires ClosedInside(s, tid, id, start)
    ensures Done(s, Run(s, Steps(tid, 1)), tid, id, start)
  {
    hide Roomy, AtLoop, Completes, Reached, Valid, Run, Steps, IsOpen;
    ClosedAfterLoop(start, Now(s), id);
    ReleaseRuns(s, tid);
  }

  /** The scan of one round: it has left nothing to do, or found the head of the queue and is about to
      settle with it, the closed entries ahead of it cleared away. */
  lemma LookRuns(s: Sys, tid: nat, id: OrderId, start: State) returns (n: nat, found: Option<Order>)
    requires Looping(s, tid, id, start)
    ensures var end := Run(s, Steps(tid, n));
            && OnlyThis(s, end, tid) && Inside(end, tid, id, start) && end.db == s.db
            && Left(end, id) == Left(s, id)
            && (found.None? ==> Exhausted(end, tid, id, start))
            && (found.Some? ==> ToSettle(end, tid, id, start, found.value))
  {
    hide Roomy, AtLoop, Stopped, OrderBook.SyncOrderBook, Reached, Valid, Scan, Queue, Tidied, Window, Members, IsOpen;
    hide CanMatch, BookOf, Run, Steps, Load, SkippedFor;
    var taker := s.db.orders[id];
    var key := OppositeKey(taker);
    AtLoopIsValid(start, Now(s), id);
    n := RangeRuns(s, tid, taker);
    var scan := Scan(s.db, s.redis, key, Members(Window(BookOf(s.redis, key))), Some(taker.userId));
    WindowTidies(Now(s), key, Some(taker.userId));
    TidiedKeepsLoop(start, Now(s), id);
    ScanAnswers(start, Now(s), State(s.db, scan.1), id, scan.0);
    found := if scan.0.Some? && CanMatch(taker, scan.0.value) then scan.0 else None;
  }

  ghost predicate ToSettle(s: Sys, tid: nat, id: OrderId, start: State, maker: Order) {
    && Inside(s, tid, id, start) && id in start.db.orders
    && var taker := s.db.orders[id];
    && IsOpen(taker) && s.threads[tid].phase == Settling(taker, maker) && CanMatch(taker, maker)
    && Queue(Now(s), taker) != [] && Queue(Now(s), taker)[0] == maker.id
    && maker.id in s.db.orders && maker == s.db.orders[maker.id]
    && SkippedFor(Now(s), taker) < Load(start, start.db.orders[id])
  }

  /** The settlement of one round with its two syncs: the order is closed, or the loop goes on with a
      shorter queue. */
  lemma AttemptRuns(s: Sys, tid: nat, id: OrderId, start: State, maker: Order) returns (n: nat)
    requires ToSettle(s, tid, id, start, maker)
    ensures var end := Run(s, Steps(tid, n));
            && OnlyThis(s, end, tid) && Inside(end, tid, id, start)
            && end.db.orders[id].symbol == s.db.orders[id].symbol
            && (ClosedInside(end, tid, id, start) || (Looping(end, tid, id, start) && Left(end, id) < Left(s, id)))
  {
    hide Roomy, AtLoop, OrderBook.SyncOrderBook, Reached, Valid, Queue, IsOpen, CanMatch, Settle, Syncing, BookOf;
    hide Run, Steps, Load, SkippedFor;
    var taker := s.db.orders[id];
    AtLoopIsValid(start, Now(s), id);
    SettledReport(start, Now(s), id, maker.id);
    var tx := Settle(s.db, id, maker.id);
    n := SettleRuns(s, tid, taker, maker, tx);
    SyncedTwice(s, id, start, maker.id, tx);
    TermsStay(s.db, tx.db, id);
  }

  lemma SyncedTwice(s: Sys, id: OrderId, start: State, maker: OrderId, tx: Transaction)
    requires AtLoop(start, Now(s), id) && Roomy(start, id, 0) && id != maker && tx.Committed? && Follows(s.db, tx.db)
    requires id in s.db.orders && IsOpen(s.db.orders[id]) && Queue(Now(s), s.db.orders[id]) != []
    requires ReportsBoth(tx.db, tx.report.orders, id, maker)
    requires var base := State(tx.db, s.redis);
             && Syncing(start, base, base, id, maker, [])
             && id in tx.db.orders && maker in tx.db.orders
             && KeyOf(tx.db.orders[maker]) == OppositeKey(tx.db.orders[id])
             && (IsOpen(tx.db.orders[id]) ==> !IsOpen(tx.db.orders[maker]))
             && Queue(base, tx.db.orders[id])
                == if IsOpen(tx.db.orders[maker]) then
                    Queue(Now(s), s.db.orders[id]) else Queue(Now(s), s.db.orders[id])[1..]
    ensures |tx.report.orders| == 2
    ensures var first := OrderBook.SyncOrderBook(s.redis, tx.report.orders[0]);
            var both := State(tx.db, OrderBook.SyncOrderBook(first, tx.report.orders[1]));
            && AtLoop(start, both, id)
            && (IsOpen(tx.db.orders[id]) ==> |Queue(both, tx.db.orders[id])| < |Queue(Now(s), s.db.orders[id])|)
  {
    hide Roomy, AtLoop, OrderBook.SyncOrderBook, Reached, Valid, Queue, IsOpen, Syncing, BookOf;
    var base := State(tx.db, s.redis);
    var orders := tx.report.orders;
    assert orders[..0] == [] && orders[..2] == orders;
    var first := State(tx.db, OrderBook.SyncOrderBook(s.redis, orders[0]));
    SyncingStep(start, base, base, id, maker, orders, 0);
    SyncingStep(start, base, first, id, maker, orders, 1);
    SyncedBothReachesLoop(start, Now(s), base, State(tx.db, OrderBook.SyncOrderBook(first.redis, orders[1])), id, maker,
        orders);
  }

  lemma TermsStay(before: Db, after: Db, id: OrderId)
    requires Follows(before, after) && id in before.orders
    ensures id in after.orders && after.orders[id].symbol == before.orders[id].symbol
  {
  }

  lemma {:induction false} LoopRuns(s: Sys, tid: nat, id: OrderId, start: State) returns (n: nat)
    requires Looping(s, tid, id, start)
    ensures Done(s, Run(s, Steps(tid, n)), tid, id, start)
    decreases Left(s, id)
  {
    hide Roomy, AtLoop, Done, Exhausted, ClosedInside, ToSettle, OnlyThis, Left, Run, Steps, IsOpen;
    var a, found := LookRuns(s, tid, id, start);
    var looked := Run(s, Steps(tid, a));
    if found.None? {
      var b := ExhaustedIsDone(looked, tid, id, start);
      n := a + b;
      StepsSplit(s, tid, a, b);
      DoneFromBefore(s, looked, Run(s, Steps(tid, n)), tid, id, start);
    } else {
      var b := AttemptRuns(looked, tid, id, start, found.value);
      var settled := Run(looked, Steps(tid, b));
      var c;
      if ClosedInside(settled, tid, id, start) {
        c := 1;
        ClosedIsDone(settled, tid, id, start);
      } else {
        c := LoopRuns(settled, tid, id, start);
      }
      n := a + (b + c);
      StepsSplit(s, tid, a, b + c);
      StepsSplit(looked, tid, b, c);
      OnlyThisIsTransitive(s, looked, settled, tid);
      DoneFromBefore(s, settled, Run(s, Steps(tid, n)), tid, id, start);
    }
  }

  /** A run that is left alone from its start, on a valid book with room and a free lock, ends after some
      number of its steps.  It has then done to the database and the open entries of the book exactly what
      the specification of a whole run says, and everything else of the system is as it was. */
  lemma LeftAloneItCompletes(s: Sys, tid: nat, id: OrderId) returns (n: nat)
    requires tid in s.threads && s.threads[tid] == Thread(id, [], Starting, [], 0) && id in s.db.orders
    requires Valid(Now(s)) && Roomy(Now(s), id, 0) && s.db.orders[id].symbol !in s.locks
    ensures var end := Run(s, Steps(tid, n));
            && Completes(Now(s), id, Now(end))
            && end == s.(db := end.db, redis := end.redis, threads := s.threads - {tid},
                        completed := s.completed + {id})
  {
    hide Roomy, AtLoop, Completes, Valid, IsOpen, Reached, Run, Steps;
    if !IsOpen(s.db.orders[id]) {
      n := 1;
      ClosedAtOnce(s, tid, id);
      ClosedCompletes(Now(s), id);
    } else {
      var looping := ThreeSteps(s, tid, id);
      BeginsAtLoop(Now(s), id);
      var b := LoopRuns(looping, tid, id, Now(s));
      n := 3 + b;
      StepsSplit(s, tid, 3, b);
      assert looping.threads - {tid} == s.threads - {tid};
      assert s.locks[s.db.orders[id].symbol := tid] - {s.db.orders[id].symbol} == s.locks;
    }
  }

  lemma ClosedAtOnce(s: Sys, tid: nat, id: OrderId)
    requires tid in s.threads && s.threads[tid] == Thread(id, [], Starting, [], 0)
    requires id in s.db.orders && !IsOpen(s.db.orders[id])
    ensures Run(s, Steps(tid, 1)) == s.(threads := s.threads - {tid}, completed := s.completed + {id})
  {
    hide IsOpen;
    FirstStep(s, tid, 1);
  }

  lemma ThreeSteps(s: Sys, tid: nat, id: OrderId) returns (looping: Sys)
    requires tid in s.threads && s.threads[tid] == Thread(id, [], Starting, [], 0)
    requires id in s.db.orders && IsOpen(s.db.orders[id]) && s.db.orders[id].symbol !in s.locks
    ensures looping == Run(s, Steps(tid, 3))
    ensures looping == Update(s.(locks := s.locks[s.db.orders[id].symbol := tid]), tid,
      Thread(id, [], Ranging(s.db.orders[id]), [], 0))
  {
    hide IsOpen, CallStep, ScanStep, Exchange.SettleStep, FinishStep;
    var symbol := s.db.orders[id].symbol;
    var locked := s.(locks := s.locks[symbol := tid]);
    var s1 := Goto(s, tid, Acquiring(symbol));
    var s2 := Goto(locked, tid, Fetching);
    looping := Update(locked, tid, Thread(id, [], Ranging(s.db.orders[id]), [], 0));
    assert Apply(s, Step(tid)) == s1;
    assert Apply(s1, Step(tid)) == s2;
    assert Apply(s2, Step(tid)) == looping;
    hide Apply;
    FirstStep(s, tid, 3);
    FirstStep(s1, tid, 2);
    FirstStep(s2, tid, 1);
  }
}
