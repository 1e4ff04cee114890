/** Stretches of concrete runs of the exchange: a thread that steps on while nothing else happens. */
module ExchangeTraces {
  import opened Orders
  import opened BookEncoding
  import opened OrderBook
  import opened Matching
  import opened BookScan
  import opened Exchange

  function Steps(tid: nat, n: nat): seq<Action> {
    if n == 0 then [] else [Step(tid)] + Steps(tid, n - 1)
  }

  lemma {:induction false} RunConcat(s: Sys, a: seq<Action>, b: seq<Action>)
    ensures Run(s, a + b) == Run(Run(s, a), b)
    decreases |a|
  {
    hide Apply;
    if a == [] {
      assert a + b == b;
    } else {
      assert (a + b)[1..] == a[1..] + b;
      RunConcat(Apply(s, a[0]), a[1..], b);
    }
  }

  lemma RunCons(s: Sys, action: Action, rest: seq<Action>)
    ensures Run(s, [action] + rest) == Run(Apply(s, action), rest)
  {
    assert ([action] + rest)[1..] == rest;
  }

  lemma FirstStep(s: Sys, tid: nat, n: nat)
    requires 0 < n
    ensures Run(s, Steps(tid, n)) == Run(Apply(s, Step(tid)), Steps(tid, n - 1))
  {
    hide Apply;
    RunCons(s, Step(tid), Steps(tid, n - 1));
  }

  lemma {:induction false} StepsSplit(s: Sys, tid: nat, a: nat, b: nat)
    ensures Run(s, Steps(tid, a + b)) == Run(Run(s, Steps(tid, a)), Steps(tid, b))
    decreases a
  {
    hide Apply;
    if a == 0 {
    } else {
      FirstStep(s, tid, a + b);
      FirstStep(s, tid, a);
      StepsSplit(Apply(s, Step(tid)), tid, a - 1, b);
    }
  }

  /** The thread of a run that has attempted nothing and looked once. */
  function Looked(order: Order, calls: seq<BookCall>, phase: Phase): Thread {
    Thread(order.id, calls, phase, [], 1)
  }

  /** Four steps from the start a run has the lock and the members of the other side's window. */
  lemma ReadsBook(s: Sys, tid: nat, order: Order)
    requires tid in s.threads && s.threads[tid] == Thread(order.id, [], Starting, [], 0)
    requires order.id in s.db.orders && s.db.orders[order.id] == order && IsOpen(order) && order.symbol !in s.locks
    ensures var book := BookOf(s.redis, OppositeKey(order));
            var scanning := Scanning(order, Members(Window(book)), |book| <= WINDOW);
            Run(s, Steps(tid, 4)) == Update(s.(locks := s.locks[order.symbol := tid]), tid, Looked(order, [], scanning))
  {
    hide IsOpen, BookOf, CallStep, ScanStep, SettleStep, FinishStep, Members, Window;
    var book := BookOf(s.redis, OppositeKey(order));
    var locked := s.(locks := s.locks[order.symbol := tid]);
    var s1 := Goto(s, tid, Acquiring(order.symbol));
    var s2 := Goto(locked, tid, Fetching);
    var s3 := Goto(locked, tid, Ranging(order));
    var s4 := Update(locked, tid, Looked(order, [], Scanning(order, Members(Window(book)), |book| <= WINDOW)));
    assert Apply(s, Step(tid)) == s1;
    assert Apply(s1, Step(tid)) == s2;
    assert Apply(s2, Step(tid)) == s3;
    assert Apply(s3, Step(tid)) == s4;
    hide Apply;
    FirstStep(s, tid, 4);
    FirstStep(s1, tid, 3);
    FirstStep(s2, tid, 2);
    FirstStep(s3, tid, 1);
  }

  /** A scan passes over every open order of its own user. */
  lemma {:induction false} ScanSkipsOwn(s: Sys, tid: nat, order: Order, rest: seq<string>, whole: bool)
    requires tid in s.threads && s.threads[tid] == Looked(order, [], Scanning(order, rest, whole))
    requires forall m <- rest ::
               && OrderIdOf(m).Some? && OrderIdOf(m).value in s.db.orders
               && IsOpen(s.db.orders[OrderIdOf(m).value]) && s.db.orders[OrderIdOf(m).value].userId == order.userId
    ensures Run(s, Steps(tid, |rest|)) == Update(s, tid, Looked(order, [], Scanning(order, [], whole)))
    decreases |rest|
  {
    hide IsOpen, OrderIdOf, CanMatch;
    if rest == [] {
      assert Update(s, tid, s.threads[tid]).threads == s.threads;
    } else {
      var next := Apply(s, Step(tid));
      assert rest[0] in rest;
      assert next == Update(s, tid, Looked(order, [], Scanning(order, rest[1..], whole)));
      hide Apply;
      FirstStep(s, tid, |rest|);
      ScanSkipsOwn(next, tid, order, rest[1..], whole);
    }
  }

  lemma ScanEnds(s: Sys, tid: nat, order: Order, whole: bool)
    requires tid in s.threads && s.threads[tid] == Looked(order, [], Scanning(order, [], whole))
    ensures Run(s, Steps(tid, 1)) == Update(s, tid, Looked(order, [], Finishing(order)))
  {
    FirstStep(s, tid, 1);
  }

  lemma OneCall(s: Sys, tid: nat, order: Order, call: BookCall)
    requires tid in s.threads && s.threads[tid] == Looked(order, [call], Releasing) && Restable(order)
    ensures var next := Apply(s, Step(tid));
            match call
            case Sync(o) =>
              o == order && order.id !in s.redis.hashes ==>
                  next == Update(s, tid, Looked(order, [Put(order, None)], Releasing))
            case Put(o, None) =>
              var redis := Increment(s.redis, o.symbol);
              next == Update(s.(redis := redis), tid,
                             Looked(order, [Put(o, Some(MemberText(SequenceAt(redis, o.symbol), o.id)))], Releasing))
            case Put(o, Some(member)) =>
              o == order ==> next == Update(s.(redis := PutEntry(s.redis, order, member)), tid,
                  Looked(order, [], Releasing))
            case _ => true
  {
    hide IsOpen, PutEntry, Increment, ScanStep, SettleStep, FinishStep;
    assert [call][1..] == [];
    var next := Apply(s, Step(tid));
    if tid in next.threads && next.threads[tid].calls != [] {
      assert next.threads[tid].calls == [next.threads[tid].calls[0]] + [call][1..];
      assert next.threads[tid].calls == [next.threads[tid].calls[0]];
    }
  }

  function Unlocked(locks: map<Symbol, nat>, symbol: Symbol, tid: nat): map<Symbol, nat> {
    if symbol in locks && locks[symbol] == tid then locks - {symbol} else locks
  }

  lemma LastStep(s: Sys, tid: nat, order: Order)
    requires tid in s.threads && s.threads[tid] == Looked(order, [], Releasing) && order.id in s.db.orders
    requires s.db.orders[order.id].symbol == order.symbol
    ensures Apply(s, Step(tid))
         == s.(locks := Unlocked(s.locks, order.symbol, tid),
               threads := s.threads - {tid}, completed := s.completed + {order.id})
  {
  }

  /** A limit order that was not in the book is there five steps after its last scan, and its run is over. */
  lemma ThenRests(s: Sys, tid: nat, order: Order)
    requires tid in s.threads && s.threads[tid] == Looked(order, [], Finishing(order))
    requires order.id in s.db.orders && s.db.orders[order.id] == order && Restable(order) && order.id !in s.redis.hashes
    ensures Run(s, Steps(tid, 5))
         == s.(redis := SyncOrderBook(s.redis, order), locks := Unlocked(s.locks, order.symbol, tid),
               threads := s.threads - {tid}, completed := s.completed + {order.id})
  {
    hide PutEntry, Increment;
    var s1 := Apply(s, Step(tid));
    assert s1 == Update(s, tid, Looked(order, [Sync(order)], Releasing));
    hide Apply, Restable;
    OneCall(s1, tid, order, Sync(order));
    var s2 := Apply(s1, Step(tid));
    OneCall(s2, tid, order, Put(order, None));
    var s3 := Apply(s2, Step(tid));
    OneCall(s3, tid, order, s3.threads[tid].calls[0]);
    var s4 := Apply(s3, Step(tid));
    LastStep(s4, tid, order);
    assert s4.threads - {tid} == s.threads - {tid};
    FirstStep(s, tid, 5);
    FirstStep(s1, tid, 4);
    FirstStep(s2, tid, 3);
    FirstStep(s3, tid, 2);
    FirstStep(s4, tid, 1);
  }
}
