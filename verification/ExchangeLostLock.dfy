/** Why the lock condition is needed: a lock that expires while its run is between the last scan and
    the book sync lets two crossing orders come to rest. */
module ExchangeLostLock {
  import opened Orders
  import opened Settlement
  import opened Ledger
  import opened OrderBook
  import opened Matching
  import opened BookScan
  import opened Exchange
  import opened ExchangeTraces
  import opened ExchangeUncrossed

  const ALICE := UserId("alice")
  const BOB := UserId("bob")
  const ACME := Symbol("ACME")
  const BID := Order(OrderId("bid"), ALICE, ACME, Limit, Buy, Some(100), 1, 0, Open)
  const ASK := Order(OrderId("ask"), BOB, ACME, Limit, Sell, Some(90), 1, 0, Open)

  function Start(): Sys {
    Sys(Db(map[], map[ALICE := 100, BOB := 0], map[HoldingKey(BOB, ACME) := Holding(1, 50)], []),
        Redis(map[], map[], map[]), map[], map[], 0, {})
  }

  /** Both orders arrive, the bid's run scans an empty book, its lock expires, the ask's run scans an
      empty book, and then both rest. */
  function Trace(): seq<Action> {
    [NewOrder(BID), NewOrder(ASK), StartRun(BID.id), StartRun(ASK.id)]
    + (Steps(0, 4) + (Steps(0, 1) + ([LockExpiry(ACME)] + (Steps(1, 4) + (Steps(1, 1) + (Steps(0, 5) + Steps(1, 5)))))))
  }

  lemma BothArrive()
    ensures Run(Start(), [NewOrder(BID), NewOrder(ASK), StartRun(BID.id), StartRun(ASK.id)])
         == Start().(db := Start().db.(orders := map[BID.id := BID, ASK.id := ASK]), nextThread := 2,
                     threads := map[0 := Thread(BID.id, [], Starting, [], 0), 1 := Thread(ASK.id, [], Starting, [], 0)])
  {
    assert BID.id.text[0] != ASK.id.text[0];
    var s1 := Apply(Start(), NewOrder(BID));
    assert s1 == Start().(db := Start().db.(orders := map[BID.id := BID]));
    var s2 := Apply(s1, NewOrder(ASK));
    assert s2 == Start().(db := Start().db.(orders := map[BID.id := BID, ASK.id := ASK]));
    var s3 := Apply(s2, StartRun(BID.id));
    assert s3.threads == map[0 := Thread(BID.id, [], Starting, [], 0)];
    var s4 := Apply(s3, StartRun(ASK.id));
    hide Apply;
    RunCons(Start(), NewOrder(BID), [NewOrder(ASK), StartRun(BID.id), StartRun(ASK.id)]);
    RunCons(s1, NewOrder(ASK), [StartRun(BID.id), StartRun(ASK.id)]);
    RunCons(s2, StartRun(BID.id), [StartRun(ASK.id)]);
    RunCons(s3, StartRun(ASK.id), []);
    assert [NewOrder(BID)] + [NewOrder(ASK), StartRun(BID.id), StartRun(ASK.id)]
        == [NewOrder(BID), NewOrder(ASK), StartRun(BID.id), StartRun(ASK.id)];
    assert [NewOrder(ASK)] + [StartRun(BID.id), StartRun(ASK.id)] ==
      [NewOrder(ASK), StartRun(BID.id), StartRun(ASK.id)];
    assert [StartRun(BID.id)] + [StartRun(ASK.id)] == [StartRun(BID.id), StartRun(ASK.id)];
    assert [StartRun(ASK.id)] + [] == [StartRun(ASK.id)];
  }

  /** The bid at 100 and the ask at 90, of two users, both completed, both open, and settling them would trade. */
  lemma LostLockCrossesTheBook()
    ensures Initial(Start())
    ensures var end := Run(Start(), Trace());
            && BID.id in end.completed && ASK.id in end.completed && CrossedPair(end.db, BID.id, ASK.id)
            && Settle(end.db, BID.id, ASK.id).Committed? && Settle(end.db, BID.id, ASK.id).report.executed == 1
  {
    hide Apply, SyncOrderBook, Steps, Settle;
    assert BID.id.text[0] != ASK.id.text[0];
    var rests := Steps(0, 5) + Steps(1, 5);
    var looks := Steps(1, 4) + (Steps(1, 1) + rests);
    var both := [NewOrder(BID), NewOrder(ASK), StartRun(BID.id), StartRun(ASK.id)];
    RunConcat(Start(), both, Steps(0, 4) + (Steps(0, 1) + ([LockExpiry(ACME)] + looks)));
    BothArrive();
    var s1 := Run(Start(), both);
    LooksAtEmptyBook(s1, 0, BID, [LockExpiry(ACME)] + looks);
    var s2 := s1.(locks := map[ACME := 0], threads := s1.threads[0 := Looked(BID, [], Finishing(BID))]);
    RunCons(s2, LockExpiry(ACME), looks);
    LockExpires(s2);
    var s3 := s2.(locks := map[]);
    LooksAtEmptyBook(s3, 1, ASK, rests);
    var s4 := s3.(locks := map[ACME := 1], threads := s3.threads[1 := Looked(ASK, [], Finishing(ASK))]);
    BothRest(s4);
    WouldTrade(s4.db);
  }

  lemma WouldTrade(db: Db)
    requires db.orders == map[BID.id := BID, ASK.id := ASK]
    requires db.balances == Start().db.balances && db.holdings == Start().db.holdings
    ensures Settle(db, BID.id, ASK.id).Committed? && Settle(db, BID.id, ASK.id).report.executed == 1
  {
    hide Settle, Executable;
    OneCanChangeHands(db);
    assert BID.id.text[0] != ASK.id.text[0] && ALICE.text[0] != BOB.text[0];
    OpenPairTrades(db, BID, ASK, 90);
  }

  lemma OneCanChangeHands(db: Db)
    requires db.balances == Start().db.balances && db.holdings == Start().db.holdings
    ensures ALICE in db.balances && BOB in db.balances && Executable(db, BID, ASK, 90) == 1
  {
    assert ALICE.text[0] != BOB.text[0];
    assert db.balances[ALICE] == 100;
    assert Affordable(db, BID, 90) == 1;
    assert SharesOf(db, BOB, ACME) == 1;
  }

  lemma BothRest(s: Sys)
    requires s.threads == map[0 := Looked(BID, [], Finishing(BID)), 1 := Looked(ASK, [], Finishing(ASK))]
    requires s.db.orders == map[BID.id := BID, ASK.id := ASK] && s.redis.hashes == map[]
    ensures var end := Run(s, Steps(0, 5) + Steps(1, 5));
            && BID.id in end.completed && ASK.id in end.completed && CrossedPair(end.db, BID.id, ASK.id)
            && end.db == s.db
  {
    hide Apply, SyncOrderBook, Steps;
    assert BID.id.text[0] != ASK.id.text[0];
    RunConcat(s, Steps(0, 5), Steps(1, 5));
    ThenRests(s, 0, BID);
    SyncAddsOneHash(s.redis, BID);
    ThenRests(Run(s, Steps(0, 5)), 1, ASK);
  }

  lemma LooksAtEmptyBook(s: Sys, tid: nat, order: Order, rest: seq<Action>)
    requires tid in s.threads && s.threads[tid] == Thread(order.id, [], Starting, [], 0)
    requires order.id in s.db.orders && s.db.orders[order.id] == order && IsOpen(order) && order.symbol !in s.locks
    requires BookOf(s.redis, OppositeKey(order)) == []
    ensures Run(s, Steps(tid, 4) + (Steps(tid, 1) + rest))
         == Run(s.(locks := s.locks[order.symbol := tid],
             threads := s.threads[tid := Looked(order, [], Finishing(order))]), rest)
  {
    hide Apply;
    var locked := s.(locks := s.locks[order.symbol := tid]);
    var scanning := Update(locked, tid, Looked(order, [], Scanning(order, [], true)));
    RunConcat(s, Steps(tid, 4), Steps(tid, 1) + rest);
    ReadsBook(s, tid, order);
    assert Members(Window([])) == [];
    assert Run(s, Steps(tid, 4)) == scanning;
    RunConcat(scanning, Steps(tid, 1), rest);
    ScanEnds(scanning, tid, order, true);
    assert scanning.threads[tid := Looked(order, [], Finishing(order))] ==
      s.threads[tid := Looked(order, [], Finishing(order))];
  }

  lemma LockExpires(s: Sys)
    requires s.locks.Keys == {ACME}
    ensures Apply(s, LockExpiry(ACME)) == s.(locks := map[])
  {
    assert s.locks - {ACME} == map[];
  }

  lemma SyncAddsOneHash(redis: Redis, order: Order)
    ensures OrderBook.SyncOrderBook(redis, order).hashes.Keys <= redis.hashes.Keys + {order.id}
  {
  }
}
