/** Why the window condition is needed: a user's own hundred asks hide the one it could buy from, and
    its bid comes to rest crossing it, in a run that nothing disturbs. */
module ExchangeHiddenMatch {
  import opened Orders
  import opened Settlement
  import opened Ledger
  import opened BookEncoding
  import opened OrderBook
  import opened Matching
  import opened MatchingSteps
  import opened BookScan
  import opened Exchange
  import opened ExchangeTraces
  import opened ExchangeUncrossed

  const TAKER := UserId("taker")
  const OTHER := UserId("other")
  const ACME := Symbol("ACME")
  const ASKS := BookKey(ACME, Sell)
  const BIDS := BookKey(ACME, Buy)

  /** A hundred asks of the taker itself, and one of another user behind them. */
  function Ask(i: nat): Order {
    Order(OrderId(Decimal(i)), if i < 100 then TAKER else OTHER, ACME, Limit, Sell, Some(i + 1), 1, 0, Open)
  }

  const BID := Order(OrderId("bid"), TAKER, ACME, Limit, Buy, Some(101), 1, 0, Open)

  function AskEntry(i: nat): Entry {
    Entry(i + 1, MemberText(i + 1, Ask(i).id))
  }

  function AskBook(n: nat): seq<Entry> {
    seq(n, i requires 0 <= i < n => AskEntry(i))
  }

  /** The taker could pay for a share, and the other user has one to sell. */
  function Balances(): map<UserId, int> {
    map[TAKER := 101, OTHER := 0]
  }

  function Shares(): map<HoldingKey, Holding> {
    map[HoldingKey(OTHER, ACME) := Holding(1, 50)]
  }

  /** The exchange after the first `n` asks have been submitted and have come to rest. */
  function Asks(n: nat): State {
    if n == 0 then State(Db(map[], Balances(), Shares(), []), Redis(map[], map[], map[]))
    else
      var s := Asks(n - 1);
      State(Submit(s.db, Ask(n - 1)), SyncOrderBook(s.redis, Ask(n - 1)))
  }

  // ----- The book of the asks

  lemma AskIdsDiffer(i: nat, j: nat)
    requires i != j
    ensures Ask(i).id != Ask(j).id
  {
    hide Decimal, Value;
    DecimalValue(i);
    DecimalValue(j);
  }

  lemma {:induction false} InsertLast(book: seq<Entry>, entry: Entry)
    requires forall e <- book :: e.score < entry.score
    ensures Insert(book, entry) == book + [entry]
  {
    if book == [] {
    } else {
      assert book[0] in book;
      InsertLast(book[1..], entry);
      assert book == [book[0]] + book[1..];
    }
  }

  /** What the asks leave behind. */
  ghost predicate Shape(s: State, n: nat) {
    && s.db.balances == Balances() && s.db.holdings == Shares()
    && (forall id <- s.db.orders :: exists i: nat :: i < n && id == Ask(i).id)
    && (forall i: nat | i < n :: Ask(i).id in s.db.orders && s.db.orders[Ask(i).id] == Ask(i))
    && s.redis.hashes.Keys <= s.db.orders.Keys
    && SequenceAt(s.redis, ACME) == n
    && BookOf(s.redis, ASKS) == AskBook(n)
    && BookOf(s.redis, BIDS) == []
  }

  lemma NextIsNew(s: State, n: nat)
    requires Shape(s, n)
    ensures Ask(n).id !in s.db.orders && Insertable(s.db, Ask(n))
  {
    hide Ask;
    if Ask(n).id in s.db.orders {
      var i: nat :| i < n && Ask(n).id == Ask(i).id;
      AskIdsDiffer(i, n);
      assert false;
    }
    AskIsInsertable(s.db, n);
  }

  lemma AskIsInsertable(db: Db, n: nat)
    requires db.balances == Balances() && Ask(n).id !in db.orders
    ensures Insertable(db, Ask(n)) && Restable(Ask(n))
  {
  }

  lemma ShapeGrows(s: State, n: nat)
    requires Shape(s, n) && Valid(s)
    ensures var next := State(Submit(s.db, Ask(n)), SyncOrderBook(s.redis, Ask(n))); Shape(next, n + 1) && Valid(next)
  {
    hide LedgerOk, BookSound, BookIndexed, SyncOrderBook, Insert, Decimal, MemberText, Follows, Conserved, AskBook;
    hide OrderIdOf, SequenceOf, Ask;
    NextIsNew(s, n);
    AskIsInsertable(s.db, n);
    var order := Ask(n);
    var added := State(Submit(s.db, order), s.redis);
    SubmitIsSafe(s.db, order);
    ValidFollows(s, added.db);
    assert order.id !in s.redis.hashes;
    PutShape(added, order);
    PutKeepsValid(added, order);
    AskBookGrows(s.redis, n);
    var next := State(added.db, SyncOrderBook(s.redis, order));
    forall i: nat | i < n + 1 ensures Ask(i).id in next.db.orders && next.db.orders[Ask(i).id] == Ask(i) {
      if i < n {
        AskIdsDiffer(i, n);
      }
    }
  }

  lemma AskBookGrows(redis: Redis, n: nat)
    requires SequenceAt(redis, ACME) == n
    ensures Ask(n).symbol == ACME && KeyOf(Ask(n)) == ASKS && ASKS != BIDS && Ask(n).price.Some?
    ensures Insert(AskBook(n), FreshEntry(redis, Ask(n))) == AskBook(n + 1)
  {
    hide Insert, Decimal, MemberText;
    assert FreshEntry(redis, Ask(n)) == AskEntry(n);
    forall e | e in AskBook(n) ensures e.score < AskEntry(n).score {
      var i :| 0 <= i < n && AskBook(n)[i] == e;
    }
    InsertLast(AskBook(n), AskEntry(n));
    assert AskBook(n + 1) == AskBook(n) + [AskEntry(n)];
  }

  lemma {:induction false} AsksShape(n: nat)
    ensures Shape(Asks(n), n) && Valid(Asks(n))
  {
    hide Shape, Valid, Submit, SyncOrderBook, Ask;
    if n == 0 {
      NoAsks();
    } else {
      AsksShape(n - 1);
      ShapeGrows(Asks(n - 1), n - 1);
    }
  }

  lemma NoAsks()
    ensures Shape(Asks(0), 0) && Valid(Asks(0))
  {
    assert AskBook(0) == [];
  }

  // ----- The scan

  lemma AskEntryNames(n: nat, i: nat)
    requires i < n
    ensures OrderIdOf(AskEntry(i).member) == Some(Ask(i).id)
    ensures Eligible(Asks(n).db.orders, Some(TAKER), AskEntry(i)) <==> 100 <= i
  {
    hide Asks, Decimal, MemberText, OrderIdOf, Valid;
    MemberRoundTrip(i + 1, Ask(i).id);
    AsksShape(n);
  }

  lemma HiddenEligible()
    ensures EligibleIds(Asks(101).db.orders, Some(TAKER), Window(AskBook(101))) == []
    ensures EligibleIds(Asks(101).db.orders, Some(TAKER), AskBook(101)) == [Ask(100).id]
  {
    hide Asks, Eligible, AskEntry, Ask;
    var orders := Asks(101).db.orders;
    var front, last := AskBook(101)[..100], [AskEntry(100)];
    assert AskBook(101) == front + last && Window(AskBook(101)) == front;
    forall e | e in front ensures !Eligible(orders, Some(TAKER), e) {
      var i :| 0 <= i < 100 && front[i] == e;
      AskEntryNames(101, i);
    }
    NoneEligible(orders, Some(TAKER), front);
    EligibleConcat(orders, Some(TAKER), front, last);
    AskEntryNames(101, 100);
    assert EligibleIds(orders, Some(TAKER), last[1..]) == [];
  }

  /** In this valid state the best ask for the taker is the other user's, and the scan of its hundred
      members reports that there is none. */
  lemma HundredOwnOrdersHideTheBook()
    ensures var s := Asks(101);
            && Valid(s)
            && Best(s.db.orders, Some(TAKER), BookOf(s.redis, ASKS)) == Some(Ask(100))
            && Scan(s.db, s.redis, ASKS, Members(Window(BookOf(s.redis, ASKS))), Some(TAKER)).0 == None
  {
    hide Asks, EligibleIds, Scan, Valid, Decimal, Window, AskBook;
    AsksShape(101);
    HiddenEligible();
    ScanFindsBest(Asks(101).db, Asks(101).redis, ASKS, Window(AskBook(101)), Some(TAKER));
  }

  // ----- The run

  function Done(n: nat): set<OrderId> {
    if n == 0 then {} else Done(n - 1) + {Ask(n - 1).id}
  }

  /** The whole system after `n` asks: no run is going on and no lock is held. */
  function Rested(n: nat): Sys {
    Sys(Asks(n).db, Asks(n).redis, map[], map[], n, Done(n))
  }

  function AskActions(i: nat): seq<Action> {
    [NewOrder(Ask(i))] + ([StartRun(Ask(i).id)] + (Steps(i, 4) + (Steps(i, 1) + Steps(i, 5))))
  }

  function AsksTrace(n: nat): seq<Action> {
    if n == 0 then [] else AsksTrace(n - 1) + AskActions(n - 1)
  }

  function Arrived(s: Sys, order: Order): Sys {
    s.(db := Submit(s.db, order), threads := map[s.nextThread := Thread(order.id, [], Starting, [], 0)],
        nextThread := s.nextThread + 1)
  }

  /** An order arrives and its run begins. */
  lemma Arrives(s: Sys, order: Order, rest: seq<Action>)
    requires s.threads == map[]
    ensures Run(s, [NewOrder(order)] + ([StartRun(order.id)] + rest)) == Run(Arrived(s, order), rest)
  {
    RunCons(s, NewOrder(order), [StartRun(order.id)] + rest);
    RunCons(Apply(s, NewOrder(order)), StartRun(order.id), rest);
    assert Apply(Apply(s, NewOrder(order)), StartRun(order.id)) == Arrived(s, order);
  }

  lemma OneMoreAsk(n: nat)
    ensures Run(Rested(n), AskActions(n)) == Rested(n + 1)
  {
    hide Apply, Asks, Steps, Submit, Shape, Valid, Ask;
    AsksShape(n);
    var s, order := Rested(n), Ask(n);
    AskFacts(n);
    Arrives(s, order, Steps(n, 4) + (Steps(n, 1) + Steps(n, 5)));
    var started := Arrived(s, order);
    RunConcat(started, Steps(n, 4), Steps(n, 1) + Steps(n, 5));
    ReadsBook(started, n, order);
    assert Members(Window([])) == [];
    var scanning := Run(started, Steps(n, 4));
    RunConcat(scanning, Steps(n, 1), Steps(n, 5));
    ScanEnds(scanning, n, order, true);
    var finishing := Run(scanning, Steps(n, 1));
    assert finishing.threads[n] == Looked(order, [], Finishing(order));
    ThenRests(finishing, n, order);
    AsksNext(n);
    assert map[n := Looked(order, [], Finishing(order))] - {n} == map[];
    assert map[ACME := n] - {ACME} == map[];
  }

  lemma AsksNext(n: nat)
    ensures Asks(n + 1) == State(Submit(Asks(n).db, Ask(n)), SyncOrderBook(Asks(n).redis, Ask(n)))
  {
  }

  lemma AskFacts(n: nat)
    ensures var s, order := Asks(n), Ask(n);
            && order.symbol == ACME && Restable(order) && IsOpen(order)
            && BookOf(s.redis, OppositeKey(order)) == []
            && order.id in Submit(s.db, order).orders && Submit(s.db, order).orders[order.id] == order
            && order.id !in s.redis.hashes
  {
    hide Asks, Valid, Decimal;
    AsksShape(n);
    NextIsNew(Asks(n), n);
  }

  lemma {:induction false} AsksRun(n: nat)
    ensures Run(Rested(0), AsksTrace(n)) == Rested(n)
  {
    hide Rested, AskActions;
    if n == 0 {
    } else {
      AsksRun(n - 1);
      RunConcat(Rested(0), AsksTrace(n - 1), AskActions(n - 1));
      OneMoreAsk(n - 1);
    }
  }

  /** The taker's bid, after all the asks. */
  function BidActions(): seq<Action> {
    [NewOrder(BID)] + ([StartRun(BID.id)] + (Steps(101, 4) + (Steps(101, 100) + (Steps(101, 1) + Steps(101, 5)))))
  }

  function Trace(): seq<Action> {
    AsksTrace(101) + BidActions()
  }

  lemma BidFacts()
    ensures var s := Asks(101);
            && BID.id !in s.db.orders && BID.id !in s.redis.hashes && Insertable(s.db, BID)
            && BookOf(s.redis, OppositeKey(BID)) == AskBook(101)
            && (forall m <- Members(Window(AskBook(101))) ::
                  && OrderIdOf(m).Some? && OrderIdOf(m).value in s.db.orders && OrderIdOf(m).value != BID.id
                  && IsOpen(s.db.orders[OrderIdOf(m).value]) && s.db.orders[OrderIdOf(m).value].userId == TAKER)
  {
    hide Asks, Decimal, Valid, MemberText, OrderIdOf;
    AsksShape(101);
    forall i: nat ensures Ask(i).id != BID.id {
      DecimalValue(i);
      assert BID.id.text[0] == 'b';
    }
    var members := Members(Window(AskBook(101)));
    forall m | m in members
      ensures OrderIdOf(m).Some? && OrderIdOf(m).value in Asks(101).db.orders && OrderIdOf(m).value != BID.id
      ensures IsOpen(Asks(101).db.orders[OrderIdOf(m).value]) && Asks(101).db.orders[OrderIdOf(m).value].userId == TAKER
    {
      var i :| 0 <= i < |members| && members[i] == m;
      AskEntryNames(101, i);
    }
  }

  lemma BidRests()
    ensures var end := Run(Rested(101), BidActions());
            && end.db == Submit(Asks(101).db, BID) && end.completed == Done(101) + {BID.id}
  {
    hide Apply, Asks, Steps, Shape, Valid, Ask, AskBook, Window, Members, OrderIdOf, SyncOrderBook, Done;
    AsksShape(101);
    BidFacts();
    var s := Rested(101);
    Arrives(s, BID, Steps(101, 4) + (Steps(101, 100) + (Steps(101, 1) + Steps(101, 5))));
    var started := Arrived(s, BID);
    RunConcat(started, Steps(101, 4), Steps(101, 100) + (Steps(101, 1) + Steps(101, 5)));
    ReadsBook(started, 101, BID);
    var scanning := Run(started, Steps(101, 4));
    var members := Members(Window(AskBook(101)));
    HundredMembers();
    RunConcat(scanning, Steps(101, 100), Steps(101, 1) + Steps(101, 5));
    ScanSkipsOwn(scanning, 101, BID, members, false);
    var skipped := Run(scanning, Steps(101, 100));
    RunConcat(skipped, Steps(101, 1), Steps(101, 5));
    ScanEnds(skipped, 101, BID, false);
    ThenRests(Run(skipped, Steps(101, 1)), 101, BID);
  }

  lemma HundredMembers()
    ensures |Members(Window(AskBook(101)))| == 100 && |AskBook(101)| == 101
  {
  }

  lemma {:induction false} AllDone(n: nat, i: nat)
    requires i < n
    ensures Ask(i).id in Done(n)
  {
    if i < n - 1 {
      AllDone(n - 1, i);
    }
  }

  /** Submissions and the steps of runs: no crash, no cancel, no close and no lock that expires. */
  predicate Calm(actions: seq<Action>) {
    forall action <- actions :: action.NewOrder? || action.StartRun? || action.Step?
  }

  /** Nothing but submissions and matching runs, one run at a time; at its end a bid at 101 and an ask at
      101 of different users are both open and completed, and settling them would trade. */
  lemma FullWindowCrossesTheBook()
    ensures Initial(Rested(0)) && Calm(Trace())
    ensures var end := Run(Rested(0), Trace());
            && BID.id in end.completed && Ask(100).id in end.completed && CrossedPair(end.db, BID.id, Ask(100).id)
            && Settle(end.db, BID.id, Ask(100).id).Committed?
            && Settle(end.db, BID.id, Ask(100).id).report.executed == 1
  {
    hide Apply, AsksTrace, BidActions, Asks, Done, Ask, Calm, CrossedPair, Submit, Initial, Settle;
    TraceIsCalm();
    StartIsInitial();
    RunConcat(Rested(0), AsksTrace(101), BidActions());
    AsksRun(101);
    BidRests();
    BidCrosses();
    BidWouldTrade();
    AllDone(101, 100);
  }

  lemma BidCrosses()
    ensures CrossedPair(Submit(Asks(101).db, BID), BID.id, Ask(100).id)
  {
    hide Asks, Decimal, Valid, AskBook, Window, Members, OrderIdOf;
    BidFacts();
    LastAsk();
  }

  lemma BidWouldTrade()
    ensures var tx := Settle(Submit(Asks(101).db, BID), BID.id, Ask(100).id); tx.Committed? && tx.report.executed == 1
  {
    hide Asks, Ask, Decimal, Settle, Submit, Balances, Shares;
    LastAsk();
    LastAskIs();
    BidMoney();
    BidJoins();
    OthersAskTrades(Submit(Asks(101).db, BID), Ask(100));
  }

  lemma LastAskIs()
    ensures Ask(100) == Order(Ask(100).id, OTHER, ACME, Limit, Sell, Some(101), 1, 0, Open)
  {
    hide Decimal;
  }

  /** The bid joins the orders there are, and moves no money and no shares. */
  lemma BidJoins()
    ensures var before, after := Asks(101).db, Submit(Asks(101).db, BID);
            && BID.id !in before.orders && after.orders == before.orders[BID.id := BID]
            && after.balances == before.balances && after.holdings == before.holdings
  {
    hide Asks, AskBook, Window, Members, OrderIdOf, IsOpen;
    BidFacts();
  }

  lemma OthersAskTrades(db: Db, ask: Order)
    requires ask == Order(ask.id, OTHER, ACME, Limit, Sell, Some(101), 1, 0, Open)
    requires BID.id in db.orders && db.orders[BID.id] == BID && ask.id in db.orders && db.orders[ask.id] == ask
    requires db.balances == Balances() && db.holdings == Shares()
    ensures var tx := Settle(db, BID.id, ask.id); tx.Committed? && tx.report.executed == 1
  {
    hide Settle, Executable, Balances, Shares;
    DifferentUsers();
    OneCanChangeHands(db, ask);
    OpenPairTrades(db, BID, ask, 101);
  }

  lemma DifferentUsers()
    ensures TAKER != OTHER
  {
    assert TAKER.text[0] != OTHER.text[0];
  }

  lemma OneCanChangeHands(db: Db, ask: Order)
    requires ask == Order(ask.id, OTHER, ACME, Limit, Sell, Some(101), 1, 0, Open)
    requires db.balances == Balances() && db.holdings == Shares()
    ensures TAKER in db.balances && OTHER in db.balances && Executable(db, BID, ask, 101) == 1
  {
    DifferentUsers();
    assert Affordable(db, BID, 101) == 1;
    assert SharesOf(db, OTHER, ACME) == 1;
  }

  lemma BidMoney()
    ensures Asks(101).db.balances == Balances() && Asks(101).db.holdings == Shares()
  {
    hide Asks, Valid;
    AsksShape(101);
  }

  lemma LastAsk()
    ensures Ask(100).id in Asks(101).db.orders && Asks(101).db.orders[Ask(100).id] == Ask(100)
  {
    hide Asks, Valid, Ask;
    AsksShape(101);
  }

  lemma StartIsInitial()
    ensures Initial(Rested(0))
  {
  }

  lemma CalmConcat(a: seq<Action>, b: seq<Action>)
    requires Calm(a) && Calm(b)
    ensures Calm(a + b)
  {
  }

  lemma {:induction false} StepsAreCalm(tid: nat, n: nat)
    ensures Calm(Steps(tid, n))
  {
    if n == 0 {
    } else {
      StepsAreCalm(tid, n - 1);
    }
  }

  lemma ArrivalIsCalm(order: Order, rest: seq<Action>)
    requires Calm(rest)
    ensures Calm([NewOrder(order)] + ([StartRun(order.id)] + rest))
  {
    CalmConcat([StartRun(order.id)], rest);
    CalmConcat([NewOrder(order)], [StartRun(order.id)] + rest);
  }

  lemma {:induction false} AsksAreCalm(n: nat)
    ensures Calm(AsksTrace(n))
  {
    hide Calm, Steps, Ask;
    if n == 0 {
      NothingIsCalm();
    } else {
      var i := n - 1;
      AsksAreCalm(i);
      StepsAreCalm(i, 4);
      StepsAreCalm(i, 1);
      StepsAreCalm(i, 5);
      CalmConcat(Steps(i, 1), Steps(i, 5));
      CalmConcat(Steps(i, 4), Steps(i, 1) + Steps(i, 5));
      ArrivalIsCalm(Ask(i), Steps(i, 4) + (Steps(i, 1) + Steps(i, 5)));
      CalmConcat(AsksTrace(i), AskActions(i));
    }
  }

  lemma NothingIsCalm()
    ensures Calm([])
  {
  }

  lemma TraceIsCalm()
    ensures Calm(Trace())
  {
    hide Calm, Steps, AsksTrace;
    AsksAreCalm(101);
    StepsAreCalm(101, 4);
    StepsAreCalm(101, 100);
    StepsAreCalm(101, 1);
    StepsAreCalm(101, 5);
    CalmConcat(Steps(101, 1), Steps(101, 5));
    CalmConcat(Steps(101, 100), Steps(101, 1) + Steps(101, 5));
    CalmConcat(Steps(101, 4), Steps(101, 100) + (Steps(101, 1) + Steps(101, 5)));
    ArrivalIsCalm(BID, Steps(101, 4) + (Steps(101, 100) + (Steps(101, 1) + Steps(101, 5))));
    CalmConcat(AsksTrace(101), BidActions());
  }
}
