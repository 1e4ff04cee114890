/** The scan of `bestOppositeOrder`: it reads the first hundred members only, re-reads every order
    from the database, and cleans up behind closed orders as it goes. */
module BookScan {
  import opened Orders
  import opened Settlement
  import opened BookEncoding
  import opened OrderBook
  import opened Matching
  import opened MatchingSteps

  const WINDOW: nat := 100

  /** ZRANGE key 0 99. */
  function Window(book: seq<Entry>): seq<Entry> {
    book[..if |book| < WINDOW then |book| else WINDOW]
  }

  function Members(book: seq<Entry>): (r: seq<string>)
    ensures |r| == |book| && forall i | 0 <= i < |r| :: r[i] == book[i].member
  {
    seq(|book|, i requires 0 <= i < |book| => book[i].member)
  }

  function RemoveMember(redis: Redis, key: BookKey, member: string): Redis {
    redis.(books := redis.books[key := Without(BookOf(redis, key), member)])
  }

  lemma WindowIsAHundred(book: seq<Entry>)
    ensures Window(book) == if |book| <= 100 then book else book[..100]
  {
  }

  /** The scan over the members read, with the clean-up it does on the way. */
  function Scan(db: Db, redis: Redis, key: BookKey, members: seq<string>, exclude: Option<UserId>)
    : (Option<Order>, Redis)
    decreases |members|
  {
    if members == [] then (None, redis)
    else
      var id := OrderIdOf(members[0]);
      if id.None? then Scan(db, redis, key, members[1..], exclude)
      else if id.value !in db.orders then
        Scan(db, RemoveMember(redis, key, members[0]), key, members[1..], exclude)
      else
        var order := db.orders[id.value];
        if !IsOpen(order) then Scan(db, SyncOrderBook(redis, order), key, members[1..], exclude)
        else if Some(order.userId) == exclude then Scan(db, redis, key, members[1..], exclude)
        else (Some(order), redis)
  }

  /** The best order a book offers a user, by the simple definition. */
  function Best(orders: map<OrderId, Order>, exclude: Option<UserId>, book: seq<Entry>): Option<Order> {
    var ids := EligibleIds(orders, exclude, book);
    if ids != [] && ids[0] in orders then Some(orders[ids[0]]) else None
  }

  /** Whatever the book holds, the scan returns the best eligible order among the entries it reads. */
  lemma {:induction false} ScanFindsBest(db: Db, redis: Redis, key: BookKey, book: seq<Entry>, exclude: Option<UserId>)
    ensures Scan(db, redis, key, Members(book), exclude).0 == Best(db.orders, exclude, book)
    decreases |book|
  {
    hide SyncOrderBook, Without;
    if book == [] {
    } else {
      assert Members(book)[1..] == Members(book[1..]);
      var id := OrderIdOf(book[0].member);
      if id.Some? && id.value !in db.orders {
        ScanFindsBest(db, RemoveMember(redis, key, book[0].member), key, book[1..], exclude);
      } else if id.Some? && !IsOpen(db.orders[id.value]) {
        ScanFindsBest(db, SyncOrderBook(redis, db.orders[id.value]), key, book[1..], exclude);
      } else {
        ScanFindsBest(db, redis, key, book[1..], exclude);
      }
    }
  }

  lemma {:induction false} EligibleAreOrders(orders: map<OrderId, Order>, exclude: Option<UserId>, book: seq<Entry>)
    ensures forall id <- EligibleIds(orders, exclude, book) :: id in orders
  {
    forall id | id in EligibleIds(orders, exclude, book) ensures id in orders {
      EligibleMembers(orders, exclude, book, id);
    }
  }

  /** The window answers for the whole book exactly when it holds an eligible order or the book
      holds none.  It is not refilled, so a hundred skipped entries hide everything behind them. */
  lemma WindowIsSound(orders: map<OrderId, Order>, exclude: Option<UserId>, book: seq<Entry>)
    ensures var read := if |book| <= 100 then book else book[..100];
            && Window(book) == read
            && (Best(orders, exclude, read) == Best(orders, exclude, book) <==>
                  EligibleIds(orders, exclude, read) != [] || EligibleIds(orders, exclude, book) == [])
  {
    WindowIsAHundred(book);
    var n := |Window(book)|;
    EligibleConcat(orders, exclude, book[..n], book[n..]);
    assert book == book[..n] + book[n..];
    EligibleAreOrders(orders, exclude, book);
    EligibleAreOrders(orders, exclude, Window(book));
  }

  /** Fewer than a hundred own or closed entries on the side make the window sound. */
  lemma FewSkippedIsSound(orders: map<OrderId, Order>, exclude: Option<UserId>, book: seq<Entry>)
    requires Skipped(orders, exclude, book) < 100
    ensures Best(orders, exclude, Window(book)) == Best(orders, exclude, book)
  {
    var n := |Window(book)|;
    EligibleConcat(orders, exclude, book[..n], book[n..]);
    assert book == book[..n] + book[n..];
    WindowIsSound(orders, exclude, book);
  }

  // ----- What a scan never does, and what it does to strangers

  lemma {:induction false} ScanNeverAdds(db: Db, redis: Redis, key: BookKey, members: seq<string>,
      exclude: Option<UserId>, at: BookKey, e: Entry)
    ensures e in BookOf(Scan(db, redis, key, members, exclude).1, at) ==> e in BookOf(redis, at)
    decreases |members|
  {
    hide SyncOrderBook, Without, BookOf, RemoveMember, IsOpen, OrderIdOf;
    if members == [] {
    } else {
      var id := OrderIdOf(members[0]);
      if id.Some? && id.value !in db.orders {
        RemovalDrops(redis, key, members[0], at, e);
        ScanNeverAdds(db, RemoveMember(redis, key, members[0]), key, members[1..], exclude, at, e);
      } else if id.Some? && !IsOpen(db.orders[id.value]) {
        ClosedSyncNeverAdds(redis, db.orders[id.value], at, e);
        ScanNeverAdds(db, SyncOrderBook(redis, db.orders[id.value]), key, members[1..], exclude, at, e);
      } else {
        ScanNeverAdds(db, redis, key, members[1..], exclude, at, e);
      }
    }
  }

  lemma RemovalDrops(redis: Redis, key: BookKey, member: string, at: BookKey, e: Entry)
    ensures e in BookOf(RemoveMember(redis, key, member), at) <==>
              e in BookOf(redis, at) && !(at == key && e.member == member)
  {
    WithoutContents(BookOf(redis, key), member);
  }

  lemma ClosedSyncNeverAdds(redis: Redis, order: Order, at: BookKey, e: Entry)
    requires !IsOpen(order)
    ensures e in BookOf(SyncOrderBook(redis, order), at) ==> e in BookOf(redis, at)
  {
    hide IsOpen;
    if order.id in redis.hashes {
      WithoutContents(BookOf(redis, KeyOf(order)), redis.hashes[order.id]);
    }
  }

  /** A member whose order has no row is out of the book after a scan that came across it. */
  lemma StrangersAreRemoved(db: Db, redis: Redis, key: BookKey, members: seq<string>, exclude: Option<UserId>, e: Entry)
    requires members != [] && OrderIdOf(members[0]).Some? && OrderIdOf(members[0]).value !in db.orders
    requires e.member == members[0]
    ensures e !in BookOf(Scan(db, redis, key, members, exclude).1, key)
  {
    hide BookOf, RemoveMember, OrderIdOf;
    RemovalDrops(redis, key, members[0], key, e);
    ScanNeverAdds(db, RemoveMember(redis, key, members[0]), key, members[1..], exclude, key, e);
  }

  // ----- What a scan clears away

  lemma {:induction false} NoneEligible(orders: map<OrderId, Order>, exclude: Option<UserId>, book: seq<Entry>)
    requires forall e <- book :: !Eligible(orders, exclude, e)
    ensures EligibleIds(orders, exclude, book) == []
  {
    if book == [] {
    } else {
      assert book[0] in book;
      NoneEligible(orders, exclude, book[1..]);
    }
  }

  lemma SkippedBeforeEligible(orders: map<OrderId, Order>, exclude: Option<UserId>, pre: seq<Entry>, rest: seq<Entry>)
    requires forall e <- pre :: !Eligible(orders, exclude, e)
    requires rest != [] && Eligible(orders, exclude, rest[0])
    ensures Skipped(orders, exclude, pre + rest) == |pre| + Behind(orders, exclude, rest)
  {
    NoneEligible(orders, exclude, pre);
    EligibleConcat(orders, exclude, pre, rest);
  }

  lemma {:induction false} WithoutOne(pre: seq<Entry>, entry: Entry, rest: seq<Entry>)
    requires forall e <- pre + rest :: e.member != entry.member
    ensures Without(pre + [entry] + rest, entry.member) == pre + rest
  {
    var book := pre + [entry] + rest;
    if pre == [] {
      assert book == [entry] + rest && book[1..] == rest;
      assert forall e <- rest :: e in pre + rest;
      WithoutAbsent(rest, entry.member);
    } else {
      assert book[1..] == pre[1..] + [entry] + rest;
      assert pre[0] in pre + rest && forall e <- pre[1..] + rest :: e in pre + rest;
      WithoutOne(pre[1..], entry, rest);
      assert pre + rest == [pre[0]] + (pre[1..] + rest);
    }
  }

  /** Passing a closed entry of a valid book drops it and nothing else. */
  lemma ClosedIsCleared(s: State, key: BookKey, pre: seq<Entry>, rest: seq<Entry>)
    requires Valid(s) && BookOf(s.redis, key) == pre + rest && rest != []
    requires var id := OrderIdOf(rest[0].member); id.Some? && id.value in s.db.orders && !IsOpen(s.db.orders[id.value])
    ensures var order := s.db.orders[OrderIdOf(rest[0].member).value];
            var next := SyncOrderBook(s.redis, order);
            Valid(State(s.db, next)) && BookOf(next, key) == pre + rest[1..]
  {
    hide LedgerOk, Sorted, Numbered, HashesEntered, SequencesUnique;
    var e := rest[0];
    var book := BookOf(s.redis, key);
    assert book[|pre|] == e && e in book;
    assert Stands(s.db.orders, key, e);
    var order := s.db.orders[OrderIdOf(e.member).value];
    LedgerIds(s.db, OrderIdOf(e.member).value);
    DropKeepsValid(s, order);
    BookIsDistinct(s, key);
    forall other | other in pre + rest[1..] ensures other.member != e.member {
      OthersDiffer(book, pre, rest, other);
    }
    assert book == pre + [e] + rest[1..];
    WithoutOne(pre, e, rest[1..]);
  }

  lemma OthersDiffer(book: seq<Entry>, pre: seq<Entry>, rest: seq<Entry>, other: Entry)
    requires Distinct(book) && book == pre + rest && rest != [] && other in pre + rest[1..]
    ensures other.member != rest[0].member
  {
    var i :| 0 <= i < |pre + rest[1..]| && (pre + rest[1..])[i] == other;
    if i < |pre| {
      assert book[i] == other && book[|pre|] == rest[0];
    } else {
      assert book[i + 1] == other && book[|pre|] == rest[0];
    }
  }

  lemma {:induction false} ScanClears(s: State, key: BookKey, exclude: Option<UserId>, pre: seq<Entry>,
      rest: seq<Entry>, n: nat)
    requires Valid(s) && BookOf(s.redis, key) == pre + rest && n <= |rest|
    requires forall e <- pre :: !Eligible(s.db.orders, exclude, e)
    requires Scan(s.db, s.redis, key, Members(rest[..n]), exclude).0.Some?
    ensures Skipped(s.db.orders, exclude, BookOf(Scan(s.db, s.redis, key, Members(rest[..n]), exclude).1, key))
         <= |pre| + Behind(s.db.orders, exclude, rest)
    decreases n
  {
    hide Valid, SyncOrderBook, BookOf, IsOpen, OrderIdOf;
    if n == 0 {
    } else {
      var e := rest[0];
      assert Members(rest[..n])[1..] == Members(rest[1..][..n - 1]) && Members(rest[..n])[0] == e.member;
      assert e in BookOf(s.redis, key) by { assert (pre + rest)[|pre|] == e; }
      assert OrderIdOf(e.member).Some? && OrderIdOf(e.member).value in s.db.orders by { EntryStands(s, key, e); }
      var order := s.db.orders[OrderIdOf(e.member).value];
      if !IsOpen(order) {
        ClosedIsCleared(s, key, pre, rest);
        ScanClears(State(s.db, SyncOrderBook(s.redis, order)), key, exclude, pre, rest[1..], n - 1);
      } else if Some(order.userId) == exclude {
        assert pre + rest == (pre + [e]) + rest[1..];
        ScanClears(s, key, exclude, pre + [e], rest[1..], n - 1);
      } else {
        SkippedBeforeEligible(s.db.orders, exclude, pre, rest);
      }
    }
  }

  lemma EntryStands(s: State, key: BookKey, e: Entry)
    requires Valid(s) && e in BookOf(s.redis, key)
    ensures OrderIdOf(e.member).Some? && OrderIdOf(e.member).value in s.db.orders
  {
    assert Stands(s.db.orders, key, e);
  }

  /** A scan of a valid book that finds an order has cleared every closed entry ahead of it. */
  lemma FindingClears(s: State, key: BookKey, exclude: Option<UserId>)
    requires Valid(s)
    requires Scan(s.db, s.redis, key, Members(Window(BookOf(s.redis, key))), exclude).0.Some?
    ensures var after := Scan(s.db, s.redis, key, Members(Window(BookOf(s.redis, key))), exclude).1;
            Skipped(s.db.orders, exclude, BookOf(after, key)) <= Behind(s.db.orders, exclude, BookOf(s.redis, key))
  {
    hide Valid, Scan, BookOf;
    var book := BookOf(s.redis, key);
    assert [] + book == book;
    ScanClears(s, key, exclude, [], book, |Window(book)|);
  }

  // ----- Entries that stay behind

  /** Removing an order's entry works exactly if the order's hash still names it. */
  lemma RemovalNeedsTheHash(redis: Redis, order: Order, entry: Entry)
    requires entry in BookOf(redis, KeyOf(order))
    ensures entry !in BookOf(RemoveBookEntry(redis, order), KeyOf(order)) <==>
      MemberOf(redis, order.id) == Some(entry.member)
  {
    var member := MemberOf(redis, order.id);
    if member.Some? {
      WithoutContents(BookOf(redis, KeyOf(order)), member.value);
    }
  }

  /** A cancel that looks the member up before a stale sync writes it, and deletes the hash after,
      leaves an entry that no later clean-up of the closed order removes. */
  lemma RacedCancelLeavesAnEntry(redis: Redis, open: Order, closed: Order)
    requires Restable(open) && !IsOpen(closed) && SameTerms(open, closed) && open.id !in redis.hashes
    ensures var seen := MemberOf(redis, closed.id);
            var raced := DropEntry(SyncOrderBook(redis, open), closed, seen);
            var entry := FreshEntry(redis, open);
            && entry in BookOf(raced, KeyOf(closed))
            && SyncOrderBook(raced, closed) == raced
  {
    PlaceContents(BookOf(redis, KeyOf(open)), FreshEntry(redis, open));
    var raced := DropEntry(SyncOrderBook(redis, open), closed, MemberOf(redis, closed.id));
    assert raced.hashes - {closed.id} == raced.hashes;
  }
}
