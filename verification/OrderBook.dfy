/** The Redis side of the order book: one sorted set per symbol and side, one hash per order that
    remembers the order's member, one sequence counter per symbol; and the commands the engine sends. */
module OrderBook {
  import opened Orders
  import opened BookEncoding

  datatype Entry = Entry(score: int, member: string)

  datatype BookKey = BookKey(symbol: Symbol, side: Side)

  datatype Redis = Redis(
    books: map<BookKey, seq<Entry>>,
    hashes: map<OrderId, string>,
    sequences: map<Symbol, nat>)

  function KeyOf(order: Order): BookKey {
    BookKey(order.symbol, order.side)
  }

  function BookOf(redis: Redis, key: BookKey): seq<Entry> {
    if key in redis.books then redis.books[key] else []
  }

  function MemberOf(redis: Redis, id: OrderId): Option<string> {
    if id in redis.hashes then Some(redis.hashes[id]) else None
  }

  function SequenceAt(redis: Redis, symbol: Symbol): nat {
    if symbol in redis.sequences then redis.sequences[symbol] else 0
  }

  /** Bids use an inverted score, so the best price comes first on both sides. */
  function Score(side: Side, price: Cents): int {
    if side.Buy? then -(price as int) else price
  }

  predicate Restable(order: Order) {
    IsOpen(order) && order.orderType.Limit? && order.price.Some?
  }

  // ----- Sorted sets

  predicate Before(a: Entry, b: Entry) {
    a.score < b.score || (a.score == b.score && TextLess(a.member, b.member))
  }

  predicate Sorted(book: seq<Entry>) {
    forall i, j | 0 <= i < j < |book| :: Before(book[i], book[j])
  }

  function Insert(book: seq<Entry>, entry: Entry): (r: seq<Entry>)
    ensures |r| == |book| + 1
  {
    if book == [] || Before(entry, book[0]) then [entry] + book
    else [book[0]] + Insert(book[1..], entry)
  }

  /** ZREM. */
  function Without(book: seq<Entry>, member: string): (r: seq<Entry>)
    ensures |r| <= |book|
  {
    if book == [] then []
    else (if book[0].member == member then [] else [book[0]]) + Without(book[1..], member)
  }

  /** ZADD: the member moves to its new score. */
  function Place(book: seq<Entry>, entry: Entry): seq<Entry> {
    Insert(Without(book, entry.member), entry)
  }

  // ----- The commands of syncOrderBook and removeBookEntry

  function Increment(redis: Redis, symbol: Symbol): Redis {
    redis.(sequences := redis.sequences[symbol := SequenceAt(redis, symbol) + 1])
  }

  /** MULTI HSET ZADD EXEC. */
  function PutEntry(redis: Redis, order: Order, member: string): Redis
    requires order.price.Some?
  {
    var key := KeyOf(order);
    redis.(hashes := redis.hashes[order.id := member],
           books := redis.books[key := Place(BookOf(redis, key), Entry(Score(order.side, order.price.value), member))])
  }

  /** MULTI ZREM DEL EXEC; without a known member only the hash is deleted. */
  function DropEntry(redis: Redis, order: Order, member: Option<string>): Redis {
    var key := KeyOf(order);
    redis.(hashes := redis.hashes - {order.id},
           books := if member.None? then redis.books
                    else redis.books[key := Without(BookOf(redis, key), member.value)])
  }

  function RemoveBookEntry(redis: Redis, order: Order): Redis {
    DropEntry(redis, order, MemberOf(redis, order.id))
  }

  function SyncOrderBook(redis: Redis, order: Order): Redis {
    if !Restable(order) then RemoveBookEntry(redis, order)
    else if order.id in redis.hashes then PutEntry(redis, order, redis.hashes[order.id])
    else
      var next := Increment(redis, order.symbol);
      PutEntry(next, order, MemberText(SequenceAt(next, order.symbol), order.id))
  }

  // ----- Order on entries

  lemma BeforeTransitive(a: Entry, b: Entry, c: Entry)
    requires Before(a, b) && Before(b, c)
    ensures Before(a, c)
  {
    if a.score == b.score == c.score {
      TextLessTransitive(a.member, b.member, c.member);
    }
  }

  lemma BeforeTotal(a: Entry, b: Entry)
    ensures Before(a, b) || a == b || Before(b, a)
    ensures !Before(a, a)
  {
    TextLessTotal(a.member, b.member);
    TextLessIrreflexive(a.member);
  }

  // ----- Contents and order of the sorted sets

  lemma {:induction false} WithoutContents(book: seq<Entry>, member: string)
    ensures forall e :: e in Without(book, member) <==> e in book && e.member != member
  {
    if book == [] {
    } else {
      WithoutContents(book[1..], member);
      assert book == [book[0]] + book[1..];
    }
  }

  lemma {:induction false} WithoutKeepsSorted(book: seq<Entry>, member: string)
    requires Sorted(book)
    ensures Sorted(Without(book, member))
  {
    if book == [] {
    } else {
      WithoutKeepsSorted(book[1..], member);
      WithoutContents(book[1..], member);
      var rest := Without(book[1..], member);
      forall j | 0 <= j < |rest| ensures Before(book[0], rest[j]) {
        assert rest[j] in book[1..];
      }
    }
  }

  lemma {:induction false} WithoutAbsent(book: seq<Entry>, member: string)
    requires forall e <- book :: e.member != member
    ensures Without(book, member) == book
  {
    if book == [] {
    } else {
      WithoutAbsent(book[1..], member);
      assert book == [book[0]] + book[1..];
    }
  }

  lemma {:induction false} InsertContents(book: seq<Entry>, entry: Entry)
    ensures forall e :: e in Insert(book, entry) <==> e == entry || e in book
  {
    if book != [] && !Before(entry, book[0]) {
      InsertContents(book[1..], entry);
      assert book == [book[0]] + book[1..];
    }
  }

  lemma {:induction false} InsertKeepsSorted(book: seq<Entry>, entry: Entry)
    requires Sorted(book) && entry !in book
    ensures Sorted(Insert(book, entry))
  {
    if book == [] {
    } else {
      if Before(entry, book[0]) {
        forall j | 0 < j < |book| ensures Before(entry, book[j]) {
          BeforeTransitive(entry, book[0], book[j]);
        }
      } else {
        InsertKeepsSorted(book[1..], entry);
        InsertContents(book[1..], entry);
        BeforeTotal(entry, book[0]);
        var rest := Insert(book[1..], entry);
        forall j | 0 <= j < |rest| ensures Before(book[0], rest[j]) {
          assert rest[j] == entry || rest[j] in book[1..];
        }
      }
    }
  }

  lemma PlaceContents(book: seq<Entry>, entry: Entry)
    ensures forall e :: e in Place(book, entry) <==> e == entry || (e in book && e.member != entry.member)
  {
    WithoutContents(book, entry.member);
    InsertContents(Without(book, entry.member), entry);
  }

  lemma PlaceKeepsSorted(book: seq<Entry>, entry: Entry)
    requires Sorted(book)
    ensures Sorted(Place(book, entry))
  {
    WithoutContents(book, entry.member);
    WithoutKeepsSorted(book, entry.member);
    InsertKeepsSorted(Without(book, entry.member), entry);
  }

  lemma NonEmptyHasMember(book: seq<Entry>)
    requires book != []
    ensures exists e :: e in book
  {
    assert book[0] in book;
  }

  /** A sorted sequence is determined by its entries, so re-adding an entry changes nothing. */
  lemma {:induction false} SortedUnique(a: seq<Entry>, b: seq<Entry>)
    requires Sorted(a) && Sorted(b)
    requires forall e :: e in a <==> e in b
    ensures a == b
  {
    if a == [] || b == [] {
      if a != [] { NonEmptyHasMember(a); }
      if b != [] { NonEmptyHasMember(b); }
    } else {
      HeadIsLeast(a, b[0]);
      HeadIsLeast(b, a[0]);
      BeforeTotal(a[0], b[0]);
      if a[0] != b[0] {
        BeforeTransitive(a[0], b[0], a[0]);
        assert false;
      }
      forall e ensures e in a[1..] <==> e in b[1..] {
        TailExcludesHead(a, e);
        TailExcludesHead(b, e);
      }
      SortedUnique(a[1..], b[1..]);
      assert a == [a[0]] + a[1..] && b == [b[0]] + b[1..];
    }
  }

  lemma HeadIsLeast(book: seq<Entry>, entry: Entry)
    requires Sorted(book) && entry in book
    ensures entry == book[0] || Before(book[0], entry)
  {
  }

  lemma TailExcludesHead(book: seq<Entry>, entry: Entry)
    requires Sorted(book) && book != []
    ensures entry in book[1..] <==> entry in book && entry != book[0]
  {
    BeforeTotal(book[0], book[0]);
    assert book == [book[0]] + book[1..];
  }

  lemma PlaceAgain(book: seq<Entry>, entry: Entry)
    requires Sorted(book) && entry in book
    requires forall e <- book :: e.member == entry.member ==> e == entry
    ensures Place(book, entry) == book
  {
    PlaceContents(book, entry);
    PlaceKeepsSorted(book, entry);
    SortedUnique(Place(book, entry), book);
  }
}
