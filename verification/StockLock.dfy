/** The per-symbol lock: SET NX PX 30000 with a fresh token, released by compare-and-delete, over
    every timed run of any number of workers. */
module StockLock {
  import opened Orders

  const TTL: int := 30_000

  type Token = nat

  datatype Key = Key(token: Token, expiresAt: int)

  /** `sections` holds, for each token in use, the instant its critical section began. */
  datatype Lock = Lock(now: int, key: Option<Key>, sections: map<Token, int>, used: set<Token>)

  datatype Event =
    | Wait(duration: nat)
    | TryAcquire(token: Token)     // one attempt of the polling loop
    | Finish(token: Token)         // the finally block: the section ends and the script runs
    | Die(token: Token)            // the worker is gone and releases nothing

  predicate Held(lock: Lock) {
    lock.key.Some? && lock.now < lock.key.value.expiresAt
  }

  /** The script: delete the key if it still holds this token. */
  function Release(lock: Lock, token: Token): Lock {
    if Held(lock) && lock.key.value.token == token then lock.(key := None) else lock
  }

  function Apply(lock: Lock, event: Event): Lock {
    match event
    case Wait(duration) => lock.(now := lock.now + duration)
    case TryAcquire(token) =>
      if Held(lock) || token in lock.used then lock
      else lock.(key := Some(Key(token, lock.now + TTL)),
                 sections := lock.sections[token := lock.now], used := lock.used + {token})
    case Finish(token) =>
      if token in lock.sections then Release(lock, token).(sections := lock.sections - {token}) else lock
    case Die(token) => lock.(sections := lock.sections - {token})
  }

  function Run(lock: Lock, events: seq<Event>): Lock
    decreases |events|
  {
    if events == [] then lock else Run(Apply(lock, events[0]), events[1..])
  }

  predicate Initial(lock: Lock) {
    lock.key.None? && lock.sections == map[] && lock.used == {}
  }

  /** While a section is younger than the time to live, the key is its own. */
  predicate Guarded(lock: Lock) {
    && lock.sections.Keys <= lock.used
    && (lock.key.Some? ==> lock.key.value.token in lock.used)
    && forall token <- lock.sections ::
         && lock.sections[token] <= lock.now
         && (lock.now < lock.sections[token] + TTL ==> lock.key == Some(Key(token, lock.sections[token] + TTL)))
  }

  lemma EventKeepsGuard(lock: Lock, event: Event)
    requires Guarded(lock)
    ensures Guarded(Apply(lock, event))
  {
  }

  lemma {:induction false} RunKeepsGuard(lock: Lock, events: seq<Event>)
    requires Guarded(lock)
    ensures Guarded(Run(lock, events))
    decreases |events|
  {
    if events == [] {
    } else {
      EventKeepsGuard(lock, events[0]);
      RunKeepsGuard(Apply(lock, events[0]), events[1..]);
    }
  }

  /** Two critical sections are in progress at once only if one of them has already lasted 30 s. */
  lemma SectionsDoNotOverlap(lock: Lock, events: seq<Event>, a: Token, b: Token)
    requires Initial(lock) && a != b
    ensures var end := Run(lock, events);
            a in end.sections && b in end.sections ==>
              end.now - end.sections[a] >= 30_000 || end.now - end.sections[b] >= 30_000
  {
    RunKeepsGuard(lock, events);
  }

  /** A holder that finishes after its time was up leaves the next holder's lock in place. */
  lemma LateReleaseIsHarmless(lock: Lock, events: seq<Event>, late: Token, next: Token)
    requires Initial(lock) && late != next
    requires var end := Run(lock, events);
             late in end.sections && next in end.sections && end.now - end.sections[next] < 30_000
    ensures var end := Run(lock, events);
            && Apply(end, Finish(late)).key == end.key
            && Held(end) && end.key.value.token == next
  {
    RunKeepsGuard(lock, events);
  }

  /** A section that ends within its time does free the lock, so the next attempt succeeds. */
  lemma TimelyReleaseFrees(lock: Lock, events: seq<Event>, token: Token, next: Token)
    requires Initial(lock)
    requires var end := Run(lock, events);
             token in end.sections && end.now - end.sections[token] < 30_000 && next !in end.used
    ensures var end := Run(lock, events);
            Apply(Apply(end, Finish(token)), TryAcquire(next)).key == Some(Key(next, end.now + 30_000))
  {
    RunKeepsGuard(lock, events);
  }

  /** The bound is tight: a section of exactly 30 s can be overtaken. */
  lemma SlowSectionIsOvertaken()
    ensures var end := Run(Lock(0, None, map[], {}), [TryAcquire(0), Wait(30_000), TryAcquire(1)]);
            0 in end.sections && 1 in end.sections && end.now - end.sections[0] == 30_000
  {
    var start := Lock(0, None, map[], {});
    var events := [TryAcquire(0), Wait(30_000), TryAcquire(1)];
    var s1 := Apply(start, events[0]);
    var s2 := Apply(s1, events[1]);
    var s3 := Apply(s2, events[2]);
    assert events[1..] == [Wait(30_000), TryAcquire(1)] && events[1..][1..] == [TryAcquire(1)] &&
      events[1..][1..][1..] == [];
    assert Run(s2, [TryAcquire(1)]) == Run(s3, []) == s3;
    assert Run(s1, [Wait(30_000), TryAcquire(1)]) == s3;
  }

  // ----- The client

  const POLL: int := 100

  /** Events of other workers; they may take time. */
  predicate Foreign(events: seq<Event>, token: Token) {
    forall e <- events :: e.Wait? || e.token != token
  }

  /** The lock at the k-th poll of a client that has not succeeded: before each but the first it slept
      100 ms, and others did what they did. */
  function AtPoll(lock: Lock, others: nat -> seq<Event>, k: nat): Lock {
    if k == 0 then lock else Run(Apply(AtPoll(lock, others, k - 1), Wait(100)), others(k - 1))
  }

  lemma {:induction false} ForeignRun(lock: Lock, events: seq<Event>, token: Token)
    requires Guarded(lock) && token !in lock.used && Foreign(events, token)
    ensures Guarded(Run(lock, events)) && token !in Run(lock, events).used && lock.now <= Run(lock, events).now
    decreases |events|
  {
    if events == [] {
    } else {
      EventKeepsGuard(lock, events[0]);
      assert events[0] in events && forall e <- events[1..] :: e in events;
      ForeignRun(Apply(lock, events[0]), events[1..], token);
    }
  }

  lemma FreeIsTaken(lock: Lock, token: Token)
    requires Guarded(lock) && !Held(lock) && token !in lock.used
    ensures var next := Apply(lock, TryAcquire(token));
            Guarded(next) && next.now == lock.now && next.key == Some(Key(token, lock.now + 30_000))
  {
    EventKeepsGuard(lock, TryAcquire(token));
  }

  lemma WaitingKeeps(lock: Lock)
    requires Guarded(lock)
    ensures var next := Apply(lock, Wait(POLL)); Guarded(next) && next.now == lock.now + POLL && next.used == lock.used
  {
    EventKeepsGuard(lock, Wait(POLL));
  }

  class StockLockClient {
    var lock: Lock

    constructor (now: int)
      ensures Initial(lock) && lock.now == now
    {
      lock := Lock(now, None, map[], {});
    }

    /** Tries, and sleeps 100 ms, until the time is up, whatever others do to the lock meanwhile.  It takes
        the lock at the first poll that finds it free, and gives up exactly if none before the deadline does. */
    method AcquireStockLock(token: Token, timeout: int, others: nat -> seq<Event>)
      returns (acquired: bool, ghost polls: nat)
      requires Guarded(lock) && token !in lock.used && forall k: nat :: Foreign(others(k), token)
      modifies this
      ensures Guarded(lock)
      ensures forall k: nat | k < polls ::
                Held(AtPoll(old(lock), others, k)) && AtPoll(old(lock), others, k).now < old(lock).now + timeout
      ensures var last := AtPoll(old(lock), others, polls);
              if acquired then
                && !Held(last) && last.now < old(lock).now + timeout
                && lock == Apply(last, TryAcquire(token)) && lock.key == Some(Key(token, lock.now + 30_000))
              else lock == last && old(lock).now + timeout <= last.now
    {
      hide Apply, Run, Guarded, Foreign, Held;
      ghost var start := lock;
      var deadline, k := lock.now + timeout, 0;
      polls := 0;
      while lock.now < deadline
        invariant k == polls && lock == AtPoll(start, others, polls) && Guarded(lock) && token !in lock.used
        invariant forall j: nat | j < polls :: Held(AtPoll(start, others, j)) && AtPoll(start, others, j).now < deadline
        decreases deadline - lock.now
      {
        if !Held(lock) {
          FreeIsTaken(lock, token);
          lock := Apply(lock, TryAcquire(token));
          acquired := true;
          return;
        }
        WaitingKeeps(lock);
        ForeignRun(Apply(lock, Wait(POLL)), others(k), token);
        lock := Run(Apply(lock, Wait(POLL)), others(k));
        k := k + 1;
        polls := polls + 1;
      }
      acquired := false;
    }

    method ReleaseStockLock(token: Token)
      requires Guarded(lock)
      modifies this
      ensures Guarded(lock) && lock == Apply(old(lock), Finish(token))
      ensures Held(old(lock)) && old(lock).key.value.token != token ==> lock.key == old(lock).key
    {
      EventKeepsGuard(lock, Finish(token));
      lock := Apply(lock, Finish(token));
    }
  }
}
