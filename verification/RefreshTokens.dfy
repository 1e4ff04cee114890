/** Refresh tokens: the rows of `refresh_tokens`, appended by logins and rotations, and the chains
    their `replaced_by` links form. */
module RefreshTokens {
  import opened Orders

  const REFRESH_TTL: int := 7 * 24 * 60 * 60

  type Hash = string
  type RowId = nat

  /** A row's id is its place in the order of insertion. */
  datatype Row = Row(user: UserId, hash: Hash, expiresAt: int, revoked: bool, replacedBy: Option<RowId>)

  datatype Event =
    | Login(user: UserId, minted: Hash, now: int)
    | Refresh(presented: Hash, minted: Hash, now: int)
    | Logout(presented: Hash)

  function Find(rows: seq<Row>, hash: Hash): Option<RowId> {
    if rows == [] then None
    else if rows[|rows| - 1].hash == hash then Some(|rows| - 1)
    else Find(rows[..|rows| - 1], hash)
  }

  /** The INSERT; a hash already in the table violates its UNIQUE constraint and changes nothing. */
  function Store(rows: seq<Row>, user: UserId, minted: Hash, now: int): Option<seq<Row>> {
    if Find(rows, minted).Some? then None
    else Some(rows + [Row(user, minted, now + REFRESH_TTL, false, None)])
  }

  function RevokeAll(rows: seq<Row>, user: UserId): (r: seq<Row>)
    ensures |r| == |rows|
    ensures forall i | 0 <= i < |rows| :: r[i] == if rows[i].user == user then rows[i].(revoked := true) else rows[i]
  {
    seq(|rows|, i requires 0 <= i < |rows| => if rows[i].user == user then rows[i].(revoked := true) else rows[i])
  }

  predicate Usable(row: Row, now: int) {
    !row.revoked && now < row.expiresAt
  }

  /** The transaction of rotateSession. */
  function Rotate(rows: seq<Row>, presented: Hash, minted: Hash, now: int): seq<Row> {
    var found := Find(rows, presented);
    if found.None? || found.value >= |rows| then rows
    else if !Usable(rows[found.value], now) then RevokeAll(rows, rows[found.value].user)
    else
      var stored := Store(rows, rows[found.value].user, minted, now);
      if stored.None? then rows
      else if found.value < |stored.value| then
        stored.value[found.value := stored.value[found.value].(revoked := true, replacedBy := Some(|rows|))]
      else rows
  }

  function Revoke(rows: seq<Row>, presented: Hash): seq<Row> {
    var found := Find(rows, presented);
    if found.Some? && found.value < |rows| then rows[found.value := rows[found.value].(revoked := true)] else rows
  }

  function Apply(rows: seq<Row>, event: Event): seq<Row> {
    match event
    case Login(user, minted, now) =>
      var stored := Store(rows, user, minted, now);
      if stored.Some? then stored.value else rows
    case Refresh(presented, minted, now) => Rotate(rows, presented, minted, now)
    case Logout(presented) => Revoke(rows, presented)
  }

  function Run(rows: seq<Row>, events: seq<Event>): seq<Row> {
    if events == [] then rows else Apply(Run(rows, events[..|events| - 1]), events[|events| - 1])
  }

  // ----- The table as the handlers update it

  class TokenTable {
    var rows: seq<Row>

    constructor ()
      ensures rows == []
    {
      rows := [];
    }

    method StoreRefreshToken(user: UserId, minted: Hash, now: int) returns (stored: bool)
      modifies this
      ensures stored <==> Store(old(rows), user, minted, now).Some?
      ensures rows == if stored then Store(old(rows), user, minted, now).value else old(rows)
    {
      stored := Find(rows, minted).None?;
      if stored {
        rows := rows + [Row(user, minted, now + REFRESH_TTL, false, None)];
      }
    }

    method IssueSession(user: UserId, minted: Hash, now: int) returns (issued: bool)
      modifies this
      ensures rows == Apply(old(rows), Login(user, minted, now))
      ensures issued <==> Store(old(rows), user, minted, now).Some?
    {
      issued := StoreRefreshToken(user, minted, now);
    }

    /** Some new session's user, or None when the caller is logged out; a failed insert rolls back. */
    method RotateSession(presented: Option<Hash>, minted: Hash, now: int) returns (user: Option<UserId>)
      modifies this
      ensures rows == if presented.Some? then Apply(old(rows), Refresh(presented.value, minted, now)) else old(rows)
      ensures user.Some? ==>
                && presented.Some? && |rows| == |old(rows)| + 1 && rows[|old(rows)|].user == user.value
                && exists i :: 0 <= i < |old(rows)| && old(rows)[i].hash == presented.value
                               && !old(rows)[i].revoked && now < old(rows)[i].expiresAt
                               && old(rows)[i].user == user.value
      ensures user.Some? <==>
                && presented.Some?
                && var found := Find(old(rows), presented.value);
                && found.Some? && found.value < |old(rows)| && Usable(old(rows)[found.value], now)
                && Find(old(rows), minted).None?
    {
      if presented.None? {
        return None;
      }
      var found := Find(rows, presented.value);
      if found.None? {
        return None;
      }
      FindIsRow(rows, presented.value);
      var record := rows[found.value];
      if record.revoked || record.expiresAt <= now {
        rows := RevokeAll(rows, record.user);
        return None;
      }
      var replacement := |rows|;
      var stored := StoreRefreshToken(record.user, minted, now);
      if !stored {
        return None;
      }
      rows := rows[found.value := rows[found.value].(revoked := true, replacedBy := Some(replacement))];
      user := Some(record.user);
    }

    method RevokeSession(presented: Option<Hash>)
      modifies this
      ensures rows == if presented.Some? then Apply(old(rows), Logout(presented.value)) else old(rows)
    {
      if presented.Some? {
        var found := Find(rows, presented.value);
        if found.Some? {
          FindIsRow(rows, presented.value);
          rows := rows[found.value := rows[found.value].(revoked := true)];
        }
      }
    }
  }

  lemma {:induction false} FindIsRow(rows: seq<Row>, hash: Hash)
    ensures var found := Find(rows, hash);
            && (found.Some? ==> found.value < |rows| && rows[found.value].hash == hash)
            && (found.None? ==> forall i | 0 <= i < |rows| :: rows[i].hash != hash)
  {
    if rows == [] {
    } else {
      FindIsRow(rows[..|rows| - 1], hash);
    }
  }

  // ----- Chains

  /** Links go forward, to a row of the same user, and a replaced row is revoked. */
  predicate LinksForward(rows: seq<Row>) {
    forall i | 0 <= i < |rows| && rows[i].replacedBy.Some? ::
      var j := rows[i].replacedBy.value;
      i < j < |rows| && rows[i].revoked && rows[j].user == rows[i].user
  }

  /** No two rows share a successor. */
  predicate LinksApart(rows: seq<Row>) {
    forall i, k | 0 <= i < k < |rows| && rows[i].replacedBy.Some? :: rows[i].replacedBy != rows[k].replacedBy
  }

  predicate HashesApart(rows: seq<Row>) {
    forall i, k | 0 <= i < k < |rows| :: rows[i].hash != rows[k].hash
  }

  predicate Linked(rows: seq<Row>) {
    LinksForward(rows) && LinksApart(rows) && HashesApart(rows)
  }

  lemma AppendKeepsLinked(rows: seq<Row>, row: Row)
    requires Linked(rows) && row.replacedBy.None? && forall i | 0 <= i < |rows| :: rows[i].hash != row.hash
    ensures Linked(rows + [row])
  {
    var longer := rows + [row];
    forall i | 0 <= i < |rows| ensures longer[i] == rows[i] {}
    assert LinksForward(longer) && LinksApart(longer);
  }

  lemma RevokingKeepsLinked(rows: seq<Row>, after: seq<Row>)
    requires Linked(rows) && |after| == |rows|
    requires forall i | 0 <= i < |rows| :: after[i] == rows[i] || after[i] == rows[i].(revoked := true)
    ensures Linked(after)
  {
    forall i | 0 <= i < |rows|
      ensures after[i].replacedBy == rows[i].replacedBy && after[i].user == rows[i].user &&
        after[i].hash == rows[i].hash
      ensures rows[i].revoked ==> after[i].revoked
    {}
    assert LinksForward(after) && LinksApart(after);
  }

  lemma LinkingNewestKeepsLinked(rows: seq<Row>, i: RowId)
    requires Linked(rows) && i + 1 < |rows| && rows[i].user == rows[|rows| - 1].user
    requires forall k | 0 <= k < |rows| :: rows[k].replacedBy != Some(|rows| - 1)
    ensures Linked(rows[i := rows[i].(revoked := true, replacedBy := Some(|rows| - 1))])
  {
    var after := rows[i := rows[i].(revoked := true, replacedBy := Some(|rows| - 1))];
    forall k | 0 <= k < |rows|
      ensures after[k].user == rows[k].user && after[k].hash == rows[k].hash && (k != i ==> after[k] == rows[k])
    {}
    assert LinksForward(after) && LinksApart(after);
  }

  lemma EventKeepsLinked(rows: seq<Row>, event: Event)
    requires Linked(rows)
    ensures Linked(Apply(rows, event))
  {
    hide HashesApart, LinksApart;
    match event
    case Login(user, minted, now) =>
      FindIsRow(rows, minted);
      if Find(rows, minted).None? {
        AppendKeepsLinked(rows, Row(user, minted, now + REFRESH_TTL, false, None));
      }
    case Refresh(presented, minted, now) =>
      RotateKeepsLinked(rows, presented, minted, now);
    case Logout(presented) =>
      FindIsRow(rows, presented);
      RevokingKeepsLinked(rows, Revoke(rows, presented));
  }

  lemma RotateKeepsLinked(rows: seq<Row>, presented: Hash, minted: Hash, now: int)
    requires Linked(rows)
    ensures Linked(Rotate(rows, presented, minted, now))
  {
    hide HashesApart, LinksApart;
    FindIsRow(rows, presented);
    FindIsRow(rows, minted);
    var found := Find(rows, presented);
    if found.Some? {
      var owner := rows[found.value].user;
      if !Usable(rows[found.value], now) {
        RevokingKeepsLinked(rows, RevokeAll(rows, owner));
      } else if Find(rows, minted).None? {
        var longer := rows + [Row(owner, minted, now + REFRESH_TTL, false, None)];
        AppendKeepsLinked(rows, longer[|rows|]);
        forall k | 0 <= k < |longer| ensures longer[k].replacedBy != Some(|rows|) {}
        LinkingNewestKeepsLinked(longer, found.value);
      }
    }
  }

  lemma {:induction false} EveryHistoryIsLinked(events: seq<Event>)
    ensures Linked(Run([], events))
  {
    if events == [] {
    } else {
      EveryHistoryIsLinked(events[..|events| - 1]);
      EventKeepsLinked(Run([], events[..|events| - 1]), events[|events| - 1]);
    }
  }

  /** `j` is reached from `i` by following replaced_by. */
  predicate Reaches(rows: seq<Row>, i: RowId, j: RowId)
    decreases |rows| - i
  {
    i < |rows| &&
    (i == j || (rows[i].replacedBy.Some? && i < rows[i].replacedBy.value && Reaches(rows, rows[i].replacedBy.value, j)))
  }

  lemma {:induction false} ReachesForward(rows: seq<Row>, i: RowId, j: RowId)
    requires Linked(rows) && i < |rows| && Reaches(rows, i, j)
    ensures i <= j < |rows| && rows[j].user == rows[i].user
    ensures i != j ==> rows[i].revoked && rows[i].replacedBy.Some?
    decreases |rows| - i
  {
    if i != j {
      ReachesForward(rows, rows[i].replacedBy.value, j);
    }
  }

  /** The row just before `j` on the way from `i`. */
  lemma {:induction false} LastLink(rows: seq<Row>, i: RowId, j: RowId) returns (before: RowId)
    requires Linked(rows) && i < |rows| && Reaches(rows, i, j) && i != j
    ensures i <= before < |rows| && Reaches(rows, i, before) && rows[before].replacedBy == Some(j)
    decreases |rows| - i
  {
    var next := rows[i].replacedBy.value;
    if next == j {
      before := i;
    } else {
      before := LastLink(rows, next, j);
    }
  }

  /** Chains never merge: two rows that reach a common row lie on one chain. */
  lemma {:induction false} ChainsAreDisjoint(rows: seq<Row>, a: RowId, b: RowId, j: RowId)
    requires Linked(rows) && a < |rows| && b < |rows| && Reaches(rows, a, j) && Reaches(rows, b, j)
    ensures Reaches(rows, a, b) || Reaches(rows, b, a)
    decreases j
  {
    if a != j && b != j {
      var x := LastLink(rows, a, j);
      var y := LastLink(rows, b, j);
      ReachesForward(rows, a, j);
      assert x == y;
      ChainsAreDisjoint(rows, a, b, x);
    }
  }

  /** Chains never branch: of two rows reached from one, one reaches the other. */
  lemma {:induction false} ChainsDoNotBranch(rows: seq<Row>, i: RowId, a: RowId, b: RowId)
    requires Linked(rows) && i < |rows| && Reaches(rows, i, a) && Reaches(rows, i, b)
    ensures a < |rows| && b < |rows|
    ensures Reaches(rows, a, b) || Reaches(rows, b, a)
    decreases |rows| - i
  {
    ReachesForward(rows, i, a);
    ReachesForward(rows, i, b);
    if i != a && i != b {
      ChainsDoNotBranch(rows, rows[i].replacedBy.value, a, b);
    }
  }

  /** In every reachable table, on each chain at most the last row is unrevoked. */
  lemma OneLiveTokenPerChain(events: seq<Event>, i: RowId, a: RowId, b: RowId)
    requires var rows := Run([], events);
             && Reaches(rows, i, a) && a < |rows| && !rows[a].revoked
             && Reaches(rows, i, b) && b < |rows| && !rows[b].revoked
    ensures a == b
  {
    var rows := Run([], events);
    EveryHistoryIsLinked(events);
    ChainsDoNotBranch(rows, i, a, b);
    if Reaches(rows, a, b) {
      ReachesForward(rows, a, b);
    } else {
      ReachesForward(rows, b, a);
    }
  }

  // ----- How many sessions a user has

  function Live(rows: seq<Row>, user: UserId): nat {
    if rows == [] then 0
    else
      var last := rows[|rows| - 1];
      Live(rows[..|rows| - 1], user) + (if last.user == user && !last.revoked then 1 else 0)
  }

  lemma LiveAppend(rows: seq<Row>, row: Row, user: UserId)
    ensures Live(rows + [row], user) == Live(rows, user) + (if row.user == user && !row.revoked then 1 else 0)
  {
    assert (rows + [row])[..|rows|] == rows;
  }

  lemma {:induction false} LiveUpdate(rows: seq<Row>, i: RowId, row: Row, user: UserId)
    requires i < |rows| && row.user == rows[i].user
    ensures Live(rows[i := row], user) ==
            Live(rows, user) - (if rows[i].user == user && !rows[i].revoked then 1 else 0)
                             + (if row.user == user && !row.revoked then 1 else 0)
  {
    var front := rows[..|rows| - 1];
    if i == |rows| - 1 {
      assert rows[i := row][..|rows| - 1] == front;
    } else {
      assert rows[i := row][..|rows| - 1] == front[i := row];
      LiveUpdate(front, i, row, user);
    }
  }

  lemma {:induction false} LiveOfRevoked(rows: seq<Row>, user: UserId)
    requires forall i | 0 <= i < |rows| :: rows[i].user == user ==> rows[i].revoked
    ensures Live(rows, user) == 0
  {
    if rows == [] {
    } else {
      LiveOfRevoked(rows[..|rows| - 1], user);
    }
  }

  lemma {:induction false} LiveUnchanged(a: seq<Row>, b: seq<Row>, user: UserId)
    requires |a| == |b|
    requires forall i | 0 <= i < |a| ::
               a[i].user == b[i].user && (a[i].user == user ==> a[i].revoked == b[i].revoked)
    ensures Live(a, user) == Live(b, user)
  {
    if a == [] {
    } else {
      LiveUnchanged(a[..|a| - 1], b[..|b| - 1], user);
    }
  }

  /** A successful rotation moves the session: the presented token is dead, its one successor alive,
      and every user has as many live tokens as before. */
  lemma RotationKeepsSessions(rows: seq<Row>, presented: Hash, minted: Hash, now: int, user: UserId)
    requires Linked(rows) && Find(rows, presented).Some? && Find(rows, minted).None?
    requires Find(rows, presented).value < |rows| && Usable(rows[Find(rows, presented).value], now)
    ensures var after, i := Rotate(rows, presented, minted, now), Find(rows, presented).value;
            && |after| == |rows| + 1
            && after[i].revoked && after[i].replacedBy == Some(|rows|)
            && (forall later :: Usable(after[|rows|], later) <==> later < now + 7 * 24 * 60 * 60)
            && after[|rows|].user == rows[i].user && after[|rows|].hash == minted
            && Live(after, user) == Live(rows, user)
            && forall k | 0 <= k < |rows| && k != i :: after[k] == rows[k]
  {
    FindIsRow(rows, presented);
    FindIsRow(rows, minted);
    var i := Find(rows, presented).value;
    var row := Row(rows[i].user, minted, now + REFRESH_TTL, false, None);
    LiveAppend(rows, row, user);
    LiveUpdate(rows + [row], i, rows[i].(revoked := true, replacedBy := Some(|rows|)), user);
  }

  /** Presenting a revoked or expired token logs its user out everywhere and nobody else. */
  lemma ReuseEndsEverySession(rows: seq<Row>, presented: Hash, minted: Hash, now: int, other: UserId)
    requires Find(rows, presented).Some? && Find(rows, presented).value < |rows|
    requires !Usable(rows[Find(rows, presented).value], now)
    ensures var after, owner := Rotate(rows, presented, minted, now), rows[Find(rows, presented).value].user;
            && Live(after, owner) == 0
            && (other != owner ==> Live(after, other) == Live(rows, other))
            && |after| == |rows|
            && forall k | 0 <= k < |rows| ::
                 after[k] == if rows[k].user == owner then rows[k].(revoked := true) else rows[k]
  {
    var owner := rows[Find(rows, presented).value].user;
    var after := Rotate(rows, presented, minted, now);
    LiveOfRevoked(after, owner);
    if other != owner {
      LiveUnchanged(after, rows, other);
    }
  }

  /** A login opens one session of its user and none of anybody else; its token, unlike a hash that is
      already there, is found, and usable for seven days, and every other token is found where it was. */
  lemma StoreOpensOneSession(rows: seq<Row>, user: UserId, minted: Hash, now: int, other: UserId, hash: Hash)
    ensures Store(rows, user, minted, now).None? <==> exists i :: 0 <= i < |rows| && rows[i].hash == minted
    ensures Store(rows, user, minted, now).Some? ==>
              var after := Store(rows, user, minted, now).value;
              && |after| == |rows| + 1
              && Live(after, other) == Live(rows, other) + (if other == user then 1 else 0)
              && Find(after, hash) == (if hash == minted then Some(|rows|) else Find(rows, hash))
              && forall later :: Usable(after[|rows|], later) <==> later < now + 7 * 24 * 60 * 60
  {
    FindIsRow(rows, minted);
    var row := Row(user, minted, now + REFRESH_TTL, false, None);
    LiveAppend(rows, row, other);
    assert (rows + [row])[..|rows|] == rows;
  }

  /** Logging out ends the presented session, if it was live, and no other. */
  lemma LogoutEndsOneSession(rows: seq<Row>, presented: Hash, user: UserId)
    ensures var after, found := Revoke(rows, presented), Find(rows, presented);
            && Live(after, user) == Live(rows, user)
                 - (if found.Some? && found.value < |rows| && rows[found.value].user == user
                      && !rows[found.value].revoked then 1 else 0)
            && (found.Some? && found.value < |after| ==> forall now :: !Usable(after[found.value], now))
            && |after| == |rows|
            && forall k | 0 <= k < |rows| :: rows[k].hash != presented ==> after[k] == rows[k]
  {
    FindIsRow(rows, presented);
    var found := Find(rows, presented);
    if found.Some? {
      LiveUpdate(rows, found.value, rows[found.value].(revoked := true), user);
    }
  }

  /** A hash that no row has, and a new token whose hash some row has already, change nothing. */
  lemma StrangersChangeNothing(rows: seq<Row>, presented: Hash, minted: Hash, now: int)
    requires || (forall i | 0 <= i < |rows| :: rows[i].hash != presented)
             || (&& (exists i :: 0 <= i < |rows| && rows[i].hash == minted)
                 && (forall i | 0 <= i < |rows| && rows[i].hash == presented :: Usable(rows[i], now)))
    ensures Rotate(rows, presented, minted, now) == rows
    ensures (forall i | 0 <= i < |rows| :: rows[i].hash != presented) ==> Revoke(rows, presented) == rows
  {
    FindIsRow(rows, presented);
    FindIsRow(rows, minted);
  }

  /** How a table may grow: rows keep owner, hash and expiry, and a revoked row keeps its successor, or
      that it has none, for good. */
  predicate Extends(before: seq<Row>, after: seq<Row>) {
    && |before| <= |after|
    && forall i | 0 <= i < |before| ::
         && after[i].(revoked := before[i].revoked, replacedBy := before[i].replacedBy) == before[i]
         && (before[i].revoked ==> after[i] == before[i])
  }

  lemma EventExtends(rows: seq<Row>, event: Event)
    ensures Extends(rows, Apply(rows, event))
  {
    match event
    case Login(_, _, _) =>
    case Refresh(presented, minted, now) => FindIsRow(rows, presented);
    case Logout(presented) => FindIsRow(rows, presented);
  }

  /** Over every history a token is exchanged at most once, and one that was rotated, logged out or
      revoked never opens a session again. */
  lemma {:induction false} TokensAreSpentOnce(rows: seq<Row>, events: seq<Event>)
    ensures Extends(rows, Run(rows, events))
  {
    if events == [] {
    } else {
      var front := events[..|events| - 1];
      TokensAreSpentOnce(rows, front);
      EventExtends(Run(rows, front), events[|events| - 1]);
    }
  }

  function Logins(events: seq<Event>, user: UserId): nat {
    if events == [] then 0
    else
      var last := events[|events| - 1];
      Logins(events[..|events| - 1], user) + (if last.Login? && last.user == user then 1 else 0)
  }

  lemma EventBoundsLive(rows: seq<Row>, event: Event, user: UserId)
    requires Linked(rows)
    ensures Live(Apply(rows, event), user) <= Live(rows, user) + (if event.Login? && event.user == user then 1 else 0)
  {
    match event
    case Login(u, minted, now) => LiveAppend(rows, Row(u, minted, now + REFRESH_TTL, false, None), user);
    case Refresh(presented, minted, now) =>
      FindIsRow(rows, presented);
      var found := Find(rows, presented);
      if found.Some? {
        if !Usable(rows[found.value], now) {
          ReuseEndsEverySession(rows, presented, minted, now, user);
        } else if Find(rows, minted).None? {
          RotationKeepsSessions(rows, presented, minted, now, user);
        }
      }
    case Logout(presented) =>
      FindIsRow(rows, presented);
      var found := Find(rows, presented);
      if found.Some? {
        LiveUpdate(rows, found.value, rows[found.value].(revoked := true), user);
      }
  }

  /** Over every history a user never has more live tokens than logins: refreshing mints no session. */
  lemma {:induction false} SessionsComeFromLogins(events: seq<Event>, user: UserId)
    ensures Live(Run([], events), user) <= Logins(events, user)
  {
    if events == [] {
    } else {
      var front := events[..|events| - 1];
      SessionsComeFromLogins(front, user);
      EveryHistoryIsLinked(front);
      EventBoundsLive(Run([], front), events[|events| - 1], user);
    }
  }
}
