/**
 Refresh-token sessions: login, rotation with a 30-second grace period, logout, revocation of all sessions
 and cleanup, in any order. Rows are kept in creation order; a raw token is identified with its hash, and
 freshly generated tokens are new.
 */
module RefreshTokens {
  import opened Common

  type UserId = string
  type Hash = nat

  /** Admin tokens share the table and carry no user id. */
  datatype Token = Token(user: Option<UserId>, hash: Hash, createdAt: int, expiresAt: int, revokedAt: Option<int>)

  /** `issued` holds every hash ever generated; `ttl` is the configured token lifetime. */
  datatype State = State(rows: seq<Token>, now: int, ttl: int, issued: set<Hash>)

  datatype UserReply = ActiveUser | DisabledUser | NoReply

  datatype Step =
    | Login(user: UserId, newHash: Hash)
    | AdminLogin(newHash: Hash)
    | Refresh(presented: Hash, newHash: Hash, reply: UserReply)
    | Logout(presented: Hash)
    | RevokeAll(user: UserId)
    | Cleanup
    | Tick(ms: nat)

  datatype Outcome = Issued | InvalidToken | ExpiredToken | AccountDisabled | UserServiceFailed

  const GRACE_MS := 30_000
  const MAX_ACTIVE_SESSIONS := 5

  /** The unrevoked tokens of a user, oldest first. */
  function Active(rows: seq<Token>, u: UserId): seq<Token> {
    if rows == [] then []
    else
      var last := rows[|rows| - 1];
      Active(rows[..|rows| - 1], u) + if last.user == Some(u) && last.revokedAt.None? then [last] else []
  }

  function Hashes(rows: seq<Token>): set<Hash> {
    set k | 0 <= k < |rows| :: rows[k].hash
  }

  /** The update statement that revokes the rows with these ids. */
  function RevokeIn(rows: seq<Token>, ids: set<Hash>, now: int): seq<Token> {
    if rows == [] then []
    else
      var last := rows[|rows| - 1];
      RevokeIn(rows[..|rows| - 1], ids, now) + [if last.hash in ids then last.(revokedAt := Some(now)) else last]
  }

  function FindToken(rows: seq<Token>, h: Hash): (i: Option<nat>)
    ensures i.Some? ==> i.value < |rows| && rows[i.value].hash == h
    ensures i.None? ==> forall k :: 0 <= k < |rows| ==> rows[k].hash != h
  {
    if rows == [] then None
    else if rows[|rows| - 1].hash == h then Some(|rows| - 1)
    else FindToken(rows[..|rows| - 1], h)
  }

  /** The ids revoked to make room: all but the newest four when there are five or more. */
  function Surplus(rows: seq<Token>, u: UserId): set<Hash> {
    var active := Active(rows, u);
    if |active| >= MAX_ACTIVE_SESSIONS then Hashes(active[..|active| - MAX_ACTIVE_SESSIONS + 1]) else {}
  }

  /** `createRefreshToken` for a user. */
  function Issue(s: State, u: UserId, newHash: Hash): State {
    s.(rows := RevokeIn(s.rows, Surplus(s.rows, u), s.now) + [Token(Some(u), newHash, s.now, s.now + s.ttl, None)],
       issued := s.issued + {newHash})
  }

  function RefreshOutcome(s: State, presented: Hash, reply: UserReply): Outcome {
    var found := FindToken(s.rows, presented);
    if found.None? then InvalidToken
    else
      var t := s.rows[found.value];
      if t.revokedAt.Some? && t.revokedAt.value <= s.now - GRACE_MS then InvalidToken
      else if t.revokedAt.None? && t.expiresAt < s.now then ExpiredToken
      else if t.user.None? then InvalidToken
      else match reply
        case NoReply => UserServiceFailed
        case DisabledUser => AccountDisabled
        case ActiveUser => Issued
  }

  function Unexpired(rows: seq<Token>, now: int): seq<Token> {
    if rows == [] then []
    else Unexpired(rows[..|rows| - 1], now) + if rows[|rows| - 1].expiresAt < now then [] else [rows[|rows| - 1]]
  }

  function Apply(s: State, step: Step): State {
    match step
    case Login(u, newHash) => if newHash in s.issued then s else Issue(s, u, newHash)
    case AdminLogin(newHash) =>
      if newHash in s.issued then s
      else s.(rows := s.rows + [Token(None, newHash, s.now, s.now + s.ttl, None)], issued := s.issued + {newHash})
    case Refresh(presented, newHash, reply) =>
      if newHash in s.issued || RefreshOutcome(s, presented, reply) != Issued then s
      else
        var t := s.rows[FindToken(s.rows, presented).value];
        Issue(if t.revokedAt.None? then s.(rows := RevokeIn(s.rows, {presented}, s.now)) else s, t.user.value, newHash)
    case Logout(presented) =>
      var found := FindToken(s.rows, presented);
      if found.Some? && s.rows[found.value].revokedAt.None? then s.(rows := RevokeIn(s.rows, {presented}, s.now)) else s
    case RevokeAll(u) => s.(rows := RevokeIn(s.rows, Hashes(Active(s.rows, u)), s.now))
    case Cleanup => s.(rows := Unexpired(s.rows, s.now))
    case Tick(ms) => s.(now := s.now + ms)
  }

  function Exec(s: State, steps: seq<Step>): State {
    if steps == [] then s else Apply(Exec(s, steps[..|steps| - 1]), steps[|steps| - 1])
  }

  // ------------------------------------------------------------------------------------------
  // Invariants of the table
  // ------------------------------------------------------------------------------------------

  predicate UniqueHashes(rows: seq<Token>) {
    forall i, j :: 0 <= i < j < |rows| ==> rows[i].hash != rows[j].hash
  }

  /** Creation order is row order, so "oldest" and "first" mean the same. */
  predicate Chronological(rows: seq<Token>, now: int) {
    && (forall i, j :: 0 <= i < j < |rows| ==> rows[i].createdAt <= rows[j].createdAt)
    && (forall i :: 0 <= i < |rows| ==> rows[i].createdAt <= now)
  }

  ghost predicate Capped(rows: seq<Token>) {
    forall u :: |Active(rows, u)| <= 5
  }

  predicate TableOk(s: State) {
    UniqueHashes(s.rows) && Chronological(s.rows, s.now) && forall i :: 0 <= i < |s.rows| ==> s.rows[i].hash in s.issued
  }

  lemma {:induction false} RevokeInAt(rows: seq<Token>, ids: set<Hash>, now: int)
    ensures |RevokeIn(rows, ids, now)| == |rows|
    ensures forall k :: 0 <= k < |rows| ==>
              RevokeIn(rows, ids, now)[k] == if rows[k].hash in ids then rows[k].(revokedAt := Some(now)) else rows[k]
  {
    if rows != [] {
      RevokeInAt(rows[..|rows| - 1], ids, now);
    }
  }

  lemma {:induction false} InUnexpired(rows: seq<Token>, now: int, t: Token)
    ensures t in Unexpired(rows, now) <==> t in rows && t.expiresAt >= now
    ensures |Unexpired(rows, now)| <= |rows|
  {
    if rows != [] {
      var n := |rows| - 1;
      InUnexpired(rows[..n], now, t);
      assert rows == rows[..n] + [rows[n]];
    }
  }

  lemma {:induction false} UnexpiredUnique(rows: seq<Token>, now: int)
    requires UniqueHashes(rows)
    ensures UniqueHashes(Unexpired(rows, now))
  {
    if rows != [] {
      var n := |rows| - 1;
      var kept := Unexpired(rows[..n], now);
      UnexpiredUnique(rows[..n], now);
      forall k | 0 <= k < |kept|
        ensures kept[k].hash != rows[n].hash
      {
        InUnexpired(rows[..n], now, kept[k]);
        var j :| 0 <= j < n && rows[..n][j] == kept[k];
        assert rows[j].hash != rows[n].hash;
      }
    }
  }

  lemma UnexpiredRows(rows: seq<Token>, now: int)
    ensures forall t :: t in Unexpired(rows, now) <==> t in rows && t.expiresAt >= now
    ensures |Unexpired(rows, now)| <= |rows|
    ensures UniqueHashes(rows) ==> UniqueHashes(Unexpired(rows, now))
  {
    hide Unexpired, UniqueHashes;
    forall t { InUnexpired(rows, now, t); }
    InUnexpired(rows, now, Token(None, 0, 0, 0, None));
    if UniqueHashes(rows) {
      UnexpiredUnique(rows, now);
    }
  }

  lemma {:induction false} UnexpiredActive(rows: seq<Token>, now: int, u: UserId)
    ensures |Active(Unexpired(rows, now), u)| <= |Active(rows, u)|
  {
    if rows != [] {
      var n := |rows| - 1;
      var kept := Unexpired(rows[..n], now);
      UnexpiredActive(rows[..n], now, u);
      assert (kept + [rows[n]])[..|kept|] == kept;
      assert kept + [] == kept;
    }
  }

  lemma ChronologicalAppend(rows: seq<Token>, t: Token, clock: int)
    requires Chronological(rows, clock) && t.createdAt <= clock
    requires forall k :: 0 <= k < |rows| ==> rows[k].createdAt <= t.createdAt
    ensures Chronological(rows + [t], clock)
  {
  }

  lemma {:induction false} UnexpiredChronological(rows: seq<Token>, now: int, clock: int)
    requires Chronological(rows, clock)
    ensures Chronological(Unexpired(rows, now), clock)
  {
    if rows != [] {
      var n := |rows| - 1;
      var kept := Unexpired(rows[..n], now);
      assert Chronological(rows[..n], clock);
      UnexpiredChronological(rows[..n], now, clock);
      forall k | 0 <= k < |kept|
        ensures kept[k].createdAt <= rows[n].createdAt
      {
        InUnexpired(rows[..n], now, kept[k]);
        var j :| 0 <= j < n && rows[..n][j] == kept[k];
        assert rows[j].createdAt <= rows[n].createdAt;
      }
      assert rows[n].createdAt <= clock;
      hide Chronological;
      if rows[n].expiresAt >= now {
        ChronologicalAppend(kept, rows[n], clock);
      } else {
        assert kept + [] == kept;
      }
    }
  }

  // ------------------------------------------------------------------------------------------
  // Issuing keeps exactly the newest four
  // ------------------------------------------------------------------------------------------

  function Without(tokens: seq<Token>, ids: set<Hash>): seq<Token> {
    if tokens == [] then []
    else Without(tokens[..|tokens| - 1], ids) + if tokens[|tokens| - 1].hash in ids then [] else [tokens[|tokens| - 1]]
  }

  /** Revoking some ids removes exactly them from every user's active tokens. */
  lemma {:induction false} ActiveAfterRevoke(rows: seq<Token>, ids: set<Hash>, now: int, u: UserId)
    ensures Active(RevokeIn(rows, ids, now), u) == Without(Active(rows, u), ids)
  {
    if rows != [] {
      var n := |rows| - 1;
      var before := Active(rows[..n], u);
      var revoked := RevokeIn(rows[..n], ids, now);
      ActiveAfterRevoke(rows[..n], ids, now, u);
      var last := if rows[n].hash in ids then rows[n].(revokedAt := Some(now)) else rows[n];
      assert RevokeIn(rows, ids, now) == revoked + [last];
      assert (revoked + [last])[..|revoked|] == revoked;
      assert (before + [rows[n]])[..|before|] == before;
      assert before + [] == before && Without(before, ids) + [] == Without(before, ids);
    }
  }

  lemma {:induction false} ActiveElements(rows: seq<Token>, u: UserId)
    ensures forall t :: t in Active(rows, u) ==> t in rows && t.user == Some(u) && t.revokedAt.None?
    ensures forall t :: t in rows && t.user == Some(u) && t.revokedAt.None? ==> t in Active(rows, u)
    ensures UniqueHashes(rows) ==> UniqueHashes(Active(rows, u))
  {
    if rows != [] {
      var n := |rows| - 1;
      ActiveElements(rows[..n], u);
      assert rows == rows[..n] + [rows[n]];
      if UniqueHashes(rows) {
        assert forall t :: t in rows[..n] ==> t.hash != rows[n].hash;
      }
    }
  }

  lemma {:induction false} WithoutNone(tokens: seq<Token>, ids: set<Hash>)
    requires forall k :: 0 <= k < |tokens| ==> tokens[k].hash !in ids
    ensures Without(tokens, ids) == tokens
  {
    if tokens != [] {
      WithoutNone(tokens[..|tokens| - 1], ids);
    }
  }

  lemma {:induction false} WithoutPrefix(tokens: seq<Token>, k: nat, ids: set<Hash>)
    requires k <= |tokens| && UniqueHashes(tokens) && ids == Hashes(tokens[..k])
    ensures Without(tokens, ids) == tokens[k..]
    decreases |tokens|
  {
    if k == |tokens| {
      WithoutAll(tokens, ids);
    } else {
      var n := |tokens| - 1;
      assert tokens[..n][..k] == tokens[..k];
      WithoutPrefix(tokens[..n], k, ids);
      assert tokens[n].hash !in ids;
      assert tokens[k..] == tokens[..n][k..] + [tokens[n]];
    }
  }

  lemma {:induction false} WithoutAll(tokens: seq<Token>, ids: set<Hash>)
    requires forall k :: 0 <= k < |tokens| ==> tokens[k].hash in ids
    ensures Without(tokens, ids) == []
  {
    if tokens != [] {
      WithoutAll(tokens[..|tokens| - 1], ids);
    }
  }

  function Newest(tokens: seq<Token>, n: nat): seq<Token> {
    if |tokens| <= n then tokens else tokens[|tokens| - n..]
  }

  /** A token that belongs to u is not another user's. */
  lemma SurplusOfOthers(rows: seq<Token>, u: UserId, v: UserId)
    requires UniqueHashes(rows) && u != v
    ensures forall k :: 0 <= k < |Active(rows, v)| ==> Active(rows, v)[k].hash !in Surplus(rows, u)
  {
    var mine, theirs := Active(rows, u), Active(rows, v);
    ActiveElements(rows, u);
    ActiveElements(rows, v);
    forall j, k | 0 <= j < |mine| && 0 <= k < |theirs|
      ensures mine[j].hash != theirs[k].hash
    {
      assert mine[j] in mine && theirs[k] in theirs;
      var a :| 0 <= a < |rows| && rows[a] == mine[j];
      var b :| 0 <= b < |rows| && rows[b] == theirs[k];
      assert rows[a].user != rows[b].user;
    }
  }

  /**
   Issuing a token leaves its user with exactly the newest four unrevoked tokens, or fewer, and the new
   one, however many there were before; other users keep theirs.
   */
  lemma IssueKeepsNewest(s: State, u: UserId, newHash: Hash, v: UserId)
    requires UniqueHashes(s.rows)
    ensures var token := Token(Some(u), newHash, s.now, s.now + s.ttl, None);
            Active(Issue(s, u, newHash).rows, v)
            == if v == u then Newest(Active(s.rows, u), 4) + [token] else Active(s.rows, v)
  {
    hide Without, Surplus;
    var token := Token(Some(u), newHash, s.now, s.now + s.ttl, None);
    var ids := Surplus(s.rows, u);
    var revoked := RevokeIn(s.rows, ids, s.now);
    assert (revoked + [token])[..|revoked|] == revoked;
    ActiveAfterRevoke(s.rows, ids, s.now, v);
    if v == u {
      KeptOfUser(s.rows, u);
    } else {
      SurplusOfOthers(s.rows, u, v);
      WithoutNone(Active(s.rows, v), ids);
    }
  }

  lemma KeptOfUser(rows: seq<Token>, u: UserId)
    requires UniqueHashes(rows)
    ensures Without(Active(rows, u), Surplus(rows, u)) == Newest(Active(rows, u), 4)
  {
    ActiveElements(rows, u);
    hide Active, Without;
    var active := Active(rows, u);
    if |active| >= MAX_ACTIVE_SESSIONS {
      WithoutPrefix(active, |active| - MAX_ACTIVE_SESSIONS + 1, Surplus(rows, u));
    } else {
      WithoutNone(active, {});
    }
  }

  // ------------------------------------------------------------------------------------------
  // Whole runs: the cap, write-once revocation and the grace period
  // ------------------------------------------------------------------------------------------

  lemma IssueKeepsTable(s: State, u: UserId, newHash: Hash)
    requires TableOk(s) && newHash !in s.issued
    ensures TableOk(Issue(s, u, newHash))
  {
    RevokeInAt(s.rows, Surplus(s.rows, u), s.now);
    hide Surplus, RevokeIn;
  }

  lemma RevokeKeepsTable(s: State, ids: set<Hash>)
    requires TableOk(s)
    ensures TableOk(s.(rows := RevokeIn(s.rows, ids, s.now)))
  {
    RevokeInAt(s.rows, ids, s.now);
    hide RevokeIn;
  }

  lemma StepKeepsTable(s: State, step: Step)
    requires TableOk(s)
    ensures TableOk(Apply(s, step))
  {
    match step
    case Login(u, newHash) => if newHash !in s.issued { IssueKeepsTable(s, u, newHash); }
    case Refresh(presented, newHash, reply) =>
      if newHash !in s.issued && RefreshOutcome(s, presented, reply) == Issued {
        var t := s.rows[FindToken(s.rows, presented).value];
        RevokeKeepsTable(s, {presented});
        IssueKeepsTable(if t.revokedAt.None? then s.(rows := RevokeIn(s.rows, {presented}, s.now)) else s,
                        t.user.value, newHash);
      }
    case Logout(presented) => RevokeKeepsTable(s, {presented});
    case RevokeAll(u) => RevokeKeepsTable(s, Hashes(Active(s.rows, u)));
    case Cleanup => UnexpiredKeepsTable(s);
    case _ =>
  }

  lemma UnexpiredKeepsTable(s: State)
    requires TableOk(s)
    ensures TableOk(s.(rows := Unexpired(s.rows, s.now)))
  {
    UnexpiredRows(s.rows, s.now);
    UnexpiredChronological(s.rows, s.now, s.now);
    var kept := Unexpired(s.rows, s.now);
    forall i | 0 <= i < |kept|
      ensures kept[i].hash in s.issued
    {
      assert kept[i] in kept;
    }
  }

  lemma {:induction false} WithoutShrinks(tokens: seq<Token>, ids: set<Hash>)
    ensures |Without(tokens, ids)| <= |tokens|
  {
    if tokens != [] {
      WithoutShrinks(tokens[..|tokens| - 1], ids);
    }
  }

  lemma RevokeKeepsCap(rows: seq<Token>, ids: set<Hash>, now: int)
    requires Capped(rows)
    ensures Capped(RevokeIn(rows, ids, now))
  {
    forall u
      ensures |Active(RevokeIn(rows, ids, now), u)| <= 5
    {
      ActiveAfterRevoke(rows, ids, now, u);
      WithoutShrinks(Active(rows, u), ids);
    }
  }

  lemma IssueKeepsCap(s: State, u: UserId, newHash: Hash)
    requires TableOk(s) && Capped(s.rows)
    ensures Capped(Issue(s, u, newHash).rows)
  {
    hide Issue, Active;
    forall v
      ensures |Active(Issue(s, u, newHash).rows, v)| <= 5
    {
      IssueKeepsNewest(s, u, newHash, v);
    }
  }

  lemma StepKeepsCap(s: State, step: Step)
    requires TableOk(s) && Capped(s.rows)
    ensures Capped(Apply(s, step).rows)
  {
    hide RevokeIn, Issue, Capped, TableOk;
    match step
    case Login(u, newHash) => if newHash !in s.issued { IssueKeepsCap(s, u, newHash); }
    case AdminLogin(newHash) => AdminKeepsCap(s.rows, Token(None, newHash, s.now, s.now + s.ttl, None));
    case Refresh(presented, newHash, reply) =>
      if newHash !in s.issued && RefreshOutcome(s, presented, reply) == Issued {
        var t := s.rows[FindToken(s.rows, presented).value];
        RevokeKeepsCap(s.rows, {presented}, s.now);
        RevokeKeepsTable(s, {presented});
        IssueKeepsCap(if t.revokedAt.None? then s.(rows := RevokeIn(s.rows, {presented}, s.now)) else s,
                      t.user.value, newHash);
      }
    case Logout(presented) => RevokeKeepsCap(s.rows, {presented}, s.now);
    case RevokeAll(u) => RevokeKeepsCap(s.rows, Hashes(Active(s.rows, u)), s.now);
    case Cleanup => CleanupKeepsCap(s.rows, s.now);
    case Tick(ms) =>
  }

  lemma AdminKeepsCap(rows: seq<Token>, token: Token)
    requires Capped(rows) && token.user.None?
    ensures Capped(rows + [token])
  {
    assert (rows + [token])[..|rows|] == rows;
    forall u
      ensures Active(rows + [token], u) == Active(rows, u)
    {
    }
  }

  lemma CleanupKeepsCap(rows: seq<Token>, now: int)
    requires Capped(rows)
    ensures Capped(Unexpired(rows, now))
  {
    forall u
      ensures |Active(Unexpired(rows, now), u)| <= 5
    {
      UnexpiredActive(rows, now, u);
    }
  }

  function Start(now: int, ttl: int): State {
    State([], now, ttl, {})
  }

  /** Over any run no user ever has more than five unrevoked refresh tokens. */
  lemma {:induction false} AtMostFiveSessions(now: int, ttl: int, steps: seq<Step>)
    ensures TableOk(Exec(Start(now, ttl), steps)) && Capped(Exec(Start(now, ttl), steps).rows)
  {
    hide Apply, TableOk, Capped;
    if steps == [] {
      EmptyTable(now, ttl);
    } else {
      AtMostFiveSessions(now, ttl, steps[..|steps| - 1]);
      StepKeepsTable(Exec(Start(now, ttl), steps[..|steps| - 1]), steps[|steps| - 1]);
      StepKeepsCap(Exec(Start(now, ttl), steps[..|steps| - 1]), steps[|steps| - 1]);
    }
  }

  lemma EmptyTable(now: int, ttl: int)
    ensures TableOk(Start(now, ttl)) && Capped(Start(now, ttl).rows)
  {
  }

  /** The token h was generated, and if its row is still there it was revoked at time t. */
  predicate RevokedAt(s: State, h: Hash, t: int) {
    h in s.issued && forall k :: 0 <= k < |s.rows| && s.rows[k].hash == h ==> s.rows[k].revokedAt == Some(t)
  }

  /** Revoking ids that were unrevoked leaves an earlier revocation time alone. */
  lemma RevokeKeepsTime(s: State, ids: set<Hash>, h: Hash, t: int)
    requires RevokedAt(s, h, t) && h !in ids
    ensures RevokedAt(s.(rows := RevokeIn(s.rows, ids, s.now)), h, t)
  {
    RevokeInAt(s.rows, ids, s.now);
  }

  lemma ActiveHashesUnrevoked(s: State, tokens: seq<Token>, u: UserId, h: Hash, t: int)
    requires RevokedAt(s, h, t) && forall k :: 0 <= k < |tokens| ==> tokens[k] in Active(s.rows, u)
    ensures h !in Hashes(tokens)
  {
    ActiveElements(s.rows, u);
    forall k | 0 <= k < |tokens|
      ensures tokens[k].hash != h
    {
      var j :| 0 <= j < |s.rows| && s.rows[j] == tokens[k];
    }
  }

  lemma IssueKeepsTime(s: State, u: UserId, newHash: Hash, h: Hash, t: int)
    requires RevokedAt(s, h, t) && newHash !in s.issued
    ensures RevokedAt(Issue(s, u, newHash), h, t)
  {
    var active := Active(s.rows, u);
    hide Active, RevokeIn;
    if |active| >= MAX_ACTIVE_SESSIONS {
      ActiveHashesUnrevoked(s, active[..|active| - MAX_ACTIVE_SESSIONS + 1], u, h, t);
    }
    RevokeKeepsTime(s, Surplus(s.rows, u), h, t);
  }

  lemma StepKeepsTime(s: State, step: Step, h: Hash, t: int)
    requires RevokedAt(s, h, t)
    ensures RevokedAt(Apply(s, step), h, t)
  {
    match step
    case Login(u, newHash) => if newHash !in s.issued { IssueKeepsTime(s, u, newHash, h, t); }
    case Refresh(presented, newHash, reply) =>
      if newHash !in s.issued && RefreshOutcome(s, presented, reply) == Issued {
        var token := s.rows[FindToken(s.rows, presented).value];
        if token.revokedAt.None? {
          RevokeKeepsTime(s, {presented}, h, t);
          IssueKeepsTime(s.(rows := RevokeIn(s.rows, {presented}, s.now)), token.user.value, newHash, h, t);
        } else {
          IssueKeepsTime(s, token.user.value, newHash, h, t);
        }
      }
    case Logout(presented) =>
      var found := FindToken(s.rows, presented);
      if found.Some? && s.rows[found.value].revokedAt.None? { RevokeKeepsTime(s, {presented}, h, t); }
    case RevokeAll(u) =>
      ActiveHashesUnrevoked(s, Active(s.rows, u), u, h, t);
      RevokeKeepsTime(s, Hashes(Active(s.rows, u)), h, t);
    case Cleanup => CleanupKeepsTime(s, h, t);
    case _ =>
  }

  lemma CleanupKeepsTime(s: State, h: Hash, t: int)
    requires RevokedAt(s, h, t)
    ensures RevokedAt(s.(rows := Unexpired(s.rows, s.now)), h, t)
  {
    UnexpiredRows(s.rows, s.now);
    var kept := Unexpired(s.rows, s.now);
    forall k | 0 <= k < |kept| && kept[k].hash == h
      ensures kept[k].revokedAt == Some(t)
    {
      assert kept[k] in kept;
    }
  }

  /** Over any run a revocation time is never changed and never cleared. */
  lemma {:induction false} RevocationIsWriteOnce(s: State, steps: seq<Step>, h: Hash, t: int)
    requires RevokedAt(s, h, t)
    ensures RevokedAt(Exec(s, steps), h, t)
    ensures Exec(s, steps).now >= s.now
  {
    hide Apply, RevokedAt;
    if steps != [] {
      RevocationIsWriteOnce(s, steps[..|steps| - 1], h, t);
      StepKeepsTime(Exec(s, steps[..|steps| - 1]), steps[|steps| - 1], h, t);
      ClockRuns(Exec(s, steps[..|steps| - 1]), steps[|steps| - 1]);
    }
  }

  lemma ClockRuns(s: State, step: Step)
    ensures Apply(s, step).now >= s.now
  {
  }

  /** A token revoked at t is refused in every continuation from 30 seconds after t on. */
  lemma RevokedIsRefused(s: State, steps: seq<Step>, h: Hash, t: int, newHash: Hash, reply: UserReply)
    requires RevokedAt(s, h, t) && Exec(s, steps).now >= t + 30_000
    ensures RefreshOutcome(Exec(s, steps), h, reply) == InvalidToken
    ensures Apply(Exec(s, steps), Refresh(h, newHash, reply)) == Exec(s, steps)
  {
    hide Exec, FindToken;
    RevocationIsWriteOnce(s, steps, h, t);
  }

  /**
   The answer to a refresh, by the presented token's row: when exactly it is exchanged, and which refusal it
   meets otherwise. Revocation is looked at before expiry, and a revoked token inside its grace period is
   exchanged even when it has expired.
   */
  predicate AnswersRow(rows: seq<Token>, presented: Hash, reply: UserReply, now: int, outcome: Outcome) {
    && ((forall k :: 0 <= k < |rows| ==> rows[k].hash != presented) ==> outcome == InvalidToken)
    && (forall k :: 0 <= k < |rows| && rows[k].hash == presented ==>
          && (outcome == Issued
              <==> rows[k].user.Some? && reply.ActiveUser?
                   && if rows[k].revokedAt.Some? then now - rows[k].revokedAt.value < 30_000
                      else now <= rows[k].expiresAt)
          && (outcome == ExpiredToken <==> rows[k].revokedAt.None? && rows[k].expiresAt < now)
          && (outcome == AccountDisabled ==> reply.DisabledUser?)
          && (outcome == UserServiceFailed ==> reply.NoReply?)
          && (outcome == InvalidToken
              <==> (rows[k].revokedAt.Some? && now - rows[k].revokedAt.value >= 30_000)
                   || (rows[k].user.None? && (rows[k].revokedAt.None? ==> now <= rows[k].expiresAt))))
  }

  lemma AcceptedExactly(s: State, presented: Hash, reply: UserReply)
    requires TableOk(s)
    ensures AnswersRow(s.rows, presented, reply, s.now, RefreshOutcome(s, presented, reply))
  {
    hide FindToken;
    var found := FindToken(s.rows, presented);
    forall k | 0 <= k < |s.rows| && s.rows[k].hash == presented
      ensures found == Some(k)
    {
    }
  }

  // ------------------------------------------------------------------------------------------
  // What issuing, exchanging and logging out do to the rows
  // ------------------------------------------------------------------------------------------

  /** A row that issuing a token for u may leave: unchanged, or an unrevoked one of u revoked now. */
  predicate KeptOrRevoked(before: Token, after: Token, u: UserId, now: int) {
    after == before || (before.user == Some(u) && before.revokedAt.None? && after == before.(revokedAt := Some(now)))
  }

  /**
   The new row is last; of the rows before it only unrevoked ones of the user change, and only by being revoked,
   which leaves the newest four of them and the new one.
   */
  predicate IssuedInRows(before: seq<Token>, after: seq<Token>, u: UserId, newHash: Hash, now: int, expiresAt: int) {
    var active, token := Active(before, u), Token(Some(u), newHash, now, expiresAt, None);
    && |after| == |before| + 1 && after[|before|] == token
    && (forall k :: 0 <= k < |before| ==> KeptOrRevoked(before[k], after[k], u, now))
    && Active(after, u) == active[Max(0, |active| - 4)..] + [token]
  }

  lemma IssueInRows(s: State, u: UserId, newHash: Hash)
    requires UniqueHashes(s.rows)
    ensures IssuedInRows(s.rows, Issue(s, u, newHash).rows, u, newHash, s.now, s.now + s.ttl)
  {
    ActiveHashes(s.rows, u);
    IssueKeepsNewest(s, u, newHash, u);
    hide Active, RevokeIn;
    var active := Active(s.rows, u);
    RevokeInAt(s.rows, Surplus(s.rows, u), s.now);
    forall k | 0 <= k < |s.rows| && s.rows[k].hash in Surplus(s.rows, u)
      ensures s.rows[k].hash in Hashes(active)
    {
    }
  }

  /** The rows after an accepted exchange of the token in row k. */
  predicate Exchanged(before: seq<Token>, k: nat, after: seq<Token>, newHash: Hash, now: int, expiresAt: int)
    requires k < |before|
  {
    var token := before[k];
    && |after| == |before| + 1 && token.user.Some?
    && after[|before|] == Token(token.user, newHash, now, expiresAt, None)
    && after[k] == token.(revokedAt := if token.revokedAt.None? then Some(now) else token.revokedAt)
    && forall j :: 0 <= j < |before| ==> KeptOrRevoked(before[j], after[j], token.user.value, now)
  }

  /**
   An accepted exchange of the token in row k: its user gets one new unrevoked row, dated now; the presented
   token is revoked now unless it was revoked before, whose time then stays; and of the other rows only
   unrevoked ones of the same user change, by being revoked now.
   */
  lemma ExchangeInRows(s: State, k: nat, newHash: Hash, reply: UserReply)
    requires TableOk(s) && k < |s.rows| && newHash !in s.issued
    requires RefreshOutcome(s, s.rows[k].hash, reply) == Issued
    ensures var t, token := Apply(s, Refresh(s.rows[k].hash, newHash, reply)), s.rows[k];
            && Exchanged(s.rows, k, t.rows, newHash, s.now, s.now + s.ttl)
            && RevokedAt(t, token.hash, if token.revokedAt.None? then s.now else token.revokedAt.value)
  {
    hide FindToken, RevokeIn, Issue;
    var found, token := FindToken(s.rows, s.rows[k].hash), s.rows[k];
    assert found == Some(k);
    var before := if token.revokedAt.None? then s.(rows := RevokeIn(s.rows, {token.hash}, s.now)) else s;
    RevokeInAt(s.rows, {token.hash}, s.now);
    RevokeKeepsTable(s, {token.hash});
    IssueInRows(before, token.user.value, newHash);
    assert KeptOrRevoked(before.rows[k], Issue(before, token.user.value, newHash).rows[k], token.user.value, s.now);
    IssueKeepsTime(before, token.user.value, newHash, token.hash,
                   if token.revokedAt.None? then s.now else token.revokedAt.value);
  }

  /** The rows after a refresh: exchanged when it was accepted, and otherwise all as before. */
  predicate RowsFollow(before: seq<Token>, presented: Hash, outcome: Outcome, after: seq<Token>, newHash: Hash, now: int,
                       expiresAt: int) {
    && (outcome != Issued ==> after == before)
    && forall k :: 0 <= k < |before| && before[k].hash == presented && outcome == Issued ==>
         Exchanged(before, k, after, newHash, now, expiresAt)
  }

  /** What a refresh answers and leaves, by the presented token's row. */
  lemma RefreshInRows(s: State, presented: Hash, newHash: Hash, reply: UserReply)
    requires TableOk(s) && newHash !in s.issued
    ensures TableOk(Apply(s, Refresh(presented, newHash, reply)))
    ensures AnswersRow(s.rows, presented, reply, s.now, RefreshOutcome(s, presented, reply))
    ensures RowsFollow(s.rows, presented, RefreshOutcome(s, presented, reply),
                       Apply(s, Refresh(presented, newHash, reply)).rows, newHash, s.now, s.now + s.ttl)
  {
    StepKeepsTable(s, Refresh(presented, newHash, reply));
    AcceptedExactly(s, presented, reply);
    assert RefreshOutcome(s, presented, reply) != Issued ==> Apply(s, Refresh(presented, newHash, reply)) == s;
    hide Apply, TableOk, Exchanged, AnswersRow;
    forall k | 0 <= k < |s.rows| && s.rows[k].hash == presented && RefreshOutcome(s, presented, reply) == Issued
      ensures Exchanged(s.rows, k, Apply(s, Refresh(presented, newHash, reply)).rows, newHash, s.now, s.now + s.ttl)
    {
      ExchangeInRows(s, k, newHash, reply);
    }
  }

  /** A logout with the unrevoked token in row k revokes that row now and leaves every other one as it was. */
  lemma LogoutInRows(s: State, k: nat)
    requires TableOk(s) && k < |s.rows| && s.rows[k].revokedAt.None?
    ensures Apply(s, Logout(s.rows[k].hash)).rows == s.rows[k := s.rows[k].(revokedAt := Some(s.now))]
    ensures RevokedAt(Apply(s, Logout(s.rows[k].hash)), s.rows[k].hash, s.now)
  {
    hide FindToken, RevokeIn;
    assert FindToken(s.rows, s.rows[k].hash) == Some(k);
    RevokeInAt(s.rows, {s.rows[k].hash}, s.now);
  }

  /** A token that was exchanged, or logged out with, is refused from thirty seconds later on, in every continuation. */
  lemma UsedTokenIsRefused(s: State, k: nat, step: Step, steps: seq<Step>, newHash: Hash, reply: UserReply)
    requires TableOk(s) && k < |s.rows| && s.rows[k].revokedAt.None?
    requires || step == Logout(s.rows[k].hash)
             || (step.Refresh? && step.presented == s.rows[k].hash && step.newHash !in s.issued
                 && RefreshOutcome(s, s.rows[k].hash, step.reply) == Issued)
    requires Exec(Apply(s, step), steps).now >= s.now + 30_000
    ensures RefreshOutcome(Exec(Apply(s, step), steps), s.rows[k].hash, reply) == InvalidToken
    ensures Apply(Exec(Apply(s, step), steps), Refresh(s.rows[k].hash, newHash, reply)) == Exec(Apply(s, step), steps)
  {
    hide Apply, Exec, RevokedAt, RefreshOutcome, TableOk;
    if step.Logout? {
      LogoutInRows(s, k);
    } else {
      ExchangeInRows(s, k, step.newHash, step.reply);
    }
    RevokedIsRefused(Apply(s, step), steps, s.rows[k].hash, s.now, newHash, reply);
  }

  // ------------------------------------------------------------------------------------------
  // After revoking everything of a user
  // ------------------------------------------------------------------------------------------

  /** Revoking everything of a user leaves no active token. */
  lemma RevokeAllLeavesNone(s: State, u: UserId)
    ensures Active(Apply(s, RevokeAll(u)).rows, u) == []
  {
    var active := Active(s.rows, u);
    ActiveAfterRevoke(s.rows, Hashes(active), s.now, u);
    WithoutAll(active, Hashes(active));
  }

  /** With unique hashes, the hashes of a user's active tokens name exactly these rows. */
  lemma ActiveHashes(rows: seq<Token>, u: UserId)
    requires UniqueHashes(rows)
    ensures forall k :: 0 <= k < |rows| ==>
              (rows[k].hash in Hashes(Active(rows, u)) <==> rows[k].user == Some(u) && rows[k].revokedAt.None?)
  {
    ActiveElements(rows, u);
    hide Active;
    var active := Active(rows, u);
    forall k | 0 <= k < |rows|
      ensures rows[k].hash in Hashes(active) <==> rows[k].user == Some(u) && rows[k].revokedAt.None?
    {
      if rows[k].hash in Hashes(active) {
        var j :| 0 <= j < |active| && active[j].hash == rows[k].hash;
        assert active[j] in active;
        var m :| 0 <= m < |rows| && rows[m] == active[j];
        assert m == k;
      }
      if rows[k].user == Some(u) && rows[k].revokedAt.None? {
        assert rows[k] in rows && rows[k] in active;
        var j :| 0 <= j < |active| && active[j] == rows[k];
        assert active[j].hash in Hashes(active);
      }
    }
  }

  /** The step exchanges a token of u that was revoked less than 30 seconds ago. */
  predicate Revives(s: State, step: Step, u: UserId) {
    && step.Refresh? && step.newHash !in s.issued && step.reply.ActiveUser?
    && var found := FindToken(s.rows, step.presented);
       && found.Some? && s.rows[found.value].user == Some(u) && s.rows[found.value].revokedAt.Some?
       && s.now - s.rows[found.value].revokedAt.value < 30_000
  }

  predicate LogsIn(step: Step, u: UserId) {
    step.Login? && step.user == u
  }

  lemma RevokedStaysEmpty(rows: seq<Token>, ids: set<Hash>, now: int, u: UserId)
    requires Active(rows, u) == []
    ensures Active(RevokeIn(rows, ids, now), u) == []
  {
    ActiveAfterRevoke(rows, ids, now, u);
  }

  lemma RefreshLeavesNone(s: State, step: Step, u: UserId)
    requires TableOk(s) && Active(s.rows, u) == [] && step.Refresh?
    ensures Active(Apply(s, step).rows, u) == [] <==> !Revives(s, step, u)
  {
    ActiveElements(s.rows, u);
    hide Active, RevokeIn, FindToken, Issue;
    if step.newHash !in s.issued && RefreshOutcome(s, step.presented, step.reply) == Issued {
      var token := s.rows[FindToken(s.rows, step.presented).value];
      assert token in s.rows;
      var before := if token.revokedAt.None? then s.(rows := RevokeIn(s.rows, {step.presented}, s.now)) else s;
      RevokedStaysEmpty(s.rows, {step.presented}, s.now, u);
      RevokeKeepsTable(s, {step.presented});
      IssueKeepsNewest(before, token.user.value, step.newHash, u);
    }
  }

  lemma StepLeavesNone(s: State, step: Step, u: UserId)
    requires TableOk(s) && Active(s.rows, u) == [] && !LogsIn(step, u)
    ensures Active(Apply(s, step).rows, u) == [] <==> !Revives(s, step, u)
  {
    hide RevokeIn, Unexpired, Issue, FindToken, TableOk;
    match step
    case Login(v, newHash) => OtherLogin(s, v, newHash, u);
    case AdminLogin(newHash) =>
      assert (s.rows + [Token(None, newHash, s.now, s.now + s.ttl, None)])[..|s.rows|] == s.rows;
    case Refresh(_, _, _) => RefreshLeavesNone(s, step, u);
    case Logout(presented) => RevokedStaysEmpty(s.rows, {presented}, s.now, u);
    case RevokeAll(v) => RevokedStaysEmpty(s.rows, Hashes(Active(s.rows, v)), s.now, u);
    case Cleanup => UnexpiredActive(s.rows, s.now, u);
    case Tick(_) =>
  }

  lemma OtherLogin(s: State, v: UserId, newHash: Hash, u: UserId)
    requires TableOk(s) && v != u
    ensures Active(Apply(s, Login(v, newHash)).rows, u) == Active(s.rows, u)
  {
    hide Active, Issue;
    IssueKeepsNewest(s, v, newHash, u);
  }

  lemma {:induction false} TableStaysOk(s: State, steps: seq<Step>)
    requires TableOk(s)
    ensures TableOk(Exec(s, steps))
  {
    hide TableOk, Apply;
    if steps != [] {
      TableStaysOk(s, steps[..|steps| - 1]);
      StepKeepsTable(Exec(s, steps[..|steps| - 1]), steps[|steps| - 1]);
    }
  }

  lemma PrefixStep(s: State, steps: seq<Step>, k: nat)
    requires k < |steps|
    ensures Exec(s, steps[..k + 1]) == Apply(Exec(s, steps[..k]), steps[k])
  {
    assert steps[..k + 1][..k] == steps[..k];
  }

  lemma {:induction false} UnrevivedStaysOut(s: State, steps: seq<Step>, u: UserId, k: nat)
    requires TableOk(s) && Active(s.rows, u) == [] && k <= |steps|
    requires forall i :: 0 <= i < |steps| ==> !LogsIn(steps[i], u)
    requires forall i :: 0 <= i < |steps| ==> !Revives(Exec(s, steps[..i]), steps[i], u)
    ensures Active(Exec(s, steps[..k]).rows, u) == []
  {
    hide TableOk, Apply, Active, Revives;
    if k > 0 {
      UnrevivedStaysOut(s, steps, u, k - 1);
      PrefixStep(s, steps, k - 1);
      TableStaysOk(s, steps[..k - 1]);
      StepLeavesNone(Exec(s, steps[..k - 1]), steps[k - 1], u);
    }
  }

  /**
   Over every run in which u does not log in, from a moment when u has no active token, such as right after
   revoking all: u stays without one if and only if no step exchanges a token of u inside its grace period.
   */
  lemma StaysOutExactly(s: State, steps: seq<Step>, u: UserId)
    requires TableOk(s) && Active(s.rows, u) == []
    requires forall i :: 0 <= i < |steps| ==> !LogsIn(steps[i], u)
    ensures (forall k :: 0 <= k <= |steps| ==> Active(Exec(s, steps[..k]).rows, u) == [])
            <==> forall k :: 0 <= k < |steps| ==> !Revives(Exec(s, steps[..k]), steps[k], u)
  {
    hide TableOk, Apply, Active, Revives, Exec;
    if forall k :: 0 <= k < |steps| ==> !Revives(Exec(s, steps[..k]), steps[k], u) {
      forall k | 0 <= k <= |steps|
        ensures Active(Exec(s, steps[..k]).rows, u) == []
      {
        UnrevivedStaysOut(s, steps, u, k);
      }
    }
    if forall k :: 0 <= k <= |steps| ==> Active(Exec(s, steps[..k]).rows, u) == [] {
      forall k | 0 <= k < |steps|
        ensures !Revives(Exec(s, steps[..k]), steps[k], u)
      {
        PrefixStep(s, steps, k);
        TableStaysOk(s, steps[..k]);
        assert Active(Exec(s, steps[..k]).rows, u) == [] && Active(Exec(s, steps[..k + 1]).rows, u) == [];
        StepLeavesNone(Exec(s, steps[..k]), steps[k], u);
      }
    }
  }

  const LOGGED_IN := State([Token(Some("u"), 0, 0, 1, None)], 0, 1, {0})
  const LOGGED_OUT := State([Token(Some("u"), 0, 0, 1, Some(0))], 0, 1, {0})

  lemma FirstLogin()
    ensures Apply(Start(0, 1), Login("u", 0)) == LOGGED_IN
  {
    assert Surplus([], "u") == {} && RevokeIn([], {}, 0) == [];
    assert [] + LOGGED_IN.rows == LOGGED_IN.rows;
  }

  lemma RevokingTheOnlyRow()
    ensures Apply(LOGGED_IN, RevokeAll("u")) == LOGGED_OUT
  {
    hide Active, RevokeIn, Hashes;
    ActiveHashes(LOGGED_IN.rows, "u");
    RevokeInAt(LOGGED_IN.rows, Hashes(Active(LOGGED_IN.rows, "u")), 0);
    assert RevokeIn(LOGGED_IN.rows, Hashes(Active(LOGGED_IN.rows, "u")), 0) == LOGGED_OUT.rows;
  }

  /** A user's only token, revoked with all of them and presented again at once, is a session again. */
  lemma RevokedUserComesBack()
    ensures var s := Exec(Start(0, 1), [Login("u", 0), RevokeAll("u")]);
            && Active(s.rows, "u") == [] && Revives(s, Refresh(0, 1, ActiveUser), "u")
            && Active(Apply(s, Refresh(0, 1, ActiveUser)).rows, "u") != []
  {
    FirstLogin();
    RevokingTheOnlyRow();
    RevokeAllLeavesNone(LOGGED_IN, "u");
    EmptyTable(0, 1);
    assert FindToken(LOGGED_OUT.rows, 0) == Some(0);
    hide Apply, Active, Exec, TableOk, Start, FindToken;
    var steps := [Login("u", 0), RevokeAll("u")];
    PrefixStep(Start(0, 1), steps, 0);
    PrefixStep(Start(0, 1), steps, 1);
    ExecNothing(Start(0, 1));
    assert steps[..0] == [] && steps[..2] == steps;
    TableStaysOk(Start(0, 1), steps);
    StepLeavesNone(LOGGED_OUT, Refresh(0, 1, ActiveUser), "u");
  }

  lemma ExecNothing(s: State)
    ensures Exec(s, []) == s
  {
  }

  // ------------------------------------------------------------------------------------------
  // The service
  // ------------------------------------------------------------------------------------------

  class AuthService {
    var rows: seq<Token>
    var now: int
    const ttl: int
    ghost var issued: set<Hash>

    ghost function Snapshot(): State
      reads this
    {
      State(rows, now, ttl, issued)
    }

    constructor (now: int, ttl: int)
      ensures Snapshot() == Start(now, ttl) && TableOk(Snapshot())
    {
      this.now, this.ttl, rows, issued := now, ttl, [], {};
    }

    /** The new row is unrevoked, and of the user's unrevoked rows before it only the newest four stay so. */
    method CreateRefreshToken(u: UserId, rawToken: Hash)
      requires TableOk(Snapshot()) && rawToken !in issued
      modifies `rows, `issued
      ensures Snapshot() == Issue(old(Snapshot()), u, rawToken) && TableOk(Snapshot())
      ensures IssuedInRows(old(rows), rows, u, rawToken, now, now + ttl)
    {
      hide Active, RevokeIn, Hashes, UniqueHashes, Chronological, IssuedInRows;
      IssueInRows(Snapshot(), u, rawToken);
      IssueKeepsTable(Snapshot(), u, rawToken);
      var expiresAt := now + ttl;
      var activeTokens := Active(rows, u);
      if |activeTokens| >= MAX_ACTIVE_SESSIONS {
        var tokensToRevoke := activeTokens[..|activeTokens| - MAX_ACTIVE_SESSIONS + 1];
        rows := RevokeIn(rows, Hashes(tokensToRevoke), now);
      } else {
        RevokeNothing(rows, now);
      }
      rows := rows + [Token(Some(u), rawToken, now, expiresAt, None)];
      issued := issued + {rawToken};
    }

    /** Looks for an unrevoked row first, then for a row revoked within the grace period. */
    method RefreshToken(presented: Hash, rawToken: Hash, reply: UserReply) returns (outcome: Outcome)
      requires TableOk(Snapshot()) && rawToken !in issued
      modifies `rows, `issued
      ensures Snapshot() == Apply(old(Snapshot()), Refresh(presented, rawToken, reply))
      ensures outcome == RefreshOutcome(old(Snapshot()), presented, reply) && TableOk(Snapshot())
      ensures AnswersRow(old(rows), presented, reply, now, outcome)
      ensures RowsFollow(old(rows), presented, outcome, rows, rawToken, now, now + ttl)
    {
      hide Issue, RevokeIn, TableOk, FindToken, RowsFollow, AnswersRow, IssuedInRows;
      RefreshInRows(Snapshot(), presented, rawToken, reply);
      var found := FindToken(rows, presented);
      if found.None? {
        return InvalidToken;
      }
      var token := rows[found.value];
      if token.revokedAt.Some? {
        var graceCutoff := now - GRACE_MS;
        if !(token.revokedAt.value > graceCutoff) {
          return InvalidToken;
        }
        if token.user.None? {
          return InvalidToken;
        }
        outcome := CheckUser(reply);
        if outcome == Issued {
          CreateRefreshToken(token.user.value, rawToken);
        }
        return;
      }
      if token.expiresAt < now {
        return ExpiredToken;
      }
      if token.user.None? {
        return InvalidToken;
      }
      outcome := CheckUser(reply);
      if outcome == Issued {
        RevokeKeepsTable(Snapshot(), {presented});
        rows := RevokeIn(rows, {presented}, now);
        CreateRefreshToken(token.user.value, rawToken);
      }
    }

    method CheckUser(reply: UserReply) returns (outcome: Outcome)
      ensures outcome == match reply
                         case NoReply => UserServiceFailed
                         case DisabledUser => AccountDisabled
                         case ActiveUser => Issued
    {
      match reply {
        case NoReply => outcome := UserServiceFailed;
        case DisabledUser => outcome := AccountDisabled;
        case ActiveUser => outcome := Issued;
      }
    }

    /** Revokes the presented token's row now if it is unrevoked; nothing else changes, nor anything otherwise. */
    method LogoutSession(presented: Hash)
      requires TableOk(Snapshot())
      modifies `rows
      ensures Snapshot() == Apply(old(Snapshot()), Logout(presented)) && TableOk(Snapshot())
      ensures |rows| == |old(rows)|
      ensures forall k :: 0 <= k < |rows| ==>
                rows[k] == if old(rows)[k].hash == presented && old(rows)[k].revokedAt.None?
                           then old(rows)[k].(revokedAt := Some(now)) else old(rows)[k]
    {
      RevokeInAt(rows, {presented}, now);
      StepKeepsTable(Snapshot(), Logout(presented));
      hide RevokeIn;
      var found := FindToken(rows, presented);
      if found.Some? && rows[found.value].revokedAt.None? {
        rows := RevokeIn(rows, {presented}, now);
      }
    }

    /** Also the revocation part of a password reset: one update, of the user's unrevoked rows only. */
    method RevokeAllUserRefreshTokens(u: UserId)
      requires TableOk(Snapshot())
      modifies `rows
      ensures Snapshot() == Apply(old(Snapshot()), RevokeAll(u)) && TableOk(Snapshot())
      ensures |rows| == |old(rows)|
      ensures forall k :: 0 <= k < |rows| ==>
                rows[k] == if old(rows)[k].user == Some(u) && old(rows)[k].revokedAt.None?
                           then old(rows)[k].(revokedAt := Some(now)) else old(rows)[k]
      ensures Active(rows, u) == []
    {
      StepKeepsTable(Snapshot(), RevokeAll(u));
      hide Active, RevokeIn;
      ActiveHashes(rows, u);
      RevokeInAt(rows, Hashes(Active(rows, u)), now);
      RevokeAllLeavesNone(Snapshot(), u);
      var before, revokedAt := rows, now;
      rows := seq(|before|, k requires 0 <= k < |before| =>
                if before[k].user == Some(u) && before[k].revokedAt.None? then before[k].(revokedAt := Some(revokedAt))
                else before[k]);
      assert rows == RevokeIn(old(rows), Hashes(Active(old(rows), u)), now);
    }

    /** Deletes every row past its expiry, revoked or not, and reports how many. */
    method CleanupExpiredTokens() returns (affected: nat)
      modifies `rows
      ensures Snapshot() == Apply(old(Snapshot()), Cleanup) && (TableOk(old(Snapshot())) ==> TableOk(Snapshot()))
      ensures affected == |old(rows)| - |rows|
      ensures forall token :: token in rows <==> token in old(rows) && token.expiresAt >= now
    {
      if TableOk(Snapshot()) { StepKeepsTable(Snapshot(), Cleanup); }
      hide TableOk;
      UnexpiredRows(rows, now);
      affected := |rows| - |Unexpired(rows, now)|;
      rows := Unexpired(rows, now);
    }
  }

  lemma {:induction false} RevokeNothing(rows: seq<Token>, now: int)
    ensures RevokeIn(rows, {}, now) == rows
  {
    if rows != [] {
      RevokeNothing(rows[..|rows| - 1], now);
    }
  }
}
