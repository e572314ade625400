/**
  Refresh-token rotation (internal/application/auth/service.go over
  internal/infrastructure/persistence/postgres/session_repository.go, migrations/000005).
 */
module SessionStatements {
  import opened Prelude

  type Hash = Bytes
  type Raw = Bytes

  datatype Session = Session(
    userId: string, tokenHash: Hash, createdAt: Time, lastUsedAt: Option<Time>, expiresAt: Time, revokedAt: Option<Time>)

  type Sessions = map<Uuid, Session>

  /** UNIQUE (refresh_token_hash). */
  predicate UniqueHashes(t: Sessions) {
    forall a, b | a in t && b in t && t[a].tokenHash == t[b].tokenHash :: a == b
  }

  predicate HashTaken(t: Sessions, hash: Hash) {
    exists sid | sid in t :: t[sid].tokenHash == hash
  }

  predicate Active(session: Session, now: Time) {
    session.revokedAt.None? && session.expiresAt > now
  }

  ghost function FindActive(t: Sessions, hash: Hash, now: Time): (r: Option<Uuid>)
    ensures r.Some? ==> r.value in t && t[r.value].tokenHash == hash && Active(t[r.value], now)
    ensures r.None? ==> forall sid | sid in t && t[sid].tokenHash == hash :: !Active(t[sid], now)
  {
    if exists sid | sid in t :: t[sid].tokenHash == hash && Active(t[sid], now) then
      var sid :| sid in t && t[sid].tokenHash == hash && Active(t[sid], now);
      Some(sid)
    else None
  }

  /** The compare-and-swap guard of `RotateToken`. */
  predicate CanRotate(t: Sessions, sid: Uuid, oldHash: Hash, now: Time) {
    sid in t && t[sid].tokenHash == oldHash && Active(t[sid], now)
  }

  function Rotated(t: Sessions, sid: Uuid, newHash: Hash, now: Time): Sessions
    requires sid in t
  {
    t[sid := t[sid].(tokenHash := newHash, lastUsedAt := Some(now))]
  }

  function RevokedByHash(t: Sessions, hash: Hash, now: Time): Sessions {
    map sid | sid in t :: if t[sid].tokenHash == hash && t[sid].revokedAt.None? then t[sid].(revokedAt := Some(now)) else t[sid]
  }

  predicate CanRevoke(t: Sessions, sid: Uuid, userId: string) {
    sid in t && t[sid].userId == userId && t[sid].revokedAt.None?
  }

  function Revoked(t: Sessions, sid: Uuid, now: Time): Sessions
    requires sid in t
  {
    t[sid := t[sid].(revokedAt := Some(now))]
  }

  /** The rows of `ListActiveByUser`, as a set. */
  function ActiveOf(t: Sessions, userId: string, now: Time): set<Uuid> {
    set sid | sid in t && t[sid].userId == userId && Active(t[sid], now)
  }

  /** A session is listed exactly if its current token would be found and rotated at that moment. */
  lemma ListingAgreesWithRefreshing(t: Sessions, userId: string, now: Time, sid: Uuid)
    requires UniqueHashes(t) && sid in t
    ensures sid in ActiveOf(t, userId, now) <==>
            && t[sid].userId == userId
            && FindActive(t, t[sid].tokenHash, now) == Some(sid)
            && CanRotate(t, sid, t[sid].tokenHash, now)
  {
  }
}

module SessionRepository {
  import opened Prelude
  import opened SessionStatements

  /** The Postgres repository, one statement per method. A `false` result is ErrSessionNotFound or a violated constraint. */
  class Repository {
    var rows: Sessions

    constructor ()
      ensures rows == map[]
    {
      rows := map[];
    }

    method Create(sid: Uuid, session: Session) returns (ok: bool)
      requires UniqueHashes(rows)
      modifies this
      ensures UniqueHashes(rows)
      ensures ok <==> sid !in old(rows) && !HashTaken(old(rows), session.tokenHash)
      ensures rows == if ok then old(rows)[sid := session] else old(rows)
    {
      ok := sid !in rows && !(exists k | k in rows :: rows[k].tokenHash == session.tokenHash);
      if ok {
        rows := rows[sid := session];
      }
    }

    method FindActiveByTokenHash(hash: Hash, now: Time) returns (sid: Option<Uuid>)
      requires UniqueHashes(rows)
      ensures sid == FindActive(rows, hash, now)
    {
      if exists k | k in rows :: rows[k].tokenHash == hash && Active(rows[k], now) {
        var k :| k in rows && rows[k].tokenHash == hash && Active(rows[k], now);
        sid := Some(k);
      } else {
        sid := None;
      }
    }

    method RotateToken(sid: Uuid, oldHash: Hash, newHash: Hash, now: Time) returns (ok: bool)
      requires UniqueHashes(rows)
      modifies this
      ensures UniqueHashes(rows)
      ensures ok <==>
              && sid in old(rows) && old(rows)[sid].tokenHash == oldHash
              && old(rows)[sid].revokedAt.None? && now < old(rows)[sid].expiresAt
              && (newHash == oldHash || forall k | k in old(rows) :: old(rows)[k].tokenHash != newHash)
      ensures ok ==> rows == old(rows)[sid := old(rows)[sid].(tokenHash := newHash, lastUsedAt := Some(now))]
      ensures ok && newHash != oldHash ==> !HashTaken(rows, oldHash)
      ensures !ok ==> rows == old(rows)
    {
      ok := CanRotate(rows, sid, oldHash, now) && (newHash == oldHash || !(exists k | k in rows :: rows[k].tokenHash == newHash));
      if ok {
        rows := Rotated(rows, sid, newHash, now);
      }
    }

    method RevokeByTokenHash(hash: Hash, now: Time)
      requires UniqueHashes(rows)
      modifies this
      ensures UniqueHashes(rows)
      ensures rows.Keys == old(rows).Keys
      ensures forall sid | sid in rows :: rows[sid] ==
                if old(rows)[sid].tokenHash == hash && old(rows)[sid].revokedAt.None? then old(rows)[sid].(revokedAt := Some(now))
                else old(rows)[sid]
      ensures forall later :: FindActive(rows, hash, later) == None
    {
      rows := RevokedByHash(rows, hash, now);
    }

    method Revoke(sid: Uuid, userId: string, now: Time) returns (ok: bool)
      requires UniqueHashes(rows)
      modifies this
      ensures UniqueHashes(rows)
      ensures ok <==> sid in old(rows) && old(rows)[sid].userId == userId && old(rows)[sid].revokedAt.None?
      ensures rows == if ok then old(rows)[sid := old(rows)[sid].(revokedAt := Some(now))] else old(rows)
      ensures ok ==> forall later :: !Active(rows[sid], later)
    {
      ok := CanRevoke(rows, sid, userId);
      if ok {
        rows := Revoked(rows, sid, now);
      }
    }

    /** Rows arrive newest first and are appended one by one. */
    method ListActiveByUser(userId: string, now: Time) returns (list: seq<Uuid>)
      ensures NewestFirst(rows, list)
      ensures Elements(list) == ActiveOf(rows, userId, now)
    {
      list := [];
      var t, all := rows, ActiveOf(rows, userId, now);
      var rest := all;
      while rest != {}
        invariant all == Elements(list) + rest && all <= t.Keys
        invariant NewestFirst(t, list) && Before(t, list, rest)
        decreases |rest|
      {
        NewestExists(t, rest);
        var sid :| sid in rest && forall other | other in rest :: t[other].createdAt <= t[sid].createdAt;
        AppendNewest(t, list, rest, sid);
        list, rest := list + [sid], rest - {sid};
      }
    }
  }

  /** No duplicates, ordered by creation time, newest first. */
  predicate NewestFirst(t: Sessions, list: seq<Uuid>) {
    && (forall i | 0 <= i < |list| :: list[i] in t)
    && (forall i, j | 0 <= i < j < |list| :: list[i] != list[j] && t[list[i]].createdAt >= t[list[j]].createdAt)
  }

  predicate Before(t: Sessions, list: seq<Uuid>, rest: set<Uuid>) {
    forall sid, other | sid in list && other in rest ::
      sid in t && other in t && sid != other && t[sid].createdAt >= t[other].createdAt
  }

  lemma AppendNewest(t: Sessions, list: seq<Uuid>, rest: set<Uuid>, sid: Uuid)
    requires NewestFirst(t, list) && Before(t, list, rest) && rest <= t.Keys && sid in rest
    requires forall other | other in rest :: t[other].createdAt <= t[sid].createdAt
    ensures NewestFirst(t, list + [sid]) && Before(t, list + [sid], rest - {sid})
    ensures Elements(list + [sid]) + (rest - {sid}) == Elements(list) + rest
  {
  }

  lemma {:induction false} NewestExists(t: Sessions, s: set<Uuid>)
    requires s != {} && s <= t.Keys
    ensures exists sid | sid in s :: forall other | other in s :: t[other].createdAt <= t[sid].createdAt
    decreases |s|
  {
    var x :| x in s;
    if s != {x} {
      NewestExists(t, s - {x});
      var y :| y in s - {x} && forall other | other in s - {x} :: t[other].createdAt <= t[y].createdAt;
      var best := if t[x].createdAt <= t[y].createdAt then y else x;
      assert forall other | other in s :: other == x || other in s - {x};
      assert best in s && forall other | other in s :: t[other].createdAt <= t[best].createdAt;
    }
  }
}
