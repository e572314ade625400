/**
  The reservation table and the statements issued against it
  (internal/infrastructure/persistence/postgres/idempotency_store.go, migrations/000006).

  Each SQL statement is one atomic function from table to table. `IdempotencyStore` strings them
  together as the Go methods do; `IdempotencyProtocol` interleaves the same statements between requests.
 */
module IdempotencyStatements {
  import opened Prelude

  type Hash = Bytes

  datatype Scope = Scope(actor: string, rpcMethod: string, keyHash: Hash)

  datatype RowState = InProgress | Completed

  /** A row, column by column. An empty response type or payload stands for NULL, as the code reads it back. */
  datatype Row = Row(
    scope: Scope,
    requestHash: Hash,
    state: RowState,
    owner: Uuid,
    responseType: string,
    responsePayload: Bytes,
    statusPayload: Bytes,
    lockedUntil: Option<Time>,
    expiresAt: Time)

  /** Rows by primary key. That a scope has at most one row is proved, not built in. */
  type Table = map<Uuid, Row>

  datatype Params = Params(
    id: Uuid, scope: Scope, requestHash: Hash, owner: Uuid,
    now: Time, lockedUntil: Time, expiresAt: Time)

  datatype Stored = Stored(responseType: string, responsePayload: Bytes, statusPayload: Bytes)

  datatype Disposition = Acquired | Replay | Conflict | Busy

  predicate Unique(t: Table) {
    forall a, b | a in t && b in t && t[a].scope == t[b].scope :: a == b
  }

  predicate HasScope(t: Table, scope: Scope) {
    exists id | id in t :: t[id].scope == scope
  }

  /** `find`: the row of a scope. */
  ghost function Find(t: Table, scope: Scope): (r: Option<Uuid>)
    ensures r.Some? ==> r.value in t && t[r.value].scope == scope
    ensures r.None? <==> !HasScope(t, scope)
  {
    if HasScope(t, scope) then
      var id :| id in t && t[id].scope == scope;
      Some(id)
    else None
  }

  lemma FindIs(t: Table, id: Uuid)
    requires Unique(t) && id in t
    ensures Find(t, t[id].scope) == Some(id)
  {
  }

  /** The takeover guard, in Go and in SQL: the record expired, or its lock did. */
  predicate Stale(row: Row, now: Time) {
    || row.expiresAt <= now
    || (row.state == InProgress && row.lockedUntil.Some? && row.lockedUntil.value <= now)
  }

  function Reserved(scope: Scope, p: Params): Row {
    Row(scope, p.requestHash, InProgress, p.owner, "", [], [], Some(p.lockedUntil), p.expiresAt)
  }

  /** `UPDATE ... WHERE id=$6 AND (expired OR lock expired)`: which row is updated, if any. */
  predicate CanTakeOver(t: Table, id: Uuid, p: Params) {
    id in t && Stale(t[id], p.now)
  }

  /** The guard shared by `Complete` and `Release`: id, owner token and state. */
  predicate Owns(t: Table, id: Uuid, owner: Uuid) {
    id in t && t[id].owner == owner && t[id].state == InProgress
  }

  function Finished(row: Row, stored: Stored): Row {
    row.(state := Completed, responseType := stored.responseType, responsePayload := stored.responsePayload,
         statusPayload := stored.statusPayload, lockedUntil := None)
  }

  function CompleteStatement(t: Table, id: Uuid, owner: Uuid, stored: Stored): Table {
    if Owns(t, id, owner) then t[id := Finished(t[id], stored)] else t
  }

  function ReleaseStatement(t: Table, id: Uuid, owner: Uuid): Table {
    if Owns(t, id, owner) then t - {id} else t
  }

  predicate Expired(t: Table, victims: set<Uuid>, now: Time) {
    forall id | id in victims :: id in t && t[id].expiresAt <= now
  }

  /** What `cleanupExpired` may delete: up to 100 expired rows, the oldest first; nothing if the statement fails. */
  predicate Victims(t: Table, victims: set<Uuid>, now: Time) {
    || victims == {}
    || (&& Expired(t, victims, now)
        && |victims| <= 100
        && (forall id, other | id in victims && other in t && other !in victims && t[other].expiresAt <= now ::
              |victims| == 100 && t[id].expiresAt <= t[other].expiresAt))
  }

  /** How a record that is not taken over is answered. */
  function Judge(row: Row, p: Params): Disposition {
    if row.requestHash != p.requestHash then Conflict
    else if row.state == Completed then Replay
    else Busy
  }

  datatype Outcome = Outcome(table: Table, disposition: Disposition, id: Uuid)

  /** The decision `Acquire` is meant to make, taken in one step. */
  ghost function AtomicAcquire(t: Table, p: Params): Outcome {
    match Find(t, p.scope)
    case None => Outcome(t[p.id := Reserved(p.scope, p)], Acquired, p.id)
    case Some(id) =>
      if Stale(t[id], p.now) then Outcome(t[id := Reserved(t[id].scope, p)], Acquired, id)
      else Outcome(t, Judge(t[id], p), id)
  }

  /** Deleting expired rows first changes no decision, nor the row the decision is about (up to its id). */
  lemma CleanupIsInvisible(t: Table, victims: set<Uuid>, p: Params)
    requires Unique(t) && Expired(t, victims, p.now) && p.id !in t
    ensures Unique(t - victims)
    ensures
      var with, without := AtomicAcquire(t - victims, p), AtomicAcquire(t, p);
      && with.disposition == without.disposition
      && with.table[with.id] == without.table[without.id]
      && (with.disposition != Acquired ==> with.id == without.id)
  {
    match Find(t, p.scope)
    case None =>
      assert Find(t - victims, p.scope) == None;
    case Some(id) =>
      if id in victims {
        assert forall k | k in t - victims :: t[k].scope == p.scope ==> k == id;
        assert Find(t - victims, p.scope) == None;
      } else {
        assert id in t - victims;
        FindIs(t - victims, id);
      }
  }

  /** A reservation or result still in force survives every cleanup. */
  lemma CleanupSparesLiveRows(t: Table, victims: set<Uuid>, now: Time, id: Uuid)
    requires Victims(t, victims, now) && id in t
    requires t[id].expiresAt > now ||
             (t[id].lockedUntil.Some? && now < t[id].lockedUntil.value < t[id].expiresAt)
    ensures id in t - victims && (t - victims)[id] == t[id]
  {
  }
}

module IdempotencyStore {
  import opened Prelude
  import opened IdempotencyStatements

  datatype AcquireResult = Decided(id: Uuid, record: Row, disposition: Disposition) | PrimaryKeyTaken

  predicate OlderThan(t: Table, victims: set<Uuid>, rest: set<Uuid>) {
    forall id, other | id in victims && other in rest :: id in t && other in t && t[id].expiresAt <= t[other].expiresAt
  }

  lemma {:induction false} OldestExists(t: Table, ids: set<Uuid>)
    requires ids != {} && forall id | id in ids :: id in t
    ensures exists id | id in ids :: forall other | other in ids :: t[id].expiresAt <= t[other].expiresAt
    decreases |ids|
  {
    var x :| x in ids;
    if ids != {x} {
      OldestExists(t, ids - {x});
      var y :| y in ids - {x} && forall other | other in ids - {x} :: t[y].expiresAt <= t[other].expiresAt;
      var best := if t[x].expiresAt <= t[y].expiresAt then x else y;
      assert forall other | other in ids :: other == x || other in ids - {x};
      assert best in ids && forall other | other in ids :: t[best].expiresAt <= t[other].expiresAt;
    }
  }

  lemma AddOldest(t: Table, victims: set<Uuid>, rest: set<Uuid>, id: Uuid)
    requires OlderThan(t, victims, rest) && id in rest && forall other | other in rest :: other in t
    requires forall other | other in rest :: t[id].expiresAt <= t[other].expiresAt
    ensures OlderThan(t, victims + {id}, rest - {id})
  {
  }

  /** SELECT id ... WHERE expires_at <= now ORDER BY expires_at LIMIT 100. */
  method SelectExpired(t: Table, now: Time) returns (victims: set<Uuid>)
    ensures Victims(t, victims, now)
    ensures |victims| <= 100 && forall id | id in victims :: id in t && t[id].expiresAt <= now
    ensures |victims| == 100 || forall id | id in t && t[id].expiresAt <= now :: id in victims
    ensures forall id, other | id in victims && other in t && other !in victims && t[other].expiresAt <= now ::
              t[id].expiresAt <= t[other].expiresAt
  {
    victims := {};
    var rest := set id | id in t && t[id].expiresAt <= now;
    while |victims| < 100 && rest != {}
      invariant |victims| <= 100 && Expired(t, victims, now) && OlderThan(t, victims, rest)
      invariant forall id | id in t && t[id].expiresAt <= now :: id in victims || id in rest
      invariant forall id | id in rest :: id in t && id !in victims && t[id].expiresAt <= now
      decreases |rest|
    {
      OldestExists(t, rest);
      var id :| id in rest && forall other | other in rest :: t[id].expiresAt <= t[other].expiresAt;
      AddOldest(t, victims, rest, id);
      victims, rest := victims + {id}, rest - {id};
    }
  }

  /** The Postgres store run by a single caller: no other statement comes between its own. */
  class Store {
    var rows: Table

    constructor ()
      ensures rows == map[]
    {
      rows := map[];
    }

    /**
      `cleanupExpired`: the oldest expired rows go, at most 100, and all of them if there are no more than that.
      A statement that fails goes unnoticed.
     */
    method CleanupExpired(now: Time, fails: bool) returns (victims: set<Uuid>)
      modifies this
      ensures Victims(old(rows), victims, now) && rows == old(rows) - victims && |victims| <= 100
      ensures !fails ==> |victims| == 100 || forall id | id in rows :: rows[id].expiresAt > now
      ensures forall id | id in old(rows) && old(rows)[id].expiresAt > now :: id in rows && rows[id] == old(rows)[id]
    {
      victims := {};
      if !fails {
        victims := SelectExpired(rows, now);
      }
      assert rows - {} == rows;
      rows := rows - victims;
    }

    method FindRecord(scope: Scope) returns (id: Option<Uuid>)
      requires Unique(rows)
      ensures id == Find(rows, scope)
    {
      if exists id | id in rows :: rows[id].scope == scope {
        var found :| found in rows && rows[found].scope == scope;
        FindIs(rows, found);
        id := Some(found);
      } else {
        id := None;
      }
    }

    method Acquire(p: Params, cleanupFails: bool) returns (r: AcquireResult, victims: set<Uuid>)
      requires Unique(rows)
      modifies this
      ensures Unique(rows) && Victims(old(rows), victims, p.now)
      ensures r.PrimaryKeyTaken? <==> p.id in old(rows) - victims && !HasScope(old(rows) - victims, p.scope)
      ensures r.PrimaryKeyTaken? ==> rows == old(rows) - victims
      ensures r.Decided? ==>
        var want := AtomicAcquire(old(rows) - victims, p);
        rows == want.table && r == Decided(want.id, rows[want.id], want.disposition)
      ensures p.id !in old(rows) ==> r.Decided? && r.disposition == AtomicAcquire(old(rows), p).disposition
    {
      victims := CleanupExpired(p.now, cleanupFails);
      var clean := rows;
      if p.id !in old(rows) {
        CleanupIsInvisible(old(rows), victims, p);
      }
      var found := FindRecord(p.scope);
      if found == None {
        if p.id in rows {
          return PrimaryKeyTaken, victims;
        }
        rows := rows[p.id := Reserved(p.scope, p)];
        return Decided(p.id, rows[p.id], Acquired), victims;
      }
      assert HasScope(clean, p.scope);
      var id := found.value;
      var record := rows[id];
      if record.expiresAt <= p.now || (record.state == InProgress && record.lockedUntil.Some? && record.lockedUntil.value <= p.now) {
        if CanTakeOver(rows, id, p) {
          rows := rows[id := Reserved(rows[id].scope, p)];
          return Decided(id, rows[id], Acquired), victims;
        }
      }
      if record.requestHash != p.requestHash {
        return Decided(id, record, Conflict), victims;
      }
      if record.state == Completed {
        return Decided(id, record, Replay), victims;
      }
      return Decided(id, record, Busy), victims;
    }

    method Complete(id: Uuid, owner: Uuid, stored: Stored) returns (ok: bool)
      modifies this
      ensures ok <==> Owns(old(rows), id, owner)
      ensures rows == CompleteStatement(old(rows), id, owner, stored)
      ensures ok ==> rows[id].state == Completed && rows[id].expiresAt == old(rows[id].expiresAt)
      ensures !ok ==> rows == old(rows)
    {
      ok := Owns(rows, id, owner);
      rows := CompleteStatement(rows, id, owner, stored);
    }

    method Release(id: Uuid, owner: Uuid)
      modifies this
      ensures rows == ReleaseStatement(old(rows), id, owner)
      ensures !Owns(rows, id, owner)
    {
      rows := ReleaseStatement(rows, id, owner);
    }
  }
}
