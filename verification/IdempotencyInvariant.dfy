/**
  What every interleaving keeps, with no assumption about clocks, faults or speed:
  the shape of the table, who may own a row, and where replayed results come from.
 */
module IdempotencyInvariant {
  import opened Prelude
  import opened IdempotencyStatements
  import opened IdempotencyProtocol

  ghost function Ids(reqs: map<Uuid, Req>): set<Uuid> {
    set o | o in reqs :: reqs[o].p.id
  }

  ghost predicate DistinctIds(reqs: map<Uuid, Req>) {
    forall a, b | a in reqs && b in reqs && reqs[a].p.id == reqs[b].p.id :: a == b
  }

  /** An in-progress row has a lock and no result; a completed row has no lock and one result. */
  predicate ColumnsOk(row: Row) {
    match row.state
    case InProgress =>
      row.lockedUntil.Some? && ColumnsOf(row) == Stored("", [], [])
    case Completed =>
      row.lockedUntil.None? && (row.responseType != "") != (row.statusPayload != [])
  }

  /** The result in a completed row is the one its owner's handler returned. */
  predicate CameFrom(cfg: Config, q: Req, row: Row) {
    && q.pc.Done? && q.pc.answer.Handled?
    && Proper(q.pc.answer.result) && !Transient(q.pc.answer.result)
    && Encode(cfg.codec, q.pc.answer.result) == Some(ColumnsOf(row))
  }

  /** A row belongs to the request whose token it bears: same scope, same request, same deadlines. */
  predicate RowOk(cfg: Config, reqs: map<Uuid, Req>, id: Uuid, row: Row) {
    && row.owner in reqs
    && var q := reqs[row.owner];
    && row.scope == q.p.scope && row.requestHash == q.p.requestHash && row.expiresAt == q.p.expiresAt
    && !Acquiring(q.pc)
    && ColumnsOk(row)
    && (row.state == InProgress ==> row.lockedUntil == Some(q.p.lockedUntil))
    && (Holding(q.pc) ==> RecOf(q.pc) == Some(id) && row.state == InProgress)
    && (row.state == Completed ==> CameFrom(cfg, q, row))
  }

  predicate ReplayOk(cfg: Config, reqs: map<Uuid, Req>, q: Req, row: Row, res: Result) {
    && row.owner in reqs
    && var origin := reqs[row.owner];
    && CameFrom(cfg, origin, row)
    && origin.p.scope == q.p.scope && origin.p.requestHash == q.p.requestHash
    && res == ReplayOf(cfg.codec, row)
  }

  predicate PcOk(cfg: Config, reqs: map<Uuid, Req>, q: Req) {
    match q.pc
    case Auditing(_, res) => Proper(res)
    case Settling(_, res) => Proper(res)
    case Done(Replayed(row, res)) => ReplayOk(cfg, reqs, q, row, res)
    case _ => true
  }

  ghost predicate ReqOk(cfg: Config, reqs: map<Uuid, Req>, t: Table, o: Uuid)
    requires o in reqs
  {
    var q := reqs[o];
    && q.p == ParamsFor(cfg, q.input, q.p.id, o, q.p.now)
    && (BeforeInsert(q.pc) ==> q.p.id !in t)
    && (RecOf(q.pc).Some? ==> RecOf(q.pc).value in Ids(reqs))
    && (RecOf(q.pc).Some? && RecOf(q.pc).value in t ==> t[RecOf(q.pc).value].scope == q.p.scope)
    && PcOk(cfg, reqs, q)
  }

  /** An id not yet inserted is mentioned by nobody. */
  predicate Unmentioned(reqs: map<Uuid, Req>) {
    forall o, other | o in reqs && other in reqs && BeforeInsert(reqs[o].pc) ::
      RecOf(reqs[other].pc) != Some(reqs[o].p.id)
  }

  ghost predicate Good(cfg: Config, reqs: map<Uuid, Req>, t: Table) {
    && Unique(t)
    && t.Keys <= Ids(reqs)
    && DistinctIds(reqs)
    && Unmentioned(reqs)
    && (forall o | o in reqs :: ReqOk(cfg, reqs, t, o))
    && (forall id | id in t :: RowOk(cfg, reqs, id, t[id]))
  }

  // ---------------------------------------------------------------- preservation, one kind of change at a time

  function Moved(reqs: map<Uuid, Req>, o: Uuid, pc: Pc): map<Uuid, Req>
    requires o in reqs
  {
    reqs[o := reqs[o].(pc := pc)]
  }

  lemma MovedIds(reqs: map<Uuid, Req>, o: Uuid, pc: Pc)
    requires o in reqs
    ensures Ids(Moved(reqs, o, pc)) == Ids(reqs)
  {
    var reqs' := Moved(reqs, o, pc);
    forall id | id in Ids(reqs) ensures id in Ids(reqs') {
      var k :| k in reqs && reqs[k].p.id == id;
      assert reqs'[k].p.id == id;
    }
    forall id | id in Ids(reqs') ensures id in Ids(reqs) {
      var k :| k in reqs' && reqs'[k].p.id == id;
      assert reqs[k].p.id == id;
    }
  }

  /**
    A move that touches no row: no return to an earlier phase, and a holder keeps its record or is done.
    A request that was still acquiring owns no row yet, so it may start to hold any known record.
   */
  ghost predicate LegalMove(cfg: Config, reqs: map<Uuid, Req>, t: Table, o: Uuid, pc: Pc)
    requires o in reqs
  {
    var q := reqs[o];
    && !q.pc.Done?
    && (BeforeInsert(pc) ==> BeforeInsert(q.pc))
    && (Acquiring(pc) ==> Acquiring(q.pc))
    && (Holding(pc) ==> Acquiring(q.pc) || (Holding(q.pc) && RecOf(pc) == RecOf(q.pc)))
    && (RecOf(pc).Some? ==>
          || RecOf(pc) == RecOf(q.pc)
          || (RecOf(pc) == Some(q.p.id) && q.p.id !in t && !BeforeInsert(pc))
          || (RecOf(pc).value in t && t[RecOf(pc).value].scope == q.p.scope))
    && PcOk(cfg, reqs, q.(pc := pc))
  }

  lemma MoveKeepsReqOk(cfg: Config, reqs: map<Uuid, Req>, t: Table, o: Uuid, pc: Pc, k: Uuid)
    requires o in reqs && k in reqs && LegalMove(cfg, reqs, t, o, pc)
    requires t.Keys <= Ids(reqs) && ReqOk(cfg, reqs, t, k) && ReqOk(cfg, reqs, t, o)
    ensures ReqOk(cfg, Moved(reqs, o, pc), t, k)
  {
    MovedIds(reqs, o, pc);
    assert reqs[o].p.id in Ids(reqs);
  }

  lemma MoveKeepsRowOk(cfg: Config, reqs: map<Uuid, Req>, t: Table, o: Uuid, pc: Pc, id: Uuid)
    requires o in reqs && LegalMove(cfg, reqs, t, o, pc)
    requires id in t && RowOk(cfg, reqs, id, t[id])
    ensures RowOk(cfg, Moved(reqs, o, pc), id, t[id])
  {
  }

  lemma MoveKeepsUnmentioned(cfg: Config, reqs: map<Uuid, Req>, t: Table, o: Uuid, pc: Pc)
    requires o in reqs && LegalMove(cfg, reqs, t, o, pc)
    requires DistinctIds(reqs) && Unmentioned(reqs)
    requires forall k | k in reqs && BeforeInsert(reqs[k].pc) :: reqs[k].p.id !in t
    ensures Unmentioned(Moved(reqs, o, pc))
  {
    var reqs' := Moved(reqs, o, pc);
    forall a, b | a in reqs' && b in reqs' && BeforeInsert(reqs'[a].pc)
      ensures RecOf(reqs'[b].pc) != Some(reqs'[a].p.id)
    {
      assert BeforeInsert(reqs[a].pc);
      assert RecOf(reqs[b].pc) != Some(reqs[a].p.id);
    }
  }

  lemma MoveKeepsRows(cfg: Config, reqs: map<Uuid, Req>, t: Table, o: Uuid, pc: Pc)
    requires o in reqs && LegalMove(cfg, reqs, t, o, pc)
    requires forall id | id in t :: RowOk(cfg, reqs, id, t[id])
    ensures forall id | id in t :: RowOk(cfg, Moved(reqs, o, pc), id, t[id])
  {
    forall id | id in t ensures RowOk(cfg, Moved(reqs, o, pc), id, t[id]) {
      MoveKeepsRowOk(cfg, reqs, t, o, pc, id);
    }
  }

  lemma MoveKeepsReqs(cfg: Config, reqs: map<Uuid, Req>, t: Table, o: Uuid, pc: Pc)
    requires o in reqs && LegalMove(cfg, reqs, t, o, pc) && t.Keys <= Ids(reqs)
    requires forall k | k in reqs :: ReqOk(cfg, reqs, t, k)
    ensures forall k | k in Moved(reqs, o, pc) :: ReqOk(cfg, Moved(reqs, o, pc), t, k)
    ensures forall k | k in reqs && BeforeInsert(reqs[k].pc) :: reqs[k].p.id !in t
  {
    forall k | k in Moved(reqs, o, pc) ensures ReqOk(cfg, Moved(reqs, o, pc), t, k) {
      MoveKeepsReqOk(cfg, reqs, t, o, pc, k);
    }
  }

  lemma MoveKeepsGood(cfg: Config, reqs: map<Uuid, Req>, t: Table, o: Uuid, pc: Pc)
    requires Good(cfg, reqs, t) && o in reqs && LegalMove(cfg, reqs, t, o, pc)
    ensures Good(cfg, Moved(reqs, o, pc), t)
  {
    MoveKeepsReqs(cfg, reqs, t, o, pc);
    MoveKeepsRows(cfg, reqs, t, o, pc);
    MoveKeepsUnmentioned(cfg, reqs, t, o, pc);
    MovedIds(reqs, o, pc);
  }

  lemma DeleteKeepsGood(cfg: Config, reqs: map<Uuid, Req>, t: Table, victims: set<Uuid>)
    requires Good(cfg, reqs, t)
    ensures Good(cfg, reqs, t - victims)
  {
    forall k | k in reqs ensures ReqOk(cfg, reqs, t - victims, k) {
      assert ReqOk(cfg, reqs, t, k);
    }
  }

  lemma WriteKeepsReqOk(cfg: Config, reqs: map<Uuid, Req>, t: Table, id: Uuid, row: Row, k: Uuid)
    requires k in reqs && ReqOk(cfg, reqs, t, k)
    requires BeforeInsert(reqs[k].pc) ==> reqs[k].p.id != id
    requires RecOf(reqs[k].pc) == Some(id) ==> reqs[k].p.scope == row.scope
    ensures ReqOk(cfg, reqs, t[id := row], k)
  {
  }

  lemma WriteKeepsUnique(t: Table, id: Uuid, row: Row)
    requires Unique(t)
    requires forall k | k in t && t[k].scope == row.scope :: k == id
    ensures Unique(t[id := row])
  {
  }

  /** Writing one row that its owner accounts for. */
  lemma WriteKeepsGood(cfg: Config, reqs: map<Uuid, Req>, t: Table, id: Uuid, row: Row)
    requires Good(cfg, reqs, t) && id in Ids(reqs) && RowOk(cfg, reqs, id, row)
    requires forall k | k in t && t[k].scope == row.scope :: k == id
    requires forall k | k in reqs && BeforeInsert(reqs[k].pc) :: reqs[k].p.id != id
    requires forall k | k in reqs && RecOf(reqs[k].pc) == Some(id) :: reqs[k].p.scope == row.scope
    ensures Good(cfg, reqs, t[id := row])
  {
    var t' := t[id := row];
    WriteKeepsUnique(t, id, row);
    forall k | k in reqs ensures ReqOk(cfg, reqs, t', k) {
      WriteKeepsReqOk(cfg, reqs, t, id, row, k);
    }
    forall k | k in t' ensures RowOk(cfg, reqs, k, t'[k]) {
      if k != id {
        assert RowOk(cfg, reqs, k, t[k]);
      }
    }
  }

  lemma OverwriteKeepsGood(cfg: Config, reqs: map<Uuid, Req>, t: Table, id: Uuid, row: Row)
    requires Good(cfg, reqs, t) && id in t && row.scope == t[id].scope && RowOk(cfg, reqs, id, row)
    ensures Good(cfg, reqs, t[id := row])
  {
    forall k | k in reqs
      ensures BeforeInsert(reqs[k].pc) ==> reqs[k].p.id != id
      ensures RecOf(reqs[k].pc) == Some(id) ==> reqs[k].p.scope == row.scope
    {
      assert ReqOk(cfg, reqs, t, k);
    }
    WriteKeepsGood(cfg, reqs, t, id, row);
  }

  /** A fresh reservation under its request's token is accounted for. */
  lemma ReservedRowIsOk(cfg: Config, reqs: map<Uuid, Req>, t: Table, o: Uuid, id: Uuid, pc: Pc)
    requires o in reqs && ReqOk(cfg, reqs, t, o)
    requires pc == Running(Some(id)) || pc == Done(StoreDown)
    ensures RowOk(cfg, Moved(reqs, o, pc), id, Reserved(reqs[o].p.scope, reqs[o].p))
  {
  }

  lemma AcquisitionIsLegal(cfg: Config, reqs: map<Uuid, Req>, t: Table, o: Uuid, id: Uuid, pc: Pc)
    requires o in reqs && Acquiring(reqs[o].pc) && (pc == Running(Some(id)) || pc == Done(StoreDown))
    requires (id == reqs[o].p.id && id !in t) || RecOf(reqs[o].pc) == Some(id)
    ensures LegalMove(cfg, reqs, t, o, pc)
  {
  }

  lemma InsertKeepsGood(cfg: Config, reqs: map<Uuid, Req>, t: Table, o: Uuid, pc: Pc)
    requires Good(cfg, reqs, t) && o in reqs
    requires reqs[o].pc.Inserting? && !HasScope(t, reqs[o].p.scope)
    requires pc == Running(Some(reqs[o].p.id)) || pc == Done(StoreDown)
    ensures Good(cfg, Moved(reqs, o, pc), t[reqs[o].p.id := Reserved(reqs[o].p.scope, reqs[o].p)])
  {
    var id := reqs[o].p.id;
    assert ReqOk(cfg, reqs, t, o);
    AcquisitionIsLegal(cfg, reqs, t, o, id, pc);
    MoveKeepsGood(cfg, reqs, t, o, pc);
    MovedIds(reqs, o, pc);
    assert id in Ids(reqs);
    ReservedRowIsOk(cfg, reqs, t, o, id, pc);
    assert forall k | k in reqs :: RecOf(reqs[k].pc) != Some(id);
    WriteKeepsGood(cfg, Moved(reqs, o, pc), t, id, Reserved(reqs[o].p.scope, reqs[o].p));
  }

  lemma FoundScope(cfg: Config, reqs: map<Uuid, Req>, t: Table, o: Uuid)
    requires o in reqs && ReqOk(cfg, reqs, t, o) && reqs[o].pc.TakingOver? && reqs[o].pc.found in t
    ensures t[reqs[o].pc.found].scope == reqs[o].p.scope
  {
  }

  lemma TakeOverKeepsGood(cfg: Config, reqs: map<Uuid, Req>, t: Table, o: Uuid, pc: Pc)
    requires Good(cfg, reqs, t) && o in reqs
    requires reqs[o].pc.TakingOver? && reqs[o].pc.found in t
    requires pc == Running(Some(reqs[o].pc.found)) || pc == Done(StoreDown)
    ensures t[reqs[o].pc.found].scope == reqs[o].p.scope
    ensures Good(cfg, Moved(reqs, o, pc), t[reqs[o].pc.found := Reserved(reqs[o].p.scope, reqs[o].p)])
  {
    var id := reqs[o].pc.found;
    FoundScope(cfg, reqs, t, o);
    AcquisitionIsLegal(cfg, reqs, t, o, id, pc);
    MoveKeepsGood(cfg, reqs, t, o, pc);
    ReservedRowIsOk(cfg, reqs, t, o, id, pc);
    OverwriteKeepsGood(cfg, Moved(reqs, o, pc), t, id, Reserved(reqs[o].p.scope, reqs[o].p));
  }

  lemma CompleteKeepsGood(cfg: Config, reqs: map<Uuid, Req>, t: Table, o: Uuid, stored: Stored)
    requires Invertible(cfg.codec) && Good(cfg, reqs, t) && o in reqs && reqs[o].pc.Settling?
    requires Owns(t, reqs[o].pc.own, o)
    requires !Transient(reqs[o].pc.result) && Encode(cfg.codec, reqs[o].pc.result) == Some(stored)
    ensures
      var q := reqs[o];
      Good(cfg, Moved(reqs, o, Done(Handled(q.pc.result))), t[q.pc.own := Finished(t[q.pc.own], stored)])
  {
    var q := reqs[o];
    var id, pc := q.pc.own, Done(Handled(q.pc.result));
    var row := Finished(t[id], stored);
    assert ReqOk(cfg, reqs, t, o) && RowOk(cfg, reqs, id, t[id]);
    EncodeReplayRoundTrip(cfg.codec, q.pc.result, row);
    MoveKeepsGood(cfg, reqs, t, o, pc);
    assert RowOk(cfg, Moved(reqs, o, pc), id, row);
    OverwriteKeepsGood(cfg, Moved(reqs, o, pc), t, id, row);
  }

  lemma ArriveIds(reqs: map<Uuid, Req>, o: Uuid, q: Req)
    requires o !in reqs
    ensures Ids(reqs) <= Ids(reqs[o := q])
    ensures DistinctIds(reqs) && q.p.id !in Ids(reqs) ==> DistinctIds(reqs[o := q])
  {
    var reqs' := reqs[o := q];
    forall id | id in Ids(reqs) ensures id in Ids(reqs') {
      var k :| k in reqs && reqs[k].p.id == id;
      assert reqs'[k].p.id == id;
    }
    assert forall k | k in reqs :: reqs[k].p.id in Ids(reqs);
  }

  lemma ArriveKeepsReqOk(cfg: Config, reqs: map<Uuid, Req>, t: Table, o: Uuid, q: Req, k: Uuid)
    requires o !in reqs && k in reqs && ReqOk(cfg, reqs, t, k)
    requires q.p.id !in Ids(reqs)
    ensures ReqOk(cfg, reqs[o := q], t, k) && RecOf(reqs[k].pc) != Some(q.p.id)
  {
    ArriveIds(reqs, o, q);
  }

  lemma ArriveKeepsRowOk(cfg: Config, reqs: map<Uuid, Req>, o: Uuid, q: Req, id: Uuid, row: Row)
    requires o !in reqs && RowOk(cfg, reqs, id, row)
    ensures RowOk(cfg, reqs[o := q], id, row)
  {
  }

  lemma ArriveKeepsUnmentioned(cfg: Config, reqs: map<Uuid, Req>, o: Uuid, q: Req)
    requires Unmentioned(reqs) && o !in reqs && q.pc == Entry(cfg, q.input)
    requires forall b | b in reqs :: RecOf(reqs[b].pc) != Some(q.p.id)
    ensures Unmentioned(reqs[o := q])
  {
  }

  lemma ArriveKeepsGood(cfg: Config, reqs: map<Uuid, Req>, t: Table, o: Uuid, q: Req)
    requires Good(cfg, reqs, t) && o !in reqs && q.p.id !in Ids(reqs)
    requires q.p == ParamsFor(cfg, q.input, q.p.id, o, q.p.now) && q.pc == Entry(cfg, q.input)
    ensures Good(cfg, reqs[o := q], t)
  {
    var reqs' := reqs[o := q];
    forall k | k in reqs ensures ReqOk(cfg, reqs', t, k) && RecOf(reqs[k].pc) != Some(q.p.id) {
      ArriveKeepsReqOk(cfg, reqs, t, o, q, k);
    }
    assert ReqOk(cfg, reqs', t, o);
    forall id | id in t ensures RowOk(cfg, reqs', id, t[id]) {
      ArriveKeepsRowOk(cfg, reqs, o, q, id, t[id]);
    }
    ArriveKeepsUnmentioned(cfg, reqs, o, q);
    ArriveIds(reqs, o, q);
  }

  // ---------------------------------------------------------------- every step, every run

  /** Moving on without a record, or giving up, is always legal. */
  lemma PlainMoveIsLegal(cfg: Config, reqs: map<Uuid, Req>, t: Table, o: Uuid, pc: Pc)
    requires o in reqs && Acquiring(reqs[o].pc)
    requires pc.LookingUp? || pc.LookingAgain? || pc == Done(StoreDown)
    ensures LegalMove(cfg, reqs, t, o, pc)
  {
  }

  /** Answers drawn from a row are faithful to that row's owner. */
  lemma LookupMoveIsLegal(cfg: Config, reqs: map<Uuid, Req>, t: Table, o: Uuid, id: Uuid, pc: Pc)
    requires o in reqs && id in t && t[id].scope == reqs[o].p.scope && RowOk(cfg, reqs, id, t[id])
    requires reqs[o].pc.LookingUp? || reqs[o].pc.LookingAgain?
    requires pc == TakingOver(id) || pc == Done(AnswerFrom(cfg, t[id], reqs[o].p))
    ensures LegalMove(cfg, reqs, t, o, pc)
  {
  }

  lemma SettleKeepsGood(cfg: Config, s: State, o: Uuid, fault: Fault)
    requires Invertible(cfg.codec) && Good(cfg, s.reqs, s.table)
    requires o in s.reqs && s.reqs[o].pc.Settling?
    ensures
      var e := SettleEffect(cfg, s.table, s.reqs[o], o, fault);
      Good(cfg, Moved(s.reqs, o, e.pc), e.table)
  {
    var q := s.reqs[o];
    var e := SettleEffect(cfg, s.table, q, o, fault);
    assert ReqOk(cfg, s.reqs, s.table, o);
    if fault != Refused && Transient(q.pc.result) {
      if Owns(s.table, q.pc.own, o) {
        DeleteKeepsGood(cfg, s.reqs, s.table, {q.pc.own});
      }
      MoveKeepsGood(cfg, s.reqs, e.table, o, e.pc);
    } else if fault != Refused && Encode(cfg.codec, q.pc.result).Some? && Owns(s.table, q.pc.own, o) {
      CompleteKeepsGood(cfg, s.reqs, s.table, o, Encode(cfg.codec, q.pc.result).value);
    } else {
      MoveKeepsGood(cfg, s.reqs, s.table, o, e.pc);
    }
  }

  lemma InsertStepKeepsGood(cfg: Config, s: State, o: Uuid, fault: Fault)
    requires Good(cfg, s.reqs, s.table) && o in s.reqs && s.reqs[o].pc.Inserting?
    ensures
      var e := InsertEffect(s.table, s.reqs[o].p, fault);
      Good(cfg, Moved(s.reqs, o, e.pc), e.table)
  {
    var q := s.reqs[o];
    var e := InsertEffect(s.table, q.p, fault);
    if !HasScope(s.table, q.p.scope) && q.p.id !in s.table && fault != Refused {
      InsertKeepsGood(cfg, s.reqs, s.table, o, e.pc);
    } else {
      PlainMoveIsLegal(cfg, s.reqs, s.table, o, e.pc);
      MoveKeepsGood(cfg, s.reqs, s.table, o, e.pc);
    }
  }

  /** A lookup gives up, or moves on from the row it found. */
  ghost predicate FromRow(cfg: Config, t: Table, p: Params, pc: Pc) {
    || pc == Done(StoreDown)
    || exists id | id in t && t[id].scope == p.scope :: pc == TakingOver(id) || pc == Done(AnswerFrom(cfg, t[id], p))
  }

  lemma LookupShape(cfg: Config, t: Table, p: Params, fault: Fault)
    ensures LookupEffect(cfg, t, p, fault).table == LookupAgainEffect(cfg, t, p, fault).table == t
    ensures FromRow(cfg, t, p, LookupEffect(cfg, t, p, fault).pc)
    ensures FromRow(cfg, t, p, LookupAgainEffect(cfg, t, p, fault).pc)
  {
  }

  lemma LookupStepKeepsGood(cfg: Config, s: State, o: Uuid, pc: Pc)
    requires Good(cfg, s.reqs, s.table) && o in s.reqs
    requires s.reqs[o].pc.LookingUp? || s.reqs[o].pc.LookingAgain?
    requires FromRow(cfg, s.table, s.reqs[o].p, pc)
    ensures Good(cfg, Moved(s.reqs, o, pc), s.table)
  {
    if pc == Done(StoreDown) {
      PlainMoveIsLegal(cfg, s.reqs, s.table, o, pc);
    } else {
      var id :| id in s.table && s.table[id].scope == s.reqs[o].p.scope &&
                (pc == TakingOver(id) || pc == Done(AnswerFrom(cfg, s.table[id], s.reqs[o].p)));
      LookupMoveIsLegal(cfg, s.reqs, s.table, o, id, pc);
    }
    MoveKeepsGood(cfg, s.reqs, s.table, o, pc);
  }

  lemma TakeOverStepKeepsGood(cfg: Config, s: State, o: Uuid, fault: Fault)
    requires Good(cfg, s.reqs, s.table) && o in s.reqs && s.reqs[o].pc.TakingOver?
    ensures
      var e := TakeOverEffect(s.table, s.reqs[o].pc.found, s.reqs[o].p, fault);
      Good(cfg, Moved(s.reqs, o, e.pc), e.table)
  {
    var q := s.reqs[o];
    var e := TakeOverEffect(s.table, q.pc.found, q.p, fault);
    if CanTakeOver(s.table, q.pc.found, q.p) && fault != Refused {
      TakeOverKeepsGood(cfg, s.reqs, s.table, o, e.pc);
    } else {
      PlainMoveIsLegal(cfg, s.reqs, s.table, o, e.pc);
      MoveKeepsGood(cfg, s.reqs, s.table, o, e.pc);
    }
  }

  lemma AcquireStepKeepsGood(cfg: Config, s: State, a: Action)
    requires Good(cfg, s.reqs, s.table) && Enabled(s, a)
    requires a.Insert? || a.Lookup? || a.TakeOver? || a.LookupAgain?
    ensures Good(cfg, Next(cfg, s, a).reqs, Next(cfg, s, a).table)
  {
    match a
    case Insert(who, fault) =>
      InsertStepKeepsGood(cfg, s, who, fault);
    case TakeOver(who, fault) =>
      TakeOverStepKeepsGood(cfg, s, who, fault);
    case Lookup(who, fault) =>
      LookupShape(cfg, s.table, s.reqs[who].p, fault);
      LookupStepKeepsGood(cfg, s, who, LookupEffect(cfg, s.table, s.reqs[who].p, fault).pc);
    case LookupAgain(who, fault) =>
      LookupShape(cfg, s.table, s.reqs[who].p, fault);
      LookupStepKeepsGood(cfg, s, who, LookupAgainEffect(cfg, s.table, s.reqs[who].p, fault).pc);
  }

  lemma HandlerMoveIsLegal(cfg: Config, reqs: map<Uuid, Req>, t: Table, o: Uuid, res: Result)
    requires o in reqs && ReqOk(cfg, reqs, t, o)
    ensures reqs[o].pc.Running? && Proper(res) ==> LegalMove(cfg, reqs, t, o, Auditing(reqs[o].pc.rec, res))
    ensures reqs[o].pc.Auditing? ==> LegalMove(cfg, reqs, t, o, AuditEffect(t, reqs[o], o).pc)
  {
  }

  lemma HandlerStepKeepsGood(cfg: Config, s: State, a: Action)
    requires Invertible(cfg.codec) && Good(cfg, s.reqs, s.table) && Enabled(s, a)
    requires a.Return? || a.Audit? || a.Settle?
    ensures Good(cfg, Next(cfg, s, a).reqs, Next(cfg, s, a).table)
  {
    match a
    case Return(who, res) =>
      HandlerMoveIsLegal(cfg, s.reqs, s.table, who, res);
      MoveKeepsGood(cfg, s.reqs, s.table, who, Auditing(s.reqs[who].pc.rec, res));
    case Audit(who) =>
      HandlerMoveIsLegal(cfg, s.reqs, s.table, who, s.reqs[who].pc.result);
      MoveKeepsGood(cfg, s.reqs, s.table, who, AuditEffect(s.table, s.reqs[who], who).pc);
    case Settle(who, fault) =>
      SettleKeepsGood(cfg, s, who, fault);
  }

  lemma FreshId(reqs: map<Uuid, Req>, id: Uuid)
    requires forall o | o in reqs :: reqs[o].p.id != id
    ensures id !in Ids(reqs)
  {
  }

  lemma StepKeepsGood(cfg: Config, s: State, a: Action)
    requires Invertible(cfg.codec) && Good(cfg, s.reqs, s.table) && Enabled(s, a)
    ensures Good(cfg, Next(cfg, s, a).reqs, Next(cfg, s, a).table)
  {
    match a
    case Tick(_) =>
    case Arrive(who, input, id, now) =>
      FreshId(s.reqs, id);
      ArriveKeepsGood(cfg, s.reqs, s.table, who, Req(input, ParamsFor(cfg, input, id, who, now), Entry(cfg, input)));
    case Cleanup(who, victims) =>
      assert ReqOk(cfg, s.reqs, s.table, who);
      DeleteKeepsGood(cfg, s.reqs, s.table, victims);
      MoveKeepsGood(cfg, s.reqs, s.table - victims, who, Inserting);
    case Return(_, _) => HandlerStepKeepsGood(cfg, s, a);
    case Audit(_) => HandlerStepKeepsGood(cfg, s, a);
    case Settle(_, _) => HandlerStepKeepsGood(cfg, s, a);
    case _ => AcquireStepKeepsGood(cfg, s, a);
  }

  /** The invariant holds in every state of every run. */
  lemma {:induction false} RunsAreGood(cfg: Config, states: seq<State>, acts: seq<Action>, i: nat)
    requires Invertible(cfg.codec) && IsRun(cfg, states, acts) && i < |states|
    ensures Good(cfg, states[i].reqs, states[i].table)
  {
    if i > 0 {
      RunsAreGood(cfg, states, acts, i - 1);
      StepKeepsGood(cfg, states[i - 1], acts[i - 1]);
    }
  }
}
