/** What the invariant means for callers: table shape, replay fidelity, fencing, frozen results, no stuck keys. */
module IdempotencyTheorems {
  import opened Prelude
  import opened IdempotencyStatements
  import opened IdempotencyProtocol
  import opened IdempotencyInvariant

  /**
    In every reachable state a scope has at most one row; an in-progress row has a lock ending before
    the row expires and no result; a completed row has a response type or a status payload, never both.
   */
  lemma ReachableTables(cfg: Config, states: seq<State>, acts: seq<Action>, i: nat)
    requires ValidTiming(cfg) && Invertible(cfg.codec) && IsRun(cfg, states, acts) && i < |states|
    ensures
      var t := states[i].table;
      && (forall a, b | a in t && b in t && t[a].scope == t[b].scope :: a == b)
      && (forall id | id in t && t[id].state == InProgress ::
            && t[id].lockedUntil.Some? && t[id].lockedUntil.value < t[id].expiresAt
            && t[id].responseType == "" && t[id].responsePayload == [] && t[id].statusPayload == [])
      && (forall id | id in t && t[id].state == Completed ::
            t[id].lockedUntil.None? && (t[id].responseType != "") != (t[id].statusPayload != []))
  {
    RunsAreGood(cfg, states, acts, i);
    var t := states[i].table;
    forall id | id in t
      ensures ColumnsOk(t[id])
      ensures t[id].state == InProgress ==> t[id].lockedUntil.value < t[id].expiresAt
    {
      assert RowOk(cfg, states[i].reqs, id, t[id]);
      assert ReqOk(cfg, states[i].reqs, t, t[id].owner);
    }
  }

  /**
    Whoever is answered by a replay gets exactly what another request's handler returned, and that request
    had the same actor, method, key and body.
   */
  lemma ReplayFidelity(cfg: Config, states: seq<State>, acts: seq<Action>, i: nat, o: Uuid)
    requires Invertible(cfg.codec) && Injective(cfg.sha)
    requires IsRun(cfg, states, acts) && i < |states|
    requires o in states[i].reqs && states[i].reqs[o].pc.Done? && states[i].reqs[o].pc.answer.Replayed?
    ensures
      var reqs := states[i].reqs;
      var q := reqs[o];
      && q.pc.answer.row.owner in reqs
      && var origin := reqs[q.pc.answer.row.owner];
      && origin.pc == Done(Handled(q.pc.answer.result))
      && origin.input.actor == q.input.actor && origin.input.rpcMethod == q.input.rpcMethod
      && origin.input.key == q.input.key && origin.input.body == q.input.body
  {
    RunsAreGood(cfg, states, acts, i);
    var reqs := states[i].reqs;
    var q := reqs[o];
    var row := q.pc.answer.row;
    assert ReqOk(cfg, reqs, states[i].table, o);
    var origin := reqs[row.owner];
    assert ReqOk(cfg, reqs, states[i].table, row.owner);
    EncodeReplayRoundTrip(cfg.codec, origin.pc.answer.result, row);
  }

  /** All replays of one reservation agree. */
  lemma ReplaysAgree(cfg: Config, states: seq<State>, acts: seq<Action>, i: nat, a: Uuid, b: Uuid)
    requires Invertible(cfg.codec) && Injective(cfg.sha)
    requires IsRun(cfg, states, acts) && i < |states|
    requires a in states[i].reqs && states[i].reqs[a].pc.Done? && states[i].reqs[a].pc.answer.Replayed?
    requires b in states[i].reqs && states[i].reqs[b].pc.Done? && states[i].reqs[b].pc.answer.Replayed?
    requires states[i].reqs[a].pc.answer.row.owner == states[i].reqs[b].pc.answer.row.owner
    ensures states[i].reqs[a].pc.answer.result == states[i].reqs[b].pc.answer.result
  {
    ReplayFidelity(cfg, states, acts, i, a);
    ReplayFidelity(cfg, states, acts, i, b);
  }

  // ---------------------------------------------------------------- fencing

  /** Still working on a record, but the reservation under its token is gone. */
  predicate Lost(s: State, o: Uuid) {
    && o in s.reqs && Holding(s.reqs[o].pc)
    && !Owns(s.table, RecOf(s.reqs[o].pc).value, o)
  }

  /** A statement writes no token but its own request's, so another request's reservation is never recreated. */
  lemma OthersCannotRestore(t: Table, q: Req, a: Action, t': Table, id: Uuid, o: Uuid)
    requires IsOwnStep(a) && AtPc(q.pc, a) && TableStep(t, q, a, t') && q.p.owner != o
    requires !Owns(t, id, o)
    ensures !Owns(t', id, o)
  {
  }

  lemma HolderCannotRestore(cfg: Config, s: State, a: Action, o: Uuid)
    requires Enabled(s, a) && IsOwnStep(a) && a.who == o && Lost(s, o)
    ensures Next(cfg, s, a).table == s.table
    ensures Next(cfg, s, a).reqs[o].pc.Done? || Lost(Next(cfg, s, a), o)
    ensures a.Settle? ==> Next(cfg, s, a).log == s.log
  {
  }

  lemma LostStaysLost(cfg: Config, s: State, a: Action, o: Uuid)
    requires Enabled(s, a) && Lost(s, o)
    requires IsOwnStep(a) ==> s.reqs[a.who].p.owner == a.who
    ensures Lost(Next(cfg, s, a), o) || Next(cfg, s, a).reqs[o].pc.Done?
  {
    if IsOwnStep(a) {
      if a.who == o {
        HolderCannotRestore(cfg, s, a, o);
      } else {
        StepShape(cfg, s, a);
        OthersCannotRestore(s.table, s.reqs[a.who], a, Next(cfg, s, a).table, RecOf(s.reqs[o].pc).value, o);
      }
    }
  }

  lemma TokensAreOwn(cfg: Config, s: State, a: Action)
    requires Good(cfg, s.reqs, s.table) && Enabled(s, a) && IsOwnStep(a)
    ensures s.reqs[a.who].p.owner == a.who
    ensures BeforeInsert(s.reqs[a.who].pc) ==> s.reqs[a.who].p.id !in s.table
  {
    assert ReqOk(cfg, s.reqs, s.table, a.who);
  }

  /** What a step of another request does to a row that `o` owns. */
  lemma WhatLosesARow(t: Table, q: Req, a: Action, t': Table, id: Uuid, o: Uuid)
    requires IsOwnStep(a) && AtPc(q.pc, a) && TableStep(t, q, a, t') && q.p.owner == a.who != o
    requires Owns(t, id, o)
    ensures Owns(t', id, o) <==>
            !(|| (a.Cleanup? && id in a.victims)
              || (a.TakeOver? && q.pc.found == id && a.fault != Refused && Stale(t[id], q.p.now)))
  {
  }

  /** Exactly the takeovers and cleanups of its row cost another request its reservation. */
  lemma WhatLosesAReservation(cfg: Config, s: State, a: Action, o: Uuid)
    requires Good(cfg, s.reqs, s.table) && Enabled(s, a) && IsOwnStep(a) && a.who != o
    requires o in s.reqs && Holding(s.reqs[o].pc) && Owns(s.table, RecOf(s.reqs[o].pc).value, o)
    ensures
      var id, q := RecOf(s.reqs[o].pc).value, s.reqs[a.who];
      Lost(Next(cfg, s, a), o) <==>
      || (a.Cleanup? && id in a.victims)
      || (a.TakeOver? && q.pc.found == id && a.fault != Refused && Stale(s.table[id], q.p.now))
  {
    TokensAreOwn(cfg, s, a);
    StepShape(cfg, s, a);
    WhatLosesARow(s.table, s.reqs[a.who], a, Next(cfg, s, a).table, RecOf(s.reqs[o].pc).value, o);
  }

  /**
    Fencing over whole runs: once a reservation is lost, its old owner's `Complete` or `Release`, whenever
    it comes, changes neither the table nor the history.
   */
  lemma {:induction false} Fencing(cfg: Config, states: seq<State>, acts: seq<Action>, o: Uuid, i: nat, j: nat)
    requires Invertible(cfg.codec) && IsRun(cfg, states, acts) && i <= j < |states|
    requires Lost(states[i], o)
    ensures Lost(states[j], o) || (o in states[j].reqs && states[j].reqs[o].pc.Done?)
    ensures j < |acts| && acts[j].Settle? && acts[j].who == o ==>
            states[j + 1].table == states[j].table && states[j + 1].log == states[j].log
  {
    if i < j {
      Fencing(cfg, states, acts, o, i, j - 1);
      FencingStep(cfg, states, acts, o, j - 1);
    }
    if j < |acts| && acts[j].Settle? && acts[j].who == o {
      HolderCannotRestore(cfg, states[j], acts[j], o);
    }
  }

  lemma FencingStep(cfg: Config, states: seq<State>, acts: seq<Action>, o: Uuid, j: nat)
    requires Invertible(cfg.codec) && IsRun(cfg, states, acts) && j < |acts|
    requires Lost(states[j], o) || (o in states[j].reqs && states[j].reqs[o].pc.Done?)
    ensures Lost(states[j + 1], o) || (o in states[j + 1].reqs && states[j + 1].reqs[o].pc.Done?)
  {
    var s, a := states[j], acts[j];
    RunsAreGood(cfg, states, acts, j);
    if IsOwnStep(a) {
      TokensAreOwn(cfg, s, a);
    }
    if Lost(s, o) {
      LostStaysLost(cfg, s, a, o);
    }
  }

  // ---------------------------------------------------------------- stored results are frozen

  lemma CompletedRowSurvives(t: Table, q: Req, a: Action, t': Table, id: Uuid)
    requires IsOwnStep(a) && AtPc(q.pc, a) && TableStep(t, q, a, t')
    requires a.Cleanup? ==> Victims(t, a.victims, q.p.now)
    requires id in t && t[id].state == Completed && (Acquiring(q.pc) ==> q.p.now < t[id].expiresAt)
    ensures id in t' && t'[id] == t[id]
  {
  }

  lemma CompletedRowStep(cfg: Config, s: State, a: Action, id: Uuid)
    requires Enabled(s, a) && id in s.table && s.table[id].state == Completed
    requires IsOwnStep(a) && Acquiring(s.reqs[a.who].pc) ==> s.reqs[a.who].p.now < s.table[id].expiresAt
    ensures id in Next(cfg, s, a).table && Next(cfg, s, a).table[id] == s.table[id]
  {
    if IsOwnStep(a) {
      StepShape(cfg, s, a);
      CompletedRowSurvives(s.table, s.reqs[a.who], a, Next(cfg, s, a).table, id);
    }
  }

  /** Only a request whose own clock is past the expiry can touch a completed row. */
  lemma {:induction false} CompletedRowsAreFrozen(
    cfg: Config, states: seq<State>, acts: seq<Action>, i: nat, j: nat, id: Uuid)
    requires IsRun(cfg, states, acts) && i <= j < |states|
    requires id in states[i].table && states[i].table[id].state == Completed
    requires forall k, o | i <= k < j && o in states[k].reqs && Acquiring(states[k].reqs[o].pc) ::
               states[k].reqs[o].p.now < states[i].table[id].expiresAt
    ensures id in states[j].table && states[j].table[id] == states[i].table[id]
  {
    if i < j {
      CompletedRowsAreFrozen(cfg, states, acts, i, j - 1, id);
      CompletedRowStep(cfg, states[j - 1], acts[j - 1], id);
    }
  }

  // ---------------------------------------------------------------- no key gets stuck

  /** The program counter an atomic decision leads to. */
  ghost function Verdict(cfg: Config, t: Table, p: Params): Pc {
    var d := AtomicAcquire(t, p);
    if d.disposition == Acquired then Running(Some(d.id)) else Done(AnswerFrom(cfg, d.table[d.id], p))
  }

  predicate OnlyBy(acts: seq<Action>, o: Uuid) {
    forall i | 0 <= i < |acts| :: IsOwnStep(acts[i]) && acts[i].who == o
  }

  /** Cleanup and insert, the first two statements of a request left to itself. */
  lemma SoloInsert(cfg: Config, s: State, o: Uuid, victims: set<Uuid>) returns (states: seq<State>, acts: seq<Action>)
    requires o in s.reqs && s.reqs[o].pc.Arrived? && s.reqs[o].p.id !in s.table
    requires Victims(s.table, victims, s.reqs[o].p.now)
    ensures IsPath(cfg, states, acts) && |acts| == 2 && states[0] == s && OnlyBy(acts, o)
    ensures
      var last, p, clean := states[2], s.reqs[o].p, s.table - victims;
      && last.reqs == Moved(s.reqs, o, if HasScope(clean, p.scope) then LookingUp else Verdict(cfg, clean, p))
      && last.table == (if HasScope(clean, p.scope) then clean else AtomicAcquire(clean, p).table)
  {
    var s1 := Next(cfg, s, Cleanup(o, victims));
    var s2 := Next(cfg, s1, Insert(o, NoFault));
    states, acts := [s, s1, s2], [Cleanup(o, victims), Insert(o, NoFault)];
  }

  /** Lookup and, if the row is stale, takeover. */
  lemma SoloLookup(cfg: Config, s: State, o: Uuid) returns (states: seq<State>, acts: seq<Action>)
    requires o in s.reqs && s.reqs[o].pc.LookingUp? && HasScope(s.table, s.reqs[o].p.scope)
    ensures IsPath(cfg, states, acts) && states[0] == s && OnlyBy(acts, o)
    ensures
      var last, p := states[|acts|], s.reqs[o].p;
      last.reqs == Moved(s.reqs, o, Verdict(cfg, s.table, p)) && last.table == AtomicAcquire(s.table, p).table
  {
    var s1 := Next(cfg, s, Lookup(o, NoFault));
    states, acts := [s, s1], [Lookup(o, NoFault)];
    if s1.reqs[o].pc.TakingOver? {
      var s2 := Next(cfg, s1, TakeOver(o, NoFault));
      states, acts := states + [s2], acts + [TakeOver(o, NoFault)];
    }
  }

  lemma JoinPaths(cfg: Config, a: seq<State>, x: seq<Action>, b: seq<State>, y: seq<Action>, o: Uuid)
    requires IsPath(cfg, a, x) && IsPath(cfg, b, y) && a[|x|] == b[0] && OnlyBy(x, o) && OnlyBy(y, o)
    ensures IsPath(cfg, a + b[1..], x + y) && OnlyBy(x + y, o)
    ensures (a + b[1..])[0] == a[0] && (a + b[1..])[|x + y|] == b[|y|]
  {
    var states, acts := a + b[1..], x + y;
    forall i | 0 <= i < |acts| ensures Enabled(states[i], acts[i]) && states[i + 1] == Next(cfg, states[i], acts[i]) {
      if i < |x| {
        assert states[i] == a[i] && states[i + 1] == a[i + 1] && acts[i] == x[i];
      } else {
        assert states[i] == b[i - |x|] && states[i + 1] == b[i - |x| + 1] && acts[i] == y[i - |x|];
      }
    }
  }

  /** A request left to itself makes the atomic decision on the cleaned table. */
  lemma Solo(cfg: Config, s: State, o: Uuid, victims: set<Uuid>) returns (states: seq<State>, acts: seq<Action>)
    requires o in s.reqs && s.reqs[o].pc.Arrived? && s.reqs[o].p.id !in s.table
    requires Victims(s.table, victims, s.reqs[o].p.now)
    ensures IsPath(cfg, states, acts) && states[0] == s && OnlyBy(acts, o)
    ensures
      var last, p, clean := states[|acts|], s.reqs[o].p, s.table - victims;
      last.reqs == Moved(s.reqs, o, Verdict(cfg, clean, p)) && last.table == AtomicAcquire(clean, p).table
  {
    states, acts := SoloInsert(cfg, s, o, victims);
    if HasScope(s.table - victims, s.reqs[o].p.scope) {
      var more, steps := SoloLookup(cfg, states[2], o);
      JoinPaths(cfg, states, acts, more, steps, o);
      states, acts := states + more[1..], acts + steps;
    }
  }

  /** A row that is really in force: not expired, and completed or still locked. */
  predicate InForce(row: Row, now: Time) {
    row.expiresAt > now && (row.state == Completed || (row.lockedUntil.Some? && row.lockedUntil.value > now))
  }

  lemma AcquiresUnlessInForce(t: Table, victims: set<Uuid>, p: Params)
    requires Unique(t) && Victims(t, victims, p.now) && p.id !in t
    requires forall id | id in t :: ColumnsOk(t[id])
    ensures AtomicAcquire(t - victims, p).disposition == Acquired <==>
            forall id | id in t && t[id].scope == p.scope :: !InForce(t[id], p.now)
  {
    CleanupIsInvisible(t, victims, p);
    match Find(t, p.scope)
    case None =>
    case Some(id) => assert forall k | k in t && t[k].scope == p.scope :: k == id;
  }

  /**
    From every reachable state a request that is left to itself gets the key, whatever the cleanup removes,
    exactly if no row of its scope is in force.
   */
  lemma NoKeyGetsStuck(cfg: Config, states: seq<State>, acts: seq<Action>, i: nat, o: Uuid, victims: set<Uuid>)
    returns (path: seq<State>, steps: seq<Action>)
    requires Invertible(cfg.codec) && IsRun(cfg, states, acts) && i < |states|
    requires o in states[i].reqs && states[i].reqs[o].pc.Arrived?
    requires Victims(states[i].table, victims, states[i].reqs[o].p.now)
    ensures IsPath(cfg, path, steps) && path[0] == states[i] && OnlyBy(steps, o)
    ensures o in path[|steps|].reqs
    ensures path[|steps|].reqs[o].pc.Running? <==>
            forall id | id in states[i].table && states[i].table[id].scope == states[i].reqs[o].p.scope ::
              !InForce(states[i].table[id], states[i].reqs[o].p.now)
  {
    var s := states[i];
    GoodTable(cfg, states, acts, i, o);
    path, steps := Solo(cfg, s, o, victims);
    AcquiresUnlessInForce(s.table, victims, s.reqs[o].p);
  }

  lemma GoodTable(cfg: Config, states: seq<State>, acts: seq<Action>, i: nat, o: Uuid)
    requires Invertible(cfg.codec) && IsRun(cfg, states, acts) && i < |states|
    requires o in states[i].reqs && states[i].reqs[o].pc.Arrived?
    ensures Unique(states[i].table) && states[i].reqs[o].p.id !in states[i].table
    ensures forall id | id in states[i].table :: ColumnsOk(states[i].table[id])
  {
    RunsAreGood(cfg, states, acts, i);
    assert ReqOk(cfg, states[i].reqs, states[i].table, o);
    forall id | id in states[i].table ensures ColumnsOk(states[i].table[id]) {
      assert RowOk(cfg, states[i].reqs, id, states[i].table[id]);
    }
  }

  /**
    The gRPC codes of failures that free the key: CANCELED, UNKNOWN, DEADLINE_EXCEEDED, RESOURCE_EXHAUSTED, ABORTED,
    INTERNAL and UNAVAILABLE.
   */
  const RELEASED := {1, 2, 4, 8, 10, 13, 14}

  /** Errors without a status count as UNKNOWN. */
  predicate Frees(res: Result) {
    res.Failed? && (res.err.WithStatus? ==> res.err.status.code in RELEASED)
  }

  /** What is stored of a result, if it marshals: type and payload of a message, the whole status of an error. */
  function Marshalled(c: Codec, res: Result): Option<Stored> {
    match res
    case NotProto => None
    case Reply(m) =>
      (match c.marshalMessage(m)
       case None => None
       case Some(payload) => Some(Stored(m.name, payload, [])))
    case Failed(WithStatus(st)) =>
      (match c.marshalStatus(st)
       case None => None
       case Some(payload) => Some(Stored("", [], payload)))
    case _ => None
  }

  /** Row `id`, and no other, went from reserved to completed, and replays the result. */
  predicate HoldsResult(cfg: Config, before: Table, after: Table, id: Uuid, columns: Stored, res: Result) {
    && id in before && id in after && after - {id} == before - {id}
    && after[id].state == Completed && after[id].lockedUntil == None
    && after[id].scope == before[id].scope && after[id].requestHash == before[id].requestHash
    && after[id].owner == before[id].owner && after[id].expiresAt == before[id].expiresAt
    && ColumnsOf(after[id]) == columns && ReplayOf(cfg.codec, after[id]) == res
  }

  /**
    A request that still owns row `id` frees the key after a transient failure, stores any other result that
    marshals, with an entry in the history, and otherwise leaves the row reserved.
   */
  ghost predicate Settled(cfg: Config, s: State, o: Uuid, id: Uuid, res: Result, t': Table, events: seq<Event>)
    requires id in s.table
  {
    if Frees(res) then t' == s.table - {id} && events == []
    else
      match Marshalled(cfg.codec, res)
      case None => t' == s.table && events == []
      case Some(columns) => HoldsResult(cfg, s.table, t', id, columns, res) && events == [StoredBy(o, id, s.table[id].expiresAt)]
  }

  /** What settling does with every kind of result. The client gets its handler's result in any case. */
  lemma SettlingDecidesTheRow(cfg: Config, s: State, o: Uuid, fault: Fault)
    requires Invertible(cfg.codec) && Enabled(s, Settle(o, fault)) && Proper(s.reqs[o].pc.result)
    ensures
      var s', id, res := Next(cfg, s, Settle(o, fault)), s.reqs[o].pc.own, s.reqs[o].pc.result;
      && s'.reqs == Moved(s.reqs, o, Done(Handled(res)))
      && if fault == Refused || !Owns(s.table, id, o) then s'.table == s.table && s'.log == s.log
         else exists events :: s'.log == s.log + events && Settled(cfg, s, o, id, res, s'.table, events)
  {
    var q := s.reqs[o];
    var e := SettleEffect(cfg, s.table, q, o, fault);
    assert s.log + [] == s.log;
    FreesIsTransient(q.pc.result);
    if fault != Refused && Owns(s.table, q.pc.own, o) {
      if !Frees(q.pc.result) {
        EncodeIsMarshalled(cfg, q.pc.result);
        if Encode(cfg.codec, q.pc.result).Some? {
          SettlingStores(cfg, s, o, fault);
        }
      }
      assert Settled(cfg, s, o, q.pc.own, q.pc.result, e.table, e.events);
    }
  }

  lemma EncodeIsMarshalled(cfg: Config, res: Result)
    requires !Frees(res)
    ensures Encode(cfg.codec, res) == Marshalled(cfg.codec, res)
  {
  }

  /**
    A request whose handler runs on a row it owns, left to itself, has its result settled: returning, auditing and
    settling lead to the handler's answer and to the row that the result calls for.
   */
  lemma HandlersRunThrough(cfg: Config, s: State, o: Uuid, id: Uuid, res: Result) returns (s1: State, s2: State, s3: State)
    requires Invertible(cfg.codec) && Proper(res)
    requires o in s.reqs && s.reqs[o].pc == Running(Some(id)) && Owns(s.table, id, o)
    ensures Enabled(s, Return(o, res)) && s1 == Next(cfg, s, Return(o, res))
    ensures Enabled(s1, Audit(o)) && s2 == Next(cfg, s1, Audit(o))
    ensures Enabled(s2, Settle(o, NoFault)) && s3 == Next(cfg, s2, Settle(o, NoFault))
    ensures s3.reqs == Moved(s.reqs, o, Done(Handled(res)))
    ensures exists events :: Settled(cfg, s, o, id, res, s3.table, events)
  {
    s1 := Next(cfg, s, Return(o, res));
    s2 := Next(cfg, s1, Audit(o));
    s3 := Next(cfg, s2, Settle(o, NoFault));
    assert s2.table == s.table && s2.reqs == Moved(s.reqs, o, Settling(id, res));
    SettlingDecidesTheRow(cfg, s2, o, NoFault);
    var events :| s3.log == s2.log + events && Settled(cfg, s2, o, id, res, s3.table, events);
    assert Settled(cfg, s, o, id, res, s3.table, events);
  }

  /** Without a reservation, returning and auditing lead to the handler's answer, and the table is not touched. */
  lemma UnkeyedHandlersRunThrough(cfg: Config, s: State, o: Uuid, res: Result)
    requires Proper(res) && o in s.reqs && s.reqs[o].pc == Running(None)
    ensures
      && Enabled(s, Return(o, res))
      && var s1 := Next(cfg, s, Return(o, res));
      && Enabled(s1, Audit(o))
      && var s2 := Next(cfg, s1, Audit(o));
      s2.table == s.table && s2.reqs == Moved(s.reqs, o, Done(Handled(res)))
  {
  }

  lemma FreesIsTransient(res: Result)
    ensures Frees(res) <==> Transient(res)
  {
  }

  lemma SettlingStores(cfg: Config, s: State, o: Uuid, fault: Fault)
    requires Invertible(cfg.codec) && o in s.reqs && s.reqs[o].pc.Settling? && Proper(s.reqs[o].pc.result)
    requires fault != Refused && Owns(s.table, s.reqs[o].pc.own, o)
    requires !Transient(s.reqs[o].pc.result) && Encode(cfg.codec, s.reqs[o].pc.result).Some?
    ensures HoldsResult(cfg, s.table, Next(cfg, s, Settle(o, fault)).table, s.reqs[o].pc.own,
                        Encode(cfg.codec, s.reqs[o].pc.result).value, s.reqs[o].pc.result)
  {
    var id := s.reqs[o].pc.own;
    var after := Next(cfg, s, Settle(o, fault)).table;
    EncodeReplayRoundTrip(cfg.codec, s.reqs[o].pc.result, after[id]);
    assert after - {id} == s.table - {id};
  }

  /** A release that takes effect frees the whole scope at once. */
  lemma ReleaseFreesTheScope(cfg: Config, s: State, o: Uuid, fault: Fault)
    requires Invertible(cfg.codec) && Good(cfg, s.reqs, s.table) && o in s.reqs && s.reqs[o].pc.Settling?
    requires Frees(s.reqs[o].pc.result) && fault != Refused && Owns(s.table, s.reqs[o].pc.own, o)
    ensures !HasScope(Next(cfg, s, Settle(o, fault)).table, s.reqs[o].p.scope)
  {
    assert ReqOk(cfg, s.reqs, s.table, o);
    FreesIsTransient(s.reqs[o].pc.result);
  }

  /**
    A statement of `Acquire` ends in a store error exactly if its caller sees an error, a lookup finds nothing, or an
    insert violates the primary key; a refused one changes nothing.
   */
  lemma StoreErrorsSurface(cfg: Config, s: State, a: Action)
    requires Enabled(s, a) && (a.Insert? || a.Lookup? || a.TakeOver? || a.LookupAgain?)
    ensures
      var p := s.reqs[a.who].p;
      Next(cfg, s, a).reqs[a.who].pc == Done(StoreDown) <==>
      || a.fault != NoFault
      || ((a.Lookup? || a.LookupAgain?) && !HasScope(s.table, p.scope))
      || (a.Insert? && !HasScope(s.table, p.scope) && p.id in s.table)
    ensures a.fault == Refused ==> Next(cfg, s, a).table == s.table
  {
  }

  /** A cleanup removes at most 100 rows, all expired by its request's clock, and no younger row before an older one. */
  lemma CleanupIsBounded(cfg: Config, s: State, who: Uuid, victims: set<Uuid>)
    requires Enabled(s, Cleanup(who, victims))
    ensures
      var now := s.reqs[who].p.now;
      && Next(cfg, s, Cleanup(who, victims)).table == s.table - victims && |victims| <= 100
      && (forall id | id in victims :: id in s.table && s.table[id].expiresAt <= now)
      && (forall id, other | id in victims && other in s.table && other !in victims && s.table[other].expiresAt <= now ::
            s.table[id].expiresAt <= s.table[other].expiresAt)
  {
  }

  // ---------------------------------------------------------------- what repeating a request gets

  lemma InForceDecides(t: Table, victims: set<Uuid>, p: Params, id: Uuid)
    requires Unique(t) && Victims(t, victims, p.now) && p.id !in t
    requires id in t && t[id].scope == p.scope && InForce(t[id], p.now)
    ensures AtomicAcquire(t - victims, p) == Outcome(t - victims, Judge(t[id], p), id)
  {
    assert id !in victims;
    assert Unique(t - victims) && id in t - victims && (t - victims)[id] == t[id];
    FindIs(t - victims, id);
  }

  /**
    The documented answers. While a row of the scope is in force, a request that is left to itself is told
    that the key was reused if its body differs from the row owner's, that the request is still running if
    that one has not stored a result, and otherwise gets the owner's result; nothing in the table changes
    but expired rows.
   */
  lemma RepeatedRequests(cfg: Config, states: seq<State>, acts: seq<Action>, i: nat, o: Uuid, victims: set<Uuid>, id: Uuid)
    returns (path: seq<State>, steps: seq<Action>)
    requires Invertible(cfg.codec) && Injective(cfg.sha)
    requires IsRun(cfg, states, acts) && i < |states|
    requires o in states[i].reqs && states[i].reqs[o].pc.Arrived?
    requires Victims(states[i].table, victims, states[i].reqs[o].p.now)
    requires id in states[i].table && states[i].table[id].scope == states[i].reqs[o].p.scope
    requires InForce(states[i].table[id], states[i].reqs[o].p.now)
    ensures IsPath(cfg, path, steps) && path[0] == states[i] && OnlyBy(steps, o)
    ensures path[|steps|].table == states[i].table - victims && o in path[|steps|].reqs
    ensures states[i].table[id].owner in states[i].reqs
    ensures
      var s := states[i];
      var origin, pc := s.reqs[s.table[id].owner], path[|steps|].reqs[o].pc;
      if origin.input.body != s.reqs[o].input.body then pc == Done(KeyReused)
      else if s.table[id].state == InProgress then pc == Done(StillRunning)
      else origin.pc.Done? && origin.pc.answer.Handled? && pc == Done(Replayed(s.table[id], origin.pc.answer.result))
  {
    var s := states[i];
    GoodTable(cfg, states, acts, i, o);
    RowOwner(cfg, states, acts, i, o, id);
    path, steps := Solo(cfg, s, o, victims);
    InForceDecides(s.table, victims, s.reqs[o].p, id);
  }

  lemma RowOwner(cfg: Config, states: seq<State>, acts: seq<Action>, i: nat, o: Uuid, id: Uuid)
    requires Invertible(cfg.codec) && Injective(cfg.sha)
    requires IsRun(cfg, states, acts) && i < |states| && o in states[i].reqs && id in states[i].table
    ensures
      var s := states[i];
      var row := s.table[id];
      && row.owner in s.reqs
      && (row.requestHash == s.reqs[o].p.requestHash <==> s.reqs[row.owner].input.body == s.reqs[o].input.body)
      && (row.state == Completed ==>
            && s.reqs[row.owner].pc.Done? && s.reqs[row.owner].pc.answer.Handled?
            && ReplayOf(cfg.codec, row) == s.reqs[row.owner].pc.answer.result)
  {
    RunsAreGood(cfg, states, acts, i);
    var s := states[i];
    var row := s.table[id];
    assert RowOk(cfg, s.reqs, id, row);
    assert ReqOk(cfg, s.reqs, s.table, o) && ReqOk(cfg, s.reqs, s.table, row.owner);
    if row.state == Completed {
      EncodeReplayRoundTrip(cfg.codec, s.reqs[row.owner].pc.answer.result, row);
    }
  }
}
