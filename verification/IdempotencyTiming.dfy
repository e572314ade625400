/**
  Exactly-once execution. A lock timeout is a lease, so the promise rests on time: how far a request's clock may
  run ahead (`skew`) and how long whoever acquired a key may keep it (`hold`) must together fit into the lease.
 */
module IdempotencyTiming {
  import opened Prelude
  import opened IdempotencyStatements
  import opened IdempotencyProtocol
  import opened IdempotencyInvariant
  import opened IdempotencyTheorems
  import opened IdempotencyAdmission

  /** No request's clock is more than `skew` ahead of the shared one. */
  predicate Synced(s: State, skew: Time) {
    forall o | o in s.reqs :: s.reqs[o].p.now <= s.clock + skew
  }

  /** Whoever holds a reservation took its reading less than `hold` ago. */
  predicate Punctual(s: State, hold: Time) {
    forall o | o in s.reqs && Holding(s.reqs[o].pc) :: s.clock < s.reqs[o].p.now + hold
  }

  predicate WellTimed(states: seq<State>, skew: Time, hold: Time) {
    forall i | 0 <= i < |states| :: Synced(states[i], skew) && Punctual(states[i], hold)
  }

  /** Skew and hold together fit into the lock timeout and into the record's lifetime. */
  predicate Fits(cfg: Config, skew: Time, hold: Time) {
    skew + hold <= cfg.lockTimeout && skew + hold <= cfg.ttl
  }

  /** Every holder's reservation is in the table, under its own token. */
  predicate HoldersHold(s: State) {
    forall o | o in s.reqs && Holding(s.reqs[o].pc) :: Owns(s.table, RecOf(s.reqs[o].pc).value, o)
  }

  /** A stored result stays where it is, in the hands of whoever stored it, until it expires by the fastest clock. */
  predicate ResultsStay(s: State, skew: Time) {
    forall i | 0 <= i < |s.log| && s.log[i].StoredBy? && s.clock + skew < s.log[i].expiresAt ::
      && s.log[i].id in s.table
      && s.table[s.log[i].id].owner == s.log[i].who
      && s.table[s.log[i].id].state == Completed
      && s.table[s.log[i].id].expiresAt == s.log[i].expiresAt
  }

  /** Row facts used below, from the general invariant. */
  predicate Deadlines(cfg: Config, s: State) {
    && (forall o | o in s.reqs ::
          && s.reqs[o].p.owner == o
          && s.reqs[o].p.lockedUntil == s.reqs[o].p.now + cfg.lockTimeout
          && s.reqs[o].p.expiresAt == s.reqs[o].p.now + cfg.ttl)
    && (forall o | o in s.reqs && BeforeInsert(s.reqs[o].pc) :: s.reqs[o].p.id !in s.table)
    && (forall id | id in s.table ::
          && s.table[id].owner in s.reqs
          && s.table[id].expiresAt == s.reqs[s.table[id].owner].p.expiresAt
          && (s.table[id].state == InProgress ==> s.table[id].lockedUntil == Some(s.reqs[s.table[id].owner].p.lockedUntil)))
  }

  lemma GoodDeadlines(cfg: Config, s: State)
    requires Good(cfg, s.reqs, s.table)
    ensures Deadlines(cfg, s)
  {
    forall o | o in s.reqs ensures ReqOk(cfg, s.reqs, s.table, o) {
    }
    forall id | id in s.table ensures RowOk(cfg, s.reqs, id, s.table[id]) {
    }
  }

  /** No step takes a row in force away from its owner. */
  lemma InForceSurvives(t: Table, q: Req, a: Action, t': Table, id: Uuid)
    requires IsOwnStep(a) && AtPc(q.pc, a) && TableStep(t, q, a, t')
    requires a.Cleanup? ==> Victims(t, a.victims, q.p.now)
    requires id in t && q.p.now < t[id].expiresAt
    requires t[id].state == InProgress ==> t[id].lockedUntil.Some? && q.p.now < t[id].lockedUntil.value
    requires t[id].state == InProgress ==> t[id].owner != a.who
    requires a.Insert? ==> q.p.id !in t
    ensures id in t' && t'[id] == t[id]
  {
  }

  /** A request that starts to hold has just written its reservation. */
  lemma AcquiringHolds(cfg: Config, s: State, a: Action)
    requires Enabled(s, a) && IsOwnStep(a) && s.reqs[a.who].p.owner == a.who
    requires !Holding(s.reqs[a.who].pc) && Holding(Next(cfg, s, a).reqs[a.who].pc)
    ensures Owns(Next(cfg, s, a).table, RecOf(Next(cfg, s, a).reqs[a.who].pc).value, a.who)
  {
  }

  lemma HoldingKeeps(cfg: Config, s: State, a: Action)
    requires Enabled(s, a) && IsOwnStep(a)
    requires Holding(s.reqs[a.who].pc) && Holding(Next(cfg, s, a).reqs[a.who].pc)
    ensures Next(cfg, s, a).table == s.table
    ensures RecOf(Next(cfg, s, a).reqs[a.who].pc) == RecOf(s.reqs[a.who].pc)
  {
  }

  lemma ArrivalsDoNotHold(cfg: Config, s: State, a: Action)
    requires Enabled(s, a) && a.Arrive?
    ensures !Holding(Next(cfg, s, a).reqs[a.who].pc)
  {
  }

  lemma StepKeepsHolders(cfg: Config, s: State, a: Action, skew: Time, hold: Time)
    requires Fits(cfg, skew, hold) && Synced(s, skew) && Punctual(s, hold)
    requires Deadlines(cfg, s) && Enabled(s, a) && HoldersHold(s)
    ensures HoldersHold(Next(cfg, s, a))
  {
    var s' := Next(cfg, s, a);
    if a.Arrive? {
      ArrivalsDoNotHold(cfg, s, a);
    } else if !a.Tick? {
      StepShape(cfg, s, a);
      forall o | o in s'.reqs && Holding(s'.reqs[o].pc) ensures Owns(s'.table, RecOf(s'.reqs[o].pc).value, o) {
        if o != a.who {
          assert Owns(s.table, RecOf(s.reqs[o].pc).value, o);
          InForceSurvives(s.table, s.reqs[a.who], a, s'.table, RecOf(s.reqs[o].pc).value);
        } else if Holding(s.reqs[o].pc) {
          assert Owns(s.table, RecOf(s.reqs[o].pc).value, o);
          HoldingKeeps(cfg, s, a);
        } else {
          AcquiringHolds(cfg, s, a);
        }
      }
    }
  }

  /** The log grows by at most one stored result, and then the row is there. */
  lemma StoringStores(cfg: Config, s: State, a: Action, i: nat)
    requires Enabled(s, a) && i < |Next(cfg, s, a).log| && Next(cfg, s, a).log[i].StoredBy?
    ensures |s.log| <= |Next(cfg, s, a).log|
    ensures i < |s.log| ==> Next(cfg, s, a).log[i] == s.log[i]
    ensures i >= |s.log| ==>
      var e, t' := Next(cfg, s, a).log[i], Next(cfg, s, a).table;
      e.id in t' && t'[e.id].owner == e.who && t'[e.id].state == Completed && t'[e.id].expiresAt == e.expiresAt
  {
  }

  lemma StepKeepsResults(cfg: Config, s: State, a: Action, skew: Time)
    requires Deadlines(cfg, s) && Synced(s, skew) && Enabled(s, a) && ResultsStay(s, skew)
    ensures ResultsStay(Next(cfg, s, a), skew)
  {
    var s' := Next(cfg, s, a);
    forall i | 0 <= i < |s'.log| && s'.log[i].StoredBy? && s'.clock + skew < s'.log[i].expiresAt
      ensures
        && s'.log[i].id in s'.table
        && s'.table[s'.log[i].id].owner == s'.log[i].who
        && s'.table[s'.log[i].id].state == Completed
        && s'.table[s'.log[i].id].expiresAt == s'.log[i].expiresAt
    {
      StoringStores(cfg, s, a, i);
      if IsOwnStep(a) && i < |s.log| {
        StepShape(cfg, s, a);
        InForceSurvives(s.table, s.reqs[a.who], a, s'.table, s.log[i].id);
      }
    }
  }

  lemma {:induction false} WellTimedRuns(
    cfg: Config, states: seq<State>, acts: seq<Action>, i: nat, skew: Time, hold: Time)
    requires Invertible(cfg.codec) && IsRun(cfg, states, acts) && i < |states|
    requires Fits(cfg, skew, hold) && WellTimed(states, skew, hold)
    ensures HoldersHold(states[i]) && ResultsStay(states[i], skew)
  {
    if i > 0 {
      WellTimedRuns(cfg, states, acts, i - 1, skew, hold);
      RunsAreGood(cfg, states, acts, i - 1);
      GoodDeadlines(cfg, states[i - 1]);
      StepKeepsHolders(cfg, states[i - 1], acts[i - 1], skew, hold);
      StepKeepsResults(cfg, states[i - 1], acts[i - 1], skew);
    }
  }

  lemma HolderScope(cfg: Config, s: State, o: Uuid)
    requires Good(cfg, s.reqs, s.table) && o in s.reqs && Holding(s.reqs[o].pc) && Owns(s.table, RecOf(s.reqs[o].pc).value, o)
    ensures
      s.table[RecOf(s.reqs[o].pc).value].scope == s.reqs[o].p.scope
  {
    assert ReqOk(cfg, s.reqs, s.table, o);
  }

  /** A keyed call whose handler is running. */
  predicate RunsKeyed(cfg: Config, s: State, o: Uuid) {
    o in s.reqs && Keyed(cfg, s.reqs[o].input) && s.reqs[o].pc.Running?
  }

  predicate SameKey(a: Input, b: Input) {
    a.actor == b.actor && a.rpcMethod == b.rpcMethod && a.key == b.key
  }

  lemma RunnersHold(cfg: Config, states: seq<State>, acts: seq<Action>, i: nat, o: Uuid)
    requires Invertible(cfg.codec) && IsRun(cfg, states, acts) && i < |states|
    requires RunsKeyed(cfg, states[i], o)
    ensures Holding(states[i].reqs[o].pc)
  {
    RunsAdmit(cfg, states, acts, i);
    assert Admitted(cfg, states[i].reqs[o]);
  }

  lemma ScopeOf(cfg: Config, s: State, o: Uuid)
    requires Good(cfg, s.reqs, s.table) && o in s.reqs
    ensures
      var q := s.reqs[o];
      q.p.scope == Scope(q.input.actor, q.input.rpcMethod, cfg.sha(q.input.key))
  {
    assert ReqOk(cfg, s.reqs, s.table, o);
  }

  /** Two requests for one actor, method and key are between acquiring and settling at once. */
  predicate BothHold(s: State, a: Uuid, b: Uuid) {
    && a != b && a in s.reqs && b in s.reqs && Holding(s.reqs[a].pc) && Holding(s.reqs[b].pc)
    && SameKey(s.reqs[a].input, s.reqs[b].input)
  }

  predicate OneHolder(states: seq<State>) {
    forall i, a, b | 0 <= i < |states| && a in states[i].reqs && b in states[i].reqs :: !BothHold(states[i], a, b)
  }

  /** Two handlers for one actor, method and key are running at once. */
  predicate Overlap(cfg: Config, s: State, a: Uuid, b: Uuid) {
    && a != b && RunsKeyed(cfg, s, a) && RunsKeyed(cfg, s, b)
    && SameKey(s.reqs[a].input, s.reqs[b].input)
  }

  predicate NoOverlaps(cfg: Config, states: seq<State>) {
    forall i, a, b | 0 <= i < |states| && a in states[i].reqs && b in states[i].reqs :: !Overlap(cfg, states[i], a, b)
  }

  /** The cause of every double hold, with no assumption about time: one of the two has lost its reservation. */
  lemma OverlapMeansLost(cfg: Config, states: seq<State>, acts: seq<Action>, i: nat, a: Uuid, b: Uuid)
    requires Invertible(cfg.codec) && IsRun(cfg, states, acts) && i < |states|
    requires BothHold(states[i], a, b)
    ensures Lost(states[i], a) || Lost(states[i], b)
  {
    var s := states[i];
    RunsAreGood(cfg, states, acts, i);
    ScopeOf(cfg, s, a);
    ScopeOf(cfg, s, b);
    assert Unique(s.table);
    if !Lost(s, a) && !Lost(s, b) {
      HolderScope(cfg, s, a);
      HolderScope(cfg, s, b);
    }
  }

  /** No two requests hold one key at once, from acquiring it to settling. */
  lemma OneHolderAtATime(cfg: Config, states: seq<State>, acts: seq<Action>, skew: Time, hold: Time)
    requires Invertible(cfg.codec) && IsRun(cfg, states, acts)
    requires Fits(cfg, skew, hold) && WellTimed(states, skew, hold)
    ensures OneHolder(states)
  {
    forall i, a, b | 0 <= i < |states| && a in states[i].reqs && b in states[i].reqs
      ensures !BothHold(states[i], a, b)
    {
      WellTimedRuns(cfg, states, acts, i, skew, hold);
      if BothHold(states[i], a, b) {
        OverlapMeansLost(cfg, states, acts, i, a, b);
      }
    }
  }

  /** In particular two handler runs for one actor, method and key never overlap. */
  lemma HandlersNeverOverlap(cfg: Config, states: seq<State>, acts: seq<Action>)
    requires Invertible(cfg.codec) && IsRun(cfg, states, acts) && OneHolder(states)
    ensures NoOverlaps(cfg, states)
  {
    forall i, a, b | 0 <= i < |states| && a in states[i].reqs && b in states[i].reqs
      ensures !Overlap(cfg, states[i], a, b)
    {
      assert !BothHold(states[i], a, b);
      if Overlap(cfg, states[i], a, b) {
        RunnersHold(cfg, states, acts, i, a);
        RunnersHold(cfg, states, acts, i, b);
      }
    }
  }

  /** A stored result is live by the fastest clock. */
  predicate Live(s: State, e: nat, skew: Time) {
    e < |s.log| && s.log[e].StoredBy? && s.clock + skew < s.log[e].expiresAt
  }

  /** Nobody holds a key that a live result answers. */
  ghost predicate LiveResultsBlock(states: seq<State>, skew: Time) {
    forall i, e: nat, o | 0 <= i < |states| && Live(states[i], e, skew) && o in states[i].reqs && Holding(states[i].reqs[o].pc) ::
      && states[i].log[e].who in states[i].reqs
      && !SameKey(states[i].reqs[o].input, states[i].reqs[states[i].log[e].who].input)
  }

  /**
    After a result is stored, no request for the same actor, method and key holds it, let alone runs, until the
    result has expired by the fastest clock.
   */
  lemma NothingHoldsWhileAResultLives(cfg: Config, states: seq<State>, acts: seq<Action>, skew: Time, hold: Time)
    requires Invertible(cfg.codec) && IsRun(cfg, states, acts)
    requires Fits(cfg, skew, hold) && WellTimed(states, skew, hold)
    ensures LiveResultsBlock(states, skew)
  {
    forall i, e: nat, o | 0 <= i < |states| && Live(states[i], e, skew) && o in states[i].reqs && Holding(states[i].reqs[o].pc)
      ensures states[i].log[e].who in states[i].reqs
      ensures !SameKey(states[i].reqs[o].input, states[i].reqs[states[i].log[e].who].input)
    {
      WellTimedRuns(cfg, states, acts, i, skew, hold);
      RunsAreGood(cfg, states, acts, i);
      LiveResultBlocks(cfg, states[i], e, skew, o);
    }
  }

  lemma LiveResultBlocks(cfg: Config, s: State, e: nat, skew: Time, o: Uuid)
    requires Good(cfg, s.reqs, s.table) && HoldersHold(s) && ResultsStay(s, skew)
    requires Live(s, e, skew) && o in s.reqs && Holding(s.reqs[o].pc)
    ensures s.log[e].who in s.reqs
    ensures !SameKey(s.reqs[o].input, s.reqs[s.log[e].who].input)
  {
    HolderScope(cfg, s, o);
    assert RowOk(cfg, s.reqs, s.log[e].id, s.table[s.log[e].id]);
    ScopeOf(cfg, s, o);
    ScopeOf(cfg, s, s.log[e].who);
    assert Unique(s.table);
  }
}
