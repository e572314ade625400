/**
  The timing assumptions are exact. For every choice of bounds, the promise holds in all runs that respect them
  precisely if the bounds fit the configuration; where they do not, a run that breaks it is built step by step.
 */
module IdempotencyLimits {
  import opened Prelude
  import opened ApiError
  import opened IdempotencyStatements
  import opened IdempotencyProtocol
  import opened IdempotencyTheorems
  import opened IdempotencyRefinement
  import opened IdempotencyAdmission
  import opened IdempotencyTiming

  const KEY: Bytes := [97, 98, 99, 100, 101, 102, 103, 104]
  const INPUT := Input("alice", "/user.v1.UserService/CreateUser", KEY, [], map[], "req-1", "", "", true)
  const FAILURE := Failed(WithStatus(Status(UNAVAILABLE, "", [])))

  function ParamsAt(cfg: Config, owner: Uuid, now: Time): Params {
    ParamsFor(cfg, INPUT, owner + 100, owner, now)
  }

  function ReqAt(cfg: Config, owner: Uuid, now: Time, pc: Pc): Req {
    Req(INPUT, ParamsAt(cfg, owner, now), pc)
  }

  function Held(cfg: Config, owner: Uuid, now: Time): Row {
    Reserved(ParamsAt(cfg, owner, now).scope, ParamsAt(cfg, owner, now))
  }

  lemma InputIsKeyed(cfg: Config)
    requires cfg.enabled
    ensures Entry(cfg, INPUT) == Arrived && Keyed(cfg, INPUT)
  {
  }

  lemma SingleRow(id: Uuid, row: Row)
    ensures HasScope(map[id := row], row.scope) && Find(map[id := row], row.scope) == Some(id)
  {
    var t := map[id := row];
    assert id in t && t[id].scope == row.scope;
    FindIs(t, id);
  }

  // ---------------------------------------------------------------- growing a run step by step

  ghost predicate Is(s: State, clock: Time, t: Table, reqs: map<Uuid, Req>) {
    s.clock == clock && s.table == t && s.reqs == reqs
  }

  /** One more step of a run. */
  lemma Extend(cfg: Config, states: seq<State>, acts: seq<Action>, a: Action)
    returns (states': seq<State>, acts': seq<Action>)
    requires IsRun(cfg, states, acts) && Enabled(states[|acts|], a)
    ensures IsRun(cfg, states', acts') && states' == states + [Next(cfg, states[|acts|], a)] && acts' == acts + [a]
  {
    states', acts' := states + [Next(cfg, states[|acts|], a)], acts + [a];
    forall i | 0 <= i < |acts'|
      ensures Enabled(states'[i], acts'[i]) && states'[i + 1] == Next(cfg, states'[i], acts'[i])
    {
      if i < |acts| {
        assert states'[i] == states[i] && states'[i + 1] == states[i + 1] && acts'[i] == acts[i];
      }
    }
  }

  /** A request's step to a new program counter and table. */
  lemma Advance(cfg: Config, states: seq<State>, acts: seq<Action>, a: Action, pc: Pc, t: Table)
    returns (states': seq<State>, acts': seq<Action>)
    requires IsRun(cfg, states, acts) && Enabled(states[|acts|], a) && IsOwnStep(a)
    requires
      var e := EffectOf(cfg, states[|acts|].table, states[|acts|].reqs[a.who], a);
      e.pc == pc && e.table == t
    ensures IsRun(cfg, states', acts') && |acts'| == |acts| + 1 && states'[..|states|] == states
    ensures
      var s := states[|acts|];
      Is(states'[|acts'|], s.clock, t, s.reqs[a.who := s.reqs[a.who].(pc := pc)])
  {
    states', acts' := Extend(cfg, states, acts, a);
  }

  lemma Joins(cfg: Config, states: seq<State>, acts: seq<Action>, owner: Uuid, now: Time)
    returns (states': seq<State>, acts': seq<Action>)
    requires cfg.enabled && IsRun(cfg, states, acts) && Enabled(states[|acts|], Arrive(owner, INPUT, owner + 100, now))
    ensures IsRun(cfg, states', acts') && |acts'| == |acts| + 1 && states'[..|states|] == states
    ensures
      var s := states[|acts|];
      Is(states'[|acts'|], s.clock, s.table, s.reqs[owner := ReqAt(cfg, owner, now, Arrived)])
  {
    InputIsKeyed(cfg);
    states', acts' := Extend(cfg, states, acts, Arrive(owner, INPUT, owner + 100, now));
  }

  // ---------------------------------------------------------------- what single statements do

  lemma PurgeEffect(cfg: Config, q: Req, id: Uuid, row: Row)
    requires q.pc.Arrived? && row.expiresAt <= q.p.now
    ensures Victims(map[id := row], {id}, q.p.now)
    ensures EffectOf(cfg, map[id := row], q, Cleanup(q.p.owner, {id})) == Effect(map[], Inserting, [])
  {
    assert map[id := row] - {id} == map[];
  }

  lemma SkipEffect(cfg: Config, t: Table, q: Req)
    requires q.pc.Arrived?
    ensures Victims(t, {}, q.p.now)
    ensures EffectOf(cfg, t, q, Cleanup(q.p.owner, {})) == Effect(t, Inserting, [])
  {
    assert t - {} == t;
  }

  lemma FreeEffect(cfg: Config, q: Req)
    requires q.pc.Inserting?
    ensures EffectOf(cfg, map[], q, Insert(q.p.owner, NoFault)) ==
            Effect(map[q.p.id := Reserved(q.p.scope, q.p)], Running(Some(q.p.id)), [])
  {
  }

  lemma TakenEffect(cfg: Config, q: Req, id: Uuid, row: Row)
    requires q.pc.Inserting? && row.scope == q.p.scope
    ensures EffectOf(cfg, map[id := row], q, Insert(q.p.owner, NoFault)) == Effect(map[id := row], LookingUp, [])
  {
    SingleRow(id, row);
  }

  lemma StaleEffect(cfg: Config, q: Req, id: Uuid, row: Row)
    requires q.pc.LookingUp? && row.scope == q.p.scope && Stale(row, q.p.now)
    ensures EffectOf(cfg, map[id := row], q, Lookup(q.p.owner, NoFault)) == Effect(map[id := row], TakingOver(id), [])
  {
    SingleRow(id, row);
  }

  lemma TakeOverEffects(cfg: Config, q: Req, id: Uuid, row: Row)
    requires q.pc == TakingOver(id) && row.scope == q.p.scope && Stale(row, q.p.now)
    ensures EffectOf(cfg, map[id := row], q, TakeOver(q.p.owner, NoFault)) ==
            Effect(map[id := Reserved(q.p.scope, q.p)], Running(Some(id)), [])
    ensures EffectOf(cfg, map[], q, TakeOver(q.p.owner, NoFault)) == Effect(map[], LookingAgain, [])
  {
    var t: Table := map[id := row];
    assert t[id := Reserved(row.scope, q.p)] == map[id := Reserved(q.p.scope, q.p)];
  }

  lemma BusyEffect(cfg: Config, q: Req, id: Uuid, row: Row)
    requires q.pc.LookingAgain? && row.scope == q.p.scope && Judge(row, q.p) == Busy
    ensures EffectOf(cfg, map[id := row], q, LookupAgain(q.p.owner, NoFault)) ==
            Effect(map[id := row], Done(StillRunning), [])
  {
    SingleRow(id, row);
  }

  lemma ReleaseEffect(cfg: Config, q: Req, id: Uuid, row: Row)
    requires q.pc == Settling(id, FAILURE) && row.state == InProgress && row.owner == q.p.owner
    ensures EffectOf(cfg, map[id := row], q, Settle(q.p.owner, NoFault)) == Effect(map[], Done(Handled(FAILURE)), [])
  {
    assert map[id := row] - {id} == map[];
  }

  // ---------------------------------------------------------------- a second request meets the row of the first

  /** Owner 1 reads 0 and, once the shared clock is `later`, owner 2 reads `now` while owner 1's row is there. */
  ghost predicate Scene(cfg: Config, s: State, clock: Time, later: Time, now: Time) {
    && (s.clock == clock || s.clock == later)
    && s.reqs.Keys <= {1, 2}
    && (1 in s.reqs ==> s.reqs[1].p == ParamsAt(cfg, 1, 0))
    && (2 in s.reqs ==>
          && s.clock == later && s.reqs[2].p == ParamsAt(cfg, 2, now)
          && 1 in s.reqs && !Acquiring(s.reqs[1].pc) && s.table == map[101 := Held(cfg, 1, 0)])
  }

  ghost predicate Scenes(cfg: Config, states: seq<State>, clock: Time, later: Time, now: Time) {
    forall i | 0 <= i < |states| :: Scene(cfg, states[i], clock, later, now)
  }

  lemma AddScene(cfg: Config, states: seq<State>, states': seq<State>, clock: Time, later: Time, now: Time)
    requires Scenes(cfg, states, clock, later, now) && |states'| == |states| + 1 && states'[..|states|] == states
    requires Scene(cfg, states'[|states|], clock, later, now)
    ensures Scenes(cfg, states', clock, later, now)
  {
    forall i | 0 <= i < |states'| ensures Scene(cfg, states'[i], clock, later, now) {
      if i < |states| {
        assert states'[i] == states'[..|states|][i];
      }
    }
  }

  /** Owner 1 is running its handler. */
  lemma FirstRuns(cfg: Config, clock: Time, later: Time, now: Time) returns (states: seq<State>, acts: seq<Action>)
    requires cfg.enabled
    ensures IsRun(cfg, states, acts) && Scenes(cfg, states, clock, later, now)
    ensures Is(states[|acts|], clock, map[101 := Held(cfg, 1, 0)], map[1 := ReqAt(cfg, 1, 0, Running(Some(101)))])
  {
    var s0, a0 := [State(clock, map[], map[], [])], [];
    var s1, a1 := Joins(cfg, s0, a0, 1, 0);
    SkipEffect(cfg, map[], ReqAt(cfg, 1, 0, Arrived));
    var s2, a2 := Advance(cfg, s1, a1, Cleanup(1, {}), Inserting, map[]);
    FreeEffect(cfg, ReqAt(cfg, 1, 0, Inserting));
    states, acts := Advance(cfg, s2, a2, Insert(1, NoFault), Running(Some(101)), map[101 := Held(cfg, 1, 0)]);
    AddScene(cfg, s0, s1, clock, later, now);
    AddScene(cfg, s1, s2, clock, later, now);
    AddScene(cfg, s2, states, clock, later, now);
  }

  /** Time passes and owner 2 arrives. */
  lemma SecondArrives(cfg: Config, clock: Time, later: Time, now: Time) returns (states: seq<State>, acts: seq<Action>)
    requires cfg.enabled && clock <= later
    ensures IsRun(cfg, states, acts) && Scenes(cfg, states, clock, later, now)
    ensures Is(states[|acts|], later, map[101 := Held(cfg, 1, 0)],
               map[1 := ReqAt(cfg, 1, 0, Running(Some(101))), 2 := ReqAt(cfg, 2, now, Arrived)])
  {
    var s3, a3 := FirstRuns(cfg, clock, later, now);
    var s4, a4 := Extend(cfg, s3, a3, Tick(later));
    states, acts := Joins(cfg, s4, a4, 2, now);
    AddScene(cfg, s3, s4, clock, later, now);
    AddScene(cfg, s4, states, clock, later, now);
  }

  /** Owner 2 has met the row of owner 1. */
  lemma SecondIsLookingUp(cfg: Config, clock: Time, later: Time, now: Time) returns (states: seq<State>, acts: seq<Action>)
    requires cfg.enabled && clock <= later
    ensures IsRun(cfg, states, acts) && Scenes(cfg, states, clock, later, now)
    ensures Is(states[|acts|], later, map[101 := Held(cfg, 1, 0)],
               map[1 := ReqAt(cfg, 1, 0, Running(Some(101))), 2 := ReqAt(cfg, 2, now, LookingUp)])
  {
    var t: Table := map[101 := Held(cfg, 1, 0)];
    var s5, a5 := SecondArrives(cfg, clock, later, now);
    SkipEffect(cfg, t, ReqAt(cfg, 2, now, Arrived));
    var s6, a6 := Advance(cfg, s5, a5, Cleanup(2, {}), Inserting, t);
    TakenEffect(cfg, ReqAt(cfg, 2, now, Inserting), 101, Held(cfg, 1, 0));
    states, acts := Advance(cfg, s6, a6, Insert(2, NoFault), LookingUp, t);
    AddScene(cfg, s5, s6, clock, later, now);
    AddScene(cfg, s6, states, clock, later, now);
  }

  /** Owner 2 has found that row stale and is about to take it over. */
  lemma SecondIsTakingOver(cfg: Config, clock: Time, later: Time, now: Time) returns (states: seq<State>, acts: seq<Action>)
    requires cfg.enabled && clock <= later && cfg.lockTimeout <= now
    ensures IsRun(cfg, states, acts) && Scenes(cfg, states, clock, later, now)
    ensures Is(states[|acts|], later, map[101 := Held(cfg, 1, 0)],
               map[1 := ReqAt(cfg, 1, 0, Running(Some(101))), 2 := ReqAt(cfg, 2, now, TakingOver(101))])
  {
    var t: Table := map[101 := Held(cfg, 1, 0)];
    var s7, a7 := SecondIsLookingUp(cfg, clock, later, now);
    StaleEffect(cfg, ReqAt(cfg, 2, now, LookingUp), 101, Held(cfg, 1, 0));
    states, acts := Advance(cfg, s7, a7, Lookup(2, NoFault), TakingOver(101), t);
    AddScene(cfg, s7, states, clock, later, now);
  }

  // ---------------------------------------------------------------- exactly-once: skew and hold must fit the lease

  /**
    In every run within the bounds, a key has one holder at a time, from acquiring to settling, and none while a
    result stored for it lives.
   */
  ghost predicate ExactlyOnce(cfg: Config, skew: Time, hold: Time) {
    forall states, acts | IsRun(cfg, states, acts) && WellTimed(states, skew, hold) ::
      OneHolder(states) && LiveResultsBlock(states, skew)
  }

  /** In every run within the bounds, no two handlers for one actor, method and key overlap. */
  ghost predicate HandlersApart(cfg: Config, skew: Time, hold: Time) {
    forall states, acts | IsRun(cfg, states, acts) && WellTimed(states, skew, hold) :: NoOverlaps(cfg, states)
  }

  lemma ScenesAreWellTimed(cfg: Config, states: seq<State>, skew: Time, hold: Time)
    requires 0 < skew + hold && Scenes(cfg, states, -skew, hold - 1, skew + hold - 1)
    ensures WellTimed(states, skew, hold)
  {
    forall i | 0 <= i < |states| ensures Synced(states[i], skew) && Punctual(states[i], hold) {
      assert Scene(cfg, states[i], -skew, hold - 1, skew + hold - 1);
    }
  }

  /** The last state shows both handlers running. */
  ghost predicate EndsInOverlap(cfg: Config, states: seq<State>) {
    |states| > 0 && var s := states[|states| - 1]; Overlap(cfg, s, 1, 2)
  }

  lemma LastOverlaps(cfg: Config, states: seq<State>, last: State, skew: Time, hold: Time, rec: Uuid)
    requires cfg.enabled && 0 < skew + hold && WellTimed(states, skew, hold)
    requires last.clock == hold - 1
    requires last.reqs == map[1 := ReqAt(cfg, 1, 0, Running(Some(101))), 2 := ReqAt(cfg, 2, skew + hold - 1, Running(Some(rec)))]
    ensures WellTimed(states + [last], skew, hold) && EndsInOverlap(cfg, states + [last])
  {
    InputIsKeyed(cfg);
  }

  /** The record of owner 1 has expired for owner 2, which removes it and reserves the key anew. */
  lemma SecondReserves(cfg: Config, skew: Time, hold: Time) returns (states: seq<State>, acts: seq<Action>)
    requires cfg.enabled && 0 < skew + hold && cfg.ttl <= skew + hold - 1
    ensures IsRun(cfg, states, acts) && WellTimed(states, skew, hold) && EndsInOverlap(cfg, states)
  {
    var now := skew + hold - 1;
    var s5, a5 := SecondArrives(cfg, -skew, hold - 1, now);
    ScenesAreWellTimed(cfg, s5, skew, hold);
    PurgeEffect(cfg, ReqAt(cfg, 2, now, Arrived), 101, Held(cfg, 1, 0));
    var s6, a6 := Advance(cfg, s5, a5, Cleanup(2, {101}), Inserting, map[]);
    FreeEffect(cfg, ReqAt(cfg, 2, now, Inserting));
    states, acts := Advance(cfg, s6, a6, Insert(2, NoFault), Running(Some(102)), map[102 := Held(cfg, 2, now)]);
    PurgedIsWellTimed(cfg, s5, s6, skew, hold);
    assert states == s6 + [states[|acts|]];
    LastOverlaps(cfg, s6, states[|acts|], skew, hold, 102);
  }

  lemma PurgedIsWellTimed(cfg: Config, states: seq<State>, states': seq<State>, skew: Time, hold: Time)
    requires 0 < skew + hold && WellTimed(states, skew, hold)
    requires |states'| == |states| + 1 && states'[..|states|] == states
    requires states'[|states|].clock == hold - 1
    requires states'[|states|].reqs ==
             map[1 := ReqAt(cfg, 1, 0, Running(Some(101))), 2 := ReqAt(cfg, 2, skew + hold - 1, Inserting)]
    ensures WellTimed(states', skew, hold)
  {
    forall i | 0 <= i < |states'| ensures Synced(states'[i], skew) && Punctual(states'[i], hold) {
      if i < |states| {
        assert states'[i] == states'[..|states|][i];
      }
    }
  }

  /** The lock of owner 1 has expired for owner 2, which takes the record over. */
  lemma SecondOvertakes(cfg: Config, skew: Time, hold: Time) returns (states: seq<State>, acts: seq<Action>)
    requires cfg.enabled && 0 < skew + hold && cfg.lockTimeout <= skew + hold - 1
    ensures IsRun(cfg, states, acts) && WellTimed(states, skew, hold) && EndsInOverlap(cfg, states)
  {
    var now := skew + hold - 1;
    var s8, a8 := SecondIsTakingOver(cfg, -skew, hold - 1, now);
    ScenesAreWellTimed(cfg, s8, skew, hold);
    TakeOverEffects(cfg, ReqAt(cfg, 2, now, TakingOver(101)), 101, Held(cfg, 1, 0));
    states, acts := Advance(cfg, s8, a8, TakeOver(2, NoFault), Running(Some(101)), map[101 := Held(cfg, 2, now)]);
    assert states == s8 + [states[|acts|]];
    LastOverlaps(cfg, s8, states[|acts|], skew, hold, 101);
  }

  lemma FittingIsExactlyOnce(cfg: Config, skew: Time, hold: Time)
    requires Invertible(cfg.codec) && Fits(cfg, skew, hold)
    ensures ExactlyOnce(cfg, skew, hold)
  {
    forall states, acts | IsRun(cfg, states, acts) && WellTimed(states, skew, hold)
      ensures OneHolder(states) && LiveResultsBlock(states, skew)
    {
      OneHolderAtATime(cfg, states, acts, skew, hold);
      NothingHoldsWhileAResultLives(cfg, states, acts, skew, hold);
    }
  }

  lemma ExactlyOnceKeepsApart(cfg: Config, skew: Time, hold: Time)
    requires Invertible(cfg.codec) && ExactlyOnce(cfg, skew, hold)
    ensures HandlersApart(cfg, skew, hold)
  {
    forall states, acts | IsRun(cfg, states, acts) && WellTimed(states, skew, hold) ensures NoOverlaps(cfg, states) {
      HandlersNeverOverlap(cfg, states, acts);
    }
  }

  lemma MisfitOverlaps(cfg: Config, skew: Time, hold: Time)
    requires cfg.enabled && 0 < cfg.lockTimeout && 0 < cfg.ttl && !Fits(cfg, skew, hold)
    ensures !HandlersApart(cfg, skew, hold)
  {
    var states, acts;
    if skew + hold > cfg.ttl {
      states, acts := SecondReserves(cfg, skew, hold);
    } else {
      states, acts := SecondOvertakes(cfg, skew, hold);
    }
    var s := states[|states| - 1];
    assert Overlap(cfg, s, 1, 2) && 1 in s.reqs && 2 in s.reqs;
    assert !NoOverlaps(cfg, states);
  }

  /**
    In all runs whose clocks run ahead by at most `skew` and whose holders keep a key for less than `hold`,
    execution is exactly-once, or at least handlers never overlap, if and only if skew and hold together fit into
    the lock timeout and the record lifetime.
   */
  lemma LeaseLaw(cfg: Config, skew: Time, hold: Time)
    requires cfg.enabled && Invertible(cfg.codec) && 0 < cfg.lockTimeout && 0 < cfg.ttl
    ensures ExactlyOnce(cfg, skew, hold) <==> skew + hold <= cfg.lockTimeout && skew + hold <= cfg.ttl
    ensures HandlersApart(cfg, skew, hold) <==> skew + hold <= cfg.lockTimeout && skew + hold <= cfg.ttl
  {
    if Fits(cfg, skew, hold) {
      FittingIsExactlyOnce(cfg, skew, hold);
      ExactlyOnceKeepsApart(cfg, skew, hold);
    } else {
      MisfitOverlaps(cfg, skew, hold);
      if ExactlyOnce(cfg, skew, hold) {
        ExactlyOnceKeepsApart(cfg, skew, hold);
      }
    }
  }

  /** With clocks that do not run ahead, punctual handlers never overlap exactly if records outlive locks. */
  lemma TtlMustCoverLock(cfg: Config)
    requires cfg.enabled && Invertible(cfg.codec) && 0 < cfg.lockTimeout && 0 < cfg.ttl
    ensures ExactlyOnce(cfg, 0, cfg.lockTimeout) <==> cfg.lockTimeout <= cfg.ttl
    ensures HandlersApart(cfg, 0, cfg.lockTimeout) <==> cfg.lockTimeout <= cfg.ttl
  {
    LeaseLaw(cfg, 0, cfg.lockTimeout);
  }

  /** In a valid configuration neither bound has any slack: one instant later, or one instant ahead, and handlers overlap. */
  lemma NoSlack(cfg: Config)
    requires cfg.enabled && Invertible(cfg.codec) && ValidTiming(cfg)
    ensures ExactlyOnce(cfg, 0, cfg.lockTimeout)
    ensures !HandlersApart(cfg, 0, cfg.lockTimeout + 1)
    ensures !HandlersApart(cfg, 1, cfg.lockTimeout)
  {
    LeaseLaw(cfg, 0, cfg.lockTimeout);
    LeaseLaw(cfg, 0, cfg.lockTimeout + 1);
    LeaseLaw(cfg, 1, cfg.lockTimeout);
  }

  // ---------------------------------------------------------------- atomicity: clocks must be closer than the lock timeout

  /** Request o leaves `Acquire` at step i. */
  predicate Departs(states: seq<State>, i: nat, o: Uuid) {
    i + 1 < |states| && Leaves(states[i], states[i + 1], o)
  }

  /** What it leaves with is the atomic decision at some moment of its call. */
  ghost predicate AtomicSometime(cfg: Config, states: seq<State>, i: nat, o: Uuid)
    requires Departs(states, i, o)
  {
    exists j | 0 <= j <= i ::
      && o in states[j].reqs && Acquiring(states[j].reqs[o].pc)
      && states[i + 1].reqs[o].pc == Verdict(cfg, states[j].table, states[j].reqs[o].p)
  }

  ghost predicate AlwaysAtomic(cfg: Config, states: seq<State>) {
    forall i: nat, o | Departs(states, i, o) :: AtomicSometime(cfg, states, i, o)
  }

  /** In every run with clocks this close, every disposition is the atomic decision at some moment of the call. */
  ghost predicate Linearizable(cfg: Config, gap: Time) {
    forall states, acts | IsRun(cfg, states, acts) && AlwaysClose(states, gap) :: AlwaysAtomic(cfg, states)
  }

  /** The atomic decision on a table with no row, or one stale row, of the scope. */
  ghost predicate WouldAcquire(t: Table, p: Params) {
    t == map[] || exists id :: t.Keys == {id} && t[id].scope == p.scope && Stale(t[id], p.now)
  }

  lemma WouldAcquireRuns(cfg: Config, t: Table, p: Params)
    requires WouldAcquire(t, p)
    ensures Verdict(cfg, t, p).Running?
  {
  }

  /** The clock of owner 2 is one lock timeout ahead of the others; whenever it is there, it would acquire. */
  ghost predicate Ahead(cfg: Config, s: State) {
    && s.clock == 0
    && s.reqs.Keys <= {1, 2, 3}
    && (1 in s.reqs ==> s.reqs[1].p == ParamsAt(cfg, 1, 0))
    && (3 in s.reqs ==> s.reqs[3].p == ParamsAt(cfg, 3, 0))
    && (2 in s.reqs ==>
          && s.reqs[2].p == ParamsAt(cfg, 2, cfg.lockTimeout)
          && 1 in s.reqs && !Acquiring(s.reqs[1].pc) && WouldAcquire(s.table, s.reqs[2].p))
  }

  ghost predicate AllAhead(cfg: Config, states: seq<State>) {
    forall i | 0 <= i < |states| :: Ahead(cfg, states[i])
  }

  lemma ScenesAreAhead(cfg: Config, states: seq<State>)
    requires Scenes(cfg, states, 0, 0, cfg.lockTimeout)
    ensures AllAhead(cfg, states)
  {
    forall i | 0 <= i < |states| ensures Ahead(cfg, states[i]) {
      assert Scene(cfg, states[i], 0, 0, cfg.lockTimeout);
      if 2 in states[i].reqs {
        OneStaleRow(cfg, 101, Held(cfg, 1, 0), states[i].reqs[2].p);
      }
    }
  }

  lemma OneStaleRow(cfg: Config, id: Uuid, row: Row, p: Params)
    requires row.scope == p.scope && Stale(row, p.now)
    ensures WouldAcquire(map[id := row], p)
  {
    var t: Table := map[id := row];
    assert t.Keys == {id};
  }

  lemma AddAhead(cfg: Config, states: seq<State>, states': seq<State>)
    requires AllAhead(cfg, states) && |states'| == |states| + 1 && states'[..|states|] == states
    requires Ahead(cfg, states'[|states|])
    ensures AllAhead(cfg, states')
  {
    forall i | 0 <= i < |states'| ensures Ahead(cfg, states'[i]) {
      if i < |states| {
        assert states'[i] == states'[..|states|][i];
      }
    }
  }

  /** A step that leaves owner 2 able to acquire. */
  lemma AdvanceAhead(cfg: Config, states: seq<State>, acts: seq<Action>, a: Action, pc: Pc, t: Table)
    returns (states': seq<State>, acts': seq<Action>)
    requires IsRun(cfg, states, acts) && Enabled(states[|acts|], a) && IsOwnStep(a)
    requires
      var e := EffectOf(cfg, states[|acts|].table, states[|acts|].reqs[a.who], a);
      e.pc == pc && e.table == t
    requires AllAhead(cfg, states) && (a.who == 1 ==> !Acquiring(pc)) && WouldAcquire(t, ParamsAt(cfg, 2, cfg.lockTimeout))
    ensures IsRun(cfg, states', acts') && AllAhead(cfg, states')
    ensures |acts'| == |acts| + 1 && states'[|acts|] == states[|acts|]
    ensures
      var s := states[|acts|];
      Is(states'[|acts'|], s.clock, t, s.reqs[a.who := s.reqs[a.who].(pc := pc)])
  {
    states', acts' := Advance(cfg, states, acts, a, pc, t);
    assert Ahead(cfg, states[|acts|]);
    AddAhead(cfg, states, states');
    assert states'[|acts|] == states'[..|states|][|acts|];
  }

  lemma ReturnEffect(cfg: Config, t: Table, q: Req)
    requires q.pc.Running?
    ensures
      var e := EffectOf(cfg, t, q, Return(q.p.owner, FAILURE));
      e.pc == Auditing(q.pc.rec, FAILURE) && e.table == t && Proper(FAILURE)
  {
  }

  lemma AuditedEffect(cfg: Config, t: Table, q: Req, id: Uuid)
    requires q.pc == Auditing(Some(id), FAILURE)
    ensures
      var e := EffectOf(cfg, t, q, Audit(q.p.owner));
      e.pc == Settling(id, FAILURE) && e.table == t
  {
  }

  lemma SecondIsAhead(cfg: Config) returns (states: seq<State>, acts: seq<Action>)
    requires cfg.enabled && 0 < cfg.lockTimeout
    ensures IsRun(cfg, states, acts) && AllAhead(cfg, states)
    ensures Is(states[|acts|], 0, map[101 := Held(cfg, 1, 0)],
               map[1 := ReqAt(cfg, 1, 0, Running(Some(101))), 2 := ReqAt(cfg, 2, cfg.lockTimeout, TakingOver(101))])
  {
    states, acts := SecondIsTakingOver(cfg, 0, 0, cfg.lockTimeout);
    ScenesAreAhead(cfg, states);
  }

  lemma FirstReturns(cfg: Config) returns (states: seq<State>, acts: seq<Action>)
    requires cfg.enabled && 0 < cfg.lockTimeout
    ensures IsRun(cfg, states, acts) && AllAhead(cfg, states)
    ensures Is(states[|acts|], 0, map[101 := Held(cfg, 1, 0)],
               map[1 := ReqAt(cfg, 1, 0, Auditing(Some(101), FAILURE)), 2 := ReqAt(cfg, 2, cfg.lockTimeout, TakingOver(101))])
  {
    var t: Table := map[101 := Held(cfg, 1, 0)];
    states, acts := SecondIsAhead(cfg);
    OneStaleRow(cfg, 101, Held(cfg, 1, 0), ParamsAt(cfg, 2, cfg.lockTimeout));
    ReturnEffect(cfg, t, ReqAt(cfg, 1, 0, Running(Some(101))));
    states, acts := AdvanceAhead(cfg, states, acts, Return(1, FAILURE), Auditing(Some(101), FAILURE), t);
  }

  /** Owner 2 is about to take over when owner 1's handler fails. */
  lemma FirstFails(cfg: Config) returns (states: seq<State>, acts: seq<Action>)
    requires cfg.enabled && 0 < cfg.lockTimeout
    ensures IsRun(cfg, states, acts) && AllAhead(cfg, states)
    ensures Is(states[|acts|], 0, map[101 := Held(cfg, 1, 0)],
               map[1 := ReqAt(cfg, 1, 0, Settling(101, FAILURE)), 2 := ReqAt(cfg, 2, cfg.lockTimeout, TakingOver(101))])
  {
    var t: Table := map[101 := Held(cfg, 1, 0)];
    states, acts := FirstReturns(cfg);
    OneStaleRow(cfg, 101, Held(cfg, 1, 0), ParamsAt(cfg, 2, cfg.lockTimeout));
    AuditedEffect(cfg, t, ReqAt(cfg, 1, 0, Auditing(Some(101), FAILURE)), 101);
    states, acts := AdvanceAhead(cfg, states, acts, Audit(1), Settling(101, FAILURE), t);
  }

  /** The reservation of owner 1 is released. */
  lemma FirstReleases(cfg: Config) returns (states: seq<State>, acts: seq<Action>)
    requires cfg.enabled && 0 < cfg.lockTimeout
    ensures IsRun(cfg, states, acts) && AllAhead(cfg, states)
    ensures Is(states[|acts|], 0, map[],
               map[1 := ReqAt(cfg, 1, 0, Done(Handled(FAILURE))), 2 := ReqAt(cfg, 2, cfg.lockTimeout, TakingOver(101))])
  {
    states, acts := FirstFails(cfg);
    ReleaseEffect(cfg, ReqAt(cfg, 1, 0, Settling(101, FAILURE)), 101, Held(cfg, 1, 0));
    states, acts := AdvanceAhead(cfg, states, acts, Settle(1, NoFault), Done(Handled(FAILURE)), map[]);
  }

  /** The takeover finds nothing, and owner 2 must look again. */
  lemma SecondMisses(cfg: Config) returns (states: seq<State>, acts: seq<Action>)
    requires cfg.enabled && 0 < cfg.lockTimeout
    ensures IsRun(cfg, states, acts) && AllAhead(cfg, states)
    ensures Is(states[|acts|], 0, map[],
               map[1 := ReqAt(cfg, 1, 0, Done(Handled(FAILURE))), 2 := ReqAt(cfg, 2, cfg.lockTimeout, LookingAgain)])
  {
    states, acts := FirstReleases(cfg);
    TakeOverEffects(cfg, ReqAt(cfg, 2, cfg.lockTimeout, TakingOver(101)), 101, Held(cfg, 1, 0));
    states, acts := AdvanceAhead(cfg, states, acts, TakeOver(2, NoFault), LookingAgain, map[]);
  }

  /** Owner 3 arrives. */
  lemma ThirdArrives(cfg: Config) returns (states: seq<State>, acts: seq<Action>)
    requires cfg.enabled && 0 < cfg.lockTimeout
    ensures IsRun(cfg, states, acts) && AllAhead(cfg, states)
    ensures Is(states[|acts|], 0, map[],
               map[1 := ReqAt(cfg, 1, 0, Done(Handled(FAILURE))), 2 := ReqAt(cfg, 2, cfg.lockTimeout, LookingAgain),
                   3 := ReqAt(cfg, 3, 0, Inserting)])
  {
    var s12, a12 := SecondMisses(cfg);
    states, acts := Joins(cfg, s12, a12, 3, 0);
    AddAhead(cfg, s12, states);
    SkipEffect(cfg, map[], ReqAt(cfg, 3, 0, Arrived));
    states, acts := AdvanceAhead(cfg, states, acts, Cleanup(3, {}), Inserting, map[]);
  }

  /** Owner 3 reserves the key. */
  lemma ThirdRuns(cfg: Config) returns (states: seq<State>, acts: seq<Action>)
    requires cfg.enabled && 0 < cfg.lockTimeout
    ensures IsRun(cfg, states, acts) && AllAhead(cfg, states)
    ensures Is(states[|acts|], 0, map[103 := Held(cfg, 3, 0)],
               map[1 := ReqAt(cfg, 1, 0, Done(Handled(FAILURE))), 2 := ReqAt(cfg, 2, cfg.lockTimeout, LookingAgain),
                   3 := ReqAt(cfg, 3, 0, Running(Some(103)))])
  {
    states, acts := ThirdArrives(cfg);
    FreeEffect(cfg, ReqAt(cfg, 3, 0, Inserting));
    OneStaleRow(cfg, 103, Held(cfg, 3, 0), ParamsAt(cfg, 2, cfg.lockTimeout));
    states, acts := AdvanceAhead(cfg, states, acts, Insert(3, NoFault), Running(Some(103)), map[103 := Held(cfg, 3, 0)]);
  }

  ghost predicate EndsMisled(cfg: Config, states: seq<State>) {
    && |states| > 1 && AllAhead(cfg, states) && Departs(states, |states| - 2, 2)
    && states[|states| - 1].reqs[2].pc == Done(StillRunning)
  }

  /**
    Owner 2, looking again, is told that a request is still running, although the atomic decision, at every moment
    of its call, is to acquire.
   */
  lemma SecondIsMisled(cfg: Config) returns (states: seq<State>, acts: seq<Action>)
    requires cfg.enabled && 0 < cfg.lockTimeout
    ensures IsRun(cfg, states, acts) && EndsMisled(cfg, states)
  {
    var now := cfg.lockTimeout;
    states, acts := ThirdRuns(cfg);
    BusyEffect(cfg, ReqAt(cfg, 2, now, LookingAgain), 103, Held(cfg, 3, 0));
    OneStaleRow(cfg, 103, Held(cfg, 3, 0), ParamsAt(cfg, 2, now));
    states, acts := AdvanceAhead(cfg, states, acts, LookupAgain(2, NoFault), Done(StillRunning), map[103 := Held(cfg, 3, 0)]);
  }

  lemma MisledIsNotAtomic(cfg: Config, states: seq<State>)
    requires EndsMisled(cfg, states)
    ensures !AlwaysAtomic(cfg, states)
  {
    var n := |states| - 2;
    forall j | 0 <= j <= n && 2 in states[j].reqs ensures Verdict(cfg, states[j].table, states[j].reqs[2].p).Running? {
      assert Ahead(cfg, states[j]);
      WouldAcquireRuns(cfg, states[j].table, states[j].reqs[2].p);
    }
    assert !AtomicSometime(cfg, states, n, 2);
  }

  lemma AheadIsClose(cfg: Config, states: seq<State>, gap: Time)
    requires EndsMisled(cfg, states) && 0 < cfg.lockTimeout < gap
    ensures AlwaysClose(states, gap) && WellHeld(cfg, states)
  {
    forall i | 0 <= i < |states| ensures ClocksClose(states[i], gap) && Punctual(states[i], cfg.lockTimeout) {
      assert Ahead(cfg, states[i]);
    }
  }

  /** Every holder lets go before its lock ends. */
  predicate WellHeld(cfg: Config, states: seq<State>) {
    forall i | 0 <= i < |states| :: Punctual(states[i], cfg.lockTimeout)
  }

  /** Clocks one lock timeout apart break atomicity, in a run in which every holder is punctual. */
  lemma ApartClocksBreakAtomicity(cfg: Config, gap: Time) returns (states: seq<State>, acts: seq<Action>)
    requires cfg.enabled && 0 < cfg.lockTimeout < gap
    ensures IsRun(cfg, states, acts) && AlwaysClose(states, gap) && !AlwaysAtomic(cfg, states) && WellHeld(cfg, states)
  {
    states, acts := SecondIsMisled(cfg);
    AheadIsClose(cfg, states, gap);
    MisledIsNotAtomic(cfg, states);
  }

  /**
    `Acquire` behaves atomically in all runs whose clocks, within one scope, are less than `gap` apart, if and only
    if `gap` is at most the lock timeout.
   */
  lemma AtomicityLaw(cfg: Config, gap: Time)
    requires cfg.enabled && Invertible(cfg.codec) && ValidTiming(cfg)
    ensures Linearizable(cfg, gap) <==> gap <= cfg.lockTimeout
  {
    if gap <= cfg.lockTimeout {
      forall states, acts | IsRun(cfg, states, acts) && AlwaysClose(states, gap) ensures AlwaysAtomic(cfg, states) {
        CloseIsAtomic(cfg, states, acts, gap);
      }
    } else {
      var states, acts := ApartClocksBreakAtomicity(cfg, gap);
    }
  }

  lemma Closer(states: seq<State>, gap: Time, wider: Time)
    requires AlwaysClose(states, gap) && gap <= wider
    ensures AlwaysClose(states, wider)
  {
    forall i | 0 <= i < |states| ensures ClocksClose(states[i], wider) {
      assert ClocksClose(states[i], gap);
    }
  }

  lemma DecidedIsAtomic(cfg: Config, states: seq<State>, i: nat, o: Uuid)
    requires Departs(states, i, o) && Decides(cfg, states[i], states[i + 1], o)
    ensures AtomicSometime(cfg, states, i, o)
  {
  }

  lemma CloseStepIsAtomic(cfg: Config, states: seq<State>, acts: seq<Action>, i: nat, o: Uuid)
    requires Invertible(cfg.codec) && IsRun(cfg, states, acts) && i < |acts|
    requires AlwaysClose(states, cfg.lockTimeout) && AlwaysClose(states, cfg.ttl)
    requires Departs(states, i, o)
    ensures AtomicSometime(cfg, states, i, o)
  {
    AcquireRefinesAtomic(cfg, states, acts, i);
    DecidedIsAtomic(cfg, states, i, o);
  }

  lemma CloseIsAtomic(cfg: Config, states: seq<State>, acts: seq<Action>, gap: Time)
    requires Invertible(cfg.codec) && ValidTiming(cfg) && gap <= cfg.lockTimeout
    requires IsRun(cfg, states, acts) && AlwaysClose(states, gap)
    ensures AlwaysAtomic(cfg, states)
  {
    Closer(states, gap, cfg.lockTimeout);
    Closer(states, gap, cfg.ttl);
    forall i: nat, o | Departs(states, i, o) ensures AtomicSometime(cfg, states, i, o) {
      CloseStepIsAtomic(cfg, states, acts, i, o);
    }
  }
}
