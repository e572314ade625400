/**
  `Acquire` is five statements, and other requests' statements come between them. Nevertheless every run of the
  protocol is a run of a machine in which `Acquire` is a single atomic decision, except at one kind of step: a
  second lookup that answers from a row which is stale by the request's own clock. That step does not occur as
  long as the clocks of requests in `Acquire` for one scope differ by less than the lock timeout.
 */
module IdempotencyRefinement {
  import opened Prelude
  import opened IdempotencyStatements
  import opened IdempotencyProtocol
  import opened IdempotencyInvariant
  import opened IdempotencyTheorems

  // ---------------------------------------------------------------- the atomic machine

  /** Its states: a request in `Acquire` is simply waiting. */
  function AbsPc(pc: Pc): Pc {
    if Acquiring(pc) then Arrived else pc
  }

  function AbsReqs(reqs: map<Uuid, Req>): map<Uuid, Req> {
    map o | o in reqs :: reqs[o].(pc := AbsPc(reqs[o].pc))
  }

  function Abs(s: State): State {
    s.(reqs := AbsReqs(s.reqs))
  }

  datatype SpecAction =
    | Elsewhere(a: Action)                          // a step that has nothing to do with `Acquire`
    | Purge(who: Uuid, victims: set<Uuid>)          // expired rows vanish
    | Decide(who: Uuid)                             // the atomic `Acquire`
    | GiveUp(who: Uuid, applied: bool)              // a store error, with or without a reservation left behind

  predicate SpecEnabled(s: State, b: SpecAction) {
    match b
    case Elsewhere(a) => (a.Tick? || a.Arrive? || a.Return? || a.Audit? || a.Settle?) && Enabled(s, a)
    case Purge(who, victims) =>
      who in s.reqs && s.reqs[who].pc.Arrived? && Victims(s.table, victims, s.reqs[who].p.now)
    case Decide(who) => who in s.reqs && s.reqs[who].pc.Arrived?
    case GiveUp(who, _) => who in s.reqs && s.reqs[who].pc.Arrived?
  }

  ghost function SpecNext(cfg: Config, s: State, b: SpecAction): State
    requires SpecEnabled(s, b)
  {
    match b
    case Elsewhere(a) => Next(cfg, s, a)
    case Purge(_, victims) => s.(table := s.table - victims)
    case Decide(who) =>
      var p := s.reqs[who].p;
      s.(table := AtomicAcquire(s.table, p).table, reqs := Moved(s.reqs, who, Verdict(cfg, s.table, p)))
    case GiveUp(who, applied) =>
      s.(table := if applied then AtomicAcquire(s.table, s.reqs[who].p).table else s.table,
         reqs := Moved(s.reqs, who, Done(StoreDown)))
  }

  /** Which atomic step, if any, a concrete step is. */
  ghost function SpecOf(cfg: Config, s: State, a: Action): Option<SpecAction>
    requires Enabled(s, a)
  {
    match a
    case Cleanup(who, victims) => Some(Purge(who, victims))
    case Tick(_) => Some(Elsewhere(a))
    case Arrive(_, _, _, _) => Some(Elsewhere(a))
    case Return(_, _) => Some(Elsewhere(a))
    case Audit(_) => Some(Elsewhere(a))
    case Settle(_, _) => Some(Elsewhere(a))
    case _ =>
      var e := EffectOf(cfg, s.table, s.reqs[a.who], a);
      if Acquiring(e.pc) then None
      else if e.pc == Done(StoreDown) then Some(GiveUp(a.who, e.table != s.table))
      else Some(Decide(a.who))
  }

  /** Seen from the atomic machine, a step is one of its own or none at all. */
  ghost predicate Refines(cfg: Config, s: State, s': State) {
    || Abs(s') == Abs(s)
    || exists b :: SpecEnabled(Abs(s), b) && Abs(s') == SpecNext(cfg, Abs(s), b)
  }

  // ---------------------------------------------------------------- exactly when a step is atomic

  /** The second lookup finds a row that is stale by the request's own clock, and answers from it. */
  predicate AnswersFromStale(t: Table, p: Params, a: Action) {
    a.LookupAgain? && a.fault == NoFault && exists id | id in t && t[id].scope == p.scope :: Stale(t[id], p.now)
  }

  predicate Astray(s: State, a: Action)
    requires Enabled(s, a)
  {
    a.LookupAgain? && AnswersFromStale(s.table, s.reqs[a.who].p, a)
  }

  /** Request o leaves `Acquire` with a disposition. */
  predicate Leaves(s: State, s': State, o: Uuid) {
    && o in s.reqs && o in s'.reqs
    && Acquiring(s.reqs[o].pc) && !Acquiring(s'.reqs[o].pc) && s'.reqs[o].pc != Done(StoreDown)
  }

  /** The disposition and the table are those of the atomic decision on the table before the step. */
  ghost predicate Decides(cfg: Config, s: State, s': State, o: Uuid)
    requires o in s.reqs && o in s'.reqs
  {
    s'.table == AtomicAcquire(s.table, s.reqs[o].p).table && s'.reqs[o].pc == Verdict(cfg, s.table, s.reqs[o].p)
  }

  lemma AbsMoved(reqs: map<Uuid, Req>, o: Uuid, pc: Pc)
    requires o in reqs
    ensures AbsReqs(Moved(reqs, o, pc)) == Moved(AbsReqs(reqs), o, AbsPc(pc))
  {
  }

  /** What the proofs below need from the invariant. */
  predicate Basics(cfg: Config, s: State) {
    && Unique(s.table)
    && (forall o | o in s.reqs ::
          s.reqs[o].p.lockedUntil == s.reqs[o].p.now + cfg.lockTimeout && s.reqs[o].p.expiresAt == s.reqs[o].p.now + cfg.ttl)
    && (forall o | o in s.reqs && s.reqs[o].pc.TakingOver? && s.reqs[o].pc.found in s.table ::
          s.table[s.reqs[o].pc.found].scope == s.reqs[o].p.scope)
  }

  lemma ReqBasics(cfg: Config, s: State, o: Uuid)
    requires o in s.reqs && ReqOk(cfg, s.reqs, s.table, o)
    ensures s.reqs[o].p.lockedUntil == s.reqs[o].p.now + cfg.lockTimeout && s.reqs[o].p.expiresAt == s.reqs[o].p.now + cfg.ttl
    ensures s.reqs[o].pc.TakingOver? && s.reqs[o].pc.found in s.table ==>
              s.table[s.reqs[o].pc.found].scope == s.reqs[o].p.scope
  {
  }

  lemma GoodBasics(cfg: Config, s: State)
    requires Good(cfg, s.reqs, s.table)
    ensures Basics(cfg, s)
  {
    forall o | o in s.reqs
      ensures s.reqs[o].p.lockedUntil == s.reqs[o].p.now + cfg.lockTimeout && s.reqs[o].p.expiresAt == s.reqs[o].p.now + cfg.ttl
      ensures s.reqs[o].pc.TakingOver? && s.reqs[o].pc.found in s.table ==>
                s.table[s.reqs[o].pc.found].scope == s.reqs[o].p.scope
    {
      ReqBasics(cfg, s, o);
    }
  }

  /** A statement that ends `Acquire` without an error is the atomic decision on the table it sees, exactly if not astray. */
  lemma DecisionIsAtomic(cfg: Config, t: Table, q: Req, a: Action)
    requires a.Insert? || a.Lookup? || a.TakeOver? || a.LookupAgain?
    requires AtPc(q.pc, a) && Unique(t)
    requires q.pc.TakingOver? && q.pc.found in t ==> t[q.pc.found].scope == q.p.scope
    ensures
      var e := EffectOf(cfg, t, q, a);
      && e.events == []
      && (Acquiring(e.pc) ==> e.table == t)
      && (e.table == t || e.table == AtomicAcquire(t, q.p).table)
      && (!Acquiring(e.pc) && e.pc != Done(StoreDown) ==>
            (e.table == AtomicAcquire(t, q.p).table && e.pc == Verdict(cfg, t, q.p) <==> !AnswersFromStale(t, q.p, a)))
  {
    if a.TakeOver? && q.pc.found in t {
      FindIs(t, q.pc.found);
    }
    if AnswersFromStale(t, q.p, a) {
      StaleAnswer(cfg, t, q, a);
    }
  }

  lemma StaleAnswer(cfg: Config, t: Table, q: Req, a: Action)
    requires AtPc(q.pc, a) && Unique(t) && AnswersFromStale(t, q.p, a)
    ensures EffectOf(cfg, t, q, a).pc.Done? && EffectOf(cfg, t, q, a).pc != Done(StoreDown)
    ensures Verdict(cfg, t, q.p).Running?
  {
    var id :| id in t && t[id].scope == q.p.scope && Stale(t[id], q.p.now);
    FindIs(t, id);
  }

  lemma AcquireStepIsAtomic(cfg: Config, s: State, a: Action)
    requires a.Insert? || a.Lookup? || a.TakeOver? || a.LookupAgain?
    requires Enabled(s, a) && Basics(cfg, s) && !Astray(s, a)
    ensures
      var b := SpecOf(cfg, s, a);
      if b.None? then Abs(Next(cfg, s, a)) == Abs(s)
      else SpecEnabled(Abs(s), b.value) && Abs(Next(cfg, s, a)) == SpecNext(cfg, Abs(s), b.value)
  {
    var q := s.reqs[a.who];
    var e := EffectOf(cfg, s.table, q, a);
    DecisionIsAtomic(cfg, s.table, q, a);
    AbsMoved(s.reqs, a.who, e.pc);
    assert AbsReqs(s.reqs)[a.who].p == q.p;
    assert s.log + [] == s.log;
  }

  lemma OtherStepIsTheSame(cfg: Config, s: State, a: Action)
    requires Enabled(s, a) && !(a.Insert? || a.Lookup? || a.TakeOver? || a.LookupAgain?)
    ensures
      var b := SpecOf(cfg, s, a);
      b.Some? && SpecEnabled(Abs(s), b.value) && Abs(Next(cfg, s, a)) == SpecNext(cfg, Abs(s), b.value)
  {
    if a.Arrive? {
      var q := Req(a.input, ParamsFor(cfg, a.input, a.id, a.who, a.now), Entry(cfg, a.input));
      assert AbsReqs(s.reqs[a.who := q]) == AbsReqs(s.reqs)[a.who := q];
    } else if a.Cleanup? {
      AbsMoved(s.reqs, a.who, Inserting);
      assert Moved(AbsReqs(s.reqs), a.who, Arrived) == AbsReqs(s.reqs);
      assert s.log + [] == s.log;
    } else if !a.Tick? {
      var q := s.reqs[a.who];
      assert AbsReqs(s.reqs)[a.who] == q;
      AbsMoved(s.reqs, a.who, EffectOf(cfg, s.table, q, a).pc);
    }
  }

  /** The atomic machine moves a waiting request to its verdict or to a store error, nowhere else. */
  lemma SpecMoves(cfg: Config, s: State, b: SpecAction, o: Uuid)
    requires SpecEnabled(s, b) && o in s.reqs && s.reqs[o].pc.Arrived?
    ensures o in SpecNext(cfg, s, b).reqs
    ensures SpecNext(cfg, s, b).reqs[o].pc in {Arrived, Verdict(cfg, s.table, s.reqs[o].p), Done(StoreDown)}
  {
  }

  lemma AstrayIsNotAtomic(cfg: Config, s: State, a: Action)
    requires Enabled(s, a) && Basics(cfg, s) && Astray(s, a)
    ensures !Refines(cfg, s, Next(cfg, s, a))
  {
    var s', o := Next(cfg, s, a), a.who;
    StaleAnswer(cfg, s.table, s.reqs[o], a);
    assert Abs(s).reqs[o].pc == Arrived && Abs(s').reqs[o].pc == s'.reqs[o].pc;
    forall b | SpecEnabled(Abs(s), b) ensures Abs(s') != SpecNext(cfg, Abs(s), b) {
      SpecMoves(cfg, Abs(s), b, o);
    }
  }

  /**
    Exactly when the multi-statement `Acquire` is atomic, with no assumption about clocks: every step of every run is
    a step of the atomic machine or invisible to it, and a request that leaves `Acquire` with a disposition has made
    the atomic decision, unless the step is a second lookup that answers from a row stale by the request's own clock.
   */
  lemma AtomicUnlessAstray(cfg: Config, states: seq<State>, acts: seq<Action>, i: nat)
    requires Invertible(cfg.codec) && IsRun(cfg, states, acts) && i < |acts|
    ensures Refines(cfg, states[i], states[i + 1]) <==> !Astray(states[i], acts[i])
    ensures
      var s, s' := states[i], states[i + 1];
      forall o | Leaves(s, s', o) :: Decides(cfg, s, s', o) <==> !Astray(s, acts[i])
  {
    RunsAreGood(cfg, states, acts, i);
    GoodBasics(cfg, states[i]);
    StepRefines(cfg, states[i], acts[i]);
    LeavingDecides(cfg, states[i], acts[i]);
  }

  lemma StepRefines(cfg: Config, s: State, a: Action)
    requires Enabled(s, a) && Basics(cfg, s)
    ensures Refines(cfg, s, Next(cfg, s, a)) <==> !Astray(s, a)
  {
    if a.Insert? || a.Lookup? || a.TakeOver? || a.LookupAgain? {
      if Astray(s, a) {
        AstrayIsNotAtomic(cfg, s, a);
      } else {
        AcquireStepIsAtomic(cfg, s, a);
      }
    } else {
      OtherStepIsTheSame(cfg, s, a);
    }
  }

  lemma LeavingDecides(cfg: Config, s: State, a: Action)
    requires Enabled(s, a) && Basics(cfg, s)
    ensures forall o | Leaves(s, Next(cfg, s, a), o) ::
              Decides(cfg, s, Next(cfg, s, a), o) <==> !Astray(s, a)
  {
    forall o | Leaves(s, Next(cfg, s, a), o) ensures Decides(cfg, s, Next(cfg, s, a), o) <==> !Astray(s, a) {
      LeavingIsOwn(cfg, s, a, o);
      DecisionIsAtomic(cfg, s.table, s.reqs[o], a);
    }
  }

  lemma LeavingIsOwn(cfg: Config, s: State, a: Action, o: Uuid)
    requires Enabled(s, a) && Leaves(s, Next(cfg, s, a), o)
    ensures (a.Insert? || a.Lookup? || a.TakeOver? || a.LookupAgain?) && a.who == o
  {
  }

  // ---------------------------------------------------------------- the clock assumption and what it buys

  /** Clocks of requests in `Acquire` at the same time, for the same scope, are less than `gap` apart. */
  predicate ClocksClose(s: State, gap: Time) {
    forall a, b | a in s.reqs && b in s.reqs && Acquiring(s.reqs[a].pc) && Acquiring(s.reqs[b].pc) &&
                  s.reqs[a].p.scope == s.reqs[b].p.scope ::
      s.reqs[a].p.now < s.reqs[b].p.now + gap
  }

  predicate AlwaysClose(states: seq<State>, gap: Time) {
    forall i | 0 <= i < |states| :: ClocksClose(states[i], gap)
  }

  /** After a failed takeover, and of every row but the one it is after, a request sees only rows that are not stale. */
  predicate FreshFor(t: Table, q: Req) {
    (q.pc.TakingOver? || q.pc.LookingAgain?) ==>
      forall id | id in t && t[id].scope == q.p.scope && (q.pc.TakingOver? ==> id != q.pc.found) :: !Stale(t[id], q.p.now)
  }

  /** Another request's step keeps it: what it writes into the scope is newer than a lock timeout ago. */
  lemma OthersKeepFresh(t: Table, q': Req, a: Action, t': Table, q: Req)
    requires IsOwnStep(a) && AtPc(q'.pc, a) && TableStep(t, q', a, t') && FreshFor(t, q)
    requires q'.pc.TakingOver? && q'.pc.found in t ==> t[q'.pc.found].scope == q'.p.scope
    requires Acquiring(q'.pc) && Acquiring(q.pc) && q.p.scope == q'.p.scope ==>
               q.p.now < q'.p.lockedUntil && q.p.now < q'.p.expiresAt
    ensures FreshFor(t', q)
  {
  }

  lemma LookupMakesFresh(cfg: Config, t: Table, q: Req, fault: Fault)
    requires Unique(t) && q.pc.LookingUp?
    ensures FreshFor(t, q.(pc := LookupEffect(cfg, t, q.p, fault).pc))
  {
  }

  lemma FailedTakeOverIsFresh(t: Table, q: Req, fault: Fault)
    requires q.pc.TakingOver? && FreshFor(t, q)
    ensures
      var e := TakeOverEffect(t, q.pc.found, q.p, fault);
      FreshFor(e.table, q.(pc := e.pc))
  {
  }

  lemma OwnStepKeepsFresh(cfg: Config, t: Table, q: Req, a: Action)
    requires Unique(t) && AtPc(q.pc, a) && FreshFor(t, q)
    ensures
      var e := EffectOf(cfg, t, q, a);
      FreshFor(e.table, q.(pc := e.pc))
  {
    match a
    case Lookup(_, fault) => LookupMakesFresh(cfg, t, q, fault);
    case TakeOver(_, fault) => FailedTakeOverIsFresh(t, q, fault);
    case _ =>
  }

  predicate AllFresh(s: State) {
    forall o | o in s.reqs :: FreshFor(s.table, s.reqs[o])
  }

  lemma StepKeepsFresh(cfg: Config, s: State, a: Action)
    requires Basics(cfg, s) && Enabled(s, a) && AllFresh(s)
    requires ClocksClose(s, cfg.lockTimeout) && ClocksClose(s, cfg.ttl)
    ensures AllFresh(Next(cfg, s, a))
  {
    if IsOwnStep(a) {
      StepShape(cfg, s, a);
      var s' := Next(cfg, s, a);
      forall o | o in s'.reqs ensures FreshFor(s'.table, s'.reqs[o]) {
        if o == a.who {
          OwnStepKeepsFresh(cfg, s.table, s.reqs[o], a);
        } else {
          OthersKeepFresh(s.table, s.reqs[a.who], a, s'.table, s.reqs[o]);
        }
      }
    }
  }

  lemma {:induction false} RunsAreFresh(cfg: Config, states: seq<State>, acts: seq<Action>, i: nat)
    requires Invertible(cfg.codec) && IsRun(cfg, states, acts) && i < |states|
    requires AlwaysClose(states, cfg.lockTimeout) && AlwaysClose(states, cfg.ttl)
    ensures Basics(cfg, states[i]) && AllFresh(states[i])
  {
    RunsAreGood(cfg, states, acts, i);
    GoodBasics(cfg, states[i]);
    if i > 0 {
      RunsAreFresh(cfg, states, acts, i - 1);
      StepKeepsFresh(cfg, states[i - 1], acts[i - 1]);
    }
  }

  /** With clocks closer than the lock timeout and the TTL, no step goes astray: every run refines the atomic machine. */
  lemma AcquireRefinesAtomic(cfg: Config, states: seq<State>, acts: seq<Action>, i: nat)
    requires Invertible(cfg.codec) && IsRun(cfg, states, acts) && i < |acts|
    requires AlwaysClose(states, cfg.lockTimeout) && AlwaysClose(states, cfg.ttl)
    ensures Refines(cfg, states[i], states[i + 1])
    ensures
      var s, s' := states[i], states[i + 1];
      forall o | Leaves(s, s', o) :: Decides(cfg, s, s', o)
  {
    RunsAreFresh(cfg, states, acts, i);
    assert Enabled(states[i], acts[i]);
    assert acts[i].LookupAgain? ==> FreshFor(states[i].table, states[i].reqs[acts[i].who]);
    AtomicUnlessAstray(cfg, states, acts, i);
  }
}
