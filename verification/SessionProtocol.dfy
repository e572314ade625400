/**
  Logins, refreshes, logouts and revocations interleaved at their repository calls. `Refresh` reads the
  session, looks the user up, makes a new token and swaps it in; anything may happen between these calls,
  each request has its own clock, and any statement may fail with or without taking effect.
 */
module SessionProtocol {
  import opened Prelude
  import opened SessionStatements

  datatype Config = Config(ttl: Time, sha: Raw -> Hash)

  datatype Answer = Granted(next: Raw) | InvalidToken | Failure

  datatype Pc =
    | Finding
    | Checking(sid: Uuid)                 // session read, user not yet
    | Dropping                            // user gone or disabled: about to revoke
    | Rotating(sid: Uuid, next: Raw)
    | Done(answer: Answer)

  /** A `Refresh` call presenting `raw`, whatever that is. */
  datatype Req = Req(raw: Raw, now: Time, pc: Pc)

  /** A rotation that took effect: token number `pos` of the session was exchanged for the next one. */
  datatype Commit = Commit(who: Uuid, sid: Uuid, pos: nat, now: Time)

  /**
    `generated` are the random tokens made so far; `chains` the tokens each session has had, in order.
    Both, and `commits`, are history: no step reads them.
   */
  datatype State = State(
    table: Sessions, reqs: map<Uuid, Req>, generated: set<Raw>, chains: map<Uuid, seq<Raw>>, commits: seq<Commit>)

  datatype UserCheck = UserFine | UserUnfit | UserError

  datatype Action =
    | Login(sid: Uuid, userId: string, raw: Raw, now: Time, fault: Fault)
    | StartRefresh(who: Uuid, raw: Raw, now: Time)
    | Find(who: Uuid, fault: Fault)
    | Check(who: Uuid, verdict: UserCheck, next: Raw)
    | Drop(who: Uuid, fault: Fault)
    | Rotate(who: Uuid, fault: Fault)
    | Logout(raw: Raw, now: Time, fault: Fault)
    | RevokeSession(sid: Uuid, userId: string, now: Time, fault: Fault)

  /** Assumptions: UUIDs and random tokens are new. */
  predicate Enabled(s: State, a: Action) {
    match a
    case Login(sid, _, raw, _, _) => sid !in s.table && raw !in s.generated
    case StartRefresh(who, _, _) => who !in s.reqs
    case Find(who, _) => who in s.reqs && s.reqs[who].pc.Finding?
    case Check(who, _, next) => who in s.reqs && s.reqs[who].pc.Checking? && next !in s.generated
    case Drop(who, _) => who in s.reqs && s.reqs[who].pc.Dropping?
    case Rotate(who, _) => who in s.reqs && s.reqs[who].pc.Rotating?
    case Logout(_, _, _) => true
    case RevokeSession(_, _, _, _) => true
  }

  function WithPc(s: State, who: Uuid, pc: Pc): State
    requires who in s.reqs
  {
    s.(reqs := s.reqs[who := s.reqs[who].(pc := pc)])
  }

  function NewSession(cfg: Config, userId: string, raw: Raw, now: Time): Session {
    Session(userId, cfg.sha(raw), now, None, now + cfg.ttl, None)
  }

  function LoginNext(cfg: Config, s: State, sid: Uuid, userId: string, raw: Raw, now: Time, fault: Fault): State {
    var s1 := s.(generated := s.generated + {raw});
    if fault == Refused || sid in s.table || HashTaken(s.table, cfg.sha(raw)) then s1
    else s1.(table := s.table[sid := NewSession(cfg, userId, raw, now)], chains := s.chains[sid := [raw]])
  }

  /** The compare-and-swap; a violated unique constraint is an error. */
  function RotateNext(cfg: Config, s: State, who: Uuid, fault: Fault): State
    requires who in s.reqs && s.reqs[who].pc.Rotating?
  {
    var q := s.reqs[who];
    var sid, next := q.pc.sid, q.pc.next;
    if fault == Refused then WithPc(s, who, Done(Failure))
    else if !CanRotate(s.table, sid, cfg.sha(q.raw), q.now) then
      WithPc(s, who, Done(if fault == NoFault then InvalidToken else Failure))
    else if HashTaken(s.table, cfg.sha(next)) then WithPc(s, who, Done(Failure))
    else
      var chain := if sid in s.chains then s.chains[sid] else [];
      WithPc(s, who, Done(if fault == NoFault then Granted(next) else Failure)).(
        table := Rotated(s.table, sid, cfg.sha(next), q.now),
        chains := s.chains[sid := chain + [next]],
        commits := s.commits + [Commit(who, sid, if |chain| > 0 then |chain| - 1 else 0, q.now)])
  }

  ghost function Next(cfg: Config, s: State, a: Action): State
    requires Enabled(s, a)
  {
    match a
    case Login(sid, userId, raw, now, fault) => LoginNext(cfg, s, sid, userId, raw, now, fault)
    case StartRefresh(who, raw, now) => s.(reqs := s.reqs[who := Req(raw, now, Finding)])
    case Find(who, fault) =>
      var found := FindActive(s.table, cfg.sha(s.reqs[who].raw), s.reqs[who].now);
      WithPc(s, who, if fault != NoFault then Done(Failure) else if found.None? then Done(InvalidToken) else Checking(found.value))
    case Check(who, verdict, next) =>
      (match verdict
       case UserError => WithPc(s, who, Done(Failure))
       case UserUnfit => WithPc(s, who, Dropping)
       case UserFine => WithPc(s, who, Rotating(s.reqs[who].pc.sid, next)).(generated := s.generated + {next}))
    case Drop(who, fault) =>
      var s1 := WithPc(s, who, Done(InvalidToken));
      if fault == Refused then s1 else s1.(table := RevokedByHash(s.table, cfg.sha(s.reqs[who].raw), s.reqs[who].now))
    case Rotate(who, fault) => RotateNext(cfg, s, who, fault)
    case Logout(raw, now, fault) =>
      if fault == Refused then s else s.(table := RevokedByHash(s.table, cfg.sha(raw), now))
    case RevokeSession(sid, userId, now, fault) =>
      if fault == Refused || !CanRevoke(s.table, sid, userId) then s else s.(table := Revoked(s.table, sid, now))
  }

  ghost predicate IsRun(cfg: Config, states: seq<State>, acts: seq<Action>) {
    && |states| == |acts| + 1
    && states[0] == State(map[], map[], {}, map[], [])
    && forall i | 0 <= i < |acts| :: Enabled(states[i], acts[i]) && states[i + 1] == Next(cfg, states[i], acts[i])
  }
}

module SessionTheorems {
  import opened Prelude
  import opened SessionStatements
  import opened SessionProtocol

  // ---------------------------------------------------------------- the invariant

  /** A session carries the hash of the last token of its chain and a fixed lifetime. */
  predicate SessionOk(cfg: Config, session: Session, chain: seq<Raw>) {
    && |chain| > 0 && session.tokenHash == cfg.sha(chain[|chain| - 1])
    && session.expiresAt == session.createdAt + cfg.ttl
  }

  /** Tokens are never reused, within a session or across sessions. */
  predicate ChainsDistinct(chains: map<Uuid, seq<Raw>>) {
    forall a, b, i, j | a in chains && b in chains && 0 <= i < |chains[a]| && 0 <= j < |chains[b]| &&
                        chains[a][i] == chains[b][j] :: a == b && i == j
  }

  predicate ChainsGenerated(s: State) {
    forall sid, i | sid in s.chains && 0 <= i < |s.chains[sid]| :: s.chains[sid][i] in s.generated
  }

  /** A token about to be swapped in is in no chain, and no two requests are about to swap in the same one. */
  predicate NextsFresh(s: State) {
    && (forall w, sid, i | w in s.reqs && s.reqs[w].pc.Rotating? && sid in s.chains && 0 <= i < |s.chains[sid]| ::
          s.chains[sid][i] != s.reqs[w].pc.next)
    && (forall w | w in s.reqs && s.reqs[w].pc.Rotating? :: s.reqs[w].pc.next in s.generated)
    && (forall v, w | v in s.reqs && w in s.reqs && s.reqs[v].pc.Rotating? && s.reqs[w].pc.Rotating? &&
                      s.reqs[v].pc.next == s.reqs[w].pc.next :: v == w)
  }

  predicate TableOk(cfg: Config, s: State) {
    && s.chains.Keys == s.table.Keys
    && (forall sid | sid in s.table :: SessionOk(cfg, s.table[sid], s.chains[sid]))
  }

  /** A rotation: its request presented the token it consumed, before the session's end. */
  predicate CommitOk(s: State, c: Commit) {
    && c.sid in s.chains && c.sid in s.table && c.pos + 1 < |s.chains[c.sid]|
    && c.who in s.reqs && s.reqs[c.who].pc.Done? && s.reqs[c.who].raw == s.chains[c.sid][c.pos]
    && s.reqs[c.who].pc.answer in {Granted(s.chains[c.sid][c.pos + 1]), Failure}
    && c.now < s.table[c.sid].expiresAt
  }

  predicate CommitsOk(s: State) {
    && (forall i | 0 <= i < |s.commits| :: CommitOk(s, s.commits[i]))
    && (forall i, j | 0 <= i < j < |s.commits| ::
          s.commits[i].who != s.commits[j].who &&
          (s.commits[i].sid == s.commits[j].sid ==> s.commits[i].pos < s.commits[j].pos))
  }

  /** Every grant is a rotation that took effect. */
  ghost predicate GrantsCommitted(s: State) {
    forall w | w in s.reqs && s.reqs[w].pc.Done? && s.reqs[w].pc.answer.Granted? ::
      exists i | 0 <= i < |s.commits| :: s.commits[i].who == w
  }

  predicate Linked(commits: seq<Commit>, sid: Uuid, pos: nat) {
    exists c | c in commits :: c.sid == sid && c.pos == pos
  }

  /** Every link of every chain is a rotation that took effect. */
  ghost predicate LinksCommitted(s: State) {
    forall sid, pos: nat | sid in s.chains && pos + 1 < |s.chains[sid]| :: Linked(s.commits, sid, pos)
  }

  ghost predicate Good(cfg: Config, s: State) {
    && TableOk(cfg, s) && ChainsDistinct(s.chains) && ChainsGenerated(s) && NextsFresh(s)
    && CommitsOk(s) && GrantsCommitted(s) && LinksCommitted(s)
  }

  // ---------------------------------------------------------------- preservation

  /** Steps that change neither chains nor commits: only revocations, lookups and moves of unfinished requests. */
  predicate Quiet(cfg: Config, s: State, s': State) {
    && s'.chains == s.chains && s'.commits == s.commits && s.generated <= s'.generated
    && s'.table.Keys == s.table.Keys
    && (forall sid | sid in s.table ::
          s'.table[sid].tokenHash == s.table[sid].tokenHash && s'.table[sid].createdAt == s.table[sid].createdAt
          && s'.table[sid].expiresAt == s.table[sid].expiresAt)
    && s.reqs.Keys <= s'.reqs.Keys
    && (forall w | w in s'.reqs :: if w in s.reqs && s.reqs[w].pc.Done? then s'.reqs[w] == s.reqs[w]
                                   else !(s'.reqs[w].pc.Done? && s'.reqs[w].pc.answer.Granted?))
  }

  predicate NoNewNexts(s: State, s': State) {
    forall w | w in s'.reqs && s'.reqs[w].pc.Rotating? :: w in s.reqs && s.reqs[w].pc == s'.reqs[w].pc
  }

  lemma QuietKeepsGood(cfg: Config, s: State, s': State)
    requires Good(cfg, s) && Quiet(cfg, s, s') && NextsFresh(s')
    ensures Good(cfg, s')
  {
    forall i | 0 <= i < |s'.commits| ensures CommitOk(s', s'.commits[i]) {
      assert CommitOk(s, s.commits[i]);
    }
  }

  lemma NextsStayFresh(s: State, s': State)
    requires NextsFresh(s) && s'.chains == s.chains && s.generated <= s'.generated && NoNewNexts(s, s')
    ensures NextsFresh(s')
  {
  }

  /** A statement that at most revokes. */
  predicate OnlyRevokes(t: Sessions, t': Sessions) {
    && t'.Keys == t.Keys
    && forall sid | sid in t ::
         t'[sid].tokenHash == t[sid].tokenHash && t'[sid].createdAt == t[sid].createdAt && t'[sid].expiresAt == t[sid].expiresAt
  }

  lemma RevokingOnlyRevokes(t: Sessions, hash: Hash, now: Time)
    ensures OnlyRevokes(t, RevokedByHash(t, hash, now))
  {
  }

  lemma MoveIsQuiet(cfg: Config, s: State, who: Uuid, q: Req, t': Sessions)
    requires OnlyRevokes(s.table, t') && (who in s.reqs ==> !s.reqs[who].pc.Done?)
    requires !q.pc.Rotating? && !(q.pc.Done? && q.pc.answer.Granted?)
    ensures
      var s' := s.(table := t', reqs := s.reqs[who := q]);
      Quiet(cfg, s, s') && NoNewNexts(s, s')
  {
  }

  lemma QuietMove(cfg: Config, s: State, a: Action)
    requires Enabled(s, a) && (a.StartRefresh? || a.Find?)
    ensures Quiet(cfg, s, Next(cfg, s, a)) && NoNewNexts(s, Next(cfg, s, a))
  {
    assert OnlyRevokes(s.table, s.table);
    MoveIsQuiet(cfg, s, a.who, Next(cfg, s, a).reqs[a.who], s.table);
  }

  lemma QuietDrop(cfg: Config, s: State, who: Uuid, fault: Fault)
    requires Enabled(s, Drop(who, fault))
    ensures Quiet(cfg, s, Next(cfg, s, Drop(who, fault))) && NoNewNexts(s, Next(cfg, s, Drop(who, fault)))
  {
    RevokingOnlyRevokes(s.table, cfg.sha(s.reqs[who].raw), s.reqs[who].now);
    MoveIsQuiet(cfg, s, who, s.reqs[who].(pc := Done(InvalidToken)), Next(cfg, s, Drop(who, fault)).table);
  }

  lemma QuietRevoke(cfg: Config, s: State, a: Action)
    requires Enabled(s, a) && (a.Logout? || a.RevokeSession?)
    ensures Quiet(cfg, s, Next(cfg, s, a)) && NoNewNexts(s, Next(cfg, s, a))
  {
    if a.Logout? {
      RevokingOnlyRevokes(s.table, cfg.sha(a.raw), a.now);
    }
  }

  lemma QuietSteps(cfg: Config, s: State, s': State)
    requires Good(cfg, s) && Quiet(cfg, s, s') && NoNewNexts(s, s')
    ensures Good(cfg, s')
  {
    NextsStayFresh(s, s');
    QuietKeepsGood(cfg, s, s');
  }

  lemma CheckKeepsGood(cfg: Config, s: State, who: Uuid, verdict: UserCheck, next: Raw)
    requires Good(cfg, s) && Enabled(s, Check(who, verdict, next))
    ensures Good(cfg, Next(cfg, s, Check(who, verdict, next)))
  {
    var s' := Next(cfg, s, Check(who, verdict, next));
    if verdict == UserFine {
      NewNextIsFresh(s, s', who, next);
    } else {
      NextsStayFresh(s, s');
    }
    QuietKeepsGood(cfg, s, s');
  }

  lemma NewNextIsFresh(s: State, s': State, who: Uuid, next: Raw)
    requires NextsFresh(s) && ChainsGenerated(s) && who in s.reqs && s.reqs[who].pc.Checking? && next !in s.generated
    requires s' == WithPc(s, who, Rotating(s.reqs[who].pc.sid, next)).(generated := s.generated + {next})
    ensures NextsFresh(s')
  {
  }

  lemma LoginKeepsGood(cfg: Config, s: State, a: Action)
    requires Good(cfg, s) && Enabled(s, a) && a.Login?
    ensures Good(cfg, Next(cfg, s, a))
  {
    var s' := Next(cfg, s, a);
    if s'.table == s.table {
      QuietSteps(cfg, s, s');
    } else {
      AddChain(s, s', a.sid, a.raw);
      AddedChainKeepsCommits(cfg, s, s', a.sid, a.raw);
    }
  }

  lemma AddedChainKeepsCommits(cfg: Config, s: State, s': State, sid: Uuid, raw: Raw)
    requires CommitsOk(s) && LinksCommitted(s) && sid !in s.chains && sid !in s.table
    requires s'.chains == s.chains[sid := [raw]] && s'.reqs == s.reqs && s'.commits == s.commits
    requires s'.table.Keys == s.table.Keys + {sid} && forall k | k in s.table :: s'.table[k] == s.table[k]
    ensures CommitsOk(s') && LinksCommitted(s')
  {
    forall i | 0 <= i < |s'.commits| ensures CommitOk(s', s'.commits[i]) {
      assert CommitOk(s, s.commits[i]);
    }
  }

  lemma AddChain(s: State, s': State, sid: Uuid, raw: Raw)
    requires ChainsDistinct(s.chains) && ChainsGenerated(s) && NextsFresh(s)
    requires sid !in s.chains && raw !in s.generated
    requires s'.chains == s.chains[sid := [raw]] && s'.generated == s.generated + {raw} && s'.reqs == s.reqs
    ensures ChainsDistinct(s'.chains) && ChainsGenerated(s') && NextsFresh(s')
  {
  }

  /** A rotation extends one chain by a token that is in no chain. */
  lemma ExtendChain(s: State, s': State, who: Uuid)
    requires ChainsDistinct(s.chains) && ChainsGenerated(s) && NextsFresh(s)
    requires who in s.reqs && s.reqs[who].pc.Rotating? && s.reqs[who].pc.sid in s.chains
    requires
      var sid, next := s.reqs[who].pc.sid, s.reqs[who].pc.next;
      s'.chains == s.chains[sid := s.chains[sid] + [next]]
    requires s'.generated == s.generated && s'.reqs.Keys == s.reqs.Keys && s'.reqs[who].pc.Done?
    requires forall w | w in s.reqs && w != who :: s'.reqs[w] == s.reqs[w]
    ensures ChainsDistinct(s'.chains) && ChainsGenerated(s') && NextsFresh(s')
  {
  }

  /** The token a rotation consumes is the last of the session's chain. */
  lemma RotationConsumesLast(cfg: Config, s: State, who: Uuid)
    requires Injective(cfg.sha) && TableOk(cfg, s) && who in s.reqs && s.reqs[who].pc.Rotating?
    requires CanRotate(s.table, s.reqs[who].pc.sid, cfg.sha(s.reqs[who].raw), s.reqs[who].now)
    ensures
      var sid := s.reqs[who].pc.sid;
      && sid in s.chains && |s.chains[sid]| > 0
      && s.reqs[who].raw == s.chains[sid][|s.chains[sid]| - 1]
  {
    var sid := s.reqs[who].pc.sid;
    assert SessionOk(cfg, s.table[sid], s.chains[sid]);
  }

  /** The effect of a rotation that commits. */
  ghost predicate Rotates(cfg: Config, s: State, s': State, who: Uuid)
    requires who in s.reqs && s.reqs[who].pc.Rotating? && s.reqs[who].pc.sid in s.chains && s.reqs[who].pc.sid in s.table
  {
    var q := s.reqs[who];
    var sid, chain := q.pc.sid, s.chains[q.pc.sid];
    && |chain| > 0 && q.raw == chain[|chain| - 1] && q.now < s.table[sid].expiresAt
    && s'.table == Rotated(s.table, sid, cfg.sha(q.pc.next), q.now)
    && s'.chains == s.chains[sid := chain + [q.pc.next]]
    && s'.commits == s.commits + [Commit(who, sid, |chain| - 1, q.now)]
    && s'.generated == s.generated && s'.reqs.Keys == s.reqs.Keys
    && s'.reqs[who].raw == q.raw
    && (s'.reqs[who].pc == Done(Granted(q.pc.next)) || s'.reqs[who].pc == Done(Failure))
    && (forall w | w in s.reqs && w != who :: s'.reqs[w] == s.reqs[w])
  }

  lemma RotationKeepsCommits(cfg: Config, s: State, s': State, who: Uuid)
    requires CommitsOk(s) && TableOk(cfg, s) && who in s.reqs && s.reqs[who].pc.Rotating?
    requires s.reqs[who].pc.sid in s.chains && s.reqs[who].pc.sid in s.table && Rotates(cfg, s, s', who)
    ensures CommitsOk(s')
  {
    var n := |s.commits|;
    forall i | 0 <= i < |s'.commits| ensures CommitOk(s', s'.commits[i]) {
      if i < n {
        assert s'.commits[i] == s.commits[i] && CommitOk(s, s.commits[i]);
      }
    }
    forall i, j | 0 <= i < j < |s'.commits|
      ensures s'.commits[i].who != s'.commits[j].who
      ensures s'.commits[i].sid == s'.commits[j].sid ==> s'.commits[i].pos < s'.commits[j].pos
    {
      assert s'.commits[i] == s.commits[i] && CommitOk(s, s.commits[i]);
      if j < n {
        assert s'.commits[j] == s.commits[j];
      }
    }
  }

  lemma RotationKeepsGrants(cfg: Config, s: State, s': State, who: Uuid)
    requires GrantsCommitted(s) && who in s.reqs && s.reqs[who].pc.Rotating?
    requires s.reqs[who].pc.sid in s.chains && s.reqs[who].pc.sid in s.table && Rotates(cfg, s, s', who)
    ensures GrantsCommitted(s')
  {
    var n := |s.commits|;
    assert s'.commits[n].who == who;
    forall w | w in s'.reqs && s'.reqs[w].pc.Done? && s'.reqs[w].pc.answer.Granted?
      ensures exists i | 0 <= i < |s'.commits| :: s'.commits[i].who == w
    {
      if w != who {
        var i :| 0 <= i < n && s.commits[i].who == w;
        assert s'.commits[i].who == w;
      }
    }
  }

  lemma RotationKeepsLinks(cfg: Config, s: State, s': State, who: Uuid)
    requires LinksCommitted(s) && who in s.reqs && s.reqs[who].pc.Rotating?
    requires s.reqs[who].pc.sid in s.chains && s.reqs[who].pc.sid in s.table && Rotates(cfg, s, s', who)
    ensures LinksCommitted(s')
  {
    forall sid, pos: nat | sid in s'.chains && pos + 1 < |s'.chains[sid]| ensures Linked(s'.commits, sid, pos) {
      if sid == s.reqs[who].pc.sid && pos + 1 == |s.chains[sid]| {
        assert s'.commits[|s.commits|] in s'.commits;
      } else {
        assert Linked(s.commits, sid, pos);
      }
    }
  }

  lemma RotateShape(cfg: Config, s: State, who: Uuid, fault: Fault)
    requires Injective(cfg.sha) && TableOk(cfg, s) && Enabled(s, Rotate(who, fault))
    ensures
      var s' := RotateNext(cfg, s, who, fault);
      if s'.commits == s.commits then Quiet(cfg, s, s') && NoNewNexts(s, s')
      else s.reqs[who].pc.sid in s.chains && s.reqs[who].pc.sid in s.table && Rotates(cfg, s, s', who)
  {
    if CanRotate(s.table, s.reqs[who].pc.sid, cfg.sha(s.reqs[who].raw), s.reqs[who].now) {
      RotationConsumesLast(cfg, s, who);
    }
  }

  lemma RotationKeepsTable(cfg: Config, s: State, s': State, who: Uuid)
    requires TableOk(cfg, s) && who in s.reqs && s.reqs[who].pc.Rotating?
    requires s.reqs[who].pc.sid in s.chains && s.reqs[who].pc.sid in s.table && Rotates(cfg, s, s', who)
    ensures TableOk(cfg, s')
  {
    forall sid | sid in s'.table ensures SessionOk(cfg, s'.table[sid], s'.chains[sid]) {
      assert SessionOk(cfg, s.table[sid], s.chains[sid]);
    }
  }

  lemma RotateKeepsGood(cfg: Config, s: State, who: Uuid, fault: Fault)
    requires Injective(cfg.sha) && Good(cfg, s) && Enabled(s, Rotate(who, fault))
    ensures Good(cfg, RotateNext(cfg, s, who, fault))
  {
    var s' := RotateNext(cfg, s, who, fault);
    RotateShape(cfg, s, who, fault);
    if s'.commits == s.commits {
      QuietSteps(cfg, s, s');
    } else {
      RotationKeepsTable(cfg, s, s', who);
      RotationKeepsCommits(cfg, s, s', who);
      RotationKeepsGrants(cfg, s, s', who);
      RotationKeepsLinks(cfg, s, s', who);
      ExtendChain(s, s', who);
    }
  }

  lemma StepKeepsGood(cfg: Config, s: State, a: Action)
    requires Injective(cfg.sha) && Good(cfg, s) && Enabled(s, a)
    ensures Good(cfg, Next(cfg, s, a))
  {
    if a.Login? {
      LoginKeepsGood(cfg, s, a);
    } else if a.Check? {
      CheckKeepsGood(cfg, s, a.who, a.verdict, a.next);
    } else if a.Rotate? {
      RotateKeepsGood(cfg, s, a.who, a.fault);
    } else {
      if a.Drop? {
        QuietDrop(cfg, s, a.who, a.fault);
      } else if a.Logout? || a.RevokeSession? {
        QuietRevoke(cfg, s, a);
      } else {
        QuietMove(cfg, s, a);
      }
      QuietSteps(cfg, s, Next(cfg, s, a));
    }
  }

  lemma {:induction false} RunsAreGood(cfg: Config, states: seq<State>, acts: seq<Action>, i: nat)
    requires Injective(cfg.sha) && IsRun(cfg, states, acts) && i < |states|
    ensures Good(cfg, states[i])
  {
    if i > 0 {
      RunsAreGood(cfg, states, acts, i - 1);
      StepKeepsGood(cfg, states[i - 1], acts[i - 1]);
    }
  }

  // ---------------------------------------------------------------- what it means

  /**
    A token is exchanged at most once: no two rotations that took effect consumed the same token, whether or not
    their callers heard of it.
   */
  lemma RotationsAreSingleUse(cfg: Config, states: seq<State>, acts: seq<Action>, i: nat, a: nat, b: nat)
    requires Injective(cfg.sha) && IsRun(cfg, states, acts) && i < |states| && a < b < |states[i].commits|
    ensures states[i].commits[a].who in states[i].reqs && states[i].commits[b].who in states[i].reqs
    ensures states[i].commits[a].who != states[i].commits[b].who
    ensures states[i].reqs[states[i].commits[a].who].raw != states[i].reqs[states[i].commits[b].who].raw
  {
    var s := states[i];
    RunsAreGood(cfg, states, acts, i);
    assert CommitOk(s, s.commits[a]) && CommitOk(s, s.commits[b]);
  }

  lemma GrantIsCommit(cfg: Config, states: seq<State>, acts: seq<Action>, i: nat, w: Uuid) returns (k: nat)
    requires Injective(cfg.sha) && IsRun(cfg, states, acts) && i < |states|
    requires w in states[i].reqs && states[i].reqs[w].pc.Done? && states[i].reqs[w].pc.answer.Granted?
    ensures k < |states[i].commits| && states[i].commits[k].who == w
  {
    RunsAreGood(cfg, states, acts, i);
    k :| k < |states[i].commits| && states[i].commits[k].who == w;
  }

  /** Two successful refreshes never presented the same token. */
  lemma TokensAreSingleUse(cfg: Config, states: seq<State>, acts: seq<Action>, i: nat, v: Uuid, w: Uuid)
    requires Injective(cfg.sha) && IsRun(cfg, states, acts) && i < |states|
    requires v in states[i].reqs && states[i].reqs[v].pc.Done? && states[i].reqs[v].pc.answer.Granted?
    requires w in states[i].reqs && states[i].reqs[w].pc.Done? && states[i].reqs[w].pc.answer.Granted?
    requires states[i].reqs[v].raw == states[i].reqs[w].raw
    ensures v == w
  {
    var a := GrantIsCommit(cfg, states, acts, i, v);
    var b := GrantIsCommit(cfg, states, acts, i, w);
    if a < b {
      RotationsAreSingleUse(cfg, states, acts, i, a, b);
    } else if b < a {
      RotationsAreSingleUse(cfg, states, acts, i, b, a);
    }
  }

  /**
    A rotation took effect whose request presented token `pos` of the session and was granted the next one, or was
    told of a failure that hid it.
   */
  ghost predicate Redeemed(s: State, sid: Uuid, pos: nat) {
    exists c | c in s.commits :: c.sid == sid && c.pos == pos && CommitOk(s, c)
  }

  lemma LinksAreRedeemed(s: State, sid: Uuid, pos: nat)
    requires CommitsOk(s) && LinksCommitted(s) && sid in s.chains && pos + 1 < |s.chains[sid]|
    ensures Redeemed(s, sid, pos)
  {
    assert Linked(s.commits, sid, pos);
    var c :| c in s.commits && c.sid == sid && c.pos == pos;
    var k :| 0 <= k < |s.commits| && s.commits[k] == c;
    assert CommitOk(s, s.commits[k]);
  }

  /**
    The tokens of a session form one line: no token occurs twice anywhere, each is followed by the one its
    redemption produced, and the only token that can be redeemed is the last.
   */
  lemma OneLinearChain(cfg: Config, states: seq<State>, acts: seq<Action>, i: nat, sid: Uuid)
    requires Injective(cfg.sha) && IsRun(cfg, states, acts) && i < |states| && sid in states[i].table
    ensures sid in states[i].chains && |states[i].chains[sid]| > 0
    ensures ChainsDistinct(states[i].chains)
    ensures forall pos: nat | pos + 1 < |states[i].chains[sid]| :: Redeemed(states[i], sid, pos)
    ensures forall raw: Raw, now :: FindActive(states[i].table, cfg.sha(raw), now) == Some(sid) ==>
              raw == states[i].chains[sid][|states[i].chains[sid]| - 1]
  {
    RunsAreGood(cfg, states, acts, i);
    assert SessionOk(cfg, states[i].table[sid], states[i].chains[sid]);
    forall pos: nat | pos + 1 < |states[i].chains[sid]| ensures Redeemed(states[i], sid, pos) {
      LinksAreRedeemed(states[i], sid, pos);
    }
  }

  /** Lifetimes are absolute: rotation never moves the end of a session, and no rotation commits after it. */
  lemma LifetimesAreAbsolute(cfg: Config, states: seq<State>, acts: seq<Action>, i: nat)
    requires Injective(cfg.sha) && IsRun(cfg, states, acts) && i < |states|
    ensures forall sid | sid in states[i].table ::
              states[i].table[sid].expiresAt == states[i].table[sid].createdAt + cfg.ttl
    ensures forall k | 0 <= k < |states[i].commits| ::
              states[i].commits[k].sid in states[i].table &&
              states[i].commits[k].now < states[i].table[states[i].commits[k].sid].expiresAt
  {
    var s := states[i];
    RunsAreGood(cfg, states, acts, i);
    assert forall sid | sid in s.table :: SessionOk(cfg, s.table[sid], s.chains[sid]);
    assert forall k | 0 <= k < |s.commits| :: CommitOk(s, s.commits[k]);
  }

  /** What no step does: forget a session, move its creation or end, or touch a revoked one. */
  lemma StepKeepsRevocations(cfg: Config, s: State, a: Action, sid: Uuid)
    requires Enabled(s, a) && sid in s.table
    ensures
      var s' := Next(cfg, s, a);
      && sid in s'.table
      && s'.table[sid].createdAt == s.table[sid].createdAt && s'.table[sid].expiresAt == s.table[sid].expiresAt
      && (s.table[sid].revokedAt.Some? ==>
            && s'.table[sid] == s.table[sid]
            && |s.commits| <= |s'.commits|
            && (forall k | 0 <= k < |s.commits| :: s'.commits[k] == s.commits[k])
            && (forall k | |s.commits| <= k < |s'.commits| :: s'.commits[k].sid != sid))
  {
  }

  /** Once revoked, a session's row never changes again and no rotation on it commits. */
  lemma {:induction false} RevocationIsFinal(cfg: Config, states: seq<State>, acts: seq<Action>, i: nat, j: nat, sid: Uuid)
    requires IsRun(cfg, states, acts) && i <= j < |states|
    requires sid in states[i].table && states[i].table[sid].revokedAt.Some?
    ensures sid in states[j].table && states[j].table[sid] == states[i].table[sid]
    ensures |states[i].commits| <= |states[j].commits|
    ensures forall k | |states[i].commits| <= k < |states[j].commits| :: states[j].commits[k].sid != sid
  {
    if i < j {
      RevocationIsFinal(cfg, states, acts, i, j - 1, sid);
      StepKeepsRevocations(cfg, states[j - 1], acts[j - 1], sid);
    }
  }

  /**
    Only a fit user's refresh goes on to rotate; an unfit user's is refused and, unless the statement fails,
    the presented token is dead from then on.
   */
  lemma UnfitUsersAreDropped(cfg: Config, s: State, who: Uuid, verdict: UserCheck, next: Raw, fault: Fault)
    requires Enabled(s, Check(who, verdict, next))
    ensures Next(cfg, s, Check(who, verdict, next)).table == s.table
    ensures Next(cfg, s, Check(who, verdict, next)).reqs[who].pc.Rotating? <==> verdict == UserFine
    ensures verdict == UserError ==> Next(cfg, s, Check(who, verdict, next)).reqs[who].pc == Done(Failure)
    ensures verdict == UserUnfit ==>
      var s1 := Next(cfg, s, Check(who, verdict, next));
      && Enabled(s1, Drop(who, fault))
      && var s2 := Next(cfg, s1, Drop(who, fault));
      && s2.reqs[who].pc == Done(InvalidToken)
      && (fault != Refused ==> forall now :: FindActive(s2.table, cfg.sha(s.reqs[who].raw), now) == None)
  {
  }

  /** A lookup that fails is reported as a failure, not as an invalid token, and changes nothing. */
  lemma FailedLookupsSurface(cfg: Config, s: State, who: Uuid, fault: Fault)
    requires Enabled(s, Find(who, fault)) && fault != NoFault
    ensures Next(cfg, s, Find(who, fault)) == s.(reqs := s.reqs[who := s.reqs[who].(pc := Done(Failure))])
  {
  }

  /** A logout revokes what the presented token opens, whatever it is, and shows nobody whether it was valid. */
  lemma LogoutRevokes(cfg: Config, s: State, raw: Raw, now: Time, fault: Fault)
    ensures
      var s' := Next(cfg, s, Logout(raw, now, fault));
      && s' == s.(table := s'.table) && s'.table.Keys == s.table.Keys
      && (fault != Refused ==> forall later :: FindActive(s'.table, cfg.sha(raw), later) == None)
      && (forall sid | sid in s.table :: s'.table[sid] ==
            if fault != Refused && s.table[sid].tokenHash == cfg.sha(raw) && s.table[sid].revokedAt.None?
            then s.table[sid].(revokedAt := Some(now)) else s.table[sid])
  {
  }

  lemma StepGrowsChains(cfg: Config, s: State, a: Action, sid: Uuid)
    requires Enabled(s, a) && s.chains.Keys == s.table.Keys && sid in s.chains
    ensures sid in Next(cfg, s, a).chains && s.chains[sid] <= Next(cfg, s, a).chains[sid]
  {
  }

  lemma {:induction false} ChainsGrow(cfg: Config, states: seq<State>, acts: seq<Action>, i: nat, j: nat, sid: Uuid)
    requires Injective(cfg.sha) && IsRun(cfg, states, acts) && i <= j < |states| && sid in states[i].chains
    ensures sid in states[j].chains && states[i].chains[sid] <= states[j].chains[sid]
  {
    if i < j {
      ChainsGrow(cfg, states, acts, i, j - 1, sid);
      RunsAreGood(cfg, states, acts, j - 1);
      StepGrowsChains(cfg, states[j - 1], acts[j - 1], sid);
    }
  }

  /** An active session's token is the last of its chain. */
  lemma FoundIsLast(cfg: Config, s: State, raw: Raw, now: Time, sid: Uuid)
    requires Injective(cfg.sha) && Good(cfg, s) && FindActive(s.table, cfg.sha(raw), now) == Some(sid)
    ensures sid in s.chains && |s.chains[sid]| > 0 && raw == s.chains[sid][|s.chains[sid]| - 1]
  {
    assert SessionOk(cfg, s.table[sid], s.chains[sid]);
  }

  /** A token of some chain that is found at no clock is found at none in any later state. */
  lemma DeadTokensStayDead(
    cfg: Config, states: seq<State>, acts: seq<Action>, i: nat, j: nat, sid: Uuid, k: nat, now: Time)
    requires Injective(cfg.sha) && IsRun(cfg, states, acts) && i <= j < |states|
    requires sid in states[i].chains && k < |states[i].chains[sid]|
    requires forall later :: FindActive(states[i].table, cfg.sha(states[i].chains[sid][k]), later) == None
    ensures FindActive(states[j].table, cfg.sha(states[i].chains[sid][k]), now) == None
  {
    var raw, s, t := states[i].chains[sid][k], states[i], states[j];
    RunsAreGood(cfg, states, acts, i);
    RunsAreGood(cfg, states, acts, j);
    ChainsGrow(cfg, states, acts, i, j, sid);
    var found := FindActive(t.table, cfg.sha(raw), now);
    if found.Some? {
      FoundIsLast(cfg, t, raw, now, found.value);
      assert t.chains[sid][k] == raw && found.value == sid && s.chains[sid] == t.chains[sid];
      assert SessionOk(cfg, s.table[sid], s.chains[sid]);
      InactiveIsRevoked(s.table, sid);
      RevocationIsFinal(cfg, states, acts, i, j, sid);
    }
  }

  /** A session whose token is never found is revoked: its end alone would leave earlier times. */
  lemma InactiveIsRevoked(t: Sessions, sid: Uuid)
    requires sid in t && forall later :: FindActive(t, t[sid].tokenHash, later) == None
    ensures t[sid].revokedAt.Some?
  {
    assert FindActive(t, t[sid].tokenHash, t[sid].expiresAt - 1) == None;
  }

  /**
    Logging out kills the presented token: once the statement has taken effect on a token that some session has or
    had, no later state of the run finds it, at any clock.
   */
  lemma LogoutKillsTheToken(
    cfg: Config, states: seq<State>, acts: seq<Action>, i: nat, j: nat, sid: Uuid, k: nat, now: Time)
    requires Injective(cfg.sha) && IsRun(cfg, states, acts) && i < j < |states|
    requires acts[i].Logout? && acts[i].fault != Refused
    requires sid in states[i].chains && k < |states[i].chains[sid]| && states[i].chains[sid][k] == acts[i].raw
    ensures FindActive(states[j].table, cfg.sha(acts[i].raw), now) == None
  {
    LogoutRevokes(cfg, states[i], acts[i].raw, acts[i].now, acts[i].fault);
    DeadTokensStayDead(cfg, states, acts, i + 1, j, sid, k, now);
  }

  // ---------------------------------------------------------------- what calls achieve

  /** Session sid carries this token, is not revoked and has not ended. */
  predicate Live(cfg: Config, t: Sessions, sid: Uuid, raw: Raw, now: Time) {
    sid in t && t[sid].tokenHash == cfg.sha(raw) && t[sid].revokedAt.None? && now < t[sid].expiresAt
  }

  predicate Unused(cfg: Config, t: Sessions, raw: Raw) {
    forall sid | sid in t :: t[sid].tokenHash != cfg.sha(raw)
  }

  /** In reachable states tokens that were not generated yet, or are about to be swapped in, belong to no session. */
  lemma NewTokensAreUnused(cfg: Config, s: State, raw: Raw)
    requires Injective(cfg.sha) && Good(cfg, s)
    ensures raw !in s.generated ==> Unused(cfg, s.table, raw)
    ensures (exists w | w in s.reqs && s.reqs[w].pc.Rotating? :: s.reqs[w].pc.next == raw) ==> Unused(cfg, s.table, raw)
  {
    forall sid | sid in s.table && s.table[sid].tokenHash == cfg.sha(raw)
      ensures raw in s.generated
      ensures forall w | w in s.reqs && s.reqs[w].pc.Rotating? :: s.reqs[w].pc.next != raw
    {
      assert SessionOk(cfg, s.table[sid], s.chains[sid]);
      assert raw == s.chains[sid][|s.chains[sid]| - 1];
    }
  }

  /** What a rotation does and answers, in any interleaving. */
  lemma RotationDecides(cfg: Config, s: State, who: Uuid, fault: Fault)
    requires Enabled(s, Rotate(who, fault))
    ensures
      var s', q := Next(cfg, s, Rotate(who, fault)), s.reqs[who];
      var sid, next := q.pc.sid, q.pc.next;
      var applies := fault != Refused && Live(cfg, s.table, sid, q.raw, q.now) && Unused(cfg, s.table, next);
      && s'.table == (if applies then s.table[sid := s.table[sid].(tokenHash := cfg.sha(next), lastUsedAt := Some(q.now))] else s.table)
      && s'.reqs == s.reqs[who := q.(pc := Done(s'.reqs[who].pc.answer))]
      && (s'.reqs[who].pc.answer == Granted(next) <==> applies && fault == NoFault)
      && (s'.reqs[who].pc.answer == InvalidToken <==> fault == NoFault && !Live(cfg, s.table, sid, q.raw, q.now))
      && s'.reqs[who].pc.answer in {Granted(next), InvalidToken, Failure}
  {
  }

  /** After the swap the new token opens the session until it ends, and the old one nothing. */
  lemma SwappedTokens(cfg: Config, t: Sessions, sid: Uuid, raw: Raw, next: Raw, now: Time, later: Time)
    requires UniqueHashes(t) && Live(cfg, t, sid, raw, now) && Unused(cfg, t, next)
    ensures
      var t' := t[sid := t[sid].(tokenHash := cfg.sha(next), lastUsedAt := Some(now))];
      && FindActive(t', cfg.sha(next), later) == (if later < t[sid].expiresAt then Some(sid) else None)
      && FindActive(t', cfg.sha(raw), later) == None
  {
    var t' := t[sid := t[sid].(tokenHash := cfg.sha(next), lastUsedAt := Some(now))];
    assert t'[sid].expiresAt == t[sid].expiresAt && t'[sid].tokenHash == cfg.sha(next) && t'[sid].revokedAt.None?;
    assert forall k | k in t' && k != sid :: t'[k] == t[k];
    if later < t[sid].expiresAt {
      assert Active(t'[sid], later);
    }
  }

  /** Three undisturbed steps of a fit user's refresh lead from s to the last of the states returned. */
  ghost predicate RefreshSteps(cfg: Config, s: State, s1: State, s2: State, s3: State, who: Uuid, next: Raw) {
    && Enabled(s, Find(who, NoFault)) && s1 == Next(cfg, s, Find(who, NoFault))
    && Enabled(s1, Check(who, UserFine, next)) && s2 == Next(cfg, s1, Check(who, UserFine, next))
    && Enabled(s2, Rotate(who, NoFault)) && s3 == Next(cfg, s2, Rotate(who, NoFault))
  }

  lemma FindsLive(cfg: Config, s: State, who: Uuid, sid: Uuid)
    requires Enabled(s, Find(who, NoFault)) && UniqueHashes(s.table) && Live(cfg, s.table, sid, s.reqs[who].raw, s.reqs[who].now)
    ensures Next(cfg, s, Find(who, NoFault)) == WithPc(s, who, Checking(sid))
  {
    var raw, now := s.reqs[who].raw, s.reqs[who].now;
    assert Active(s.table[sid], now);
    assert FindActive(s.table, cfg.sha(raw), now) == Some(sid);
  }

  /** A refresh with a live token is granted the new one, which then opens the same session in place of the old one. */
  lemma LiveTokensRefresh(cfg: Config, s: State, who: Uuid, next: Raw, sid: Uuid) returns (s1: State, s2: State, s3: State)
    requires UniqueHashes(s.table) && Unused(cfg, s.table, next) && next !in s.generated
    requires Enabled(s, Find(who, NoFault)) && Live(cfg, s.table, sid, s.reqs[who].raw, s.reqs[who].now)
    ensures RefreshSteps(cfg, s, s1, s2, s3, who, next) && s3.reqs[who].pc == Done(Granted(next))
    ensures s3.table == s.table[sid := s.table[sid].(tokenHash := cfg.sha(next), lastUsedAt := Some(s.reqs[who].now))]
    ensures forall later :: FindActive(s3.table, cfg.sha(next), later) == if later < s.table[sid].expiresAt then Some(sid) else None
    ensures forall later :: FindActive(s3.table, cfg.sha(s.reqs[who].raw), later) == None
  {
    var raw, now := s.reqs[who].raw, s.reqs[who].now;
    FindsLive(cfg, s, who, sid);
    s1 := Next(cfg, s, Find(who, NoFault));
    s2 := Next(cfg, s1, Check(who, UserFine, next));
    RotationDecides(cfg, s2, who, NoFault);
    s3 := Next(cfg, s2, Rotate(who, NoFault));
    forall later
      ensures FindActive(s3.table, cfg.sha(next), later) == if later < s.table[sid].expiresAt then Some(sid) else None
      ensures FindActive(s3.table, cfg.sha(raw), later) == None
    {
      SwappedTokens(cfg, s.table, sid, raw, next, now, later);
    }
  }

  /** The token is the last of the chain of a session that is neither revoked nor over. */
  predicate Opens(s: State, sid: Uuid, raw: Raw, now: Time) {
    && sid in s.table && sid in s.chains && |s.chains[sid]| > 0 && s.chains[sid][|s.chains[sid]| - 1] == raw
    && s.table[sid].revokedAt.None? && now < s.table[sid].expiresAt
  }

  lemma OpensIsLive(cfg: Config, s: State, sid: Uuid, raw: Raw, now: Time)
    requires Injective(cfg.sha) && Good(cfg, s)
    ensures Opens(s, sid, raw, now) <==> Live(cfg, s.table, sid, raw, now)
  {
    if sid in s.table {
      assert SessionOk(cfg, s.table[sid], s.chains[sid]);
    }
  }

  lemma ReachableHashes(cfg: Config, s: State)
    requires Injective(cfg.sha) && Good(cfg, s)
    ensures UniqueHashes(s.table)
  {
    forall a, b | a in s.table && b in s.table && s.table[a].tokenHash == s.table[b].tokenHash ensures a == b {
      assert SessionOk(cfg, s.table[a], s.chains[a]) && SessionOk(cfg, s.table[b], s.chains[b]);
      assert s.chains[a][|s.chains[a]| - 1] == s.chains[b][|s.chains[b]| - 1];
    }
  }

  /** A refresh arrives. */
  ghost function Started(cfg: Config, s: State, who: Uuid, raw: Raw, now: Time): State
    requires who !in s.reqs
  {
    Next(cfg, s, StartRefresh(who, raw, now))
  }

  lemma StartKeepsGood(cfg: Config, s: State, who: Uuid, raw: Raw, now: Time)
    requires Injective(cfg.sha) && Good(cfg, s) && who !in s.reqs
    ensures
      var s0 := Started(cfg, s, who, raw, now);
      && Good(cfg, s0) && s0.table == s.table && s0.chains == s.chains && s0.generated == s.generated
      && Enabled(s0, Find(who, NoFault)) && s0.reqs[who].raw == raw && s0.reqs[who].now == now
  {
    StepKeepsGood(cfg, s, StartRefresh(who, raw, now));
  }

  /**
    From every reachable state, a fit user's refresh that nothing disturbs is granted the new token, which then opens
    the same session until its end in place of the old token, if the presented one is the last of a session that is
    neither revoked nor over.
   */
  lemma RefreshSucceeds(
    cfg: Config, states: seq<State>, acts: seq<Action>, i: nat, who: Uuid, raw: Raw, now: Time, next: Raw, sid: Uuid)
    returns (s1: State, s2: State, s3: State)
    requires Injective(cfg.sha) && IsRun(cfg, states, acts) && i < |states|
    requires who !in states[i].reqs && next !in states[i].generated && Opens(states[i], sid, raw, now)
    ensures RefreshSteps(cfg, Started(cfg, states[i], who, raw, now), s1, s2, s3, who, next)
    ensures s3.reqs[who].pc == Done(Granted(next))
    ensures forall later :: FindActive(s3.table, cfg.sha(next), later) ==
              if later < states[i].table[sid].expiresAt then Some(sid) else None
    ensures forall later :: FindActive(s3.table, cfg.sha(raw), later) == None
    ensures forall k | k in states[i].table && k != sid :: k in s3.table && s3.table[k] == states[i].table[k]
  {
    RunsAreGood(cfg, states, acts, i);
    StartKeepsGood(cfg, states[i], who, raw, now);
    var s0 := Started(cfg, states[i], who, raw, now);
    ReachableHashes(cfg, s0);
    NewTokensAreUnused(cfg, s0, next);
    OpensIsLive(cfg, s0, sid, raw, now);
    s1, s2, s3 := LiveTokensRefresh(cfg, s0, who, next, sid);
  }

  /** Any other token, and only such a one, is refused at once, and nothing changes. */
  lemma RefreshRefused(cfg: Config, states: seq<State>, acts: seq<Action>, i: nat, who: Uuid, raw: Raw, now: Time)
    requires Injective(cfg.sha) && IsRun(cfg, states, acts) && i < |states| && who !in states[i].reqs
    ensures
      var s, s0 := states[i], Started(cfg, states[i], who, raw, now);
      && Enabled(s0, Find(who, NoFault))
      && var s1 := Next(cfg, s0, Find(who, NoFault));
      && s1.table == s.table
      && (s1.reqs[who].pc == Done(InvalidToken) <==> forall sid :: !Opens(s, sid, raw, now))
  {
    var s := states[i];
    RunsAreGood(cfg, states, acts, i);
    StartKeepsGood(cfg, s, who, raw, now);
    var found := FindActive(s.table, cfg.sha(raw), now);
    forall sid ensures Opens(s, sid, raw, now) <==> Live(cfg, s.table, sid, raw, now) {
      OpensIsLive(cfg, s, sid, raw, now);
    }
    if found.Some? {
      assert Live(cfg, s.table, found.value, raw, now);
    }
  }

  /** Whoever comes second is told: a request about to rotate with a token that was exchanged meanwhile is refused. */
  lemma LosersAreRefused(cfg: Config, states: seq<State>, acts: seq<Action>, i: nat, k: nat, who: Uuid)
    requires Injective(cfg.sha) && IsRun(cfg, states, acts) && i < |states|
    requires k < |states[i].commits| && Enabled(states[i], Rotate(who, NoFault))
    requires states[i].commits[k].who in states[i].reqs
    requires states[i].reqs[states[i].commits[k].who].raw == states[i].reqs[who].raw
    ensures Next(cfg, states[i], Rotate(who, NoFault)).reqs[who].pc == Done(InvalidToken)
    ensures Next(cfg, states[i], Rotate(who, NoFault)).table == states[i].table
  {
    var s := states[i];
    RunsAreGood(cfg, states, acts, i);
    assert CommitOk(s, s.commits[k]);
    RotationDecides(cfg, s, who, NoFault);
    OpensIsLive(cfg, s, s.reqs[who].pc.sid, s.reqs[who].raw, s.reqs[who].now);
  }

  /** A login that takes effect opens a session under the new token, for the user, from now until now plus the TTL. */
  lemma LoginOpensASession(cfg: Config, states: seq<State>, acts: seq<Action>, i: nat)
    requires Injective(cfg.sha) && IsRun(cfg, states, acts) && i < |acts| && acts[i].Login?
    ensures
      var a, t, t' := acts[i], states[i].table, states[i + 1].table;
      if a.fault == Refused then t' == t
      else
        && t' == t[a.sid := Session(a.userId, cfg.sha(a.raw), a.now, None, a.now + cfg.ttl, None)]
        && forall later :: FindActive(t', cfg.sha(a.raw), later) == if later < a.now + cfg.ttl then Some(a.sid) else None
  {
    var a, s := acts[i], states[i];
    RunsAreGood(cfg, states, acts, i);
    NewTokensAreUnused(cfg, s, a.raw);
    if a.fault != Refused {
      assert Enabled(s, a) && !HashTaken(s.table, cfg.sha(a.raw));
      var t' := states[i + 1].table;
      assert t' == s.table[a.sid := NewSession(cfg, a.userId, a.raw, a.now)];
      forall later ensures FindActive(t', cfg.sha(a.raw), later) == if later < a.now + cfg.ttl then Some(a.sid) else None {
        NewSessionIsFound(cfg, s.table, t', a.sid, t'[a.sid], a.raw, later);
      }
    }
  }

  lemma NewSessionIsFound(cfg: Config, t: Sessions, t': Sessions, sid: Uuid, session: Session, raw: Raw, later: Time)
    requires Unused(cfg, t, raw) && t' == t[sid := session]
    requires session.tokenHash == cfg.sha(raw) && session.revokedAt == None
    ensures FindActive(t', cfg.sha(raw), later) == if later < session.expiresAt then Some(sid) else None
  {
    assert forall k | k in t' && k != sid :: t'[k] == t[k];
    assert later < session.expiresAt ==> sid in t' && t'[sid].tokenHash == cfg.sha(raw) && Active(t'[sid], later);
  }

  /** A revocation touches exactly the named session, if it is the user's and not yet revoked. */
  lemma RevocationDecides(cfg: Config, s: State, sid: Uuid, userId: string, now: Time, fault: Fault)
    ensures
      var s' := Next(cfg, s, RevokeSession(sid, userId, now, fault));
      && s' == s.(table := s'.table)
      && s'.table ==
         if fault != Refused && sid in s.table && s.table[sid].userId == userId && s.table[sid].revokedAt.None?
         then s.table[sid := s.table[sid].(revokedAt := Some(now))] else s.table
  {
  }

  /** Once its user's revocation has taken effect, no later state of the run finds the session, by any token at any clock. */
  lemma RevocationEndsTheSession(
    cfg: Config, states: seq<State>, acts: seq<Action>, i: nat, j: nat, raw: Raw, now: Time)
    requires IsRun(cfg, states, acts) && i < j < |states|
    requires acts[i].RevokeSession? && acts[i].fault != Refused
    requires acts[i].sid in states[i].table && states[i].table[acts[i].sid].userId == acts[i].userId
    ensures FindActive(states[j].table, cfg.sha(raw), now) != Some(acts[i].sid)
  {
    RevocationDecides(cfg, states[i], acts[i].sid, acts[i].userId, acts[i].now, acts[i].fault);
    RevocationIsFinal(cfg, states, acts, i + 1, j, acts[i].sid);
  }

  /** In every reachable state the listed sessions are exactly those that could be refreshed at that moment. */
  lemma ReachableListings(cfg: Config, states: seq<State>, acts: seq<Action>, i: nat, userId: string, now: Time, sid: Uuid)
    requires Injective(cfg.sha) && IsRun(cfg, states, acts) && i < |states| && sid in states[i].table
    ensures UniqueHashes(states[i].table)
    ensures
      var t := states[i].table;
      sid in ActiveOf(t, userId, now) <==>
      && t[sid].userId == userId
      && FindActive(t, t[sid].tokenHash, now) == Some(sid)
      && CanRotate(t, sid, t[sid].tokenHash, now)
  {
    var s := states[i];
    RunsAreGood(cfg, states, acts, i);
    ReachableHashes(cfg, s);
    ListingAgreesWithRefreshing(s.table, userId, now, sid);
  }
}
