/**
  The audit interceptor sits inside the idempotency interceptor (cmd/server/main.go), so a handler execution
  and an audit attempt go together, one to one, and a request answered from the store causes neither.
  The error-detail interceptor sits outside, so a replayed error is stamped for the request that replays it.
 */
module IdempotencyAudit {
  import opened Prelude
  import opened ApiError
  import opened IdempotencyStatements
  import opened IdempotencyProtocol
  import opened IdempotencyInvariant
  import opened IdempotencyTheorems
  import opened IdempotencyAdmission

  /** The history of one request. */
  function Trace(log: seq<Event>, o: Uuid): seq<Event> {
    if log == [] then []
    else
      var n := |log| - 1;
      Trace(log[..n], o) + if log[n].who == o then [log[n]] else []
  }

  lemma TraceAppend(log: seq<Event>, events: seq<Event>, o: Uuid)
    requires |events| <= 1
    ensures Trace(log + events, o) == Trace(log, o) + if |events| == 1 && events[0].who == o then events else []
  {
    if events == [] {
      assert log + events == log;
    } else {
      assert (log + events)[..|log|] == log;
    }
  }

  /** A handler execution and its audit attempt, in that order. */
  function HandledTrace(q: Req, o: Uuid, res: Result): seq<Event> {
    [Ran(o, q.input.rpcMethod, res)] +
    if MutationEvent(q.input.rpcMethod).Some? then [Audited(o, AuditEventFor(q.input, res))] else []
  }

  /** A request's history is determined by where it is, except for whether its result was stored. */
  ghost predicate TraceOk(q: Req, o: Uuid, trace: seq<Event>) {
    match q.pc
    case Auditing(_, res) => trace == [Ran(o, q.input.rpcMethod, res)]
    case Settling(_, res) => trace == HandledTrace(q, o, res)
    case Done(Handled(res)) =>
      trace == HandledTrace(q, o, res) || exists id, e :: trace == HandledTrace(q, o, res) + [StoredBy(o, id, e)]
    case _ => trace == []
  }

  ghost predicate TracesOk(s: State) {
    && (forall o | o in s.reqs :: TraceOk(s.reqs[o], o, Trace(s.log, o)))
    && (forall o | o !in s.reqs :: Trace(s.log, o) == [])
  }

  lemma SettleTrace(cfg: Config, t: Table, q: Req, o: Uuid, fault: Fault, trace: seq<Event>)
    requires q.pc.Settling? && TraceOk(q, o, trace)
    ensures
      var e := SettleEffect(cfg, t, q, o, fault);
      && |e.events| <= 1 && (|e.events| == 1 ==> e.events[0].who == o)
      && TraceOk(q.(pc := e.pc), o, trace + e.events)
  {
    assert trace + [] == trace;
  }

  /** One step of a request extends its own history as its program counter demands. */
  lemma OwnTrace(cfg: Config, t: Table, q: Req, a: Action, trace: seq<Event>)
    requires IsOwnStep(a) && AtPc(q.pc, a) && TraceOk(q, a.who, trace)
    ensures
      var e := EffectOf(cfg, t, q, a);
      && |e.events| <= 1 && (|e.events| == 1 ==> e.events[0].who == a.who)
      && TraceOk(q.(pc := e.pc), a.who, trace + e.events)
  {
    assert trace + [] == trace;
    if a.Settle? {
      SettleTrace(cfg, t, q, a.who, a.fault, trace);
    }
  }

  lemma StepTrace(cfg: Config, s: State, a: Action, o: Uuid)
    requires Enabled(s, a) && TracesOk(s)
    ensures o in Next(cfg, s, a).reqs ==> TraceOk(Next(cfg, s, a).reqs[o], o, Trace(Next(cfg, s, a).log, o))
    ensures o !in Next(cfg, s, a).reqs ==> Trace(Next(cfg, s, a).log, o) == []
  {
    if IsOwnStep(a) {
      var q := s.reqs[a.who];
      var e := EffectOf(cfg, s.table, q, a);
      OwnTrace(cfg, s.table, q, a, Trace(s.log, a.who));
      TraceAppend(s.log, e.events, o);
      assert e.events == [] ==> Trace(s.log, o) + e.events == Trace(s.log, o);
      if o == a.who {
        assert Next(cfg, s, a).reqs[o] == q.(pc := e.pc) && Trace(Next(cfg, s, a).log, o) == Trace(s.log, o) + e.events;
      } else {
        assert Trace(Next(cfg, s, a).log, o) == Trace(s.log, o);
      }
    }
  }

  lemma StepKeepsTraces(cfg: Config, s: State, a: Action)
    requires Enabled(s, a) && TracesOk(s)
    ensures TracesOk(Next(cfg, s, a))
  {
    var s' := Next(cfg, s, a);
    forall o | o in s'.reqs ensures TraceOk(s'.reqs[o], o, Trace(s'.log, o)) {
      StepTrace(cfg, s, a, o);
    }
    forall o | o !in s'.reqs ensures Trace(s'.log, o) == [] {
      StepTrace(cfg, s, a, o);
    }
  }

  lemma {:induction false} RunsHaveTraces(cfg: Config, states: seq<State>, acts: seq<Action>, i: nat)
    requires IsRun(cfg, states, acts) && i < |states|
    ensures TracesOk(states[i])
  {
    if i > 0 {
      RunsHaveTraces(cfg, states, acts, i - 1);
      StepKeepsTraces(cfg, states[i - 1], acts[i - 1]);
    }
  }

  // ---------------------------------------------------------------- what an audit record says

  /** The audited methods, with the action and the kind of resource each is recorded under. */
  predicate AuditedAs(rpcMethod: string, action: string, resourceType: string) {
    || (rpcMethod == "/auth.v1.AuthService/RevokeSession" && action == "session.revoke" && resourceType == "session")
    || (rpcMethod == "/user.v1.UserService/CreateUser" && action == "user.create" && resourceType == "user")
    || (rpcMethod == "/rbac.v1.RBACService/AssignRole" && action == "role.assign" && resourceType == "user")
    || (rpcMethod == "/rbac.v1.RBACService/RemoveRole" && action == "role.remove" && resourceType == "user")
    || (rpcMethod == "/rbac.v1.RBACService/AssignPermissionToRole" && action == "permission.assign" && resourceType == "role")
    || (rpcMethod == "/rbac.v1.RBACService/RemovePermissionFromRole" && action == "permission.remove" && resourceType == "role")
  }

  ghost predicate IsAudited(rpcMethod: string) {
    exists action, resourceType :: AuditedAs(rpcMethod, action, resourceType)
  }

  lemma AuditedMethods(rpcMethod: string)
    ensures MutationEvent(rpcMethod).Some? ==>
            AuditedAs(rpcMethod, MutationEvent(rpcMethod).value.0, MutationEvent(rpcMethod).value.1)
    ensures IsAudited(rpcMethod) <==> MutationEvent(rpcMethod).Some?
  {
  }

  /** The methods that take idempotency keys are the audited ones. */
  lemma KeyedMethodsAreAudited(rpcMethod: string)
    ensures IdempotentMethod(rpcMethod) <==> IsAudited(rpcMethod)
  {
    AuditedMethods(rpcMethod);
  }

  predicate IsField(value: string, ids: map<string, string>, name: string) {
    if name in ids then value == ids[name] else value == ""
  }

  predicate IsRelated(metadata: map<string, string>, ids: map<string, string>, name: string) {
    metadata.Keys == {name} && IsField(metadata[name], ids, name)
  }

  /** The resource concerned, and the role or permission given to it or taken from it. */
  predicate ResourceIs(event: AuditEvent, input: Input, res: Result) {
    if event.resourceType == "session" then event.metadata == map[] && IsField(event.resourceId, input.ids, "session_id")
    else if event.action == "user.create" then
      && event.metadata == map[]
      && event.resourceId == (if res.Reply? && res.message.name == "user.v1.CreateUserResponse" then res.message.userId else "")
    else if event.resourceType == "user" then
      IsField(event.resourceId, input.ids, "user_id") && IsRelated(event.metadata, input.ids, "role_id")
    else
      IsField(event.resourceId, input.ids, "role_id") && IsRelated(event.metadata, input.ids, "permission_id")
  }

  /** The reason is that of the first decodable ErrorInfo, if the error carries a status that has one. */
  predicate ReasonIs(reason: string, res: Result) {
    match res
    case Failed(WithStatus(st)) =>
      if exists i | 0 <= i < |st.details| :: st.details[i].ErrorInfo? then
        exists i | 0 <= i < |st.details| && st.details[i].ErrorInfo? ::
          reason == st.details[i].reason && forall j | 0 <= j < i :: !st.details[j].ErrorInfo?
      else reason == ""
    case _ => reason == ""
  }

  /** gRPC's numbers: 0 is OK, 2 is UNKNOWN, which errors without a status count as. */
  predicate CodeIs(code: int, res: Result) {
    match res
    case Failed(WithStatus(st)) => code == st.code
    case Failed(_) => code == 2
    case _ => code == 0
  }

  predicate Describes(event: AuditEvent, input: Input, res: Result) {
    && AuditedAs(input.rpcMethod, event.action, event.resourceType) && event.rpcMethod == input.rpcMethod
    && event.actor == input.actor && event.requestId == input.requestId
    && event.clientAddress == input.clientAddress && event.userAgent == input.userAgent
    && CodeIs(event.code, res) && ReasonIs(event.reason, res) && ResourceIs(event, input, res)
  }

  lemma {:induction false} FirstReasonIsFirst(details: seq<Detail>) returns (i: nat)
    requires exists k | 0 <= k < |details| :: details[k].ErrorInfo?
    ensures i < |details| && details[i].ErrorInfo? && forall j | 0 <= j < i :: !details[j].ErrorInfo?
    ensures FirstReason(details) == Some(details[i].reason)
  {
    if details[0].ErrorInfo? {
      i := 0;
    } else {
      var k :| 0 <= k < |details| && details[k].ErrorInfo?;
      assert details[1..][k - 1] == details[k];
      var n := FirstReasonIsFirst(details[1..]);
      i := n + 1;
      assert forall j | 0 < j < i :: details[j] == details[1..][j - 1];
    }
  }

  lemma {:induction false} NoReason(details: seq<Detail>)
    requires forall k | 0 <= k < |details| :: !details[k].ErrorInfo?
    ensures FirstReason(details) == None
  {
    if details != [] {
      NoReason(details[1..]);
    }
  }

  lemma ErrorReasonIs(res: Result)
    ensures ReasonIs(ErrorReason(res), res)
  {
    if res.Failed? && res.err.WithStatus? {
      var details := res.err.status.details;
      if exists i | 0 <= i < |details| :: details[i].ErrorInfo? {
        var i := FirstReasonIsFirst(details);
      } else {
        NoReason(details);
      }
    }
  }

  lemma ResourceIsRight(input: Input, res: Result)
    requires MutationEvent(input.rpcMethod).Some?
    ensures ResourceIs(AuditEventFor(input, res), input, res)
  {
  }

  lemma EventDescribes(input: Input, res: Result)
    requires MutationEvent(input.rpcMethod).Some?
    ensures Describes(AuditEventFor(input, res), input, res)
  {
    AuditedMethods(input.rpcMethod);
    ErrorReasonIs(res);
    ResourceIsRight(input, res);
  }

  // ---------------------------------------------------------------- one execution, one record

  /**
    A request that got an answer ran the handler at most once and, for an audited method, attempted exactly
    one audit record, which describes that call and that execution; any answer but its own handler's
    (replay, conflict, still running, store error, rejection) leaves no trace at all.
   */
  lemma OneExecutionOneAudit(cfg: Config, states: seq<State>, acts: seq<Action>, i: nat, o: Uuid)
    requires IsRun(cfg, states, acts) && i < |states|
    requires o in states[i].reqs && states[i].reqs[o].pc.Done?
    ensures
      var q, trace := states[i].reqs[o], Trace(states[i].log, o);
      if !q.pc.answer.Handled? then trace == []
      else
        && |trace| >= 1 && trace[0] == Ran(o, q.input.rpcMethod, q.pc.answer.result)
        && (IsAudited(q.input.rpcMethod) ==>
              |trace| >= 2 && trace[1].Audited? && trace[1].who == o && Describes(trace[1].event, q.input, q.pc.answer.result))
        && (forall k | 1 <= k < |trace| :: !trace[k].Ran?)
        && (forall k | 0 <= k < |trace| && trace[k].Audited? :: k == 1 && IsAudited(q.input.rpcMethod))
        && (forall k | 0 <= k < |trace| && trace[k].StoredBy? :: k == |trace| - 1)
  {
    RunsHaveTraces(cfg, states, acts, i);
    var q := states[i].reqs[o];
    TraceMeans(q, o, Trace(states[i].log, o));
    AuditedMethods(q.input.rpcMethod);
    if q.pc.answer.Handled? && MutationEvent(q.input.rpcMethod).Some? {
      EventDescribes(q.input, q.pc.answer.result);
    }
  }

  lemma TraceMeans(q: Req, o: Uuid, trace: seq<Event>)
    requires q.pc.Done? && TraceOk(q, o, trace)
    ensures
      if !q.pc.answer.Handled? then trace == []
      else
        && |trace| >= 1 && trace[0] == Ran(o, q.input.rpcMethod, q.pc.answer.result)
        && (MutationEvent(q.input.rpcMethod).Some? ==>
              |trace| >= 2 && trace[1] == Audited(o, AuditEventFor(q.input, q.pc.answer.result)))
        && (forall k | 1 <= k < |trace| :: !trace[k].Ran?)
        && (forall k | 0 <= k < |trace| && trace[k].Audited? :: k == 1 && MutationEvent(q.input.rpcMethod).Some?)
        && (forall k | 0 <= k < |trace| && trace[k].StoredBy? :: k == |trace| - 1)
  {
  }

  /** A call denied by the layers above runs nothing and records nothing. */
  lemma DenialsLeaveNoTrace(cfg: Config, states: seq<State>, acts: seq<Action>, i: nat, o: Uuid)
    requires IsRun(cfg, states, acts) && i < |states|
    requires o in states[i].reqs && !states[i].reqs[o].input.authorized
    ensures Trace(states[i].log, o) == []
  {
    RunsHaveTraces(cfg, states, acts, i);
    RunsAdmit(cfg, states, acts, i);
    assert Admitted(cfg, states[i].reqs[o]) && TraceOk(states[i].reqs[o], o, Trace(states[i].log, o));
  }

  /** No request, hence no owner token, ever stores two results. */
  lemma StoresAtMostOnce(cfg: Config, states: seq<State>, acts: seq<Action>, i: nat, j: nat, k: nat)
    requires IsRun(cfg, states, acts) && i < |states| && j < k < |states[i].log|
    requires states[i].log[j].StoredBy? && states[i].log[k].StoredBy?
    ensures states[i].log[j].who != states[i].log[k].who
  {
    var s, o := states[i], states[i].log[j].who;
    if o == s.log[k].who {
      RunsHaveTraces(cfg, states, acts, i);
      assert s.log[..|s.log|] == s.log;
      TwoStoresShow(s.log, |s.log|, j, k);
      if o in s.reqs {
        TraceStoresOnce(s.reqs[o], o, Trace(s.log, o));
      }
    }
  }

  function Stores(trace: seq<Event>): nat {
    if trace == [] then 0
    else Stores(trace[..|trace| - 1]) + if trace[|trace| - 1].StoredBy? then 1 else 0
  }

  lemma TraceStoresOnce(q: Req, o: Uuid, trace: seq<Event>)
    requires TraceOk(q, o, trace)
    ensures Stores(trace) <= 1
  {
    if trace != [] {
      var front := trace[..|trace| - 1];
      assert forall k | 0 <= k < |front| :: front[k] == trace[k] && !front[k].StoredBy?;
      NoStores(front);
    }
  }

  lemma {:induction false} NoStores(trace: seq<Event>)
    requires forall k | 0 <= k < |trace| :: !trace[k].StoredBy?
    ensures Stores(trace) == 0
  {
    if trace != [] {
      NoStores(trace[..|trace| - 1]);
    }
  }

  lemma StoresGrow(log: seq<Event>, n: nat, o: Uuid)
    requires n < |log|
    ensures Stores(Trace(log[..n + 1], o)) ==
            Stores(Trace(log[..n], o)) + if log[n].who == o && log[n].StoredBy? then 1 else 0
  {
    assert log[..n + 1] == log[..n] + [log[n]];
    TraceAppend(log[..n], [log[n]], o);
    var before, after := Trace(log[..n], o), Trace(log[..n + 1], o);
    if log[n].who == o {
      assert after[..|after| - 1] == before;
    } else {
      assert after == before;
    }
  }

  lemma {:induction false} TwoStoresShow(log: seq<Event>, n: nat, j: nat, k: nat)
    requires j < k < |log| && n <= |log|
    requires log[j].StoredBy? && log[k].StoredBy? && log[j].who == log[k].who
    ensures Stores(Trace(log[..n], log[j].who)) >= (if j < n then 1 else 0) + (if k < n then 1 else 0)
    decreases n
  {
    if n > 0 {
      TwoStoresShow(log, n - 1, j, k);
      StoresGrow(log, n - 1, log[j].who);
    }
  }

  // ---------------------------------------------------------------- conservation

  function Executions(log: seq<Event>): nat {
    if log == [] then 0
    else
      var e := log[|log| - 1];
      Executions(log[..|log| - 1]) + if e.Ran? && MutationEvent(e.rpcMethod).Some? then 1 else 0
  }

  function Attempts(log: seq<Event>): nat {
    if log == [] then 0 else Attempts(log[..|log| - 1]) + if log[|log| - 1].Audited? then 1 else 0
  }

  /** Requests between the handler's return and the audit attempt. */
  function Pending(reqs: map<Uuid, Req>): set<Uuid> {
    set o | o in reqs && reqs[o].pc.Auditing? && MutationEvent(reqs[o].input.rpcMethod).Some?
  }

  predicate Balanced(s: State) {
    Executions(s.log) == Attempts(s.log) + |Pending(s.reqs)|
  }

  lemma CountAppend(log: seq<Event>, events: seq<Event>)
    requires |events| <= 1
    ensures Executions(log + events) == Executions(log) + Executions(events)
    ensures Attempts(log + events) == Attempts(log) + Attempts(events)
  {
    if events == [] {
      assert log + events == log;
    } else {
      assert (log + events)[..|log|] == log;
      assert events[..0] == [];
    }
  }

  predicate Waits(q: Req) {
    q.pc.Auditing? && MutationEvent(q.input.rpcMethod).Some?
  }

  lemma PendingWithout(reqs: map<Uuid, Req>, o: Uuid)
    requires o in reqs
    ensures |Pending(reqs)| == |Pending(reqs) - {o}| + if Waits(reqs[o]) then 1 else 0
  {
    assert Pending(reqs) == if Waits(reqs[o]) then (Pending(reqs) - {o}) + {o} else Pending(reqs) - {o};
  }

  lemma PendingAfter(reqs: map<Uuid, Req>, o: Uuid, pc: Pc)
    requires o in reqs
    ensures |Pending(Moved(reqs, o, pc))| ==
            |Pending(reqs)| - (if Waits(reqs[o]) then 1 else 0) + (if Waits(reqs[o].(pc := pc)) then 1 else 0)
  {
    PendingWithout(reqs, o);
    PendingWithout(Moved(reqs, o, pc), o);
    assert Pending(Moved(reqs, o, pc)) - {o} == Pending(reqs) - {o};
  }

  lemma OwnCounts(cfg: Config, t: Table, q: Req, a: Action)
    requires IsOwnStep(a) && AtPc(q.pc, a)
    ensures
      var e := EffectOf(cfg, t, q, a);
      var audited := MutationEvent(q.input.rpcMethod).Some?;
      && |e.events| <= 1
      && Executions(e.events) == (if a.Return? && audited then 1 else 0)
      && Attempts(e.events) == (if a.Audit? && audited then 1 else 0)
      && (e.pc.Auditing? <==> a.Return?)
  {
    var e := EffectOf(cfg, t, q, a);
    assert |e.events| == 1 ==> e.events[..0] == [];
  }

  lemma StepKeepsBalance(cfg: Config, s: State, a: Action)
    requires Enabled(s, a) && Balanced(s)
    ensures Balanced(Next(cfg, s, a))
  {
    if a.Arrive? {
      assert Pending(Next(cfg, s, a).reqs) == Pending(s.reqs);
    } else if !a.Tick? {
      var q := s.reqs[a.who];
      var e := EffectOf(cfg, s.table, q, a);
      OwnCounts(cfg, s.table, q, a);
      CountAppend(s.log, e.events);
      PendingAfter(s.reqs, a.who, e.pc);
      assert q.pc.Auditing? <==> a.Audit?;
    }
  }

  /** Over every run, executions of audited methods and audit attempts balance, up to those under way. */
  lemma {:induction false} AuditConservation(cfg: Config, states: seq<State>, acts: seq<Action>, i: nat)
    requires IsRun(cfg, states, acts) && i < |states|
    ensures Executions(states[i].log) == Attempts(states[i].log) + |Pending(states[i].reqs)|
    ensures (forall o | o in states[i].reqs :: !states[i].reqs[o].pc.Auditing?) ==>
            Executions(states[i].log) == Attempts(states[i].log)
  {
    if i > 0 {
      AuditConservation(cfg, states, acts, i - 1);
      StepKeepsBalance(cfg, states[i - 1], acts[i - 1]);
    } else {
      assert Pending(states[0].reqs) == {};
    }
    if forall o | o in states[i].reqs :: !states[i].reqs[o].pc.Auditing? {
      assert Pending(states[i].reqs) == {};
    }
  }

  // ---------------------------------------------------------------- what the client of a replay sees

  /**
    A stored error reaches each client that replays it with the code and message that the original caller saw. The
    reason is the same too, exactly unless the stored error has none and the id of just one of the two requests
    encodes. A replaying request whose own id is valid finds that id in the error.
   */
  lemma ReplayedErrorIsRestamped(
    cfg: Config, states: seq<State>, acts: seq<Action>, i: nat, o: Uuid, valid: string -> bool)
    requires Invertible(cfg.codec) && Injective(cfg.sha)
    requires IsRun(cfg, states, acts) && i < |states|
    requires o in states[i].reqs && states[i].reqs[o].pc.Done? && states[i].reqs[o].pc.answer.Replayed?
    requires states[i].reqs[o].pc.answer.result.Failed?
    ensures states[i].reqs[o].pc.answer.row.owner in states[i].reqs
    ensures
      var q := states[i].reqs[o];
      var origin := states[i].reqs[q.pc.answer.row.owner];
      var err, mine, theirs := q.pc.answer.result.err, q.input.requestId, origin.input.requestId;
      var seen, first := Ensured(valid, Some(err), mine), Ensured(valid, Some(err), theirs);
      && origin.pc == Done(Handled(q.pc.answer.result))
      && seen.Some? && seen.value.WithStatus? && first.Some? && first.value.WithStatus?
      && seen.value.status.code == first.value.status.code
      && seen.value.status.message == first.value.status.message
      && (FirstReason(seen.value.status.details) == FirstReason(first.value.status.details) <==>
            HasInfo(ToStatus(err).details) || (Encodes(valid, mine) <==> Encodes(valid, theirs)))
      && (mine != "" && valid(mine) ==> HasInfo(seen.value.status.details) && AllCarry(seen.value.status.details, mine))
  {
    var q := states[i].reqs[o];
    ReplayFidelity(cfg, states, acts, i, o);
    ReplaysAreProper(cfg, states, acts, i, o);
    var origin := states[i].reqs[q.pc.answer.row.owner];
    RestampedAlike(valid, q.pc.answer.result.err, q.input.requestId, origin.input.requestId);
  }

  lemma RestampedAlike(valid: string -> bool, err: GoError, mine: string, theirs: string)
    requires ToStatus(err).code != OK
    ensures
      var seen, first := Ensured(valid, Some(err), mine), Ensured(valid, Some(err), theirs);
      && seen.Some? && seen.value.WithStatus? && first.Some? && first.value.WithStatus?
      && seen.value.status.code == first.value.status.code
      && seen.value.status.message == first.value.status.message
      && (FirstReason(seen.value.status.details) == FirstReason(first.value.status.details) <==>
            HasInfo(ToStatus(err).details) || (Encodes(valid, mine) <==> Encodes(valid, theirs)))
      && (mine != "" && valid(mine) ==> HasInfo(seen.value.status.details) && AllCarry(seen.value.status.details, mine))
  {
    EnsurePreserves(valid, err, mine);
    EnsurePreserves(valid, err, theirs);
    EnsureKeepsReason(valid, err, mine);
    EnsureKeepsReason(valid, err, theirs);
    if mine != "" && valid(mine) {
      EnsureStamps(valid, err, mine);
    }
  }

  lemma ReplaysAreProper(cfg: Config, states: seq<State>, acts: seq<Action>, i: nat, o: Uuid)
    requires Invertible(cfg.codec)
    requires IsRun(cfg, states, acts) && i < |states|
    requires o in states[i].reqs && states[i].reqs[o].pc.Done? && states[i].reqs[o].pc.answer.Replayed?
    ensures
      var res := states[i].reqs[o].pc.answer.result;
      Proper(res) && (res.Failed? ==> res.err.WithStatus?)
  {
    RunsAreGood(cfg, states, acts, i);
    var q := states[i].reqs[o];
    assert ReqOk(cfg, states[i].reqs, states[i].table, o);
    var origin := states[i].reqs[q.pc.answer.row.owner];
    EncodeReplayRoundTrip(cfg.codec, origin.pc.answer.result, q.pc.answer.row);
  }
}
