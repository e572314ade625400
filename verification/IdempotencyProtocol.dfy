/**
  The idempotency interceptor as a concurrent protocol
  (internal/transport/grpc/interceptor/idempotency.go over idempotency_store.go).

  Any number of requests run at once. A request is a program counter; one step of one request issues one
  SQL statement, runs the handler, or records the audit event. Steps of different requests interleave
  freely, request clocks are arbitrary, and any statement may fail, with or without taking effect.
 */
module IdempotencyProtocol {
  import opened Prelude
  import opened ApiError
  import opened IdempotencyStatements

  // ---------------------------------------------------------------- the foreign calls, and what is assumed of them

  /** A response; `userId` is the id of the user it carries, empty if it carries none. */
  datatype Message = Message(name: string, userId: string, fields: map<nat, Bytes>)

  /** Protobuf: marshalling may fail; unmarshalling a message also looks its type up in the registry. */
  datatype Codec = Codec(
    marshalMessage: Message -> Option<Bytes>,
    unmarshalMessage: (string, Bytes) -> Option<Message>,
    marshalStatus: Status -> Option<Bytes>,
    unmarshalStatus: Bytes -> Option<Status>)

  /** Assumption: what marshals unmarshals to itself, and only the zero status has an empty encoding. */
  ghost predicate Invertible(c: Codec) {
    && (forall m: Message, b: Bytes | c.marshalMessage(m) == Some(b) :: c.unmarshalMessage(m.name, b) == Some(m))
    && (forall st: Status, b: Bytes | c.marshalStatus(st) == Some(b) ::
          c.unmarshalStatus(b) == Some(st) && (st.code != OK ==> b != []))
  }

  datatype Config = Config(enabled: bool, ttl: Time, lockTimeout: Time, sha: Bytes -> Hash, codec: Codec)

  /** internal/infrastructure/config/config.go refuses any other timing. */
  predicate ValidTiming(cfg: Config) {
    0 < cfg.lockTimeout < cfg.ttl
  }

  // ---------------------------------------------------------------- handler results and their stored form

  datatype Result = Reply(message: Message) | NotProto | Failed(err: GoError)

  /** Errors carry a non-OK code and protobuf messages a name. */
  predicate Proper(res: Result) {
    match res
    case Reply(m) => m.name != ""
    case NotProto => true
    case Failed(e) => CodeOf(e) != OK
  }

  predicate Transient(res: Result) {
    res.Failed? && CodeOf(res.err) in {INTERNAL, UNKNOWN, UNAVAILABLE, DEADLINE_EXCEEDED, RESOURCE_EXHAUSTED, ABORTED, CANCELED}
  }

  function Encode(c: Codec, res: Result): Option<Stored> {
    match res
    case NotProto => None
    case Failed(e) =>
      var st := if e.WithStatus? then e.status else Status(UNKNOWN, e.text, []);
      var b := c.marshalStatus(st);
      if b.None? then None else Some(Stored("", [], b.value))
    case Reply(m) =>
      var b := c.marshalMessage(m);
      if b.None? then None else Some(Stored(m.name, b.value, []))
  }

  const REPLAY_FAILED := Failed(WithStatus(NewError(INTERNAL, "IDEMPOTENCY_REPLAY_FAILED", "internal server error", [])))

  function ReplayOf(c: Codec, row: Row): Result {
    if row.statusPayload != [] then
      var st := c.unmarshalStatus(row.statusPayload);
      if st.None? then REPLAY_FAILED
      else if ErrorProto(st.value).None? then NotProto
      else Failed(ErrorProto(st.value).value)
    else
      var m := c.unmarshalMessage(row.responseType, row.responsePayload);
      if m.None? then REPLAY_FAILED else Reply(m.value)
  }

  function ColumnsOf(row: Row): Stored {
    Stored(row.responseType, row.responsePayload, row.statusPayload)
  }

  /**
    A message or status that marshals is stored, nothing else is, and storing a result and replaying it is the
    identity.
   */
  lemma EncodeReplayRoundTrip(c: Codec, res: Result, row: Row)
    requires Invertible(c) && Proper(res) && !Transient(res)
    ensures Encode(c, res).Some? <==>
            || (res.Reply? && c.marshalMessage(res.message).Some?)
            || (res.Failed? && res.err.WithStatus? && c.marshalStatus(res.err.status).Some?)
    ensures Encode(c, res) == Some(ColumnsOf(row)) ==>
            ReplayOf(c, row) == res && (row.responseType != "") != (row.statusPayload != [])
  {
  }

  /** A stored result that can be read is replayed as it is; a status wins over a message, and OK is no error. */
  lemma ReadableResultsReplay(c: Codec, row: Row, st: Status, m: Message)
    ensures row.statusPayload != [] && c.unmarshalStatus(row.statusPayload) == Some(st) ==>
            ReplayOf(c, row) == if st.code == 0 then NotProto else Failed(WithStatus(st))
    ensures row.statusPayload == [] && c.unmarshalMessage(row.responseType, row.responsePayload) == Some(m) ==>
            ReplayOf(c, row) == Reply(m)
  {
  }

  /** A stored result that cannot be read is replayed as an internal error. */
  lemma UnreadableResultsFail(c: Codec, row: Row)
    requires if row.statusPayload != [] then c.unmarshalStatus(row.statusPayload).None?
             else c.unmarshalMessage(row.responseType, row.responsePayload).None?
    ensures ReplayOf(c, row) ==
            Failed(WithStatus(Status(13, "internal server error", [ErrorInfo("IDEMPOTENCY_REPLAY_FAILED", "go-foundation", map[])])))
  {
    assert NewError(INTERNAL, "IDEMPOTENCY_REPLAY_FAILED", "internal server error", []).details ==
           [ErrorInfo("IDEMPOTENCY_REPLAY_FAILED", "go-foundation", map[])];
  }

  // ---------------------------------------------------------------- requests

  const MUTATIONS := {
    "/auth.v1.AuthService/RevokeSession",
    "/user.v1.UserService/CreateUser",
    "/rbac.v1.RBACService/AssignRole",
    "/rbac.v1.RBACService/RemoveRole",
    "/rbac.v1.RBACService/AssignPermissionToRole",
    "/rbac.v1.RBACService/RemovePermissionFromRole"}

  predicate IdempotentMethod(rpcMethod: string) {
    rpcMethod in MUTATIONS
  }

  predicate ValidKey(key: Bytes) {
    8 <= |key| <= 255 &&
    forall i | 0 <= i < |key| ::
      var v := key[i];
      'a' as int <= v <= 'z' as int || 'A' as int <= v <= 'Z' as int || '0' as int <= v <= '9' as int ||
      v == '.' as int || v == '_' as int || v == ':' as int || v == '-' as int
  }

  /**
    A call as it reaches the interceptor; `ids` are the identifier fields of the request that `body` encodes,
    `authorized` is the verdict of the layers above.
   */
  datatype Input = Input(
    actor: string, rpcMethod: string, key: Bytes, body: Bytes, ids: map<string, string>,
    requestId: string, clientAddress: string, userAgent: string, authorized: bool)

  /** What the interceptor returns. */
  datatype Answer =
    | Handled(result: Result)                  // this request's own handler ran
    | Replayed(row: Row, result: Result)
    | KeyReused
    | StillRunning
    | StoreDown
    | Rejected

  /** Where a request is. `rec` is the id of the record it works on; a request without a key has none. */
  datatype Pc =
    | Arrived
    | Inserting
    | LookingUp
    | TakingOver(found: Uuid)
    | LookingAgain
    | Running(rec: Option<Uuid>)
    | Auditing(rec: Option<Uuid>, result: Result)
    | Settling(own: Uuid, result: Result)
    | Done(answer: Answer)

  datatype Req = Req(input: Input, p: Params, pc: Pc)

  predicate Acquiring(pc: Pc) {
    pc.Arrived? || pc.Inserting? || pc.LookingUp? || pc.TakingOver? || pc.LookingAgain?
  }

  predicate BeforeInsert(pc: Pc) {
    pc.Arrived? || pc.Inserting?
  }

  /** The record id a program counter mentions. */
  function RecOf(pc: Pc): Option<Uuid> {
    match pc
    case TakingOver(found) => Some(found)
    case Running(rec) => rec
    case Auditing(rec, _) => rec
    case Settling(own, _) => Some(own)
    case _ => None
  }

  /** Between a successful acquisition and the statement that ends it. */
  predicate Holding(pc: Pc) {
    (pc.Running? || pc.Auditing? || pc.Settling?) && RecOf(pc).Some?
  }

  function ParamsFor(cfg: Config, input: Input, id: Uuid, owner: Uuid, now: Time): Params {
    Params(id, Scope(input.actor, input.rpcMethod, cfg.sha(input.key)), cfg.sha(input.body), owner, now,
           now + cfg.lockTimeout, now + cfg.ttl)
  }

  function Entry(cfg: Config, input: Input): Pc {
    if !input.authorized then Done(Rejected)
    else if !cfg.enabled || !IdempotentMethod(input.rpcMethod) || input.key == [] then Running(None)
    else if !ValidKey(input.key) then Done(Rejected)
    else Arrived
  }

  // ---------------------------------------------------------------- the audit event

  datatype AuditEvent = AuditEvent(
    action: string, resourceType: string, resourceId: string, metadata: map<string, string>, rpcMethod: string,
    actor: string, requestId: string, clientAddress: string, userAgent: string, code: int, reason: string)

  /** `mutationEvent`: the action and the kind of resource, for the methods that are audited. */
  function MutationEvent(rpcMethod: string): Option<(string, string)> {
    if rpcMethod == "/auth.v1.AuthService/RevokeSession" then Some(("session.revoke", "session"))
    else if rpcMethod == "/user.v1.UserService/CreateUser" then Some(("user.create", "user"))
    else if rpcMethod == "/rbac.v1.RBACService/AssignRole" then Some(("role.assign", "user"))
    else if rpcMethod == "/rbac.v1.RBACService/RemoveRole" then Some(("role.remove", "user"))
    else if rpcMethod == "/rbac.v1.RBACService/AssignPermissionToRole" then Some(("permission.assign", "role"))
    else if rpcMethod == "/rbac.v1.RBACService/RemovePermissionFromRole" then Some(("permission.remove", "role"))
    else None
  }

  function ErrorReason(res: Result): string {
    if res.Failed? && res.err.WithStatus? && FirstReason(res.err.status.details).Some?
    then FirstReason(res.err.status.details).value
    else ""
  }

  /** A getter of a request message: an absent field reads as empty. */
  function IdField(input: Input, name: string): string {
    if name in input.ids then input.ids[name] else ""
  }

  /** The resource an event is about and what it is related to; only the listed identifiers are read. */
  function Resource(input: Input, res: Result): (string, map<string, string>) {
    if input.rpcMethod == "/auth.v1.AuthService/RevokeSession" then (IdField(input, "session_id"), map[])
    else if input.rpcMethod == "/user.v1.UserService/CreateUser" then
      (if res.Reply? && res.message.name == "user.v1.CreateUserResponse" then res.message.userId else "", map[])
    else if input.rpcMethod == "/rbac.v1.RBACService/AssignRole" || input.rpcMethod == "/rbac.v1.RBACService/RemoveRole" then
      (IdField(input, "user_id"), map["role_id" := IdField(input, "role_id")])
    else
      (IdField(input, "role_id"), map["permission_id" := IdField(input, "permission_id")])
  }

  function AuditEventFor(input: Input, res: Result): AuditEvent
    requires MutationEvent(input.rpcMethod).Some?
  {
    var kind, resource := MutationEvent(input.rpcMethod).value, Resource(input, res);
    AuditEvent(kind.0, kind.1, resource.0, resource.1, input.rpcMethod,
               input.actor, input.requestId, input.clientAddress, input.userAgent,
               if res.Failed? then CodeOf(res.err) else OK, ErrorReason(res))
  }

  // ---------------------------------------------------------------- states and steps

  /** What happened, in order: handler returns, audit attempts, and results stored by `Complete`. */
  datatype Event =
    | Ran(who: Uuid, rpcMethod: string, result: Result)
    | Audited(who: Uuid, event: AuditEvent)
    | StoredBy(who: Uuid, id: Uuid, expiresAt: Time)

  /** Requests are named by their owner tokens. `clock` is read by no request; only assumptions mention it. */
  datatype State = State(clock: Time, table: Table, reqs: map<Uuid, Req>, log: seq<Event>)

  datatype Action =
    | Tick(to: Time)
    | Arrive(who: Uuid, input: Input, id: Uuid, now: Time)
    | Cleanup(who: Uuid, victims: set<Uuid>)
    | Insert(who: Uuid, fault: Fault)
    | Lookup(who: Uuid, fault: Fault)
    | TakeOver(who: Uuid, fault: Fault)
    | LookupAgain(who: Uuid, fault: Fault)
    | Return(who: Uuid, result: Result)
    | Audit(who: Uuid)
    | Settle(who: Uuid, fault: Fault)

  datatype Effect = Effect(table: Table, pc: Pc, events: seq<Event>)

  predicate AtPc(pc: Pc, a: Action) {
    match a
    case Tick(_) => false
    case Arrive(_, _, _, _) => false
    case Cleanup(_, _) => pc.Arrived?
    case Insert(_, _) => pc.Inserting?
    case Lookup(_, _) => pc.LookingUp?
    case TakeOver(_, _) => pc.TakingOver?
    case LookupAgain(_, _) => pc.LookingAgain?
    case Return(_, _) => pc.Running?
    case Audit(_) => pc.Auditing?
    case Settle(_, _) => pc.Settling?
  }

  function AnswerFrom(cfg: Config, row: Row, p: Params): Answer {
    match Judge(row, p)
    case Conflict => KeyReused
    case Replay => Replayed(row, ReplayOf(cfg.codec, row))
    case _ => StillRunning
  }

  function Acquisition(t: Table, before: Table, id: Uuid, fault: Fault): Effect {
    match fault
    case NoFault => Effect(t, Running(Some(id)), [])
    case Refused => Effect(before, Done(StoreDown), [])
    case Unacked => Effect(t, Done(StoreDown), [])
  }

  ghost function InsertEffect(t: Table, p: Params, fault: Fault): Effect {
    if HasScope(t, p.scope) then Effect(t, if fault == NoFault then LookingUp else Done(StoreDown), [])
    else if p.id in t then Effect(t, Done(StoreDown), [])
    else Acquisition(t[p.id := Reserved(p.scope, p)], t, p.id, fault)
  }

  ghost function LookupEffect(cfg: Config, t: Table, p: Params, fault: Fault): Effect {
    var found := Find(t, p.scope);
    if fault != NoFault || found.None? then Effect(t, Done(StoreDown), [])
    else if Stale(t[found.value], p.now) then Effect(t, TakingOver(found.value), [])
    else Effect(t, Done(AnswerFrom(cfg, t[found.value], p)), [])
  }

  ghost function TakeOverEffect(t: Table, id: Uuid, p: Params, fault: Fault): Effect {
    if !CanTakeOver(t, id, p) then Effect(t, if fault == NoFault then LookingAgain else Done(StoreDown), [])
    else Acquisition(t[id := Reserved(t[id].scope, p)], t, id, fault)
  }

  /** The second lookup answers from whatever record it finds; staleness is not tested again. */
  ghost function LookupAgainEffect(cfg: Config, t: Table, p: Params, fault: Fault): Effect {
    var found := Find(t, p.scope);
    if fault != NoFault || found.None? then Effect(t, Done(StoreDown), [])
    else Effect(t, Done(AnswerFrom(cfg, t[found.value], p)), [])
  }

  function AuditEffect(t: Table, q: Req, who: Uuid): Effect
    requires q.pc.Auditing?
  {
    Effect(t,
           if q.pc.rec.Some? then Settling(q.pc.rec.value, q.pc.result) else Done(Handled(q.pc.result)),
           if MutationEvent(q.input.rpcMethod).Some? then [Audited(who, AuditEventFor(q.input, q.pc.result))] else [])
  }

  /** Release after a transient failure, nothing if the result cannot be encoded, otherwise complete. */
  function SettleEffect(cfg: Config, t: Table, q: Req, who: Uuid, fault: Fault): Effect
    requires q.pc.Settling?
  {
    var id, res := q.pc.own, q.pc.result;
    var answer := Done(Handled(res));
    if fault == Refused then Effect(t, answer, [])
    else if Transient(res) then Effect(ReleaseStatement(t, id, who), answer, [])
    else
      match Encode(cfg.codec, res)
      case None => Effect(t, answer, [])
      case Some(stored) =>
        Effect(CompleteStatement(t, id, who, stored), answer,
               if Owns(t, id, who) then [StoredBy(who, id, t[id].expiresAt)] else [])
  }

  ghost function EffectOf(cfg: Config, t: Table, q: Req, a: Action): Effect
    requires AtPc(q.pc, a)
  {
    match a
    case Cleanup(_, victims) => Effect(t - victims, Inserting, [])
    case Insert(_, fault) => InsertEffect(t, q.p, fault)
    case Lookup(_, fault) => LookupEffect(cfg, t, q.p, fault)
    case TakeOver(_, fault) => TakeOverEffect(t, q.pc.found, q.p, fault)
    case LookupAgain(_, fault) => LookupAgainEffect(cfg, t, q.p, fault)
    case Return(who, res) => Effect(t, Auditing(q.pc.rec, res), [Ran(who, q.input.rpcMethod, res)])
    case Audit(who) => AuditEffect(t, q, who)
    case Settle(who, fault) => SettleEffect(cfg, t, q, who, fault)
  }

  /** The environment of a step: UUIDs are new, time does not run backwards, handlers return proper results. */
  predicate Enabled(s: State, a: Action) {
    match a
    case Tick(to) => s.clock <= to
    case Arrive(who, _, id, _) => who !in s.reqs && forall o | o in s.reqs :: s.reqs[o].p.id != id
    case Cleanup(who, victims) =>
      who in s.reqs && AtPc(s.reqs[who].pc, a) && Victims(s.table, victims, s.reqs[who].p.now)
    case Return(who, res) => who in s.reqs && AtPc(s.reqs[who].pc, a) && Proper(res)
    case _ => a.who in s.reqs && AtPc(s.reqs[a.who].pc, a)
  }

  ghost function Next(cfg: Config, s: State, a: Action): State
    requires Enabled(s, a)
  {
    match a
    case Tick(to) => s.(clock := to)
    case Arrive(who, input, id, now) =>
      s.(reqs := s.reqs[who := Req(input, ParamsFor(cfg, input, id, who, now), Entry(cfg, input))])
    case _ =>
      var q := s.reqs[a.who];
      var e := EffectOf(cfg, s.table, q, a);
      s.(table := e.table, reqs := s.reqs[a.who := q.(pc := e.pc)], log := s.log + e.events)
  }

  predicate IsOwnStep(a: Action) {
    !a.Tick? && !a.Arrive?
  }

  /** What a request's step may do to the table, statement by statement. */
  ghost predicate TableStep(t: Table, q: Req, a: Action, t': Table)
    requires IsOwnStep(a) && AtPc(q.pc, a)
  {
    match a
    case Cleanup(_, victims) => t' == t - victims
    case Insert(_, fault) =>
      if !HasScope(t, q.p.scope) && q.p.id !in t && fault != Refused then t' == t[q.p.id := Reserved(q.p.scope, q.p)]
      else t' == t
    case TakeOver(_, fault) =>
      if CanTakeOver(t, q.pc.found, q.p) && fault != Refused then t' == t[q.pc.found := Reserved(t[q.pc.found].scope, q.p)]
      else t' == t
    case Settle(who, _) =>
      || t' == t
      || (Owns(t, q.pc.own, who) && (t' == t - {q.pc.own} || exists stored :: t' == t[q.pc.own := Finished(t[q.pc.own], stored)]))
    case _ => t' == t
  }

  lemma StepShape(cfg: Config, s: State, a: Action)
    requires Enabled(s, a) && IsOwnStep(a)
    ensures TableStep(s.table, s.reqs[a.who], a, Next(cfg, s, a).table)
    ensures
      var q, q' := s.reqs[a.who], Next(cfg, s, a).reqs[a.who];
      q' == q.(pc := q'.pc) && Next(cfg, s, a).reqs == s.reqs[a.who := q']
    ensures Next(cfg, s, a).clock == s.clock
  {
  }

  /** States joined by enabled actions. */
  ghost predicate IsPath(cfg: Config, states: seq<State>, acts: seq<Action>) {
    && |states| == |acts| + 1
    && forall i | 0 <= i < |acts| :: Enabled(states[i], acts[i]) && states[i + 1] == Next(cfg, states[i], acts[i])
  }

  /** A run is a path from an empty table. */
  ghost predicate IsRun(cfg: Config, states: seq<State>, acts: seq<Action>) {
    && IsPath(cfg, states, acts)
    && states[0].table == map[] && states[0].reqs == map[] && states[0].log == []
  }
}
