/**
  The rewrite that every error undergoes on its way to a client
  (internal/transport/grpc/apierror/error.go).

  Go strings are byte strings and a protobuf `string` field only marshals when it is valid UTF-8, so
  the one encoding failure that can occur is a request id that is not valid UTF-8: the id is copied
  from the caller's `x-request-id` header. `valid` stands for that test.
 */
module ApiError {
  import opened Prelude

  const DOMAIN := "go-foundation"
  const REQUEST_ID := "request_id"

  const OK := 0
  const CANCELED := 1
  const UNKNOWN := 2
  const INVALID_ARGUMENT := 3
  const DEADLINE_EXCEEDED := 4
  const NOT_FOUND := 5
  const ALREADY_EXISTS := 6
  const PERMISSION_DENIED := 7
  const RESOURCE_EXHAUSTED := 8
  const ABORTED := 10
  const UNIMPLEMENTED := 12
  const INTERNAL := 13
  const UNAVAILABLE := 14
  const UNAUTHENTICATED := 16

  /** One entry of a status's detail list. */
  datatype Detail =
    | ErrorInfo(reason: string, domain: string, metadata: map<string, string>)
    | BrokenErrorInfo(raw: Bytes)                  // tagged as ErrorInfo but does not unmarshal
    | OtherDetail(typeUrl: string, raw: Bytes)

  datatype Status = Status(code: int, message: string, details: seq<Detail>)

  /** A Go error: one that carries a status, one of the two context errors, or any other. */
  datatype GoError =
    | WithStatus(status: Status)
    | ContextCanceled(text: string)
    | ContextDeadline(text: string)
    | Plain(text: string)

  function DefaultReason(code: int): string {
    if code == CANCELED then "REQUEST_CANCELED"
    else if code == INVALID_ARGUMENT then "INVALID_ARGUMENT"
    else if code == DEADLINE_EXCEEDED then "DEADLINE_EXCEEDED"
    else if code == NOT_FOUND then "RESOURCE_NOT_FOUND"
    else if code == ALREADY_EXISTS then "RESOURCE_ALREADY_EXISTS"
    else if code == PERMISSION_DENIED then "PERMISSION_DENIED"
    else if code == UNAUTHENTICATED then "UNAUTHENTICATED"
    else if code == UNAVAILABLE then "SERVICE_UNAVAILABLE"
    else if code == UNIMPLEMENTED then "NOT_IMPLEMENTED"
    else if code == INTERNAL then "INTERNAL_ERROR"
    else "RPC_ERROR"
  }

  /** The status `Ensure` starts from; plain errors lose their text. */
  function ToStatus(err: GoError): Status {
    match err
    case WithStatus(st) => st
    case ContextCanceled(text) => Status(CANCELED, text, [])
    case ContextDeadline(text) => Status(DEADLINE_EXCEEDED, text, [])
    case Plain(_) => Status(INTERNAL, "internal server error", [])
  }

  /** `status.Code`: context errors are not special here, only errors carrying a status have one. */
  function CodeOf(err: GoError): int {
    if err.WithStatus? then err.status.code else UNKNOWN
  }

  /** `status.ErrorProto`: a status whose code is OK is no error at all. */
  function ErrorProto(st: Status): Option<GoError> {
    if st.code == OK then None else Some(WithStatus(st))
  }

  function NewError(code: int, reason: string, message: string, details: seq<Detail>): Status {
    Status(code, message, [ErrorInfo(reason, DOMAIN, map[])] + details)
  }

  predicate HasInfo(details: seq<Detail>) {
    exists i | 0 <= i < |details| :: details[i].ErrorInfo?
  }

  function Stamp(d: Detail, requestId: string): Detail {
    if d.ErrorInfo? && requestId != "" then d.(metadata := d.metadata[REQUEST_ID := requestId]) else d
  }

  function StampAll(details: seq<Detail>, requestId: string): seq<Detail> {
    seq(|details|, i requires 0 <= i < |details| => Stamp(details[i], requestId))
  }

  function DefaultInfo(code: int, requestId: string): Detail {
    Stamp(ErrorInfo(DefaultReason(code), DOMAIN, map[]), requestId)
  }

  predicate Encodes(valid: string -> bool, requestId: string) {
    requestId == "" || valid(requestId)
  }

  function EnsureDetails(valid: string -> bool, st: Status, requestId: string): seq<Detail> {
    if !Encodes(valid, requestId) then st.details
    else if HasInfo(st.details) then StampAll(st.details, requestId)
    else st.details + [DefaultInfo(st.code, requestId)]
  }

  /** What `Ensure` returns, as a function of its arguments. */
  function Ensured(valid: string -> bool, err: Option<GoError>, requestId: string): Option<GoError> {
    match err
    case None => None
    case Some(e) =>
      var st := ToStatus(e);
      ErrorProto(st.(details := EnsureDetails(valid, st, requestId)))
  }

  /** `Ensure`: clone the details, overwrite the decodable ErrorInfo entries, append one if there is none. */
  method Ensure(valid: string -> bool, err: Option<GoError>, requestId: string) returns (r: Option<GoError>)
    ensures r == Ensured(valid, err, requestId)
  {
    if err == None {
      return None;
    }
    var st := ToStatus(err.value);
    var details := new Detail[|st.details|](i requires 0 <= i < |st.details| => st.details[i]);
    var found := false;
    for index := 0 to details.Length
      invariant forall k | 0 <= k < index ::
          details[k] == if Encodes(valid, requestId) then Stamp(st.details[k], requestId) else st.details[k]
      invariant forall k | index <= k < details.Length :: details[k] == st.details[k]
      invariant found <==> Encodes(valid, requestId) && HasInfo(st.details[..index])
    {
      assert st.details[..index + 1] == st.details[..index] + [st.details[index]];
      assert forall k | 0 <= k < index :: st.details[..index + 1][k] == st.details[..index][k];
      if details[index].ErrorInfo? {
        assert st.details[..index + 1][index].ErrorInfo?;
        var info := Stamp(details[index], requestId);
        if Encodes(valid, requestId) {
          details[index] := info;
          found := true;
        }
      }
    }
    assert st.details[..details.Length] == st.details;
    var result := details[..];
    if !found {
      if Encodes(valid, requestId) {
        assert forall k | 0 <= k < |result| :: !st.details[k].ErrorInfo?;
        assert result == st.details;
        result := result + [DefaultInfo(st.code, requestId)];
      } else {
        assert result == st.details;
      }
    } else {
      assert result == EnsureDetails(valid, st, requestId);
    }
    r := ErrorProto(st.(details := result));
  }

  /** Every entry that is a decodable ErrorInfo names the given request. */
  predicate AllCarry(details: seq<Detail>, requestId: string) {
    forall i | 0 <= i < |details| && details[i].ErrorInfo? ::
      REQUEST_ID in details[i].metadata && details[i].metadata[REQUEST_ID] == requestId
  }

  /** What unmarshalling guarantees: the strings of a decoded ErrorInfo are valid UTF-8. */
  predicate Decoded(valid: string -> bool, details: seq<Detail>) {
    forall i, k | 0 <= i < |details| && details[i].ErrorInfo? && k in details[i].metadata ::
      valid(details[i].metadata[k])
  }

  /** The reason a client reads, and the one the audit trail stores: that of the first decodable ErrorInfo. */
  function FirstReason(details: seq<Detail>): Option<string> {
    if details == [] then None
    else if details[0].ErrorInfo? then Some(details[0].reason)
    else FirstReason(details[1..])
  }

  /** Code and message survive; every detail that is not a decodable ErrorInfo keeps its place and content. */
  lemma EnsurePreserves(valid: string -> bool, err: GoError, requestId: string)
    requires ToStatus(err).code != OK
    ensures
      var before, after := ToStatus(err), Ensured(valid, Some(err), requestId);
      && after.Some? && after.value.WithStatus?
      && after.value.status.code == before.code && after.value.status.message == before.message
      && |before.details| <= |after.value.status.details| <= |before.details| + 1
      && (forall i | 0 <= i < |before.details| && !before.details[i].ErrorInfo? ::
            after.value.status.details[i] == before.details[i])
      && (forall i | 0 <= i < |before.details| && before.details[i].ErrorInfo? ::
            && after.value.status.details[i].ErrorInfo?
            && after.value.status.details[i].reason == before.details[i].reason
            && after.value.status.details[i].domain == before.details[i].domain
            && after.value.status.details[i].metadata - {REQUEST_ID} == before.details[i].metadata - {REQUEST_ID})
  {
    var before := ToStatus(err);
    var after := EnsureDetails(valid, before, requestId);
    forall i | 0 <= i < |before.details| && before.details[i].ErrorInfo?
      ensures after[i].ErrorInfo? && after[i].metadata - {REQUEST_ID} == before.details[i].metadata - {REQUEST_ID}
    {
      assert HasInfo(before.details);
    }
  }

  lemma EnsureStamps(valid: string -> bool, err: GoError, requestId: string)
    requires ToStatus(err).code != OK && requestId != "" && valid(requestId)
    ensures
      var after := Ensured(valid, Some(err), requestId).value.status.details;
      HasInfo(after) && AllCarry(after, requestId)
  {
    var before := ToStatus(err);
    var after := EnsureDetails(valid, before, requestId);
    if HasInfo(before.details) {
      var i :| 0 <= i < |before.details| && before.details[i].ErrorInfo?;
      assert after[i].ErrorInfo?;
    } else {
      assert after[|before.details|].ErrorInfo?;
    }
  }

  /**
    The documented purpose of `Ensure`, and exactly when it is met: some ErrorInfo is present and all of
    them carry the request id precisely if the id is valid UTF-8.
   */
  lemma EnsureCarriesRequestId(valid: string -> bool, err: GoError, requestId: string)
    requires ToStatus(err).code != OK && requestId != ""
    requires Decoded(valid, ToStatus(err).details)
    ensures
      var after := Ensured(valid, Some(err), requestId).value.status.details;
      HasInfo(after) && AllCarry(after, requestId) <==> valid(requestId)
  {
    if valid(requestId) {
      EnsureStamps(valid, err, requestId);
    }
  }

  lemma EnsureTwice(valid: string -> bool, err: Option<GoError>, first: string, last: string)
    requires last != "" && valid(last)
    ensures Ensured(valid, Ensured(valid, err, first), last) == Ensured(valid, err, last)
  {
    if err.Some? && ToStatus(err.value).code != OK {
      var st := ToStatus(err.value);
      var mid := EnsureDetails(valid, st, first);
      var st' := st.(details := mid);
      if Encodes(valid, first) {
        if HasInfo(st.details) {
          var i :| 0 <= i < |st.details| && st.details[i].ErrorInfo?;
          assert mid[i].ErrorInfo?;
          forall k | 0 <= k < |mid| ensures Stamp(mid[k], last) == Stamp(st.details[k], last) {
            StampTwice(st.details[k], first, last);
          }
        } else {
          var n := |st.details|;
          assert mid[n].ErrorInfo?;
          StampTwice(ErrorInfo(DefaultReason(st.code), DOMAIN, map[]), first, last);
          assert forall k | 0 <= k < n :: !st.details[k].ErrorInfo?;
        }
      }
      assert EnsureDetails(valid, st', last) == EnsureDetails(valid, st, last);
    }
  }

  lemma StampTwice(d: Detail, first: string, last: string)
    requires last != ""
    ensures Stamp(Stamp(d, first), last) == Stamp(d, last)
  {
    if d.ErrorInfo? {
      assert d.metadata[REQUEST_ID := first][REQUEST_ID := last] == d.metadata[REQUEST_ID := last];
    }
  }

  /** Re-running `Ensure` with a non-empty id forgets the earlier run, for every error, exactly if the id encodes. */
  lemma EnsureLastWins(valid: string -> bool, last: string)
    requires last != ""
    ensures (forall err, first :: Ensured(valid, Ensured(valid, err, first), last) == Ensured(valid, err, last))
            <==> valid(last)
  {
    if valid(last) {
      forall err, first ensures Ensured(valid, Ensured(valid, err, first), last) == Ensured(valid, err, last) {
        EnsureTwice(valid, err, first, last);
      }
    } else {
      var bare := Some(WithStatus(Status(NOT_FOUND, "", [])));
      assert Ensured(valid, bare, last).value.status.details == [];
      assert |Ensured(valid, Ensured(valid, bare, ""), last).value.status.details| == 1;
    }
  }

  /** The reason is never rewritten: it is the old first one, or the default for the code if there was none. */
  lemma {:induction false} StampKeepsFirstReason(details: seq<Detail>, requestId: string)
    ensures FirstReason(StampAll(details, requestId)) == FirstReason(details)
    ensures FirstReason(details).Some? <==> HasInfo(details)
  {
    if details != [] {
      StampKeepsFirstReason(details[1..], requestId);
      assert StampAll(details, requestId)[1..] == StampAll(details[1..], requestId);
      assert forall i | 0 < i < |details| :: details[i] == details[1..][i - 1];
    }
  }

  lemma {:induction false} FirstReasonAppend(details: seq<Detail>, d: Detail)
    requires !HasInfo(details) && d.ErrorInfo?
    ensures FirstReason(details + [d]) == Some(d.reason)
  {
    if details != [] {
      assert !details[0].ErrorInfo?;
      assert forall i | 0 <= i < |details[1..]| :: details[1..][i] == details[i + 1];
      FirstReasonAppend(details[1..], d);
      assert (details + [d])[1..] == details[1..] + [d];
    }
  }

  /** The reason a client reads: the old one, else the code's default, unless the request id does not encode. */
  lemma EnsureKeepsReason(valid: string -> bool, err: GoError, requestId: string)
    requires ToStatus(err).code != OK
    ensures
      var before := ToStatus(err);
      FirstReason(Ensured(valid, Some(err), requestId).value.status.details) ==
      if HasInfo(before.details) then FirstReason(before.details)
      else if Encodes(valid, requestId) then Some(DefaultReason(before.code))
      else None
  {
    var before := ToStatus(err);
    StampKeepsFirstReason(before.details, requestId);
    if !HasInfo(before.details) && Encodes(valid, requestId) {
      FirstReasonAppend(before.details, DefaultInfo(before.code, requestId));
    }
  }

  // ---------------------------------------------------------------- what the client is shown, in plain values

  /** Errors that carry no status are shown as one: a context error with its text, anything else without. */
  lemma EnsureConverts(valid: string -> bool, text: string, requestId: string)
    ensures Ensured(valid, None, requestId) == None
    ensures Ensured(valid, Some(ContextCanceled(text)), requestId) ==
            Ensured(valid, Some(WithStatus(Status(1, text, []))), requestId)
    ensures Ensured(valid, Some(ContextDeadline(text)), requestId) ==
            Ensured(valid, Some(WithStatus(Status(4, text, []))), requestId)
    ensures Ensured(valid, Some(Plain(text)), requestId) ==
            Ensured(valid, Some(WithStatus(Status(13, "internal server error", []))), requestId)
  {
  }

  /** The text of a plain error never reaches a client. */
  lemma EnsureHidesPlainErrors(valid: string -> bool, a: string, b: string, requestId: string)
    ensures Ensured(valid, Some(Plain(a)), requestId) == Ensured(valid, Some(Plain(b)), requestId)
  {
  }

  /** The default reasons, by gRPC code. */
  const REASONS: map<int, string> := map[
    1 := "REQUEST_CANCELED", 3 := "INVALID_ARGUMENT", 4 := "DEADLINE_EXCEEDED", 5 := "RESOURCE_NOT_FOUND",
    6 := "RESOURCE_ALREADY_EXISTS", 7 := "PERMISSION_DENIED", 12 := "NOT_IMPLEMENTED", 13 := "INTERNAL_ERROR",
    14 := "SERVICE_UNAVAILABLE", 16 := "UNAUTHENTICATED"]

  /**
    The result for a status, detail by detail: it keeps code and message; a request id that is present and valid is
    written into each ErrorInfo; a missing ErrorInfo is added with the reason of the code; otherwise nothing changes.
   */
  lemma EnsureDetailsAre(valid: string -> bool, st: Status, requestId: string)
    ensures
      var r := Ensured(valid, Some(WithStatus(st)), requestId);
      if st.code == 0 then r == None
      else
        && r.Some? && r.value.WithStatus? && r.value.status.code == st.code && r.value.status.message == st.message
        && var before, after := st.details, r.value.status.details;
        var found := exists i | 0 <= i < |before| :: before[i].ErrorInfo?;
        if requestId != "" && !valid(requestId) then after == before
        else if !found then
          after == before + [ErrorInfo(if st.code in REASONS then REASONS[st.code] else "RPC_ERROR", "go-foundation",
                                       if requestId == "" then map[] else map["request_id" := requestId])]
        else if requestId == "" then after == before
        else
          && |after| == |before|
          && forall i | 0 <= i < |before| :: after[i] ==
               if before[i].ErrorInfo? then before[i].(metadata := before[i].metadata["request_id" := requestId]) else before[i]
  {
  }
}
