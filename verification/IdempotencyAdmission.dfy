/** Who gets to run a handler: the checks before `Acquire`, over whole runs. */
module IdempotencyAdmission {
  import opened Prelude
  import opened IdempotencyStatements
  import opened IdempotencyProtocol

  /** A call that the interceptor must protect: the feature is on, the method is a mutation, there is a key. */
  predicate Keyed(cfg: Config, input: Input) {
    cfg.enabled && IdempotentMethod(input.rpcMethod) && input.key != []
  }

  /** A denied call, or one with a malformed key, is rejected; a keyed call only runs its handler on a reservation. */
  predicate Admitted(cfg: Config, q: Req) {
    && (!q.input.authorized ==> q.pc == Done(Rejected))
    && (Keyed(cfg, q.input) && !ValidKey(q.input.key) ==> q.pc == Done(Rejected))
    && (Keyed(cfg, q.input) && (q.pc.Running? || q.pc.Auditing?) ==> q.pc.rec.Some?)
    && (!Keyed(cfg, q.input) ==> !Acquiring(q.pc) && RecOf(q.pc).None?)
  }

  lemma OwnAdmission(cfg: Config, t: Table, q: Req, a: Action)
    requires IsOwnStep(a) && AtPc(q.pc, a) && Admitted(cfg, q)
    ensures Admitted(cfg, q.(pc := EffectOf(cfg, t, q, a).pc))
  {
  }

  lemma StepAdmits(cfg: Config, s: State, a: Action)
    requires Enabled(s, a) && forall o | o in s.reqs :: Admitted(cfg, s.reqs[o])
    ensures forall o | o in Next(cfg, s, a).reqs :: Admitted(cfg, Next(cfg, s, a).reqs[o])
  {
    if IsOwnStep(a) {
      OwnAdmission(cfg, s.table, s.reqs[a.who], a);
    }
  }

  lemma {:induction false} RunsAdmit(cfg: Config, states: seq<State>, acts: seq<Action>, i: nat)
    requires IsRun(cfg, states, acts) && i < |states|
    ensures forall o | o in states[i].reqs :: Admitted(cfg, states[i].reqs[o])
  {
    if i > 0 {
      RunsAdmit(cfg, states, acts, i - 1);
      StepAdmits(cfg, states[i - 1], acts[i - 1]);
    }
  }

  const UPPER := "ABCDEFGHIJKLMNOPQRSTUVWXYZ"
  const LOWER := "abcdefghijklmnopqrstuvwxyz"
  const OTHER := "0123456789._:-"

  /** The characters of an idempotency key. */
  predicate KeyCharacter(c: char) {
    c in UPPER || c in LOWER || c in OTHER
  }

  predicate WellFormed(key: Bytes) {
    8 <= |key| <= 255 && forall i | 0 <= i < |key| :: KeyCharacter(key[i] as char)
  }

  lemma UpperIs(c: char)
    ensures c in UPPER <==> 'A' <= c <= 'Z'
  {
    if 'A' <= c <= 'Z' {
      assert UPPER[c as int - 'A' as int] == c;
    }
  }

  lemma LowerIs(c: char)
    ensures c in LOWER <==> 'a' <= c <= 'z'
  {
    if 'a' <= c <= 'z' {
      assert LOWER[c as int - 'a' as int] == c;
    }
  }

  lemma OtherIs(c: char)
    ensures c in OTHER <==> '0' <= c <= '9' || c == '.' || c == '_' || c == ':' || c == '-'
  {
    if '0' <= c <= '9' {
      assert OTHER[c as int - '0' as int] == c;
    } else if c == '.' || c == '_' || c == ':' || c == '-' {
      assert OTHER[10] == '.' && OTHER[11] == '_' && OTHER[12] == ':' && OTHER[13] == '-';
    }
  }

  lemma KeyCharacterIs(c: char)
    ensures KeyCharacter(c) <==>
            || 'A' <= c <= 'Z' || 'a' <= c <= 'z' || '0' <= c <= '9'
            || c == '.' || c == '_' || c == ':' || c == '-'
  {
    UpperIs(c);
    LowerIs(c);
    OtherIs(c);
  }

  lemma ValidKeyIsWellFormed(key: Bytes)
    ensures ValidKey(key) <==> WellFormed(key)
  {
    forall i | 0 <= i < |key|
      ensures
        var c := key[i] as char;
        KeyCharacter(c) <==>
        || 'A' <= c <= 'Z' || 'a' <= c <= 'z' || '0' <= c <= '9'
        || c == '.' || c == '_' || c == ':' || c == '-'
    {
      KeyCharacterIs(key[i] as char);
    }
  }

  /** What becomes of a call on arrival: refused, run without a reservation, or sent to acquire one. */
  lemma ArrivalDecides(cfg: Config, s: State, who: Uuid, input: Input, id: Uuid, now: Time)
    requires Enabled(s, Arrive(who, input, id, now))
    ensures
      var pc := Next(cfg, s, Arrive(who, input, id, now)).reqs[who].pc;
      && (pc == Done(Rejected) <==> !input.authorized || (Keyed(cfg, input) && !WellFormed(input.key)))
      && (pc == Running(None) <==> input.authorized && !Keyed(cfg, input))
      && (pc == Arrived <==> input.authorized && Keyed(cfg, input) && WellFormed(input.key))
  {
    ValidKeyIsWellFormed(input.key);
  }
}
