/** Vocabulary shared by every model: optional values, integer time, identifiers, bytes and text. */
module Prelude {

  datatype Option<+T> = None | Some(value: T)

  /** Instants and durations are integers; the source compares them and adds durations, nothing else. */
  type Time = int

  /** A UUID. Only equality and, for keyset cursors, a total order matter. */
  type Uuid = nat

  type Byte = b: int | 0 <= b < 256
  type Bytes = seq<Byte>

  /** Assumption on SHA-256: it does not collide. */
  ghost predicate Injective(sha: Bytes -> Bytes) {
    forall a: Bytes, b: Bytes | sha(a) == sha(b) :: a == b
  }

  /** A statement may succeed, fail without effect, or take effect although its caller sees an error. */
  datatype Fault = NoFault | Refused | Unacked

  function Elements<T>(list: seq<T>): set<T> {
    set x | x in list
  }

  /** `unicode.IsSpace`. */
  predicate IsSpace(c: char) {
    var v := c as int;
    || 9 <= v <= 13 || v == 0x20 || v == 0x85 || v == 0xA0 || v == 0x1680 || 0x2000 <= v <= 0x200A
    || v == 0x2028 || v == 0x2029 || v == 0x202F || v == 0x205F || v == 0x3000
  }

  /** Only blanks were taken off, and only from the ends. */
  predicate Trimmed(s: string, r: string) {
    exists i, j | 0 <= i <= j <= |s| :: r == s[i..j] && forall k | 0 <= k < |s| && !(i <= k < j) :: IsSpace(s[k])
  }

  lemma TrimHead(s: string, r: string)
    requires s != "" && IsSpace(s[0]) && Trimmed(s[1..], r)
    ensures Trimmed(s, r)
  {
    var t := s[1..];
    var i, j :| 0 <= i <= j <= |t| && r == t[i..j] && forall k | 0 <= k < |t| && !(i <= k < j) :: IsSpace(t[k]);
    assert s[i + 1..j + 1] == t[i..j];
    assert forall k | 0 < k < |s| :: s[k] == t[k - 1];
  }

  lemma TrimLast(s: string, r: string)
    requires s != "" && IsSpace(s[|s| - 1]) && Trimmed(s[..|s| - 1], r)
    ensures Trimmed(s, r)
  {
    var t := s[..|s| - 1];
    var i, j :| 0 <= i <= j <= |t| && r == t[i..j] && forall k | 0 <= k < |t| && !(i <= k < j) :: IsSpace(t[k]);
    assert s[i..j] == t[i..j];
    assert forall k | 0 <= k < |t| :: s[k] == t[k];
  }

  /** The blanks of Unicode: the white space of Latin-1, then the separators above it. */
  lemma SpacesAre(c: char)
    ensures IsSpace(c) <==>
            || c in {'\t', '\n', '\U{0B}', '\U{0C}', '\r', ' ', '\U{85}', '\U{A0}'}
            || c in {'\U{1680}', '\U{2028}', '\U{2029}', '\U{202F}', '\U{205F}', '\U{3000}'}
            || '\U{2000}' <= c <= '\U{200A}'
  {
  }

  /** `strings.TrimSpace`. */
  function TrimSpace(s: string): (r: string)
    ensures r == "" || (!IsSpace(r[0]) && !IsSpace(r[|r| - 1]))
    ensures Trimmed(s, r)
    decreases |s|
  {
    if s == "" then
      assert s[0..0] == "";
      ""
    else if IsSpace(s[0]) then
      TrimHead(s, TrimSpace(s[1..]));
      TrimSpace(s[1..])
    else if IsSpace(s[|s| - 1]) then
      TrimLast(s, TrimSpace(s[..|s| - 1]));
      TrimSpace(s[..|s| - 1])
    else
      assert s[0..|s|] == s;
      s
  }
}
