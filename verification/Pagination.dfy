/**
  Keyset pagination (internal/application/audit/service.go and internal/application/user/service.go over the
  Postgres queries of audit_repository.go and user_repository.go): newest first, one row of lookahead, and a
  token naming the last row returned.
 */
module Keyset {
  import opened Prelude

  /** The columns that matter: the sort key (time, id), the id being the primary key, and the other columns by name. */
  datatype Row = Row(at: Time, id: Uuid, columns: map<string, string>)

  datatype Cursor = Cursor(at: Time, id: Uuid)

  function KeyOf(row: Row): Cursor {
    Cursor(row.at, row.id)
  }

  /** `(a.at, a.id) < (b.at, b.id)`. */
  predicate Below(a: Cursor, b: Cursor) {
    a.at < b.at || (a.at == b.at && a.id < b.id)
  }

  /** (time DESC, id DESC): a comes before b. */
  predicate NewerFirst(a: Row, b: Row) {
    a.at > b.at || (a.at == b.at && a.id > b.id)
  }

  predicate UniqueIds(rows: set<Row>) {
    forall a, b | a in rows && b in rows && a.id == b.id :: a == b
  }

  /** Strictly in (time DESC, id DESC) order; in particular without duplicates. */
  predicate Descending(list: seq<Row>) {
    forall i, j | 0 <= i < j < |list| :: Below(KeyOf(list[j]), KeyOf(list[i]))
  }

  /** WHERE: the filter, and strictly below the cursor if there is one. */
  function Candidates(rows: set<Row>, matches: Row -> bool, before: Option<Cursor>): set<Row> {
    set r | r in rows && matches(r) && (before.None? || Below(KeyOf(r), before.value))
  }

  /** ORDER BY ... LIMIT n: the first n rows. */
  predicate TopN(list: seq<Row>, rows: set<Row>, n: nat) {
    && Descending(list) && Elements(list) <= rows
    && |list| == (if n <= |rows| then n else |rows|)
    && forall r, x | r in rows && r !in list && x in list :: Below(KeyOf(r), KeyOf(x))
  }

  lemma {:induction false} DescendingCardinality(list: seq<Row>)
    requires Descending(list)
    ensures |Elements(list)| == |list|
  {
    if list != [] {
      var n := |list| - 1;
      DescendingCardinality(list[..n]);
      assert list[n] !in list[..n];
      assert Elements(list) == Elements(list[..n]) + {list[n]};
    }
  }

  /** The sorted list of a set is unique, so "exactly these rows in this order" has one meaning. */
  lemma {:induction false} ListingIsUnique(a: seq<Row>, b: seq<Row>)
    requires Descending(a) && Descending(b) && Elements(a) == Elements(b)
    ensures a == b
  {
    DescendingCardinality(a);
    DescendingCardinality(b);
    if a != [] {
      assert a[0] in Elements(b) && b[0] in Elements(a);
      assert a[0] == b[0];
      assert Elements(a[1..]) == Elements(a) - {a[0]} by { TailElements(a); }
      assert Elements(b[1..]) == Elements(b) - {b[0]} by { TailElements(b); }
      ListingIsUnique(a[1..], b[1..]);
      assert a == [a[0]] + a[1..] && b == [b[0]] + b[1..];
    }
  }

  lemma TailElements(a: seq<Row>)
    requires Descending(a) && a != []
    ensures Elements(a[1..]) == Elements(a) - {a[0]}
  {
    assert a == [a[0]] + a[1..];
    assert forall r :: r in a <==> r == a[0] || r in a[1..];
    assert a[0] !in a[1..];
  }

  predicate IsTop(x: Row, rows: set<Row>) {
    x in rows && forall r | r in rows && r != x :: Below(KeyOf(r), KeyOf(x))
  }

  lemma TopOfTwo(rows: set<Row>, y: Row, z: Row)
    requires UniqueIds(rows) && y in rows && IsTop(z, rows - {y})
    ensures IsTop(if Below(KeyOf(y), KeyOf(z)) then z else y, rows)
  {
  }

  lemma {:induction false} TopExists(rows: set<Row>)
    requires rows != {} && UniqueIds(rows)
    ensures exists x :: IsTop(x, rows)
    decreases |rows|
  {
    var y :| y in rows;
    if rows == {y} {
      assert IsTop(y, rows);
    } else {
      TopExists(rows - {y});
      var z :| IsTop(z, rows - {y});
      TopOfTwo(rows, y, z);
    }
  }

  /** Every listed row comes before every remaining one. */
  predicate Above(list: seq<Row>, rest: set<Row>) {
    forall r, x | r in rest && x in list :: Below(KeyOf(r), KeyOf(x))
  }

  lemma AppendTop(list: seq<Row>, rest: set<Row>, x: Row)
    requires Descending(list) && Above(list, rest) && IsTop(x, rest)
    ensures Descending(list + [x]) && Above(list + [x], rest - {x})
    ensures Elements(list + [x]) == Elements(list) + {x}
  {
  }

  lemma DescendingIsNewerFirst(list: seq<Row>)
    ensures Descending(list) <==> forall i, j | 0 <= i < j < |list| :: NewerFirst(list[i], list[j])
  {
  }

  /** The query's answer in plain terms: the matching rows, newest first, all strictly before the cursor. */
  lemma TopNMeans(list: seq<Row>, rows: set<Row>, matches: Row -> bool, before: Option<Cursor>, limit: nat)
    requires TopN(list, Candidates(rows, matches, before), limit)
    ensures forall i, j | 0 <= i < j < |list| :: NewerFirst(list[i], list[j])
    ensures forall r | r in list ::
              r in rows && matches(r) &&
              (before.Some? ==> r.at < before.value.at || (r.at == before.value.at && r.id < before.value.id))
  {
    DescendingIsNewerFirst(list);
    forall r | r in list ensures r in Candidates(rows, matches, before) {
      assert r in Elements(list);
    }
  }

  lemma FilledIsTopN(list: seq<Row>, rest: set<Row>, all: set<Row>, limit: nat)
    requires rest <= all && |list| <= limit && |list| + |rest| == |all| && (|list| == limit || rest == {})
    requires Descending(list) && Above(list, rest) && Elements(list) == all - rest
    ensures TopN(list, all, limit)
  {
    forall r | r in all && r !in list ensures r in rest {
      assert r !in Elements(list);
    }
  }

  /** The table and its ordered, limited query. */
  class Repository {
    var rows: set<Row>

    constructor ()
      ensures rows == {}
    {
      rows := {};
    }

    /** `Record` and `Create`: an insert, refused if the primary key is taken. */
    method Insert(row: Row) returns (ok: bool)
      requires UniqueIds(rows)
      modifies this
      ensures UniqueIds(rows)
      ensures ok <==> forall r | r in old(rows) :: r.id != row.id
      ensures rows == if ok then old(rows) + {row} else old(rows)
    {
      ok := forall r | r in rows :: r.id != row.id;
      if ok {
        rows := rows + {row};
      }
    }

    /** Rows arrive in order and are appended one by one. */
    method List(matches: Row -> bool, before: Option<Cursor>, limit: nat) returns (list: seq<Row>)
      requires UniqueIds(rows)
      ensures TopN(list, Candidates(rows, matches, before), limit)
      ensures forall i, j | 0 <= i < j < |list| :: NewerFirst(list[i], list[j])
      ensures forall r | r in list ::
                r in rows && matches(r) &&
                (before.Some? ==> r.at < before.value.at || (r.at == before.value.at && r.id < before.value.id))
    {
      var all := Candidates(rows, matches, before);
      var rest := all;
      list := [];
      while |list| < limit && rest != {}
        invariant rest <= all && |list| <= limit && |list| + |rest| == |all|
        invariant Descending(list) && Above(list, rest) && Elements(list) == all - rest
        decreases |rest|
      {
        TopExists(rest);
        var x :| x in rest && IsTop(x, rest);
        AppendTop(list, rest, x);
        list, rest := list + [x], rest - {x};
      }
      FilledIsTopN(list, rest, all, limit);
      TopNMeans(list, rows, matches, before, limit);
    }
  }
}

module Pagination {
  import opened Prelude
  import opened Keyset

  /** The zero time.Time, which a page token must not carry. */
  const ZERO_TIME: Time := 0

  /** What a page token, base64 of JSON, decodes to; an id need not be a UUID. */
  datatype Token = Malformed | Foreign(at: Time, id: string) | At(cursor: Cursor)

  datatype Service = Service(defaultSize: nat, encode: Cursor -> string, decode: string -> Token)

  /** Assumption: a token round-trips, except that the zero time is refused; no token is empty. */
  ghost predicate TokensRoundTrip(svc: Service) {
    forall c: Cursor ::
      svc.encode(c) != "" && svc.decode(svc.encode(c)) == if c.at == ZERO_TIME then Malformed else At(c)
  }

  /** The cursor a request starts below, if its token names one. */
  function CursorOf(svc: Service, token: string): Option<Cursor> {
    if token != "" && svc.decode(token).At? then Some(svc.decode(token).cursor) else None
  }

  const MAX_SIZE: nat := 100

  function Clamp(svc: Service, size: int): nat {
    var limit := if size <= 0 then svc.defaultSize else size;
    if limit > MAX_SIZE then MAX_SIZE else limit
  }

  datatype Response = Page(rows: seq<Row>, token: string) | InvalidPageToken | QueryFailed

  /** What `List` may answer on a given table. */
  ghost predicate Serves(
    svc: Service, rows: set<Row>, matches: Row -> bool, size: int, token: string, resp: Response)
  {
    var limit := Clamp(svc, size);
    if token != "" && svc.decode(token).Malformed? then resp == InvalidPageToken
    else if token != "" && svc.decode(token).Foreign? then resp == QueryFailed
    else
      exists ahead | TopN(ahead, Candidates(rows, matches, CursorOf(svc, token)), limit + 1) ::
        resp == PageFrom(svc, ahead, limit)
  }

  /** Cut the lookahead row off and name the last row kept. */
  function PageFrom(svc: Service, ahead: seq<Row>, limit: nat): (resp: Response)
    ensures resp.Page?
  {
    if |ahead| > limit && limit > 0 then Page(ahead[..limit], svc.encode(KeyOf(ahead[limit - 1]))) else Page(ahead, "")
  }

  /** A page asked for without a size has the default one; nobody gets more than 100 rows. */
  function PageSize(defaultSize: nat, size: int): (n: nat)
    ensures defaultSize > 0 ==> n > 0
  {
    if size > 100 then 100 else if size > 0 then size else if defaultSize > 100 then 100 else defaultSize
  }

  /** No page is longer than it should be, and one that has a successor is full. */
  predicate FillsPage(resp: Response, defaultSize: nat, size: int)
    requires resp.Page?
  {
    |resp.rows| <= PageSize(defaultSize, size) && (resp.token != "" ==> |resp.rows| == PageSize(defaultSize, size))
  }

  /** `Service.List`. */
  method ListPage(
    svc: Service, repo: Repository, matches: Row -> bool, size: int, token: string) returns (resp: Response)
    requires UniqueIds(repo.rows) && 0 < svc.defaultSize
    ensures Serves(svc, repo.rows, matches, size, token, resp)
    ensures resp.Page? ==> FillsPage(resp, svc.defaultSize, size)
  {
    var limit := size;
    if limit <= 0 {
      limit := svc.defaultSize;
    }
    if limit > 100 {
      limit := 100;
    }
    var before := None;
    if token != "" {
      var page := svc.decode(token);
      if page.Malformed? {
        return InvalidPageToken;
      }
      if page.Foreign? {
        return QueryFailed;    // the database refuses the id as a UUID
      }
      before := Some(page.cursor);
    }
    var rows := repo.List(matches, before, limit + 1);
    if |rows| > limit {
      var last := rows[limit - 1];
      resp := Page(rows[..limit], svc.encode(KeyOf(last)));
    } else {
      resp := Page(rows, "");
    }
    assert TopN(rows, Candidates(repo.rows, matches, CursorOf(svc, token)), limit + 1);
    assert resp == PageFrom(svc, rows, limit);
  }

  /** `($n = '' OR column = $n)` for each filter column. */
  function AuditFilter(actorId: string, action: string, resourceType: string, resourceId: string): Row -> bool {
    (row: Row) =>
      && (actorId == "" || ("actor_id" in row.columns && row.columns["actor_id"] == actorId))
      && (action == "" || ("action" in row.columns && row.columns["action"] == action))
      && (resourceType == "" || ("resource_type" in row.columns && row.columns["resource_type"] == resourceType))
      && (resourceId == "" || ("resource_id" in row.columns && row.columns["resource_id"] == resourceId))
  }

  /** A row matches if, for each filter with a value, the column of that name has that value. */
  lemma AuditFilterMatches(row: Row, actorId: string, action: string, resourceType: string, resourceId: string)
    ensures
      var filters := map["actor_id" := actorId, "action" := action, "resource_type" := resourceType, "resource_id" := resourceId];
      AuditFilter(actorId, action, resourceType, resourceId)(row) <==>
      forall name | name in filters && filters[name] != "" :: name in row.columns && row.columns[name] == filters[name]
  {
    var filters := map["actor_id" := actorId, "action" := action, "resource_type" := resourceType, "resource_id" := resourceId];
    assert filters["actor_id"] == actorId && filters["action"] == action;
    assert filters["resource_type"] == resourceType && filters["resource_id"] == resourceId;
  }

  /** The audit service: 50 events a page unless asked otherwise; filter values lose their surrounding blanks. */
  method ListAuditEvents(
    svc: Service, repo: Repository, actorId: string, action: string, resourceType: string, resourceId: string,
    size: int, token: string) returns (resp: Response)
    requires UniqueIds(repo.rows) && svc.defaultSize == 50
    ensures Serves(svc, repo.rows,
                   AuditFilter(TrimSpace(actorId), TrimSpace(action), TrimSpace(resourceType), TrimSpace(resourceId)),
                   size, token, resp)
    ensures resp.Page? ==> FillsPage(resp, 50, size)
  {
    var filter := AuditFilter(TrimSpace(actorId), TrimSpace(action), TrimSpace(resourceType), TrimSpace(resourceId));
    resp := ListPage(svc, repo, filter, size, token);
  }

  /** SQL LIKE with its default escape character. */
  predicate Like(text: string, pattern: string)
    decreases |pattern|, |text|
  {
    if pattern == "" then text == ""
    else if pattern[0] == '%' then Like(text, pattern[1..]) || (text != "" && Like(text[1..], pattern))
    else if text == "" then false
    else if pattern[0] == '_' then Like(text[1..], pattern[1..])
    else if pattern[0] == '\\' && |pattern| > 1 then text[0] == pattern[1] && Like(text[1..], pattern[2..])
    else text[0] == pattern[0] && Like(text[1..], pattern[1..])
  }

  /** `($1 = '' OR name ILIKE '%'||$1||'%' OR email ILIKE '%'||$1||'%')`; `fold` is the database's lower-casing. */
  function UserFilter(fold: string -> string, search: string): Row -> bool {
    (row: Row) =>
      || search == ""
      || ("name" in row.columns && Like(fold(row.columns["name"]), "%" + fold(search) + "%"))
      || ("email" in row.columns && Like(fold(row.columns["email"]), "%" + fold(search) + "%"))
  }

  /**
    A search for text without wildcards or escapes matches the users whose name or email contains it, up to case; an
    empty one matches everybody.
   */
  lemma UserFilterMatches(row: Row, fold: string -> string, search: string)
    requires Plain(fold(search))
    ensures UserFilter(fold, search)(row) <==>
            search == "" || exists name | name in {"name", "email"} && name in row.columns ::
              Contains(fold(row.columns[name]), fold(search))
  {
    SearchIsContainment(fold(search));
    forall text: string ensures Like(text, "%" + fold(search) + "%") <==> Contains(text, fold(search)) {
      SearchIsContainment(fold(search));
    }
    if UserFilter(fold, search)(row) && search != "" {
      if "name" in row.columns && Contains(fold(row.columns["name"]), fold(search)) {
        assert "name" in {"name", "email"};
      } else {
        assert "email" in {"name", "email"} && "email" in row.columns;
      }
    }
  }

  // What a pattern means: characters and underscores stand for one character each, a percent sign for any stretch,
  // a backslash takes the next character as it is.

  predicate NoStretch(p: string) {
    forall i | 0 <= i < |p| :: p[i] != '%' && p[i] != '\\'
  }

  /** Character by character. */
  predicate Fits(text: string, p: string) {
    |text| == |p| && forall i | 0 <= i < |p| :: p[i] == '_' || p[i] == text[i]
  }

  lemma {:induction false} LikeHead(text: string, p: string, rest: string)
    requires NoStretch(p)
    ensures Like(text, p + rest) <==> |p| <= |text| && Fits(text[..|p|], p) && Like(text[|p|..], rest)
  {
    if p == "" {
      assert p + rest == rest && text[0..] == text;
    } else {
      assert (p + rest)[1..] == p[1..] + rest;
      if text != "" {
        LikeHead(text[1..], p[1..], rest);
        if |p| <= |text| {
          assert text[1..][|p| - 1..] == text[|p|..];
          FitsHead(text[..|p|], p);
          assert text[..|p|][1..] == text[1..][..|p| - 1];
        }
      }
    }
  }

  lemma FitsHead(text: string, p: string)
    requires text != "" && p != "" && |text| == |p|
    ensures Fits(text, p) <==> (p[0] == '_' || p[0] == text[0]) && Fits(text[1..], p[1..])
  {
    assert forall i | 0 < i < |p| :: p[i] == p[1..][i - 1] && text[i] == text[1..][i - 1];
    if Fits(text, p) {
      assert forall i | 0 <= i < |p[1..]| :: p[1..][i] == p[i + 1] && text[1..][i] == text[i + 1];
    }
  }

  lemma {:induction false} LikeStretch(text: string, rest: string)
    ensures Like(text, "%" + rest) <==> exists j | 0 <= j <= |text| :: Like(text[j..], rest)
  {
    var p := "%" + rest;
    assert p[1..] == rest && text[0..] == text;
    if text != "" {
      LikeStretch(text[1..], rest);
      forall j | 0 < j <= |text| ensures text[1..][j - 1..] == text[j..] {
      }
      if j :| 0 <= j <= |text| && Like(text[j..], rest) && j > 0 {
        assert Like(text[1..][j - 1..], rest);
      }
      if Like(text[1..], p) {
        var j :| 0 <= j <= |text[1..]| && Like(text[1..][j..], rest);
        assert text[1..][j..] == text[j + 1..];
      }
    } else {
      assert forall j | 0 <= j <= |text| :: text[j..] == text;
    }
  }

  /** The three laws that give every pattern its meaning. */
  lemma LikeMeans(text: string, p: string, c: char, rest: string)
    ensures NoStretch(p) ==> (Like(text, p + rest) <==> |p| <= |text| && Fits(text[..|p|], p) && Like(text[|p|..], rest))
    ensures Like(text, "%" + rest) <==> exists j | 0 <= j <= |text| :: Like(text[j..], rest)
    ensures Like(text, "\\" + [c] + rest) <==> text != "" && text[0] == c && Like(text[1..], rest)
    ensures Like(text, "") <==> text == ""
  {
    if NoStretch(p) {
      LikeHead(text, p, rest);
    }
    LikeStretch(text, rest);
    assert ("\\" + [c] + rest)[2..] == rest;
  }

  /** The user service: 20 users a page unless asked otherwise. */
  method ListUsers(svc: Service, repo: Repository, fold: string -> string, search: string, size: int, token: string)
    returns (resp: Response)
    requires UniqueIds(repo.rows) && svc.defaultSize == 20
    ensures Serves(svc, repo.rows, UserFilter(fold, TrimSpace(search)), size, token, resp)
    ensures resp.Page? ==> FillsPage(resp, 20, size)
  {
    resp := ListPage(svc, repo, UserFilter(fold, TrimSpace(search)), size, token);
  }

  predicate Plain(s: string) {
    forall i | 0 <= i < |s| :: s[i] != '%' && s[i] != '_' && s[i] != '\\'
  }

  /** A pattern that is plain text followed by anything is a prefix test. */
  lemma {:induction false} LikePrefix(text: string, s: string)
    requires Plain(s)
    ensures Like(text, s + "%") <==> s <= text
  {
    if s == "" {
      assert s + "%" == "%" && "%"[1..] == "";
      LikeAnything(text);
    } else {
      assert (s + "%")[1..] == s[1..] + "%";
      if text != "" {
        LikePrefix(text[1..], s[1..]);
        assert s == [s[0]] + s[1..] && text == [text[0]] + text[1..];
        assert s <= text <==> s[0] == text[0] && s[1..] <= text[1..];
      }
    }
  }

  lemma {:induction false} LikeAnything(text: string)
    ensures Like(text, "%")
  {
    assert "%"[1..] == "";
    if text != "" {
      LikeAnything(text[1..]);
    }
  }

  predicate Contains(text: string, s: string) {
    exists i | 0 <= i <= |text| :: s <= text[i..]
  }

  lemma {:induction false} PlainSearch(text: string, s: string)
    requires Plain(s)
    ensures Like(text, "%" + s + "%") <==> Contains(text, s)
  {
    var pattern := "%" + s + "%";
    assert pattern[1..] == s + "%";
    LikePrefix(text, s);
    assert text[0..] == text;
    if text != "" {
      PlainSearch(text[1..], s);
      ContainsTail(text, s);
    }
  }

  /** A text that a search finds: wildcards match as little as they can, escapes what they escape. */
  function Example(s: string): string {
    if s == "" then ""
    else if s[0] == '%' then Example(s[1..])
    else if s[0] == '_' then "a" + Example(s[1..])
    else if s[0] == '\\' then if |s| > 1 then [s[1]] + Example(s[2..]) else "%"
    else [s[0]] + Example(s[1..])
  }

  lemma {:induction false} ExampleMatches(s: string)
    ensures Like(Example(s), s + "%")
  {
    var pattern := s + "%";
    if s == "" {
      assert pattern == "%" && "%"[1..] == "";
    } else if s[0] == '\\' && |s| > 1 {
      ExampleMatches(s[2..]);
      assert pattern[2..] == s[2..] + "%" && Example(s)[1..] == Example(s[2..]);
    } else if s[0] == '\\' {
      assert pattern[1] == '%' && pattern[2..] == "" && "%"[1..] == "";
    } else {
      ExampleMatches(s[1..]);
      assert pattern[1..] == s[1..] + "%";
      assert s[0] != '%' ==> Example(s)[1..] == Example(s[1..]);
    }
  }

  /** Only plain text is its own example. */
  lemma {:induction false} ExampleDiffers(s: string)
    ensures |Example(s)| <= |s|
    ensures Example(s) == s ==> Plain(s)
  {
    if s != "" && s[0] == '\\' && |s| > 1 {
      ExampleDiffers(s[2..]);
    } else if s != "" && s[0] != '\\' {
      ExampleDiffers(s[1..]);
      if Example(s) == s {
        assert s[0] != '%' && s[0] != '_';
        assert Example(s)[1..] == Example(s[1..]);
        assert forall i | 0 < i < |s| :: s[i] == s[1..][i - 1];
      }
    }
  }

  lemma ContainsLongOrEqual(text: string, s: string)
    requires Contains(text, s) && |text| <= |s|
    ensures text == s
  {
    var i :| 0 <= i <= |text| && s <= text[i..];
    assert text[0..] == text;
  }

  /** A search finds exactly the values that contain the text, if and only if the text has no wildcard or escape. */
  lemma SearchIsContainment(s: string)
    ensures (forall text :: Like(text, "%" + s + "%") <==> Contains(text, s)) <==> Plain(s)
  {
    if Plain(s) {
      forall text ensures Like(text, "%" + s + "%") <==> Contains(text, s) {
        PlainSearch(text, s);
      }
    } else {
      var text := Example(s);
      ExampleMatches(s);
      ExampleDiffers(s);
      assert ("%" + s + "%")[1..] == s + "%";
      assert Like(text, "%" + s + "%");
      if Contains(text, s) {
        ContainsLongOrEqual(text, s);
      }
    }
  }

  lemma ContainsTail(text: string, s: string)
    requires text != ""
    ensures Contains(text, s) <==> s <= text || Contains(text[1..], s)
  {
    assert text[0..] == text;
    assert forall i | 0 <= i <= |text[1..]| :: text[1..][i..] == text[i + 1..];
    if Contains(text, s) && !(s <= text) {
      var i :| 0 <= i <= |text| && s <= text[i..];
      assert text[1..][i - 1..] == text[i..];
    }
  }

  // ---------------------------------------------------------------- one page

  /** A page holds everything down to its last row if there is more, and everything if there is not. */
  predicate Covers(all: set<Row>, limit: nat, rows: seq<Row>, more: bool) {
    && Descending(rows)
    && (!more ==> Elements(rows) == all && |rows| <= limit)
    && (more ==>
          && |rows| == limit > 0
          && Elements(rows) == (set r | r in all && !Below(KeyOf(r), KeyOf(rows[limit - 1])))
          && exists r | r in all :: Below(KeyOf(r), KeyOf(rows[limit - 1])))
  }

  lemma FullPage(all: set<Row>, limit: nat, ahead: seq<Row>)
    requires TopN(ahead, all, limit + 1) && |ahead| > limit > 0
    ensures Covers(all, limit, ahead[..limit], true)
  {
    var rows, last := ahead[..limit], KeyOf(ahead[limit - 1]);
    forall r | r in rows ensures r in all && !Below(KeyOf(r), last) {
      var i :| 0 <= i < limit && rows[i] == r;
      assert ahead[i] == r && r in Elements(ahead);
    }
    assert ahead[limit - 1] in ahead;
    forall r | r in all && !Below(KeyOf(r), last) ensures r in rows {
      var i :| 0 <= i < |ahead| && ahead[i] == r;
      assert i < limit && rows[i] == r;
    }
    assert ahead[limit] in Elements(ahead) && Below(KeyOf(ahead[limit]), last);
  }

  lemma ShortPage(all: set<Row>, limit: nat, ahead: seq<Row>)
    requires TopN(ahead, all, limit + 1) && |ahead| <= limit
    ensures Covers(all, limit, ahead, false)
  {
    DescendingCardinality(ahead);
    assert all == Elements(ahead) + (all - Elements(ahead));
  }

  lemma LookaheadCovers(svc: Service, all: set<Row>, limit: nat, ahead: seq<Row>)
    requires TokensRoundTrip(svc) && TopN(ahead, all, limit + 1) && limit > 0
    ensures
      var resp := PageFrom(svc, ahead, limit);
      && Covers(all, limit, resp.rows, resp.token != "")
      && (resp.token != "" ==> resp.rows != [] && resp.token == svc.encode(KeyOf(resp.rows[|resp.rows| - 1])))
  {
    if |ahead| > limit {
      FullPage(all, limit, ahead);
    } else {
      ShortPage(all, limit, ahead);
    }
  }

  lemma PageCovers(svc: Service, table: set<Row>, matches: Row -> bool, size: int, token: string, resp: Response)
    requires TokensRoundTrip(svc) && 0 < svc.defaultSize && Serves(svc, table, matches, size, token, resp)
    ensures resp.InvalidPageToken? <==> token != "" && svc.decode(token).Malformed?
    ensures resp.QueryFailed? <==> token != "" && svc.decode(token).Foreign?
    ensures resp.Page? ==>
      && Covers(Candidates(table, matches, CursorOf(svc, token)), Clamp(svc, size), resp.rows, resp.token != "")
      && (resp.token != "" ==> resp.rows != [] && resp.token == svc.encode(KeyOf(resp.rows[|resp.rows| - 1])))
  {
    if resp.Page? {
      var limit := Clamp(svc, size);
      var all := Candidates(table, matches, CursorOf(svc, token));
      var ahead :| TopN(ahead, all, limit + 1) && resp == PageFrom(svc, ahead, limit);
      LookaheadCovers(svc, all, limit, ahead);
    }
  }

  // ---------------------------------------------------------------- whole walks

  function TokenFor(pages: seq<Response>, i: nat): string
    requires i <= |pages|
  {
    if i == 0 || !pages[i - 1].Page? then "" else pages[i - 1].token
  }

  ghost predicate WalkStep(
    svc: Service, tables: seq<set<Row>>, matches: Row -> bool, sizes: seq<int>, pages: seq<Response>, i: nat)
    requires i < |tables| == |sizes| == |pages|
  {
    && pages[i].Page?
    && Serves(svc, tables[i], matches, sizes[i], TokenFor(pages, i), pages[i])
    && (i > 0 ==> TokenFor(pages, i) != "" && tables[i - 1] <= tables[i])
  }

  /**
    A client's walk: it starts with the empty token, follows each page's token with the next request, may ask for
    a different size each time, and the table may have grown between requests.
   */
  ghost predicate IsWalk(
    svc: Service, tables: seq<set<Row>>, matches: Row -> bool, sizes: seq<int>, pages: seq<Response>)
  {
    && |tables| == |sizes| == |pages| > 0
    && forall i | 0 <= i < |pages| :: WalkStep(svc, tables, matches, sizes, pages, i)
  }

  /** Rows carry the time they were written, which is not the zero time. */
  predicate Stamped(rows: set<Row>) {
    forall r | r in rows :: r.at != ZERO_TIME
  }

  function Rows(page: Response): seq<Row> {
    if page.Page? then page.rows else []
  }

  function More(page: Response): bool {
    page.Page? && page.token != ""
  }

  function Flatten(pages: seq<Response>): seq<Row> {
    if pages == [] then [] else Flatten(pages[..|pages| - 1]) + Rows(pages[|pages| - 1])
  }

  /** The key below which page i starts. */
  function Reached(pages: seq<Response>, i: nat): Option<Cursor>
    requires i <= |pages|
  {
    if i == 0 || Rows(pages[i - 1]) == [] then None
    else Some(KeyOf(Rows(pages[i - 1])[|Rows(pages[i - 1])| - 1]))
  }

  /** A walk with its tokens read: each page starts right below the last row of the page before it. */
  ghost predicate Link(tables: seq<set<Row>>, matches: Row -> bool, limits: seq<nat>, pages: seq<Response>, i: nat)
    requires i < |tables| == |limits| == |pages|
  {
    && (i > 0 ==> More(pages[i - 1]) && Rows(pages[i - 1]) != [] && tables[i - 1] <= tables[i])
    && Covers(Candidates(tables[i], matches, Reached(pages, i)), limits[i], Rows(pages[i]), More(pages[i]))
  }

  ghost predicate Chain(tables: seq<set<Row>>, matches: Row -> bool, limits: seq<nat>, pages: seq<Response>) {
    && |tables| == |limits| == |pages| > 0
    && forall i | 0 <= i < |pages| :: Link(tables, matches, limits, pages, i)
  }

  function Limits(svc: Service, sizes: seq<int>): seq<nat> {
    seq(|sizes|, i requires 0 <= i < |sizes| => Clamp(svc, sizes[i]))
  }

  lemma {:induction false} TablesGrow(
    svc: Service, tables: seq<set<Row>>, matches: Row -> bool, sizes: seq<int>, pages: seq<Response>, i: nat, j: nat)
    requires IsWalk(svc, tables, matches, sizes, pages) && i <= j < |tables|
    ensures tables[i] <= tables[j]
  {
    if i < j {
      TablesGrow(svc, tables, matches, sizes, pages, i, j - 1);
      assert WalkStep(svc, tables, matches, sizes, pages, j);
    }
  }

  /** What one step says once its own page is read. */
  predicate Read(svc: Service, tables: seq<set<Row>>, matches: Row -> bool, limits: seq<nat>, pages: seq<Response>, i: nat)
    requires i < |tables| == |limits| == |pages|
  {
    var before := CursorOf(svc, TokenFor(pages, i));
    var rows := Rows(pages[i]);
    && pages[i].Page?
    && (i > 0 ==> before.Some? && TokenFor(pages, i) != "" && tables[i - 1] <= tables[i])
    && Covers(Candidates(tables[i], matches, before), limits[i], rows, More(pages[i]))
    && (More(pages[i]) ==> rows != [] && pages[i].token == svc.encode(KeyOf(rows[|rows| - 1])))
  }

  lemma StepIsRead(
    svc: Service, tables: seq<set<Row>>, matches: Row -> bool, sizes: seq<int>, pages: seq<Response>, i: nat)
    requires TokensRoundTrip(svc) && 0 < svc.defaultSize && i < |tables| == |sizes| == |pages|
    requires WalkStep(svc, tables, matches, sizes, pages, i)
    ensures Read(svc, tables, matches, Limits(svc, sizes), pages, i)
  {
    PageCovers(svc, tables[i], matches, sizes[i], TokenFor(pages, i), pages[i]);
  }

  lemma PageRowsAreStamped(table: set<Row>, matches: Row -> bool, before: Option<Cursor>, limit: nat, rows: seq<Row>, more: bool)
    requires Stamped(table) && Covers(Candidates(table, matches, before), limit, rows, more) && rows != []
    ensures rows[|rows| - 1].at != ZERO_TIME
  {
    assert rows[|rows| - 1] in Elements(rows);
  }

  lemma ReadIsLink(
    svc: Service, tables: seq<set<Row>>, matches: Row -> bool, limits: seq<nat>, pages: seq<Response>, i: nat)
    requires TokensRoundTrip(svc) && 0 < i < |tables| == |limits| == |pages|
    requires Read(svc, tables, matches, limits, pages, i) && Read(svc, tables, matches, limits, pages, i - 1)
    requires Stamped(tables[i - 1])
    ensures Link(tables, matches, limits, pages, i)
  {
    var rows := Rows(pages[i - 1]);
    var before := CursorOf(svc, TokenFor(pages, i - 1));
    PageRowsAreStamped(tables[i - 1], matches, before, limits[i - 1], rows, More(pages[i - 1]));
    assert CursorOf(svc, TokenFor(pages, i)) == Some(KeyOf(rows[|rows| - 1]));
  }

  lemma ReadsAreChain(svc: Service, tables: seq<set<Row>>, matches: Row -> bool, limits: seq<nat>, pages: seq<Response>)
    requires TokensRoundTrip(svc) && |tables| == |limits| == |pages| > 0
    requires forall i | 0 <= i < |pages| :: Read(svc, tables, matches, limits, pages, i) && Stamped(tables[i])
    ensures Chain(tables, matches, limits, pages)
  {
    forall i | 0 <= i < |pages| ensures Link(tables, matches, limits, pages, i) {
      assert Read(svc, tables, matches, limits, pages, i);
      if i > 0 {
        ReadIsLink(svc, tables, matches, limits, pages, i);
      }
    }
  }

  lemma WalkIsChain(svc: Service, tables: seq<set<Row>>, matches: Row -> bool, sizes: seq<int>, pages: seq<Response>)
    requires TokensRoundTrip(svc) && 0 < svc.defaultSize && IsWalk(svc, tables, matches, sizes, pages)
    requires Stamped(tables[|tables| - 1])
    ensures Chain(tables, matches, Limits(svc, sizes), pages)
  {
    var limits := Limits(svc, sizes);
    forall i | 0 <= i < |pages| ensures Read(svc, tables, matches, limits, pages, i) && Stamped(tables[i]) {
      StepIsRead(svc, tables, matches, sizes, pages, i);
      TablesGrow(svc, tables, matches, sizes, pages, i, |tables| - 1);
    }
    ReadsAreChain(svc, tables, matches, limits, pages);
  }

  /** What has been returned so far, in terms of the first and the current table. */
  ghost predicate Collected(first: set<Row>, now: set<Row>, matches: Row -> bool, list: seq<Row>, last: Option<Cursor>) {
    && first <= now
    && Descending(list)
    && (forall r | r in list :: r in now && matches(r))
    && (forall r | r in first && matches(r) :: r in list || (last.Some? && Below(KeyOf(r), last.value)))
    && (last.Some? ==> forall r | r in list :: !Below(KeyOf(r), last.value))
  }

  lemma DescendingAppend(list: seq<Row>, rows: seq<Row>, last: Cursor)
    requires Descending(list) && Descending(rows)
    requires forall r | r in list :: !Below(KeyOf(r), last)
    requires forall r | r in rows :: Below(KeyOf(r), last)
    ensures Descending(list + rows)
  {
    var both := list + rows;
    forall i, j | 0 <= i < j < |both| ensures Below(KeyOf(both[j]), KeyOf(both[i])) {
      if i < |list| <= j {
        assert both[i] in list && both[j] in rows;
      }
    }
  }

  /** One more page extends the collection; the first page extends the empty one. */
  lemma Collect(
    first: set<Row>, before: set<Row>, now: set<Row>, matches: Row -> bool,
    list: seq<Row>, last: Option<Cursor>, limit: nat, rows: seq<Row>, more: bool)
    requires if last.Some? then Collected(first, before, matches, list, last) && before <= now else list == [] && first == now
    requires Covers(Candidates(now, matches, last), limit, rows, more)
    ensures Collected(first, now, matches, list + rows, if more then Some(KeyOf(rows[limit - 1])) else None)
  {
    var all := Candidates(now, matches, last);
    forall r | r in rows ensures r in all {
      assert r in Elements(rows);
    }
    if last.Some? {
      DescendingAppend(list, rows, last.value);
    } else {
      assert list + rows == rows;
    }
    forall r | r in first && matches(r)
      ensures r in list + rows || (more && Below(KeyOf(r), KeyOf(rows[limit - 1])))
    {
      if r !in list {
        assert r in all;
        assert r in Elements(rows) || (more && Below(KeyOf(r), KeyOf(rows[limit - 1])));
      }
    }
    if more {
      assert rows[limit - 1] in rows;
      forall r | r in list + rows ensures !Below(KeyOf(r), KeyOf(rows[limit - 1])) {
        if r in rows {
          assert r in Elements(rows);
        }
      }
    }
  }

  lemma FlattenStep(pages: seq<Response>, n: nat)
    requires n < |pages|
    ensures Flatten(pages[..n + 1]) == Flatten(pages[..n]) + Rows(pages[n])
  {
    assert pages[..n + 1][..n] == pages[..n];
  }

  /** Where a page that is not the last leaves off. */
  function Left(pages: seq<Response>, n: nat): Option<Cursor>
    requires n < |pages|
  {
    if More(pages[n]) then Reached(pages, n + 1) else None
  }

  lemma LeftIsLast(pages: seq<Response>, n: nat, all: set<Row>, limit: nat)
    requires n < |pages| && Covers(all, limit, Rows(pages[n]), More(pages[n]))
    ensures Left(pages, n) == if More(pages[n]) then Some(KeyOf(Rows(pages[n])[limit - 1])) else None
  {
  }

  lemma CollectPage(
    tables: seq<set<Row>>, matches: Row -> bool, limits: seq<nat>, pages: seq<Response>, n: nat, list: seq<Row>)
    requires n < |tables| == |limits| == |pages| && Link(tables, matches, limits, pages, n)
    requires if n == 0 then list == [] else Collected(tables[0], tables[n - 1], matches, list, Left(pages, n - 1))
    ensures Collected(tables[0], tables[n], matches, list + Rows(pages[n]), Left(pages, n))
  {
    var all := Candidates(tables[n], matches, Reached(pages, n));
    LeftIsLast(pages, n, all, limits[n]);
    Collect(tables[0], tables[if n == 0 then 0 else n - 1], tables[n], matches, list, Reached(pages, n),
            limits[n], Rows(pages[n]), More(pages[n]));
  }

  lemma {:induction false} ChainCollects(
    tables: seq<set<Row>>, matches: Row -> bool, limits: seq<nat>, pages: seq<Response>, n: nat)
    requires Chain(tables, matches, limits, pages) && n < |pages|
    ensures Collected(tables[0], tables[n], matches, Flatten(pages[..n + 1]), Left(pages, n))
  {
    if n > 0 {
      ChainCollects(tables, matches, limits, pages, n - 1);
    }
    FlattenStep(pages, n);
    CollectPage(tables, matches, limits, pages, n, Flatten(pages[..n]));
  }

  /**
    Growth: whatever is inserted between requests, no row is returned twice, only matching rows are returned, and a
    walk that ends has returned every matching row that was there when it began.
   */
  lemma GrowthIsHarmless(svc: Service, tables: seq<set<Row>>, matches: Row -> bool, sizes: seq<int>, pages: seq<Response>)
    requires TokensRoundTrip(svc) && 0 < svc.defaultSize && IsWalk(svc, tables, matches, sizes, pages)
    requires Stamped(tables[|tables| - 1])
    ensures Descending(Flatten(pages))
    ensures forall i, j | 0 <= i < j < |Flatten(pages)| ::
              NewerFirst(Flatten(pages)[i], Flatten(pages)[j]) && Flatten(pages)[i] != Flatten(pages)[j]
    ensures forall r | r in Flatten(pages) :: r in tables[|tables| - 1] && matches(r)
    ensures !More(pages[|pages| - 1]) ==> forall r | r in tables[0] && matches(r) :: r in Flatten(pages)
  {
    WalkIsChain(svc, tables, matches, sizes, pages);
    ChainCollects(tables, matches, Limits(svc, sizes), pages, |pages| - 1);
    assert pages[..|pages|] == pages;
    DescendingIsNewerFirst(Flatten(pages));
  }

  lemma SameRows(list: seq<Row>, table: set<Row>, matches: Row -> bool)
    requires forall r :: r in list <==> r in table && matches(r)
    ensures Elements(list) == Candidates(table, matches, None)
  {
  }

  /** Completeness: on a table that does not change, a walk that ends yields exactly the matching rows, in order. */
  lemma WalksAreComplete(
    svc: Service, table: set<Row>, tables: seq<set<Row>>, matches: Row -> bool, sizes: seq<int>,
    pages: seq<Response>, listing: seq<Row>)
    requires TokensRoundTrip(svc) && 0 < svc.defaultSize && IsWalk(svc, tables, matches, sizes, pages)
    requires Stamped(table) && (forall i | 0 <= i < |tables| :: tables[i] == table)
    requires !More(pages[|pages| - 1])
    requires forall i, j | 0 <= i < j < |listing| :: NewerFirst(listing[i], listing[j])
    requires forall r :: r in listing <==> r in table && matches(r)
    ensures Flatten(pages) == listing
  {
    DescendingIsNewerFirst(listing);
    SameRows(listing, table, matches);
    GrowthIsHarmless(svc, tables, matches, sizes, pages);
    SameRows(Flatten(pages), table, matches);
    ListingIsUnique(Flatten(pages), listing);
  }

  // ---------------------------------------------------------------- how many pages

  lemma {:induction false} FullPages(pages: seq<Response>, limit: nat)
    requires pages != [] && forall i | 0 <= i < |pages| - 1 :: |Rows(pages[i])| == limit
    ensures |Flatten(pages)| == limit * (|pages| - 1) + |Rows(pages[|pages| - 1])|
  {
    var n := |pages| - 1;
    if n == 0 {
      assert Flatten(pages[..0]) == [];
    } else {
      FullPages(pages[..n], limit);
      assert limit * n == limit * (n - 1) + limit;
    }
  }

  lemma PageSizes(tables: seq<set<Row>>, matches: Row -> bool, limits: seq<nat>, pages: seq<Response>, i: nat)
    requires Chain(tables, matches, limits, pages) && i < |pages|
    ensures |Rows(pages[i])| <= limits[i] && (i + 1 < |pages| ==> |Rows(pages[i])| == limits[i])
  {
    assert Link(tables, matches, limits, pages, i);
    if i + 1 < |pages| {
      assert Link(tables, matches, limits, pages, i + 1);
    }
  }

  /** On a fixed table no page after the first is empty: its token was only given because a row was left. */
  lemma LaterPagesHaveRows(table: set<Row>, tables: seq<set<Row>>, matches: Row -> bool, limits: seq<nat>, pages: seq<Response>)
    requires Chain(tables, matches, limits, pages) && |pages| > 1
    requires forall i | 0 <= i < |tables| :: tables[i] == table
    ensures Rows(pages[|pages| - 1]) != []
  {
    var n := |pages| - 1;
    assert Link(tables, matches, limits, pages, n - 1) && Link(tables, matches, limits, pages, n);
    var last := Reached(pages, n);
    var r :| r in Candidates(table, matches, Reached(pages, n - 1)) && Below(KeyOf(r), last.value);
    assert r in Candidates(table, matches, last);
    assert !More(pages[n]) ==> r in Elements(Rows(pages[n]));
  }

  function PageCount(n: nat, limit: nat): nat
    requires limit > 0
  {
    var full := (n + limit - 1) / limit;
    if full == 0 then 1 else full
  }

  lemma CeilingOf(n: nat, limit: nat, k: nat, m: nat)
    requires limit > 0 && n == limit * k + m && m <= limit && (k > 0 ==> m > 0)
    ensures PageCount(n, limit) == k + 1
    ensures n == 0 ==> k == 0
    ensures n > 0 ==> limit * k < n <= limit * (k + 1)
  {
    assert k > 0 ==> limit * k > 0;
    assert limit * (k + 1) == limit * k + limit;
    if m > 0 {
      assert n + limit - 1 == limit * (k + 1) + (m - 1);
      DivideExactly(n + limit - 1, limit, k + 1, m - 1);
    } else {
      DivideExactly(limit - 1, limit, 0, limit - 1);
    }
  }

  lemma MultipleBound(d: nat, x: int)
    requires d > 0
    ensures x >= 1 ==> d * x >= d
    ensures x <= -1 ==> d * x + d <= 0
  {
  }

  lemma DivideExactly(a: nat, d: nat, q: nat, r: nat)
    requires d > 0 && a == d * q + r && r < d
    ensures a / d == q
  {
    var q' := a / d;
    MultipleBound(d, q - q');
    assert d * (q - q') == d * q - d * q';
  }

  lemma WalkLength(
    svc: Service, table: set<Row>, tables: seq<set<Row>>, matches: Row -> bool, sizes: seq<int>,
    pages: seq<Response>, size: int)
    requires TokensRoundTrip(svc) && 0 < svc.defaultSize && IsWalk(svc, tables, matches, sizes, pages)
    requires Stamped(table) && (forall i | 0 <= i < |tables| :: tables[i] == table)
    requires (forall i | 0 <= i < |sizes| :: sizes[i] == size) && !More(pages[|pages| - 1])
    ensures
      var limit, m := Clamp(svc, size), |Rows(pages[|pages| - 1])|;
      && |Candidates(table, matches, None)| == limit * (|pages| - 1) + m
      && m <= limit && (|pages| > 1 ==> m > 0)
  {
    var limit := Clamp(svc, size);
    WalkIsChain(svc, tables, matches, sizes, pages);
    forall i | 0 <= i < |pages|
      ensures |Rows(pages[i])| <= limit && (i + 1 < |pages| ==> |Rows(pages[i])| == limit)
    {
      PageSizes(tables, matches, Limits(svc, sizes), pages, i);
    }
    FullPages(pages, limit);
    if |pages| > 1 {
      LaterPagesHaveRows(table, tables, matches, Limits(svc, sizes), pages);
    }
    GrowthIsHarmless(svc, tables, matches, sizes, pages);
    assert Elements(Flatten(pages)) == Candidates(table, matches, None);
    DescendingCardinality(Flatten(pages));
  }

  /** With a constant page size, a walk over n matching rows ends after max(1, ceil(n / size)) pages. */
  lemma WalksEndOnTime(
    svc: Service, table: set<Row>, tables: seq<set<Row>>, matches: Row -> bool, sizes: seq<int>,
    pages: seq<Response>, size: int)
    requires TokensRoundTrip(svc) && 0 < svc.defaultSize && IsWalk(svc, tables, matches, sizes, pages)
    requires Stamped(table) && (forall i | 0 <= i < |tables| :: tables[i] == table)
    requires (forall i | 0 <= i < |sizes| :: sizes[i] == size) && !More(pages[|pages| - 1])
    ensures
      var n, limit := |set r | r in table && matches(r)|, PageSize(svc.defaultSize, size);
      && |pages| == PageCount(n, limit)
      && if n == 0 then |pages| == 1 else limit * (|pages| - 1) < n <= limit * |pages|
  {
    assert (set r | r in table && matches(r)) == Candidates(table, matches, None);
    WalkLength(svc, table, tables, matches, sizes, pages, size);
    CeilingOf(|Candidates(table, matches, None)|, Clamp(svc, size), |pages| - 1, |Rows(pages[|pages| - 1])|);
  }

  lemma {:induction false} RowsPerPage(pages: seq<Response>)
    requires forall i | 0 <= i < |pages| :: Rows(pages[i]) != []
    ensures |Flatten(pages)| >= |pages|
  {
    if pages != [] {
      RowsPerPage(pages[..|pages| - 1]);
    }
  }

  /** Following tokens cannot go on forever: whatever the page sizes, a walk has at most one page per matching row. */
  lemma WalksTerminate(
    svc: Service, table: set<Row>, tables: seq<set<Row>>, matches: Row -> bool, sizes: seq<int>, pages: seq<Response>)
    requires TokensRoundTrip(svc) && 0 < svc.defaultSize && IsWalk(svc, tables, matches, sizes, pages)
    requires Stamped(table) && forall i | 0 <= i < |tables| :: tables[i] == table
    ensures |pages| == 1 || |pages| <= |Candidates(table, matches, None)|
  {
    if |pages| > 1 {
      WalkIsChain(svc, tables, matches, sizes, pages);
      LaterPagesHaveRows(table, tables, matches, Limits(svc, sizes), pages);
      forall i | 0 <= i < |pages| ensures Rows(pages[i]) != [] {
        if i + 1 < |pages| {
          assert Link(tables, matches, Limits(svc, sizes), pages, i + 1);
        }
      }
      RowsPerPage(pages);
      GrowthIsHarmless(svc, tables, matches, sizes, pages);
      DescendingCardinality(Flatten(pages));
      FitsIn(Elements(Flatten(pages)), Candidates(table, matches, None));
    }
  }

  lemma FitsIn(a: set<Row>, b: set<Row>)
    requires a <= b
    ensures |a| <= |b|
  {
    assert b == a + (b - a);
  }

  /** A token is refused on its return exactly if the row it names carries the zero time. */
  lemma TokenRefusedIffUnstamped(
    svc: Service, table: set<Row>, matches: Row -> bool, size: int, token: string, page: Response,
    later: set<Row>, again: int, answer: Response)
    requires TokensRoundTrip(svc) && 0 < svc.defaultSize
    requires Serves(svc, table, matches, size, token, page) && page.Page? && page.token != ""
    requires Serves(svc, later, matches, again, page.token, answer)
    ensures page.rows != []
    ensures answer.InvalidPageToken? <==> page.rows[|page.rows| - 1].at == ZERO_TIME
  {
    PageCovers(svc, table, matches, size, token, page);
    PageCovers(svc, later, matches, again, page.token, answer);
  }
}
