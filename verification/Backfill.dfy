/** The keyset pages that Ranking serves from its outbox for analytics recovery (analytics_backfill.go). */
module Backfill {
  import opened Common
  import opened Spaces
  import SealedCursor

  datatype Row = Row(id: int, topic: string, eventType: string, schemaVersion: int, payload: string, occurredAt: Option<int>)

  datatype Query = Query(topic: string, after: int, fromId: Option<int>, toId: Option<int>, fromAt: Option<int>, toAt: Option<int>)

  /** The bounds of List, without the keyset boundary. */
  predicate InRange(q: Query, r: Row)
  {
    && r.topic == q.topic
    && (q.fromId.Some? ==> r.id >= q.fromId.value)
    && (q.toId.Some? ==> r.id <= q.toId.value)
    && (q.fromAt.Some? ==> r.occurredAt.Some? && r.occurredAt.value >= q.fromAt.value)
    && (q.toAt.Some? ==> r.occurredAt.Some? && r.occurredAt.value <= q.toAt.value)
  }

  predicate Selected(q: Query, r: Row) { InRange(q, r) && r.id > q.after }

  function Matching(rows: seq<Row>, q: Query): seq<Row>
  {
    if rows == [] then []
    else
      var n := |rows| - 1;
      Matching(rows[..n], q) + if Selected(q, rows[n]) then [rows[n]] else []
  }

  function Min(a: int, b: int): int { if a < b then a else b }

  function Listed(rows: seq<Row>, q: Query, limit: nat): seq<Row>
  {
    var m := Matching(rows, q);
    m[..Min(limit, |m|)]
  }

  /** Outbox ids start at 1 and grow with every append. */
  predicate IdsInOrder(rows: seq<Row>)
  {
    (forall i :: 0 <= i < |rows| ==> rows[i].id >= 1) && (forall i, j :: 0 <= i < j < |rows| ==> rows[i].id < rows[j].id)
  }

  class MemoryAnalyticsBackfillStore {
    var rows: seq<Row>
    var next: int

    ghost predicate Valid()
      reads this
    {
      IdsInOrder(rows) && next >= 0 && forall i :: 0 <= i < |rows| ==> rows[i].id <= next
    }

    constructor ()
      ensures Valid() && rows == []
    {
      rows := [];
      next := 0;
    }

    method Append(topic: string, eventType: string, schemaVersion: int, payload: string, occurredAt: Option<int>) returns (id: int)
      requires Valid()
      modifies this
      ensures Valid() && id == old(next) + 1 && rows == old(rows) + [Row(id, topic, eventType, schemaVersion, payload, occurredAt)]
    {
      next := next + 1;
      id := next;
      rows := rows + [Row(id, topic, eventType, schemaVersion, payload, occurredAt)];
    }

    /** The rows are stored in id order, so sorting the candidates by id leaves them as they are. */
    method List(q: Query, limit: nat) returns (candidates: seq<Row>)
      requires Valid()
      ensures candidates == Listed(rows, q, limit)
    {
      candidates := [];
      for i := 0 to |rows|
        invariant candidates == Matching(rows[..i], q)
      {
        assert rows[..i + 1][..i] == rows[..i];
        var row := rows[i];
        if row.topic != q.topic || row.id <= q.after { continue; }
        if q.fromId.Some? && row.id < q.fromId.value { continue; }
        if q.toId.Some? && row.id > q.toId.value { continue; }
        if q.fromAt.Some? {
          if row.occurredAt.None? || row.occurredAt.value < q.fromAt.value { continue; }
        }
        if q.toAt.Some? {
          if row.occurredAt.None? || row.occurredAt.value > q.toAt.value { continue; }
        }
        candidates := candidates + [row];
      }
      assert rows[..|rows|] == rows;
      if |candidates| > limit { candidates := candidates[..limit]; }
    }
  }

  // ---- requests and cursors

  /** The authenticated content of a cursor. */
  datatype Cursor = Cursor(id: int, topic: string, jobId: string, fromCp: string, toCp: string, fromAt: string, toAt: string)

  /** Cursor text: absent, sealed under the service's key, or anything else. */
  datatype CursorText = NoCursor | Sealed(cursor: Cursor) | Forged

  type Codec = SealedCursor.Codec<Cursor>

  /** What DecodeAnalyticsBackfillCursor and EncodeAnalyticsBackfillCursor ask of a cursor's content. */
  predicate ProperCursor(c: Cursor) { c.id >= 1 && !Blank(c.topic) && !Blank(c.jobId) }

  /** The request's texts are trimmed. */
  datatype Request = Request(jobId: string, topic: string, schemaVersion: int, cursor: CursorText, limit: int,
                             fromCp: string, toCp: string, fromAt: string, toAt: string)

  /** Number and time parsing, and the envelope validator of a topic. */
  datatype Env = Env(parseInt: string -> Option<int>, parseTime: string -> Option<int>, envelopeOk: (string, string) -> bool)

  datatype Error = BadRequest | Corrupt | Unavailable | ReadFailed

  datatype Result<+T> = Ok(value: T) | Err(error: Error)

  datatype Page = Page(records: seq<string>, nextCursor: CursorText, fromId: Option<int>, toId: Option<int>,
                       fromAt: Option<int>, toAt: Option<int>)

  const DEFAULT_LIMIT := 100
  const MAX_LIMIT := 1000

  function EventTypeOf(topic: string): Option<string>
  {
    if topic == "ranking.player_rating_updated" then Some("PlayerRatingUpdated")
    else if topic == "ranking.leaderboard_snapshot_published" then Some("LeaderboardSnapshotPublished")
    else None
  }

  datatype Parsed = Parsed(limit: nat, q: Query)

  /** parseAnalyticsBackfillRequest. */
  function Parse(env: Env, req: Request): (r: Result<Parsed>)
    ensures r.Ok? ==> 1 <= r.value.limit <= MAX_LIMIT && r.value.q.topic == req.topic && r.value.q.after == 0
  {
    var limit := if req.limit == 0 then DEFAULT_LIMIT else req.limit;
    if req.jobId == "" || req.schemaVersion != 1 || EventTypeOf(req.topic).None? then Err(BadRequest)
    else if limit < 1 || limit > MAX_LIMIT then Err(BadRequest)
    else if req.fromCp == "" && req.toCp == "" && req.fromAt == "" && req.toAt == "" then Err(BadRequest)
    else if (req.fromCp == "") != (req.toCp == "") then Err(BadRequest)
    else if (req.fromAt == "") != (req.toAt == "") then Err(BadRequest)
    else
      var ids := if req.fromCp == "" then Ok((None, None)) else ParseRange(env.parseInt(req.fromCp), env.parseInt(req.toCp), 1);
      var times := if req.fromAt == "" then Ok((None, None)) else ParseTimes(env.parseTime(req.fromAt), env.parseTime(req.toAt));
      if ids.Err? || times.Err? then Err(BadRequest)
      else Ok(Parsed(limit, Query(req.topic, 0, ids.value.0, ids.value.1, times.value.0, times.value.1)))
  }

  function ParseRange(a: Option<int>, b: Option<int>, least: int): Result<(Option<int>, Option<int>)>
  {
    if a.None? || a.value < least || b.None? || b.value < least || a.value > b.value then Err(BadRequest) else Ok((a, b))
  }

  function ParseTimes(a: Option<int>, b: Option<int>): Result<(Option<int>, Option<int>)>
  {
    if a.None? || b.None? || a.value > b.value then Err(BadRequest) else Ok((a, b))
  }

  /** A cursor is bound to the query it was issued for. */
  predicate BoundTo(c: Cursor, req: Request)
  {
    && c.topic == req.topic && c.jobId == req.jobId && c.fromCp == req.fromCp && c.toCp == req.toCp
    && c.fromAt == req.fromAt && c.toAt == req.toAt
  }

  /** DecodeAnalyticsBackfillCursor, then the binding check. */
  function Boundary(req: Request): Result<int>
  {
    match req.cursor
    case NoCursor => Ok(0)
    case Sealed(c) => if c.id >= 1 && c.topic != "" && c.jobId != "" && BoundTo(c, req) then Ok(c.id) else Err(BadRequest)
    case Forged => Err(BadRequest)
  }

  function CursorAfter(req: Request, id: int): CursorText
  {
    Sealed(Cursor(id, req.topic, req.jobId, req.fromCp, req.toCp, req.fromAt, req.toAt))
  }

  predicate RowOk(env: Env, topic: string, r: Row)
  {
    && r.topic == topic && (Blank(r.eventType) || Some(r.eventType) == EventTypeOf(topic))
    && (r.schemaVersion == 0 || r.schemaVersion == 1) && env.envelopeOk(r.payload, topic)
  }

  function Payloads(rows: seq<Row>): seq<string> { seq(|rows|, i requires 0 <= i < |rows| => rows[i].payload) }

  function FirstAt(rows: seq<Row>): Option<int>
  {
    if rows == [] then None else if rows[0].occurredAt.Some? then rows[0].occurredAt else FirstAt(rows[1..])
  }

  function LastAt(rows: seq<Row>): Option<int>
  {
    if rows == [] then None
    else if rows[|rows| - 1].occurredAt.Some? then rows[|rows| - 1].occurredAt else LastAt(rows[..|rows| - 1])
  }

  /** What is answered for the rows of one page. */
  function Answer(env: Env, req: Request, page: seq<Row>, more: bool): Result<Page>
    requires more ==> page != []
  {
    if exists i :: 0 <= i < |page| && !RowOk(env, req.topic, page[i]) then Err(Corrupt)
    else if more && page[|page| - 1].id < 1 then Err(BadRequest)
    else Ok(Page(Payloads(page), if more then CursorAfter(req, page[|page| - 1].id) else NoCursor,
                 if page == [] then None else Some(page[0].id), if page == [] then None else Some(page[|page| - 1].id),
                 FirstAt(page), LastAt(page)))
  }

  /** The page of a request over the rows present: one row more is read, to see whether there is another page. */
  function PageOf(env: Env, rows: seq<Row>, req: Request): Result<Page>
  {
    var parsed := Parse(env, req);
    if parsed.Err? then Err(BadRequest)
    else
      var after := Boundary(req);
      if after.Err? then Err(BadRequest)
      else
        var limit := parsed.value.limit;
        var seen := Listed(rows, parsed.value.q.(after := after.value), limit + 1);
        var more := |seen| > limit;
        Answer(env, req, if more then seen[..limit] else seen, more)
  }

  lemma FirstAtSnoc(rows: seq<Row>, r: Row)
    ensures FirstAt(rows + [r]) == if FirstAt(rows).Some? then FirstAt(rows) else r.occurredAt
  {
    if rows == [] {
      assert (rows + [r])[1..] == [];
    } else {
      FirstAtSnoc(rows[1..], r);
      assert (rows + [r])[1..] == rows[1..] + [r];
    }
  }

  /** A request as it arrives: nothing is trimmed yet, and the cursor is text. */
  datatype RawRequest = RawRequest(jobId: string, topic: string, schemaVersion: int, cursor: string, limit: int,
                                   fromCp: string, toCp: string, fromAt: string, toAt: string)

  function CursorOf(codec: Codec, raw: string): CursorText
  {
    if Blank(raw) then NoCursor
    else
      var c := SealedCursor.Open(codec, raw);
      if c.Some? then Sealed(c.value) else Forged
  }

  function TextOf(codec: Codec, t: CursorText): string
    requires codec.Valid()
  {
    if t.Sealed? then SealedCursor.Seal(codec, t.cursor) else ""
  }

  function Tidy(codec: Codec, raw: RawRequest): Request
  {
    Request(Trim(raw.jobId), Trim(raw.topic), raw.schemaVersion, CursorOf(codec, raw.cursor), raw.limit,
            Trim(raw.fromCp), Trim(raw.toCp), Trim(raw.fromAt), Trim(raw.toAt))
  }

  /** The answer to a request, whether or not there is a reader and whether or not it fails. */
  function Served(env: Env, req: Request, rows: Option<seq<Row>>, fails: bool): Result<Page>
  {
    if Parse(env, req).Err? then Err(BadRequest)
    else if rows.None? then Err(Unavailable)
    else if Boundary(req).Err? then Err(BadRequest)
    else if fails then Err(ReadFailed)
    else PageOf(env, rows.value, req)
  }

  method AnalyticsBackfill(env: Env, codec: Codec, reader: MemoryAnalyticsBackfillStore?, fails: bool, raw: RawRequest)
    returns (r: Result<Page>, next: string)
    requires codec.Valid() && (reader != null ==> reader.Valid())
    ensures r == Served(env, Tidy(codec, raw), if reader == null then None else Some(reader.rows), fails)
    ensures r.Ok? ==> next == TextOf(codec, r.value.nextCursor)
  {
    hide Parse, Matching, Answer, Trim, Blank, CursorOf, SealedCursor.Seal;
    next := "";
    var req := Tidy(codec, raw);
    var parsed := Parse(env, req);
    if parsed.Err? { return Err(BadRequest), next; }
    if reader == null { return Err(Unavailable), next; }
    var after := Boundary(req);
    if after.Err? { return Err(BadRequest), next; }
    var limit := parsed.value.limit;
    if fails { return Err(ReadFailed), next; }
    var rows := reader.List(parsed.value.q.(after := after.value), limit + 1);
    var hasMore := |rows| > limit;
    if hasMore { rows := rows[..limit]; }
    r := BuildAnswer(env, req, rows, hasMore);
    if r.Ok? { next := TextOf(codec, r.value.nextCursor); }
  }

  lemma NoTimes()
    ensures FirstAt([]).None? && LastAt([]).None?
  {}

  lemma {:induction false} LastAtSnoc(rows: seq<Row>, r: Row)
    ensures LastAt(rows + [r]) == if r.occurredAt.Some? then r.occurredAt else LastAt(rows)
  {
    assert (rows + [r])[..|rows|] == rows;
  }

  method BuildAnswer(env: Env, req: Request, rows: seq<Row>, hasMore: bool) returns (r: Result<Page>)
    requires hasMore ==> rows != []
    ensures r == Answer(env, req, rows, hasMore)
  {
    hide FirstAt, LastAt, EventTypeOf, Blank;
    NoTimes();
    var wantType := EventTypeOf(req.topic);
    var records: seq<string> := [];
    var pageFrom, pageTo, pageFromAt, pageToAt := None, None, None, None;
    for i := 0 to |rows|
      invariant forall j :: 0 <= j < i ==> RowOk(env, req.topic, rows[j])
      invariant records == Payloads(rows[..i])
      invariant pageFrom == if i == 0 then None else Some(rows[0].id)
      invariant pageTo == if i == 0 then None else Some(rows[i - 1].id)
      invariant pageFromAt == FirstAt(rows[..i]) && pageToAt == LastAt(rows[..i])
    {
      var row := rows[i];
      assert rows[..i + 1] == rows[..i] + [row];
      assert RowOk(env, req.topic, row) <==> RowOk(env, req.topic, rows[i]);
      if row.topic != req.topic { return Err(Corrupt); }
      if !Blank(row.eventType) && Some(row.eventType) != wantType { return Err(Corrupt); }
      if row.schemaVersion != 0 && row.schemaVersion != 1 { return Err(Corrupt); }
      if !env.envelopeOk(row.payload, req.topic) { return Err(Corrupt); }
      records := records + [row.payload];
      if pageFrom.None? { pageFrom := Some(row.id); }
      pageTo := Some(row.id);
      FirstAtSnoc(rows[..i], row);
      LastAtSnoc(rows[..i], row);
      if row.occurredAt.Some? {
        if pageFromAt.None? { pageFromAt := row.occurredAt; }
        pageToAt := row.occurredAt;
      }
    }
    assert rows[..|rows|] == rows;
    if hasMore {
      var last := rows[|rows| - 1];
      if last.id < 1 { return Err(BadRequest); }
      return Ok(Page(records, CursorAfter(req, last.id), pageFrom, pageTo, pageFromAt, pageToAt));
    }
    return Ok(Page(records, NoCursor, pageFrom, pageTo, pageFromAt, pageToAt));
  }

  // ---- the text of a cursor

  /** A page's next cursor names its last row and the request. */
  lemma NextCursorIs(env: Env, rows: seq<Row>, req: Request)
    requires PageOf(env, rows, req).Ok?
    ensures req.jobId != "" && EventTypeOf(req.topic).Some?
    ensures var next := PageOf(env, rows, req).value.nextCursor;
            next != NoCursor ==> next.Sealed? && next.cursor.id >= 1 && next == CursorAfter(req, next.cursor.id)
  {
    hide Matching, RowOk, FirstAt, LastAt, ParseRange, ParseTimes;
  }

  lemma IssuedCursor(env: Env, codec: Codec, raw: RawRequest, rows: seq<Row>)
    requires PageOf(env, rows, Tidy(codec, raw)).Ok?
    ensures var next := PageOf(env, rows, Tidy(codec, raw)).value.nextCursor; next != NoCursor ==> next.Sealed? && ProperCursor(next.cursor)
  {
    hide PageOf, Trim, CursorOf;
    NextCursorIs(env, rows, Tidy(codec, raw));
    StillThere(raw.jobId);
    StillThere(raw.topic);
  }

  lemma StillThere(s: string)
    requires Trim(s) != ""
    ensures !Blank(Trim(s))
  {
    hide Trim;
    TrimIsTrimmed(s);
    TrimIsTrimmed(Trim(s));
  }

  /** The cursor text that a page issues is read back as its cursor exactly when it contains none of the words that the reader
      takes for a physical key; otherwise the next request is refused. */
  lemma NextTextIsRead(env: Env, codec: Codec, raw: RawRequest, rows: seq<Row>)
    requires codec.Valid() && (forall c :: codec.proper(c) == ProperCursor(c)) && PageOf(env, rows, Tidy(codec, raw)).Ok?
    requires var next := PageOf(env, rows, Tidy(codec, raw)).value.nextCursor;
             next.Sealed? && codec.read(codec.write(next.cursor)) == Some(next.cursor)
    ensures var next := PageOf(env, rows, Tidy(codec, raw)).value.nextCursor;
            CursorOf(codec, TextOf(codec, next)) == if SealedCursor.Guarded(codec, TextOf(codec, next)) then Forged else next
  {
    hide PageOf, Tidy, Trim, SealedCursor.Open, SealedCursor.Guarded, ProperCursor, SealedCursor.Seal;
    IssuedCursor(env, codec, raw, rows);
    var next := PageOf(env, rows, Tidy(codec, raw)).value.nextCursor;
    SealedCursor.OpenSeal(codec, next.cursor);
    SealedCursor.SealedText(codec, next.cursor);
  }

  // ---- following the cursors

  lemma {:induction false} MatchingMembers(rows: seq<Row>, q: Query)
    requires IdsInOrder(rows)
    ensures IdsInOrder(Matching(rows, q))
    ensures forall r :: r in Matching(rows, q) <==> r in rows && Selected(q, r)
  {
    if rows != [] {
      var n := |rows| - 1;
      MatchingMembers(rows[..n], q);
      assert rows == rows[..n] + [rows[n]];
      var m := Matching(rows[..n], q);
      forall i | 0 <= i < |m| ensures m[i].id < rows[n].id { assert m[i] in rows[..n]; }
    }
  }

  /** A request with a good range and cursor is answered as long as the rows of its topic are good. */
  lemma PageServed(env: Env, rows: seq<Row>, req: Request)
    requires Parse(env, req).Ok? && Boundary(req).Ok? && IdsInOrder(rows)
    requires forall r :: r in rows && r.topic == req.topic ==> RowOk(env, req.topic, r)
    ensures PageOf(env, rows, req).Ok?
  {
    hide Parse, Boundary, Matching, RowOk, FirstAt, LastAt;
    var q := Parse(env, req).value.q.(after := Boundary(req).value);
    MatchingMembers(rows, q);
    var m := Matching(rows, q);
    forall i | 0 <= i < |m| ensures RowOk(env, req.topic, m[i]) && m[i].id >= 1 {
      assert m[i] in m;
    }
    assert PageOf(env, rows, req) != Err(BadRequest);
  }

  /** Rows that are appended come after everything that a query selected before. */
  lemma {:induction false} MatchingGrows(rows: seq<Row>, rows': seq<Row>, q: Query)
    requires rows <= rows'
    ensures Matching(rows, q) <= Matching(rows', q)
    decreases |rows'|
  {
    if |rows| < |rows'| {
      MatchingGrows(rows, rows'[..|rows'| - 1], q);
    } else {
      assert rows == rows';
    }
  }

  /** The rows after the k-th selected one are the selected rows from k on. */
  lemma {:induction false} MatchingAfter(rows: seq<Row>, q: Query, k: nat)
    requires IdsInOrder(rows) && k <= |Matching(rows, q)| && q.after == 0
    ensures var m := Matching(rows, q);
            Matching(rows, q.(after := if k == 0 then 0 else m[k - 1].id)) == m[k..]
  {
    if rows == [] || k == 0 {
      assert q.(after := 0) == q;
      assert Matching(rows, q)[0..] == Matching(rows, q);
    } else {
      var n := |rows| - 1;
      var m, m' := Matching(rows, q), Matching(rows[..n], q);
      if k <= |m'| {
        MatchingAfter(rows[..n], q, k);
        assert m[k - 1] == m'[k - 1];
        MatchingMembers(rows[..n], q);
        assert m'[k - 1] in rows[..n];
      } else {
        assert m[k - 1] == rows[n];
        NothingAfter(rows, q, rows[n].id);
      }
    }
  }

  lemma {:induction false} NothingAfter(rows: seq<Row>, q: Query, c: int)
    requires forall i :: 0 <= i < |rows| ==> rows[i].id <= c
    ensures Matching(rows, q.(after := c)) == []
  {
    if rows != [] { NothingAfter(rows[..|rows| - 1], q, c); }
  }

  /** One page: the rows that were present, the limit that was asked for, and what came back. */
  datatype Turn = Turn(rows: seq<Row>, limit: int, page: Page)

  function CursorFor(turns: seq<Turn>, i: nat): CursorText
    requires i <= |turns|
  {
    if i == 0 then NoCursor else turns[i - 1].page.nextCursor
  }

  ghost predicate TurnOk(env: Env, req: Request, turns: seq<Turn>, i: nat)
    requires i < |turns|
  {
    && IdsInOrder(turns[i].rows)
    && PageOf(env, turns[i].rows, req.(cursor := CursorFor(turns, i), limit := turns[i].limit)) == Ok(turns[i].page)
    && (i > 0 ==> turns[i - 1].rows <= turns[i].rows && turns[i - 1].page.nextCursor != NoCursor)
  }

  /** A client that follows the cursors with one query; rows may be appended between the pages. */
  ghost predicate IsWalk(env: Env, req: Request, turns: seq<Turn>)
  {
    turns != [] && forall i :: 0 <= i < |turns| ==> TurnOk(env, req, turns, i)
  }

  function Records(turns: seq<Turn>): seq<string>
  {
    if turns == [] then [] else Records(turns[..|turns| - 1]) + turns[|turns| - 1].page.records
  }

  /** The range of the request, without the boundary. */
  function RangeOf(env: Env, req: Request): (q: Query)
    ensures q.after == 0
  {
    var p := Parse(env, req.(cursor := NoCursor, limit := 0));
    if p.Ok? then p.value.q else Query("", 0, None, None, None, None)
  }

  /** The range does not depend on cursor and limit. */
  lemma SameRange(env: Env, req: Request, cursor: CursorText, limit: int)
    requires Parse(env, req.(cursor := cursor, limit := limit)).Ok?
    ensures Parse(env, req.(cursor := cursor, limit := limit)).value.q == RangeOf(env, req)
  {}

  function CursorAt(req: Request, m: seq<Row>, k: int): CursorText
  {
    if 0 < k <= |m| then CursorAfter(req, m[k - 1].id) else NoCursor
  }

  /** A page is the next chunk of the selected rows, with a cursor exactly when there are more. */
  lemma PageContent(env: Env, req: Request, rows: seq<Row>, cursor: CursorText, limit: int)
    requires PageOf(env, rows, req.(cursor := cursor, limit := limit)).Ok?
    ensures Boundary(req.(cursor := cursor)).Ok?
    ensures var page := PageOf(env, rows, req.(cursor := cursor, limit := limit)).value;
            var rest := Matching(rows, RangeOf(env, req).(after := Boundary(req.(cursor := cursor)).value));
            var n := |page.records|;
            && n <= |rest| && page.records == Payloads(rest[..n])
            && (rest != [] ==> n > 0)
            && page.nextCursor == if n < |rest| then CursorAt(req, rest, n) else NoCursor
  {
    hide Parse, Matching, Selected, RowOk, FirstAt, LastAt, RangeOf;
    SameRange(env, req, cursor, limit);
    var n := Parse(env, req.(cursor := cursor, limit := limit)).value.limit;
    assert Boundary(req.(cursor := cursor, limit := limit)) == Boundary(req.(cursor := cursor));
    var page := PageOf(env, rows, req.(cursor := cursor, limit := limit)).value;
    var rest := Matching(rows, RangeOf(env, req).(after := Boundary(req.(cursor := cursor)).value));
    var seen := Listed(rows, RangeOf(env, req).(after := Boundary(req.(cursor := cursor)).value), n + 1);
    assert page.records == Payloads(if |seen| > n then seen[..n] else seen);
    if |seen| > n {
      assert seen[..n] == rest[..n] && seen[..n][n - 1] == rest[n - 1];
    } else {
      assert seen == rest == rest[..|rest|];
    }
  }

  /** What one turn does, when k rows were delivered before it. */
  lemma TurnDelivers(env: Env, req: Request, t: Turn, cursor: CursorText, k: nat)
    requires IdsInOrder(t.rows) && k <= |Matching(t.rows, RangeOf(env, req))|
    requires PageOf(env, t.rows, req.(cursor := cursor, limit := t.limit)) == Ok(t.page)
    requires cursor == CursorAt(req, Matching(t.rows, RangeOf(env, req)), k)
    ensures var m := Matching(t.rows, RangeOf(env, req));
            var k' := k + |t.page.records|;
            && k' <= |m| && Payloads(m[..k']) == Payloads(m[..k]) + t.page.records
            && t.page.nextCursor == (if k' < |m| then CursorAt(req, m, k') else NoCursor)
            && (k < |m| ==> k < k')
  {
    hide Parse, PageOf, Matching, Selected, RangeOf;
    var q := RangeOf(env, req);
    var m := Matching(t.rows, q);
    PageContent(env, req, t.rows, cursor, t.limit);
    MatchingAfter(t.rows, q, k);
    var n := |t.page.records|;
    assert Matching(t.rows, q.(after := Boundary(req.(cursor := cursor)).value)) == m[k..];
    assert m[..k + n] == m[..k] + m[k..][..n];
    assert Payloads(m[..k + n]) == Payloads(m[..k]) + Payloads(m[k..][..n]);
  }

  /** After i turns the records are the payloads of the first in-range rows present at the last of them. */
  ghost predicate Delivered(env: Env, req: Request, turns: seq<Turn>, i: nat)
    requires 0 < i <= |turns|
  {
    var m := Matching(turns[i - 1].rows, RangeOf(env, req));
    var k := |Records(turns[..i])|;
    && k <= |m| && Records(turns[..i]) == Payloads(m[..k])
    && turns[i - 1].page.nextCursor == (if k < |m| then CursorAt(req, m, k) else NoCursor)
    && (k < |m| ==> 0 < k) && (i <= k || (i == 1 && m == []))
  }

  lemma {:induction false} WalkDelivers(env: Env, req: Request, turns: seq<Turn>, i: nat)
    requires IsWalk(env, req, turns) && 0 < i <= |turns|
    ensures Delivered(env, req, turns, i)
  {
    hide PageOf, Matching, RangeOf, CursorAfter;
    var q := RangeOf(env, req);
    var t := turns[i - 1];
    assert TurnOk(env, req, turns, i - 1);
    assert turns[..i][..i - 1] == turns[..i - 1];
    var m := Matching(t.rows, q);
    if i == 1 {
      assert Records(turns[..0]) == [] && Payloads(m[..0]) == [];
      TurnDelivers(env, req, t, NoCursor, 0);
    } else {
      WalkDelivers(env, req, turns, i - 1);
      var before := Matching(turns[i - 2].rows, q);
      MatchingGrows(turns[i - 2].rows, t.rows, q);
      var k := |Records(turns[..i - 1])|;
      assert k < |before| && before[..k] == m[..k] && before[k - 1] == m[k - 1];
      TurnDelivers(env, req, t, turns[i - 2].page.nextCursor, k);
    }
  }

  /** A walk that ends has delivered exactly the in-range rows present at its last read, once each, in increasing id order;
      it never ends on an empty page unless nothing is in range, and it takes at most one page per row. */
  lemma WalkIsComplete(env: Env, req: Request, turns: seq<Turn>)
    requires IsWalk(env, req, turns) && turns[|turns| - 1].page.nextCursor == NoCursor
    ensures var m := Matching(turns[|turns| - 1].rows, RangeOf(env, req));
            && Records(turns) == Payloads(m)
            && (forall i, j :: 0 <= i < j < |m| ==> m[i].id < m[j].id)
            && (forall r :: r in m <==> r in turns[|turns| - 1].rows && InRange(RangeOf(env, req), r))
            && (turns[|turns| - 1].page.records == [] ==> |turns| == 1 && m == [])
            && |turns| <= if m == [] then 1 else |m|
  {
    hide PageOf, Matching, RangeOf, InRange;
    var n := |turns|;
    var q := RangeOf(env, req);
    var m := Matching(turns[n - 1].rows, q);
    assert TurnOk(env, req, turns, n - 1);
    WalkDelivers(env, req, turns, n);
    assert turns[..n] == turns;
    MatchingMembers(turns[n - 1].rows, q);
    assert m[..|m|] == m;
    LastNotEmpty(env, req, turns);
  }

  lemma LastNotEmpty(env: Env, req: Request, turns: seq<Turn>)
    requires IsWalk(env, req, turns) && turns[|turns| - 1].page.nextCursor == NoCursor
    ensures turns[|turns| - 1].page.records == [] ==>
              |turns| == 1 && Matching(turns[|turns| - 1].rows, RangeOf(env, req)) == []
  {
    hide PageOf, Matching, RangeOf, CursorAfter;
    var n := |turns|;
    assert TurnOk(env, req, turns, n - 1);
    WalkDelivers(env, req, turns, n);
    assert turns[..n][..n - 1] == turns[..n - 1] && turns[..n] == turns;
    if n > 1 {
      WalkDelivers(env, req, turns, n - 1);
      MatchingGrows(turns[n - 2].rows, turns[n - 1].rows, RangeOf(env, req));
    }
  }

  /** As long as a walk has not ended, its next request is not a bad one, whatever limit within bounds it asks for. */
  lemma CursorIsAccepted(env: Env, req: Request, turns: seq<Turn>, rows: seq<Row>, limit: int)
    requires IsWalk(env, req, turns) && turns[|turns| - 1].page.nextCursor != NoCursor
    requires 0 <= limit <= MAX_LIMIT && IdsInOrder(rows)
    ensures var r := PageOf(env, rows, req.(cursor := CursorFor(turns, |turns|), limit := limit));
            r.Ok? || r == Err(Corrupt)
  {
    hide PageOf, Matching, RangeOf;
    var n := |turns|;
    assert TurnOk(env, req, turns, n - 1) && TurnOk(env, req, turns, 0);
    WalkDelivers(env, req, turns, n);
    var m := Matching(turns[n - 1].rows, RangeOf(env, req));
    MatchingMembers(turns[n - 1].rows, RangeOf(env, req));
    BoundCursor(env, req, rows, turns[n - 1].page.nextCursor.cursor.id, limit, turns[0].limit, turns[0].rows);
  }

  lemma BoundCursor(env: Env, req: Request, rows: seq<Row>, id: int, limit: int, limit0: int, rows0: seq<Row>)
    requires id >= 1 && 0 <= limit <= MAX_LIMIT && IdsInOrder(rows)
    requires PageOf(env, rows0, req.(cursor := NoCursor, limit := limit0)).Ok?
    ensures var r := PageOf(env, rows, req.(cursor := CursorAfter(req, id), limit := limit));
            r.Ok? || r == Err(Corrupt)
  {
    hide Matching, RowOk, FirstAt, LastAt, ParseRange, ParseTimes;
    var req' := req.(cursor := CursorAfter(req, id), limit := limit);
    var p := Parse(env, req');
    assert p.Ok?;
    MatchingMembers(rows, p.value.q.(after := id));
  }
}
