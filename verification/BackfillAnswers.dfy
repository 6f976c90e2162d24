/** What a backfill request asks for, by its own texts, and what it is answered. */
module BackfillAnswers {
  import opened Common
  import opened Spaces
  import opened Backfill

  predicate Numbers(env: Env, from: string, to: string)
  {
    var (a, b) := (env.parseInt(from), env.parseInt(to));
    a.Some? && b.Some? && 1 <= a.value <= b.value
  }

  predicate Times(env: Env, from: string, to: string)
  {
    var (a, b) := (env.parseTime(from), env.parseTime(to));
    a.Some? && b.Some? && a.value <= b.value
  }

  /** The request names a job and one of the two topics, and a range of checkpoints, of times, or both. */
  predicate Proper(env: Env, req: Request)
  {
    && req.jobId != "" && req.schemaVersion == 1 && 0 <= req.limit <= 1000
    && req.topic in {"ranking.player_rating_updated", "ranking.leaderboard_snapshot_published"}
    && (req.fromCp + req.toCp == "" || (req.fromCp != "" && req.toCp != "" && Numbers(env, req.fromCp, req.toCp)))
    && (req.fromAt + req.toAt == "" || (req.fromAt != "" && req.toAt != "" && Times(env, req.fromAt, req.toAt)))
    && req.fromCp + req.fromAt != ""
  }

  function Limit(req: Request): int { if req.limit == 0 then 100 else req.limit }

  /** The row is of the topic, its id between the two checkpoints, and its time known and between the two times. */
  predicate Wanted(env: Env, req: Request, r: Row)
    requires Proper(env, req)
  {
    && r.topic == req.topic
    && (req.fromCp != "" ==> env.parseInt(req.fromCp).value <= r.id <= env.parseInt(req.toCp).value)
    && (req.fromAt != "" ==>
          r.occurredAt.Some? && env.parseTime(req.fromAt).value <= r.occurredAt.value <= env.parseTime(req.toAt).value)
  }

  /** The cursor is the one that a page of this very query ends with. */
  predicate Follows(req: Request)
  {
    req.cursor == NoCursor ||
    (req.cursor.Sealed? && req.cursor.cursor.id >= 1 && req.cursor == CursorAfter(req, req.cursor.cursor.id))
  }

  function After(req: Request): int { if req.cursor.Sealed? then req.cursor.cursor.id else 0 }

  predicate Remains(env: Env, req: Request, r: Row)
    requires Proper(env, req)
  {
    Wanted(env, req, r) && r.id > After(req)
  }

  /** The first wanted rows after the cursor, up to the limit. */
  ghost predicate IsChunk(env: Env, req: Request, rows: seq<Row>, page: seq<Row>)
    requires Proper(env, req)
  {
    && IdsInOrder(page) && |page| <= Limit(req)
    && (forall r :: r in page ==> r in rows && Remains(env, req, r))
    && (forall r :: r in rows && Remains(env, req, r) && r !in page ==>
          |page| == Limit(req) && forall p :: p in page ==> p.id < r.id)
  }

  ghost predicate MoreRemain(env: Env, req: Request, rows: seq<Row>, page: seq<Row>)
    requires Proper(env, req)
  {
    exists r :: r in rows && r !in page && Remains(env, req, r)
  }

  predicate IsGood(env: Env, topic: string, r: Row)
  {
    && (Blank(r.eventType) || r.eventType == if topic == "ranking.player_rating_updated" then "PlayerRatingUpdated"
                                             else "LeaderboardSnapshotPublished")
    && r.schemaVersion in {0, 1} && env.envelopeOk(r.payload, topic)
  }

  /** The first time, or the last one, that a row of the page has. */
  ghost predicate IsFirst(page: seq<Row>, at: Option<int>)
  {
    if at.None? then forall r :: r in page ==> r.occurredAt.None?
    else exists i :: 0 <= i < |page| && page[i].occurredAt == at && forall j :: 0 <= j < i ==> page[j].occurredAt.None?
  }

  ghost predicate IsLast(page: seq<Row>, at: Option<int>)
  {
    if at.None? then forall r :: r in page ==> r.occurredAt.None?
    else exists i :: 0 <= i < |page| && page[i].occurredAt == at && forall j :: i < j < |page| ==> page[j].occurredAt.None?
  }

  ghost predicate Tells(env: Env, req: Request, rows: seq<Row>, page: seq<Row>, p: Page)
    requires Proper(env, req)
  {
    && p.records == Payloads(page)
    && (if page == [] then p.fromId == p.toId == None else p.fromId == Some(page[0].id) && p.toId == Some(page[|page| - 1].id))
    && IsFirst(page, p.fromAt) && IsLast(page, p.toAt)
    && (if MoreRemain(env, req, rows, page) then page != [] && p.nextCursor == CursorAfter(req, page[|page| - 1].id)
        else p.nextCursor == NoCursor)
  }

  // ---- requests

  /** A request is read exactly when it is proper, and it selects the rows that it wants. */
  lemma RequestIsRead(env: Env, req: Request)
    ensures Parse(env, req).Ok? <==> Proper(env, req)
    ensures Proper(env, req) ==>
              Parse(env, req).value.limit == Limit(req)
              && forall r :: InRange(Parse(env, req).value.q, r) <==> Wanted(env, req, r)
  {
    assert forall s: string :: s + "" == s && "" + s == s;
  }

  /** The range that a walk or a rebuild goes through is the one of its texts. */
  lemma RangeIsWanted(env: Env, req: Request, r: Row)
    requires Proper(env, req)
    ensures InRange(RangeOf(env, req), r) <==> Wanted(env, req, r)
  {
    RequestIsRead(env, req);
    RequestIsRead(env, req.(cursor := NoCursor, limit := 0));
  }

  lemma CursorIsRead(env: Env, req: Request)
    requires Proper(env, req)
    ensures Boundary(req).Ok? <==> Follows(req)
    ensures Follows(req) ==> Boundary(req).value == After(req)
  {}

  // ---- answers

  lemma {:induction false} FirstTime(page: seq<Row>)
    ensures IsFirst(page, FirstAt(page))
  {
    if page != [] && page[0].occurredAt.None? {
      FirstTime(page[1..]);
      if FirstAt(page).Some? {
        var i :| 0 <= i < |page[1..]| && page[1..][i].occurredAt == FirstAt(page)
                 && forall j :: 0 <= j < i ==> page[1..][j].occurredAt.None?;
        forall j | 0 <= j < i + 1 ensures page[j].occurredAt.None? { assert j > 0 ==> page[j] == page[1..][j - 1]; }
        assert page[i + 1] == page[1..][i];
      } else {
        assert page == [page[0]] + page[1..];
      }
    }
  }

  lemma {:induction false} LastTime(page: seq<Row>)
    ensures IsLast(page, LastAt(page))
  {
    if page != [] && page[|page| - 1].occurredAt.None? {
      var front := page[..|page| - 1];
      LastTime(front);
      if LastAt(page).Some? {
        var i :| 0 <= i < |front| && front[i].occurredAt == LastAt(page) && forall j :: i < j < |front| ==> front[j].occurredAt.None?;
        assert page[i] == front[i];
        forall j | i < j < |page| ensures page[j].occurredAt.None? { assert j < |front| ==> page[j] == front[j]; }
      } else {
        assert page == front + [page[|page| - 1]];
      }
    }
  }

  /** A prefix has the rows with the smallest ids. */
  lemma Prefix(m: seq<Row>, n: nat)
    requires IdsInOrder(m) && n <= |m|
    ensures IdsInOrder(m[..n]) && forall r :: r in m[..n] ==> r in m
    ensures forall r, p :: r in m && r !in m[..n] && p in m[..n] ==> p.id < r.id
    ensures n < |m| ==> m[n] in m && m[n] !in m[..n]
  {
    forall r, p | r in m && r !in m[..n] && p in m[..n] ensures p.id < r.id {
      var i, j :| 0 <= i < |m| && m[i] == r && 0 <= j < n && m[..n][j] == p;
      assert forall k :: 0 <= k < n ==> m[..n][k] == m[k];
    }
  }

  /** Of all remaining rows in order, the first ones are the chunk. */
  lemma FirstAreChunk(env: Env, req: Request, rows: seq<Row>, m: seq<Row>, n: nat)
    requires Proper(env, req) && IdsInOrder(m) && forall r :: r in m <==> r in rows && Remains(env, req, r)
    requires n <= |m| && n <= Limit(req) && (n == |m| || n == Limit(req))
    ensures IsChunk(env, req, rows, m[..n]) && (MoreRemain(env, req, rows, m[..n]) <==> n < |m|)
  {
    hide Proper, Remains, IdsInOrder;
    Prefix(m, n);
    if n == |m| { assert m[..n] == m; }
  }

  /** The rows that are listed are the chunk; one more is listed exactly when more remain. */
  lemma ListedIsChunk(env: Env, req: Request, rows: seq<Row>) returns (page: seq<Row>)
    requires Proper(env, req) && Follows(req) && IdsInOrder(rows)
    ensures var q := Parse(env, req).value.q.(after := After(req));
            var seen := Listed(rows, q, Limit(req) + 1);
            && page == (if |seen| > Limit(req) then seen[..Limit(req)] else seen)
            && IsChunk(env, req, rows, page) && (MoreRemain(env, req, rows, page) <==> |seen| > Limit(req))
  {
    hide Parse, Proper, Matching, InRange, Wanted, IsChunk, MoreRemain, Remains, Selected, IdsInOrder, Follows;
    RequestIsRead(env, req);
    var q := Parse(env, req).value.q.(after := After(req));
    var m, n := Matching(rows, q), Limit(req);
    SameSelection(env, req);
    MatchingMembers(rows, q);
    page := if |m| > n then m[..n] else m;
    FirstAreChunk(env, req, rows, m, if |m| > n then n else |m|);
    assert m[..|m|] == m;
    var seen := Listed(rows, q, n + 1);
    assert |m| > n ==> seen[..n] == m[..n];
  }

  lemma SameSelection(env: Env, req: Request)
    requires Proper(env, req)
    ensures var q := Parse(env, req).value.q.(after := After(req));
            forall r :: Selected(q, r) <==> Remains(env, req, r)
  {
    hide Parse, Proper;
    RequestIsRead(env, req);
    var q := Parse(env, req).value.q;
    forall r ensures InRange(q.(after := After(req)), r) == InRange(q, r) {}
  }

  lemma GoodRows(env: Env, topic: string, page: seq<Row>)
    requires topic in {"ranking.player_rating_updated", "ranking.leaderboard_snapshot_published"}
    requires forall r :: r in page ==> r.topic == topic
    ensures (exists i :: 0 <= i < |page| && !RowOk(env, topic, page[i])) <==> exists r :: r in page && !IsGood(env, topic, r)
  {
    forall i | 0 <= i < |page| ensures RowOk(env, topic, page[i]) <==> IsGood(env, topic, page[i]) { assert page[i] in page; }
  }

  /** What every request is answered: it is refused exactly when it is not proper or continues another query; otherwise the
      answer tells the first wanted rows after its cursor, up to its limit, and fails when one of those is not good. */
  lemma AnsweredExactly(env: Env, req: Request, rows: Option<seq<Row>>, fails: bool) returns (page: seq<Row>)
    requires rows.Some? ==> IdsInOrder(rows.value)
    ensures var r := Served(env, req, rows, fails);
            if !Proper(env, req) then r == Err(BadRequest)
            else if rows.None? then r == Err(Unavailable)
            else if !Follows(req) then r == Err(BadRequest)
            else if fails then r == Err(ReadFailed)
            else
              && IsChunk(env, req, rows.value, page)
              && if exists x :: x in page && !IsGood(env, req.topic, x) then r == Err(Corrupt)
                 else r.Ok? && Tells(env, req, rows.value, page, r.value)
  {
    hide Parse, Boundary, PageOf, IsGood, IsChunk, Tells, Follows, Proper, Answer, MoreRemain;
    RequestIsRead(env, req);
    page := [];
    if Proper(env, req) {
      CursorIsRead(env, req);
      if Follows(req) && rows.Some? {
        page := PageIsChunk(env, req, rows.value);
        ChunkAnswer(env, req, rows.value, page);
      }
    }
  }

  lemma PageIsChunk(env: Env, req: Request, rows: seq<Row>) returns (page: seq<Row>)
    requires Proper(env, req) && Follows(req) && IdsInOrder(rows)
    ensures IsChunk(env, req, rows, page)
    ensures MoreRemain(env, req, rows, page) ==> page != []
    ensures PageOf(env, rows, req) == Answer(env, req, page, MoreRemain(env, req, rows, page))
  {
    hide Parse, Proper, Boundary, Follows, Listed, Answer, IsChunk, MoreRemain;
    RequestIsRead(env, req);
    CursorIsRead(env, req);
    page := ListedIsChunk(env, req, rows);
    if MoreRemain(env, req, rows, page) { FullPage(env, req, rows, page); }
  }

  lemma FullPage(env: Env, req: Request, rows: seq<Row>, page: seq<Row>)
    requires Proper(env, req) && IsChunk(env, req, rows, page) && MoreRemain(env, req, rows, page)
    ensures |page| == Limit(req) > 0
  {
    hide Remains;
    var r :| r in rows && r !in page && Remains(env, req, r);
  }

  lemma ChunkAnswer(env: Env, req: Request, rows: seq<Row>, page: seq<Row>)
    requires Proper(env, req) && IsChunk(env, req, rows, page) && (MoreRemain(env, req, rows, page) ==> page != [])
    ensures var r := Answer(env, req, page, MoreRemain(env, req, rows, page));
            if exists x :: x in page && !IsGood(env, req.topic, x) then r == Err(Corrupt)
            else r.Ok? && Tells(env, req, rows, page, r.value)
  {
    hide RowOk, IsGood, FirstAt, LastAt, IsFirst, IsLast, MoreRemain, Proper;
    FirstTime(page);
    LastTime(page);
    assert forall x :: x in page ==> x.topic == req.topic;
    TopicIsOne(env, req);
    GoodRows(env, req.topic, page);
  }

  lemma TopicIsOne(env: Env, req: Request)
    requires Proper(env, req)
    ensures req.topic in {"ranking.player_rating_updated", "ranking.leaderboard_snapshot_published"}
  {}
}
