/** The public leaderboard pages of the in-memory rating store (ranking/src/store.go): rating descending, then player
    ascending, paged by a two-part key. */
module Leaderboard {
  import opened Common
  import opened Spaces
  import opened StringOrder
  import SealedCursor

  datatype Entry = Entry(player: string, rating: int)

  /** a comes before b on the board. */
  predicate Before(a: Entry, b: Entry)
  {
    a.rating > b.rating || (a.rating == b.rating && Less(a.player, b.player))
  }

  lemma BeforeTotal(a: Entry, b: Entry)
    ensures Before(a, b) || Before(b, a) || a == b
    ensures !(Before(a, b) && Before(b, a)) && !Before(a, a)
  {
    Trichotomy(a.player, b.player);
    Irreflexive(a.player);
    if Less(a.player, b.player) && Less(b.player, a.player) { Transitive(a.player, b.player, a.player); }
  }

  lemma BeforeTransitive(a: Entry, b: Entry, c: Entry)
    requires Before(a, b) && Before(b, c)
    ensures Before(a, c)
  {
    if a.rating == b.rating == c.rating { Transitive(a.player, b.player, c.player); }
  }

  predicate Ordered(s: seq<Entry>) { forall i, j :: 0 <= i < j < |s| ==> Before(s[i], s[j]) }

  /** The two ratings of a player. */
  datatype Ratings = Ratings(casualElo: int, tournamentPlacement: int)

  const TOURNAMENT_PLACEMENT := "tournament_placement"

  /** The ratings that a board ranks: every type but one is the casual board. */
  function RatingsFor(ratings: map<string, Ratings>, boardType: string): map<string, int>
  {
    map p | p in ratings :: if boardType == TOURNAMENT_PLACEMENT then ratings[p].tournamentPlacement else ratings[p].casualElo
  }

  /** s lists the players of the map with their ratings, in board order. */
  ghost predicate BoardOf(ratings: map<string, int>, s: seq<Entry>)
  {
    Ordered(s) && forall e :: e in s <==> e.player in ratings && ratings[e.player] == e.rating
  }

  /** The board does not depend on the order in which the rating map was walked. */
  lemma {:induction false} BoardUnique(ratings: map<string, int>, s: seq<Entry>, t: seq<Entry>)
    requires BoardOf(ratings, s) && BoardOf(ratings, t)
    ensures s == t
    decreases |s|
  {
    assert t == [] || (t[0].player in ratings && ratings[t[0].player] == t[0].rating);
    if s != [] {
      assert s[0] in t && t[0] in s;
      BeforeTotal(s[0], t[0]);
      assert s[0] == t[0];
      var rest := ratings - {s[0].player};
      TailBoard(ratings, s);
      TailBoard(ratings, t);
      BoardUnique(rest, s[1..], t[1..]);
      assert s == [s[0]] + s[1..] && t == [t[0]] + t[1..];
    }
  }

  lemma TailBoard(ratings: map<string, int>, s: seq<Entry>)
    requires BoardOf(ratings, s) && s != []
    ensures BoardOf(ratings - {s[0].player}, s[1..])
  {
    var rest := ratings - {s[0].player};
    assert s == [s[0]] + s[1..];
    forall e | e in s[1..] ensures e.player != s[0].player {
      BeforeTotal(s[0], e);
      assert Before(s[0], e);
    }
  }

  function InsertAt(s: seq<Entry>, e: Entry, k: nat): seq<Entry>
    requires k <= |s|
  {
    s[..k] + [e] + s[k..]
  }

  lemma InsertOrdered(s: seq<Entry>, e: Entry, k: nat)
    requires Ordered(s) && k <= |s|
    requires forall i :: 0 <= i < k ==> Before(s[i], e)
    requires k < |s| ==> Before(e, s[k])
    ensures Ordered(InsertAt(s, e, k))
    ensures forall x :: x in InsertAt(s, e, k) <==> x in s || x == e
  {
    hide Before;
    forall i | k < i < |s| ensures Before(e, s[i]) { BeforeTransitive(e, s[k], s[i]); }
    var t := InsertAt(s, e, k);
    forall i, j | 0 <= i < j < |t| ensures Before(t[i], t[j]) {
      assert t[i] == if i < k then s[i] else if i == k then e else s[i - 1];
      assert t[j] == if j < k then s[j] else if j == k then e else s[j - 1];
    }
    assert s == s[..k] + s[k..];
  }

  datatype Ranked = Ranked(player: string, rating: int, rank: int)

  function RankedFrom(board: seq<Entry>, start: nat, end: nat): seq<Ranked>
    requires start <= end <= |board|
  {
    seq(end - start, i requires 0 <= i < end - start => Ranked(board[start + i].player, board[start + i].rating, start + i + 1))
  }

  /** A cursor is the key of the last entry shown; an absent one is None. */
  datatype Page = Page(version: int, entries: seq<Ranked>, nextCursor: Option<Entry>)

  const DEFAULT_LIMIT := 100
  const MAX_LIMIT := 500

  function ClampLimit(limit: int): (n: nat)
    ensures 1 <= n <= MAX_LIMIT && (1 <= limit <= MAX_LIMIT ==> n == limit)
  {
    if limit <= 0 then DEFAULT_LIMIT else if limit > MAX_LIMIT then MAX_LIMIT else limit
  }

  /** The first entry that comes after the cursor, or the end of the board. */
  function StartOf(board: seq<Entry>, cursor: Option<Entry>): (k: nat)
    ensures k <= |board|
  {
    if cursor.None? || board == [] || Before(cursor.value, board[0]) then 0 else 1 + StartOf(board[1..], cursor)
  }

  function PageOf(board: seq<Entry>, version: int, cursor: Option<Entry>, limit: int): Page
  {
    var start := StartOf(board, cursor);
    var end := if start + ClampLimit(limit) > |board| then |board| else start + ClampLimit(limit);
    Page(version, RankedFrom(board, start, end),
         if end < |board| && start < end then Some(board[end - 1]) else None)
  }

  type Codec = SealedCursor.Codec<Entry>

  /** An answer with the text of the next cursor, a refused cursor, or an entry whose key cannot be put into a cursor. */
  datatype Reply = Shows(page: Page, next: string) | BadCursor | NoNextCursor

  function ReplyOf(codec: Codec, board: seq<Entry>, version: int, cursor: Option<Entry>, limit: int): Reply
    requires codec.Valid()
  {
    var page := PageOf(board, version, cursor, limit);
    if page.nextCursor.None? then Shows(page, "")
    else if Blank(page.nextCursor.value.player) then NoNextCursor
    else Shows(page, SealedCursor.Seal(codec, page.nextCursor.value))
  }

  method FindStart(board: seq<Entry>, cursor: Option<Entry>) returns (start: nat)
    ensures start == StartOf(board, cursor)
  {
    start := 0;
    if cursor.Some? {
      start := |board|;
      for i := 0 to |board|
        invariant start == |board| && StartOf(board, cursor) == i + StartOf(board[i..], cursor)
      {
        if Before(cursor.value, board[i]) { return i; }
        assert board[i..][1..] == board[i + 1..];
      }
    }
  }

  class MemoryRatingStore {
    var ratings: map<string, Ratings>
    var projectionVersion: int

    constructor ()
      ensures ratings == map[] && projectionVersion == 0
    {
      ratings := map[];
      projectionVersion := 0;
    }

    /** LeaderboardFromSnapshots: the entries of the map, sorted. */
    method FromSnapshots(boardType: string) returns (board: seq<Entry>)
      ensures BoardOf(RatingsFor(ratings, boardType), board)
    {
      board := [];
      var rest := ratings.Keys;
      while rest != {}
        invariant rest <= ratings.Keys
        invariant Ordered(board)
        invariant forall e :: e in board <==> e.player in ratings && e.player !in rest && RatingsFor(ratings, boardType)[e.player] == e.rating
        decreases rest
      {
        var p :| p in rest;
        var rating := ratings[p].casualElo;
        if boardType == TOURNAMENT_PLACEMENT { rating := ratings[p].tournamentPlacement; }
        var entry := Entry(p, rating);
        var k := 0;
        while k < |board| && Before(board[k], entry)
          invariant 0 <= k <= |board|
          invariant forall i :: 0 <= i < k ==> Before(board[i], entry)
        {
          k := k + 1;
        }
        if k < |board| {
          BeforeTotal(board[k], entry);
          assert board[k] in board;
        }
        InsertOrdered(board, entry, k);
        board := InsertAt(board, entry, k);
        rest := rest - {p};
      }
    }

    /** A page of one of the two boards. A refused cursor changes nothing; every other request takes a projection version. */
    method LeaderboardPage(codec: Codec, boardType: string, raw: string, limit: int) returns (r: Reply)
      requires codec.Valid()
      modifies this`projectionVersion
      ensures r.BadCursor? <==> !Blank(raw) && SealedCursor.Open(codec, raw).None?
      ensures projectionVersion == old(projectionVersion) + if r.BadCursor? then 0 else 1
      ensures !r.BadCursor? ==> exists board ::
                && BoardOf(RatingsFor(ratings, boardType), board)
                && r == ReplyOf(codec, board, projectionVersion, if Blank(raw) then None else SealedCursor.Open(codec, raw), limit)
    {
      hide Before, StartOf, BoardOf, Blank, SealedCursor.Open, RatingsFor;
      var size := ClampLimit(limit);
      var board := FromSnapshots(boardType);
      var cursor: Option<Entry> := None;
      if !Blank(raw) {
        cursor := SealedCursor.Open(codec, raw);
        if cursor.None? { return BadCursor; }
      }
      var start := FindStart(board, cursor);
      var end := start + size;
      if end > |board| { end := |board|; }
      var entries := RankEntries(board, start, end);
      projectionVersion := projectionVersion + 1;
      if end < |board| && |entries| > 0 {
        var last := Entry(entries[|entries| - 1].player, entries[|entries| - 1].rating);
        assert board[end - 1] == last;
        if Blank(last.player) {
          r := NoNextCursor;
        } else {
          r := Shows(Page(projectionVersion, entries, Some(last)), SealedCursor.Seal(codec, last));
        }
      } else {
        r := Shows(Page(projectionVersion, entries, None), "");
      }
      assert BoardOf(RatingsFor(ratings, boardType), board) && r == ReplyOf(codec, board, projectionVersion, cursor, limit);
    }

    static method RankEntries(board: seq<Entry>, start: nat, end: nat) returns (entries: seq<Ranked>)
      requires start <= end <= |board|
      ensures entries == RankedFrom(board, start, end)
    {
      entries := [];
      for i := start to end
        invariant entries == RankedFrom(board, start, i)
      {
        entries := entries + [Ranked(board[i].player, board[i].rating, i + 1)];
      }
    }
  }

  /** The cursor text of a page is read back as its cursor exactly when it contains none of the guard words. */
  lemma NextTextIsRead(codec: Codec, board: seq<Entry>, version: int, cursor: Option<Entry>, limit: int)
    requires codec.Valid() && (forall e :: codec.proper(e) == !Blank(e.player))
    requires var r := ReplyOf(codec, board, version, cursor, limit);
             r.Shows? && r.page.nextCursor.Some?
             && codec.read(codec.write(r.page.nextCursor.value)) == r.page.nextCursor
    ensures var r := ReplyOf(codec, board, version, cursor, limit);
            && !Blank(r.next)
            && SealedCursor.Open(codec, r.next) == if SealedCursor.Guarded(codec, r.next) then None else r.page.nextCursor
  {
    hide PageOf, SealedCursor.Open, SealedCursor.Guarded, SealedCursor.Seal, Trim;
    var e := ReplyOf(codec, board, version, cursor, limit).page.nextCursor.value;
    SealedCursor.OpenSeal(codec, e);
    SealedCursor.SealedText(codec, e);
  }

  // ---- following the cursors

  /** The scan finds the entry right after the one that the cursor was taken from. */
  lemma {:induction false} StartAfter(board: seq<Entry>, k: nat)
    requires Ordered(board) && k < |board|
    ensures StartOf(board, Some(board[k])) == k + 1
  {
    if k == 0 {
      BeforeTotal(board[0], board[0]);
      if |board| > 1 { assert board[1..][0] == board[1]; }
    } else {
      BeforeTotal(board[0], board[k]);
      assert board[1..][k - 1] == board[k];
      StartAfter(board[1..], k - 1);
    }
  }

  datatype Turn = Turn(limit: int, version: int, page: Page)

  function CursorFor(turns: seq<Turn>, i: nat): Option<Entry>
    requires i <= |turns|
  {
    if i == 0 then None else turns[i - 1].page.nextCursor
  }

  predicate TurnOk(board: seq<Entry>, turns: seq<Turn>, i: nat)
    requires i < |turns|
  {
    && turns[i].page == PageOf(board, turns[i].version, CursorFor(turns, i), turns[i].limit)
    && (i > 0 ==> turns[i - 1].page.nextCursor.Some?)
  }

  /** A client that follows the cursors over a fixed board, with any limits. */
  predicate IsWalk(board: seq<Entry>, turns: seq<Turn>)
  {
    turns != [] && forall i :: 0 <= i < |turns| ==> TurnOk(board, turns, i)
  }

  function Shown(turns: seq<Turn>): seq<Ranked>
  {
    if turns == [] then [] else Shown(turns[..|turns| - 1]) + turns[|turns| - 1].page.entries
  }

  /** A page that starts at place k continues the list there. */
  lemma PageContinues(board: seq<Entry>, version: int, cursor: Option<Entry>, limit: int, k: nat)
    requires k == StartOf(board, cursor)
    ensures var page := PageOf(board, version, cursor, limit);
            var k' := k + |page.entries|;
            && k' <= |board| && RankedFrom(board, 0, k) + page.entries == RankedFrom(board, 0, k')
            && page.nextCursor == (if k < k' < |board| then Some(board[k' - 1]) else None)
            && (k < |board| ==> k < k')
  {
    hide StartOf;
  }

  lemma {:induction false} WalkShows(board: seq<Entry>, turns: seq<Turn>, i: nat)
    requires Ordered(board) && IsWalk(board, turns) && 0 < i <= |turns|
    ensures var k := |Shown(turns[..i])|;
            && k <= |board| && Shown(turns[..i]) == RankedFrom(board, 0, k)
            && turns[i - 1].page.nextCursor == (if 0 < k < |board| then Some(board[k - 1]) else None)
            && (k < |board| ==> 0 < k) && (i <= k || (i == 1 && board == []))
  {
    hide PageOf, StartOf, Ordered;
    assert TurnOk(board, turns, i - 1);
    assert turns[..i][..i - 1] == turns[..i - 1];
    var t := turns[i - 1];
    var k := 0;
    if i > 1 {
      WalkShows(board, turns, i - 1);
      k := |Shown(turns[..i - 1])|;
      StartAfter(board, k - 1);
    } else {
      assert Shown(turns[..0]) == [] == RankedFrom(board, 0, 0);
      assert StartOf(board, None) == 0 by { NoCursor(board); }
    }
    PageContinues(board, t.version, CursorFor(turns, i - 1), t.limit, k);
  }

  lemma NoCursor(board: seq<Entry>)
    ensures StartOf(board, None) == 0
  {}

  /** A walk that ends has shown the whole board in order, with ranks 1 to n, in at most one page per entry. */
  lemma WalkShowsBoard(board: seq<Entry>, turns: seq<Turn>)
    requires Ordered(board) && IsWalk(board, turns) && turns[|turns| - 1].page.nextCursor == None
    ensures Shown(turns) == RankedFrom(board, 0, |board|)
    ensures forall i :: 0 <= i < |board| ==> Shown(turns)[i] == Ranked(board[i].player, board[i].rating, i + 1)
    ensures |turns| <= if board == [] then 1 else |board|
  {
    WalkShows(board, turns, |turns|);
    assert turns[..|turns|] == turns;
  }
}
