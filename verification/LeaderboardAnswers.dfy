/** What a leaderboard page shows, told from the ratings alone. */
module LeaderboardAnswers {
  import opened Common
  import opened StringOrder
  import opened Leaderboard

  /** The player stands ahead of this rating and name: by a higher rating, or by name among equals. */
  predicate IsAhead(ratings: map<string, int>, p: string, rating: int, player: string)
    requires p in ratings
  {
    ratings[p] > rating || (ratings[p] == rating && Less(p, player))
  }

  function AheadOf(ratings: map<string, int>, rating: int, player: string): set<string>
  {
    set p | p in ratings && IsAhead(ratings, p, rating, player)
  }

  function PlayersOf(board: seq<Entry>): set<string> { set e | e in board :: e.player }

  lemma {:induction false} AsManyPlayers(board: seq<Entry>)
    requires forall i, j :: 0 <= i < j < |board| ==> board[i].player != board[j].player
    ensures |PlayersOf(board)| == |board|
  {
    if board != [] {
      var n := |board| - 1;
      AsManyPlayers(board[..n]);
      assert board == board[..n] + [board[n]];
      assert PlayersOf(board) == PlayersOf(board[..n]) + {board[n].player};
    }
  }

  /** A board lists every player once, and the entry at place i has exactly i players ahead. */
  lemma PlaceCounts(ratings: map<string, int>, board: seq<Entry>, i: nat)
    requires BoardOf(ratings, board) && i < |board|
    ensures AheadOf(ratings, board[i].rating, board[i].player) == PlayersOf(board[..i])
    ensures |AheadOf(ratings, board[i].rating, board[i].player)| == i
  {
    hide Less;
    var e := board[i];
    assert forall y :: y in board[..i] ==> y in board;
    forall p | p in ratings ensures p in AheadOf(ratings, e.rating, e.player) <==> p in PlayersOf(board[..i]) {
      var x := Entry(p, ratings[p]);
      assert x in board;
      var j :| 0 <= j < |board| && board[j] == x;
      BeforeTotal(x, e);
      if j < i { assert board[..i][j] == x; }
      if i < j { BeforeTotal(e, x); }
      assert p in PlayersOf(board[..i]) ==> x in board[..i];
    }
    forall a, b | 0 <= a < b < |board[..i]| ensures board[..i][a].player != board[..i][b].player {
      assert board[a] in board && board[b] in board;
      BeforeTotal(board[a], board[b]);
    }
    AsManyPlayers(board[..i]);
  }

  /** The player comes after the cursor's entry. */
  predicate Remains(ratings: map<string, int>, cursor: Option<Entry>, p: string)
    requires p in ratings
  {
    cursor.Some? ==> cursor.value.rating > ratings[p] || (cursor.value.rating == ratings[p] && Less(cursor.value.player, p))
  }

  function SizeOf(limit: int): int { if limit <= 0 then 100 else if limit > 500 then 500 else limit }

  predicate Shown(page: Page, p: string) { exists i :: 0 <= i < |page.entries| && page.entries[i].player == p }

  /** Each entry tells a player's rating, and as rank how many are ahead and one. */
  ghost predicate TellsRanks(ratings: map<string, int>, page: Page)
  {
    forall e :: e in page.entries ==>
      e.player in ratings && e.rating == ratings[e.player] && e.rank == |AheadOf(ratings, e.rating, e.player)| + 1
  }

  /** A page shows the first players that come after its cursor, as many as its limit allows, and all of them when it has no
      next cursor; the next cursor is the key of its last entry. */
  lemma PageExactly(ratings: map<string, int>, board: seq<Entry>, version: int, cursor: Option<Entry>, limit: int)
    requires BoardOf(ratings, board)
    ensures var page := PageOf(board, version, cursor, limit);
            && TellsRanks(ratings, page) && page.version == version && |page.entries| <= SizeOf(limit)
            && (forall i, j :: 0 <= i < j < |page.entries| ==> page.entries[i].rank < page.entries[j].rank)
            && (forall p :: p in ratings && Shown(page, p) ==> Remains(ratings, cursor, p))
            && (forall p :: p in ratings && !Shown(page, p) && Remains(ratings, cursor, p) ==>
                  |page.entries| == SizeOf(limit) && forall e :: e in page.entries ==> e.player in AheadOf(ratings, ratings[p], p))
            && (page.nextCursor.Some? <==> exists p :: p in ratings && !Shown(page, p) && Remains(ratings, cursor, p))
            && (page.nextCursor.Some? ==>
                  page.entries != [] && page.nextCursor.value == Entry(page.entries[|page.entries| - 1].player, page.entries[|page.entries| - 1].rating))
  {
    hide Less, AheadOf, Remains, Shown, StartOf, TellsRanks, BoardOf;
    RanksTold(ratings, board, version, cursor, limit);
    var page := PageOf(board, version, cursor, limit);
    forall p | p in ratings
      ensures Shown(page, p) ==> Remains(ratings, cursor, p)
      ensures !Shown(page, p) && Remains(ratings, cursor, p) ==>
                && |page.entries| == SizeOf(limit) && page.nextCursor.Some?
                && forall e :: e in page.entries ==> e.player in AheadOf(ratings, ratings[p], p)
    {
      PlayerShown(ratings, board, version, cursor, limit, p);
    }
    if page.nextCursor.Some? {
      var x := board[StartOf(board, cursor) + |page.entries|];
      assert x.player in ratings by { OnBoard(ratings, board, x); }
      PlayerShown(ratings, board, version, cursor, limit, x.player);
    }
  }

  lemma OnBoard(ratings: map<string, int>, board: seq<Entry>, x: Entry)
    requires BoardOf(ratings, board) && x in board
    ensures x.player in ratings
  {}

  lemma RanksTold(ratings: map<string, int>, board: seq<Entry>, version: int, cursor: Option<Entry>, limit: int)
    requires BoardOf(ratings, board)
    ensures var page := PageOf(board, version, cursor, limit);
            && TellsRanks(ratings, page) && page.version == version && |page.entries| <= SizeOf(limit)
            && (forall i, j :: 0 <= i < j < |page.entries| ==> page.entries[i].rank < page.entries[j].rank)
  {
    hide Less, AheadOf, StartOf, Ordered;
    var page, start := PageOf(board, version, cursor, limit), StartOf(board, cursor);
    forall e | e in page.entries
      ensures e.player in ratings && e.rating == ratings[e.player] && e.rank == |AheadOf(ratings, e.rating, e.player)| + 1
    {
      var i :| 0 <= i < |page.entries| && page.entries[i] == e;
      assert board[start + i] in board;
      PlaceCounts(ratings, board, start + i);
    }
  }

  /** The entries from the start on are those after the cursor. */
  lemma {:induction false} StartSplits(board: seq<Entry>, cursor: Option<Entry>)
    requires Ordered(board)
    ensures var k := StartOf(board, cursor);
            forall i :: 0 <= i < |board| ==> (i >= k <==> cursor.None? || Before(cursor.value, board[i]))
  {
    hide Before;
    if cursor.Some? && board != [] {
      if Before(cursor.value, board[0]) {
        forall i | 0 < i < |board| ensures Before(cursor.value, board[i]) { BeforeTransitive(cursor.value, board[0], board[i]); }
      } else {
        StartSplits(board[1..], cursor);
        assert forall i :: 0 < i < |board| ==> board[i] == board[1..][i - 1];
      }
    }
  }

  /** A player stands at one place of the board. */
  lemma PlaceOf(ratings: map<string, int>, board: seq<Entry>, p: string) returns (k: nat)
    requires BoardOf(ratings, board) && p in ratings
    ensures k < |board| && board[k] == Entry(p, ratings[p])
    ensures forall i :: 0 <= i < |board| && board[i].player == p ==> i == k
  {
    hide Less;
    var x := Entry(p, ratings[p]);
    assert x in board;
    k :| 0 <= k < |board| && board[k] == x;
    forall i | 0 <= i < |board| && board[i].player == p ensures i == k {
      assert board[i] in board;
      BeforeTotal(board[i], board[k]);
    }
  }

  lemma EntriesAhead(ratings: map<string, int>, board: seq<Entry>, start: nat, end: nat, k: nat)
    requires BoardOf(ratings, board) && start <= end <= k < |board|
    ensures forall e :: e in RankedFrom(board, start, end) ==> e.player in AheadOf(ratings, board[k].rating, board[k].player)
  {
    hide Less;
    var entries := RankedFrom(board, start, end);
    forall e | e in entries ensures e.player in AheadOf(ratings, board[k].rating, board[k].player) {
      var i :| 0 <= i < |entries| && entries[i] == e;
      assert board[start + i] in board && Before(board[start + i], board[k]);
    }
  }

  lemma PlayerShown(ratings: map<string, int>, board: seq<Entry>, version: int, cursor: Option<Entry>, limit: int, p: string)
    requires BoardOf(ratings, board) && p in ratings
    ensures var page, start := PageOf(board, version, cursor, limit), StartOf(board, cursor);
            && (Shown(page, p) ==> Remains(ratings, cursor, p))
            && (!Shown(page, p) && Remains(ratings, cursor, p) ==>
                  && |page.entries| == SizeOf(limit) && page.nextCursor.Some?
                  && forall e :: e in page.entries ==> e.player in AheadOf(ratings, ratings[p], p))
            && (forall i :: start + |page.entries| <= i < |board| && board[i].player == p ==> !Shown(page, p) && Remains(ratings, cursor, p))
  {
    hide Less, StartOf, AheadOf, BoardOf;
    var page := PageOf(board, version, cursor, limit);
    var start, n := StartOf(board, cursor), |page.entries|;
    var k := PlaceOf(ratings, board, p);
    assert Remains(ratings, cursor, p) <==> k >= start by {
      assert Ordered(board) by { IsOrdered(ratings, board); }
      StartSplits(board, cursor);
    }
    assert Shown(page, p) <==> start <= k < start + n by {
      assert start <= k < start + n ==> page.entries[k - start].player == p;
    }
    if k >= start + n { EntriesAhead(ratings, board, start, start + n, k); }
  }

  lemma IsOrdered(ratings: map<string, int>, board: seq<Entry>)
    requires BoardOf(ratings, board)
    ensures Ordered(board)
  {}
}
