/** The authoritative deck of one game (domain/deck.go): a fixed order, a draw pointer, and the draws taken. */
module Decks {
  import opened Common
  import opened Tiling
  import Cards

  datatype Rejection = InvalidCommand | InvalidIdentity | InsufficientCards | ConflictingDuplicate

  /** A Go int. */
  newtype Int64 = x: int | -0x8000_0000_0000_0000 <= x <= MAX_INT

  /** Two's-complement wrap-around of a Go int sum. */
  function Wrap64(x: int): (r: int)
    ensures -0x8000_0000_0000_0000 <= r <= MAX_INT
    ensures -0x8000_0000_0000_0000 <= x <= MAX_INT ==> r == x
  {
    (x + 0x8000_0000_0000_0000) % 0x1_0000_0000_0000_0000 - 0x8000_0000_0000_0000
  }

  /** One recorded draw, as DrawIdempotencySnapshot shows it. */
  datatype DrawRecord = DrawRecord(count: int, cards: seq<string>, fromPointer: int, revision: int)

  datatype PeekResult = Peeked(cards: seq<string>) | PeekRejected(code: Rejection) | PeekPanics

  datatype DrawOutcome = DrawAccepted(cards: seq<string>) | DrawDuplicate(cards: seq<string>) | DrawRejected(code: Rejection)

  datatype Deck = Deck(gameId: string, seed: string, order: seq<string>, pointer: int, draws: map<string, DrawRecord>)
  {
    predicate Valid() { 0 <= pointer <= |order| }

    function Remaining(): int { if |order| - pointer < 0 then 0 else |order| - pointer }

    /** Peek. The sum pointer + offset + count is a Go int sum; a wrapped sum slices backwards and panics. */
    function Peek(offset: int, count: int): (r: PeekResult)
      requires Valid()
      ensures r.Peeked? && offset == 0 && 0 < count <= MAX_INT && |order| <= MAX_INT ==> |r.cards| == count
    {
      if count <= 0 then PeekRejected(InvalidCommand)
      else if offset < 0 then PeekRejected(InvalidCommand)
      else
        var start := Wrap64(pointer + offset);
        var end := Wrap64(start + count);
        if end > |order| then PeekRejected(InsufficientCards)
        else if 0 <= start <= end then Peeked(order[start..end])
        else PeekPanics
    }

    /** What Draw changes and answers. */
    function Drawn(op: string, count: int): (Deck, DrawOutcome)
      requires Valid()
    {
      if op in draws then
        if draws[op].count != count then (this, DrawRejected(ConflictingDuplicate))
        else (this, DrawDuplicate(draws[op].cards))
      else if op == "" then (this, DrawRejected(InvalidIdentity))
      else if count <= 0 then (this, DrawRejected(InvalidCommand))
      else if count > Remaining() then (this, DrawRejected(InsufficientCards))
      else
        var cards := order[pointer..pointer + count];
        (this.(pointer := pointer + count,
               draws := draws[op := DrawRecord(count, cards, pointer, pointer + count)]),
         DrawAccepted(cards))
    }
  }

  /** Peeking at the top answers with the next cards, except for counts so large that the sum wraps. */
  lemma PeekTop(d: Deck, count: int)
    requires d.Valid() && |d.order| <= MAX_INT && 0 < count <= MAX_INT
    ensures d.pointer + count <= |d.order| <==> d.Peek(0, count).Peeked?
    ensures d.pointer + count <= |d.order| ==> d.Peek(0, count) == Peeked(d.order[d.pointer..d.pointer + count])
    ensures d.Peek(0, count).PeekPanics? <==> d.pointer + count > MAX_INT
  {
    if d.pointer + count > MAX_INT {
      var n := 0x1_0000_0000_0000_0000;
      var x := d.pointer + count + 0x8000_0000_0000_0000;
      assert x % n == x - n;
    }
  }

  /** Peeking anywhere ahead shows the cards there, as long as the sums fit a Go int. */
  lemma PeekAhead(d: Deck, offset: int, count: int)
    requires d.Valid() && |d.order| <= MAX_INT && d.pointer + offset + count <= MAX_INT
    ensures d.Peek(offset, count) ==
              if offset < 0 || count <= 0 then PeekRejected(InvalidCommand)
              else if d.pointer + offset + count > |d.order| then PeekRejected(InsufficientCards)
              else Peeked(d.order[d.pointer..][offset..][..count])
  {
    if 0 <= offset && 0 < count && d.pointer + offset + count <= |d.order| {
      assert d.order[d.pointer..][offset..][..count] == d.order[d.pointer + offset..d.pointer + offset + count];
    }
  }

  /** The deck after these draws, each an operation and a count, whatever they were answered. */
  function DrawAll(d: Deck, draws: seq<(string, int)>): (r: Deck)
    requires d.Valid()
    ensures r.Valid()
  {
    if draws == [] then d
    else
      var n := |draws| - 1;
      DrawAll(d, draws[..n]).Drawn(draws[n].0, draws[n].1).0
  }

  /** A draw that was taken stays, whatever is drawn afterwards: asked for again it gives the same cards and takes none, and
      the operation is refused another count. Later draws take only cards after it. */
  lemma {:induction false} DrawIsFinal(d: Deck, op: string, count: int, draws: seq<(string, int)>)
    requires d.Valid() && d.Drawn(op, count).1.DrawAccepted?
    ensures var d' := DrawAll(d.Drawn(op, count).0, draws);
            && d'.order == d.order && d'.pointer >= d.pointer + count && op in d'.draws
            && d'.draws[op] == DrawRecord(count, d.order[d.pointer..d.pointer + count], d.pointer, d.pointer + count)
            && d'.Drawn(op, count) == (d', DrawDuplicate(d.order[d.pointer..d.pointer + count]))
            && (forall other: int :: other != count ==> d'.Drawn(op, other) == (d', DrawRejected(ConflictingDuplicate)))
    decreases |draws|
  {
    if draws != [] { DrawIsFinal(d, op, count, draws[..|draws| - 1]); }
  }

  class AuthoritativeDeck {
    const gameId: string
    const seed: string
    const order: seq<string>
    var pointer: int
    var draws: map<string, DrawRecord>

    ghost function Value(): Deck
      reads this
    {
      Deck(gameId, seed, order, pointer, draws)
    }

    ghost predicate Valid()
      reads this
    {
      Value().Valid()
    }

    constructor (gameId: string, seed: string, order: seq<string>)
      ensures Valid() && Value() == Deck(gameId, seed, order, 0, map[])
    {
      this.gameId := gameId;
      this.seed := seed;
      this.order := order;
      pointer := 0;
      draws := map[];
    }

    /** The cards left: the pointer and they make up the order, and they are the largest count that a new operation may draw
        and that a peek may show. */
    method Remaining() returns (rem: int)
      ensures rem == Value().Remaining()
      ensures Valid() ==> rem + pointer == |order|
      ensures Valid() ==> forall op, count: int :: op != "" && op !in draws && 0 < count ==>
                (Value().Drawn(op, count).1.DrawAccepted? <==> count <= rem)
      ensures Valid() && |order| <= MAX_INT ==> forall count :: 0 < count <= MAX_INT ==>
                (Value().Peek(0, count).Peeked? <==> count <= rem)
    {
      rem := |order| - pointer;
      if rem < 0 { rem := 0; }
      if Valid() && |order| <= MAX_INT {
        forall count | 0 < count <= MAX_INT ensures Value().Peek(0, count).Peeked? <==> count <= rem {
          PeekTop(Value(), count);
        }
      }
    }

    method Draw(op: string, count: int) returns (r: DrawOutcome)
      requires Valid()
      modifies this
      ensures Valid() && (Value(), r) == old(Value()).Drawn(op, count)
    {
      if op in draws {
        var prior := draws[op];
        if prior.count != count { return DrawRejected(ConflictingDuplicate); }
        return DrawDuplicate(prior.cards);
      }
      if op == "" { return DrawRejected(InvalidIdentity); }
      if count <= 0 { return DrawRejected(InvalidCommand); }
      var remaining := Remaining();
      if count > remaining { return DrawRejected(InsufficientCards); }
      var before := pointer;
      var drawn := order[pointer..pointer + count];
      pointer := pointer + count;
      draws := draws[op := DrawRecord(count, drawn, before, pointer)];
      return DrawAccepted(drawn);
    }
  }

  /** A new deck refuses a blank game, an empty seed and an empty list of cards; otherwise it holds the shuffled cards. */
  method NewAuthoritativeDeck(gameId: string, seed: string, pick: nat -> nat, cards: seq<string>) returns (d: AuthoritativeDeck?)
    ensures d == null <==> gameId == "" || seed == "" || cards == []
    ensures d != null ==>
              fresh(d) && d.Valid() && d.Value() == Deck(gameId, seed, Cards.Shuffle(pick, cards), 0, map[])
              && multiset(d.order) == multiset(cards)
  {
    if gameId == "" { return null; }
    if seed == "" { return null; }
    if |cards| == 0 { return null; }
    var order := Cards.ShuffleCards(pick, cards);
    Cards.ShuffleFromPermutes(pick, cards, |cards| - 1);
    d := new AuthoritativeDeck(gameId, seed, order);
  }

  // ---- restoring a deck from durable material

  function SpanOf(d: DrawRecord): Span { Span(d.fromPointer, d.fromPointer + d.count) }

  function Spans(draws: map<string, DrawRecord>): map<string, Span>
  {
    map op | op in draws :: SpanOf(draws[op])
  }

  /** One draw record that RestoreAuthoritativeDeck accepts under its key. */
  predicate RestorableDraw(order: seq<string>, op: string, d: DrawRecord)
  {
    && op != ""
    && d.count > 0 && |d.cards| == d.count
    && 0 <= d.fromPointer && d.fromPointer + d.count <= |order|
    && order[d.fromPointer..d.fromPointer + d.count] == d.cards
    && (d.revision == 0 || d.revision == d.fromPointer + d.count)
  }

  predicate RestorableDraws(order: seq<string>, draws: map<string, DrawRecord>)
  {
    forall op :: op in draws ==> RestorableDraw(order, op, draws[op])
  }

  /** The material RestoreAuthoritativeDeck accepts: proper draws that tile [0, pointer). */
  ghost predicate Restorable(gameId: string, seed: string, order: seq<string>, pointer: int, draws: map<string, DrawRecord>)
  {
    && gameId != "" && seed != "" && |order| > 0
    && 0 <= pointer <= |order|
    && RestorableDraws(order, draws)
    && Contiguous(Spans(draws), pointer)
  }

  function WithRevisions(draws: map<string, DrawRecord>): map<string, DrawRecord>
  {
    map op | op in draws :: draws[op].(revision := draws[op].fromPointer + draws[op].count)
  }

  /** Counts and pointers are Go ints. */
  predicate MachineSized(draws: map<string, DrawRecord>)
  {
    forall op :: op in draws ==> draws[op].count <= MAX_INT && draws[op].fromPointer <= MAX_INT
  }

  /** A draw that passes the checks before its range but whose end wraps: the range check lets it through, and the slice panics. */
  predicate EndWraps(op: string, d: DrawRecord)
  {
    op != "" && 0 < d.count == |d.cards| && 0 <= d.fromPointer && d.fromPointer + d.count > MAX_INT
  }

  /** The checks of one stored draw. */
  method CheckDraw(order: seq<string>, op: string, rec: DrawRecord) returns (ok: bool, panicked: bool)
    requires |order| <= MAX_INT && rec.count <= MAX_INT && rec.fromPointer <= MAX_INT
    ensures ok <==> RestorableDraw(order, op, rec)
    ensures panicked <==> EndWraps(op, rec)
  {
    if op == "" { return false, false; }
    if rec.count <= 0 || |rec.cards| != rec.count { return false, false; }
    var end := Wrap64(rec.fromPointer + rec.count);
    if rec.fromPointer + rec.count > MAX_INT { WrapsOnce(rec.fromPointer + rec.count); }
    if rec.fromPointer < 0 || end > |order| { return false, false; }
    if end < rec.fromPointer { return false, true; }
    if order[rec.fromPointer..end] != rec.cards { return false, false; }
    var rev := if rec.revision == 0 then end else rec.revision;
    return rev == end, false;
  }

  lemma WrapsOnce(x: int)
    requires MAX_INT < x <= 2 * MAX_INT
    ensures Wrap64(x) == x - 0x1_0000_0000_0000_0000
  {
    var n := 0x1_0000_0000_0000_0000;
    assert (x + 0x8000_0000_0000_0000) % n == x + 0x8000_0000_0000_0000 - n;
  }

  /** The draws are checked in the order in which the map is walked, whatever it is. */
  method CheckDraws(order: seq<string>, draws: map<string, DrawRecord>)
    returns (ok: bool, panicked: bool, restored: map<string, DrawRecord>, names: seq<string>)
    requires |order| <= MAX_INT && MachineSized(draws)
    ensures ok <==> RestorableDraws(order, draws)
    ensures ok ==> restored == WithRevisions(draws) && NoDup(names) && SameNames(Spans(draws), names)
    ensures panicked ==> exists op :: op in draws && EndWraps(op, draws[op])
    ensures !ok && (forall op :: op in draws ==> EndWraps(op, draws[op]) || RestorableDraw(order, op, draws[op])) ==> panicked
  {
    hide RestorableDraw, EndWraps;
    restored, names := map[], [];
    var rest := draws.Keys;
    while rest != {}
      invariant rest <= draws.Keys && restored.Keys == draws.Keys - rest
      invariant NoDup(names) && forall op :: op in names <==> op in restored
      invariant forall op :: op in restored ==>
        RestorableDraw(order, op, draws[op]) && restored[op] == draws[op].(revision := draws[op].fromPointer + draws[op].count)
      decreases rest
    {
      var op :| op in rest;
      var rec := draws[op];
      ok, panicked := CheckDraw(order, op, rec);
      if !ok { return; }
      restored := restored[op := rec.(revision := rec.fromPointer + rec.count)];
      names := names + [op];
      rest := rest - {op};
    }
    assert restored == WithRevisions(draws);
    return true, false, restored, names;
  }

  /** Restores exactly the restorable material; panics only over a draw whose end wraps, and always when that is all that is
      wrong with the draws. */
  method RestoreAuthoritativeDeck(gameId: string, seed: string, order: seq<string>, pointer: int, draws: map<string, DrawRecord>)
    returns (d: AuthoritativeDeck?, panicked: bool)
    requires |order| <= MAX_INT && MachineSized(draws)
    ensures d != null <==> Restorable(gameId, seed, order, pointer, draws)
    ensures d != null ==> fresh(d) && d.Valid() && d.Value() == Deck(gameId, seed, order, pointer, WithRevisions(draws))
    ensures panicked ==> exists op :: op in draws && EndWraps(op, draws[op])
    ensures gameId != "" && seed != "" && 0 <= pointer <= |order| && order != [] && !RestorableDraws(order, draws) ==>
              (forall op :: op in draws ==> EndWraps(op, draws[op]) || RestorableDraw(order, op, draws[op])) ==> panicked
  {
    hide RestorableDraw, EndWraps, WithRevisions;
    if gameId == "" || seed == "" || |order| == 0 { return null, false; }
    if pointer < 0 || pointer > |order| { return null, false; }
    var ok, stopped, restored, names := CheckDraws(order, draws);
    if !ok { return null, stopped; }
    SpansPositive(order, draws);
    var covered := CoversFromZero(Spans(draws), names, pointer);
    if !covered { return null, false; }
    d := new AuthoritativeDeck(gameId, seed, order);
    d.pointer := pointer;
    d.draws := restored;
    return d, false;
  }

  lemma SpansPositive(order: seq<string>, draws: map<string, DrawRecord>)
    requires RestorableDraws(order, draws)
    ensures Positive(Spans(draws))
  {}

  /** Contiguous coverage from 0 without gaps or overlaps, up to the pointer. */
  method CoversFromZero(spans: map<string, Span>, names: seq<string>, pointer: int) returns (ok: bool)
    requires Positive(spans) && NoDup(names) && SameNames(spans, names)
    ensures ok <==> Contiguous(spans, pointer)
  {
    var sorted := SortByFrom(spans, names);
    var cursor := 0;
    for i := 0 to |sorted|
      invariant Chained(spans, sorted[..i], cursor)
    {
      assert sorted[..i + 1][..i] == sorted[..i];
      if spans[sorted[i]].from != cursor {
        NextStartIsForced(spans, sorted, i, cursor, pointer);
        return false;
      }
      cursor := spans[sorted[i]].to;
    }
    assert sorted[..|sorted|] == sorted;
    EndIsForced(spans, sorted, cursor, pointer);
    assert pointer == cursor ==> Tiles(spans, sorted, pointer);
    return pointer == cursor;
  }

  /** The sorted spans are the only candidate for a chain: each must start where the one before it stops. */
  lemma NextStartIsForced(m: map<string, Span>, sorted: seq<string>, i: nat, cursor: int, end: int)
    requires Positive(m) && NoDup(sorted) && SameNames(m, sorted) && SortedByFrom(m, sorted) && i < |sorted|
    requires Chained(m, sorted[..i], cursor)
    ensures Contiguous(m, end) ==> m[sorted[i]].from == cursor
  {
    assert sorted[..i + 1][..i] == sorted[..i];
    if Contiguous(m, end) {
      var ops :| Tiles(m, ops, end);
      ChainIsTheSortedList(m, ops, sorted, end);
      ChainPrefix(m, sorted, end, i + 1);
      ChainEnds(m, sorted[..i], cursor, m[sorted[i]].from);
    }
  }

  lemma EndIsForced(m: map<string, Span>, sorted: seq<string>, cursor: int, end: int)
    requires Positive(m) && NoDup(sorted) && SameNames(m, sorted) && SortedByFrom(m, sorted)
    requires Chained(m, sorted, cursor)
    ensures Contiguous(m, end) ==> end == cursor
  {
    if Contiguous(m, end) {
      var ops :| Tiles(m, ops, end);
      ChainIsTheSortedList(m, ops, sorted, end);
      ChainEnds(m, sorted, cursor, end);
    }
  }

  lemma ChainEnds(m: map<string, Span>, ops: seq<string>, a: int, b: int)
    requires (forall op :: op in ops ==> op in m) && Chained(m, ops, a) && Chained(m, ops, b)
    ensures a == b
  {}

  lemma {:induction false} ChainPrefix(m: map<string, Span>, ops: seq<string>, end: int, i: nat)
    requires (forall op :: op in ops ==> op in m) && Chained(m, ops, end) && 0 < i <= |ops|
    ensures Chained(m, ops[..i], m[ops[i - 1]].to)
    decreases |ops|
  {
    if i == |ops| {
      assert ops[..i] == ops;
    } else {
      ChainPrefix(m, ops[..|ops| - 1], m[ops[|ops| - 1]].from, i);
      assert ops[..|ops| - 1][..i] == ops[..i];
    }
  }
}
