/** What an accepted snapshot guarantees, whoever wrote it: of its deck, of its outstanding reservation, and of every confirmed
    operation. */
module SnapshotChecks {
  import opened Common
  import opened Cards
  import opened Tiling
  import opened Decks
  import opened DeckService
  import opened DeckInvariant
  import opened DeckTheorems
  import opened DeckSnapshot
  import opened DeckAnswers
  import Encoders
  import Hex
  import opened Spaces

  /** Material of this form whose cards start at a place of the order. */
  predicate TrueMaterial(order: seq<string>, from: int, kind: Kind, seats: seq<string>, perHand: int, count: int, shape: string,
                         deal: Option<DealMaterial>, cards: seq<Card>)
  {
    match kind
    case Draw => 0 < count == |cards| && shape == Encoders.DrawShape(count) && AreCardsAt(order, from, cards)
    case Deal =>
      && |seats| >= 2 && (forall i :: 0 <= i < |seats| ==> Trim(seats[i]) != "")
      && (forall i, j :: 0 <= i < j < |seats| ==> seats[i] != seats[j])
      && perHand > 0 && count == |seats| * perHand + 1 && shape == Encoders.DealShape(seats, perHand)
      && deal.Some? && IsDealAt(order, from, seats, perHand, deal.value)
    case OtherKind(_) => false
  }

  /** The snapshot is accepted, and this is the state and the deck that are read from it. */
  ghost predicate Reads(ideal: Ideal, snap: Snapshot, st: St, d: Deck)
  {
    Accepted(ideal, snap) && Restored(ideal, snap) == st && st.deck == Some(d)
  }

  /** The request is answered like this. */
  ghost predicate Answers(c: Ctx, st: St, req: Request, st': St, r: Reply)
  {
    st.Valid() && req.WellTyped() && Step(c, st, req) == (st', r)
  }

  // ---- the deck

  /** The seed gives both commitments and the order, and the draws cover exactly what lies before the pointer. */
  lemma AcceptedDeck(ideal: Ideal, snap: Snapshot, st: St, d: Deck)
    requires Reads(ideal, snap, st, d)
    ensures var seed := Hex.DecodeHex(snap.seedHex);
            && seed.Some? && seed.value == d.seed != ""
            && ideal.sha(d.seed) == snap.seedCommit == st.seedCommit && OrderCommitment(ideal, d.order) == snap.orderCommit == st.orderCommit
            && d.order == snap.order == Shuffle(Picks(ideal, d.seed), StandardDeck())
            && d.gameId == snap.game != "" && d.pointer == snap.pointer && DrawsOk(d)
            && st.confirmed.Keys == d.draws.Keys == snap.draws.Keys
            && (forall op :: op in snap.draws ==> d.draws[op].cards == snap.draws[op].cards)
  {
    hide PendingAccepted, ConfirmedAccepted, StandardDeck, Shuffle, OrderCommitment, Hex.DecodeHex, AllDecode, Contiguous, Restored;
    AcceptedConserves(ideal, snap);
    RestoredDeck(ideal, snap);
  }

  /** Every snapshot that is accepted is read, with a deck. */
  lemma AcceptedReads(ideal: Ideal, snap: Snapshot)
    requires Accepted(ideal, snap)
    ensures exists st, d :: Reads(ideal, snap, st, d)
  {
    hide Accepted, Restored;
    RestoredDeck(ideal, snap);
    assert Reads(ideal, snap, Restored(ideal, snap), Restored(ideal, snap).deck.value);
  }

  lemma RestoredDeck(ideal: Ideal, snap: Snapshot)
    requires Accepted(ideal, snap)
    ensures var st := Restored(ideal, snap);
            && st.deck == Some(Deck(snap.game, Hex.DecodeHex(snap.seedHex).value, snap.order, snap.pointer, WithRevisions(snap.draws)))
            && st.seedCommit == snap.seedCommit && st.orderCommit == snap.orderCommit
            && st.pending == snap.pending && st.byOp == ByOpOf(snap) && st.confirmed == snap.confirmed
            && st.confirmedById == snap.confirmedById && st.cancelled == Members(snap.cancelled) && st.cancelledOps == Members(snap.cancelledOps)
            && st.Valid()
  {
    hide PendingFits, ConfirmedFits, OrderFor, OrderCommitment, Hex.DecodeHex, Contiguous, RestorableDraw;
  }

  // ---- the outstanding reservation

  /** A map of at most one entry is that entry. */
  lemma OnlyEntry<T>(m: map<string, T>, k: string)
    requires |m| <= 1 && k in m
    ensures m == map[k := m[k]]
  {
    assert m.Keys == {k} by {
      forall x | x in m ensures x == k { if x != k { assert {x, k} <= m.Keys; SizeTwo(m.Keys, x, k); } }
    }
  }

  lemma SizeTwo(s: set<string>, x: string, y: string)
    requires x != y && {x, y} <= s
    ensures |s| >= 2
  {
    assert s == {x, y} + (s - {x, y});
    assert |{x, y}| == 2;
  }

  lemma PendingChecked(snap: Snapshot, id: string)
    requires PendingAccepted(snap) && id in snap.pending
    ensures var p := snap.pending[id];
            && p.id == id && snap.pending == map[id := p] && snap.byOp == map[p.op := id] && p.op !in snap.draws
            && PendingFits(snap.order, snap.pointer, p)
  {
    hide PendingFits;
    OnlyEntry(snap.pending, id);
    var op :| op in snap.byOp;
    OnlyEntry(snap.byOp, op);
  }

  lemma PendingIsTrue(order: seq<string>, pointer: int, p: Pending)
    requires PendingFits(order, pointer, p) && AllDecode(order)
    ensures 0 <= pointer && 0 < p.count == p.cardCount && pointer + p.count <= |order| && p.remainingAfter == |order| - pointer - p.count
    ensures TrueMaterial(order, pointer, p.kind, p.seats, p.cardsPerHand, p.count, p.shape, p.deal, p.cards)
  {
    hide DecodeAll, DecodeCard, Encoders.DealShape, Encoders.DrawShape, IsCardAt, IsDealAt, DealFrom, Trim;
    WindowAt(order, pointer, p.cardCount);
    WindowDecodes(order, pointer, p.cardCount);
    if p.kind == Deal { DealIsThere(order, pointer, Window(order, pointer, p.cardCount), p.seats, p.cardsPerHand); }
  }

  /** An accepted snapshot has at most one outstanding reservation, under its id and under its operation, of an operation that has
      drawn nothing. It shows the next cards of the deck, in the form and number that its shape says. */
  lemma AcceptedPending(ideal: Ideal, snap: Snapshot, st: St, d: Deck, id: string)
    requires Reads(ideal, snap, st, d) && id in snap.pending
    ensures var p := snap.pending[id];
            && st.pending == map[id := p] && st.byOp == map[p.op := p] && p.id == id && p.op !in d.draws && p.op !in st.confirmed
            && 0 <= d.pointer && 0 < p.count == p.cardCount && d.pointer + p.count <= |d.order|
            && p.remainingAfter == |d.order| - d.pointer - p.count
            && TrueMaterial(d.order, d.pointer, p.kind, p.seats, p.cardsPerHand, p.count, p.shape, p.deal, p.cards)
            && Handed(TakenRecord(d, p)) == Window(d.order, d.pointer, p.count)
  {
    hide PendingFits, PendingAccepted, DeckAccepted, Restored, AllDecode, Window, Handed, TrueMaterial, ConfirmedAccepted, StandardDeck,
         Shuffle, OrderCommitment, Hex.DecodeHex, Contiguous, RestorableDraws;
    AcceptedDeck(ideal, snap, st, d);
    RestoredDeck(ideal, snap);
    PendingChecked(snap, id);
    PendingIsTrue(d.order, d.pointer, snap.pending[id]);
    HandsOutWindow(d.order, d.pointer, TakenRecord(d, snap.pending[id]));
    assert ByOpOf(snap) == map[snap.pending[id].op := snap.pending[id]];
  }

  lemma CardsEqual(order: seq<string>, from: int, a: seq<Card>, b: seq<Card>)
    requires |a| == |b| && AreCardsAt(order, from, a) && AreCardsAt(order, from, b)
    ensures a == b
  {
    hide DecodeCard;
    forall k | 0 <= k < |a| ensures a[k] == b[k] { assert IsCardAt(order, from + k, a[k]) && IsCardAt(order, from + k, b[k]); }
  }

  /** True material hands out the window that it comes from. */
  lemma HandsOutWindow(order: seq<string>, from: int, r: ConfirmedOp)
    requires AllDecode(order) && 0 <= from <= from + r.count <= |order|
    requires TrueMaterial(order, from, r.kind, r.seats, r.cardsPerHand, r.count, r.shape, r.deal, r.cards)
    ensures Handed(r) == Window(order, from, r.count)
  {
    hide AllDecode, Window, IsCardAt, Trim, Encoders.DealShape, Encoders.DrawShape, HandsInOrder;
    WindowAt(order, from, r.count);
    var w := Window(order, from, r.count);
    if r.kind == Draw {
      CardsEqual(order, from, r.cards, w);
    } else {
      var n := |r.seats|;
      HandsAre(order, from, r.seats, r.cardsPerHand, r.deal.value, w, n);
      assert r.seats[..n] == r.seats;
      CardsEqual(order, from + n * r.cardsPerHand, [r.deal.value.discardTop], [w[n * r.cardsPerHand]]);
      assert w == w[..n * r.cardsPerHand] + [w[n * r.cardsPerHand]];
    }
  }

  lemma {:induction false} HandsAre(order: seq<string>, from: int, seats: seq<string>, h: nat, m: DealMaterial, w: seq<Card>, k: nat)
    requires IsDealAt(order, from, seats, h, m) && k <= |seats| && |w| == |seats| * h + 1
    requires forall i :: 0 <= i < |w| ==> IsCardAt(order, from + i, w[i])
    ensures k * h <= |w| && HandsInOrder(m.hands, seats[..k]) == w[..k * h]
  {
    hide IsCardAt, HandsInOrder, IsDealAt;
    MulMonotone'(k, |seats|, h);
    if k == 0 {
      NoHands(m.hands);
      assert seats[..0] == [] && w[..0 * h] == [];
    } else {
      var n := k - 1;
      HandsAre(order, from, seats, h, m, w, n);
      assert seats[..k] == seats[..n] + [seats[n]];
      assert k * h == n * h + h;
      HandMatches(order, from, seats, h, m, w, n);
      OneHandMore(m.hands, seats[..n], seats[n]);
      assert w[..k * h] == w[..n * h] + w[n * h..n * h + h];
    }
  }

  lemma NoHands(hands: map<string, seq<Card>>)
    ensures HandsInOrder(hands, []) == []
  {}

  lemma OneHandMore(hands: map<string, seq<Card>>, seats: seq<string>, seat: string)
    requires seat in hands
    ensures HandsInOrder(hands, seats + [seat]) == HandsInOrder(hands, seats) + hands[seat]
  {
    assert (seats + [seat])[..|seats|] == seats;
  }

  lemma HandMatches(order: seq<string>, from: int, seats: seq<string>, h: nat, m: DealMaterial, w: seq<Card>, n: nat)
    requires IsDealAt(order, from, seats, h, m) && n < |seats| && n * h + h <= |w|
    requires forall i :: 0 <= i < |w| ==> IsCardAt(order, from + i, w[i])
    ensures seats[n] in m.hands && m.hands[seats[n]] == w[n * h..n * h + h]
  {
    hide IsCardAt;
    HandIsThere(order, from, w, n * h, h);
    CardsEqual(order, from + n * h, m.hands[seats[n]], w[n * h..n * h + h]);
  }

  /** Confirming it then takes exactly those cards: unless the operation has no name, the deck moves on by the count, the record
      hands out the window that was shown, and still no card is handed out twice. */
  lemma AcceptedPendingConfirms(ideal: Ideal, snap: Snapshot, st: St, d: Deck, id: string, st': St, r: Reply)
    requires Reads(ideal, snap, st, d) && id in snap.pending && snap.room != "" && id !in snap.confirmedById && id !in snap.cancelled
    requires Answers(Ctx(ideal, snap.room, snap.game), st, Confirm(id), st', r)
    ensures d.pointer + snap.pending[id].count <= |d.order| && 0 <= d.pointer && 0 < snap.pending[id].count
    ensures var p := snap.pending[id];
            if p.op == "" then st' == st && r == Refused(InvalidIdentity)
            else
              && r == Confirmed(false) && Conserving(st') && st'.deck.value.pointer == d.pointer + p.count
              && st'.pending == map[] && st'.byOp == map[] && p.op in st'.confirmed
              && Handed(st'.confirmed[p.op]) == Window(d.order, d.pointer, p.count)
  {
    hide Accepted, Restored, AllDecode, Window, Handed, TrueMaterial, Conserving, DrawsOk, Step;
    AcceptedPending(ideal, snap, st, d, id);
    RestoredDeck(ideal, snap);
    AcceptedDeck(ideal, snap, st, d);
    AcceptedConserves(ideal, snap);
    ConfirmStepTakes(Ctx(ideal, snap.room, snap.game), st, d, snap.pending[id], id, st', r);
    if snap.pending[id].op != "" { TakenConserves(st, snap.pending[id], st'); }
  }

  lemma ConfirmStepTakes(c: Ctx, st: St, d: Deck, p: Pending, id: string, st': St, r: Reply)
    requires Answers(c, st, Confirm(id), st', r) && c.room != "" && c.game != "" && st.deck == Some(d)
    requires st.pending == map[id := p] && st.byOp == map[p.op := p] && p.op !in d.draws && p.count == p.cardCount
    requires id !in st.cancelled && id !in st.confirmedById && p.id == id
    requires 0 <= d.pointer && 0 < p.count && d.pointer + p.count <= |d.order|
    ensures if p.op == "" then st' == st && r == Refused(InvalidIdentity)
            else
              && r == Confirmed(false) && st'.deck == Some(TakenDeck(d, p)) && st'.confirmed == st.confirmed[p.op := TakenRecord(d, p)]
              && st'.pending == map[] && st'.byOp == map[]
  {
    assert st.pending - {id} == map[] && st.byOp - {p.op} == map[];
  }

  lemma TakenConserves(st: St, p: Pending, st': St)
    requires Conserving(st) && p.op !in st.deck.value.draws && p.op != "" && 0 <= st.deck.value.pointer && 0 < p.count
    requires st.deck.value.pointer + p.count <= |st.deck.value.order|
    requires Handed(TakenRecord(st.deck.value, p)) == Window(st.deck.value.order, st.deck.value.pointer, p.count)
    requires st'.deck == Some(TakenDeck(st.deck.value, p)) && st'.confirmed == st.confirmed[p.op := TakenRecord(st.deck.value, p)]
    ensures Conserving(st')
  {
    hide Handed, Window, DrawsOk;
    DrawTaken(st.deck.value, p.op, p.count);
    forall op | op in st'.confirmed ensures RecordFits(st'.deck.value, op, st'.confirmed[op]) {
      if op != p.op { assert RecordFits(st.deck.value, op, st.confirmed[op]); }
    }
  }

  // ---- the confirmed operations

  /** Every confirmed operation has its draw, shows exactly the cards of that draw in the form that its shape says, and is found under
      its reservation id. */
  lemma AcceptedConfirmed(ideal: Ideal, snap: Snapshot, st: St, d: Deck, op: string)
    requires Reads(ideal, snap, st, d) && op in snap.confirmed
    ensures op in d.draws && snap.confirmed[op].op == op && st.confirmed == snap.confirmed
    ensures var (r, rec) := (snap.confirmed[op], d.draws[op]);
            && r.fromPointer == rec.fromPointer && r.count == rec.count && rec.revision == rec.fromPointer + rec.count
            && 0 <= rec.fromPointer && rec.fromPointer + rec.count <= d.pointer <= |d.order|
            && rec.cards == d.order[rec.fromPointer..rec.fromPointer + rec.count]
            && TrueMaterial(d.order, r.fromPointer, r.kind, r.seats, r.cardsPerHand, r.count, r.shape, r.deal, r.cards)
            && r.reservationId in st.confirmedById && st.confirmedById[r.reservationId] == r
  {
    hide Accepted, Restored, AllDecode, TrueMaterial, ConfirmedFits, ConfirmedAccepted, DrawsOk, StandardDeck, Shuffle, OrderCommitment,
         Hex.DecodeHex;
    AcceptedDeck(ideal, snap, st, d);
    RestoredDeck(ideal, snap);
    PartsAccepted(ideal, snap);
    ConfirmedChecked(snap, op);
    DrawBounds(d, op);
    ConfirmedIsTrue(d, snap.draws, snap.confirmed[op]);
  }

  lemma PartsAccepted(ideal: Ideal, snap: Snapshot)
    requires Accepted(ideal, snap)
    ensures PendingAccepted(snap) && ConfirmedAccepted(snap)
  {}

  lemma ConfirmedChecked(snap: Snapshot, op: string)
    requires ConfirmedAccepted(snap) && op in snap.confirmed
    ensures var r := snap.confirmed[op];
            r.op == op && ConfirmedFits(snap.draws, r) && r.reservationId in snap.confirmedById && snap.confirmedById[r.reservationId] == r
  {
    hide ConfirmedFits;
    Indexed(snap.confirmed, snap.confirmedById, op);
  }

  lemma DrawBounds(d: Deck, op: string)
    requires DrawsOk(d) && op in d.draws
    ensures var rec := d.draws[op];
            && 0 <= rec.fromPointer && rec.fromPointer + rec.count <= d.pointer <= |d.order| && rec.revision == rec.fromPointer + rec.count
            && rec.cards == d.order[rec.fromPointer..rec.fromPointer + rec.count] && RestorableDraws(d.order, d.draws) && AllDecode(d.order)
  {
    hide AllDecode;
    var ops :| Tiles(Spans(d.draws), ops, d.pointer);
    ChainInside(Spans(d.draws), ops, d.pointer, op);
    assert RestorableDraw(d.order, op, d.draws[op]);
  }

  lemma {:induction false} ChainInside(m: map<string, Span>, ops: seq<string>, end: int, op: string)
    requires (forall o :: o in ops ==> o in m) && Positive(m) && Chained(m, ops, end) && op in ops
    ensures m[op].to <= end
    decreases |ops|
  {
    var n := |ops| - 1;
    if op != ops[n] { ChainInside(m, ops[..n], m[ops[n]].from, op); }
  }

  lemma ConfirmedIsTrue(d: Deck, draws: map<string, DrawRecord>, r: ConfirmedOp)
    requires ConfirmedFits(draws, r) && d.draws == WithRevisions(draws) && RestorableDraws(d.order, d.draws) && AllDecode(d.order)
    ensures r.fromPointer == draws[r.op].fromPointer && r.count == draws[r.op].count
    ensures TrueMaterial(d.order, r.fromPointer, r.kind, r.seats, r.cardsPerHand, r.count, r.shape, r.deal, r.cards)
  {
    hide DecodeAll, DecodeCard, EncodeCard, AllDecode, Encoders.DealShape, Encoders.DrawShape, IsCardAt, IsDealAt, DealFrom, Trim;
    var rec := draws[r.op];
    assert RestorableDraw(d.order, r.op, d.draws[r.op]);
    WindowAt(d.order, rec.fromPointer, rec.count);
    WindowDecodes(d.order, rec.fromPointer, rec.count);
    if r.kind == Draw {
      DrawCardsDecode(d.order, rec, r);
    } else {
      DealIsThere(d.order, rec.fromPointer, Window(d.order, rec.fromPointer, rec.count), r.seats, r.cardsPerHand);
    }
  }

  /** Two indexes of one size, of which one points into the other, list the same records. */
  lemma Indexed(byOp: map<string, ConfirmedOp>, byId: map<string, ConfirmedOp>, op: string)
    requires |byOp| == |byId| && op in byOp && forall o :: o in byOp ==> byOp[o].op == o
    requires forall id :: id in byId ==> byId[id].reservationId == id && byId[id].op in byOp && byOp[byId[id].op] == byId[id]
    ensures byOp[op].reservationId in byId && byId[byOp[op].reservationId] == byOp[op]
  {
    var named := OpsOf(byId);
    SizeOfOps(byId);
    assert named <= byOp.Keys;
    SubsetOfSameSize(named, byOp.Keys);
    assert op in named;
  }

  function OpsOf(byId: map<string, ConfirmedOp>): set<string> { set id | id in byId :: byId[id].op }

  lemma {:induction false} SizeOfOps(byId: map<string, ConfirmedOp>)
    requires forall x, y :: x in byId && y in byId && byId[x].op == byId[y].op ==> x == y
    ensures |OpsOf(byId)| == |byId|
    decreases |byId|
  {
    if byId == map[] {
      assert OpsOf(byId) == {};
    } else {
      var id :| id in byId;
      var rest := byId - {id};
      assert byId.Keys == rest.Keys + {id};
      SizeOfOps(rest);
      OneOpMore(byId, rest, id);
    }
  }

  lemma OneOpMore(byId: map<string, ConfirmedOp>, rest: map<string, ConfirmedOp>, id: string)
    requires id in byId && rest == byId - {id} && forall x :: x in rest ==> byId[x].op != byId[id].op
    ensures OpsOf(byId) == OpsOf(rest) + {byId[id].op} && byId[id].op !in OpsOf(rest)
  {
    forall o ensures o in OpsOf(byId) <==> o in OpsOf(rest) || o == byId[id].op {
      if o in OpsOf(byId) {
        var x :| x in byId && byId[x].op == o;
        assert x == id || x in rest;
      }
      if o == byId[id].op { assert id in byId; }
      if o in OpsOf(rest) {
        var x :| x in rest && rest[x].op == o;
        assert x in byId && byId[x].op == o;
      }
    }
  }
}
