/** What every reachable deck state satisfies, and what follows: conservation of cards and the life of an operation. */
module DeckInvariant {
  import opened Common
  import opened Cards
  import opened Tiling
  import opened Decks
  import opened DeckService
  import Encoders
  import Hex

  /** The material that a reservation of this kind and shape takes from a window of cards. */
  ghost predicate Material(kind: Kind, seats: seq<string>, perHand: int, count: int, shape: string,
                           deal: Option<DealMaterial>, cards: seq<Card>, window: seq<Card>)
  {
    match kind
    case Draw =>
      && seats == [] && perHand == 0 && deal == None
      && 0 < count == |window| && cards == window && shape == Encoders.DrawShape(count)
    case Deal =>
      && GoodSeats(seats) && perHand > 0 && DealNeed(|seats|, perHand) == Some(count) && count == |window|
      && cards == [] && shape == Encoders.DealShape(seats, perHand)
      && deal == Some(DealFrom(seats, perHand, window))
    case OtherKind(_) => false
  }

  /** The decoded cards at from..from+count of the order. */
  function Window(order: seq<string>, from: int, count: int): seq<Card>
    requires 0 <= from <= from + count <= |order|
  {
    var w := DecodeAll(order[from..from + count]);
    if w.Some? then w.value else []
  }

  ghost predicate PendingOk(c: Ctx, d: Deck, p: Pending)
  {
    && p.op != "" && p.roomId == c.room && p.gameId == c.game
    && p.id == ReservationId(c, p.op, p.shape)
    && p.cardCount == p.count && 0 < p.count && 0 <= d.pointer && d.pointer + p.count <= |d.order|
    && p.remainingAfter == |d.order| - d.pointer - p.count
    && Material(p.kind, p.seats, p.cardsPerHand, p.count, p.shape, p.deal, p.cards, Window(d.order, d.pointer, p.count))
  }

  ghost predicate ConfirmedOk(c: Ctx, d: Deck, op: string, r: ConfirmedOp)
  {
    && r.op == op && op in d.draws
    && r.fromPointer == d.draws[op].fromPointer && r.count == d.draws[op].count
    && r.reservationId == ReservationId(c, op, r.shape)
    && 0 <= r.fromPointer < r.fromPointer + r.count <= |d.order|
    && r.remainingAfter == |d.order| - r.fromPointer - r.count
    && Material(r.kind, r.seats, r.cardsPerHand, r.count, r.shape, r.deal, r.cards, Window(d.order, r.fromPointer, r.count))
  }

  ghost predicate DeckOk(c: Ctx, st: St, d: Deck)
  {
    && c.room != "" && c.game != "" && d.gameId == c.game
    && d.seed != "" && Hex.IsBytes(d.seed)
    && st.seedHex == Hex.EncodeHex(d.seed) && st.seedCommit == c.ideal.sha(d.seed)
    && d.order == OrderFor(c.ideal, d.seed) && st.orderCommit == OrderCommitment(c.ideal, d.order)
    && DrawsOk(d)
  }

  ghost predicate DrawsOk(d: Deck)
  {
    && |d.order| == DECK_SIZE && 0 <= d.pointer <= |d.order|
    && AllDecode(d.order)
    && RestorableDraws(d.order, d.draws)
    && (forall op :: op in d.draws ==> d.draws[op].revision == d.draws[op].fromPointer + d.draws[op].count)
    && Contiguous(Spans(d.draws), d.pointer)
  }

  /** At most one reservation is outstanding, under its id and under its operation. */
  ghost predicate SlotOk(c: Ctx, st: St, d: Deck)
  {
    || (st.pending == map[] && st.byOp == map[])
    || (exists p :: Holds(st, p) && PendingOk(c, d, p)
                    && p.op !in st.confirmed && p.op !in st.cancelledOps && p.id !in st.cancelled)
  }

  predicate Holds(st: St, p: Pending)
  {
    p.id in st.pending && p.op in st.byOp && st.pending == map[p.id := p] && st.byOp == map[p.op := p]
  }

  ghost predicate RecordsOk(c: Ctx, st: St, d: Deck)
  {
    && st.confirmed.Keys == d.draws.Keys
    && (forall op :: op in st.confirmed ==> ConfirmedOk(c, d, op, st.confirmed[op]))
    && (forall id :: id in st.confirmedById ==>
          var r := st.confirmedById[id]; r.reservationId == id && r.op in st.confirmed && st.confirmed[r.op] == r)
    && (forall op :: op in st.confirmed ==>
          st.confirmed[op].reservationId in st.confirmedById
          && st.confirmedById[st.confirmed[op].reservationId] == st.confirmed[op])
  }

  ghost predicate CancelledOk(c: Ctx, st: St)
  {
    && st.confirmed.Keys !! st.cancelledOps
    && (forall id :: id in st.cancelled ==> WasCancelled(c, st, id))
  }

  ghost predicate WasCancelled(c: Ctx, st: St, id: string)
  {
    exists op, shape :: op in st.cancelledOps && id == ReservationId(c, op, shape)
  }

  ghost predicate Inv(c: Ctx, st: St)
  {
    if st.deck.None? then st == EMPTY
    else
      var d := st.deck.value;
      DeckOk(c, st, d) && SlotOk(c, st, d) && RecordsOk(c, st, d) && CancelledOk(c, st)
  }

  // ---- every operation keeps the invariant

  lemma InvValid(c: Ctx, st: St)
    requires Inv(c, st)
    ensures st.Valid() && (st.deck.Some? ==> DrawsOk(st.deck.value))
  {}

  /** A pending reservation is the outstanding one. */
  lemma SlotHeld(c: Ctx, st: St, id: string)
    requires Inv(c, st) && id in st.pending
    ensures st.deck.Some?
    ensures var p := st.pending[id];
            && p.id == id && Holds(st, p) && PendingOk(c, st.deck.value, p)
            && p.op !in st.deck.value.draws && p.op !in st.confirmed && p.op !in st.cancelledOps && id !in st.cancelled
  {
    hide PendingOk, DrawsOk, CancelledOk, ConfirmedOk, OrderFor, OrderCommitment, Hex.EncodeHex;
  }

  lemma SlotFree(c: Ctx, st: St)
    requires Inv(c, st) && st.pending == map[]
    ensures st.byOp == map[]
  {
    hide PendingOk, DrawsOk, RecordsOk, CancelledOk, OrderFor, OrderCommitment, Hex.EncodeHex;
  }

  lemma InitializeKeeps(c: Ctx, st: St, seed: string)
    requires Inv(c, st) && Hex.IsBytes(seed)
    ensures Inv(c, InitializeStep(c, st, seed).0)
  {
    hide DeckOrder, OrderCommitment, Hex.EncodeHex, AllDecode;
    var st' := InitializeStep(c, st, seed).0;
    if st' != st {
      var d := st'.deck.value;
      OrderDecodes(c.ideal, seed);
      assert Tiles(Spans(d.draws), [], 0);
    }
  }

  lemma OrderDecodes(ideal: Ideal, seed: string)
    ensures AllDecode(OrderFor(ideal, seed)) && Distinct(OrderFor(ideal, seed))
  {
    DeckOrderCards(Picks(ideal, seed));
  }

  lemma WindowDecodes(order: seq<string>, from: int, count: int)
    requires AllDecode(order) && 0 <= from <= from + count <= |order|
    ensures DecodeAll(order[from..from + count]) == Some(Window(order, from, count))
    ensures |Window(order, from, count)| == count
  {
    var raw := order[from..from + count];
    forall i | 0 <= i < |raw| ensures DecodeCard(raw[i]).Some? { assert raw[i] == order[from + i]; }
  }

  ghost predicate ReserveArgs(op: string, kind: Kind, seats: seq<string>, perHand: int, need: int, shape: string)
  {
    && 0 < need <= MAX_INT && op != "" && !kind.OtherKind?
    && (kind == Deal ==> perHand > 0 && GoodSeats(seats) && DealNeed(|seats|, perHand) == Some(need)
                         && shape == Encoders.DealShape(seats, perHand))
    && (kind == Draw ==> seats == [] && perHand == 0 && shape == Encoders.DrawShape(need))
  }

  /** The reservation that the next cards give. */
  function Offer(c: Ctx, d: Deck, op: string, kind: Kind, seats: seq<string>, perHand: int, need: int, shape: string): Pending
    requires 0 <= d.pointer && 0 < need && d.pointer + need <= |d.order|
    requires kind == Deal ==> perHand > 0 && need == |seats| * perHand + 1 && |Window(d.order, d.pointer, need)| == need
  {
    var w := Window(d.order, d.pointer, need);
    Pending(ReservationId(c, op, shape), c.room, c.game, op, kind, seats, perHand, need, need,
            if kind == Deal then Some(DealFrom(seats, perHand, w)) else None, if kind == Draw then w else [],
            shape, |d.order| - d.pointer - need)
  }

  lemma OfferOk(c: Ctx, d: Deck, op: string, kind: Kind, seats: seq<string>, perHand: int, need: int, shape: string)
    requires ReserveArgs(op, kind, seats, perHand, need, shape) && DrawsOk(d) && d.pointer + need <= |d.order|
    ensures |Window(d.order, d.pointer, need)| == need
    ensures PendingOk(c, d, Offer(c, d, op, kind, seats, perHand, need, shape))
  {
    hide DealFrom, DecodeAll, AllDecode, Window, ReservationId, Encoders.DealShape, Encoders.DrawShape;
    WindowDecodes(d.order, d.pointer, need);
  }

  /** Nothing in the deck's records stands in the way of a new reservation of this operation. */
  predicate Free(c: Ctx, st: St, op: string, shape: string)
  {
    && st.deck.Some? && ReservationId(c, op, shape) !in st.cancelled && op !in st.cancelledOps
    && op !in st.confirmed && op !in st.byOp && st.pending == map[]
  }

  /** A reservation of a free operation shows the next cards when there are enough, and changes nothing otherwise. */
  lemma ReserveFree(c: Ctx, st: St, op: string, kind: Kind, seats: seq<string>, perHand: int, need: int, shape: string)
    requires Inv(c, st) && ReserveArgs(op, kind, seats, perHand, need, shape) && Free(c, st, op, shape)
    ensures var d := st.deck.value;
            var (st', r) := ReserveStep(c, st, op, kind, seats, perHand, need, shape);
            if d.pointer + need <= |d.order| then
              && |Window(d.order, d.pointer, need)| == need
              && var p := Offer(c, d, op, kind, seats, perHand, need, shape);
              && st' == st.(pending := map[p.id := p], byOp := map[p.op := p])
              && r == Reserved(false, p.id, p.deal, p.cards, p.remainingAfter)
            else
              st' == st && r == if d.pointer + need > MAX_INT then Panicked else Refused(InsufficientCards)
  {
    hide DealFrom, DecodeAll, AllDecode, Window, ReservationId, Encoders.DealShape, Encoders.DrawShape, GoodSeats,
         PendingOk, RecordsOk, CancelledOk, OrderFor, OrderCommitment, Hex.EncodeHex, RestorableDraws;
    var d := st.deck.value;
    SlotFree(c, st);
    PeekTop(d, need);
    if d.pointer + need <= |d.order| {
      WindowDecodes(d.order, d.pointer, need);
    }
  }

  /** Without room for a new reservation the state stays as it is. */
  lemma ReserveTaken(c: Ctx, st: St, op: string, kind: Kind, seats: seq<string>, perHand: int, need: int, shape: string)
    requires Inv(c, st) && ReserveArgs(op, kind, seats, perHand, need, shape) && !Free(c, st, op, shape)
    ensures st.Valid() && ReserveStep(c, st, op, kind, seats, perHand, need, shape).0 == st
  {
    hide DealFrom, DecodeAll, ReservationId, Encoders.DealShape, Encoders.DrawShape, GoodSeats;
    InvValid(c, st);
  }

  lemma ReserveKeeps(c: Ctx, st: St, op: string, kind: Kind, seats: seq<string>, perHand: int, need: int, shape: string)
    requires Inv(c, st) && ReserveArgs(op, kind, seats, perHand, need, shape)
    ensures st.Valid() && Inv(c, ReserveStep(c, st, op, kind, seats, perHand, need, shape).0)
  {
    hide Material, DealFrom, DecodeAll, ReservationId, Window, ReserveStep, PendingOk, Inv, DrawsOk;
    InvValid(c, st);
    if Free(c, st, op, shape) {
      ReserveFree(c, st, op, kind, seats, perHand, need, shape);
      var d := st.deck.value;
      if d.pointer + need <= |d.order| {
        OfferOk(c, d, op, kind, seats, perHand, need, shape);
        SlotFilled(c, st, ReserveStep(c, st, op, kind, seats, perHand, need, shape).0, ReservationId(c, op, shape));
      }
    } else {
      ReserveTaken(c, st, op, kind, seats, perHand, need, shape);
    }
  }

  lemma SlotFilled(c: Ctx, st: St, st': St, id: string)
    requires Inv(c, st) && st.deck.Some? && id in st'.pending
    requires var p := st'.pending[id];
             p.id == id && st' == st.(pending := map[p.id := p], byOp := map[p.op := p])
             && PendingOk(c, st.deck.value, p)
             && p.op !in st.confirmed && p.op !in st.cancelledOps && p.id !in st.cancelled
    ensures Inv(c, st')
  {
    hide PendingOk, ConfirmedOk, DrawsOk, ReservationId;
    assert Holds(st', st'.pending[id]);
    CancelledKept(c, st, st', st'.pending[id].op);
  }

  function TakenDeck(d: Deck, p: Pending): Deck
    requires 0 <= d.pointer && 0 <= p.count && d.pointer + p.count <= |d.order|
  {
    d.(pointer := d.pointer + p.count,
       draws := d.draws[p.op := DrawRecord(p.count, d.order[d.pointer..d.pointer + p.count], d.pointer, d.pointer + p.count)])
  }

  function TakenRecord(d: Deck, p: Pending): ConfirmedOp
  {
    ConfirmedOp(p.id, p.op, p.kind, p.seats, p.cardsPerHand, p.count, p.shape, p.deal, p.cards, d.pointer, p.remainingAfter)
  }

  /** Confirming the outstanding reservation takes exactly the window that was shown. */
  lemma ConfirmTakes(c: Ctx, st: St, id: string)
    requires Inv(c, st) && id in st.pending && id !in st.confirmedById
    ensures st.Valid() && st.deck.Some? && PendingOk(c, st.deck.value, st.pending[id])
    ensures var d, p := st.deck.value, st.pending[id];
            ConfirmStep(c, st, id) ==
            (st.(deck := Some(TakenDeck(d, p)), confirmed := st.confirmed[p.op := TakenRecord(d, p)],
                 confirmedById := st.confirmedById[id := TakenRecord(d, p)], pending := map[], byOp := map[]),
             Confirmed(false))
  {
    hide Material, ReservationId, Window, DrawsOk, RecordsOk, CancelledOk, SlotOk, OrderFor, OrderCommitment, Hex.EncodeHex;
    InvValid(c, st);
    SlotHeld(c, st, id);
    var p := st.pending[id];
    assert st.pending - {p.id} == map[] && st.byOp - {p.op} == map[];
  }

  lemma TakenOk(c: Ctx, d: Deck, p: Pending)
    requires PendingOk(c, d, p)
    ensures ConfirmedOk(c, TakenDeck(d, p), p.op, TakenRecord(d, p))
  {
    hide Material, ReservationId, Window;
  }

  lemma ConfirmKeeps(c: Ctx, st: St, id: string)
    requires Inv(c, st)
    ensures st.Valid() && Inv(c, ConfirmStep(c, st, id).0)
  {
    hide Material, ReservationId, Window, DrawsOk, ConfirmedOk, RecordsOk, OrderFor, OrderCommitment, Hex.EncodeHex;
    InvValid(c, st);
    if st.deck.Some? && id !in st.cancelled && id !in st.confirmedById && id in st.pending {
      SlotHeld(c, st, id);
      ConfirmTakes(c, st, id);
      var d, p := st.deck.value, st.pending[id];
      var st' := ConfirmStep(c, st, id).0;
      DrawTaken(d, p.op, p.count);
      TakenOk(c, d, p);
      RecordsAdded(c, st, st', p.op, TakenRecord(d, p));
      CancelledKept(c, st, st', p.op);
    }
  }

  lemma CancelledKept(c: Ctx, st: St, st': St, op: string)
    requires CancelledOk(c, st) && op !in st.cancelledOps
    requires st'.cancelled == st.cancelled && st'.cancelledOps == st.cancelledOps && st'.confirmed.Keys <= st.confirmed.Keys + {op}
    ensures CancelledOk(c, st')
  {
    hide ReservationId;
    forall x | x in st'.cancelled ensures WasCancelled(c, st', x) {
      assert WasCancelled(c, st, x);
      var o, shape :| o in st.cancelledOps && x == ReservationId(c, o, shape);
      assert o in st'.cancelledOps;
    }
  }

  lemma DrawTaken(d: Deck, op: string, count: int)
    requires DrawsOk(d) && op !in d.draws && op != "" && 0 < count && d.pointer + count <= |d.order|
    ensures DrawsOk(d.(pointer := d.pointer + count,
                       draws := d.draws[op := DrawRecord(count, d.order[d.pointer..d.pointer + count], d.pointer, d.pointer + count)]))
  {
    hide AllDecode, Chained, Positive;
    var draws' := d.draws[op := DrawRecord(count, d.order[d.pointer..d.pointer + count], d.pointer, d.pointer + count)];
    var ops :| Tiles(Spans(d.draws), ops, d.pointer);
    TilesExtend(Spans(d.draws), ops, d.pointer, op, d.pointer + count);
    assert Spans(draws') == Spans(d.draws)[op := Span(d.pointer, d.pointer + count)];
  }

  lemma RecordsAdded(c: Ctx, st: St, st': St, op: string, r: ConfirmedOp)
    requires st.deck.Some? && st'.deck.Some? && RecordsOk(c, st, st.deck.value)
    requires op !in st.deck.value.draws && r.op == op && r.reservationId !in st.confirmedById
    requires st'.confirmed == st.confirmed[op := r] && st'.confirmedById == st.confirmedById[r.reservationId := r]
    requires st'.deck.value.draws.Keys == st.deck.value.draws.Keys + {op}
    requires forall o :: o in st.deck.value.draws ==> st'.deck.value.draws[o] == st.deck.value.draws[o]
    requires st'.deck.value.order == st.deck.value.order
    requires ConfirmedOk(c, st'.deck.value, op, r)
    ensures RecordsOk(c, st', st'.deck.value)
  {
    hide ConfirmedOk;
    var d, d' := st.deck.value, st'.deck.value;
    forall o | o in st'.confirmed ensures ConfirmedOk(c, d', o, st'.confirmed[o]) {
      if o != op { ConfirmedStays(c, d, d', o, st.confirmed[o]); }
    }
    assert st.confirmed.Keys == d.draws.Keys && st'.confirmed.Keys == d'.draws.Keys;
    ConfirmedNamed(c, st, d);
  }

  lemma ConfirmedStays(c: Ctx, d: Deck, d': Deck, op: string, r: ConfirmedOp)
    requires ConfirmedOk(c, d, op, r) && op in d'.draws && d'.draws[op] == d.draws[op] && d'.order == d.order
    ensures ConfirmedOk(c, d', op, r)
  {
    hide Material, ReservationId, Window;
  }

  lemma ConfirmedNamed(c: Ctx, st: St, d: Deck)
    requires RecordsOk(c, st, d)
    ensures forall op :: op in st.confirmed ==> st.confirmed[op].op == op
  {
    hide Material, ReservationId, Window;
  }

  lemma CancelKeeps(c: Ctx, st: St, id: string)
    requires Inv(c, st)
    ensures Inv(c, CancelStep(c, st, id).0)
  {
    hide Inv, ReservationId, DrawsOk, Material, Window, CancelledOk;
    var st' := CancelStep(c, st, id).0;
    if st' != st {
      var p := st.pending[id];
      SlotHeld(c, st, id);
      assert st'.pending == map[] && st'.byOp == map[];
      CancelledAdded(c, st, st', p);
      SlotEmptied(c, st, st');
    }
  }

  lemma SlotEmptied(c: Ctx, st: St, st': St)
    requires Inv(c, st) && st.deck.Some? && CancelledOk(c, st')
    requires st' == st.(pending := map[], byOp := map[], cancelled := st'.cancelled, cancelledOps := st'.cancelledOps)
    ensures Inv(c, st')
  {
    hide DrawsOk, ConfirmedOk, CancelledOk, OrderFor, OrderCommitment, Hex.EncodeHex;
  }

  lemma CancelledAdded(c: Ctx, st: St, st': St, p: Pending)
    requires Inv(c, st) && st.deck.Some? && p.id == ReservationId(c, p.op, p.shape) && p.op !in st.confirmed
    requires st'.confirmed == st.confirmed && st'.cancelled == st.cancelled + {p.id} && st'.cancelledOps == st.cancelledOps + {p.op}
    ensures CancelledOk(c, st')
  {
    hide ReservationId, DeckOk, SlotOk, RecordsOk;
    forall x | x in st'.cancelled ensures WasCancelled(c, st', x) {
      if x == p.id {
        assert p.op in st'.cancelledOps && x == ReservationId(c, p.op, p.shape);
      } else {
        assert WasCancelled(c, st, x);
        var op, shape :| op in st.cancelledOps && x == ReservationId(c, op, shape);
        assert op in st'.cancelledOps;
      }
    }
  }

  /** Every request, accepted or refused, keeps the invariant. */
  lemma StepKeeps(c: Ctx, st: St, req: Request)
    requires Inv(c, st) && req.WellTyped()
    ensures st.Valid() && Inv(c, Step(c, st, req).0)
  {
    hide DeckOk, SlotOk, RecordsOk, CancelledOk, Inv, Encoders.DealShape, Encoders.DrawShape;
    InvValid(c, st);
    match req {
      case Initialize(seed) => InitializeKeeps(c, st, seed);
      case ReserveDeal(op, seats, cardsPerHand) =>
        var perHand := PerHand(cardsPerHand);
        var need := DealNeed(|seats|, perHand);
        if op != "" && GoodSeats(seats) && need.Some? {
          ReserveKeeps(c, st, op, Deal, seats, perHand, need.value, Encoders.DealShape(seats, perHand));
        }
      case ReserveDraw(op, count) =>
        if op != "" && count > 0 {
          ReserveKeeps(c, st, op, Draw, [], 0, count, Encoders.DrawShape(count));
        }
      case Confirm(id) => ConfirmKeeps(c, st, id);
      case Cancel(id) => CancelKeeps(c, st, id);
    }
  }

  // ---- runs

  predicate AllWellTyped(reqs: seq<Request>) { forall i :: 0 <= i < |reqs| ==> reqs[i].WellTyped() }

  /** The state after a sequence of requests, from a state that satisfies the invariant. */
  ghost function Run(c: Ctx, st: St, reqs: seq<Request>): (r: St)
    requires Inv(c, st) && AllWellTyped(reqs)
    ensures Inv(c, r)
  {
    if reqs == [] then st
    else
      var last := Run(c, st, reqs[..|reqs| - 1]);
      StepKeeps(c, last, reqs[|reqs| - 1]);
      Step(c, last, reqs[|reqs| - 1]).0
  }

  lemma StartInv(c: Ctx)
    ensures Inv(c, EMPTY)
  {}
}
