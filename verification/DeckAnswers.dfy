/** What a deck answers to its requests, said from the requests and the history alone: which confirmations and cancellations
    succeed after which others, and which reservations are granted, repeated or refused. */
module DeckAnswers {
  import opened Common
  import opened Cards
  import opened Decks
  import opened Tiling
  import opened DeckService
  import opened DeckInvariant
  import opened DeckTheorems
  import opened Spaces
  import Encoders
  import Hex

  /** One request in a state of the deck. */
  ghost function Do(c: Ctx, st: St, req: Request): (r: (St, Reply))
    requires Inv(c, st) && req.WellTyped()
    ensures Inv(c, r.0)
  {
    InvValid(c, st);
    StepKeeps(c, st, req);
    Step(c, st, req)
  }

  /** The state of a deck that started empty. */
  ghost function After(c: Ctx, reqs: seq<Request>): (st: St)
    requires AllWellTyped(reqs)
    ensures Inv(c, st)
  {
    StartInv(c);
    DeckInvariant.Run(c, EMPTY, reqs)
  }

  /** In a reachable state the request is answered like this, and leads to that state. */
  ghost predicate Does(c: Ctx, st: St, req: Request, st': St, r: Reply)
  {
    Inv(c, st) && req.WellTyped() && Do(c, st, req) == (st', r)
  }

  /** The state after some more requests. */
  ghost predicate Later(c: Ctx, st: St, more: seq<Request>, st': St)
  {
    Inv(c, st) && AllWellTyped(more) && DeckInvariant.Run(c, st, more) == st'
  }

  predicate Named(c: Ctx) { c.room != "" && c.game != "" }

  // ---- where a reservation id is

  /** One request drops no id from the cancelled or the confirmed ones; it cancels only the id that it names, and it brings in
      only the id that it answers with. */
  lemma IdsMove(c: Ctx, st: St, req: Request, x: string)
    requires Inv(c, st) && req.WellTyped()
    ensures var (st', r) := Do(c, st, req);
            && (x in st.cancelled ==> x in st'.cancelled) && (x in st.confirmedById ==> x in st'.confirmedById)
            && (x in st'.cancelled ==> x in st.cancelled || req == Cancel(x))
            && (x in st'.pending ==> x in st.pending || (r.Reserved? && r.id == x))
            && (x in st'.confirmedById ==> x in st.confirmedById || x in st.pending)
            && (x in st'.cancelled ==> x in st.cancelled || x in st.pending)
            && (st.deck.Some? ==> st'.deck.Some?)
  {
    hide Inv, ReserveStep, DealFrom, DecodeAll, Window, ReservationId, Encoders.DealShape, Encoders.DrawShape, GoodSeats, DealNeed,
         OrderFor, Hex.EncodeHex, OrderCommitment, DrawsOk, PendingOk;
    InvValid(c, st);
    match req {
      case Initialize(seed) =>
      case ReserveDeal(_, _, _) => ReservedIds(c, st, req);
      case ReserveDraw(_, _) => ReservedIds(c, st, req);
      case Confirm(id) => if id in st.pending { SlotHeld(c, st, id); }
      case Cancel(id) => if id in st.pending { SlotHeld(c, st, id); }
    }
  }

  lemma ReservedIds(c: Ctx, st: St, req: Request)
    requires Inv(c, st) && st.Valid() && req.WellTyped() && (req.ReserveDeal? || req.ReserveDraw?)
    ensures var (st', r) := Step(c, st, req);
            && st' == st.(pending := st'.pending, byOp := st'.byOp)
            && (st' != st ==> r.Reserved? && st'.pending.Keys == {r.id})
  {
    hide Inv, Step, ReserveStep, ReservationId, DealFrom, DecodeAll, Window, ShapeOf, GoodSeats, DrawsOk;
    ProperStep(c, st, req);
    if Proper(req) {
      var (op, kind, seats, perHand, need, shape) := (req.op, KindOf(req), SeatsOf(req), PerHandOf(req), NeedOf(req).value, ShapeOf(req));
      if Free(c, st, op, shape) {
        ReserveFree(c, st, op, kind, seats, perHand, need, shape);
      } else {
        ReserveTaken(c, st, op, kind, seats, perHand, need, shape);
      }
    }
  }

  lemma {:induction false} IdsStay(c: Ctx, st: St, more: seq<Request>, x: string)
    requires Inv(c, st) && AllWellTyped(more)
    ensures var st' := DeckInvariant.Run(c, st, more);
            && (x in st.cancelled ==> x in st'.cancelled) && (x in st.confirmedById ==> x in st'.confirmedById)
            && (x in st'.cancelled && Cancel(x) !in more ==> x in st.cancelled)
            && (st.deck.Some? ==> st'.deck.Some?)
  {
    hide Inv, Step;
    if more != [] {
      var n := |more| - 1;
      IdsStay(c, st, more[..n], x);
      IdsMove(c, DeckInvariant.Run(c, st, more[..n]), more[n], x);
      assert more[n] in more && forall q :: q in more[..n] ==> q in more;
    }
  }

  /** No request was answered with this reservation id. */
  ghost predicate NeverGiven(c: Ctx, reqs: seq<Request>, id: string)
    requires AllWellTyped(reqs)
  {
    forall i :: 0 <= i < |reqs| ==> !(Do(c, After(c, reqs[..i]), reqs[i]).1.Reserved? && Do(c, After(c, reqs[..i]), reqs[i]).1.id == id)
  }

  lemma {:induction false} NeverGivenIsUnknown(c: Ctx, reqs: seq<Request>, id: string)
    requires AllWellTyped(reqs) && NeverGiven(c, reqs, id)
    ensures var st := After(c, reqs); id !in st.pending && id !in st.confirmedById && id !in st.cancelled
  {
    hide Inv, Step, Do;
    if reqs != [] {
      var n := |reqs| - 1;
      forall i | 0 <= i < n
        ensures !(Do(c, After(c, reqs[..n][..i]), reqs[..n][i]).1.Reserved? && Do(c, After(c, reqs[..n][..i]), reqs[..n][i]).1.id == id)
      {
        assert reqs[..n][..i] == reqs[..i];
      }
      NeverGivenIsUnknown(c, reqs[..n], id);
      IdsMove(c, After(c, reqs[..n]), reqs[n], id);
      assert !(Do(c, After(c, reqs[..n]), reqs[n]).1.Reserved? && Do(c, After(c, reqs[..n]), reqs[n]).1.id == id);
      OneMore(c, reqs);
    }
  }

  lemma OneMore(c: Ctx, reqs: seq<Request>)
    requires reqs != [] && AllWellTyped(reqs)
    ensures After(c, reqs) == Do(c, After(c, reqs[..|reqs| - 1]), reqs[|reqs| - 1]).0
  {
    hide Inv, Step;
  }

  // ---- confirming and cancelling, over runs

  /** A cancelled reservation can never be confirmed: whatever was requested since, the confirmation is refused as a conflict, and
      changes nothing. Cancelling it again is done at once. */
  lemma CancelIsFinal(c: Ctx, st: St, id: string, st1: St, r: Reply, more: seq<Request>, st2: St)
    requires id in st.pending && Does(c, st, Cancel(id), st1, r) && Later(c, st1, more, st2)
    ensures r == CancelDone && id !in st1.pending
    ensures Does(c, st2, Confirm(id), st2, Refused(ConflictingDuplicate))
    ensures Does(c, st2, Cancel(id), st2, CancelDone)
  {
    hide Inv, DeckInvariant.Run, DrawsOk, PendingOk;
    PendingNamed(c, st, id);
    SlotHeld(c, st, id);
    CancelRestores(c, st, id);
    IdsStay(c, st1, more, id);
  }

  /** A confirmation that settled something is repeated as a duplicate ever after, and changes nothing, as long as nobody
      cancels the same id; a cancellation of a settled id is a no-op unless it is outstanding again. */
  lemma ConfirmIsFinal(c: Ctx, st: St, id: string, st1: St, more: seq<Request>, st2: St)
    requires Does(c, st, Confirm(id), st1, Confirmed(false)) && Later(c, st1, more, st2)
    ensures id in st.pending && id !in st.cancelled
    ensures Does(c, st2, Confirm(id), st2, if id in st2.cancelled then Refused(ConflictingDuplicate) else Confirmed(true))
    ensures Cancel(id) !in more ==> id !in st2.cancelled
    ensures id !in st2.pending ==> Does(c, st2, Cancel(id), st2, CancelDone)
  {
    hide Inv, DeckInvariant.Run, DrawsOk, PendingOk, Decks.Deck.Drawn;
    OnlyPendingConfirms(c, st, id);
    PendingNamed(c, st, id);
    SlotHeld(c, st, id);
    ConfirmTakes(c, st, id);
    IdsMove(c, st, Confirm(id), id);
    IdsStay(c, st1, more, id);
  }

  lemma OnlyPendingConfirms(c: Ctx, st: St, id: string)
    requires Inv(c, st) && Do(c, st, Confirm(id)).1 == Confirmed(false)
    ensures id in st.pending && id !in st.cancelled && id !in st.confirmedById && st.deck.Some?
  {
    hide Inv, Decks.Deck.Drawn;
    InvValid(c, st);
  }

  /** An id that was never given to anybody is refused, and cancelling it does nothing, in every named room and game, with or
      without a deck. */
  lemma UnknownIsRefused(c: Ctx, reqs: seq<Request>, id: string)
    requires Named(c) && AllWellTyped(reqs) && NeverGiven(c, reqs, id)
    ensures var st := After(c, reqs);
            && Does(c, st, Confirm(id), st, Refused(InvalidCommand))
            && Does(c, st, Cancel(id), st, CancelDone)
  {
    hide Inv, After;
    NeverGivenIsUnknown(c, reqs, id);
  }

  /** Before a deck is initialised every confirmation and every valid reservation is refused, and nothing changes. */
  lemma NothingWithoutDeck(c: Ctx, st: St, req: Request)
    requires Inv(c, st) && Named(c) && st.deck.None? && req.WellTyped() && !req.Initialize?
    ensures Do(c, st, req) == (st, if req.Cancel? then CancelDone
                                   else if !req.Confirm? && req.op == "" then Refused(InvalidIdentity)
                                   else Refused(InvalidCommand))
  {
    hide GoodSeats, DealNeed, ReservationId, Encoders.DealShape, Encoders.DrawShape;
  }

  /** A deck is initialised once, by the first seed. */
  lemma InitializedOnce(c: Ctx, st: St, seed: string)
    requires Inv(c, st) && Named(c) && Initialize(seed).WellTyped()
    ensures var (st', r) := Do(c, st, Initialize(seed));
            if st.deck.Some? then st' == st && r == Refused(ConflictingDuplicate)
            else
              && r == Initialized(108, c.ideal.sha(seed)) && st'.deck.Some?
              && st'.seedHex == Hex.EncodeHex(seed) && st'.seedCommit == c.ideal.sha(seed) && st'.deck.value.seed == seed
              && multiset(st'.deck.value.order) == multiset(StandardDeck()) && Distinct(st'.deck.value.order)
              && st'.deck.value.pointer == 0 && st'.deck.value.draws == map[] && st'.pending == map[] && st'.confirmed == map[]
  {
    hide DeckOrder, OrderCommitment, Hex.EncodeHex, StandardDeck;
    DeckOrderCards(Picks(c.ideal, seed));
  }

  // ---- reserving

  /** The cards that a request needs, the default hand included. */
  function CardsNeeded(req: Request): int
    requires req.ReserveDeal? || req.ReserveDraw?
  {
    if req.ReserveDraw? then req.count else |req.seats| * (if req.cardsPerHand <= 0 then 7 else req.cardsPerHand) + 1
  }

  /** A request that can be granted at all: a named operation, and either a positive count, or two or more seats that differ, are
      not blank and do not ask for more cards than a machine integer can count. */
  predicate Sensible(req: Request)
    requires req.ReserveDeal? || req.ReserveDraw?
  {
    && req.op != "" && 0 < CardsNeeded(req) <= MAX_INT
    && (req.ReserveDeal? ==>
          && |req.seats| >= 2
          && (forall i :: 0 <= i < |req.seats| ==> Trim(req.seats[i]) != "")
          && (forall i, j :: 0 <= i < j < |req.seats| ==> req.seats[i] != req.seats[j]))
  }

  lemma SensibleIsProper(req: Request)
    requires (req.ReserveDeal? || req.ReserveDraw?) && req.WellTyped()
    ensures Sensible(req) <==> Proper(req)
    ensures Proper(req) ==> NeedOf(req) == Some(CardsNeeded(req))
  {
    hide Trim;
    if req.ReserveDeal? && |req.seats| > 0 { DealNeedExact(|req.seats|, PerHand(req.cardsPerHand)); }
  }

  /** The operation holds a reservation of this very form. */
  predicate Holding(st: St, req: Request)
    requires req.ReserveDeal? || (req.ReserveDraw? && req.count >= 0)
  {
    GrantOf(st, req.op).Some? && GrantOf(st, req.op).value.kind == KindOf(req) && GrantOf(st, req.op).value.shape == ShapeOf(req)
  }

  /** The card at a place of the order. */
  predicate IsCardAt(order: seq<string>, i: int, card: Card) { 0 <= i < |order| && DecodeCard(order[i]) == Some(card) }

  /** The cards from a place on. */
  predicate AreCardsAt(order: seq<string>, i: int, cards: seq<Card>) { forall k :: 0 <= k < |cards| ==> IsCardAt(order, i + k, cards[k]) }

  /** The material of a deal whose cards start at a place of the order: the next hand for every seat in turn, then the card on top
      of the discard pile, whose colour is the active one unless the card is wild. */
  predicate IsDealAt(order: seq<string>, from: int, seats: seq<string>, h: int, m: DealMaterial)
  {
    && m.hands.Keys == (set s | s in seats)
    && (forall i :: 0 <= i < |seats| ==> |m.hands[seats[i]]| == h && AreCardsAt(order, from + i * h, m.hands[seats[i]]))
    && IsCardAt(order, from + |seats| * h, m.discardTop)
    && m.activeColor == (if m.discardTop.face == "wild" || m.discardTop.face == "wild_draw_four" then "red" else m.discardTop.color)
    && m.currentSeat == 0 && m.direction == "clockwise" && !m.applyTopEffects
  }

  /** What a fresh grant shows: the next cards for a draw, the next deal for a deal. */
  predicate ShowsNext(d: Deck, req: Request, r: Reply)
    requires (req.ReserveDeal? || req.ReserveDraw?) && r.Reserved?
  {
    if req.ReserveDraw? then r.deal.None? && |r.cards| == req.count && AreCardsAt(d.order, d.pointer, r.cards)
    else
      && r.cards == [] && r.deal.Some?
      && IsDealAt(d.order, d.pointer, req.seats, if req.cardsPerHand <= 0 then 7 else req.cardsPerHand, r.deal.value)
  }

  lemma WindowAt(order: seq<string>, from: int, count: int)
    requires AllDecode(order) && 0 <= from <= from + count <= |order|
    ensures |Window(order, from, count)| == count
    ensures forall k :: 0 <= k < count ==> IsCardAt(order, from + k, Window(order, from, count)[k])
  {
    hide DecodeCard, DecodeAll;
    WindowDecodes(order, from, count);
    var (raw, w) := (order[from..from + count], Window(order, from, count));
    DecodedEach(raw, w);
    forall k | 0 <= k < count ensures IsCardAt(order, from + k, w[k]) { assert raw[k] == order[from + k]; }
  }

  lemma DecodedEach(raw: seq<string>, w: seq<Card>)
    requires DecodeAll(raw) == Some(w)
    ensures |w| == |raw| && forall k :: 0 <= k < |raw| ==> DecodeCard(raw[k]) == Some(w[k])
  {
    hide DecodeCard;
  }

  lemma {:induction false} HandKeys(seats: seq<string>, perHand: nat, cards: seq<Card>)
    requires |seats| * perHand <= |cards|
    ensures Hands(seats, perHand, cards).Keys == set s | s in seats
    decreases |seats|
  {
    if seats != [] {
      var n := |seats| - 1;
      assert n * perHand + perHand == |seats| * perHand;
      HandKeys(seats[..n], perHand, cards);
      assert seats == seats[..n] + [seats[n]];
    }
  }

  lemma OfferShows(c: Ctx, d: Deck, req: Request)
    requires Proper(req) && DrawsOk(d) && d.pointer + NeedOf(req).value <= |d.order|
    requires ReserveArgs(req.op, KindOf(req), SeatsOf(req), PerHandOf(req), NeedOf(req).value, ShapeOf(req))
    requires |Window(d.order, d.pointer, NeedOf(req).value)| == NeedOf(req).value
    ensures var p := Offer(c, d, req.op, KindOf(req), SeatsOf(req), PerHandOf(req), NeedOf(req).value, ShapeOf(req));
            ShowsNext(d, req, Reserved(false, p.id, p.deal, p.cards, p.remainingAfter))
  {
    hide Window, ReservationId, Encoders.DealShape, Encoders.DrawShape, IsCardAt, IsDealAt, GoodSeats, Hands, Contiguous, RestorableDraws,
         DealFrom;
    var w := Window(d.order, d.pointer, NeedOf(req).value);
    WindowAt(d.order, d.pointer, NeedOf(req).value);
    if req.ReserveDeal? {
      SeatsDiffer(req.seats);
      DealIsThere(d.order, d.pointer, w, req.seats, PerHandOf(req));
    }
  }

  lemma DealIsThere(order: seq<string>, from: int, w: seq<Card>, seats: seq<string>, h: nat)
    requires Distinct(seats) && |seats| * h < |w| && forall k :: 0 <= k < |w| ==> IsCardAt(order, from + k, w[k])
    ensures IsDealAt(order, from, seats, h, DealFrom(seats, h, w))
  {
    hide IsCardAt, Hands;
    var hands := Hands(seats, h, w);
    HandKeys(seats, h, w);
    forall i | 0 <= i < |seats|
      ensures seats[i] in hands && |hands[seats[i]]| == h && AreCardsAt(order, from + i * h, hands[seats[i]])
    {
      HandAt(seats, h, w, i);
      HandIsThere(order, from, w, i * h, h);
    }
    assert IsCardAt(order, from + |seats| * h, w[|seats| * h]);
  }

  lemma SeatsDiffer(seats: seq<string>)
    requires GoodSeats(seats)
    ensures Distinct(seats)
  {}

  lemma HandIsThere(order: seq<string>, from: int, w: seq<Card>, a: int, h: nat)
    requires 0 <= a <= a + h <= |w| && forall k :: 0 <= k < |w| ==> IsCardAt(order, from + k, w[k])
    ensures AreCardsAt(order, from + a, w[a..a + h])
  {
    hide IsCardAt;
    var hand := w[a..a + h];
    forall k | 0 <= k < |hand| ensures IsCardAt(order, from + a + k, hand[k]) {
      assert IsCardAt(order, from + (a + k), w[a + k]) && hand[k] == w[a + k];
    }
  }

  /** Every answer to a reservation, and exactly when it is given: granted when the deck is free for it and has the cards, repeated
      when the operation already holds it, and refused otherwise, each refusal with its code. Only a grant changes anything. */
  lemma ReserveExactly(c: Ctx, st: St, req: Request)
    requires Inv(c, st) && Named(c) && (req.ReserveDeal? || req.ReserveDraw?) && req.WellTyped()
    ensures var (st', r) := Do(c, st, req);
            && (st' == st || (r.Reserved? && !r.duplicate))
            && (r == Refused(InvalidIdentity) <==> req.op == "")
            && (r == Refused(InvalidCommand) <==> req.op != "" && (!Sensible(req) || st.deck.None?))
            && (Sensible(req) && st.deck.Some? ==>
                  var d := st.deck.value;
                  var id := ReservationId(c, req.op, ShapeOf(req));
                  var dropped := req.op in st.cancelledOps || id in st.cancelled;
                  var free := !dropped && GrantOf(st, req.op).None? && st.pending == map[];
                  r == if free && d.pointer + CardsNeeded(req) > MAX_INT then Panicked
                       else if free && d.pointer + CardsNeeded(req) > |d.order| then Refused(InsufficientCards)
                       else if free then
                         if r.Reserved? then Reserved(false, id, r.deal, r.cards, |d.order| - d.pointer - CardsNeeded(req)) else Failed
                       else if !dropped && Holding(st, req) then
                         var g := GrantOf(st, req.op).value;
                         Reserved(true, g.id, g.deal, g.cards, g.remainingAfter)
                       else Refused(ConflictingDuplicate))
            && (r.Reserved? && !r.duplicate ==> st.deck.Some? && ShowsNext(st.deck.value, req, r))
  {
    hide Inv, ReserveStep, ReservationId, ShapeOf, Sensible, Proper, Step, GrantOf, ShowsNext, CardsNeeded;
    InvValid(c, st);
    SensibleIsProper(req);
    if Proper(req) {
      ProperNamed(req);
      if st.deck.None? { NothingWithoutDeck(c, st, req); } else { ProperAnswer(c, st, req); }
    } else {
      ImproperAnswer(c, st, req);
    }
  }

  lemma ProperNamed(req: Request)
    requires Proper(req)
    ensures req.op != ""
  {}

  lemma ImproperAnswer(c: Ctx, st: St, req: Request)
    requires Inv(c, st) && (req.ReserveDeal? || req.ReserveDraw?) && req.WellTyped() && !Proper(req)
    ensures Do(c, st, req) == (st, if req.op == "" then Refused(InvalidIdentity) else Refused(InvalidCommand))
  {
    hide Inv, GoodSeats, DealNeed, Encoders.DealShape, Encoders.DrawShape, ReserveStep;
    InvValid(c, st);
  }

  lemma ProperAnswer(c: Ctx, st: St, req: Request)
    requires Inv(c, st) && st.Valid() && Named(c) && Proper(req) && st.deck.Some?
    requires NeedOf(req) == Some(CardsNeeded(req))
    ensures var (st', r) := Step(c, st, req);
            var (d, need) := (st.deck.value, CardsNeeded(req));
            var id := ReservationId(c, req.op, ShapeOf(req));
            var dropped := req.op in st.cancelledOps || id in st.cancelled;
            var free := !dropped && GrantOf(st, req.op).None? && st.pending == map[];
            if free && d.pointer + need <= |d.order| then
              r.Reserved? && r == Reserved(false, id, r.deal, r.cards, |d.order| - d.pointer - need) && ShowsNext(d, req, r)
            else
              && st' == st
              && r == (if free && d.pointer + need > MAX_INT then Panicked
                       else if free then Refused(InsufficientCards)
                       else if !dropped && Holding(st, req) then
                         var g := GrantOf(st, req.op).value; Reserved(true, g.id, g.deal, g.cards, g.remainingAfter)
                       else Refused(ConflictingDuplicate))
  {
    FreeMeans(c, st, req.op, ShapeOf(req));
    if Free(c, st, req.op, ShapeOf(req)) {
      hide *;
      FreeAnswer(c, st, req);
    } else {
      NotFreeAnswer(c, st, req);
    }
  }

  lemma FreeAnswer(c: Ctx, st: St, req: Request)
    requires Inv(c, st) && st.Valid() && Proper(req) && st.deck.Some? && NeedOf(req) == Some(CardsNeeded(req))
    requires Free(c, st, req.op, ShapeOf(req))
    ensures var (st', r) := Step(c, st, req);
            var (d, need) := (st.deck.value, CardsNeeded(req));
            if d.pointer + need <= |d.order| then
              && r.Reserved? && ShowsNext(d, req, r)
              && r == Reserved(false, ReservationId(c, req.op, ShapeOf(req)), r.deal, r.cards, |d.order| - d.pointer - need)
            else st' == st && r == if d.pointer + need > MAX_INT then Panicked else Refused(InsufficientCards)
  {
    WellTypedProper(req);
    PositiveNeed(req);
    ProperStep(c, st, req);
    hide Proper, Inv, Step, ReserveStep, ShowsNext, Free, DrawsOk, ReserveArgs, ShapeOf, NeedOf, KindOf, SeatsOf, PerHandOf, CardsNeeded,
         ReservationId, GoodSeats, DealNeed;
    InvValid(c, st);
    DrawsInside(st.deck.value);
    FreeStep(c, st, req, CardsNeeded(req), Step(c, st, req).0, Step(c, st, req).1);
  }

  lemma FreeStep(c: Ctx, st: St, req: Request, need: int, st': St, r: Reply)
    requires Inv(c, st) && Proper(req) && req.WellTyped() && st.deck.Some? && NeedOf(req) == Some(need) && 0 < need
    requires Free(c, st, req.op, ShapeOf(req)) && DrawsOk(st.deck.value) && 0 <= st.deck.value.pointer <= |st.deck.value.order|
    requires ReserveArgs(req.op, KindOf(req), SeatsOf(req), PerHandOf(req), need, ShapeOf(req))
    requires st.Valid() && ReserveStep(c, st, req.op, KindOf(req), SeatsOf(req), PerHandOf(req), need, ShapeOf(req)) == (st', r)
    ensures var d := st.deck.value;
            if d.pointer + need <= |d.order| then
              && r.Reserved? && ShowsNext(d, req, r)
              && r == Reserved(false, ReservationId(c, req.op, ShapeOf(req)), r.deal, r.cards, |d.order| - d.pointer - need)
            else st' == st && r == if d.pointer + need > MAX_INT then Panicked else Refused(InsufficientCards)
  {
    WellTypedProper(req);
    hide *;
    if st.deck.value.pointer + need <= |st.deck.value.order| {
      FreeFits(c, st, req, need, st', r);
    } else {
      FreeShort(c, st, req, need, st', r);
    }
  }

  lemma FreeFits(c: Ctx, st: St, req: Request, need: int, st': St, r: Reply)
    requires Inv(c, st) && Proper(req) && req.WellTyped() && st.deck.Some? && NeedOf(req) == Some(need) && 0 < need
    requires Free(c, st, req.op, ShapeOf(req)) && DrawsOk(st.deck.value) && 0 <= st.deck.value.pointer <= |st.deck.value.order|
    requires ReserveArgs(req.op, KindOf(req), SeatsOf(req), PerHandOf(req), need, ShapeOf(req))
    requires st.Valid() && ReserveStep(c, st, req.op, KindOf(req), SeatsOf(req), PerHandOf(req), need, ShapeOf(req)) == (st', r)
    requires st.deck.value.pointer + need <= |st.deck.value.order|
    ensures r.Reserved? && ShowsNext(st.deck.value, req, r)
    ensures r == Reserved(false, ReservationId(c, req.op, ShapeOf(req)), r.deal, r.cards, |st.deck.value.order| - st.deck.value.pointer - need)
  {
    WellTypedProper(req);
    hide Proper, Inv, ReserveStep, Offer, ShowsNext, Window, Free, DrawsOk, ReserveArgs, ShapeOf, NeedOf, KindOf, SeatsOf, PerHandOf,
         ReservationId, GoodSeats, DealNeed;
    ReserveFree(c, st, req.op, KindOf(req), SeatsOf(req), PerHandOf(req), need, ShapeOf(req));
    OfferGranted(c, st.deck.value, req, r);
  }

  lemma FreeShort(c: Ctx, st: St, req: Request, need: int, st': St, r: Reply)
    requires Inv(c, st) && Proper(req) && req.WellTyped() && st.deck.Some? && NeedOf(req) == Some(need) && 0 < need
    requires Free(c, st, req.op, ShapeOf(req)) && DrawsOk(st.deck.value) && 0 <= st.deck.value.pointer <= |st.deck.value.order|
    requires ReserveArgs(req.op, KindOf(req), SeatsOf(req), PerHandOf(req), need, ShapeOf(req))
    requires st.Valid() && ReserveStep(c, st, req.op, KindOf(req), SeatsOf(req), PerHandOf(req), need, ShapeOf(req)) == (st', r)
    requires st.deck.value.pointer + need > |st.deck.value.order|
    ensures st' == st && r == if st.deck.value.pointer + need > MAX_INT then Panicked else Refused(InsufficientCards)
  {
    WellTypedProper(req);
    hide Proper, Inv, ReserveStep, Offer, ShowsNext, Window, Free, DrawsOk, ReserveArgs, ShapeOf, NeedOf, KindOf, SeatsOf, PerHandOf,
         ReservationId, GoodSeats, DealNeed;
    ReserveFree(c, st, req.op, KindOf(req), SeatsOf(req), PerHandOf(req), need, ShapeOf(req));
  }

  lemma OfferGranted(c: Ctx, d: Deck, req: Request, r: Reply)
    requires Proper(req) && DrawsOk(d) && 0 <= d.pointer && 0 < NeedOf(req).value && d.pointer + NeedOf(req).value <= |d.order|
    requires ReserveArgs(req.op, KindOf(req), SeatsOf(req), PerHandOf(req), NeedOf(req).value, ShapeOf(req))
    requires |Window(d.order, d.pointer, NeedOf(req).value)| == NeedOf(req).value
    requires var p := Offer(c, d, req.op, KindOf(req), SeatsOf(req), PerHandOf(req), NeedOf(req).value, ShapeOf(req));
             r == Reserved(false, p.id, p.deal, p.cards, p.remainingAfter)
    ensures r.Reserved? && ShowsNext(d, req, r)
    ensures r == Reserved(false, ReservationId(c, req.op, ShapeOf(req)), r.deal, r.cards, |d.order| - d.pointer - NeedOf(req).value)
  {
    hide Window, DealFrom, ReservationId, ShapeOf, ShowsNext, ReserveArgs, DrawsOk, Proper;
    OfferShows(c, d, req);
    OfferNames(c, d, req);
  }

  lemma WellTypedProper(req: Request)
    requires Proper(req)
    ensures req.WellTyped() && (req.ReserveDeal? || (req.ReserveDraw? && req.count >= 0))
  {}

  lemma DrawsInside(d: Deck)
    requires DrawsOk(d)
    ensures 0 <= d.pointer <= |d.order|
  {}

  lemma OfferNames(c: Ctx, d: Deck, req: Request)
    requires Proper(req) && 0 <= d.pointer && 0 < NeedOf(req).value && d.pointer + NeedOf(req).value <= |d.order|
    requires |Window(d.order, d.pointer, NeedOf(req).value)| == NeedOf(req).value
    ensures var p := Offer(c, d, req.op, KindOf(req), SeatsOf(req), PerHandOf(req), NeedOf(req).value, ShapeOf(req));
            p.id == ReservationId(c, req.op, ShapeOf(req)) && p.remainingAfter == |d.order| - d.pointer - NeedOf(req).value
  {
    hide Window, DealFrom, ReservationId, ShapeOf;
  }

  lemma NotFreeAnswer(c: Ctx, st: St, req: Request)
    requires Inv(c, st) && st.Valid() && Named(c) && Proper(req) && st.deck.Some? && !Free(c, st, req.op, ShapeOf(req))
    ensures var (st', r) := Step(c, st, req);
            var dropped := req.op in st.cancelledOps || ReservationId(c, req.op, ShapeOf(req)) in st.cancelled;
            && st' == st
            && r == if !dropped && Holding(st, req) then
                      var g := GrantOf(st, req.op).value; Reserved(true, g.id, g.deal, g.cards, g.remainingAfter)
                    else Refused(ConflictingDuplicate)
  {
    ProperStep(c, st, req);
    hide Inv, Step, ReserveStep, ReservationId, ShapeOf, ReserveArgs, Free, Proper, GrantOf;
    ReserveTaken(c, st, req.op, KindOf(req), SeatsOf(req), PerHandOf(req), NeedOf(req).value, ShapeOf(req));
    TakenAnswer(c, st, req.op, KindOf(req), SeatsOf(req), PerHandOf(req), NeedOf(req).value, ShapeOf(req));
  }

  lemma FreeMeans(c: Ctx, st: St, op: string, shape: string)
    requires st.deck.Some?
    ensures Free(c, st, op, shape) <==>
              ReservationId(c, op, shape) !in st.cancelled && op !in st.cancelledOps && GrantOf(st, op).None? && st.pending == map[]
  {
    hide ReservationId;
  }

  lemma PositiveNeed(req: Request)
    requires Proper(req)
    ensures 0 < NeedOf(req).value
  {}

  /** What is answered when the operation is not free. */
  lemma TakenAnswer(c: Ctx, st: St, op: string, kind: Kind, seats: seq<string>, perHand: int, need: int, shape: string)
    requires Inv(c, st) && st.Valid() && Named(c) && st.deck.Some? && ReserveArgs(op, kind, seats, perHand, need, shape)
    requires !Free(c, st, op, shape)
    ensures var g := GrantOf(st, op);
            ReserveStep(c, st, op, kind, seats, perHand, need, shape).1 ==
              if op !in st.cancelledOps && ReservationId(c, op, shape) !in st.cancelled
                 && g.Some? && g.value.kind == kind && g.value.shape == shape
              then Reserved(true, g.value.id, g.value.deal, g.value.cards, g.value.remainingAfter)
              else Refused(ConflictingDuplicate)
  {
    hide Inv, Window, ReservationId, GoodSeats, DealNeed, DealFrom, DecodeAll, DrawsOk, PendingOk, ConfirmedOk;
    hide Encoders.DealShape, Encoders.DrawShape;
    if op in st.confirmed { SettledGrant(c, st, op); }
    if op in st.byOp { HeldGrant(c, st, op); }
  }
}
