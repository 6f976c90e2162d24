/** The reservation machine of one deck (service.go, store.go): initialize, reserve, confirm, cancel. */
module DeckService {
  import opened Common
  import opened Cards
  import opened Decks
  import opened Spaces
  import Encoders
  import Hex

  /** SHA-256 with hex output, and the shuffle's counter generator, as ideal functions. */
  datatype Ideal = Ideal(sha: string -> string, pick: (string, nat) -> nat)

  /** What the methods of one deck share. */
  datatype Ctx = Ctx(ideal: Ideal, room: string, game: string)

  /** reservationKind: a string; restored snapshots may hold any text. */
  datatype Kind = Deal | Draw | OtherKind(text: string)

  datatype DealMaterial = DealMaterial(hands: map<string, seq<Card>>, discardTop: Card, activeColor: string,
                                       currentSeat: int, direction: string, applyTopEffects: bool)

  datatype Pending = Pending(id: string, roomId: string, gameId: string, op: string, kind: Kind, seats: seq<string>,
                             cardsPerHand: int, count: int, cardCount: int, deal: Option<DealMaterial>,
                             cards: seq<Card>, shape: string, remainingAfter: int)

  datatype ConfirmedOp = ConfirmedOp(reservationId: string, op: string, kind: Kind, seats: seq<string>,
                                     cardsPerHand: int, count: int, shape: string, deal: Option<DealMaterial>,
                                     cards: seq<Card>, fromPointer: int, remainingAfter: int)

  /** The value of a DeckState. */
  datatype St = St(deck: Option<Deck>, seedHex: string, seedCommit: string, orderCommit: string,
                   pending: map<string, Pending>, byOp: map<string, Pending>,
                   confirmed: map<string, ConfirmedOp>, confirmedById: map<string, ConfirmedOp>,
                   cancelled: set<string>, cancelledOps: set<string>)
  {
    predicate Valid() { deck.Some? ==> deck.value.Valid() && |deck.value.order| == DECK_SIZE }
  }

  const EMPTY: St := St(None, "", "", "", map[], map[], map[], map[], {}, {})

  datatype Request =
    | Initialize(seed: string)
    | ReserveDeal(op: string, seats: seq<string>, cardsPerHand: int)
    | ReserveDraw(op: string, count: int)
    | Confirm(reservationId: string)
    | Cancel(reservationId: string)
  {
    /** Numbers are Go ints, and a seed is the 32 random bytes that the callback draws. */
    predicate WellTyped() {
      match this
      case Initialize(seed) => |seed| == 32 && Hex.IsBytes(seed)
      case ReserveDeal(_, seats, perHand) => perHand <= MAX_INT && |seats| <= MAX_INT
      case ReserveDraw(_, count) => count <= MAX_INT
      case _ => true
    }
  }

  datatype Reply =
    | Initialized(remaining: int, seedCommitment: string)
    | Reserved(duplicate: bool, id: string, deal: Option<DealMaterial>, cards: seq<Card>, remainingAfter: int)
    | Confirmed(duplicate: bool)
    | CancelDone
    | Refused(code: Rejection)
    | Failed
    | Panicked

  // ---- values the callbacks compute

  const DEFAULT_CARDS_PER_HAND: int := 7

  function Picks(ideal: Ideal, seed: string): nat -> nat { (i: nat) => ideal.pick(seed, i) }

  function OrderFor(ideal: Ideal, seed: string): (o: seq<string>)
    ensures |o| == DECK_SIZE
  {
    DeckOrder(Picks(ideal, seed))
  }

  function OrderText(cards: seq<string>): string
  {
    if cards == [] then "" else OrderText(cards[..|cards| - 1]) + cards[|cards| - 1] + Encoders.NUL
  }

  function OrderCommitment(ideal: Ideal, cards: seq<string>): string { ideal.sha(OrderText(cards)) }

  function ReservationId(c: Ctx, op: string, shape: string): string
  {
    "res-" + c.ideal.sha(Encoders.ReservationPreimage(c.room, c.game, op, shape))
  }

  /** checkedDealNeed: seats * cardsPerHand + 1, unless that overflows a Go int. */
  function DealNeed(seats: int, perHand: int): (need: Option<int>)
    ensures need.Some? ==> 0 < need.value <= MAX_INT && need.value == seats * perHand + 1
  {
    if seats <= 0 || perHand <= 0 then None
    else if seats > MAX_INT / perHand then None
    else if seats * perHand > MAX_INT - 1 then None
    else Some(seats * perHand + 1)
  }

  /** The guard divides instead of multiplying, and still excludes exactly the overflowing needs. */
  lemma DealNeedExact(seats: int, perHand: int)
    requires seats > 0 && perHand > 0
    ensures DealNeed(seats, perHand) == if seats * perHand + 1 <= MAX_INT then Some(seats * perHand + 1) else None
  {
    var q := MAX_INT / perHand;
    QuotientBound(MAX_INT, perHand, q);
    if seats > q {
      MulMonotone(q + 1, seats, perHand);
      assert (q + 1) * perHand == q * perHand + perHand;
    }
  }

  lemma QuotientBound(m: int, d: int, q: int)
    requires d > 0 && m >= 0 && q == m / d
    ensures q * d <= m < q * d + d
  {}

  lemma MulMonotone(a: int, b: int, d: int)
    requires a <= b && d > 0
    ensures a * d <= b * d
  {}

  predicate GoodSeats(seats: seq<string>)
  {
    && |seats| >= 2
    && (forall i :: 0 <= i < |seats| ==> !Blank(seats[i]))
    && Distinct(seats)
  }

  method ValidateDealSeats(seats: seq<string>) returns (ok: bool)
    ensures ok == GoodSeats(seats)
  {
    if |seats| < 2 { return false; }
    var seen: set<string> := {};
    for i := 0 to |seats|
      invariant forall j :: 0 <= j < i ==> !Blank(seats[j])
      invariant Distinct(seats[..i]) && forall s :: s in seen <==> s in seats[..i]
    {
      if Blank(seats[i]) { return false; }
      if seats[i] in seen {
        var j :| 0 <= j < i && seats[..i][j] == seats[i];
        assert seats[j] == seats[i];
        return false;
      }
      seen := seen + {seats[i]};
      assert seats[..i + 1] == seats[..i] + [seats[i]];
    }
    assert seats[..|seats|] == seats;
    return true;
  }

  predicate IsWildFace(face: string) { face == "wild" || face == "wild_draw_four" }

  /** Consecutive hands for the seats. */
  function Hands(seats: seq<string>, perHand: nat, cards: seq<Card>): map<string, seq<Card>>
    requires |seats| * perHand <= |cards|
  {
    if seats == [] then map[]
    else
      var n := |seats| - 1;
      assert n * perHand + perHand == |seats| * perHand;
      Hands(seats[..n], perHand, cards)[seats[n] := cards[n * perHand..n * perHand + perHand]]
  }

  function DealFrom(seats: seq<string>, perHand: nat, cards: seq<Card>): DealMaterial
    requires |seats| * perHand < |cards|
  {
    var discard := cards[|seats| * perHand];
    DealMaterial(Hands(seats, perHand, cards), discard,
                 if IsWildFace(discard.face) then "red" else discard.color, 0, "clockwise", false)
  }

  /** reconstructDealMaterial, and the same loop in ReserveDeal. */
  method BuildDeal(seats: seq<string>, perHand: nat, cards: seq<Card>) returns (deal: DealMaterial)
    requires |seats| * perHand < |cards|
    ensures deal == DealFrom(seats, perHand, cards)
  {
    var hands: map<string, seq<Card>> := map[];
    var idx := 0;
    for i := 0 to |seats|
      invariant idx == i * perHand <= |seats| * perHand
      invariant hands == Hands(seats[..i], perHand, cards)
    {
      assert (i + 1) * perHand == i * perHand + perHand;
      assert (i + 1) * perHand <= |seats| * perHand;
      assert seats[..i + 1][..i] == seats[..i];
      hands := hands[seats[i] := cards[idx..idx + perHand]];
      idx := idx + perHand;
    }
    assert seats[..|seats|] == seats;
    var discard := cards[idx];
    var active := discard.color;
    if IsWildFace(discard.face) { active := "red"; }
    return DealMaterial(hands, discard, active, 0, "clockwise", false);
  }

  // ---- the operations as state transitions

  function InitializeStep(c: Ctx, st: St, seed: string): (St, Reply)
    requires Hex.IsBytes(seed)
  {
    if c.game == "" then (st, Refused(InvalidIdentity))
    else if c.room == "" then (st, Failed)
    else if st.deck.Some? then (st, Refused(ConflictingDuplicate))
    else if seed == "" then (st, Failed)
    else
      var order := OrderFor(c.ideal, seed);
      var hex := Hex.EncodeHex(seed);
      var commit := c.ideal.sha(seed);
      (st.(deck := Some(Deck(c.game, seed, order, 0, map[])), seedHex := hex, seedCommit := commit,
           orderCommit := OrderCommitment(c.ideal, order)),
       Initialized(DECK_SIZE, commit))
  }

  /** The part that ReserveDeal and ReserveDraw share, once the request is validated. */
  function ReserveStep(c: Ctx, st: St, op: string, kind: Kind, seats: seq<string>, perHand: int, need: int, shape: string): (St, Reply)
    requires st.Valid() && 0 < need <= MAX_INT
    requires kind == Deal ==> perHand > 0 && need == |seats| * perHand + 1
  {
    var id := ReservationId(c, op, shape);
    if c.room == "" || c.game == "" then (st, Failed)
    else if st.deck.None? then (st, Refused(InvalidCommand))
    else if id in st.cancelled then (st, Refused(ConflictingDuplicate))
    else if op in st.cancelledOps then (st, Refused(ConflictingDuplicate))
    else if op in st.confirmed then
      var prior := st.confirmed[op];
      if prior.kind != kind || prior.shape != shape then (st, Refused(ConflictingDuplicate))
      else (st, Reserved(true, prior.reservationId, if kind == Deal then prior.deal else None,
                         if kind == Draw then prior.cards else [], prior.remainingAfter))
    else if op in st.byOp then
      var prior := st.byOp[op];
      if prior.kind != kind || prior.shape != shape then (st, Refused(ConflictingDuplicate))
      else (st, Reserved(true, prior.id, if kind == Deal then prior.deal else None,
                         if kind == Draw then prior.cards else [], prior.remainingAfter))
    else if st.pending != map[] then (st, Refused(ConflictingDuplicate))
    else
      match st.deck.value.Peek(0, need)
      case PeekRejected(code) => (st, Refused(code))
      case PeekPanics => (st, Panicked)
      case Peeked(raw) =>
        var decoded := DecodeAll(raw);
        if decoded.None? then (st, Failed)
        else
          var cards := decoded.value;
          var after := st.deck.value.Remaining() - need;
          var deal := if kind == Deal then Some(DealFrom(seats, perHand, cards)) else None;
          var shown := if kind == Draw then cards else [];
          var p := Pending(id, c.room, c.game, op, kind, if kind == Deal then seats else [],
                           if kind == Deal then perHand else 0, need, need, deal, shown, shape, after);
          (st.(pending := st.pending[id := p], byOp := st.byOp[op := p]),
           Reserved(false, id, deal, shown, after))
  }

  function PerHand(cardsPerHand: int): int { if cardsPerHand <= 0 then DEFAULT_CARDS_PER_HAND else cardsPerHand }

  function ReserveDealStep(c: Ctx, st: St, op: string, seats: seq<string>, cardsPerHand: int): (St, Reply)
    requires st.Valid()
  {
    var perHand := PerHand(cardsPerHand);
    var need := DealNeed(|seats|, perHand);
    if op == "" then (st, Refused(InvalidIdentity))
    else if !GoodSeats(seats) then (st, Refused(InvalidCommand))
    else if need.None? then (st, Refused(InvalidCommand))
    else ReserveStep(c, st, op, Deal, seats, perHand, need.value, Encoders.DealShape(seats, perHand))
  }

  function ReserveDrawStep(c: Ctx, st: St, op: string, count: int): (St, Reply)
    requires st.Valid() && count <= MAX_INT
  {
    if op == "" then (st, Refused(InvalidIdentity))
    else if count <= 0 then (st, Refused(InvalidCommand))
    else ReserveStep(c, st, op, Draw, [], 0, count, Encoders.DrawShape(count))
  }

  function ConfirmStep(c: Ctx, st: St, id: string): (St, Reply)
    requires st.Valid()
  {
    if c.room == "" || c.game == "" then (st, Failed)
    else if st.deck.None? then (st, Refused(InvalidCommand))
    else if id in st.cancelled then (st, Refused(ConflictingDuplicate))
    else if id in st.confirmedById then (st, Confirmed(true))
    else if id !in st.pending then (st, Refused(InvalidCommand))
    else
      var p := st.pending[id];
      var (deck, out) := st.deck.value.Drawn(p.op, p.cardCount);
      if out.DrawRejected? then (st, Refused(out.code))
      else
        var rec := ConfirmedOp(id, p.op, p.kind, p.seats, p.cardsPerHand, p.count, p.shape, p.deal, p.cards,
                               st.deck.value.pointer, p.remainingAfter);
        (st.(deck := Some(deck), confirmed := st.confirmed[p.op := rec], confirmedById := st.confirmedById[id := rec],
             pending := st.pending - {id}, byOp := st.byOp - {p.op}),
         Confirmed(out.DrawDuplicate?))
  }

  function CancelStep(c: Ctx, st: St, id: string): (St, Reply)
  {
    if c.room == "" || c.game == "" then (st, Failed)
    else if id in st.cancelled then (st, CancelDone)
    else if id !in st.pending then (st, CancelDone)
    else
      var p := st.pending[id];
      (st.(cancelled := st.cancelled + {id}, cancelledOps := st.cancelledOps + {p.op},
           pending := st.pending - {id}, byOp := st.byOp - {p.op}),
       CancelDone)
  }

  function Step(c: Ctx, st: St, req: Request): (St, Reply)
    requires st.Valid() && req.WellTyped()
  {
    match req
    case Initialize(seed) => InitializeStep(c, st, seed)
    case ReserveDeal(op, seats, perHand) => ReserveDealStep(c, st, op, seats, perHand)
    case ReserveDraw(op, count) => ReserveDrawStep(c, st, op, count)
    case Confirm(id) => ConfirmStep(c, st, id)
    case Cancel(id) => CancelStep(c, st, id)
  }

  // ---- the operations as the service runs them

  method OrderCommit(ideal: Ideal, cards: seq<string>) returns (h: string)
    ensures h == OrderCommitment(ideal, cards)
  {
    var text := "";
    for i := 0 to |cards|
      invariant text == OrderText(cards[..i])
    {
      assert cards[..i + 1][..i] == cards[..i];
      text := text + cards[i] + Encoders.NUL;
    }
    assert cards[..|cards|] == cards;
    return ideal.sha(text);
  }

  class DeckState {
    const c: Ctx
    var deck: AuthoritativeDeck?
    var seedHex: string
    var seedCommit: string
    var orderCommit: string
    var pending: map<string, Pending>
    var byOp: map<string, Pending>
    var confirmed: map<string, ConfirmedOp>
    var confirmedById: map<string, ConfirmedOp>
    var cancelled: set<string>
    var cancelledOps: set<string>

    ghost function Value(): St
      reads this, deck
    {
      St(if deck == null then None else Some(deck.Value()), seedHex, seedCommit, orderCommit,
         pending, byOp, confirmed, confirmedById, cancelled, cancelledOps)
    }

    ghost predicate Valid()
      reads this, deck
    {
      Value().Valid()
    }

    /** emptyDeckState. */
    constructor (c: Ctx)
      ensures Valid() && Value() == EMPTY && this.c == c && deck == null
    {
      this.c := c;
      deck := null;
      seedHex, seedCommit, orderCommit := "", "", "";
      pending, byOp, confirmed, confirmedById := map[], map[], map[], map[];
      cancelled, cancelledOps := {}, {};
    }

    /** A literal with every field given. */
    constructor From(c: Ctx, deck: AuthoritativeDeck, seedHex: string, seedCommit: string, orderCommit: string,
                     pending: map<string, Pending>, byOp: map<string, Pending>,
                     confirmed: map<string, ConfirmedOp>, confirmedById: map<string, ConfirmedOp>,
                     cancelled: set<string>, cancelledOps: set<string>)
      ensures this.c == c && this.deck == deck
      ensures Value() == St(Some(deck.Value()), seedHex, seedCommit, orderCommit, pending, byOp, confirmed, confirmedById,
                            cancelled, cancelledOps)
    {
      this.c := c;
      this.deck := deck;
      this.seedHex, this.seedCommit, this.orderCommit := seedHex, seedCommit, orderCommit;
      this.pending, this.byOp, this.confirmed, this.confirmedById := pending, byOp, confirmed, confirmedById;
      this.cancelled, this.cancelledOps := cancelled, cancelledOps;
    }

    method InitializeDeck(seed: string) returns (r: Reply)
      requires Valid() && Hex.IsBytes(seed)
      modifies this
      ensures Valid() && (Value(), r) == InitializeStep(c, old(Value()), seed)
      ensures deck == old(deck) || fresh(deck)
    {
      hide StandardDeck, Shuffle, OrderCommitment, Hex.EncodeHex, Picks;
      if c.game == "" { return Refused(InvalidIdentity); }
      if c.room == "" { return Failed; }
      if deck != null { return Refused(ConflictingDuplicate); }
      if seed == "" { return Failed; }
      var cards := StandardDeckCards();
      var made := NewAuthoritativeDeck(c.game, seed, Picks(c.ideal, seed), cards);
      if made == null { return Failed; }
      var order := made.order;
      assert order == OrderFor(c.ideal, seed);
      deck := made;
      seedHex := Hex.EncodeHex(seed);
      seedCommit := c.ideal.sha(seed);
      orderCommit := OrderCommit(c.ideal, order);
      var remaining := deck.Remaining();
      return Initialized(remaining, seedCommit);
    }

    method ReserveDeal(op: string, seats: seq<string>, cardsPerHand: int) returns (r: Reply)
      requires Valid()
      modifies this
      ensures Valid() && (Value(), r) == ReserveDealStep(c, old(Value()), op, seats, cardsPerHand)
      ensures deck == old(deck)
    {
      hide GoodSeats, DealFrom, Encoders.DealShape, DecodeAll, Encoders.ReservationPreimage;
      if op == "" { return Refused(InvalidIdentity); }
      var good := ValidateDealSeats(seats);
      if !good { return Refused(InvalidCommand); }
      var perHand := cardsPerHand;
      if perHand <= 0 { perHand := DEFAULT_CARDS_PER_HAND; }
      var checked := DealNeed(|seats|, perHand);
      if checked.None? { return Refused(InvalidCommand); }
      var need := checked.value;
      var shape := Encoders.BuildDealShape(seats, perHand);
      var id := ReservationId(c, op, shape);
      if c.room == "" || c.game == "" { return Failed; }
      if deck == null { return Refused(InvalidCommand); }
      if id in cancelled { return Refused(ConflictingDuplicate); }
      if op in cancelledOps { return Refused(ConflictingDuplicate); }
      if op in confirmed {
        var prior := confirmed[op];
        if prior.kind != Deal || prior.shape != shape { return Refused(ConflictingDuplicate); }
        return Reserved(true, prior.reservationId, prior.deal, [], prior.remainingAfter);
      }
      if op in byOp {
        var prior := byOp[op];
        if prior.shape != shape || prior.kind != Deal { return Refused(ConflictingDuplicate); }
        return Reserved(true, prior.id, prior.deal, [], prior.remainingAfter);
      }
      if pending != map[] { return Refused(ConflictingDuplicate); }
      var raw := PeekDeck(0, need);
      if raw.PeekRejected? { return Refused(raw.code); }
      if raw.PeekPanics? { return Panicked; }
      var dtos := DecodeCards(raw.cards);
      if dtos.None? { return Failed; }
      var deal := BuildDeal(seats, perHand, dtos.value);
      var remaining := deck.Remaining();
      var p := Pending(id, c.room, c.game, op, Deal, seats, perHand, need, need, Some(deal), [], shape, remaining - need);
      pending := pending[id := p];
      byOp := byOp[op := p];
      return Reserved(false, id, Some(deal), [], remaining - need);
    }

    method PeekDeck(offset: int, count: int) returns (r: PeekResult)
      requires Valid() && deck != null
      ensures r == deck.Value().Peek(offset, count)
    {
      if count <= 0 { return PeekRejected(InvalidCommand); }
      if offset < 0 { return PeekRejected(InvalidCommand); }
      var start := Wrap64(deck.pointer + offset);
      var end := Wrap64(start + count);
      if end > |deck.order| { return PeekRejected(InsufficientCards); }
      if 0 <= start <= end { return Peeked(deck.order[start..end]); }
      return PeekPanics;
    }

    method ReserveDraw(op: string, count: int) returns (r: Reply)
      requires Valid() && count <= MAX_INT
      modifies this
      ensures Valid() && (Value(), r) == ReserveDrawStep(c, old(Value()), op, count)
      ensures deck == old(deck)
    {
      if op == "" { return Refused(InvalidIdentity); }
      if count <= 0 { return Refused(InvalidCommand); }
      var shape := Encoders.DrawShape(count);
      var id := ReservationId(c, op, shape);
      if c.room == "" || c.game == "" { return Failed; }
      if deck == null { return Refused(InvalidCommand); }
      if id in cancelled { return Refused(ConflictingDuplicate); }
      if op in cancelledOps { return Refused(ConflictingDuplicate); }
      if op in confirmed {
        var prior := confirmed[op];
        if prior.kind != Draw || prior.shape != shape { return Refused(ConflictingDuplicate); }
        return Reserved(true, prior.reservationId, None, prior.cards, prior.remainingAfter);
      }
      if op in byOp {
        var prior := byOp[op];
        if prior.shape != shape || prior.kind != Draw { return Refused(ConflictingDuplicate); }
        return Reserved(true, prior.id, None, prior.cards, prior.remainingAfter);
      }
      if pending != map[] { return Refused(ConflictingDuplicate); }
      var raw := PeekDeck(0, count);
      if raw.PeekRejected? { return Refused(raw.code); }
      if raw.PeekPanics? { return Panicked; }
      var dtos := DecodeCards(raw.cards);
      if dtos.None? { return Failed; }
      var remaining := deck.Remaining();
      var p := Pending(id, c.room, c.game, op, Draw, [], 0, count, count, None, dtos.value, shape, remaining - count);
      pending := pending[id := p];
      byOp := byOp[op := p];
      return Reserved(false, id, None, dtos.value, remaining - count);
    }

    method ConfirmReservation(id: string) returns (r: Reply)
      requires Valid()
      modifies this, deck
      ensures Valid() && (Value(), r) == ConfirmStep(c, old(Value()), id)
      ensures deck == old(deck)
    {
      if c.room == "" || c.game == "" { return Failed; }
      if deck == null { return Refused(InvalidCommand); }
      if id in cancelled { return Refused(ConflictingDuplicate); }
      if id in confirmedById { return Confirmed(true); }
      if id !in pending { return Refused(InvalidCommand); }
      var p := pending[id];
      var from := deck.pointer;
      var out := deck.Draw(p.op, p.cardCount);
      if out.DrawRejected? { return Refused(out.code); }
      var rec := ConfirmedOp(id, p.op, p.kind, p.seats, p.cardsPerHand, p.count, p.shape, p.deal, p.cards,
                             from, p.remainingAfter);
      confirmed := confirmed[p.op := rec];
      confirmedById := confirmedById[id := rec];
      pending := pending - {id};
      byOp := byOp - {p.op};
      return Confirmed(out.DrawDuplicate?);
    }

    method CancelReservation(id: string) returns (r: Reply)
      requires Valid()
      modifies this
      ensures Valid() && (Value(), r) == CancelStep(c, old(Value()), id)
      ensures deck == old(deck)
    {
      if c.room == "" || c.game == "" { return Failed; }
      if id in cancelled { return CancelDone; }
      if id !in pending { return CancelDone; }
      var p := pending[id];
      cancelled := cancelled + {id};
      cancelledOps := cancelledOps + {p.op};
      pending := pending - {id};
      byOp := byOp - {p.op};
      return CancelDone;
    }
  }
}
