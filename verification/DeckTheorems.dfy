/** Conservation of cards in the exported operations, and the life of an operation id. */
module DeckTheorems {
  import opened Common
  import opened Cards
  import opened Tiling
  import opened Decks
  import opened DeckService
  import opened DeckInvariant
  import Encoders
  import Hex
  import opened Spaces

  // ---- the export and conservation

  function HandsInOrder(hands: map<string, seq<Card>>, seats: seq<string>): seq<Card>
  {
    if seats == [] then []
    else
      var n := |seats| - 1;
      HandsInOrder(hands, seats[..n]) + if seats[n] in hands then hands[seats[n]] else []
  }

  /** The cards a confirmed operation handed out: hands in seat order then the discard, or the drawn cards. */
  function Handed(r: ConfirmedOp): seq<Card>
  {
    match r.kind
    case Draw => r.cards
    case Deal => if r.deal.None? then [] else HandsInOrder(r.deal.value.hands, r.seats) + [r.deal.value.discardTop]
    case OtherKind(_) => []
  }

  lemma {:induction false} HandsGiveAll(seats: seq<string>, perHand: nat, cards: seq<Card>, k: nat)
    requires Distinct(seats) && k <= |seats| && |seats| * perHand <= |cards|
    ensures k * perHand <= |cards|
    ensures HandsInOrder(Hands(seats, perHand, cards), seats[..k]) == cards[..k * perHand]
  {
    hide Hands, Distinct;
    MulMonotone'(k, |seats|, perHand);
    if k > 0 {
      HandsGiveAll(seats, perHand, cards, k - 1);
      var n := k - 1;
      var lo, hi := n * perHand, k * perHand;
      assert seats[..k][..n] == seats[..n];
      assert hi == lo + perHand;
      HandAt(seats, perHand, cards, n);
      assert cards[..hi] == cards[..lo] + cards[lo..hi];
    }
  }

  lemma MulMonotone'(a: nat, b: nat, d: nat)
    requires a <= b
    ensures a * d <= b * d
  {}

  lemma {:induction false} HandAt(seats: seq<string>, perHand: nat, cards: seq<Card>, i: nat)
    requires Distinct(seats) && i < |seats| && |seats| * perHand <= |cards|
    ensures i * perHand + perHand <= |cards|
    ensures seats[i] in Hands(seats, perHand, cards)
    ensures Hands(seats, perHand, cards)[seats[i]] == cards[i * perHand..i * perHand + perHand]
    decreases |seats|
  {
    var n := |seats| - 1;
    assert n * perHand + perHand == |seats| * perHand;
    MulMonotone'(i + 1, |seats|, perHand);
    assert (i + 1) * perHand == i * perHand + perHand;
    if i < n {
      HandAt(seats[..n], perHand, cards, i);
      assert seats[..n][i] == seats[i];
    }
  }

  lemma HandedIsWindow(c: Ctx, d: Deck, r: ConfirmedOp)
    requires ConfirmedOk(c, d, r.op, r)
    ensures Handed(r) == Window(d.order, r.fromPointer, r.count)
  {
    hide Window, Blank, ReservationId, Encoders.DealShape, Encoders.DrawShape;
    var w := Window(d.order, r.fromPointer, r.count);
    if r.kind == Deal {
      var n := |r.seats|;
      HandsGiveAll(r.seats, r.cardsPerHand, w, n);
      assert r.seats[..n] == r.seats;
      assert w == w[..n * r.cardsPerHand] + [w[n * r.cardsPerHand]];
    }
  }

  function RecordSpans(confirmed: map<string, ConfirmedOp>): map<string, Span>
  {
    map op | op in confirmed :: Span(confirmed[op].fromPointer, confirmed[op].fromPointer + confirmed[op].count)
  }

  function Records(confirmed: map<string, ConfirmedOp>, names: seq<string>): seq<ConfirmedOp>
    requires forall n :: n in names ==> n in confirmed
  {
    seq(|names|, i requires 0 <= i < |names| => confirmed[names[i]])
  }

  /** ops is some listing of the confirmed operations sorted by FromPointer. */
  ghost predicate IsExport(st: St, ops: seq<ConfirmedOp>)
  {
    exists names :: ExportOf(st, names, ops)
  }

  ghost predicate ExportOf(st: St, names: seq<string>, ops: seq<ConfirmedOp>)
  {
    && NoDup(names) && SameNames(RecordSpans(st.confirmed), names)
    && SortedByFrom(RecordSpans(st.confirmed), names)
    && ops == Records(st.confirmed, names)
  }

  /** The deck section of Export: range over the confirmed map in any order, then sort by FromPointer. */
  method ExportConfirmed(state: DeckState) returns (ops: seq<ConfirmedOp>)
    ensures IsExport(state.Value(), ops)
  {
    var names: seq<string> := [];
    var rest := state.confirmed.Keys;
    while rest != {}
      invariant rest <= state.confirmed.Keys
      invariant NoDup(names) && forall n :: n in names <==> n in state.confirmed.Keys - rest
      decreases rest
    {
      var op :| op in rest;
      assert op !in names;
      names := names + [op];
      rest := rest - {op};
    }
    var spans := RecordSpans(state.confirmed);
    var sorted := SortByFrom(spans, names);
    ops := Records(state.confirmed, sorted);
    assert ExportOf(state.Value(), sorted, ops);
  }

  function HandedAll(ops: seq<ConfirmedOp>): seq<Card>
  {
    if ops == [] then [] else HandedAll(ops[..|ops| - 1]) + Handed(ops[|ops| - 1])
  }

  /** The operations follow one another from 0 and stop at end. */
  predicate Consecutive(ops: seq<ConfirmedOp>, end: int)
  {
    && (ops == [] ==> end == 0)
    && (forall i :: 0 <= i < |ops| ==> ops[i].fromPointer == if i == 0 then 0 else ops[i - 1].fromPointer + ops[i - 1].count)
    && (ops != [] ==> ops[|ops| - 1].fromPointer + ops[|ops| - 1].count == end)
  }

  /** Every confirmed operation has its draw, and handed out the cards of that draw's window. */
  ghost predicate Conserving(st: St)
  {
    && st.deck.Some? && DrawsOk(st.deck.value) && Distinct(st.deck.value.order)
    && st.confirmed.Keys == st.deck.value.draws.Keys
    && forall op :: op in st.confirmed ==> RecordFits(st.deck.value, op, st.confirmed[op])
  }

  ghost predicate RecordFits(d: Deck, op: string, r: ConfirmedOp)
  {
    && op in d.draws && r.fromPointer == d.draws[op].fromPointer && r.count == d.draws[op].count
    && 0 <= r.fromPointer < r.fromPointer + r.count <= |d.order|
    && Handed(r) == Window(d.order, r.fromPointer, r.count)
  }

  /** Every reachable deck conserves. */
  lemma InvConserves(c: Ctx, st: St)
    requires Inv(c, st) && st.deck.Some?
    ensures Conserving(st)
  {
    hide Material, Window, Handed, SlotOk, CancelledOk, DrawsOk, OrderCommitment, Hex.EncodeHex, DeckOrder, ReservationId;
    var d := st.deck.value;
    OrderDecodes(c.ideal, d.seed);
    forall op | op in st.confirmed ensures RecordFits(d, op, st.confirmed[op]) {
      HandedIsWindow(c, d, st.confirmed[op]);
    }
  }

  lemma SpansAgree(st: St)
    requires Conserving(st)
    ensures RecordSpans(st.confirmed) == Spans(st.deck.value.draws)
    ensures Positive(RecordSpans(st.confirmed))
  {
    hide Window, Handed, DrawsOk, Distinct;
  }

  /** The sorted confirmed operations are the chain that covers [0, pointer). */
  lemma ExportIsChain(st: St, names: seq<string>)
    requires Conserving(st)
    requires NoDup(names) && SameNames(RecordSpans(st.confirmed), names) && SortedByFrom(RecordSpans(st.confirmed), names)
    ensures st.deck.Some? && Chained(RecordSpans(st.confirmed), names, st.deck.value.pointer)
  {
    hide RecordFits, Distinct, AllDecode;
    SpansAgree(st);
    var m := RecordSpans(st.confirmed);
    var chain :| Tiles(m, chain, st.deck.value.pointer);
    ChainIsTheSortedList(m, chain, names, st.deck.value.pointer);
  }

  /** The export does not depend on the order in which the map was walked. */
  lemma ExportUnique(st: St, a: seq<ConfirmedOp>, b: seq<ConfirmedOp>)
    requires (Conserving(st) || st.confirmed == map[]) && IsExport(st, a) && IsExport(st, b)
    ensures a == b
  {
    hide Conserving;
    var x :| ExportOf(st, x, a);
    var y :| ExportOf(st, y, b);
    assert x == [] || x[0] in RecordSpans(st.confirmed);
    assert y == [] || y[0] in RecordSpans(st.confirmed);
    if Conserving(st) {
      ExportIsChain(st, x);
      SpansAgree(st);
      ChainIsTheSortedList(RecordSpans(st.confirmed), x, y, st.deck.value.pointer);
    }
  }

  lemma {:induction false} ChainConsecutive(confirmed: map<string, ConfirmedOp>, names: seq<string>, end: int)
    requires (forall n :: n in names ==> n in confirmed) && Chained(RecordSpans(confirmed), names, end)
    ensures Consecutive(Records(confirmed, names), end)
  {
    if names != [] {
      var k := |names| - 1;
      var last := RecordSpans(confirmed)[names[k]];
      ChainConsecutive(confirmed, names[..k], last.from);
      var ops, front := Records(confirmed, names), Records(confirmed, names[..k]);
      assert forall i :: 0 <= i < k ==> ops[i] == front[i];
      assert k > 0 ==> front[k - 1].fromPointer + front[k - 1].count == last.from;
      assert last.from == ops[k].fromPointer && last.to == ops[k].fromPointer + ops[k].count;
    }
  }

  lemma {:induction false} HandedPieces(st: St, names: seq<string>, all: seq<Card>)
    requires Conserving(st) && DecodeAll(st.deck.value.order) == Some(all)
    requires forall n :: n in names ==> n in st.confirmed
    ensures forall n :: n in names ==> var s := RecordSpans(st.confirmed)[n]; 0 <= s.from <= s.to <= |all|
    ensures HandedAll(Records(st.confirmed, names)) == Pieces(all, RecordSpans(st.confirmed), names)
  {
    hide Handed, DecodeAll, Window, DrawsOk, Distinct;
    if names != [] {
      var k := |names| - 1;
      HandedPieces(st, names[..k], all);
      assert Records(st.confirmed, names)[..k] == Records(st.confirmed, names[..k]);
      var r := st.confirmed[names[k]];
      WindowIsSlice(st.deck.value.order, all, r.fromPointer, r.count);
    }
  }

  lemma WindowIsSlice(order: seq<string>, all: seq<Card>, from: int, count: int)
    requires DecodeAll(order) == Some(all) && 0 <= from <= from + count <= |order|
    ensures Window(order, from, count) == all[from..from + count]
  {
    forall i | 0 <= i < |order| ensures DecodeCard(order[i]).Some? { assert DecodeCard(order[i]) == Some(all[i]); }
    WindowDecodes(order, from, count);
    var raw := order[from..from + count];
    forall i | 0 <= i < count ensures Window(order, from, count)[i] == all[from..from + count][i] {
      assert raw[i] == order[from + i];
    }
  }

  /** Distinct cards of the order decode to distinct cards. */
  lemma DecodedDistinct(order: seq<string>, all: seq<Card>)
    requires Distinct(order) && DecodeAll(order) == Some(all)
    ensures forall i, j :: 0 <= i < j < |all| ==> all[i] != all[j]
  {
    hide DecodeCard, EncodeCard;
    forall i, j | 0 <= i < j < |all| ensures all[i] != all[j] {
      EncodeDecodeCard(order[i]);
      EncodeDecodeCard(order[j]);
    }
  }

  lemma DecodePrefix(order: seq<string>, all: seq<Card>, n: nat)
    requires DecodeAll(order) == Some(all) && n <= |order|
    ensures DecodeAll(order[..n]) == Some(all[..n])
  {
    hide DecodeCard;
    forall i | 0 <= i < n ensures DecodeCard(order[..n][i]) == Some(all[..n][i]) {
      assert order[..n][i] == order[i];
    }
    assert DecodeAll(order[..n]).value == all[..n];
  }

  lemma OrderCards(st: St)
    requires Conserving(st)
    ensures var d := st.deck.value;
            0 <= d.pointer <= |d.order| && Distinct(d.order) && DecodeAll(d.order).Some?
  {
    hide DecodeCard, RecordFits, RestorableDraws, Contiguous;
  }

  /** Conservation: the exported operations cover [0, pointer) in order, what they handed out is the
      decoded prefix of the order, and no card is handed out twice. */
  lemma ExportConserves(st: St, ops: seq<ConfirmedOp>)
    requires Conserving(st) && IsExport(st, ops)
    ensures 0 <= st.deck.value.pointer <= |st.deck.value.order|
    ensures Consecutive(ops, st.deck.value.pointer)
    ensures DecodeAll(st.deck.value.order[..st.deck.value.pointer]) == Some(HandedAll(ops))
    ensures forall i, j :: 0 <= i < j < |HandedAll(ops)| ==> HandedAll(ops)[i] != HandedAll(ops)[j]
  {
    hide RecordFits, DrawsOk, DecodeAll, Handed, HandedAll, Consecutive, Chained, Pieces, Distinct;
    var d := st.deck.value;
    OrderCards(st);
    var names :| ExportOf(st, names, ops);
    ExportIsChain(st, names);
    ChainConsecutive(st.confirmed, names, d.pointer);
    var all := DecodeAll(d.order).value;
    HandedPieces(st, names, all);
    PiecesTile(all, RecordSpans(st.confirmed), names, d.pointer);
    assert HandedAll(ops) == all[..d.pointer];
    DecodePrefix(d.order, all, d.pointer);
    DecodedDistinct(d.order, all);
  }

  // ---- the life of an operation

  /** An operation is in at most one of the three places. */
  lemma OnePlace(c: Ctx, st: St, op: string)
    requires Inv(c, st)
    ensures !(op in st.byOp && op in st.confirmed) && !(op in st.byOp && op in st.cancelledOps)
    ensures !(op in st.confirmed && op in st.cancelledOps)
  {
    hide Material, PendingOk, ConfirmedOk, DrawsOk, OrderFor, OrderCommitment, Hex.EncodeHex;
    if op in st.byOp && st.deck.Some? {
      var p :| Holds(st, p) && p.op !in st.confirmed && p.op !in st.cancelledOps;
    }
  }

  datatype Phase = Fresh | Outstanding | Settled | Dropped

  function PhaseOf(st: St, op: string): Phase
  {
    if op in st.cancelledOps then Dropped
    else if op in st.confirmed then Settled
    else if op in st.byOp then Outstanding
    else Fresh
  }

  /** What was reserved for an operation that is outstanding or confirmed. */
  datatype Grant = Grant(id: string, kind: Kind, shape: string, deal: Option<DealMaterial>, cards: seq<Card>, remainingAfter: int)

  function GrantOf(st: St, op: string): Option<Grant>
  {
    if op in st.confirmed then
      var r := st.confirmed[op];
      Some(Grant(r.reservationId, r.kind, r.shape, r.deal, r.cards, r.remainingAfter))
    else if op in st.byOp then
      var p := st.byOp[op];
      Some(Grant(p.id, p.kind, p.shape, p.deal, p.cards, p.remainingAfter))
    else None
  }

  /** The only moves are fresh to outstanding, and outstanding to settled or dropped; what was granted stays granted. */
  lemma PhaseMoves(c: Ctx, st: St, req: Request, op: string)
    requires Inv(c, st) && req.WellTyped()
    ensures st.Valid()
    ensures var st' := Step(c, st, req).0;
            var (a, b) := (PhaseOf(st, op), PhaseOf(st', op));
            && (a == b || (a == Fresh && b == Outstanding) || (a == Outstanding && (b == Settled || b == Dropped)))
            && (a != Fresh && b != Dropped ==> GrantOf(st', op) == GrantOf(st, op))
            && st.cancelled <= st'.cancelled
  {
    hide Inv, DealFrom, DecodeAll, Window, ReservationId, Encoders.DealShape, Encoders.DrawShape, GoodSeats,
         DealNeed, OrderFor, Hex.EncodeHex, OrderCommitment, InitializeStep, ReserveStep, ConfirmStep, PhaseOf, GrantOf;
    InvValid(c, st);
    match req {
      case Initialize(seed) =>
        InitializeMoves(c, st, seed, op);
      case ReserveDeal(o, seats, cardsPerHand) =>
        var perHand := PerHand(cardsPerHand);
        var need := DealNeed(|seats|, perHand);
        if o != "" && GoodSeats(seats) && need.Some? {
          ReserveMoves(c, st, o, Deal, seats, perHand, need.value, Encoders.DealShape(seats, perHand), op);
        } else {
          Same(st, op);
        }
      case ReserveDraw(o, count) =>
        if o != "" && count > 0 {
          ReserveMoves(c, st, o, Draw, [], 0, count, Encoders.DrawShape(count), op);
        } else {
          Same(st, op);
        }
      case Confirm(id) => ConfirmMoves(c, st, id, op);
      case Cancel(id) => CancelMoves(c, st, id, op);
    }
  }

  ghost predicate Moves(st: St, st': St, op: string)
  {
    var (a, b) := (PhaseOf(st, op), PhaseOf(st', op));
    && (a == b || (a == Fresh && b == Outstanding) || (a == Outstanding && (b == Settled || b == Dropped)))
    && (a != Fresh && b != Dropped ==> GrantOf(st', op) == GrantOf(st, op))
    && st.cancelled <= st'.cancelled
  }

  lemma Same(st: St, op: string)
    ensures Moves(st, st, op)
  {}

  lemma InitializeMoves(c: Ctx, st: St, seed: string, op: string)
    requires Inv(c, st) && Hex.IsBytes(seed)
    ensures Moves(st, InitializeStep(c, st, seed).0, op)
  {
    hide Inv, OrderFor, Hex.EncodeHex, OrderCommitment;
  }

  lemma ReserveMoves(c: Ctx, st: St, o: string, kind: Kind, seats: seq<string>, perHand: int, need: int, shape: string, op: string)
    requires Inv(c, st) && ReserveArgs(o, kind, seats, perHand, need, shape)
    ensures st.Valid() && Moves(st, ReserveStep(c, st, o, kind, seats, perHand, need, shape).0, op)
  {
    hide Inv, ReserveStep, DealFrom, Window, ReservationId, ReserveArgs, DrawsOk;
    InvValid(c, st);
    if Free(c, st, o, shape) {
      ReserveFree(c, st, o, kind, seats, perHand, need, shape);
      SlotFree(c, st);
    } else {
      ReserveTaken(c, st, o, kind, seats, perHand, need, shape);
    }
  }

  lemma ConfirmMoves(c: Ctx, st: St, id: string, op: string)
    requires Inv(c, st)
    ensures st.Valid() && Moves(st, ConfirmStep(c, st, id).0, op)
  {
    hide Inv, PendingOk, DrawsOk;
    InvValid(c, st);
    if id in st.pending && id !in st.confirmedById {
      SlotHeld(c, st, id);
      ConfirmTakes(c, st, id);
    }
  }

  lemma CancelMoves(c: Ctx, st: St, id: string, op: string)
    requires Inv(c, st)
    ensures Moves(st, CancelStep(c, st, id).0, op)
  {
    hide Inv, PendingOk, DrawsOk;
    if id in st.pending { SlotHeld(c, st, id); }
  }

  lemma {:induction false} RunMoves(c: Ctx, st: St, reqs: seq<Request>, op: string)
    requires Inv(c, st) && AllWellTyped(reqs)
    ensures st.cancelled <= Run(c, st, reqs).cancelled
    ensures op in st.cancelledOps ==> op in Run(c, st, reqs).cancelledOps
    ensures PhaseOf(st, op) != Fresh && PhaseOf(Run(c, st, reqs), op) != Dropped ==>
              PhaseOf(Run(c, st, reqs), op) != Fresh && GrantOf(Run(c, st, reqs), op) == GrantOf(st, op)
  {
    hide Inv, GrantOf, Step;
    if reqs != [] {
      RunMoves(c, st, reqs[..|reqs| - 1], op);
      PhaseMoves(c, Run(c, st, reqs[..|reqs| - 1]), reqs[|reqs| - 1], op);
    }
  }

  // ---- repeats of a reservation

  function KindOf(req: Request): Kind { if req.ReserveDeal? then Deal else Draw }

  function SeatsOf(req: Request): seq<string> { if req.ReserveDeal? then req.seats else [] }

  function PerHandOf(req: Request): int { if req.ReserveDeal? then PerHand(req.cardsPerHand) else 0 }

  function NeedOf(req: Request): Option<int>
    requires req.ReserveDeal? || req.ReserveDraw?
  {
    if req.ReserveDeal? then DealNeed(|req.seats|, PerHand(req.cardsPerHand))
    else if req.count > 0 then Some(req.count) else None
  }

  function ShapeOf(req: Request): string
    requires req.ReserveDeal? || (req.ReserveDraw? && req.count >= 0)
  {
    if req.ReserveDeal? then Encoders.DealShape(req.seats, PerHand(req.cardsPerHand)) else Encoders.DrawShape(req.count)
  }

  /** A reservation request that passes the validation before the stored state is read. */
  predicate Proper(req: Request)
  {
    && (req.ReserveDeal? || req.ReserveDraw?) && req.WellTyped()
    && req.op != "" && NeedOf(req).Some? && (req.ReserveDeal? ==> GoodSeats(req.seats))
  }

  lemma ProperStep(c: Ctx, st: St, req: Request)
    requires st.Valid() && req.WellTyped() && (req.ReserveDeal? || req.ReserveDraw?)
    ensures Proper(req) ==>
              && ReserveArgs(req.op, KindOf(req), SeatsOf(req), PerHandOf(req), NeedOf(req).value, ShapeOf(req))
              && Step(c, st, req)
                 == ReserveStep(c, st, req.op, KindOf(req), SeatsOf(req), PerHandOf(req), NeedOf(req).value, ShapeOf(req))
    ensures !Proper(req) ==> Step(c, st, req).1.Refused? && Step(c, st, req).0 == st
  {
    hide ReserveStep, GoodSeats, Encoders.DealShape, Encoders.DrawShape;
  }

  /** A reply that reserves something shows what is then granted to the operation, under the id of its shape. */
  lemma Granted(c: Ctx, st: St, op: string, kind: Kind, seats: seq<string>, perHand: int, need: int, shape: string)
    requires Inv(c, st) && ReserveArgs(op, kind, seats, perHand, need, shape) && st.Valid()
    requires ReserveStep(c, st, op, kind, seats, perHand, need, shape).1.Reserved?
    ensures var (st', r) := ReserveStep(c, st, op, kind, seats, perHand, need, shape);
            && (PhaseOf(st', op) == Outstanding || PhaseOf(st', op) == Settled)
            && r.id == ReservationId(c, op, shape)
            && GrantOf(st', op) == Some(Grant(r.id, kind, shape, r.deal, r.cards, r.remainingAfter))
  {
    hide Inv, Window, ReservationId, GoodSeats, DealNeed, DealFrom, DecodeAll, DrawsOk, PendingOk, ConfirmedOk;
    hide Encoders.DealShape, Encoders.DrawShape;
    if Free(c, st, op, shape) {
      ReserveFree(c, st, op, kind, seats, perHand, need, shape);
    } else {
      if op in st.confirmed { SettledGrant(c, st, op); }
      if op in st.byOp { HeldGrant(c, st, op); }
    }
  }

  /** A draw grants no hands and a deal no loose cards. */
  ghost predicate OneForm(kind: Kind, deal: Option<DealMaterial>, cards: seq<Card>)
  {
    (kind == Draw ==> deal == None) && (kind == Deal ==> cards == [])
  }

  lemma HeldGrant(c: Ctx, st: St, op: string)
    requires Inv(c, st) && op in st.byOp
    ensures st.deck.Some?
    ensures var p := st.byOp[op];
            p.op == op && p.id == ReservationId(c, op, p.shape) && PendingOk(c, st.deck.value, p) && OneForm(p.kind, p.deal, p.cards)
  {
    hide Window, ReservationId, DrawsOk, RecordsOk, CancelledOk, OrderFor, OrderCommitment, Hex.EncodeHex, DealFrom;
  }

  lemma SettledGrant(c: Ctx, st: St, op: string)
    requires Inv(c, st) && op in st.confirmed
    ensures st.deck.Some?
    ensures var r := st.confirmed[op];
            r.reservationId == ReservationId(c, op, r.shape) && ConfirmedOk(c, st.deck.value, op, r) && OneForm(r.kind, r.deal, r.cards)
  {
    hide Window, ReservationId, DrawsOk, SlotOk, CancelledOk, OrderFor, OrderCommitment, Hex.EncodeHex, DealFrom;
  }

  /** What a request for an operation answers once the operation holds a grant or was cancelled. */
  lemma AnswerFromGrant(c: Ctx, st: St, op: string, kind: Kind, seats: seq<string>, perHand: int, need: int, shape: string)
    requires Inv(c, st) && ReserveArgs(op, kind, seats, perHand, need, shape) && st.Valid()
    requires PhaseOf(st, op) != Fresh
    requires GrantOf(st, op).Some? && PhaseOf(st, op) != Dropped ==>
               GrantOf(st, op).value.kind == kind && GrantOf(st, op).value.shape == shape
    ensures ReserveStep(c, st, op, kind, seats, perHand, need, shape) ==
      (st, if PhaseOf(st, op) == Dropped || ReservationId(c, op, shape) in st.cancelled then Refused(ConflictingDuplicate)
           else var g := GrantOf(st, op).value; Reserved(true, g.id, g.deal, g.cards, g.remainingAfter))
  {
    hide Inv, Window, ReservationId, GoodSeats, DealNeed, DealFrom, DecodeAll, DrawsOk, PendingOk, ConfirmedOk;
    hide Encoders.DealShape, Encoders.DrawShape;
    if op in st.confirmed { SettledGrant(c, st, op); }
    if op in st.byOp { HeldGrant(c, st, op); }
    PhaseNamed(c, st, op);
  }

  /** A deck that holds anything has a room and a game. */
  lemma PhaseNamed(c: Ctx, st: St, op: string)
    requires Inv(c, st) && PhaseOf(st, op) != Fresh
    ensures st.deck.Some? && c.room != "" && c.game != ""
  {
    hide SlotOk, RecordsOk, CancelledOk, DrawsOk, OrderFor, OrderCommitment, Hex.EncodeHex;
  }

  /** After a reservation is granted, every repeat of the request, after any other requests, shows the same
      reservation until it is cancelled, and is refused forever after. */
  lemma RepeatedReserve(c: Ctx, st: St, req: Request, reqs: seq<Request>)
    requires Inv(c, st) && req.WellTyped() && AllWellTyped(reqs) && (req.ReserveDeal? || req.ReserveDraw?)
    requires st.Valid() && Step(c, st, req).1.Reserved?
    ensures Inv(c, Step(c, st, req).0)
    ensures var (st1, r) := Step(c, st, req);
            var st2 := Run(c, st1, reqs);
            && st2.Valid()
            && Step(c, st2, req) ==
                 (st2, if req.op in st2.cancelledOps || r.id in st2.cancelled then Refused(ConflictingDuplicate)
                       else r.(duplicate := true))
  {
    hide Inv, Step, ReserveStep, ReservationId, ReserveArgs, GoodSeats, ShapeOf, GrantOf, DealNeed, Run;
    StepKeeps(c, st, req);
    ProperStep(c, st, req);
    Granted(c, st, req.op, KindOf(req), SeatsOf(req), PerHandOf(req), NeedOf(req).value, ShapeOf(req));
    var (st1, r) := Step(c, st, req);
    RunMoves(c, st1, reqs, req.op);
    var st2 := Run(c, st1, reqs);
    InvValid(c, st2);
    ProperStep(c, st2, req);
    AnswerFromGrant(c, st2, req.op, KindOf(req), SeatsOf(req), PerHandOf(req), NeedOf(req).value, ShapeOf(req));
  }

  // ---- the panic of a peek

  /** In every reachable state a reservation panics exactly when nothing stands in its way and the end of its window is beyond
      the largest machine integer; the state then stays as it is. */
  lemma WhenPanics(c: Ctx, st: St, req: Request)
    requires Inv(c, st) && st.Valid() && Proper(req)
    ensures Step(c, st, req).1.Panicked? <==>
              Free(c, st, req.op, ShapeOf(req)) && st.deck.value.pointer + NeedOf(req).value > MAX_INT
    ensures Step(c, st, req).1.Panicked? ==> Step(c, st, req).0 == st
  {
    hide Inv, Step, ReserveStep, ReservationId, DealFrom, GoodSeats, ShapeOf, Window, DecodeAll, Free;
    ProperStep(c, st, req);
    var (op, kind, seats, perHand, need, shape) := (req.op, KindOf(req), SeatsOf(req), PerHandOf(req), NeedOf(req).value, ShapeOf(req));
    if Free(c, st, op, shape) {
      FreeValid(c, st, op, shape);
      ReserveFree(c, st, op, kind, seats, perHand, need, shape);
    } else {
      NotFree(c, st, op, kind, seats, perHand, need, shape);
    }
  }

  lemma FreeValid(c: Ctx, st: St, op: string, shape: string)
    requires Inv(c, st) && st.Valid() && Free(c, st, op, shape)
    ensures st.deck.Some? && |st.deck.value.order| <= MAX_INT
  {
    hide Inv;
  }

  lemma NotFree(c: Ctx, st: St, op: string, kind: Kind, seats: seq<string>, perHand: int, need: int, shape: string)
    requires ReserveArgs(op, kind, seats, perHand, need, shape) && st.Valid() && !Free(c, st, op, shape)
    ensures !ReserveStep(c, st, op, kind, seats, perHand, need, shape).1.Panicked?
  {
    hide DealFrom, DecodeAll, ReservationId, Encoders.DealShape, Encoders.DrawShape, GoodSeats;
  }

  /** A draw of one card is confirmed, and a draw of the largest machine integer panics. */
  lemma PanicIsReachable(c: Ctx, seed: string, first: string, op: string) returns (reqs: seq<Request>)
    requires c.room != "" && c.game != "" && Initialize(seed).WellTyped() && first != "" && op != "" && op != first
    ensures Inv(c, EMPTY) && AllWellTyped(reqs) && ReserveDraw(op, MAX_INT).WellTyped()
    ensures Step(c, Run(c, EMPTY, reqs), ReserveDraw(op, MAX_INT)).1 == Panicked
  {
    hide Inv, Run, Step, ReservationId, ShapeOf, OrderFor, Window, DecodeAll, OrderCommitment, Hex.EncodeHex;
    StartInv(c);
    var id := ReservationId(c, first, Encoders.DrawShape(1));
    reqs := [];
    var st := RunNone(c, EMPTY);
    reqs, st := RunOne(c, EMPTY, reqs, st, Initialize(seed));
    Dealt(c, seed);
    var st0 := st;
    reqs, st := RunOne(c, EMPTY, reqs, st, ReserveDraw(first, 1));
    OneReserved(c, st0, first);
    var st1 := st;
    reqs, st := RunOne(c, EMPTY, reqs, st, Confirm(id));
    OneTaken(c, st1, id);
    assert Proper(ReserveDraw(op, MAX_INT));
    WhenPanics(c, st, ReserveDraw(op, MAX_INT));
  }

  lemma RunNone(c: Ctx, st: St) returns (st': St)
    requires Inv(c, st)
    ensures st' == st == Run(c, st, []) && st'.Valid()
  {
    st' := st;
    InvValid(c, st);
  }

  lemma RunOne(c: Ctx, start: St, reqs: seq<Request>, st: St, req: Request) returns (reqs': seq<Request>, st': St)
    requires Inv(c, start) && AllWellTyped(reqs) && st == Run(c, start, reqs) && st.Valid() && req.WellTyped()
    ensures reqs' == reqs + [req] && AllWellTyped(reqs') && st' == Run(c, start, reqs') == Step(c, st, req).0 && st'.Valid() && Inv(c, st')
  {
    hide Inv, Step;
    reqs' := reqs + [req];
    assert reqs'[..|reqs|] == reqs;
    st' := Run(c, start, reqs');
    InvValid(c, st');
  }

  lemma Dealt(c: Ctx, seed: string)
    requires c.room != "" && c.game != "" && Initialize(seed).WellTyped()
    ensures var st := Step(c, EMPTY, Initialize(seed)).0;
            st == EMPTY.(deck := st.deck, seedHex := st.seedHex, seedCommit := st.seedCommit, orderCommit := st.orderCommit)
            && st.deck.Some? && st.deck.value.pointer == 0
  {
    hide OrderFor, OrderCommitment, Hex.EncodeHex;
  }

  lemma OneReserved(c: Ctx, st: St, op: string)
    requires Inv(c, st) && st.Valid() && st.deck.Some? && st.deck.value.pointer == 0 && op != ""
    requires st == EMPTY.(deck := st.deck, seedHex := st.seedHex, seedCommit := st.seedCommit, orderCommit := st.orderCommit)
    ensures var st' := Step(c, st, ReserveDraw(op, 1)).0;
            var id := ReservationId(c, op, Encoders.DrawShape(1));
            && st' == st.(pending := st'.pending, byOp := st'.byOp) && id in st'.pending && st'.pending[id].op == op
            && st'.pending[id].count == 1
  {
    hide Inv, Step, ReserveStep, ReservationId, Window, DecodeAll, Encoders.DrawShape;
    ProperStep(c, st, ReserveDraw(op, 1));
    ReserveFree(c, st, op, Draw, [], 0, 1, Encoders.DrawShape(1));
  }

  lemma OneTaken(c: Ctx, st: St, id: string)
    requires Inv(c, st) && st.Valid() && id in st.pending && st.confirmedById == map[] && st.confirmed == map[]
    requires st.cancelled == {} && st.cancelledOps == {} && st.deck.Some? && st.deck.value.pointer == 0 && st.pending[id].count == 1
    ensures var st' := Step(c, st, Confirm(id)).0;
            && st'.deck.Some? && st'.deck.value.pointer == 1 && st'.pending == map[] && st'.byOp == map[]
            && st'.confirmed.Keys == {st.pending[id].op} && st'.cancelled == {} && st'.cancelledOps == {}
  {
    hide Inv, PendingOk, ConfirmStep;
    ConfirmTakes(c, st, id);
  }

  // ---- confirming and cancelling

  /** Confirming an outstanding reservation is never rejected: the cards that were shown are still there. */
  lemma ConfirmNeverRejected(c: Ctx, st: St, id: string)
    requires Inv(c, st) && id in st.pending
    ensures st.Valid() && ConfirmStep(c, st, id).1 == Confirmed(id in st.confirmedById)
    ensures var p, st' := st.pending[id], ConfirmStep(c, st, id).0;
            id !in st.confirmedById ==>
              p.op in st'.confirmed && Handed(st'.confirmed[p.op]) == Window(st.deck.value.order, st.deck.value.pointer, p.count)
  {
    hide Inv, Window, ReservationId, DrawsOk, DealFrom, Handed;
    InvValid(c, st);
    SlotHeld(c, st, id);
    PendingNamed(c, st, id);
    if id !in st.confirmedById {
      ConfirmTakes(c, st, id);
      TakenOk(c, st.deck.value, st.pending[id]);
      HandedIsWindow(c, TakenDeck(st.deck.value, st.pending[id]), TakenRecord(st.deck.value, st.pending[id]));
    }
  }

  lemma PendingNamed(c: Ctx, st: St, id: string)
    requires Inv(c, st) && id in st.pending
    ensures c.room != "" && c.game != ""
  {
    hide SlotOk, RecordsOk, CancelledOk, DrawsOk, OrderFor, OrderCommitment, Hex.EncodeHex;
  }

  /** Cancelling releases the slot and leaves deck and confirmed operations as they were. */
  lemma CancelRestores(c: Ctx, st: St, id: string)
    requires Inv(c, st) && id in st.pending
    ensures CancelStep(c, st, id) ==
      (st.(pending := map[], byOp := map[], cancelled := st.cancelled + {id},
           cancelledOps := st.cancelledOps + {st.pending[id].op}), CancelDone)
  {
    hide Inv, PendingOk, DrawsOk;
    SlotHeld(c, st, id);
    PendingNamed(c, st, id);
    var p := st.pending[id];
    assert st.pending - {id} == map[] && st.byOp - {p.op} == map[];
  }

  /** A reservation that was cancelled is invisible to every other operation whose reservation has another id: its next
      request is answered as if the cancelled reservation had never been made. An operation that has the same id is refused. */
  lemma CancelIsInvisible(c: Ctx, st: St, first: Request, next: Request)
    requires Inv(c, st) && Proper(first) && Proper(next) && first.WellTyped() && next.WellTyped() && first.op != next.op
    requires st.Valid() && Step(c, st, first).1.Reserved? && !Step(c, st, first).1.duplicate
    ensures var (st1, r) := Step(c, st, first);
            var st2 := CancelStep(c, st1, r.id).0;
            && Inv(c, st2) && st2.Valid() && st2.deck == st.deck && st2.confirmed == st.confirmed
            && Step(c, st2, next).1 ==
                 if ReservationId(c, first.op, ShapeOf(first)) == ReservationId(c, next.op, ShapeOf(next))
                 then Refused(ConflictingDuplicate) else Step(c, st, next).1
  {
    hide *;
    var (st1, r) := Step(c, st, first);
    FirstGrant(c, st, first);
    StepKeeps(c, st, first);
    InvValid(c, st1);
    CancelKeeps(c, st1, r.id);
    InvValid(c, CancelStep(c, st1, r.id).0);
    AfterCancel(c, st, first, next, st1, r, CancelStep(c, st1, r.id).0);
  }

  lemma AfterCancel(c: Ctx, st: St, first: Request, next: Request, st1: St, r: Reply, st2: St)
    requires Inv(c, st) && st.Valid() && Proper(first) && Proper(next) && first.WellTyped() && next.WellTyped() && first.op != next.op
    requires Step(c, st, first) == (st1, r) && r.Reserved? && !r.duplicate && st.pending == map[] && st.byOp == map[]
    requires r.id == ReservationId(c, first.op, ShapeOf(first)) && r.id in st1.pending && st1.pending[r.id].op == first.op
    requires st1 == st.(pending := st1.pending, byOp := st1.byOp) && Inv(c, st1)
    requires st2 == CancelStep(c, st1, r.id).0 && Inv(c, st2) && st2.Valid()
    ensures st2.deck == st.deck && st2.confirmed == st.confirmed
    ensures Step(c, st2, next).1 ==
              if ReservationId(c, first.op, ShapeOf(first)) == ReservationId(c, next.op, ShapeOf(next))
              then Refused(ConflictingDuplicate) else Step(c, st, next).1
  {
    var same := ReservationId(c, first.op, ShapeOf(first)) == ReservationId(c, next.op, ShapeOf(next));
    hide *;
    CancelRestores(c, st1, r.id);
    if same {
      PendingNamed(c, st1, r.id);
      SlotHeld(c, st1, r.id);
      CancelledRefuses(c, st2, next);
    } else {
      SameAnswer(c, st, st2, next);
    }
  }

  lemma CancelledRefuses(c: Ctx, st: St, req: Request)
    requires st.Valid() && Proper(req) && req.WellTyped() && c.room != "" && c.game != "" && st.deck.Some?
    requires ReservationId(c, req.op, ShapeOf(req)) in st.cancelled
    ensures Step(c, st, req).1 == Refused(ConflictingDuplicate)
  {
    hide ReservationId, DealFrom, DecodeAll, Encoders.DealShape, Encoders.DrawShape, GoodSeats, DealNeed;
  }

  lemma FirstGrant(c: Ctx, st: St, req: Request)
    requires Inv(c, st) && st.Valid() && Proper(req) && req.WellTyped()
    requires var r := Step(c, st, req).1; r.Reserved? && !r.duplicate
    ensures st.pending == map[] && st.byOp == map[]
    ensures var (st', r) := Step(c, st, req);
            && r.id == ReservationId(c, req.op, ShapeOf(req)) && r.id in st'.pending && st'.pending[r.id].op == req.op
            && st' == st.(pending := st'.pending, byOp := st'.byOp)
  {
    hide Inv, Step, ReservationId, DealFrom, GoodSeats, ShapeOf, Window, DecodeAll, DrawsOk;
    ProperStep(c, st, req);
    var (op, kind, seats, perHand, need, shape) := (req.op, KindOf(req), SeatsOf(req), PerHandOf(req), NeedOf(req).value, ShapeOf(req));
    if Free(c, st, op, shape) {
      SlotFree(c, st);
      ReserveFree(c, st, op, kind, seats, perHand, need, shape);
    }
  }

  lemma SameAnswer(c: Ctx, st: St, st2: St, req: Request)
    requires st.Valid() && st2.Valid() && Proper(req) && req.WellTyped()
    requires st2.deck == st.deck && st2.confirmed == st.confirmed && st2.byOp == st.byOp && st2.pending == st.pending
    requires req.op in st2.cancelledOps <==> req.op in st.cancelledOps
    requires ReservationId(c, req.op, ShapeOf(req)) in st2.cancelled <==> ReservationId(c, req.op, ShapeOf(req)) in st.cancelled
    ensures Step(c, st2, req).1 == Step(c, st, req).1
  {
    hide ReservationId, DealFrom, DecodeAll, Encoders.DealShape, Encoders.DrawShape, GoodSeats, DealNeed;
  }

  // ---- with collision-free hashing and NUL-free identities

  /** SHA-256 taken as collision-free. */
  ghost predicate Injective(sha: string -> string) { forall a, b :: sha(a) == sha(b) ==> a == b }

  predicate CleanCtx(c: Ctx) { Encoders.NulFree(c.room) && Encoders.NulFree(c.game) }

  predicate CleanRequest(req: Request) { req.ReserveDeal? || req.ReserveDraw? ==> Encoders.NulFree(req.op) }

  predicate Clean(st: St)
  {
    && (forall op :: op in st.confirmed ==> Encoders.NulFree(op))
    && (forall op :: op in st.byOp ==> Encoders.NulFree(op))
    && (forall op :: op in st.cancelledOps ==> Encoders.NulFree(op))
  }

  lemma CleanKept(c: Ctx, st: St, req: Request)
    requires Inv(c, st) && req.WellTyped() && Clean(st) && CleanRequest(req)
    ensures st.Valid() && Clean(Step(c, st, req).0)
  {
    hide Inv, ReserveStep, Encoders.NulFree, ReservationId, DealFrom, DecodeAll, Window, ReserveArgs, NeedOf, ShapeOf, GoodSeats, DrawsOk,
         PendingOk, InitializeStep, ReserveDealStep, ReserveDrawStep, DealNeed;
    InvValid(c, st);
    match req {
      case Initialize(seed) => InitializeClean(c, st, seed);
      case ReserveDeal(_, _, _) => ReserveClean(c, st, req);
      case ReserveDraw(_, _) => ReserveClean(c, st, req);
      case Confirm(id) => if id in st.pending { SlotHeld(c, st, id); }
      case Cancel(id) => if id in st.pending { SlotHeld(c, st, id); }
    }
  }

  lemma InitializeClean(c: Ctx, st: St, seed: string)
    requires Clean(st) && Hex.IsBytes(seed)
    ensures Clean(InitializeStep(c, st, seed).0)
  {
    hide Encoders.NulFree, OrderFor, Hex.EncodeHex, OrderCommitment;
  }

  lemma ReserveClean(c: Ctx, st: St, req: Request)
    requires Inv(c, st) && st.Valid() && req.WellTyped() && Clean(st) && CleanRequest(req) && (req.ReserveDeal? || req.ReserveDraw?)
    ensures Clean(Step(c, st, req).0)
  {
    hide Inv, Step, ReserveStep, Encoders.NulFree, ReservationId, DealFrom, DecodeAll, Window, ShapeOf, GoodSeats, DrawsOk;
    ProperStep(c, st, req);
    if Proper(req) {
      var (op, kind, seats, perHand, need, shape) := (req.op, KindOf(req), SeatsOf(req), PerHandOf(req), NeedOf(req).value, ShapeOf(req));
      if Free(c, st, op, shape) {
        ReserveFree(c, st, op, kind, seats, perHand, need, shape);
      } else {
        ReserveTaken(c, st, op, kind, seats, perHand, need, shape);
      }
    }
  }

  /** Two reservations of a deck have one id exactly when they are of one operation and shape, or one operation id is the
      other one, a NUL and a part of a shape. */
  lemma IdsCollide(c: Ctx, o1: string, s1: string, o2: string, s2: string)
    requires Injective(c.ideal.sha)
    ensures ReservationId(c, o1, s1) == ReservationId(c, o2, s2)
            <==> (o1 == o2 && s1 == s2) || Encoders.Shifted(o1, s1, o2, s2) || Encoders.Shifted(o2, s2, o1, s1)
  {
    hide Encoders.ReservationPreimage, Encoders.Shifted;
    var p1, p2 := Encoders.ReservationPreimage(c.room, c.game, o1, s1), Encoders.ReservationPreimage(c.room, c.game, o2, s2);
    assert c.ideal.sha(p1) == ReservationId(c, o1, s1)[4..] && c.ideal.sha(p2) == ReservationId(c, o2, s2)[4..];
    Encoders.SamePreimage(c.room, c.game, o1, s1, o2, s2);
  }

  /** Every request has a twin: a valid deal under any operation id has the reservation id of the request under a longer one. */
  lemma EveryRequestCollides(c: Ctx, op: string, req: Request) returns (deal: Request, twin: Request)
    requires op != "" && Proper(req)
    ensures Proper(deal) && deal.WellTyped() && deal.ReserveDeal? && deal.op == op
    ensures Proper(twin) && twin == req.(op := twin.op) && twin.op != op && (req.WellTyped() ==> twin.WellTyped())
    ensures ReservationId(c, op, ShapeOf(deal)) == ReservationId(c, twin.op, ShapeOf(twin))
  {
    hide Encoders.DealShape, Encoders.DrawShape, Encoders.BeforeTail;
    var t := ShapeOf(req);
    var seats := ["x", Encoders.NUL + t];
    deal := ReserveDeal(op, seats, 1);
    var longer := op + Encoders.NUL + Encoders.BeforeTail("x", t);
    twin := req.(op := longer);
    TwoSeats(t);
    Encoders.NulInOperationCollides(c.room, c.game, op, "x", t);
  }

  lemma TwoSeats(t: string)
    ensures GoodSeats(["x", Encoders.NUL + t]) && DealNeed(2, 1) == Some(3)
  {
    hide Blank;
    var seat := Encoders.NUL + t;
    NulStarts(t);
    NotBlank(seat);
    PlainEnds("x");
    NotBlank("x");
    assert seat[0] != "x"[0];
  }

  lemma NulStarts(t: string)
    ensures Leading(Encoders.NUL + t) == 0
  {}

  /** Reservation ids then name their operation and shape. */
  lemma IdNames(c: Ctx, o1: string, s1: string, o2: string, s2: string)
    requires Injective(c.ideal.sha) && CleanCtx(c) && Encoders.NulFree(o1) && Encoders.NulFree(o2)
    requires ReservationId(c, o1, s1) == ReservationId(c, o2, s2)
    ensures o1 == o2 && s1 == s2
  {
    hide Encoders.NulFree, Encoders.ReservationPreimage;
    var p1, p2 := Encoders.ReservationPreimage(c.room, c.game, o1, s1), Encoders.ReservationPreimage(c.room, c.game, o2, s2);
    assert c.ideal.sha(p1) == ReservationId(c, o1, s1)[4..] && c.ideal.sha(p2) == ReservationId(c, o2, s2)[4..];
    Encoders.PreimageInjective(c.room, c.game, o1, s1, c.room, c.game, o2, s2);
  }

  /** An id is cancelled only with its own operation, and confirmed only with its own operation. */
  lemma NoCollision(c: Ctx, st: St, op: string, shape: string)
    requires Inv(c, st) && Clean(st) && CleanCtx(c) && Injective(c.ideal.sha) && Encoders.NulFree(op)
    ensures ReservationId(c, op, shape) in st.cancelled ==> op in st.cancelledOps
    ensures ReservationId(c, op, shape) in st.confirmedById ==> op in st.confirmed && st.confirmed[op].shape == shape
  {
    hide ReservationId, Encoders.NulFree, Injective, SlotOk, DrawsOk, Material, Window, OrderFor, OrderCommitment, Hex.EncodeHex;
    var id := ReservationId(c, op, shape);
    if id in st.cancelled {
      assert WasCancelled(c, st, id);
      var o, s :| o in st.cancelledOps && id == ReservationId(c, o, s);
      IdNames(c, op, shape, o, s);
    }
    if id in st.confirmedById {
      var r := st.confirmedById[id];
      IdNames(c, op, shape, r.op, r.shape);
    }
  }

  lemma {:induction false} RunClean(c: Ctx, st: St, reqs: seq<Request>)
    requires Inv(c, st) && AllWellTyped(reqs) && Clean(st) && forall i :: 0 <= i < |reqs| ==> CleanRequest(reqs[i])
    ensures Clean(Run(c, st, reqs))
  {
    hide Inv, Step, Clean, CleanRequest;
    if reqs != [] {
      RunClean(c, st, reqs[..|reqs| - 1]);
      CleanKept(c, Run(c, st, reqs[..|reqs| - 1]), reqs[|reqs| - 1]);
    }
  }

  /** With clean identities a granted reservation is shown unchanged at every later repeat until its operation is
      cancelled, and refused from then on. */
  lemma CleanLife(c: Ctx, st: St, req: Request, st1: St, r: Reply, more: seq<Request>, st2: St)
    requires CleanCtx(c) && Injective(c.ideal.sha) && Inv(c, st) && Clean(st)
    requires req.WellTyped() && CleanRequest(req) && (req.ReserveDeal? || req.ReserveDraw?)
    requires st.Valid() && Step(c, st, req) == (st1, r) && r.Reserved?
    requires Inv(c, st1) && AllWellTyped(more) && (forall i :: 0 <= i < |more| ==> CleanRequest(more[i]))
    requires Run(c, st1, more) == st2
    ensures st2.Valid()
    ensures Step(c, st2, req) == (st2, if req.op in st2.cancelledOps then Refused(ConflictingDuplicate) else r.(duplicate := true))
  {
    hide *;
    RepeatedReserve(c, st, req, more);
    CleanKept(c, st, req);
    RunClean(c, st1, more);
    GrantedId(c, st, req);
    CleanOp(req);
    NoCollision(c, st2, req.op, ShapeOf(req));
  }

  lemma GrantedId(c: Ctx, st: St, req: Request)
    requires Inv(c, st) && st.Valid() && req.WellTyped() && (req.ReserveDeal? || req.ReserveDraw?)
    requires Step(c, st, req).1.Reserved?
    ensures (req.ReserveDeal? || req.count >= 0) && Step(c, st, req).1.id == ReservationId(c, req.op, ShapeOf(req))
  {
    hide Inv, Step, ReserveStep, ReservationId, ReserveArgs, GoodSeats, ShapeOf, GrantOf, PhaseOf, DealNeed;
    ProperStep(c, st, req);
    Granted(c, st, req.op, KindOf(req), SeatsOf(req), PerHandOf(req), NeedOf(req).value, ShapeOf(req));
  }

  lemma CleanOp(req: Request)
    requires (req.ReserveDeal? || req.ReserveDraw?) && CleanRequest(req)
    ensures Encoders.NulFree(req.op)
  {}

  /** With clean identities a pending reservation confirms, and as new. */
  lemma PendingConfirms(c: Ctx, st: St, op: string, shape: string)
    requires Inv(c, st) && Clean(st) && CleanCtx(c) && Injective(c.ideal.sha) && Encoders.NulFree(op)
    requires ReservationId(c, op, shape) in st.pending
    ensures st.Valid() && Step(c, st, Confirm(ReservationId(c, op, shape))).1 == Confirmed(false)
  {
    hide Inv, ConfirmStep, ReservationId, Encoders.NulFree, Injective, Window, DrawsOk, Material;
    var id := ReservationId(c, op, shape);
    ConfirmNeverRejected(c, st, id);
    SlotHeld(c, st, id);
    var p := st.pending[id];
    IdNames(c, op, shape, p.op, p.shape);
    NoCollision(c, st, op, shape);
  }
}
