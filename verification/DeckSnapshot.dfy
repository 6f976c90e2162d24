/** The durable form of a deck state (deck_snapshot.go): written from a state, and read back with every cross-check. */
module DeckSnapshot {
  import opened Common
  import opened Cards
  import opened Tiling
  import opened Decks
  import opened DeckService
  import opened DeckInvariant
  import opened DeckTheorems
  import opened StringOrder
  import Encoders
  import Hex

  datatype Snapshot = Snapshot(
    room: string, game: string, seedHex: string, seedCommit: string, orderCommit: string, pointer: int,
    order: seq<string>, draws: map<string, DrawRecord>, pending: map<string, Pending>, byOp: map<string, string>,
    confirmed: map<string, ConfirmedOp>, confirmedById: map<string, ConfirmedOp>,
    cancelled: seq<string>, cancelledOps: seq<string>)

  // ---- writing

  function PendingIds(byOp: map<string, Pending>): map<string, string> { map op | op in byOp :: byOp[op].id }

  ghost function SnapshotOf(c: Ctx, st: St): Snapshot
  {
    var d := if st.deck.Some? then st.deck.value else Deck("", "", [], 0, map[]);
    Snapshot(c.room, c.game, st.seedHex, st.seedCommit, st.orderCommit, d.pointer, d.order, d.draws, st.pending,
             PendingIds(st.byOp), st.confirmed, st.confirmedById, SortedList(st.cancelled), SortedList(st.cancelledOps))
  }

  method SnapshotFromDeckState(state: DeckState) returns (snap: Snapshot)
    ensures snap == SnapshotOf(state.c, state.Value())
  {
    var cancelled := SortedKeys(state.cancelled);
    var cancelledOps := SortedKeys(state.cancelledOps);
    var pointer, order, draws := 0, [], map[];
    if state.deck != null {
      pointer, order, draws := state.deck.pointer, state.deck.order, state.deck.draws;
    }
    var byOp: map<string, string> := map[];
    var rest := state.byOp.Keys;
    while rest != {}
      invariant rest <= state.byOp.Keys && byOp.Keys == state.byOp.Keys - rest
      invariant forall op :: op in byOp ==> byOp[op] == state.byOp[op].id
      decreases rest
    {
      var op :| op in rest;
      byOp := byOp[op := state.byOp[op].id];
      rest := rest - {op};
    }
    assert byOp == PendingIds(state.byOp);
    return Snapshot(state.c.room, state.c.game, state.seedHex, state.seedCommit, state.orderCommit, pointer, order, draws,
                    state.pending, byOp, state.confirmed, state.confirmedById, cancelled, cancelledOps);
  }

  // ---- what the reader accepts

  /** The seed reproduces the commitments and the order, and the draws tile the drawn prefix. */
  ghost predicate DeckAccepted(ideal: Ideal, snap: Snapshot)
  {
    && (snap.seedHex != "" || snap.order != [])
    && var seed := Hex.DecodeHex(snap.seedHex);
    && seed.Some? && snap.seedCommit == ideal.sha(seed.value) && seed.value != "" && snap.game != ""
    && snap.orderCommit == OrderCommitment(ideal, OrderFor(ideal, seed.value))
    && snap.order == OrderFor(ideal, seed.value)
    && Restorable(snap.game, seed.value, snap.order, snap.pointer, snap.draws)
  }

  /** validatePendingAgainstDeck. */
  predicate PendingFits(order: seq<string>, pointer: int, p: Pending)
  {
    && 0 <= pointer <= |order|
    && match p.kind
       case Draw =>
         && p.cardCount > 0 && p.count == p.cardCount && p.shape == Encoders.DrawShape(p.count)
         && p.cardCount <= |order| - pointer
         && DecodeAll(order[pointer..pointer + p.cardCount]) == Some(p.cards)
         && p.remainingAfter == |order| - pointer - p.cardCount
       case Deal =>
         && GoodSeats(p.seats) && p.cardsPerHand > 0
         && DealNeed(|p.seats|, p.cardsPerHand) == Some(p.cardCount) && p.count == p.cardCount
         && p.shape == Encoders.DealShape(p.seats, p.cardsPerHand)
         && p.cardCount <= |order| - pointer
         && var window := DecodeAll(order[pointer..pointer + p.cardCount]);
         && window.Some? && p.deal == Some(DealFrom(p.seats, p.cardsPerHand, window.value))
         && p.remainingAfter == |order| - pointer - p.cardCount
       case OtherKind(_) => false
  }

  predicate PendingAccepted(snap: Snapshot)
  {
    && |snap.pending| <= 1
    && (forall id :: id in snap.pending ==>
          snap.pending[id].id == id && PendingFits(snap.order, snap.pointer, snap.pending[id]))
    && (forall op :: op in snap.byOp ==> snap.byOp[op] in snap.pending && snap.pending[snap.byOp[op]].op == op)
    && |snap.byOp| == |snap.pending|
    && (forall id :: id in snap.pending ==> snap.pending[id].op !in snap.draws)
  }

  /** validateConfirmedAgainstDraws. */
  predicate ConfirmedFits(draws: map<string, DrawRecord>, r: ConfirmedOp)
  {
    && r.op in draws
    && var rec := draws[r.op];
    && rec.fromPointer == r.fromPointer
    && match r.kind
       case Draw =>
         && rec.count == r.count && 0 < r.count && r.shape == Encoders.DrawShape(r.count)
         && |r.cards| == rec.count == |rec.cards|
         && (forall i :: 0 <= i < |r.cards| ==> EncodeCard(r.cards[i]) == rec.cards[i])
       case Deal =>
         && r.deal.Some? && GoodSeats(r.seats) && r.cardsPerHand > 0
         && DealNeed(|r.seats|, r.cardsPerHand) == Some(r.count) && r.count == rec.count
         && r.shape == Encoders.DealShape(r.seats, r.cardsPerHand)
         && |rec.cards| == rec.count
         && var dealt := DecodeAll(rec.cards);
         && dealt.Some? && r.deal == Some(DealFrom(r.seats, r.cardsPerHand, dealt.value))
       case OtherKind(_) => false
  }

  predicate ConfirmedAccepted(snap: Snapshot)
  {
    && (forall op :: op in snap.confirmed ==>
          snap.confirmed[op].op == op && ConfirmedFits(snap.draws, snap.confirmed[op]))
    && (forall id :: id in snap.confirmedById ==>
          var r := snap.confirmedById[id]; r.reservationId == id && r.op in snap.confirmed && snap.confirmed[r.op] == r)
    && |snap.confirmed| == |snap.confirmedById| && |snap.draws| == |snap.confirmed|
    && (forall op :: op in snap.draws ==> op in snap.confirmed)
  }

  ghost predicate Accepted(ideal: Ideal, snap: Snapshot)
  {
    DeckAccepted(ideal, snap) && PendingAccepted(snap) && ConfirmedAccepted(snap)
  }

  function Members(s: seq<string>): set<string> { set x | x in s }

  function ByOpOf(snap: Snapshot): map<string, Pending>
    requires forall op :: op in snap.byOp ==> snap.byOp[op] in snap.pending
  {
    map op | op in snap.byOp :: snap.pending[snap.byOp[op]]
  }

  ghost function Restored(ideal: Ideal, snap: Snapshot): St
    requires Accepted(ideal, snap)
  {
    var seed := Hex.DecodeHex(snap.seedHex).value;
    St(Some(Deck(snap.game, seed, snap.order, snap.pointer, WithRevisions(snap.draws))), snap.seedHex, snap.seedCommit,
       snap.orderCommit, snap.pending, ByOpOf(snap), snap.confirmed, snap.confirmedById,
       Members(snap.cancelled), Members(snap.cancelledOps))
  }

  // ---- reading

  method MemberSet(s: seq<string>) returns (r: set<string>)
    ensures r == Members(s)
  {
    r := {};
    for i := 0 to |s|
      invariant r == Members(s[..i])
    {
      assert s[..i + 1] == s[..i] + [s[i]];
      r := r + {s[i]};
    }
    assert s[..|s|] == s;
  }

  /** The part of deckStateFromSnapshot that rebuilds the deck. */
  method RestoreDeck(ideal: Ideal, snap: Snapshot) returns (d: AuthoritativeDeck?, panicked: bool)
    requires MachineSized(snap.draws)
    ensures d != null <==> DeckAccepted(ideal, snap)
    ensures d != null ==> fresh(d) && d.Valid() && |d.order| == DECK_SIZE
    ensures d != null ==>
              d.Value() == Deck(snap.game, Hex.DecodeHex(snap.seedHex).value, snap.order, snap.pointer, WithRevisions(snap.draws))
    ensures panicked ==> exists op :: op in snap.draws && EndWraps(op, snap.draws[op])
  {
    hide OrderText, Hex.DecodeHex, StandardDeck, Shuffle, Restorable, Picks;
    if snap.seedHex == "" && |snap.order| == 0 { return null, false; }
    var seed := Hex.DecodeHex(snap.seedHex);
    if seed.None? { return null, false; }
    if snap.seedCommit != ideal.sha(seed.value) { return null, false; }
    if seed.value == "" { return null, false; }
    var cards := StandardDeckCards();
    var made := NewAuthoritativeDeck(snap.game, seed.value, Picks(ideal, seed.value), cards);
    if made == null { return null, false; }
    var order := made.order;
    assert order == OrderFor(ideal, seed.value);
    var commit := OrderCommit(ideal, order);
    if snap.orderCommit != commit { return null, false; }
    if |snap.order| != |order| { return null, false; }
    for i := 0 to |order|
      invariant forall j :: 0 <= j < i ==> snap.order[j] == order[j]
    {
      if snap.order[i] != order[i] { return null, false; }
    }
    assert snap.order == order;
    PointerInRange(snap.game, seed.value, order, snap.pointer, snap.draws);
    if snap.pointer < 0 || snap.pointer > |order| { return null, false; }
    d, panicked := RestoreAuthoritativeDeck(snap.game, seed.value, order, snap.pointer, snap.draws);
  }

  lemma PointerInRange(game: string, seed: string, order: seq<string>, pointer: int, draws: map<string, DrawRecord>)
    ensures Restorable(game, seed, order, pointer, draws) ==> 0 <= pointer <= |order|
  {}

  method CheckPending(order: seq<string>, pointer: int, p: Pending) returns (ok: bool)
    ensures ok == PendingFits(order, pointer, p)
  {
    hide GoodSeats, DealFrom, DecodeAll, Encoders.DealShape, Encoders.DrawShape;
    if pointer < 0 || pointer > |order| { return false; }
    var remaining := |order| - pointer;
    match p.kind {
      case Draw =>
        if p.cardCount <= 0 { return false; }
        if p.count != p.cardCount { return false; }
        if p.shape == "" || p.shape != Encoders.DrawShape(p.count) { ShapesNonempty([], 0, p.count); return false; }
        if p.cardCount > remaining { return false; }
        var want := DecodeCards(order[pointer..pointer + p.cardCount]);
        if want.None? { return false; }
        if p.cards != want.value { return false; }
        return 0 <= p.remainingAfter && p.remainingAfter == remaining - p.cardCount;
      case Deal =>
        var good := ValidateDealSeats(p.seats);
        if !good { return false; }
        if p.cardsPerHand <= 0 { return false; }
        var need := DealNeed(|p.seats|, p.cardsPerHand);
        if need.None? { return false; }
        if p.cardCount <= 0 { return false; }
        if p.cardCount != need.value || p.count != need.value { return false; }
        var shape := Encoders.BuildDealShape(p.seats, p.cardsPerHand);
        if p.shape == "" || p.shape != shape { ShapesNonempty(p.seats, p.cardsPerHand, 0); return false; }
        if p.cardCount > remaining { return false; }
        if p.deal.None? { return false; }
        var dealt := DecodeCards(order[pointer..pointer + p.cardCount]);
        if dealt.None? { return false; }
        var want := BuildDeal(p.seats, p.cardsPerHand, dealt.value);
        if p.deal != Some(want) { return false; }
        return 0 <= p.remainingAfter && p.remainingAfter == remaining - p.cardCount;
      case OtherKind(_) => return false;
    }
  }

  lemma ShapesNonempty(seats: seq<string>, perHand: nat, count: nat)
    ensures Encoders.DealShape(seats, perHand) != "" && Encoders.DrawShape(count) != ""
  {}

  /** The record's own cards have been checked against the order before this runs. */
  method CheckConfirmed(draws: map<string, DrawRecord>, r: ConfirmedOp) returns (ok: bool)
    requires r.op in draws ==> 0 < draws[r.op].count == |draws[r.op].cards|
    ensures ok == ConfirmedFits(draws, r)
  {
    hide GoodSeats, DealFrom, DecodeAll, Encoders.DealShape, Encoders.DrawShape, EncodeCard;
    if r.op !in draws { return false; }
    var rec := draws[r.op];
    if rec.fromPointer != r.fromPointer { return false; }
    match r.kind {
      case Draw =>
        if rec.count != r.count { return false; }
        if r.shape == "" || r.shape != Encoders.DrawShape(r.count) { ShapesNonempty([], 0, r.count); return false; }
        if |r.cards| != rec.count { return false; }
        for i := 0 to |r.cards|
          invariant forall j :: 0 <= j < i ==> EncodeCard(r.cards[j]) == rec.cards[j]
        {
          if EncodeCard(r.cards[i]) != rec.cards[i] { return false; }
        }
        return true;
      case Deal =>
        if r.deal.None? { return false; }
        var good := ValidateDealSeats(r.seats);
        if !good { return false; }
        if r.cardsPerHand <= 0 { return false; }
        var need := DealNeed(|r.seats|, r.cardsPerHand);
        if need.None? { return false; }
        if r.count != rec.count || r.count != need.value { return false; }
        var shape := Encoders.BuildDealShape(r.seats, r.cardsPerHand);
        if r.shape == "" || r.shape != shape { ShapesNonempty(r.seats, r.cardsPerHand, 0); return false; }
        if |rec.cards| != rec.count { return false; }
        var dealt := DecodeCards(rec.cards);
        if dealt.None? { return false; }
        var want := BuildDeal(r.seats, r.cardsPerHand, dealt.value);
        return r.deal == Some(want);
      case OtherKind(_) => return false;
    }
  }

  /** The three loops over the pending reservation and its index. */
  method CheckAllPending(snap: Snapshot) returns (ok: bool, byOp: map<string, Pending>)
    ensures ok == PendingAccepted(snap)
    ensures ok ==> (forall op :: op in snap.byOp ==> snap.byOp[op] in snap.pending) && byOp == ByOpOf(snap)
  {
    hide PendingFits;
    byOp := map[];
    if |snap.pending| > 1 { return false, byOp; }
    var entriesOk := CheckPendingEntries(snap);
    if !entriesOk { return false, byOp; }
    var refsOk, rebuilt := RebuildByOp(snap);
    if !refsOk { return false, byOp; }
    if |snap.byOp| != |snap.pending| { return false, byOp; }
    var rest := snap.pending.Keys;
    while rest != {}
      invariant rest <= snap.pending.Keys
      invariant forall id :: id in snap.pending && id !in rest ==> snap.pending[id].op !in snap.draws
      decreases rest
    {
      var id :| id in rest;
      if snap.pending[id].op in snap.draws { return false, byOp; }
      rest := rest - {id};
    }
    return true, rebuilt;
  }

  method CheckPendingEntries(snap: Snapshot) returns (ok: bool)
    ensures ok <==> forall id :: id in snap.pending ==>
      snap.pending[id].id == id && PendingFits(snap.order, snap.pointer, snap.pending[id])
  {
    hide PendingFits;
    var rest := snap.pending.Keys;
    while rest != {}
      invariant rest <= snap.pending.Keys
      invariant forall id :: id in snap.pending && id !in rest ==>
        snap.pending[id].id == id && PendingFits(snap.order, snap.pointer, snap.pending[id])
      decreases rest
    {
      var id :| id in rest;
      var p := snap.pending[id];
      if p.id != id { return false; }
      var fits := CheckPending(snap.order, snap.pointer, p);
      if !fits { return false; }
      rest := rest - {id};
    }
    return true;
  }

  method RebuildByOp(snap: Snapshot) returns (ok: bool, byOp: map<string, Pending>)
    ensures ok <==> forall op :: op in snap.byOp ==> snap.byOp[op] in snap.pending && snap.pending[snap.byOp[op]].op == op
    ensures ok ==> byOp == ByOpOf(snap)
  {
    byOp := map[];
    var ops := snap.byOp.Keys;
    while ops != {}
      invariant ops <= snap.byOp.Keys && byOp.Keys == snap.byOp.Keys - ops
      invariant forall op :: op in byOp ==>
        snap.byOp[op] in snap.pending && byOp[op] == snap.pending[snap.byOp[op]] && byOp[op].op == op
      decreases ops
    {
      var op :| op in ops;
      if snap.byOp[op] !in snap.pending { return false, byOp; }
      var p := snap.pending[snap.byOp[op]];
      if p.op != op { return false, byOp; }
      byOp := byOp[op := p];
      ops := ops - {op};
    }
    return true, byOp;
  }

  method CheckConfirmedEntries(snap: Snapshot) returns (ok: bool)
    requires forall op :: op in snap.draws ==> 0 < snap.draws[op].count == |snap.draws[op].cards|
    ensures ok <==> forall op :: op in snap.confirmed ==> snap.confirmed[op].op == op && ConfirmedFits(snap.draws, snap.confirmed[op])
  {
    hide ConfirmedFits;
    var rest := snap.confirmed.Keys;
    while rest != {}
      invariant rest <= snap.confirmed.Keys
      invariant forall op :: op in snap.confirmed && op !in rest ==>
        snap.confirmed[op].op == op && ConfirmedFits(snap.draws, snap.confirmed[op])
      decreases rest
    {
      var op :| op in rest;
      var r := snap.confirmed[op];
      if r.op != op { return false; }
      var fits := CheckConfirmed(snap.draws, r);
      if !fits { return false; }
      rest := rest - {op};
    }
    return true;
  }

  method CheckConfirmedIndex(snap: Snapshot) returns (ok: bool)
    ensures ok <==> forall id :: id in snap.confirmedById ==>
      var r := snap.confirmedById[id]; r.reservationId == id && r.op in snap.confirmed && snap.confirmed[r.op] == r
  {
    var ids := snap.confirmedById.Keys;
    while ids != {}
      invariant ids <= snap.confirmedById.Keys
      invariant forall id :: id in snap.confirmedById && id !in ids ==>
        var r := snap.confirmedById[id]; r.reservationId == id && r.op in snap.confirmed && snap.confirmed[r.op] == r
      decreases ids
    {
      var id :| id in ids;
      var r := snap.confirmedById[id];
      if r.reservationId != id { return false; }
      if r.op !in snap.confirmed { return false; }
      if snap.confirmed[r.op] != r { return false; }
      ids := ids - {id};
    }
    return true;
  }

  /** The loops over the confirmed operations, their index and the draws. */
  method CheckAllConfirmed(snap: Snapshot) returns (ok: bool)
    requires forall op :: op in snap.draws ==> 0 < snap.draws[op].count == |snap.draws[op].cards|
    ensures ok == ConfirmedAccepted(snap)
  {
    hide ConfirmedFits;
    var entriesOk := CheckConfirmedEntries(snap);
    if !entriesOk { return false; }
    var indexOk := CheckConfirmedIndex(snap);
    if !indexOk { return false; }
    if |snap.confirmed| != |snap.confirmedById| { return false; }
    if |snap.draws| != |snap.confirmed| { return false; }
    var rest := snap.draws.Keys;
    while rest != {}
      invariant rest <= snap.draws.Keys
      invariant forall op :: op in snap.draws && op !in rest ==> op in snap.confirmed
      decreases rest
    {
      var op :| op in rest;
      if op !in snap.confirmed { return false; }
      rest := rest - {op};
    }
    return true;
  }

  lemma AcceptedDraws(ideal: Ideal, snap: Snapshot)
    requires DeckAccepted(ideal, snap)
    ensures Hex.DecodeHex(snap.seedHex).Some?
    ensures forall op :: op in snap.draws ==> 0 < snap.draws[op].count == |snap.draws[op].cards|
  {}

  /** A snapshot as it is stored: maps and lists may be missing. */
  datatype Stored = Stored(
    room: string, game: string, seedHex: string, seedCommit: string, orderCommit: string, pointer: int, order: seq<string>,
    draws: Option<map<string, DrawRecord>>, pending: Option<map<string, Pending>>, byOp: Option<map<string, string>>,
    confirmed: Option<map<string, ConfirmedOp>>, confirmedById: Option<map<string, ConfirmedOp>>,
    cancelled: Option<seq<string>>, cancelledOps: Option<seq<string>>)

  /** What is written has every part. */
  function Written(s: Snapshot): Stored
  {
    Stored(s.room, s.game, s.seedHex, s.seedCommit, s.orderCommit, s.pointer, s.order, Some(s.draws), Some(s.pending), Some(s.byOp),
           Some(s.confirmed), Some(s.confirmedById), Some(s.cancelled), Some(s.cancelledOps))
  }

  /** deckStateFromSnapshot: exactly the snapshots that are whole and accepted, and the state that they describe. */
  method DeckStateFromSnapshot(ideal: Ideal, raw: Stored) returns (state: DeckState?, panicked: bool)
    requires raw.draws.Some? ==> MachineSized(raw.draws.value)
    ensures state != null <==> exists snap :: raw == Written(snap) && Accepted(ideal, snap)
    ensures state != null ==> forall snap :: raw == Written(snap) ==>
              Accepted(ideal, snap) && fresh(state) && state.c == Ctx(ideal, snap.room, snap.game) && state.Valid()
              && state.Value() == Restored(ideal, snap)
    ensures panicked ==> raw.draws.Some? && exists op :: op in raw.draws.value && EndWraps(op, raw.draws.value[op])
  {
    hide DeckAccepted, PendingAccepted, ConfirmedAccepted, OrderFor, OrderCommitment, Hex.DecodeHex, Contiguous, WithRevisions, EndWraps;
    if raw.draws.None? || raw.pending.None? || raw.byOp.None? || raw.confirmed.None? || raw.confirmedById.None?
       || raw.cancelled.None? || raw.cancelledOps.None? { return null, false; }
    var snap := Snapshot(raw.room, raw.game, raw.seedHex, raw.seedCommit, raw.orderCommit, raw.pointer, raw.order, raw.draws.value,
                         raw.pending.value, raw.byOp.value, raw.confirmed.value, raw.confirmedById.value, raw.cancelled.value,
                         raw.cancelledOps.value);
    assert raw == Written(snap) && forall s :: raw == Written(s) ==> s == snap;
    var deck, stopped := RestoreDeck(ideal, snap);
    if deck == null { return null, stopped; }
    AcceptedDraws(ideal, snap);
    var pendingOk, byOp := CheckAllPending(snap);
    if !pendingOk { return null, false; }
    var confirmedOk := CheckAllConfirmed(snap);
    if !confirmedOk { return null, false; }
    var cancelled := MemberSet(snap.cancelled);
    var cancelledOps := MemberSet(snap.cancelledOps);
    state := new DeckState.From(Ctx(ideal, snap.room, snap.game), deck, snap.seedHex, snap.seedCommit, snap.orderCommit,
                                snap.pending, byOp, snap.confirmed, snap.confirmedById, cancelled, cancelledOps);
    return state, false;
  }

  // ---- reading what was written

  lemma DeckReadBack(c: Ctx, st: St)
    requires Inv(c, st) && st.deck.Some?
    ensures DeckAccepted(c.ideal, SnapshotOf(c, st))
    ensures Hex.DecodeHex(st.seedHex) == Some(st.deck.value.seed)
    ensures WithRevisions(st.deck.value.draws) == st.deck.value.draws && st.deck.value.gameId == c.game
  {
    hide SlotOk, RecordsOk, CancelledOk, OrderFor, OrderCommitment, Contiguous, Hex.DecodeHex, Hex.EncodeHex, AllDecode;
    Hex.HexRoundTrip(st.deck.value.seed);
  }

  lemma PendingReadBack(c: Ctx, d: Deck, p: Pending)
    requires PendingOk(c, d, p) && AllDecode(d.order) && d.pointer <= |d.order|
    ensures PendingFits(d.order, d.pointer, p)
  {
    hide GoodSeats, DealFrom, Encoders.DealShape, Encoders.DrawShape, AllDecode, DecodeAll, Window, ReservationId;
    WindowDecodes(d.order, d.pointer, p.count);
  }

  lemma OnePending(snap: Snapshot, p: Pending)
    requires snap.pending == map[p.id := p] && snap.byOp == map[p.op := p.id] && p.op !in snap.draws
    requires PendingFits(snap.order, snap.pointer, p)
    ensures PendingAccepted(snap) && ByOpOf(snap) == map[p.op := p]
  {
    hide PendingFits;
    assert |snap.pending| == 1 && |snap.byOp| == 1;
  }

  lemma SlotReadBack(c: Ctx, st: St)
    requires Inv(c, st) && st.deck.Some?
    ensures PendingAccepted(SnapshotOf(c, st)) && ByOpOf(SnapshotOf(c, st)) == st.byOp
  {
    hide Inv, PendingOk, PendingFits, AllDecode, Contiguous, RestorableDraws;
    var d := st.deck.value;
    InvValid(c, st);
    if st.pending != map[] {
      hide PendingAccepted;
      var id :| id in st.pending;
      SlotHeld(c, st, id);
      var p := st.pending[id];
      PendingReadBack(c, d, p);
      assert PendingIds(st.byOp) == map[p.op := id];
      OnePending(SnapshotOf(c, st), p);
    } else {
      SlotFree(c, st);
    }
  }

  lemma ConfirmedReadBack(c: Ctx, d: Deck, op: string, r: ConfirmedOp)
    requires ConfirmedOk(c, d, op, r) && AllDecode(d.order) && RestorableDraws(d.order, d.draws)
    ensures r.op == op && ConfirmedFits(d.draws, r)
  {
    hide GoodSeats, DealFrom, Encoders.DealShape, Encoders.DrawShape, AllDecode, DecodeAll, DecodeCard, EncodeCard, Window, ReservationId;
    WindowDecodes(d.order, r.fromPointer, r.count);
    var raw := d.order[r.fromPointer..r.fromPointer + r.count];
    assert RestorableDraw(d.order, op, d.draws[op]);
    assert raw == d.draws[op].cards;
    forall i | 0 <= i < r.count ensures EncodeCard(Window(d.order, r.fromPointer, r.count)[i]) == raw[i] {
      EncodeDecodeCard(raw[i]);
    }
  }

  /** Two indexes of the same records, by operation and by reservation, have the same size. */
  lemma {:induction false} IndexSizes(byOp: map<string, ConfirmedOp>, byId: map<string, ConfirmedOp>)
    requires forall op :: op in byOp ==>
      byOp[op].op == op && byOp[op].reservationId in byId && byId[byOp[op].reservationId] == byOp[op]
    requires forall id :: id in byId ==>
      byId[id].reservationId == id && byId[id].op in byOp && byOp[byId[id].op] == byId[id]
    ensures |byOp| == |byId|
    decreases |byOp|
  {
    if byOp == map[] {
      assert byId.Keys == {};
    } else {
      var op :| op in byOp;
      var id := byOp[op].reservationId;
      var byOp', byId' := byOp - {op}, byId - {id};
      assert byOp.Keys == byOp'.Keys + {op} && byId.Keys == byId'.Keys + {id};
      IndexSizes(byOp', byId');
    }
  }

  lemma RecordsReadBack(c: Ctx, st: St)
    requires Inv(c, st) && st.deck.Some?
    ensures ConfirmedAccepted(SnapshotOf(c, st))
  {
    hide SlotOk, ConfirmedOk, ConfirmedFits, CancelledOk, OrderFor, OrderCommitment, Hex.EncodeHex, AllDecode, Contiguous;
    var d := st.deck.value;
    forall op | op in st.confirmed ensures st.confirmed[op].op == op && ConfirmedFits(d.draws, st.confirmed[op]) {
      ConfirmedReadBack(c, d, op, st.confirmed[op]);
    }
    IndexSizes(st.confirmed, st.confirmedById);
    assert |st.confirmed| == |st.confirmed.Keys| && |d.draws| == |d.draws.Keys|;
  }

  /** Every reachable deck reads back as it was written; only the deck that was never initialised is refused. */
  lemma RestoreRoundTrip(c: Ctx, st: St)
    requires Inv(c, st)
    ensures Accepted(c.ideal, SnapshotOf(c, st)) <==> st.deck.Some?
    ensures st.deck.Some? ==> Restored(c.ideal, SnapshotOf(c, st)) == st
  {
    hide DeckOk, SlotOk, RecordsOk, CancelledOk, PendingAccepted, ConfirmedAccepted, OrderFor, OrderCommitment, Hex.DecodeHex,
         Restorable, WithRevisions;
    if st.deck.Some? {
      DeckReadBack(c, st);
      SlotReadBack(c, st);
      RecordsReadBack(c, st);
      hide DeckAccepted;
      assert Members(SortedList(st.cancelled)) == st.cancelled;
      assert Members(SortedList(st.cancelledOps)) == st.cancelledOps;
    }
  }

  // ---- what any accepted snapshot guarantees

  lemma DrawCardsDecode(order: seq<string>, rec: DrawRecord, r: ConfirmedOp)
    requires AllDecode(order) && 0 <= rec.fromPointer && rec.fromPointer + rec.count <= |order| && 0 < rec.count
    requires order[rec.fromPointer..rec.fromPointer + rec.count] == rec.cards && |r.cards| == rec.count
    requires forall i :: 0 <= i < |r.cards| ==> EncodeCard(r.cards[i]) == rec.cards[i]
    ensures r.cards == Window(order, rec.fromPointer, rec.count)
  {
    hide DecodeCard, EncodeCard;
    WindowDecodes(order, rec.fromPointer, rec.count);
    forall i | 0 <= i < rec.count ensures r.cards[i] == Window(order, rec.fromPointer, rec.count)[i] {
      assert rec.cards[i] == order[rec.fromPointer + i];
      OnlyDecoded(r.cards[i]);
    }
  }

  lemma AcceptedRecord(d: Deck, op: string, r: ConfirmedOp, draws: map<string, DrawRecord>)
    requires AllDecode(d.order) && RestorableDraws(d.order, draws) && d.draws == WithRevisions(draws)
    requires r.op == op && ConfirmedFits(draws, r)
    ensures RecordFits(d, op, r)
  {
    hide GoodSeats, DealFrom, HandsInOrder, Encoders.DealShape, Encoders.DrawShape, AllDecode, DecodeAll, DecodeCard, EncodeCard, Window;
    var rec := draws[op];
    assert RestorableDraw(d.order, op, rec);
    WindowDecodes(d.order, rec.fromPointer, rec.count);
    match r.kind {
      case Draw => DrawCardsDecode(d.order, rec, r);
      case Deal => DealHandsOut(r, Window(d.order, rec.fromPointer, rec.count));
      case OtherKind(_) =>
    }
  }

  lemma DealHandsOut(r: ConfirmedOp, w: seq<Card>)
    requires r.kind == Deal && GoodSeats(r.seats) && r.cardsPerHand > 0
    requires DealNeed(|r.seats|, r.cardsPerHand) == Some(r.count) && |w| == r.count
    requires r.deal == Some(DealFrom(r.seats, r.cardsPerHand, w))
    ensures Handed(r) == w
  {
    hide Hands, HandsInOrder;
    var n := |r.seats|;
    HandsGiveAll(r.seats, r.cardsPerHand, w, n);
    assert r.seats[..n] == r.seats;
    assert w == w[..n * r.cardsPerHand] + [w[n * r.cardsPerHand]];
  }

  /** Whatever wrote it, a snapshot that passes the checks restores a deck that hands out no card twice. */
  lemma AcceptedConserves(ideal: Ideal, snap: Snapshot)
    requires Accepted(ideal, snap)
    ensures Conserving(Restored(ideal, snap))
  {
    hide PendingAccepted, ConfirmedFits, RecordFits, OrderFor, OrderCommitment, Hex.DecodeHex, Contiguous, AllDecode, RestorableDraw;
    var seed := Hex.DecodeHex(snap.seedHex).value;
    OrderDecodes(ideal, seed);
    var st := Restored(ideal, snap);
    var d := st.deck.value;
    assert Spans(d.draws) == Spans(snap.draws);
    RevisionsRestorable(snap.order, snap.draws);
    assert snap.draws.Keys == snap.confirmed.Keys by { KeysEqual(snap.draws, snap.confirmed); }
    forall op | op in st.confirmed ensures RecordFits(d, op, st.confirmed[op]) {
      AcceptedRecord(d, op, st.confirmed[op], snap.draws);
    }
  }

  lemma RevisionsRestorable(order: seq<string>, draws: map<string, DrawRecord>)
    requires RestorableDraws(order, draws)
    ensures RestorableDraws(order, WithRevisions(draws))
  {}

  lemma KeysEqual<A, B>(a: map<string, A>, b: map<string, B>)
    requires |a| == |b| && forall k :: k in a ==> k in b
    ensures a.Keys == b.Keys
  {
    SubsetOfSameSize(a.Keys, b.Keys);
  }

  lemma SubsetOfSameSize(a: set<string>, b: set<string>)
    requires a <= b && |a| == |b|
    ensures a == b
  {
    assert b == a + (b - a) && a * (b - a) == {};
    assert |b - a| == 0;
    assert b - a == {};
  }
}
