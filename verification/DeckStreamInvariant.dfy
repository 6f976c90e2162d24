/** What every interleaving of replicas keeps true of a deck stream. */
module DeckStreamInvariant {
  import opened Common
  import opened Decks
  import opened DeckService
  import opened DeckInvariant
  import opened DeckTheorems
  import opened DeckSnapshot
  import opened Encoders
  import opened DeckStream
  import Hex

  // ---- facts about single operations

  /** The request changes the stored snapshot. */
  ghost predicate Moves(c: Ctx, st: St, req: Request, st': St)
  {
    Inv(c, st) && st.Valid() && req.WellTyped() && Step(c, st, req).0 == st' && SnapshotOf(c, st') != SnapshotOf(c, st)
  }

  lemma EmptyOrDeck(c: Ctx, st: St)
    requires Inv(c, st) && st.deck.None?
    ensures st == EMPTY
  {}

  lemma DeckStays(c: Ctx, st: St, req: Request)
    requires Inv(c, st) && st.Valid() && req.WellTyped() && st.deck.Some?
    ensures Step(c, st, req).0.deck.Some?
  {
    hide Inv, DealFrom, OrderFor, OrderCommitment, Hex.EncodeHex, GoodSeats, ReservationId, Encoders.DealShape, Encoders.DrawShape;
  }

  lemma MovesTo(c: Ctx, st: St, req: Request, st': St)
    requires Moves(c, st, req, st')
    ensures Inv(c, st') && st'.deck.Some?
  {
    hide Inv, Step, SnapshotOf;
    StepKeeps(c, st, req);
    if st.deck.Some? {
      DeckStays(c, st, req);
    } else {
      EmptyOrDeck(c, st);
    }
    if st'.deck.None? { EmptyOrDeck(c, st'); }
  }

  /** A refused request leaves the state as it was. */
  lemma RefusedKeeps(c: Ctx, st: St, req: Request)
    requires Inv(c, st) && st.Valid() && req.WellTyped() && Step(c, st, req).1.Refused?
    ensures Step(c, st, req).0 == st
  {
    hide Inv, DealFrom, OrderFor, OrderCommitment, Hex.EncodeHex, GoodSeats, ReservationId, Encoders.DealShape, Encoders.DrawShape;
  }

  /** Equal snapshots are snapshots of equal states. */
  lemma SnapshotInjective(c: Ctx, st: St, st': St)
    requires Inv(c, st) && Inv(c, st') && SnapshotOf(c, st) == SnapshotOf(c, st')
    ensures st == st'
  {
    hide Inv, SnapshotOf, Accepted, Restored;
    RestoreRoundTrip(c, st);
    RestoreRoundTrip(c, st');
    if st.deck.None? { EmptyOrDeck(c, st); }
    if st'.deck.None? { EmptyOrDeck(c, st'); }
  }

  lemma EmptyRefuses(c: Ctx, req: Request)
    requires c.room != "" && c.game != "" && req.WellTyped() && !req.Initialize?
    requires req.ReserveDeal? || req.ReserveDraw? ==> Proper(req)
    ensures Step(c, EMPTY, req) == (EMPTY, NotFoundReply(req))
  {
    hide GoodSeats, DealNeed, ReservationId, Encoders.DealShape, Encoders.DrawShape;
  }

  lemma ImproperAnywhere(c: Ctx, st: St, req: Request)
    requires st.Valid() && req.WellTyped() && (req.ReserveDeal? || req.ReserveDraw?) && !Proper(req)
    ensures Step(c, st, req) == (st, Step(c, EMPTY, req).1)
  {
    hide GoodSeats, DealNeed;
  }

  // ---- the invariant

  ghost function StateAt(s: Store, i: nat): St
    requires i <= |s.events|
  {
    if i == 0 then EMPTY else s.events[i - 1].st
  }

  /** An entry that may stand at position i: one operation applied to the state before it, under the stream's key. */
  ghost predicate EntryOk(env: Env, s: Store, i: nat, e: Entry)
    requires i <= |s.events|
  {
    && Moves(env.c, StateAt(s, i), e.req, e.st)
    && GoodCandidate(env, e.key) && e.ev.meta.payloadNonce != ""
    && e.ev == MakeEvent(env, e.key, e.ev.meta.payloadNonce, i, SnapshotOf(env.c, e.st))
    && (i > 0 ==> e.key == s.events[0].key)
  }

  ghost predicate MsgOk(env: Env, s: Store, m: Msg)
  {
    m.expected <= |s.events| && EntryOk(env, s, m.expected, m.entry) && m.entry.author < s.authors
  }

  ghost predicate StoreOk(env: Env, s: Store)
  {
    && (forall i :: 0 <= i < |s.events| ==> EntryOk(env, s, i, s.events[i]) && s.events[i].author < s.authors)
    && (forall m :: m in s.flight ==> MsgOk(env, s, m))
  }

  predicate CacheOk(s: Store, cache: Option<Key>)
  {
    cache.Some? ==> s.events != [] && cache.value == s.events[0].key
  }

  /** The call has an answer, and it is the answer of the operation that it wants to commit. */
  ghost predicate Answers(env: Env, s: Store, call: Call, base: nat, req: Request)
  {
    && call.began <= base <= |s.events| && req.WellTyped() && StateAt(s, base).Valid()
    && call.result == Some(Step(env.c, StateAt(s, base), req).1)
  }

  /** Only its own message carries the call's author number. */
  predicate Authored(s: Store, m: Msg)
  {
    && (forall i :: 0 <= i < |s.events| && s.events[i].author == m.entry.author ==> i == m.expected && s.events[i] == m.entry)
    && (forall f :: f in s.flight && f.entry.author == m.entry.author ==> f == m)
  }

  ghost predicate SentOk(env: Env, s: Store, call: Call, m: Msg)
  {
    MsgOk(env, s, m) && Answers(env, s, call, m.expected, m.entry.req) && Authored(s, m)
  }

  /** The append has succeeded: the entry is in the stream, or event 0 is the same logical event. */
  ghost predicate AppendedOk(env: Env, s: Store, m: Msg)
  {
    && m.expected < |s.events|
    && (m.expected > 0 ==> s.events[m.expected] == m.entry)
    && (m.expected == 0 ==>
          s.events[0].st == m.entry.st
          && Decrypt(env, None, 0, s.events[0].ev, "", "") == Plain(m.entry.ev.box.plain, Some(s.events[0].key))
          && SameLogicalEvent(s.events[0].ev.meta, m.entry.ev.meta, SnapshotOf(env.c, s.events[0].st), m.entry.ev.box.plain))
  }

  ghost predicate CallOk(env: Env, s: Store, call: Call)
  {
    && call.rej == None && call.req.WellTyped() && call.began <= |s.events|
    && (call.req.ReserveDeal? || call.req.ReserveDraw? ==> Proper(call.req))
    && match call.pc
       case Begin => true
       case ReadFirst(first) => s.events != [] && first == s.events[0].ev
       case Loaded(base, st) => call.began <= base <= |s.events| && st == StateAt(s, base) && Inv(env.c, st)
       case Changed(base, req, st') =>
         Answers(env, s, call, base, req) && Moves(env.c, StateAt(s, base), req, st')
       case Sent(m) => SentOk(env, s, call, m)
       case Anchoring(m) => SentOk(env, s, call, m) && m.expected == 0
       case Appended(m) => SentOk(env, s, call, m) && AppendedOk(env, s, m)
  }

  predicate HasMsg(r: Replica) { r.call.Some? && (r.call.value.pc.Sent? || r.call.value.pc.Anchoring? || r.call.value.pc.Appended?) }

  function AuthorOf(r: Replica): nat
    requires HasMsg(r)
  {
    r.call.value.pc.msg.entry.author
  }

  ghost predicate ReplicaOk(env: Env, s: Store, r: Replica)
  {
    CacheOk(s, r.cache) && (r.call.Some? ==> CallOk(env, s, r.call.value))
  }

  /** The response is the operation's response at its place in the run, and the place is within the call's time. */
  ghost predicate AckOk(env: Env, s: Store, a: Ack)
  {
    && a.req.WellTyped() && a.began <= a.place <= |s.events| && StateAt(s, a.place).Valid()
    && Step(env.c, StateAt(s, a.place), a.req).1 == a.reply
    && if a.wrote then
         && a.place < |s.events| && Step(env.c, StateAt(s, a.place), a.req).0 == StateAt(s, a.place + 1)
         && (a.place > 0 ==> s.events[a.place].author == a.author) && a.author < s.authors
       else Step(env.c, StateAt(s, a.place), a.req).0 == StateAt(s, a.place)
  }

  predicate AuthorsApart(replicas: map<nat, Replica>, acks: seq<Ack>)
  {
    && (forall p, q :: p in replicas && q in replicas && p != q && HasMsg(replicas[p]) && HasMsg(replicas[q]) ==>
          AuthorOf(replicas[p]) != AuthorOf(replicas[q]))
    && (forall p, i :: p in replicas && HasMsg(replicas[p]) && 0 <= i < |acks| && acks[i].wrote ==>
          AuthorOf(replicas[p]) != acks[i].author)
    && (forall i, j :: 0 <= i < j < |acks| && acks[i].wrote && acks[j].wrote ==> acks[i].author != acks[j].author)
  }

  ghost predicate WorldInv(env: Env, w: World)
  {
    && env.c.room != "" && env.c.game != "" && !w.keyChanged
    && StoreOk(env, w.store) && AuthorsApart(w.replicas, w.acks)
    && (forall p :: p in w.replicas ==> ReplicaOk(env, w.store, w.replicas[p]))
    && (forall i :: 0 <= i < |w.acks| ==> AckOk(env, w.store, w.acks[i]))
  }

  // ---- the state at a position is reachable

  lemma StateInv(env: Env, s: Store, i: nat)
    requires StoreOk(env, s) && i <= |s.events|
    ensures Inv(env.c, StateAt(s, i)) && StateAt(s, i).Valid()
    ensures i > 0 ==> StateAt(s, i).deck.Some?
  {
    hide Inv, Step, SnapshotOf, MakeEvent, GoodCandidate;
    if i == 0 {
      StartInv(env.c);
    } else {
      assert EntryOk(env, s, i - 1, s.events[i - 1]);
      MovesTo(env.c, StateAt(s, i - 1), s.events[i - 1].req, s.events[i - 1].st);
    }
    InvValid(env.c, StateAt(s, i));
  }

  // ---- a replica changes, the store does not

  /** Replacing one replica keeps the invariant when its cache and its call are in order. */
  lemma ReplicaKeeps(env: Env, w: World, p: nat, r: Replica)
    requires WorldInv(env, w) && ReplicaOk(env, w.store, r)
    requires HasMsg(r) ==> p in w.replicas && HasMsg(w.replicas[p]) && AuthorOf(w.replicas[p]) == AuthorOf(r)
    ensures WorldInv(env, Set(w, p, r))
  {
    hide StoreOk, ReplicaOk, AckOk;
  }

  /** A call that returns with a response that belongs to its place. */
  lemma ReturnKeeps(env: Env, w: World, p: nat, r: Replica, a: Ack)
    requires WorldInv(env, w) && p in w.replicas && CacheOk(w.store, r.cache) && AckOk(env, w.store, a)
    requires a.wrote ==> HasMsg(w.replicas[p]) && AuthorOf(w.replicas[p]) == a.author
    ensures WorldInv(env, Return(w, p, r, a))
  {
    hide StoreOk, CallOk, AckOk;
  }

  lemma AbortKeeps(env: Env, w: World, p: nat, r: Replica)
    requires WorldInv(env, w) && p in w.replicas && CacheOk(w.store, r.cache)
    ensures WorldInv(env, Abort(w, p, r))
  {
    hide WorldInv, CallOk;
    ReplicaKeeps(env, w, p, r.(call := None));
  }

  // ---- the store grows

  /** An append only adds: what was in order before stays in order. */
  lemma EntryKept(env: Env, s: Store, s': Store, i: nat, e: Entry)
    requires s.events <= s'.events && i <= |s.events| && EntryOk(env, s, i, e)
    ensures EntryOk(env, s', i, e) && StateAt(s', i) == StateAt(s, i)
  {
    hide Moves, MakeEvent, GoodCandidate, SnapshotOf;
  }

  lemma LandStore(env: Env, s: Store, m: Msg)
    requires StoreOk(env, s)
    ensures StoreOk(env, LandIn(s, m))
  {
    hide EntryOk;
    var s' := LandIn(s, m);
    if s' != s {
      assert MsgOk(env, s, m);
      forall i | 0 <= i < |s'.events| ensures EntryOk(env, s', i, s'.events[i]) {
        EntryKept(env, s, s', i, s'.events[i]);
      }
      forall f | f in s'.flight ensures MsgOk(env, s', f) {
        assert MsgOk(env, s, f);
        EntryKept(env, s, s', f.expected, f.entry);
      }
    }
  }

  lemma CallKept(env: Env, s: Store, m: Msg, call: Call)
    requires StoreOk(env, s) && CallOk(env, s, call)
    ensures CallOk(env, LandIn(s, m), call)
  {
    hide Moves, EntryOk, Inv, Step, SnapshotOf, SameLogicalEvent, Decrypt;
    var s' := LandIn(s, m);
    if s' != s {
      if call.pc.Sent? || call.pc.Anchoring? || call.pc.Appended? {
        EntryKept(env, s, s', call.pc.msg.expected, call.pc.msg.entry);
      }
    }
  }

  lemma AckKept(env: Env, s: Store, m: Msg, a: Ack)
    requires AckOk(env, s, a)
    ensures AckOk(env, LandIn(s, m), a)
  {
    hide Step;
  }

  lemma LandKeeps(env: Env, w: World, m: Msg)
    requires WorldInv(env, w)
    ensures WorldInv(env, LandStep(w, m))
  {
    hide StoreOk, CallOk, AckOk, LandIn;
    LandStore(env, w.store, m);
    forall p | p in w.replicas ensures ReplicaOk(env, LandIn(w.store, m), w.replicas[p]) {
      assert ReplicaOk(env, w.store, w.replicas[p]);
      if w.replicas[p].call.Some? { CallKept(env, w.store, m, w.replicas[p].call.value); }
      FirstStays(w.store, m, w.replicas[p].cache);
    }
    forall i | 0 <= i < |w.acks| ensures AckOk(env, LandIn(w.store, m), w.acks[i]) {
      assert AckOk(env, w.store, w.acks[i]);
      AckKept(env, w.store, m, w.acks[i]);
    }
  }

  lemma FirstStays(s: Store, m: Msg, cache: Option<Key>)
    requires CacheOk(s, cache)
    ensures CacheOk(LandIn(s, m), cache)
  {}

  // ---- reading

  /** With no cached key, or with the stream's, an entry is never met with a changed key; what it decrypts to is
      the snapshot that its writer meant. */
  lemma EntryDecrypts(env: Env, s: Store, i: nat, e: Entry, cache: Option<Key>, room: string, game: string)
    requires i <= |s.events| && EntryOk(env, s, i, e) && (cache == None || cache == Some(e.key))
    ensures KeyIdOf(e.ev.meta) == e.key.id && env.unwrap(e.key.id) == Some(e.key.dek)
    ensures CachedOrUnwrap(env, cache, e.ev.meta) == Dek(e.key.dek, Some(e.key))
    ensures Decrypt(env, cache, i, e.ev, room, game) == Decrypt(env, None, i, e.ev, room, game)
    ensures var d := Decrypt(env, cache, i, e.ev, room, game);
            d.Unreadable? || d == Plain(SnapshotOf(env.c, e.st), Some(e.key))
  {
    hide Moves, Authentic, SnapshotOf, EventId;
  }

  lemma FirstKey(env: Env, s: Store, i: nat)
    requires StoreOk(env, s) && i < |s.events|
    ensures EntryOk(env, s, i, s.events[i]) && s.events[i].key == s.events[0].key
  {
    hide Moves, MakeEvent, GoodCandidate;
    assert EntryOk(env, s, i, s.events[i]);
  }

  lemma LoadLatestKeeps(env: Env, w: World, p: nat, r: Replica, call: Call)
    requires WorldInv(env, w) && p in w.replicas && w.replicas[p] == r && r.call == Some(call)
    ensures WorldInv(env, LoadLatestStep(env, w, p, r, call))
  {
    hide WorldInv, EntryOk, Decrypt, CachedOrUnwrap, Accepted, Restored, SnapshotOf, Inv, Proper;
    Known(env, w, p);
    if call.pc.ReadFirst? {
      var s := w.store;
      var n := |s.events| - 1;
      FirstKey(env, s, 0);
      FirstKey(env, s, n);
      var first, latest := s.events[0], s.events[n];
      EntryDecrypts(env, s, 0, first, r.cache, "", "");
      EntryDecrypts(env, s, n, latest, Some(first.key), env.c.room, env.c.game);
      StateInv(env, s, n + 1);
      RestoreRoundTrip(env.c, latest.st);
      var r' := r.(cache := Some(first.key));
      AbortKeeps(env, w, p, r');
      ReplicaKeeps(env, w, p, At(r', call, Loaded(n + 1, latest.st)));
    }
  }

  /** The parts of the invariant that speak about one replica. */
  lemma Known(env: Env, w: World, p: nat)
    requires WorldInv(env, w) && p in w.replicas
    ensures env.c.room != "" && env.c.game != "" && StoreOk(env, w.store) && ReplicaOk(env, w.store, w.replicas[p])
  {
    hide StoreOk, ReplicaOk, AckOk;
  }

  lemma StartKeeps(env: Env, w: World, p: nat, r: Replica, req: Request)
    requires WorldInv(env, w) && p in w.replicas && w.replicas[p] == r
    ensures WorldInv(env, StartStep(env, w, p, r, req))
  {
    hide WorldInv, StoreOk, Step, Proper, SnapshotOf, Inv;
    Known(env, w, p);
    if r.call.None? && req.WellTyped() {
      if (req.ReserveDeal? || req.ReserveDraw?) && !Proper(req) {
        StateInv(env, w.store, |w.store.events|);
        ImproperAnywhere(env.c, StateAt(w.store, |w.store.events|), req);
        ReturnKeeps(env, w, p, r, Ack(req, Step(env.c, EMPTY, req).1, |w.store.events|, |w.store.events|, false, 0));
      } else {
        ReplicaKeeps(env, w, p, r.(call := Some(Call(req, |w.store.events|, None, None, true, Begin))));
      }
    }
  }

  lemma LoadFirstKeeps(env: Env, w: World, p: nat, r: Replica, call: Call)
    requires WorldInv(env, w) && p in w.replicas && w.replicas[p] == r && r.call == Some(call)
    ensures WorldInv(env, LoadFirstStep(w, p, r, call))
  {
    hide WorldInv, StoreOk, Step, Proper, SnapshotOf, Inv;
    Known(env, w, p);
    StartInv(env.c);
    if call.pc.Begin? {
      if w.store.events != [] {
        ReplicaKeeps(env, w, p, At(r, call, ReadFirst(w.store.events[0].ev)));
      } else if call.req.Initialize? {
        ReplicaKeeps(env, w, p, At(r, call, Loaded(0, EMPTY)));
      } else {
        EmptyRefuses(env.c, call.req);
        InvValid(env.c, EMPTY);
        ReturnKeeps(env, w, p, r, Ack(call.req, NotFoundReply(call.req), call.began, 0, false, 0));
      }
    }
  }

  lemma RunCallbackKeeps(env: Env, w: World, p: nat, r: Replica, call: Call, seed: string)
    requires WorldInv(env, w) && p in w.replicas && w.replicas[p] == r && r.call == Some(call)
    ensures WorldInv(env, RunCallbackStep(env, w, p, r, call, seed))
  {
    hide WorldInv, StoreOk, Step, Proper, SnapshotOf, Inv;
    Known(env, w, p);
    if call.pc.Loaded? && call.pc.st.Valid() && Drawn(call.req, seed).WellTyped() {
      var base, st, req := call.pc.base, call.pc.st, Drawn(call.req, seed);
      var (st', reply) := Step(env.c, st, req);
      AbortKeeps(env, w, p, r);
      if !reply.Failed? && !reply.Panicked? {
        var call' := if reply.Refused? then call.(rej := Some(reply)) else call.(result := Some(reply));
        if reply.Refused? { RefusedKeeps(env.c, st, req); }
        if SnapshotOf(env.c, st') == SnapshotOf(env.c, st) {
          StepKeeps(env.c, st, req);
          SnapshotInjective(env.c, st', st);
          ReturnKeeps(env, w, p, r, Ack(req, Answer(call'), call.began, base, false, 0));
        } else {
          ReplicaKeeps(env, w, p, At(r, call', Changed(base, req, st')));
        }
      }
    }
  }

  /** A new message carries a new author number. */
  lemma SendKeepsStore(env: Env, s: Store, m: Msg)
    requires StoreOk(env, s) && m.expected <= |s.events| && EntryOk(env, s, m.expected, m.entry) && m.entry.author == s.authors
    ensures StoreOk(env, SendTo(s, m)) && Authored(SendTo(s, m), m) && MsgOk(env, SendTo(s, m), m)
  {
    hide Moves, MakeEvent, GoodCandidate;
    var s' := SendTo(s, m);
    forall i | 0 <= i < |s'.events| ensures EntryOk(env, s', i, s'.events[i]) { EntryKept(env, s, s', i, s'.events[i]); }
    forall f | f in s'.flight ensures MsgOk(env, s', f) {
      if f != m { assert MsgOk(env, s, f); }
      EntryKept(env, s, s', f.expected, f.entry);
    }
  }

  lemma SendKeepsCall(env: Env, s: Store, m: Msg, call: Call)
    requires CallOk(env, s, call) && m.entry.author == s.authors
    ensures CallOk(env, SendTo(s, m), call)
  {
    hide Moves, MakeEvent, GoodCandidate, Inv, Step, SnapshotOf, SameLogicalEvent, Proper, Decrypt;
    if call.pc.Sent? || call.pc.Anchoring? || call.pc.Appended? {
      EntryKept(env, s, SendTo(s, m), call.pc.msg.expected, call.pc.msg.entry);
    }
  }

  /** The key of an append is the stream's key, or a good candidate while the stream is empty. */
  lemma StreamKeyGood(env: Env, w: World, r: Replica, base: nat, candidate: Key)
    requires StoreOk(env, w.store) && CacheOk(w.store, r.cache) && base <= |w.store.events|
    ensures var key := StreamKey(env, w, r, base == 0, candidate);
            key.Some? ==> GoodCandidate(env, key.value) && (w.store.events != [] ==> key.value == w.store.events[0].key)
  {
    hide Moves;
    if w.store.events != [] { assert EntryOk(env, w.store, 0, w.store.events[0]); }
  }

  lemma MadeEvent(env: Env, key: Key, nonce: string, revision: nat, snap: Snapshot)
    ensures var ev := MakeEvent(env, key, nonce, revision, snap);
            ev == MakeEvent(env, key, ev.meta.payloadNonce, revision, snap) && ev.box.plain == snap && ev.meta.payloadNonce == nonce
  {}

  lemma SendKeeps(env: Env, w: World, p: nat, r: Replica, call: Call, candidate: Key, nonce: string)
    requires WorldInv(env, w) && p in w.replicas && w.replicas[p] == r && r.call == Some(call)
    ensures WorldInv(env, SendStep(env, w, p, r, call, candidate, nonce))
  {
    hide WorldInv, StoreOk, Moves, Step, Proper, SnapshotOf, Inv, MakeEvent, GoodCandidate, StreamKey;
    Known(env, w, p);
    if call.pc.Changed? && nonce != "" {
      var base, req, st' := call.pc.base, call.pc.req, call.pc.st';
      var key := StreamKey(env, w, r, base == 0, candidate);
      StreamKeyGood(env, w, r, base, candidate);
      AbortKeeps(env, w, p, r);
      if key.Some? {
        var ev := MakeEvent(env, key.value, nonce, base, SnapshotOf(env.c, st'));
        MadeEvent(env, key.value, nonce, base, SnapshotOf(env.c, st'));
        var m := Msg(base, Entry(ev, key.value, w.store.authors, req, st'));
        assert EntryOk(env, w.store, base, m.entry);
        var cache := if r.cache.None? && w.store.events != [] then key else r.cache;
        SentKeeps(env, w, p, At(r.(cache := cache), call, Sent(m)), m);
      }
    }
  }

  lemma SentKeeps(env: Env, w: World, p: nat, r: Replica, m: Msg)
    requires WorldInv(env, w) && p in w.replicas && CacheOk(w.store, r.cache)
    requires m.expected <= |w.store.events| && EntryOk(env, w.store, m.expected, m.entry) && m.entry.author == w.store.authors
    requires r.call.Some? && r.call.value.pc == Sent(m)
    requires Answers(env, w.store, r.call.value, m.expected, m.entry.req)
    requires CallOk(env, w.store, r.call.value.(pc := Begin))
    ensures WorldInv(env, Set(w, p, r).(store := SendTo(w.store, m)))
  {
    hide StoreOk, EntryOk, CallOk, AckOk, Answers;
    var w' := Set(w, p, r).(store := SendTo(w.store, m));
    SendKeepsStore(env, w.store, m);
    assert CallOk(env, w'.store, r.call.value) by { SentCallOk(env, w.store, m, r.call.value); }
    forall x | x in w'.replicas ensures ReplicaOk(env, w'.store, w'.replicas[x]) {
      if x != p {
        assert ReplicaOk(env, w.store, w.replicas[x]);
        if w.replicas[x].call.Some? { SendKeepsCall(env, w.store, m, w.replicas[x].call.value); }
      }
    }
    forall i | 0 <= i < |w'.acks| ensures AckOk(env, w'.store, w'.acks[i]) {
      assert AckOk(env, w.store, w.acks[i]);
      SendKeepsAck(env, w.store, m, w.acks[i]);
    }
    OldAuthors(env, w);
  }

  lemma SentCallOk(env: Env, s: Store, m: Msg, call: Call)
    requires Answers(env, s, call, m.expected, m.entry.req) && CallOk(env, s, call.(pc := Begin)) && call.pc == Sent(m)
    requires Authored(SendTo(s, m), m) && MsgOk(env, SendTo(s, m), m)
    ensures CallOk(env, SendTo(s, m), call)
  {
    hide EntryOk, Step, Proper;
  }

  lemma SendKeepsAck(env: Env, s: Store, m: Msg, a: Ack)
    requires AckOk(env, s, a)
    ensures AckOk(env, SendTo(s, m), a)
  {
    hide Step;
  }

  /** Every author number in use is below the counter. */
  lemma OldAuthors(env: Env, w: World)
    requires WorldInv(env, w)
    ensures forall p :: p in w.replicas && HasMsg(w.replicas[p]) ==> AuthorOf(w.replicas[p]) < w.store.authors
    ensures forall i :: 0 <= i < |w.acks| && w.acks[i].wrote ==> w.acks[i].author < w.store.authors
  {
    hide StoreOk, EntryOk, Inv, Step, Proper, Answers, Authored, AppendedOk;
    forall p | p in w.replicas && HasMsg(w.replicas[p]) ensures AuthorOf(w.replicas[p]) < w.store.authors {
      assert ReplicaOk(env, w.store, w.replicas[p]);
    }
    forall i | 0 <= i < |w.acks| && w.acks[i].wrote ensures w.acks[i].author < w.store.authors {
      assert AckOk(env, w.store, w.acks[i]);
    }
  }

  // ---- the outcome of an append

  lemma LearnKeeps(env: Env, w: World, p: nat, r: Replica, call: Call, result: AppendResult)
    requires WorldInv(env, w) && p in w.replicas && w.replicas[p] == r && r.call == Some(call)
    ensures WorldInv(env, LearnStep(w, p, r, call, result))
  {
    hide WorldInv, StoreOk, EntryOk, Step, Proper, SnapshotOf, SameLogicalEvent, Decrypt;
    Known(env, w, p);
    AbortKeeps(env, w, p, r);
    if call.pc.Sent? {
      var m := call.pc.msg;
      match result {
        case Acknowledged =>
          if MayAcknowledge(w, m) {
            ReplicaKeeps(env, w, p, At(r, call, if m.expected == 0 then Anchoring(m) else Appended(m)));
          }
        case Conflicted => ReplicaKeeps(env, w, p, At(r, call.(retry := false), Begin));
        case Unclear => if m.expected == 0 { ReplicaKeeps(env, w, p, At(r, call, Anchoring(m))); }
        case Failed =>
      }
    }
  }

  lemma AnchorFirstKeeps(env: Env, w: World, p: nat, r: Replica, call: Call)
    requires WorldInv(env, w) && p in w.replicas && w.replicas[p] == r && r.call == Some(call)
    ensures WorldInv(env, AnchorFirstStep(env, w, p, r, call))
  {
    hide WorldInv, StoreOk, EntryOk, Step, Proper, SnapshotOf, SameLogicalEvent, Decrypt, Authentic, MakeEvent, Inv;
    Known(env, w, p);
    AbortKeeps(env, w, p, r);
    if call.pc.Anchoring? && w.store.events != [] {
      var m, s := call.pc.msg, w.store;
      FirstKey(env, s, 0);
      var first := s.events[0];
      EntryDecrypts(env, s, 0, first, Some(first.key), "", "");
      SameIdSameKey(env, s, m);
      var r' := r.(cache := Some(first.key));
      AbortKeeps(env, w, p, r');
      ReplicaKeeps(env, w, p, At(r', call.(retry := false), Begin));
      if Decrypt(env, Some(first.key), 0, first.ev, "", "").Plain?
         && SameLogicalEvent(first.ev.meta, m.entry.ev.meta, SnapshotOf(env.c, first.st), m.entry.ev.box.plain) {
        SamePlainSameState(env, s, m);
        ReplicaKeeps(env, w, p, At(r', call, Appended(m)));
      }
    }
  }

  /** A key identity determines the data key. */
  lemma SameIdSameKey(env: Env, s: Store, m: Msg)
    requires s.events != [] && EntryOk(env, s, 0, s.events[0]) && MsgOk(env, s, m)
    ensures KeyIdOf(s.events[0].ev.meta) == m.entry.key.id ==> m.entry.key == s.events[0].key
  {
    hide Moves, SnapshotOf;
  }

  lemma SamePlainSameState(env: Env, s: Store, m: Msg)
    requires StoreOk(env, s) && s.events != [] && MsgOk(env, s, m)
    requires SameLogicalEvent(s.events[0].ev.meta, m.entry.ev.meta, SnapshotOf(env.c, s.events[0].st), m.entry.ev.box.plain)
    ensures s.events[0].st == m.entry.st && m.entry.ev.box.plain == SnapshotOf(env.c, s.events[0].st)
  {
    hide Inv, Step, SnapshotOf, GoodCandidate;
    assert EntryOk(env, s, 0, s.events[0]);
    MovesTo(env.c, StateAt(s, 0), s.events[0].req, s.events[0].st);
    MovesTo(env.c, StateAt(s, m.expected), m.entry.req, m.entry.st);
    SnapshotInjective(env.c, s.events[0].st, m.entry.st);
  }

  lemma FinishKeeps(env: Env, w: World, p: nat, r: Replica, call: Call)
    requires WorldInv(env, w) && p in w.replicas && w.replicas[p] == r && r.call == Some(call)
    ensures WorldInv(env, FinishStep(w, p, r, call))
  {
    hide WorldInv, StoreOk, Step, Proper, SnapshotOf, SameLogicalEvent, MakeEvent, GoodCandidate, Inv, Decrypt;
    Known(env, w, p);
    if call.pc.Appended? {
      var m := call.pc.msg;
      ReturnKeeps(env, w, p, r, Ack(m.entry.req, Answer(call), call.began, m.expected, true, m.entry.author));
    }
  }

  // ---- every step of every run

  lemma NextKeeps(env: Env, w: World, l: Label)
    requires WorldInv(env, w)
    ensures WorldInv(env, Next(env, w, l))
  {
    hide WorldInv, LandStep, StartStep, LoadFirstStep, LoadLatestStep, RunCallbackStep, SendStep, LearnStep, AnchorFirstStep, FinishStep;
    match l {
      case Land(m) => LandKeeps(env, w, m);
      case NewReplica(p) => ReplicaKeeps(env, w, p, Replica(None, None));
      case Start(p, req) => if p in w.replicas { StartKeeps(env, w, p, w.replicas[p], req); }
      case _ =>
        if l.p in w.replicas && w.replicas[l.p].call.Some? {
          CallStepKeeps(env, w, l.p, w.replicas[l.p], w.replicas[l.p].call.value, l);
        }
    }
  }

  lemma CallStepKeeps(env: Env, w: World, p: nat, r: Replica, call: Call, l: Label)
    requires WorldInv(env, w) && p in w.replicas && w.replicas[p] == r && r.call == Some(call)
    ensures WorldInv(env, CallStep(env, w, p, r, call, l))
  {
    hide WorldInv, Abort, LoadFirstStep, LoadLatestStep, RunCallbackStep, SendStep, LearnStep, AnchorFirstStep, FinishStep, CallOk;
    match l {
      case LoadFirst(_) => LoadFirstKeeps(env, w, p, r, call);
      case LoadLatest(_) => LoadLatestKeeps(env, w, p, r, call);
      case RunCallback(_, seed) => RunCallbackKeeps(env, w, p, r, call, seed);
      case Send(_, candidate, nonce) => SendKeeps(env, w, p, r, call, candidate, nonce);
      case Learn(_, result) => LearnKeeps(env, w, p, r, call, result);
      case AnchorFirst(_) => AnchorFirstKeeps(env, w, p, r, call);
      case Finish(_) => FinishKeeps(env, w, p, r, call);
      case Stop(_) => Known(env, w, p); AbortKeeps(env, w, p, r);
      case _ =>
    }
  }

  lemma StartWorld(env: Env)
    requires env.c.room != "" && env.c.game != ""
    ensures WorldInv(env, EMPTY_WORLD)
  {}

  lemma {:induction false} RunKeeps(env: Env, w: World, ls: seq<Label>)
    requires WorldInv(env, w)
    ensures WorldInv(env, DeckStream.Run(env, w, ls))
    decreases |ls|
  {
    hide WorldInv, Next;
    if ls != [] {
      RunKeeps(env, w, ls[..|ls| - 1]);
      NextKeeps(env, DeckStream.Run(env, w, ls[..|ls| - 1]), ls[|ls| - 1]);
    }
  }

  // ---- what follows

  /** In every interleaving, every event of the stream carries event 0's key identity, every cache is absent or holds
      event 0's key, and no call ever stops because the key identity changed. */
  lemma KeyIdentityNeverChanges(env: Env, ls: seq<Label>)
    requires env.c.room != "" && env.c.game != ""
    ensures var w := DeckStream.Run(env, EMPTY_WORLD, ls);
            && !w.keyChanged
            && (forall i :: 0 <= i < |w.store.events| ==>
                  KeyIdOf(w.store.events[i].ev.meta) == KeyIdOf(w.store.events[0].ev.meta))
            && (forall p :: p in w.replicas && w.replicas[p].cache.Some? ==>
                  && w.store.events != []
                  && w.replicas[p].cache.value.id == KeyIdOf(w.store.events[0].ev.meta)
                  && env.unwrap(w.replicas[p].cache.value.id) == Some(w.replicas[p].cache.value.dek))
  {
    hide Next, CallOk, AckOk, Moves, SnapshotOf, EventId;
    StartWorld(env);
    RunKeeps(env, EMPTY_WORLD, ls);
    var w := DeckStream.Run(env, EMPTY_WORLD, ls);
    forall i | 0 <= i < |w.store.events|
      ensures KeyIdOf(w.store.events[i].ev.meta) == KeyIdOf(w.store.events[0].ev.meta)
      ensures env.unwrap(w.store.events[0].key.id) == Some(w.store.events[0].key.dek)
      ensures w.store.events[0].key.id == KeyIdOf(w.store.events[0].ev.meta)
    {
      FirstKey(env, w.store, i);
      FirstKey(env, w.store, 0);
    }
    forall p | p in w.replicas ensures CacheOk(w.store, w.replicas[p].cache) {
      assert ReplicaOk(env, w.store, w.replicas[p]);
    }
    assert w.store.events != [] ==> EntryOk(env, w.store, 0, w.store.events[0]);
  }

  /** When a first write has succeeded, however it was acknowledged, event 0 decrypts to the caller's snapshot
      and is the caller's logical event. */
  lemma FirstWriteIsCommitted(env: Env, ls: seq<Label>, p: nat)
    requires env.c.room != "" && env.c.game != ""
    requires var w := DeckStream.Run(env, EMPTY_WORLD, ls);
             p in w.replicas && w.replicas[p].call.Some? && w.replicas[p].call.value.pc.Appended?
             && w.replicas[p].call.value.pc.msg.expected == 0
    ensures var w := DeckStream.Run(env, EMPTY_WORLD, ls);
            var m := w.replicas[p].call.value.pc.msg;
            && w.store.events != []
            && Decrypt(env, None, 0, w.store.events[0].ev, "", "") == Plain(m.entry.ev.box.plain, Some(w.store.events[0].key))
            && SameLogicalEvent(w.store.events[0].ev.meta, m.entry.ev.meta, m.entry.ev.box.plain, m.entry.ev.box.plain)
  {
    hide Next, AckOk, Moves, SnapshotOf, Decrypt, StoreOk, EntryOk, Step, Proper;
    StartWorld(env);
    RunKeeps(env, EMPTY_WORLD, ls);
    var w := DeckStream.Run(env, EMPTY_WORLD, ls);
    assert ReplicaOk(env, w.store, w.replicas[p]);
  }

  function Requests(s: Store): seq<Request> { seq(|s.events|, i requires 0 <= i < |s.events| => s.events[i].req) }

  /** The committed states are the run of the sequential machine over the committed requests. */
  lemma {:induction false} CommittedIsRun(env: Env, s: Store, i: nat)
    requires StoreOk(env, s) && i <= |s.events|
    ensures AllWellTyped(Requests(s)[..i]) && Inv(env.c, EMPTY)
    ensures DeckInvariant.Run(env.c, EMPTY, Requests(s)[..i]) == StateAt(s, i)
  {
    hide Inv, Step, SnapshotOf, StoreOk, EntryOk;
    StartInv(env.c);
    forall k | 0 <= k < i ensures Requests(s)[..i][k].WellTyped() { EntryMoves(env, s, k); }
    if i > 0 {
      CommittedIsRun(env, s, i - 1);
      EntryMoves(env, s, i - 1);
      assert Requests(s)[..i][..i - 1] == Requests(s)[..i - 1];
    }
  }

  lemma EntryMoves(env: Env, s: Store, i: nat)
    requires StoreOk(env, s) && i < |s.events|
    ensures s.events[i].req.WellTyped() && StateAt(s, i).Valid()
    ensures Step(env.c, StateAt(s, i), s.events[i].req).0 == StateAt(s, i + 1)
  {
    hide Inv, Step, SnapshotOf, MakeEvent, GoodCandidate;
    assert EntryOk(env, s, i, s.events[i]);
  }

  /** Refinement: the stored snapshots are those of the sequential machine's run over the committed requests; every
      response without error is that machine's response at its place in the run, within the call's time; and no two
      acknowledged writes share a place after the first. */
  lemma StreamRefinesMachine(env: Env, ls: seq<Label>)
    requires env.c.room != "" && env.c.game != ""
    ensures var w := DeckStream.Run(env, EMPTY_WORLD, ls);
            && StoreOk(env, w.store)
            && (forall i :: 0 <= i < |w.store.events| ==>
                  w.store.events[i].ev.box.plain == SnapshotOf(env.c, StateAt(w.store, i + 1)))
            && (forall k :: 0 <= k < |w.acks| ==> AckOk(env, w.store, w.acks[k]))
            && (forall j, k :: 0 <= j < k < |w.acks| && w.acks[j].wrote && w.acks[k].wrote && w.acks[j].place > 0 ==>
                  w.acks[j].place != w.acks[k].place)
  {
    hide Next, Moves, SnapshotOf, GoodCandidate, Step, ReplicaOk, MetaFor;
    StartWorld(env);
    RunKeeps(env, EMPTY_WORLD, ls);
    var w := DeckStream.Run(env, EMPTY_WORLD, ls);
    forall i | 0 <= i < |w.store.events|
      ensures w.store.events[i].ev.box.plain == SnapshotOf(env.c, StateAt(w.store, i + 1))
    {
      assert EntryOk(env, w.store, i, w.store.events[i]);
    }
    forall j, k | 0 <= j < k < |w.acks| && w.acks[j].wrote && w.acks[k].wrote && w.acks[j].place > 0
      ensures w.acks[j].place != w.acks[k].place
    {
      assert AckOk(env, w.store, w.acks[j]) && AckOk(env, w.store, w.acks[k]);
    }
  }

  /** Appends for the same position carry the same UUID, whatever they say. A store that acknowledged a later append by
      its UUID alone would tell a writer that lost the race that its operation is committed. */
  lemma RacersShareUuid(env: Env, ls: seq<Label>, m: Msg)
    requires env.c.room != "" && env.c.game != ""
    requires var w := DeckStream.Run(env, EMPTY_WORLD, ls); m in w.store.flight && m.expected < |w.store.events|
    ensures var w := DeckStream.Run(env, EMPTY_WORLD, ls); w.store.events[m.expected].ev.uuid == m.entry.ev.uuid
  {
    hide Next, Moves, SnapshotOf, GoodCandidate, Step, ReplicaOk, AckOk, EventId;
    StartWorld(env);
    RunKeeps(env, EMPTY_WORLD, ls);
    var w := DeckStream.Run(env, EMPTY_WORLD, ls);
    assert MsgOk(env, w.store, m);
    assert EntryOk(env, w.store, m.expected, w.store.events[m.expected]);
  }
}
