/** What a replica gets done when nobody interferes: its call returns the answer of the sequential machine. */
module DeckStreamProgress {
  import opened Common
  import opened DeckService
  import opened DeckInvariant
  import opened DeckTheorems
  import opened DeckSnapshot
  import opened Encoders
  import opened DeckStream
  import opened DeckStreamInvariant

  /** Name-based UUIDs are never empty. */
  ghost predicate UuidsNamed(env: Env) { forall a, b :: env.uuid(a, b) != "" }

  /** Every entry of the stream can be read back, by a replica with or without the key in its cache. */
  lemma EntryReadable(env: Env, s: Store, i: nat, e: Entry, cache: Option<Key>, room: string, game: string)
    requires i <= |s.events| && EntryOk(env, s, i, e) && (cache == None || cache == Some(e.key)) && UuidsNamed(env)
    requires (room == "" || room == env.c.room) && (game == "" || game == env.c.game)
    ensures Decrypt(env, cache, i, e.ev, room, game) == Plain(SnapshotOf(env.c, e.st), Some(e.key))
  {
    hide DeckStreamInvariant.Moves, SnapshotOf;
    EntryDecrypts(env, s, i, e, cache, room, game);
    NamesNotEmpty(env.c, i + 1);
  }

  lemma NamesNotEmpty(c: Ctx, revision: nat)
    ensures EventId(c, revision) != ""
  {}

  /** Every other replica is as before. */
  predicate OthersStay(w: World, w': World, p: nat)
  {
    forall x :: x in w.replicas && x != p ==> x in w'.replicas && w'.replicas[x] == w.replicas[x]
  }

  lemma StepOthers(env: Env, w: World, l: Label, p: nat)
    requires l.Land? || l.p == p
    ensures OthersStay(w, Next(env, w, l), p)
  {
    hide CallStep, Step, Proper;
    if !l.Land? && !l.NewReplica? && !l.Start? && p in w.replicas && w.replicas[p].call.Some? {
      CallOthers(env, w, p, w.replicas[p], w.replicas[p].call.value, l);
    }
  }

  lemma CallOthers(env: Env, w: World, p: nat, r: Replica, call: Call, l: Label)
    ensures OthersStay(w, CallStep(env, w, p, r, call, l), p)
  {
    hide Decrypt, CachedOrUnwrap, Authentic, SameLogicalEvent, MakeEvent, StreamKey, Step, Proper, SnapshotOf, Accepted, Restored;
  }

  lemma StayTogether(w: World, w1: World, w2: World, p: nat)
    requires OthersStay(w, w1, p) && OthersStay(w1, w2, p)
    ensures OthersStay(w, w2, p)
  {}

  /** One more step of replica p, or a landing, after a run from w0 in which p alone moved. */
  lemma Then(env: Env, start: World, ls: seq<Label>, w0: World, w: World, p: nat, l: Label) returns (ls': seq<Label>)
    requires DeckStream.Run(env, start, ls) == w && WorldInv(env, w) && (l.Land? || l.p == p) && OthersStay(w0, w, p)
    ensures DeckStream.Run(env, start, ls') == Next(env, w, l) && WorldInv(env, Next(env, w, l)) && OthersStay(w0, Next(env, w, l), p)
  {
    hide WorldInv, Next, OthersStay;
    ls' := ls + [l];
    assert ls'[..|ls|] == ls;
    NextKeeps(env, w, l);
    StepOthers(env, w, l, p);
    StayTogether(w0, w, Next(env, w, l), p);
  }

  lemma Itself(w: World, p: nat)
    ensures OthersStay(w, w, p)
  {}

  /** The replica p is at this point of its call. */
  predicate Calls(w: World, p: nat, call: Call) { p in w.replicas && w.replicas[p].call == Some(call) }

  /** Stream and answers are as before. */
  predicate Quiet(w: World, w': World) { w'.store == w.store && w'.acks == w.acks }

  ghost function Latest(s: Store): St { StateAt(s, |s.events|) }

  lemma LoadedFirst(env: Env, w: World, p: nat, call: Call)
    requires Calls(w, p, call) && call.pc.Begin?
    ensures var w' := Next(env, w, LoadFirst(p));
            && (w.store.events != [] ==>
                  w' == Set(w, p, At(w.replicas[p], call, ReadFirst(w.store.events[0].ev))))
            && (w.store.events == [] && call.req.Initialize? ==> w' == Set(w, p, At(w.replicas[p], call, Loaded(0, EMPTY))))
            && (w.store.events == [] && !call.req.Initialize? ==>
                  w' == Return(w, p, w.replicas[p], Ack(call.req, NotFoundReply(call.req), call.began, 0, false, 0)))
  {}

  lemma LoadedLatest(env: Env, w: World, p: nat, call: Call)
    requires WorldInv(env, w) && UuidsNamed(env) && Calls(w, p, call) && w.store.events != []
    requires call.pc == ReadFirst(w.store.events[0].ev)
    ensures var w' := Next(env, w, LoadLatest(p));
            Quiet(w, w') && Calls(w', p, call.(pc := Loaded(|w.store.events|, Latest(w.store))))
  {
    hide WorldInv, EntryOk, Decrypt, CachedOrUnwrap, Accepted, Restored, Inv;
    Known(env, w, p);
    var s, r := w.store, w.replicas[p];
    var n := |s.events| - 1;
    FirstKey(env, s, 0);
    FirstKey(env, s, n);
    EntryDecrypts(env, s, 0, s.events[0], r.cache, "", "");
    EntryDecrypts(env, s, n, s.events[n], r.cache, "", "");
    EntryReadable(env, s, n, s.events[n], Some(s.events[0].key), env.c.room, env.c.game);
    EntryNamed(env, s, n);
    StateInv(env, s, n + 1);
    RestoreRoundTrip(env.c, s.events[n].st);
  }

  lemma EntryNamed(env: Env, s: Store, i: nat)
    requires i < |s.events| && EntryOk(env, s, i, s.events[i])
    ensures s.events[i].ev.meta.roomId == env.c.room && s.events[i].ev.meta.gameId == env.c.game
  {
    hide DeckStreamInvariant.Moves, SnapshotOf;
  }

  /** The replica reads the stream's latest state. */
  lemma ThenLoads(env: Env, start: World, ls: seq<Label>, w: World, p: nat, call: Call) returns (ls': seq<Label>, w': World)
    requires DeckStream.Run(env, start, ls) == w && WorldInv(env, w) && UuidsNamed(env)
    requires Calls(w, p, call) && call.pc.Begin? && (w.store.events != [] || call.req.Initialize?)
    ensures DeckStream.Run(env, start, ls') == w' && WorldInv(env, w') && Quiet(w, w') && OthersStay(w, w', p)
    ensures Calls(w', p, call.(pc := Loaded(|w.store.events|, Latest(w.store))))
  {
    hide WorldInv, Next, OthersStay;
    Itself(w, p);
    ls' := Then(env, start, ls, w, w, p, LoadFirst(p));
    w' := Next(env, w, LoadFirst(p));
    LoadedFirst(env, w, p, call);
    if w.store.events != [] {
      ls' := Then(env, start, ls', w, w', p, LoadLatest(p));
      LoadedLatest(env, w', p, call.(pc := ReadFirst(w.store.events[0].ev)));
      w' := Next(env, w', LoadLatest(p));
    }
  }

  /** The key for an append is at hand. */
  lemma KeyAtHand(env: Env, w: World, r: Replica, base: nat, candidate: Key)
    requires StoreOk(env, w.store) && CacheOk(w.store, r.cache) && base == |w.store.events| && GoodCandidate(env, candidate)
    ensures StreamKey(env, w, r, base == 0, candidate).Some?
  {
    hide DeckStreamInvariant.Moves;
    if w.store.events != [] { assert EntryOk(env, w.store, 0, w.store.events[0]); }
  }

  lemma SentOne(env: Env, w: World, p: nat, call: Call, candidate: Key, nonce: string) returns (m: Msg)
    requires WorldInv(env, w) && Calls(w, p, call) && call.pc.Changed? && call.pc.base == |w.store.events|
    requires GoodCandidate(env, candidate) && nonce != ""
    ensures var w' := Next(env, w, Send(p, candidate, nonce));
            && w'.acks == w.acks && w'.store == SendTo(w.store, m) && Calls(w', p, call.(pc := Sent(m)))
    ensures m.expected == |w.store.events| && m.entry.req == call.pc.req && m.entry.st == call.pc.st'
  {
    hide WorldInv, StreamKey, MakeEvent, GoodCandidate;
    Known(env, w, p);
    KeyAtHand(env, w, w.replicas[p], call.pc.base, candidate);
    m := Next(env, w, Send(p, candidate, nonce)).replicas[p].call.value.pc.msg;
  }

  /** The append is sent and lands, and its writer is told. */
  lemma ThenSends(env: Env, start: World, ls: seq<Label>, w: World, p: nat, call: Call, candidate: Key, nonce: string)
    returns (ls': seq<Label>, w': World, m: Msg)
    requires DeckStream.Run(env, start, ls) == w && WorldInv(env, w)
    requires Calls(w, p, call) && call.pc.Changed? && call.pc.base == |w.store.events| && GoodCandidate(env, candidate) && nonce != ""
    ensures DeckStream.Run(env, start, ls') == w' && WorldInv(env, w') && w'.acks == w.acks && OthersStay(w, w', p)
    ensures w'.store.events == w.store.events + [m.entry] && m.entry.req == call.pc.req && m.entry.st == call.pc.st'
    ensures m.expected == |w.store.events|
    ensures Calls(w', p, call.(pc := if |w.store.events| == 0 then Anchoring(m) else Appended(m)))
  {
    hide WorldInv, Next, OthersStay;
    Itself(w, p);
    m := SentOne(env, w, p, call, candidate, nonce);
    ls' := Then(env, start, ls, w, w, p, Send(p, candidate, nonce));
    w' := Next(env, w, Send(p, candidate, nonce));
    ls' := Then(env, start, ls', w, w', p, Land(m));
    LandedOne(env, w', m);
    var w2 := Next(env, w', Land(m));
    ls' := Then(env, start, ls', w, w2, p, Learn(p, Acknowledged));
    ToldOne(env, w2, p, call.(pc := Sent(m)), m);
    w' := Next(env, w2, Learn(p, Acknowledged));
  }

  lemma LandedOne(env: Env, w: World, m: Msg)
    requires m in w.store.flight && m.expected == |w.store.events|
    ensures var w' := Next(env, w, Land(m));
            w'.store.events == w.store.events + [m.entry] && w'.acks == w.acks && w'.replicas == w.replicas
  {}

  lemma ToldOne(env: Env, w: World, p: nat, call: Call, m: Msg)
    requires Calls(w, p, call) && call.pc == Sent(m) && m.expected < |w.store.events| && w.store.events[m.expected] == m.entry
    ensures var w' := Next(env, w, Learn(p, Acknowledged));
            Quiet(w, w') && Calls(w', p, call.(pc := if m.expected == 0 then Anchoring(m) else Appended(m)))
  {}

  /** After a first write the replica finds its own event, and keeps its key. */
  lemma AnchoredOne(env: Env, w: World, p: nat, call: Call, m: Msg)
    requires WorldInv(env, w) && UuidsNamed(env) && Calls(w, p, call) && call.pc == Anchoring(m)
    requires w.store.events != [] && w.store.events[0] == m.entry
    ensures var w' := Next(env, w, AnchorFirst(p));
            Quiet(w, w') && Calls(w', p, call.(pc := Appended(m)))
  {
    hide WorldInv, EntryOk, Decrypt, SnapshotOf;
    Known(env, w, p);
    var s := w.store;
    FirstKey(env, s, 0);
    EntryDecrypts(env, s, 0, s.events[0], None, "", "");
    EntryReadable(env, s, 0, s.events[0], Some(m.entry.key), "", "");
    FirstAuthentic(env, s);
  }

  lemma FirstAuthentic(env: Env, s: Store)
    requires s.events != [] && EntryOk(env, s, 0, s.events[0]) && UuidsNamed(env)
    ensures var e := s.events[0];
            && Authentic(env, e.ev.meta, 0, e.ev, e.ev.meta.roomId, e.ev.meta.gameId)
            && e.ev.box.plain == SnapshotOf(env.c, e.st)
  {
    hide DeckStreamInvariant.Moves, SnapshotOf;
    NamesNotEmpty(env.c, 1);
  }

  /** The callback runs once: an unchanged state is answered at once, a changed one is to be stored. */
  lemma RanOne(env: Env, w: World, p: nat, call: Call, seed: string)
    requires WorldInv(env, w) && Calls(w, p, call) && call.pc == Loaded(|w.store.events|, Latest(w.store))
    requires Drawn(call.req, seed).WellTyped() && Latest(w.store).Valid()
    requires var reply := Step(env.c, Latest(w.store), Drawn(call.req, seed)).1; !reply.Failed? && !reply.Panicked?
    ensures var (w', req, st) := (Next(env, w, RunCallback(p, seed)), Drawn(call.req, seed), Latest(w.store));
            var (st', reply) := Step(env.c, st, req);
            if st' == st then
              w'.store == w.store && p in w'.replicas && w'.replicas[p].call.None?
              && w'.acks == w.acks + [Ack(req, reply, call.began, |w.store.events|, false, 0)]
            else
              Quiet(w, w') && Calls(w', p, call.(result := Some(reply), pc := Changed(|w.store.events|, req, st')))
  {
    hide WorldInv, StoreOk, Step, SnapshotOf, Inv, Proper;
    Known(env, w, p);
    var st, req := Latest(w.store), Drawn(call.req, seed);
    StateInv(env, w.store, |w.store.events|);
    StepKeeps(env.c, st, req);
    var (st', reply) := Step(env.c, st, req);
    if reply.Refused? { RefusedKeeps(env.c, st, req); }
    if SnapshotOf(env.c, st') == SnapshotOf(env.c, st) { SnapshotInjective(env.c, st', st); }
  }

  lemma FinishedOne(env: Env, w: World, p: nat, call: Call, m: Msg, reply: Reply)
    requires Calls(w, p, call) && call.pc == Appended(m) && call.result == Some(reply) && call.rej == None
    ensures var w' := Next(env, w, Finish(p));
            && w'.store == w.store && p in w'.replicas && w'.replicas[p].call.None?
            && w'.acks == w.acks + [Ack(m.entry.req, reply, call.began, m.expected, true, m.entry.author)]
  {}

  /** What the sequential machine does with the request in the stream's latest state. */
  ghost function Sequential(env: Env, s: Store, req: Request): (St, Reply)
    requires StoreOk(env, s) && req.WellTyped()
  {
    StateInv(env, s, |s.events|);
    Step(env.c, Latest(s), req)
  }

  /** The call has returned the sequential machine's answer, and the stream has its state. */
  ghost predicate Answered(env: Env, w: World, w': World, p: nat, req: Request)
    requires StoreOk(env, w.store) && req.WellTyped()
  {
    var (st', reply) := Sequential(env, w.store, req);
    && p in w'.replicas && w'.replicas[p].call.None?
    && |w'.acks| == |w.acks| + 1 && w.acks <= w'.acks && w'.acks[|w.acks|].req == req && w'.acks[|w.acks|].reply == reply
    && Latest(w'.store) == st'
    && (st' == Latest(w.store) ==> w'.store.events == w.store.events)
    && (st' != Latest(w.store) ==>
          |w'.store.events| == |w.store.events| + 1 && w.store.events <= w'.store.events
          && w'.store.events[|w.store.events|].req == req)
  }

  /** From the loaded state to the answer. */
  lemma ThenAnswers(env: Env, start: World, ls: seq<Label>, w: World, p: nat, call: Call, seed: string, candidate: Key, nonce: string)
    returns (ls': seq<Label>, w': World)
    requires DeckStream.Run(env, start, ls) == w && WorldInv(env, w) && UuidsNamed(env)
    requires Calls(w, p, call) && call.pc == Loaded(|w.store.events|, Latest(w.store))
    requires StoreOk(env, w.store) && Drawn(call.req, seed).WellTyped()
    requires var reply := Sequential(env, w.store, Drawn(call.req, seed)).1; !reply.Failed? && !reply.Panicked?
    requires GoodCandidate(env, candidate) && nonce != ""
    ensures DeckStream.Run(env, start, ls') == w' && WorldInv(env, w') && Answered(env, w, w', p, Drawn(call.req, seed))
    ensures OthersStay(w, w', p) && w'.acks[|w.acks|].began == call.began && w'.acks[|w.acks|].place == |w.store.events|
  {
    hide WorldInv, Next, Step, StoreOk, OthersStay;
    Itself(w, p);
    StateInv(env, w.store, |w.store.events|);
    assert call.rej == None by { NoRejection(env, w, p, call); }
    var req := Drawn(call.req, seed);
    var (st', reply) := Step(env.c, Latest(w.store), req);
    ls' := Then(env, start, ls, w, w, p, RunCallback(p, seed));
    RanOne(env, w, p, call, seed);
    w' := Next(env, w, RunCallback(p, seed));
    if st' != Latest(w.store) {
      var changed := call.(result := Some(reply), pc := Changed(|w.store.events|, req, st'));
      var w1 := w';
      ls', w' := ThenCommits(env, start, ls', w1, p, changed, reply, candidate, nonce);
      StayTogether(w, w1, w', p);
    }
  }

  /** From the changed state to the answer: the append, the check of a first write, and the response. */
  lemma ThenCommits(env: Env, start: World, ls: seq<Label>, w: World, p: nat, call: Call, reply: Reply, candidate: Key, nonce: string)
    returns (ls': seq<Label>, w': World)
    requires DeckStream.Run(env, start, ls) == w && WorldInv(env, w) && UuidsNamed(env) && GoodCandidate(env, candidate) && nonce != ""
    requires Calls(w, p, call) && call.pc.Changed? && call.pc.base == |w.store.events|
    requires call.result == Some(reply) && call.rej == None
    ensures DeckStream.Run(env, start, ls') == w' && WorldInv(env, w') && OthersStay(w, w', p) && p in w'.replicas && w'.replicas[p].call.None?
    ensures exists e: Entry :: w'.store.events == w.store.events + [e] && e.req == call.pc.req && e.st == call.pc.st'
    ensures exists author :: w'.acks == w.acks + [Ack(call.pc.req, reply, call.began, |w.store.events|, true, author)]
  {
    hide WorldInv, Next, OthersStay, GoodCandidate;
    var m: Msg;
    ls', w', m := ThenSends(env, start, ls, w, p, call, candidate, nonce);
    if w.store.events == [] {
      AnchoredOne(env, w', p, call.(pc := Anchoring(m)), m);
      ls' := Then(env, start, ls', w, w', p, AnchorFirst(p));
      w' := Next(env, w', AnchorFirst(p));
    }
    FinishedOne(env, w', p, call.(pc := Appended(m)), m, reply);
    ls' := Then(env, start, ls', w, w', p, Finish(p));
    w' := Next(env, w', Finish(p));
    assert w'.store.events == w.store.events + [m.entry];
  }

  lemma NoRejection(env: Env, w: World, p: nat, call: Call)
    requires WorldInv(env, w) && Calls(w, p, call)
    ensures call.rej == None && call.req.WellTyped()
  {
    hide StoreOk, EntryOk, Proper;
    Known(env, w, p);
  }

  lemma ThenCalls(env: Env, start: World, before: seq<Label>, w: World, p: nat, req: Request, seed: string, candidate: Key, nonce: string)
    returns (ls: seq<Label>, w': World)
    requires DeckStream.Run(env, start, before) == w
    requires WorldInv(env, w) && UuidsNamed(env) && p in w.replicas && w.replicas[p].call.None?
    requires req.WellTyped() && Drawn(req, seed).WellTyped()
    requires var reply := Sequential(env, w.store, Drawn(req, seed)).1; !reply.Failed? && !reply.Panicked?
    requires GoodCandidate(env, candidate) && nonce != ""
    ensures DeckStream.Run(env, start, ls) == w' && WorldInv(env, w') && Answered(env, w, w', p, Drawn(req, seed))
    ensures OthersStay(w, w', p)
  {
    hide WorldInv, Next, Step, Proper, StoreOk, Answered, DeckStream.Run, OthersStay;
    Itself(w, p);
    Known(env, w, p);
    ls := Then(env, start, before, w, w, p, Start(p, req));
    w' := Next(env, w, Start(p, req));
    StartedOne(env, w, p, req);
    if (req.ReserveDeal? || req.ReserveDraw?) && !Proper(req) {
      RefusedAtOnce(env, w, w', p, req);
    } else {
      var call := Call(req, |w.store.events|, None, None, true, Begin);
      if w.store.events == [] && !req.Initialize? {
        RefusedEmpty(env, w, w', p, call);
        ls := Then(env, start, ls, w, w', p, LoadFirst(p));
        w' := Next(env, w', LoadFirst(p));
      } else {
        var w1 := w';
        ls, w' := ThenLoads(env, start, ls, w1, p, call);
        var w2 := w';
        ls, w' := ThenAnswers(env, start, ls, w2, p, call.(pc := Loaded(|w.store.events|, Latest(w.store))), seed, candidate, nonce);
        StayTogether(w, w1, w2, p);
        StayTogether(w, w2, w', p);
        AnsweredSince(env, w, w2, w', p, Drawn(req, seed));
      }
    }
  }

  /** In every reachable state, a call that is left alone returns the answer that the sequential machine gives to its request in
      the stream's latest state, and leaves the machine's next state in the stream, if it is another one, as one more event. */
  lemma UncontendedCallAnswers(env: Env, w: World, p: nat, req: Request, seed: string, candidate: Key, nonce: string)
    returns (ls: seq<Label>, w': World)
    requires WorldInv(env, w) && UuidsNamed(env) && p in w.replicas && w.replicas[p].call.None?
    requires req.WellTyped() && Drawn(req, seed).WellTyped()
    requires var reply := Sequential(env, w.store, Drawn(req, seed)).1; !reply.Failed? && !reply.Panicked?
    requires GoodCandidate(env, candidate) && nonce != ""
    ensures DeckStream.Run(env, w, ls) == w' && Answered(env, w, w', p, Drawn(req, seed))
  {
    hide WorldInv, Step, StoreOk, Answered, DeckStream.Run;
    assert DeckStream.Run(env, w, []) == w by { NoRun(env, w); }
    ls, w' := ThenCalls(env, w, [], w, p, req, seed, candidate, nonce);
  }

  lemma NoRun(env: Env, w: World)
    ensures DeckStream.Run(env, w, []) == w
  {}

  // ---- every run of the sequential machine

  /** The sequential machine's answer to the i-th of some requests. */
  ghost function ReplyAt(c: Ctx, reqs: seq<Request>, i: nat): Reply
    requires AllWellTyped(reqs) && i < |reqs|
  {
    StartInv(c);
    var st := DeckInvariant.Run(c, EMPTY, reqs[..i]);
    StepKeeps(c, st, reqs[i]);
    Step(c, st, reqs[i]).1
  }

  /** No request panics or fails. */
  ghost predicate Answerable(c: Ctx, reqs: seq<Request>)
    requires AllWellTyped(reqs)
  {
    forall i :: 0 <= i < |reqs| ==> !ReplyAt(c, reqs, i).Failed? && !ReplyAt(c, reqs, i).Panicked?
  }

  /** The stream and the answers show the sequential run of the requests. */
  ghost predicate Shows(env: Env, w: World, reqs: seq<Request>)
    requires AllWellTyped(reqs)
  {
    StartInv(env.c);
    && Latest(w.store) == DeckInvariant.Run(env.c, EMPTY, reqs) && |w.acks| == |reqs|
    && forall i :: 0 <= i < |reqs| ==> w.acks[i].req == reqs[i] && w.acks[i].reply == ReplyAt(env.c, reqs, i)
  }

  /** The other half of the refinement: for every sequence of requests that the sequential machine answers, some interleaving
      of the durable repository commits its final state and gives all its answers. */
  lemma {:induction false} EveryRunIsRealised(env: Env, reqs: seq<Request>, candidate: Key, nonce: string) returns (ls: seq<Label>, w: World)
    requires env.c.room != "" && env.c.game != "" && UuidsNamed(env) && GoodCandidate(env, candidate) && nonce != ""
    requires AllWellTyped(reqs) && Answerable(env.c, reqs)
    ensures DeckStream.Run(env, EMPTY_WORLD, ls) == w && WorldInv(env, w) && 0 in w.replicas && w.replicas[0].call.None?
    ensures Shows(env, w, reqs)
    decreases |reqs|
  {
    hide WorldInv, Step, StoreOk, Answered, DeckStream.Run, DeckInvariant.Run, Next, Shows, GoodCandidate, UuidsNamed, Answerable;
    if reqs == [] {
      assert DeckStream.Run(env, EMPTY_WORLD, []) == EMPTY_WORLD by { NoRun(env, EMPTY_WORLD); }
      StartWorld(env);
      Itself(EMPTY_WORLD, 0);
      ls := Then(env, EMPTY_WORLD, [], EMPTY_WORLD, EMPTY_WORLD, 0, NewReplica(0));
      w := Next(env, EMPTY_WORLD, NewReplica(0));
      FirstReplica(env);
    } else {
      var n := |reqs| - 1;
      SomeAnswerable(env.c, reqs, n);
      var before, w0 := EveryRunIsRealised(env, reqs[..n], candidate, nonce);
      var req := reqs[n];
      var seed := if req.Initialize? then req.seed else "";
      assert Drawn(req, seed) == req;
      Known(env, w0, 0);
      NextReply(env, w0, reqs);
      ls, w := ThenCalls(env, EMPTY_WORLD, before, w0, 0, req, seed, candidate, nonce);
      ShowsNext(env, w0, w, reqs);
    }
  }

  lemma FirstReplica(env: Env)
    ensures var w := Next(env, EMPTY_WORLD, NewReplica(0));
            0 in w.replicas && w.replicas[0].call.None? && Shows(env, w, [])
  {
    StartInv(env.c);
  }

  lemma PrefixReply(c: Ctx, reqs: seq<Request>, n: nat, i: nat)
    requires AllWellTyped(reqs) && i < n <= |reqs|
    ensures ReplyAt(c, reqs[..n], i) == ReplyAt(c, reqs, i)
  {
    hide Step, DeckInvariant.Run;
    assert reqs[..n][..i] == reqs[..i];
  }

  lemma SomeAnswerable(c: Ctx, reqs: seq<Request>, n: nat)
    requires AllWellTyped(reqs) && Answerable(c, reqs) && n <= |reqs|
    ensures Answerable(c, reqs[..n])
  {
    hide ReplyAt;
    forall i | 0 <= i < n ensures !ReplyAt(c, reqs[..n], i).Failed? && !ReplyAt(c, reqs[..n], i).Panicked? {
      PrefixReply(c, reqs, n, i);
    }
  }

  lemma NextReply(env: Env, w: World, reqs: seq<Request>)
    requires reqs != [] && AllWellTyped(reqs) && Answerable(env.c, reqs) && StoreOk(env, w.store) && Shows(env, w, reqs[..|reqs| - 1])
    ensures var (st, reply) := Sequential(env, w.store, reqs[|reqs| - 1]);
            reply == ReplyAt(env.c, reqs, |reqs| - 1) && !reply.Failed? && !reply.Panicked?
  {
    hide StoreOk, Step, DeckInvariant.Run;
  }

  lemma ShowsNext(env: Env, w: World, w': World, reqs: seq<Request>)
    requires reqs != [] && AllWellTyped(reqs) && StoreOk(env, w.store) && Shows(env, w, reqs[..|reqs| - 1])
    requires Answered(env, w, w', 0, reqs[|reqs| - 1])
    ensures Shows(env, w', reqs) && 0 in w'.replicas && w'.replicas[0].call.None?
  {
    hide StoreOk, Step, ReplyAt;
    var n := |reqs| - 1;
    forall i | 0 <= i < n ensures ReplyAt(env.c, reqs[..n], i) == ReplyAt(env.c, reqs, i) { PrefixReply(env.c, reqs, n, i); }
    LastReply(env, w, reqs);
  }

  lemma LastReply(env: Env, w: World, reqs: seq<Request>)
    requires reqs != [] && AllWellTyped(reqs) && StoreOk(env, w.store) && Shows(env, w, reqs[..|reqs| - 1])
    ensures Sequential(env, w.store, reqs[|reqs| - 1]).1 == ReplyAt(env.c, reqs, |reqs| - 1)
  {
    hide StoreOk, Step, DeckInvariant.Run;
  }

  lemma AnsweredSince(env: Env, w: World, w1: World, w': World, p: nat, req: Request)
    requires Quiet(w, w1) && StoreOk(env, w.store) && req.WellTyped() && Answered(env, w1, w', p, req)
    ensures Answered(env, w, w', p, req)
  {
    hide StoreOk, Step;
  }

  lemma RefusedAtOnce(env: Env, w: World, w': World, p: nat, req: Request)
    requires WorldInv(env, w) && StoreOk(env, w.store) && req.WellTyped() && p in w.replicas
    requires (req.ReserveDeal? || req.ReserveDraw?) && !Proper(req)
    requires w' == Return(w, p, w.replicas[p], Ack(req, Step(env.c, EMPTY, req).1, |w.store.events|, |w.store.events|, false, 0))
    ensures Answered(env, w, w', p, req)
  {
    hide WorldInv, StoreOk, Step, Proper;
    StateInv(env, w.store, |w.store.events|);
    ImproperAnywhere(env.c, Latest(w.store), req);
  }

  lemma RefusedEmpty(env: Env, w: World, w1: World, p: nat, call: Call)
    requires WorldInv(env, w) && StoreOk(env, w.store) && Quiet(w, w1) && Calls(w1, p, call) && call.pc.Begin?
    requires w.store.events == [] && !call.req.Initialize? && call.req.WellTyped()
    requires call.req.ReserveDeal? || call.req.ReserveDraw? ==> Proper(call.req)
    ensures Answered(env, w, Next(env, w1, LoadFirst(p)), p, call.req)
  {
    hide StoreOk, Step, Proper, Next;
    EmptyRefuses(env.c, call.req);
    LoadedFirst(env, w1, p, call);
  }

  lemma StartedOne(env: Env, w: World, p: nat, req: Request)
    requires p in w.replicas && w.replicas[p].call.None? && req.WellTyped()
    ensures var (w', n) := (Next(env, w, Start(p, req)), |w.store.events|);
            if (req.ReserveDeal? || req.ReserveDraw?) && !Proper(req) then
              w' == Return(w, p, w.replicas[p], Ack(req, Step(env.c, EMPTY, req).1, n, n, false, 0))
            else Quiet(w, w') && Calls(w', p, Call(req, n, None, None, true, Begin))
  {
    hide Step, Proper;
  }
}
