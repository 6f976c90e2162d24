/** Two replicas that write to one place of a deck stream: what a later append acknowledged by its UUID alone would mean. */
module DeckStreamRaces {
  import opened Common
  import opened DeckService
  import opened DeckInvariant
  import opened DeckTheorems
  import opened DeckSnapshot
  import opened DeckStream
  import opened DeckStreamInvariant
  import opened DeckStreamProgress

  /** The replica has sent an append that is not a first write, and its place in the stream is taken. */
  predicate Overtaken(w: World, p: nat)
  {
    && p in w.replicas && w.replicas[p].call.Some? && w.replicas[p].call.value.pc.Sent?
    && 0 < w.replicas[p].call.value.pc.msg.expected < |w.store.events|
  }

  /** The replica is told that its append succeeded, and its call answers. */
  ghost function Told(env: Env, w: World, p: nat): World
    requires Overtaken(w, p)
  {
    var r := w.replicas[p];
    Next(env, Set(w, p, At(r, r.call.value, Appended(r.call.value.pc.msg))), Finish(p))
  }

  /** The request takes the state at the answer's place to the state after it, with this reply. */
  ghost predicate Truthful(env: Env, s: Store, a: Ack)
  {
    && a.req.WellTyped() && a.place < |s.events| && StateAt(s, a.place).Valid()
    && Step(env.c, StateAt(s, a.place), a.req) == (StateAt(s, a.place + 1), a.reply)
  }

  /** In every reachable state the event at an overtaken append's place has the append's UUID. If the store acknowledged the
      append for that, the call would answer, and the answer would be true exactly when the committed state is the one that the
      writer meant. */
  lemma AnswerByUuid(env: Env, ls: seq<Label>, p: nat)
    requires env.c.room != "" && env.c.game != ""
    requires Overtaken(DeckStream.Run(env, EMPTY_WORLD, ls), p)
    ensures var w := DeckStream.Run(env, EMPTY_WORLD, ls);
            var m := w.replicas[p].call.value.pc.msg;
            var w' := Told(env, w, p);
            && w.store.events[m.expected].ev.uuid == m.entry.ev.uuid
            && w'.store == w.store && |w'.acks| == |w.acks| + 1
            && (Truthful(env, w.store, w'.acks[|w.acks|]) <==> w.store.events[m.expected].st == m.entry.st)
  {
    hide DeckStream.Run, WorldInv, Next;
    StartWorld(env);
    RunKeeps(env, EMPTY_WORLD, ls);
    var w := DeckStream.Run(env, EMPTY_WORLD, ls);
    var call := w.replicas[p].call.value;
    SentAnswers(env, w, p);
    var w1 := Set(w, p, At(w.replicas[p], call, Appended(call.pc.msg)));
    FinishedOne(env, w1, p, call.(pc := Appended(call.pc.msg)), call.pc.msg, call.result.value);
  }

  lemma SentAnswers(env: Env, w: World, p: nat)
    requires WorldInv(env, w) && Overtaken(w, p)
    ensures var call := w.replicas[p].call.value;
            var (m, s) := (call.pc.msg, w.store);
            && call.rej == None && m.entry.req.WellTyped() && StateAt(s, m.expected).Valid()
            && call.result == Some(Step(env.c, StateAt(s, m.expected), m.entry.req).1)
            && Step(env.c, StateAt(s, m.expected), m.entry.req).0 == m.entry.st
            && s.events[m.expected].ev.uuid == m.entry.ev.uuid
  {
    hide WorldInv, StoreOk, Step, SnapshotOf, GoodCandidate, EventId, Inv, Proper;
    Known(env, w, p);
    TakenPlace(env, w.store, w.replicas[p].call.value.pc.msg.expected);
  }

  lemma TakenPlace(env: Env, s: Store, i: nat)
    requires StoreOk(env, s) && i < |s.events|
    ensures EntryOk(env, s, i, s.events[i])
  {
    hide EntryOk;
  }

  /** The replica sends its append, and nothing lands. */
  lemma ThenSendsOnly(env: Env, start: World, before: seq<Label>, w: World, q: nat, req: Request, seed: string, candidate: Key, nonce: string)
    returns (ls: seq<Label>, w': World, m: Msg)
    requires DeckStream.Run(env, start, before) == w && WorldInv(env, w) && UuidsNamed(env) && w.store.events != []
    requires q in w.replicas && w.replicas[q].call.None? && StoreOk(env, w.store)
    requires req.WellTyped() && Drawn(req, seed).WellTyped() && GoodCandidate(env, candidate) && nonce != ""
    requires var (st', reply) := Sequential(env, w.store, Drawn(req, seed));
             !reply.Failed? && !reply.Panicked? && st' != Latest(w.store)
    ensures DeckStream.Run(env, start, ls) == w' && WorldInv(env, w') && OthersStay(w, w', q)
    ensures q in w'.replicas && w'.replicas[q].call.Some? && w'.replicas[q].call.value.pc == Sent(m)
    ensures w'.store == SendTo(w.store, m) && m.expected == |w.store.events|
    ensures m.entry.req == Drawn(req, seed) && m.entry.st == Sequential(env, w.store, Drawn(req, seed)).0
  {
    hide WorldInv, Next, Step, Proper, StoreOk, DeckStream.Run, OthersStay, GoodCandidate, UuidsNamed;
    Itself(w, q);
    ls := Then(env, start, before, w, w, q, Start(q, req));
    var w1 := Next(env, w, Start(q, req));
    MovingIsProper(env, w.store, req, seed);
    StartedOne(env, w, q, req);
    var call := Call(req, |w.store.events|, None, None, true, Begin);
    var w2, w3;
    ls, w2 := ThenLoads(env, start, ls, w1, q, call);
    StayTogether(w, w1, w2, q);
    var loaded := call.(pc := Loaded(|w.store.events|, Latest(w.store)));
    StateInv(env, w.store, |w.store.events|);
    ls := Then(env, start, ls, w, w2, q, RunCallback(q, seed));
    RanOne(env, w2, q, loaded, seed);
    w3 := Next(env, w2, RunCallback(q, seed));
    var (st', reply) := Step(env.c, Latest(w.store), Drawn(req, seed));
    m := SentOne(env, w3, q, loaded.(result := Some(reply), pc := Changed(|w.store.events|, Drawn(req, seed), st')), candidate, nonce);
    ls := Then(env, start, ls, w, w3, q, Send(q, candidate, nonce));
    w' := Next(env, w3, Send(q, candidate, nonce));
  }

  lemma MovingIsProper(env: Env, s: Store, req: Request, seed: string)
    requires StoreOk(env, s) && req.WellTyped() && Drawn(req, seed).WellTyped()
    requires Sequential(env, s, Drawn(req, seed)).0 != Latest(s)
    ensures req.ReserveDeal? || req.ReserveDraw? ==> Proper(req)
  {
    hide StoreOk, Step, Proper;
    StateInv(env, s, |s.events|);
    if (req.ReserveDeal? || req.ReserveDraw?) && !Proper(req) { ImproperAnywhere(env.c, Latest(s), req); }
  }

  /** From every reachable state of a deck that exists, two replicas whose requests lead to different states can race so that the
      one that loses is told that it succeeded, if the UUID decides, and its answer is false. */
  lemma UuidAloneMisleads(env: Env, before: seq<Label>, p: nat, q: nat, first: Request, second: Request, seed: string,
                          candidate: Key, nonce: string)
    returns (ls: seq<Label>)
    requires env.c.room != "" && env.c.game != "" && UuidsNamed(env) && GoodCandidate(env, candidate) && nonce != ""
    requires Drawn(first, seed).WellTyped() && Drawn(second, seed).WellTyped() && first.WellTyped() && second.WellTyped()
    requires var w := DeckStream.Run(env, EMPTY_WORLD, before);
             && w.store.events != [] && p != q && p in w.replicas && q in w.replicas
             && w.replicas[p].call.None? && w.replicas[q].call.None?
             && StoreOk(env, w.store)
             && var (st1, reply1) := Sequential(env, w.store, Drawn(first, seed));
             && var (st2, reply2) := Sequential(env, w.store, Drawn(second, seed));
             && !reply1.Failed? && !reply1.Panicked? && !reply2.Failed? && !reply2.Panicked?
             && st1 != Latest(w.store) && st2 != Latest(w.store) && st1 != st2
    ensures var w := DeckStream.Run(env, EMPTY_WORLD, ls);
            && Overtaken(w, q)
            && var told := Told(env, w, q);
            |told.acks| == |w.acks| + 1 && told.acks[|w.acks|].req == Drawn(second, seed) && !Truthful(env, w.store, told.acks[|w.acks|])
  {
    hide DeckStream.Run, WorldInv, Next, Step, StoreOk, OthersStay, Answered, Told, Truthful, GoodCandidate, UuidsNamed;
    var w := DeckStream.Run(env, EMPTY_WORLD, before);
    StartWorld(env);
    RunKeeps(env, EMPTY_WORLD, before);
    var w1, m, w2;
    ls, w1, m := ThenSendsOnly(env, EMPTY_WORLD, before, w, q, second, seed, candidate, nonce);
    Known(env, w1, q);
    AnotherIdle(w, w1, q, p);
    SameLatest(env, w.store, w1.store, Drawn(first, seed));
    ls, w2 := ThenCalls(env, EMPTY_WORLD, ls, w1, p, first, seed, candidate, nonce);
    OneEventMore(env, w1, w2, p, Drawn(first, seed));
    AnotherIdle(w1, w2, p, q);
    AnswerByUuid(env, ls, q);
    ToldRequest(env, w2, q);
  }

  lemma AnotherIdle(w: World, w': World, p: nat, x: nat)
    requires OthersStay(w, w', p) && x != p && x in w.replicas
    ensures x in w'.replicas && w'.replicas[x] == w.replicas[x]
  {}

  lemma SameLatest(env: Env, s: Store, s': Store, req: Request)
    requires StoreOk(env, s) && StoreOk(env, s') && s'.events == s.events && req.WellTyped()
    ensures Sequential(env, s', req) == Sequential(env, s, req) && Latest(s') == Latest(s)
  {
    hide StoreOk, Step;
  }

  lemma OneEventMore(env: Env, w: World, w': World, p: nat, req: Request)
    requires StoreOk(env, w.store) && req.WellTyped() && Answered(env, w, w', p, req)
    requires Sequential(env, w.store, req).0 != Latest(w.store)
    ensures |w'.store.events| == |w.store.events| + 1 && w'.store.events[|w.store.events|].st == Sequential(env, w.store, req).0
  {
    hide StoreOk, Step;
  }

  lemma ToldRequest(env: Env, w: World, p: nat)
    requires Overtaken(w, p) && |Told(env, w, p).acks| == |w.acks| + 1
    ensures Told(env, w, p).acks[|w.acks|].req == w.replicas[p].call.value.pc.msg.entry.req
  {}
}
