/** A call that loses the race for its place in a deck stream runs its callback a second time, and only a second time. */
module DeckStreamRetry {
  import opened Common
  import opened DeckService
  import opened DeckInvariant
  import opened DeckTheorems
  import opened DeckSnapshot
  import opened Encoders
  import opened DeckStream
  import opened DeckStreamInvariant
  import opened DeckStreamProgress

  /** The replica's append was sent, and another writer's event stands at its place. */
  predicate Lost(w: World, p: nat, call: Call)
  {
    && Calls(w, p, call) && (call.pc.Sent? || call.pc.Anchoring?)
    && call.pc.msg.expected < |w.store.events| && w.store.events[call.pc.msg.expected].author != call.pc.msg.entry.author
  }

  /** What the store may answer to a lost append: that the revision is another; for a first write also that it succeeded, since
      event 0 has the same UUID, or nothing certain. */
  predicate Tellable(m: Msg, told: AppendResult) { told == Conflicted || (m.expected == 0 && (told == Acknowledged || told == Unclear)) }

  lemma LostSend(env: Env, w: World, p: nat, call: Call, told: AppendResult)
    requires WorldInv(env, w) && Lost(w, p, call) && call.pc.Sent? && Tellable(call.pc.msg, told)
    ensures var w' := Next(env, w, Learn(p, told));
            && Quiet(w, w')
            && (told == Conflicted && call.retry ==> Calls(w', p, call.(retry := false, pc := Begin)))
            && (told == Conflicted && !call.retry ==> p in w'.replicas && w'.replicas[p].call.None?)
            && (told != Conflicted ==> Calls(w', p, call.(pc := Anchoring(call.pc.msg))))
  {
    hide WorldInv, StoreOk, Proper, Step, EntryOk;
    LostUuid(env, w, p, call);
  }

  lemma LostUuid(env: Env, w: World, p: nat, call: Call)
    requires WorldInv(env, w) && Lost(w, p, call) && call.pc.Sent?
    ensures w.store.events[call.pc.msg.expected].ev.uuid == call.pc.msg.entry.ev.uuid
  {
    hide WorldInv, StoreOk, Proper, SnapshotOf, GoodCandidate, Step, EventId, Inv;
    Known(env, w, p);
    FirstKey(env, w.store, call.pc.msg.expected);
  }

  /** After a first write the replica compares event 0 with its own. */
  lemma AnchoredOther(env: Env, w: World, p: nat, call: Call, m: Msg)
    requires WorldInv(env, w) && UuidsNamed(env) && Calls(w, p, call) && call.pc == Anchoring(m) && w.store.events != []
    ensures var w' := Next(env, w, AnchorFirst(p));
            && Quiet(w, w')
            && (w.store.events[0].st == m.entry.st ==> Calls(w', p, call.(pc := Appended(m))))
            && (w.store.events[0].st != m.entry.st && call.retry ==> Calls(w', p, call.(retry := false, pc := Begin)))
            && (w.store.events[0].st != m.entry.st && !call.retry ==> p in w'.replicas && w'.replicas[p].call.None?)
  {
    hide WorldInv, EntryOk, Decrypt, SnapshotOf, SameLogicalEvent, Authentic, Inv;
    Known(env, w, p);
    var s := w.store;
    FirstKey(env, s, 0);
    EntryDecrypts(env, s, 0, s.events[0], None, "", "");
    EntryReadable(env, s, 0, s.events[0], Some(s.events[0].key), "", "");
    FirstAuthentic(env, s);
    SameIdSameKey(env, s, m);
    SameEventExactly(env, s, m);
  }

  /** Event 0 is the writer's logical event exactly when it has the writer's state. */
  lemma SameEventExactly(env: Env, s: Store, m: Msg)
    requires StoreOk(env, s) && s.events != [] && MsgOk(env, s, m) && m.expected == 0
    ensures SameLogicalEvent(s.events[0].ev.meta, m.entry.ev.meta, SnapshotOf(env.c, s.events[0].st), m.entry.ev.box.plain)
            <==> s.events[0].st == m.entry.st
  {
    hide Inv, Step, SnapshotOf, GoodCandidate, EventId, StoreOk;
    FirstKey(env, s, 0);
    if SameLogicalEvent(s.events[0].ev.meta, m.entry.ev.meta, SnapshotOf(env.c, s.events[0].st), m.entry.ev.box.plain) {
      SamePlainSameState(env, s, m);
    }
  }

  /** The call has answered with the sequential machine's reply to its request in the stream's latest state, placed there, and
      with the time at which it began; its next state, if it is another one, is the next event. */
  ghost predicate Reran(env: Env, w: World, w': World, p: nat, call: Call, seed: string)
  {
    && StoreOk(env, w.store) && Drawn(call.req, seed).WellTyped() && Answered(env, w, w', p, Drawn(call.req, seed))
    && w'.acks[|w.acks|].began == call.began && w'.acks[|w.acks|].place == |w.store.events|
  }

  lemma ThenReruns(env: Env, start: World, ls: seq<Label>, w: World, p: nat, call: Call, seed: string, candidate: Key, nonce: string)
    returns (ls': seq<Label>, w': World)
    requires DeckStream.Run(env, start, ls) == w && WorldInv(env, w) && UuidsNamed(env)
    requires Calls(w, p, call) && call.pc.Begin? && w.store.events != [] && StoreOk(env, w.store) && Drawn(call.req, seed).WellTyped()
    requires var reply := Sequential(env, w.store, Drawn(call.req, seed)).1; !reply.Failed? && !reply.Panicked?
    requires GoodCandidate(env, candidate) && nonce != ""
    ensures DeckStream.Run(env, start, ls') == w' && WorldInv(env, w') && OthersStay(w, w', p) && Reran(env, w, w', p, call, seed)
  {
    hide WorldInv, Step, StoreOk, OthersStay, DeckStream.Run, GoodCandidate, UuidsNamed;
    var w1;
    ls', w1 := ThenLoads(env, start, ls, w, p, call);
    ls', w' := ThenAnswers(env, start, ls', w1, p, call.(pc := Loaded(|w.store.events|, Latest(w.store))), seed, candidate, nonce);
    AnsweredSince(env, w, w1, w', p, Drawn(call.req, seed));
    StayTogether(w, w1, w', p);
  }

  /** Some run from here in which, of all replicas, only p moves ends like this. */
  ghost predicate LeadsTo(env: Env, w: World, w': World, p: nat)
  {
    OthersStay(w, w', p) && exists ls :: DeckStream.Run(env, w, ls) == w'
  }

  /** The call answers with what its first run found: it wrote event 0, as far as anybody can tell. */
  ghost predicate AnsweredFirst(w: World, w': World, p: nat, call: Call)
    requires call.pc.Sent? || call.pc.Anchoring?
  {
    && w'.store == w.store && p in w'.replicas && w'.replicas[p].call.None? && call.result.Some?
    && w'.acks == w.acks + [Ack(call.pc.msg.entry.req, call.result.value, call.began, 0, true, call.pc.msg.entry.author)]
  }

  /** In every reachable state a call that has lost its place, and has not been retried, still answers when it is left alone,
      whatever the store tells it. A first write whose event 0 says the same is answered as its own; every other call reloads the
      stream, runs its callback again, and answers with what the machine says in the stream's latest state. */
  lemma OvertakenCallAnswers(env: Env, w: World, p: nat, call: Call, told: AppendResult, seed: string, candidate: Key, nonce: string)
    returns (w': World)
    requires WorldInv(env, w) && UuidsNamed(env) && Lost(w, p, call) && call.retry
    requires call.pc.Sent? && Tellable(call.pc.msg, told)
    requires Drawn(call.req, seed).WellTyped() && StoreOk(env, w.store)
    requires var reply := Sequential(env, w.store, Drawn(call.req, seed)).1; !reply.Failed? && !reply.Panicked?
    requires GoodCandidate(env, candidate) && nonce != ""
    ensures LeadsTo(env, Next(env, w, Learn(p, told)), w', p)
    ensures if told != Conflicted && w.store.events[0].st == call.pc.msg.entry.st then AnsweredFirst(w, w', p, call)
            else Reran(env, w, w', p, call, seed)
  {
    hide WorldInv, Next, Step, StoreOk, OthersStay, DeckStream.Run, GoodCandidate, UuidsNamed, Reran;
    LostSend(env, w, p, call, told);
    NextKeeps(env, w, Learn(p, told));
    var w1 := Next(env, w, Learn(p, told));
    SameSequential(env, w, w1, Drawn(call.req, seed));
    if told == Conflicted {
      var ls;
      assert DeckStream.Run(env, w1, []) == w1 by { NoRun(env, w1); }
      ls, w' := ThenReruns(env, w1, [], w1, p, call.(retry := false, pc := Begin), seed, candidate, nonce);
      RerunSince(env, w, w1, w', p, call.(retry := false, pc := Begin), call, seed);
    } else {
      w' := AnchoredCallAnswers(env, w1, p, call.(pc := Anchoring(call.pc.msg)), seed, candidate, nonce);
      if w.store.events[0].st != call.pc.msg.entry.st {
        RerunSince(env, w, w1, w', p, call.(pc := Anchoring(call.pc.msg)), call, seed);
      }
    }
  }

  /** The same for a first write that the store has already answered. */
  lemma AnchoredCallAnswers(env: Env, w: World, p: nat, call: Call, seed: string, candidate: Key, nonce: string) returns (w': World)
    requires WorldInv(env, w) && UuidsNamed(env) && Lost(w, p, call) && call.retry && call.pc.Anchoring?
    requires Drawn(call.req, seed).WellTyped() && StoreOk(env, w.store)
    requires var reply := Sequential(env, w.store, Drawn(call.req, seed)).1; !reply.Failed? && !reply.Panicked?
    requires GoodCandidate(env, candidate) && nonce != ""
    ensures LeadsTo(env, w, w', p)
    ensures if w.store.events[0].st == call.pc.msg.entry.st then AnsweredFirst(w, w', p, call) else Reran(env, w, w', p, call, seed)
  {
    hide WorldInv, Next, Step, StoreOk, OthersStay, DeckStream.Run, GoodCandidate, UuidsNamed, Reran;
    assert DeckStream.Run(env, w, []) == w by { NoRun(env, w); }
    Itself(w, p);
    var ls := Then(env, w, [], w, w, p, AnchorFirst(p));
    var w1 := Next(env, w, AnchorFirst(p));
    AnchoredOther(env, w, p, call, call.pc.msg);
    AnchoringFirst(env, w, p, call);
    if w.store.events[0].st == call.pc.msg.entry.st {
      ls := Then(env, w, ls, w, w1, p, Finish(p));
      w' := Next(env, w1, Finish(p));
      FinishedOne(env, w1, p, call.(pc := Appended(call.pc.msg)), call.pc.msg, call.result.value);
    } else {
      SameSequential(env, w, w1, Drawn(call.req, seed));
      ls, w' := ThenReruns(env, w, ls, w1, p, call.(retry := false, pc := Begin), seed, candidate, nonce);
      RerunSince(env, w, w1, w', p, call.(retry := false, pc := Begin), call, seed);
      StayTogether(w, w1, w', p);
    }
  }

  lemma AnchoringFirst(env: Env, w: World, p: nat, call: Call)
    requires WorldInv(env, w) && Calls(w, p, call) && call.pc.Anchoring?
    ensures call.pc.msg.expected == 0 && call.result.Some? && call.rej == None
  {
    hide StoreOk, EntryOk, Proper, MsgOk, Step;
    Known(env, w, p);
  }

  lemma SameSequential(env: Env, w: World, w1: World, req: Request)
    requires WorldInv(env, w1) && StoreOk(env, w.store) && Quiet(w, w1) && req.WellTyped()
    ensures StoreOk(env, w1.store) && Sequential(env, w1.store, req) == Sequential(env, w.store, req)
  {
    hide StoreOk, Step;
  }

  lemma RerunSince(env: Env, w: World, w1: World, w': World, p: nat, call1: Call, call: Call, seed: string)
    requires Quiet(w, w1) && Reran(env, w1, w', p, call1, seed) && call1.req == call.req && call1.began == call.began
    ensures Reran(env, w, w', p, call, seed)
  {
    hide StoreOk, Step;
  }

  /** A call is retried once: when it loses again it ends with an error, and nobody is told anything. */
  lemma SecondLossFails(env: Env, w: World, p: nat, call: Call)
    requires WorldInv(env, w) && UuidsNamed(env) && Lost(w, p, call) && !call.retry
    ensures call.pc.Sent? ==>
              var w' := Next(env, w, Learn(p, Conflicted)); Quiet(w, w') && p in w'.replicas && w'.replicas[p].call.None?
    ensures call.pc.Anchoring? && w.store.events[0].st != call.pc.msg.entry.st ==>
              var w' := Next(env, w, AnchorFirst(p)); Quiet(w, w') && p in w'.replicas && w'.replicas[p].call.None?
  {
    hide WorldInv, Next;
    if call.pc.Sent? { LostSend(env, w, p, call, Conflicted); } else { AnchoredOther(env, w, p, call, call.pc.msg); }
  }
}
