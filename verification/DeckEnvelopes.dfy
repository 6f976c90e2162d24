/** What the encryption of a deck's events protects: which events can be read, and where. */
module DeckEnvelopes {
  import opened Common
  import opened Encoders
  import opened DeckSnapshot
  import opened DeckStream
  import Decimal

  /** The key is at hand: it is the cached one, or nothing is cached and the keyring unwraps it. */
  predicate KeyAtHand(env: Env, cache: Option<Key>, key: Key)
  {
    cache == Some(key) || (cache.None? && env.unwrap(key.id) == Some(key.dek))
  }

  /** The event is the one that a writer of this very stream sealed for this very place. */
  predicate IsGenuine(env: Env, at: nat, ev: Event, from: Env, key: Key, nonce: string, revision: nat, snap: Snapshot)
  {
    && from.stream == env.stream && revision == at && nonce != ""
    && key.id.version > 0 && key.id.wrapped != "" && key.id.nonce != ""
    && ev == MakeEvent(from, key, nonce, revision, snap)
    && env.uuid(env.stream, ev.meta.originalEventId) == ev.uuid != ""
  }

  /** A sealed snapshot was written for some stream, room, game and place, and turns up in any event at any place: with fields
      of less than 4 GiB, it can be read exactly when the whole event is the one that was written, at its own place in its own
      stream, by a reader of its room and game that has its key. */
  lemma DecryptsExactly(env: Env, cache: Option<Key>, at: nat, ev: Event, room: string, game: string,
                        from: Env, key: Key, nonce: string, revision: nat, snap: Snapshot)
    requires ev.box == MakeEvent(from, key, nonce, revision, snap).box && Short(ev.meta.Fields())
    requires Short(MetaFor(from, key.id, nonce, revision).Fields())
    ensures var r := Decrypt(env, cache, at, ev, room, game);
            && (r.Plain? ==> r.snap == snap)
            && (r.Plain? <==>
                  && IsGenuine(env, at, ev, from, key, nonce, revision, snap)
                  && (room != "" ==> room == from.c.room) && (game != "" ==> game == from.c.game)
                  && KeyAtHand(env, cache, key))
  {
    hide EnvelopeMeta.CanonicalAAD, EnvelopeMeta.Fields, Decimal.Itoa;
    var genuine := MakeEvent(from, key, nonce, revision, snap);
    if ev.meta.CanonicalAAD() == genuine.meta.CanonicalAAD() { CanonicalAADInjective(ev.meta, genuine.meta); }
  }

  /** What a replica has read of the stream when it goes on to its latest event. */
  predicate HasRead(w: World, p: nat, first: Event)
  {
    && w.store.events != [] && p in w.replicas && w.replicas[p].call.Some?
    && w.replicas[p].call.value.pc == ReadFirst(first)
  }

  predicate HasLoaded(w: World, p: nat)
  {
    p in w.replicas && w.replicas[p].call.Some? && w.replicas[p].call.value.pc.Loaded?
  }

  /** Whatever is in the stream, reachable or tampered with: when the keys of its first and of its latest event differ, the call
      ends with the alarm; and a call that loads a state has found a genuine latest event of its room and game, with an
      accepted snapshot, sealed under the key of the first event. */
  lemma TamperingIsNoticed(env: Env, w: World, p: nat, first: Event, latest: Event, w': World,
                           from: Env, key: Key, nonce: string, revision: nat, snap: Snapshot)
    requires HasRead(w, p, first) && latest == w.store.events[|w.store.events| - 1].ev && w' == Next(env, w, LoadLatest(p))
    requires latest.box == MakeEvent(from, key, nonce, revision, snap).box && Short(latest.meta.Fields())
    requires Short(MetaFor(from, key.id, nonce, revision).Fields()) && env.c.room != "" && env.c.game != ""
    ensures w'.acks == w.acks && w'.store == w.store
    ensures KeyIdOf(first.meta) != KeyIdOf(latest.meta) ==> w'.keyChanged && !HasLoaded(w', p)
    ensures HasLoaded(w', p) ==>
              && IsGenuine(env, |w.store.events| - 1, latest, from, key, nonce, revision, snap)
              && KeyIdOf(first.meta) == key.id && snap.room == from.c.room == env.c.room && snap.game == from.c.game == env.c.game
              && Accepted(env.c.ideal, snap)
              && w'.replicas[p].call.value.pc == Loaded(|w.store.events|, Restored(env.c.ideal, snap))
  {
    hide EnvelopeMeta.CanonicalAAD, EnvelopeMeta.Fields, Decimal.Itoa, Decrypt, Accepted, Restored;
    var n := |w.store.events| - 1;
    var fetched := CachedOrUnwrap(env, w.replicas[p].cache, first.meta);
    if fetched.Dek? {
      DecryptsExactly(env, fetched.cache, n, latest, env.c.room, env.c.game, from, key, nonce, revision, snap);
    }
  }
}
