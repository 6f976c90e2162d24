/** One encrypted deck stream and any number of replicas that read and append to it (kurrent_repo.go): the key that the
    stream uses, the first write that several replicas race for, and the snapshots that the appends commit. */
module DeckStream {
  import opened Common
  import opened Decks
  import opened DeckService
  import opened DeckTheorems
  import opened DeckSnapshot
  import opened Encoders
  import Decimal

  // ---- envelopes, with ideal encryption

  /** What wraps a data key: the version of the wrapping key, the wrapped text and its nonce. */
  datatype KeyId = KeyId(version: nat, wrapped: string, nonce: string)

  datatype Key = Key(id: KeyId, dek: string)

  /** Sealed text: it opens only under the key, additional data and nonce it was sealed with. */
  datatype Box = Box(dek: string, aad: string, nonce: string, plain: Snapshot)

  function Open(dek: string, aad: string, nonce: string, box: Box): Option<Snapshot>
  {
    if box.dek == dek && box.aad == aad && box.nonce == nonce then Some(box.plain) else None
  }

  datatype Event = Event(uuid: string, eventType: string, meta: EnvelopeMeta, box: Box)

  /** The deck, its stream, the keyring, and the name-based UUID, as ideal functions. */
  datatype Env = Env(c: Ctx, stream: string, unwrap: KeyId -> Option<string>, uuid: (string, string) -> string)

  const EVENT_TYPE := "DeckStateSnapshotV1"

  function KeyIdOf(m: EnvelopeMeta): KeyId { KeyId(m.keyVersion, m.wrappedDEK, m.wrapNonce) }

  function EventId(c: Ctx, domainRev: nat): string
  {
    "deck-snap-" + c.room + "-" + c.game + "-" + Decimal.Itoa(domainRev)
  }

  function MetaFor(env: Env, id: KeyId, payloadNonce: string, revision: nat): EnvelopeMeta
  {
    var eventId := EventId(env.c, revision + 1);
    EnvelopeMeta(1, id.version, id.wrapped, id.nonce, payloadNonce, eventId, EVENT_TYPE, env.stream,
                 env.c.room, env.c.game, revision, revision + 1, env.uuid(env.stream, eventId))
  }

  /** The event that appendEncryptedJSON builds for a snapshot at a revision. */
  function MakeEvent(env: Env, key: Key, payloadNonce: string, revision: nat, snap: Snapshot): Event
  {
    var meta := MetaFor(env, key.id, payloadNonce, revision);
    Event(meta.eventUuid, EVENT_TYPE, meta, Box(key.dek, meta.CanonicalAAD(), payloadNonce, snap))
  }

  /** authenticateEnvelopeMetadataForAggregate; empty expectations are not checked. */
  predicate Authentic(env: Env, meta: EnvelopeMeta, revision: nat, ev: Event, room: string, game: string)
  {
    && meta.envelopeVersion == 1 && meta.stream == env.stream
    && meta.kurrentRevision == revision && meta.domainRevision == revision + 1
    && meta.originalEventId != "" && meta.originalEventType != "" && meta.eventUuid != "" && meta.keyVersion > 0
    && ev.eventType == meta.originalEventType
    && meta.eventUuid == env.uuid(env.stream, meta.originalEventId) && ev.uuid == env.uuid(env.stream, meta.originalEventId)
    && meta.wrappedDEK != "" && meta.wrapNonce != "" && meta.payloadNonce != ""
    && (room != "" ==> meta.roomId == room) && (game != "" ==> meta.gameId == game)
  }

  datatype Fetched = Dek(dek: string, cache: Option<Key>) | KeyChanged | NoKey

  /** The cached key when it is the one that the metadata names, an error when it is another, else the unwrapped one. */
  function CachedOrUnwrap(env: Env, cache: Option<Key>, meta: EnvelopeMeta): Fetched
  {
    if cache.Some? then
      if cache.value.id != KeyIdOf(meta) then KeyChanged else Dek(cache.value.dek, cache)
    else
      var dek := env.unwrap(KeyIdOf(meta));
      if dek.None? then NoKey else Dek(dek.value, Some(Key(KeyIdOf(meta), dek.value)))
  }

  datatype Decrypted = Plain(snap: Snapshot, cache: Option<Key>) | WrongKey | Unreadable

  /** decryptEventForAggregate. */
  function Decrypt(env: Env, cache: Option<Key>, revision: nat, ev: Event, room: string, game: string): Decrypted
  {
    if !Authentic(env, ev.meta, revision, ev, room, game) then Unreadable
    else
      match CachedOrUnwrap(env, cache, ev.meta)
      case KeyChanged => WrongKey
      case NoKey => Unreadable
      case Dek(dek, cache') =>
        var plain := Open(dek, ev.meta.CanonicalAAD(), ev.meta.payloadNonce, ev.box);
        if plain.None? then Unreadable else Plain(plain.value, cache')
  }

  /** committedFirstEventMatchesCandidate. */
  predicate SameLogicalEvent(committed: EnvelopeMeta, candidate: EnvelopeMeta, committedPlain: Snapshot, candidatePlain: Snapshot)
  {
    && committed.originalEventId == candidate.originalEventId && committed.originalEventType == candidate.originalEventType
    && committed.stream == candidate.stream && committed.roomId == candidate.roomId && committed.gameId == candidate.gameId
    && committed.kurrentRevision == candidate.kurrentRevision && committed.domainRevision == candidate.domainRevision
    && committed.eventUuid == candidate.eventUuid && committedPlain == candidatePlain
  }

  // ---- replicas, calls and the store

  /** An append: what is stored, and what the writer meant by it (its key, request and resulting state). */
  datatype Entry = Entry(ev: Event, key: Key, author: nat, req: Request, st: St)

  datatype Msg = Msg(expected: nat, entry: Entry)

  datatype Pc =
    | Begin
    | ReadFirst(first: Event)
    | Loaded(base: nat, st: St)
    | Changed(base: nat, req: Request, st': St)
    | Sent(msg: Msg)
    | Anchoring(msg: Msg)
    | Appended(msg: Msg)

  /** One service call. result and rej are the variables that the callback assigns on each of its runs. */
  datatype Call = Call(req: Request, began: nat, result: Option<Reply>, rej: Option<Reply>, retry: bool, pc: Pc)

  /** A replica runs the calls for one deck one at a time, and keeps the stream's key between them. */
  datatype Replica = Replica(cache: Option<Key>, call: Option<Call>)

  /** A response returned without error, and the place in the stream where it belongs. */
  datatype Ack = Ack(req: Request, reply: Reply, began: nat, place: nat, wrote: bool, author: nat)

  /** The stream, the appends under way, and how many appends were sent. */
  datatype Store = Store(events: seq<Entry>, flight: set<Msg>, authors: nat)

  datatype World = World(store: Store, replicas: map<nat, Replica>, acks: seq<Ack>, keyChanged: bool)

  const EMPTY_WORLD := World(Store([], {}, 0), map[], [], false)

  datatype AppendResult = Acknowledged | Conflicted | Unclear | Failed

  datatype Label =
    | NewReplica(p: nat)
    | Start(p: nat, req: Request)
    | LoadFirst(p: nat)
    | LoadLatest(p: nat)
    | RunCallback(p: nat, seed: string)
    | Send(p: nat, candidate: Key, nonce: string)
    | Land(m: Msg)
    | Learn(p: nat, result: AppendResult)
    | AnchorFirst(p: nat)
    | Finish(p: nat)
    | Stop(p: nat)

  function Set(w: World, p: nat, r: Replica): World { w.(replicas := w.replicas[p := r]) }

  /** The call ends with an error. */
  function Abort(w: World, p: nat, r: Replica): World { Set(w, p, r.(call := None)) }

  /** The call ends because a key was not the stream's. */
  function Alarm(w: World, p: nat, r: Replica): World { Abort(w, p, r).(keyChanged := true) }

  /** The handler looks at the rejection first, then at the result. */
  function Answer(call: Call): Reply
    requires call.result.Some? || call.rej.Some?
  {
    if call.rej.Some? then call.rej.value else call.result.value
  }

  function Return(w: World, p: nat, r: Replica, ack: Ack): World
  {
    Abort(w, p, r).(acks := w.acks + [ack])
  }

  function At(r: Replica, call: Call, pc: Pc): Replica { r.(call := Some(call.(pc := pc))) }

  /** ErrStreamNotFound as each operation maps it. */
  function NotFoundReply(req: Request): Reply
  {
    if req.Cancel? then CancelDone else Refused(InvalidCommand)
  }

  function LoadFirstStep(w: World, p: nat, r: Replica, call: Call): World
  {
    if !call.pc.Begin? then w
    else if w.store.events != [] then Set(w, p, At(r, call, ReadFirst(w.store.events[0].ev)))
    else if call.req.Initialize? then Set(w, p, At(r, call, Loaded(0, EMPTY)))
    else Return(w, p, r, Ack(call.req, NotFoundReply(call.req), call.began, 0, false, 0))
  }

  ghost function LoadLatestStep(env: Env, w: World, p: nat, r: Replica, call: Call): World
  {
    if !call.pc.ReadFirst? || w.store.events == [] then w
    else
      var first, n := call.pc.first, |w.store.events| - 1;
      var latest := w.store.events[n].ev;
      if KeyIdOf(first.meta) != KeyIdOf(latest.meta) then Alarm(w, p, r)
      else
        match CachedOrUnwrap(env, r.cache, first.meta)
        case KeyChanged => Alarm(w, p, r)
        case NoKey => Abort(w, p, r)
        case Dek(_, cache) =>
          var r' := r.(cache := cache);
          match Decrypt(env, cache, n, latest, env.c.room, env.c.game)
          case WrongKey => Alarm(w, p, r')
          case Unreadable => Abort(w, p, r')
          case Plain(snap, _) =>
            if snap.room != env.c.room || snap.game != env.c.game then Abort(w, p, r')
            else if latest.meta.roomId != env.c.room || latest.meta.gameId != env.c.game then Abort(w, p, r')
            else if !Accepted(env.c.ideal, snap) then Abort(w, p, r')
            else Set(w, p, At(r', call, Loaded(n + 1, Restored(env.c.ideal, snap))))
  }

  /** The request as one run of the callback sees it: a seed is drawn on every run. */
  function Drawn(req: Request, seed: string): Request { if req.Initialize? then Initialize(seed) else req }

  ghost function RunCallbackStep(env: Env, w: World, p: nat, r: Replica, call: Call, seed: string): World
  {
    if !call.pc.Loaded? || !call.pc.st.Valid() || !Drawn(call.req, seed).WellTyped() then w
    else
      var base, st, req := call.pc.base, call.pc.st, Drawn(call.req, seed);
      var (st', reply) := Step(env.c, st, req);
      if reply.Failed? || reply.Panicked? then Abort(w, p, r)
      else
        var call' := if reply.Refused? then call.(rej := Some(reply)) else call.(result := Some(reply));
        if SnapshotOf(env.c, st') == SnapshotOf(env.c, st) then
          Return(w, p, r, Ack(req, Answer(call'), call.began, base, false, 0))
        else
          Set(w, p, At(r, call', Changed(base, req, st')))
  }

  /** WrapDEK gives a key that unwraps to the same data key; nonces and wrapped keys are not empty. */
  predicate GoodCandidate(env: Env, key: Key)
  {
    key.id.version > 0 && key.id.wrapped != "" && key.id.nonce != "" && env.unwrap(key.id) == Some(key.dek)
  }

  /** streamDEK: the cached key, else event 0's key, else a candidate for a first write. */
  function StreamKey(env: Env, w: World, r: Replica, firstWrite: bool, candidate: Key): Option<Key>
  {
    if r.cache.Some? then r.cache
    else if w.store.events != [] then
      var id := KeyIdOf(w.store.events[0].ev.meta);
      var dek := env.unwrap(id);
      if dek.None? then None else Some(Key(id, dek.value))
    else if firstWrite && GoodCandidate(env, candidate) then Some(candidate)
    else None
  }

  function SendTo(s: Store, m: Msg): Store { s.(flight := s.flight + {m}, authors := s.authors + 1) }

  ghost function SendStep(env: Env, w: World, p: nat, r: Replica, call: Call, candidate: Key, nonce: string): World
  {
    if !call.pc.Changed? || nonce == "" then w
    else
      var base, req, st' := call.pc.base, call.pc.req, call.pc.st';
      var key := StreamKey(env, w, r, base == 0, candidate);
      if key.None? then Abort(w, p, r)
      else
        var cache := if r.cache.None? && w.store.events != [] then key else r.cache;
        var ev := MakeEvent(env, key.value, nonce, base, SnapshotOf(env.c, st'));
        var m := Msg(base, Entry(ev, key.value, w.store.authors, req, st'));
        Set(w, p, At(r.(cache := cache), call, Sent(m))).(store := SendTo(w.store, m))
  }

  /** The store accepts an append exactly when the stream has the expected length. */
  function LandIn(s: Store, m: Msg): Store
  {
    if m in s.flight && m.expected == |s.events| then s.(events := s.events + [m.entry], flight := s.flight - {m}) else s
  }

  function LandStep(w: World, m: Msg): World { w.(store := LandIn(w.store, m)) }

  predicate Landed(w: World, m: Msg) { m.expected < |w.store.events| && w.store.events[m.expected].author == m.entry.author }

  /** An append to a stream expected not to exist is also acknowledged when event 0 has the same UUID. */
  predicate MayAcknowledge(w: World, m: Msg)
  {
    Landed(w, m) || (m.expected == 0 && w.store.events != [] && w.store.events[0].ev.uuid == m.entry.ev.uuid)
  }

  function LearnStep(w: World, p: nat, r: Replica, call: Call, result: AppendResult): World
  {
    if !call.pc.Sent? then w
    else
      var m := call.pc.msg;
      match result
      case Acknowledged =>
        if !MayAcknowledge(w, m) then w
        else Set(w, p, At(r, call, if m.expected == 0 then Anchoring(m) else Appended(m)))
      case Conflicted =>
        if m.expected == |w.store.events| then w
        else if call.retry then Set(w, p, At(r, call.(retry := false), Begin))
        else Abort(w, p, r)
      case Unclear => if m.expected == 0 then Set(w, p, At(r, call, Anchoring(m))) else Abort(w, p, r)
      case Failed => Abort(w, p, r)
  }

  /** anchorCommittedStreamDEK, and what appendEncryptedJSON and withDeckAttempt do with its outcome. */
  function AnchorFirstStep(env: Env, w: World, p: nat, r: Replica, call: Call): World
  {
    if !call.pc.Anchoring? then w
    else
      var m := call.pc.msg;
      if w.store.events == [] then Abort(w, p, r)
      else
        var first := w.store.events[0].ev;
        var id := KeyIdOf(first.meta);
        if !Authentic(env, first.meta, 0, first, first.meta.roomId, first.meta.gameId) then Abort(w, p, r)
        else
          var key := if id == m.entry.key.id then Some(m.entry.key.dek) else env.unwrap(id);
          if key.None? then Abort(w, p, r)
          else
            var r' := r.(cache := Some(Key(id, key.value)));
            match Decrypt(env, r'.cache, 0, first, "", "")
            case WrongKey => Alarm(w, p, r')
            case Unreadable => Abort(w, p, r')
            case Plain(snap, _) =>
              if SameLogicalEvent(first.meta, m.entry.ev.meta, snap, m.entry.ev.box.plain) then
                Set(w, p, At(r', call, Appended(m)))
              else if call.retry then Set(w, p, At(r', call.(retry := false), Begin))
              else Abort(w, p, r')
  }

  /** The binding is finalized and the callback's answer goes out. */
  function FinishStep(w: World, p: nat, r: Replica, call: Call): World
  {
    if !call.pc.Appended? || (call.result.None? && call.rej.None?) then w
    else
      var m := call.pc.msg;
      Return(w, p, r, Ack(m.entry.req, Answer(call), call.began, m.expected, true, m.entry.author))
  }

  /** A reservation that fails validation is refused before the store is touched. */
  function StartStep(env: Env, w: World, p: nat, r: Replica, req: Request): World
  {
    if r.call.Some? || !req.WellTyped() then w
    else if (req.ReserveDeal? || req.ReserveDraw?) && !Proper(req) then
      Return(w, p, r, Ack(req, Step(env.c, EMPTY, req).1, |w.store.events|, |w.store.events|, false, 0))
    else Set(w, p, r.(call := Some(Call(req, |w.store.events|, None, None, true, Begin))))
  }

  ghost function CallStep(env: Env, w: World, p: nat, r: Replica, call: Call, l: Label): World
  {
    match l
    case LoadFirst(_) => LoadFirstStep(w, p, r, call)
    case LoadLatest(_) => LoadLatestStep(env, w, p, r, call)
    case RunCallback(_, seed) => RunCallbackStep(env, w, p, r, call, seed)
    case Send(_, candidate, nonce) => SendStep(env, w, p, r, call, candidate, nonce)
    case Learn(_, result) => LearnStep(w, p, r, call, result)
    case AnchorFirst(_) => AnchorFirstStep(env, w, p, r, call)
    case Finish(_) => FinishStep(w, p, r, call)
    case Stop(_) => Abort(w, p, r)
    case _ => w
  }

  /** A step that is not enabled changes nothing. Stop is a crash of the call or any other error. */
  ghost function Next(env: Env, w: World, l: Label): World
  {
    match l
    case Land(m) => LandStep(w, m)
    case NewReplica(p) => if p in w.replicas then w else Set(w, p, Replica(None, None))
    case Start(p, req) => if p in w.replicas then StartStep(env, w, p, w.replicas[p], req) else w
    case _ =>
      if l.p !in w.replicas || w.replicas[l.p].call.None? then w
      else CallStep(env, w, l.p, w.replicas[l.p], w.replicas[l.p].call.value, l)
  }

  ghost function Run(env: Env, w: World, ls: seq<Label>): World
  {
    if ls == [] then w else Next(env, Run(env, w, ls[..|ls| - 1]), ls[|ls| - 1])
  }
}
