/** Any number of callers of WithDeck for one game id, on any replicas, racing on its binding log and its deck streams
    (kurrent_repo.go). Every read, decision and append is one step; a caller may stop at any step; appends travel on
    their own and may land after their caller was told nothing, or has stopped. */
module BindingProtocol {
  import opened Common
  import opened Binding

  const MAX_ATTEMPTS: nat := 8

  /** Where a successful claim, finalize or ensure continues. */
  datatype AfterEnsure = ThenCallback | ThenReturn
  datatype AfterClaim = ThenFirstAppend | ThenFinalizeRepair(after: AfterEnsure)
  datatype AfterFinalize = FinalizeReturns | FinalizeOrRepair | FinalizeContinues(after: AfterEnsure)

  /** The four bounded loops over the binding log. */
  datatype Op =
    | ClaimOp(token: string, afterClaim: AfterClaim)
    | FinalizeOp(token: string, afterFinalize: AfterFinalize)
    | EnsureOp(after: AfterEnsure)
    | ReleaseOp

  datatype Pc =
    | Load
    | Callback(first: bool)
    | Loop(op: Op, tries: nat)
    | Wait(op: Op, tries: nat, expected: nat, rec: Record)
    | Revalidate
    | FirstAppend
    | Recover
    | NextAppend
    | Done

  /** One call. limbo: a first deck append whose outcome is unknown and which may still land. */
  datatype Proc = Proc(room: string, create: bool, token: string, retry: bool, pc: Pc, limbo: bool)

  datatype Msg = Msg(expected: nat, rec: Record)

  datatype World = World(game: string, log: seq<Record>, flight: set<Msg>, decks: set<string>,
                         procs: map<nat, Proc>, tokens: set<string>)

  function Start(game: string): World { World(game, [], {}, {}, map[], {}) }

  datatype AppendResult = Acknowledged | Conflicted | Unclear

  datatype Label =
    | Call(p: nat, room: string, create: bool)
    | ReadDeck(p: nat)
    | RunCallback(p: nat, changed: bool, newToken: string)
    | Look(p: nat, newToken: string)
    | ReadFails(p: nat)
    | Land(m: Msg)
    | Learn(p: nat, result: AppendResult)
    | Recheck(p: nat)
    | AppendFirst(p: nat, landed: bool, result: AppendResult)
    | LateDeck(p: nat)
    | CheckExists(p: nat, settled: bool)
    | AppendNext(p: nat, result: AppendResult)
    | Stop(p: nat)

  // ---- the calls

  function GoOn(after: AfterEnsure): Pc
  {
    match after
    case ThenCallback => Callback(false)
    case ThenReturn => Done
  }

  function OnSuccess(op: Op): Pc
  {
    match op
    case ClaimOp(_, ThenFirstAppend) => FirstAppend
    case ClaimOp(t, ThenFinalizeRepair(after)) => Loop(FinalizeOp(t, FinalizeContinues(after)), 0)
    case FinalizeOp(_, FinalizeContinues(after)) => GoOn(after)
    case FinalizeOp(_, _) => Done
    case EnsureOp(after) => GoOn(after)
    case ReleaseOp => Done
  }

  function OnFailure(op: Op): Pc
  {
    match op
    case FinalizeOp(_, FinalizeOrRepair) => Loop(EnsureOp(ThenReturn), 0)
    case _ => Done
  }

  datatype Decision = Succeeds | Fails | Appends(rec: Record) | ClaimsFirst

  function Decide(game: string, q: Proc, op: Op, st: State): Decision
  {
    match op
    case ClaimOp(t, _) =>
      (match EvaluateClaim(st, q.room, t)
       case ClaimOwned => Succeeds
       case ClaimActiveOK => Succeeds
       case ClaimConflict => Fails
       case ClaimAppend => Appends(Record(q.room, game, CLAIMED, t)))
    case FinalizeOp(t, _) =>
      (match EvaluateFinalize(st, q.room, t)
       case FinalizeAlreadyActive => Succeeds
       case FinalizeAppend => Appends(Record(q.room, game, ACTIVE, t))
       case FinalizeConflict => Fails
       case FinalizeNotClaimed => Fails)
    case EnsureOp(_) =>
      (match EvaluateFinalizeRepair(st, q.room)
       case FinalizeAlreadyActive => Succeeds
       case FinalizeAppend => Appends(Record(q.room, game, ACTIVE, st.token))
       case FinalizeConflict => Fails
       case FinalizeNotClaimed => ClaimsFirst)
    case ReleaseOp =>
      (match EvaluateRelease(st, q.token)
       case ReleaseNoop => Succeeds
       case ReleaseAppend => Appends(Record(q.room, game, RELEASED, q.token)))
  }

  /** The caller's token once a claim for its own append has succeeded. */
  function TokenAfter(q: Proc, op: Op): string
  {
    if op.ClaimOp? && op.afterClaim.ThenFirstAppend? then op.token else q.token
  }

  function Leave(q: Proc, op: Op, pc: Pc): Proc { q.(pc := pc, token := if pc.FirstAppend? then TokenAfter(q, op) else q.token) }

  predicate IsFresh(w: World, newToken: string) { newToken != "" && newToken !in w.tokens }

  function With(w: World, p: nat, q: Proc): World { w.(procs := w.procs[p := q]) }

  function CallStep(w: World, p: nat, room: string, create: bool): World
  {
    if p in w.procs || room == "" || w.game == "" then w
    else With(w, p, Proc(room, create, "", true, Load, false))
  }

  /** loadDeckState: what matters here is whether the room's stream exists. */
  function ReadDeckStep(w: World, p: nat, q: Proc): World
  {
    if !q.pc.Load? then w
    else if q.room in w.decks then With(w, p, q.(pc := Loop(EnsureOp(ThenCallback), 0)))
    else With(w, p, q.(pc := if q.create then Callback(true) else Done))
  }

  function CallbackStep(w: World, p: nat, q: Proc, changed: bool, newToken: string): World
  {
    if !q.pc.Callback? then w
    else if q.pc.first then
      if !changed then With(w, p, q.(pc := Done))
      else if q.token != "" then With(w, p, q.(pc := Revalidate))
      else if IsFresh(w, newToken) then
        With(w, p, q.(pc := Loop(ClaimOp(newToken, ThenFirstAppend), 0))).(tokens := w.tokens + {newToken})
      else w
    else With(w, p, q.(pc := if changed then NextAppend else Loop(EnsureOp(ThenReturn), 0)))
  }

  /** One turn of a loop: load the binding state, evaluate, and send the append when one is called for. */
  function LookStep(w: World, p: nat, q: Proc, newToken: string): World
  {
    if !q.pc.Loop? then w
    else
      var op, tries := q.pc.op, q.pc.tries;
      var st := Fold(w.game, w.log);
      if st.None? || tries >= MAX_ATTEMPTS then With(w, p, Leave(q, op, OnFailure(op)))
      else
        match Decide(w.game, q, op, st.value)
        case Succeeds => With(w, p, Leave(q, op, OnSuccess(op)))
        case Fails => With(w, p, Leave(q, op, OnFailure(op)))
        case ClaimsFirst =>
          if IsFresh(w, newToken) && op.EnsureOp? then
            With(w, p, q.(pc := Loop(ClaimOp(newToken, ThenFinalizeRepair(op.after)), 0))).(tokens := w.tokens + {newToken})
          else w
        case Appends(rec) =>
          With(w, p, q.(pc := Wait(op, tries, |w.log|, rec))).(flight := w.flight + {Msg(|w.log|, rec)})
  }

  function ReadFailsStep(w: World, p: nat, q: Proc): World
  {
    if q.pc.Loop? then With(w, p, Leave(q, q.pc.op, OnFailure(q.pc.op))) else w
  }

  /** The store accepts an append exactly when the log has the expected length. */
  function LandStep(w: World, m: Msg): World
  {
    if m in w.flight && m.expected == |w.log| then w.(log := w.log + [m.rec], flight := w.flight - {m}) else w
  }

  /** The caller is told that its record is there, or that the length was another, or gets some other error. */
  function LearnStep(w: World, p: nat, q: Proc, result: AppendResult): World
  {
    if !q.pc.Wait? then w
    else
      var op := q.pc.op;
      match result
      case Acknowledged =>
        if q.pc.expected < |w.log| && w.log[q.pc.expected] == q.pc.rec then With(w, p, Leave(q, op, OnSuccess(op))) else w
      case Conflicted =>
        if q.pc.expected != |w.log| then With(w, p, q.(pc := Loop(op, q.pc.tries + 1))) else w
      case Unclear => With(w, p, Leave(q, op, OnFailure(op)))
  }

  function RecheckStep(w: World, p: nat, q: Proc): World
  {
    if !q.pc.Revalidate? then w
    else
      var st := Fold(w.game, w.log);
      if st.None? then With(w, p, q.(pc := Done))
      else
        var e := EvaluateClaim(st.value, q.room, q.token);
        With(w, p, q.(pc := if e == ClaimOwned || e == ClaimActiveOK then FirstAppend else Done))
  }

  /** appendEncryptedJSON on a stream expected not to exist. An acknowledgement means that the stream exists,
      possibly with another writer's bytes; every error may hide an append that landed, or that lands later. */
  function AppendFirstStep(w: World, p: nat, q: Proc, landed: bool, result: AppendResult): World
  {
    if !q.pc.FirstAppend? then w
    else
      var decks := if landed then w.decks + {q.room} else w.decks;
      var w' := w.(decks := decks);
      match result
      case Acknowledged =>
        if q.room in decks then With(w', p, q.(pc := Loop(FinalizeOp(q.token, FinalizeReturns), 0))) else w
      case Conflicted =>
        With(w', p, if q.retry then q.(pc := Load, retry := false) else q.(pc := Recover))
      case Unclear => With(w', p, q.(pc := Recover, limbo := true))
  }

  function LateDeckStep(w: World, p: nat, q: Proc): World
  {
    if q.limbo then With(w, p, q.(limbo := false)).(decks := w.decks + {q.room}) else w
  }

  /** recoverFirstDeckAppendError. settled: by now the unknown append has landed or never will. */
  function CheckExistsStep(w: World, p: nat, q: Proc, settled: bool): World
  {
    if !q.pc.Recover? then w
    else
      var q' := if settled then q.(limbo := false) else q;
      match EvaluateAppendRecovery(false, q.room in w.decks)
      case RecoveryFinalize => With(w, p, q'.(pc := Loop(FinalizeOp(q.token, FinalizeOrRepair), 0)))
      case RecoveryRelease => With(w, p, q'.(pc := Loop(ReleaseOp, 0)))
  }

  function AppendNextStep(w: World, p: nat, q: Proc, result: AppendResult): World
  {
    if !q.pc.NextAppend? then w
    else
      match result
      case Acknowledged => With(w, p, q.(pc := Loop(EnsureOp(ThenReturn), 0)))
      case Conflicted => With(w, p, if q.retry then q.(pc := Load, retry := false) else q.(pc := Done))
      case Unclear => With(w, p, q.(pc := Done))
  }

  /** A step that is not enabled changes nothing. */
  function Step(w: World, l: Label): World
  {
    match l
    case Call(p, room, create) => CallStep(w, p, room, create)
    case Land(m) => LandStep(w, m)
    case _ =>
      if l.p !in w.procs then w
      else
        var p, q := l.p, w.procs[l.p];
        match l
        case ReadDeck(_) => ReadDeckStep(w, p, q)
        case RunCallback(_, changed, newToken) => CallbackStep(w, p, q, changed, newToken)
        case Look(_, newToken) => LookStep(w, p, q, newToken)
        case ReadFails(_) => ReadFailsStep(w, p, q)
        case Learn(_, result) => LearnStep(w, p, q, result)
        case Recheck(_) => RecheckStep(w, p, q)
        case AppendFirst(_, landed, result) => AppendFirstStep(w, p, q, landed, result)
        case LateDeck(_) => LateDeckStep(w, p, q)
        case CheckExists(_, settled) => CheckExistsStep(w, p, q, settled)
        case AppendNext(_, result) => AppendNextStep(w, p, q, result)
        case Stop(_) => With(w, p, q.(pc := Done))
        case _ => w
  }

  function Run(w: World, ls: seq<Label>): World
  {
    if ls == [] then w else Step(Run(w, ls[..|ls| - 1]), ls[|ls| - 1])
  }

  /** Unknown deck appends have landed or never will once their caller reads the stream. */
  predicate Settled(ls: seq<Label>) { forall i :: 0 <= i < |ls| ==> ls[i].CheckExists? ==> ls[i].settled }

  // ---- the invariant

  predicate Last(w: World, phase: string, room: string)
  {
    w.log != [] && w.log[|w.log| - 1].phase == phase && w.log[|w.log| - 1].room == room
  }

  /** The game is claimed by, or active for, the room. */
  predicate BoundTo(w: World, room: string) { Last(w, CLAIMED, room) || Last(w, ACTIVE, room) }

  predicate ClaimedWith(w: World, room: string, token: string)
  {
    Last(w, CLAIMED, room) && w.log[|w.log| - 1].token == token
  }

  /** The binding protects a first append by this caller. */
  predicate Protected(w: World, q: Proc) { Last(w, ACTIVE, q.room) || ClaimedWith(w, q.room, q.token) }

  predicate MayLand(q: Proc) { q.pc.FirstAppend? || q.limbo }

  predicate ClaimsNow(q: Proc) { (q.pc.Loop? || q.pc.Wait?) && q.pc.op.ClaimOp? }

  /** The token that belongs to this caller. */
  function OwnToken(q: Proc): string { if ClaimsNow(q) then q.pc.op.token else q.token }

  predicate Releasing(q: Proc) { (q.pc.Loop? || q.pc.Wait?) && q.pc.op.ReleaseOp? }

  /** The caller will never again append to its deck stream. */
  predicate Retired(q: Proc) { !q.limbo && (Releasing(q) || q.pc.Done?) }

  /** At this point the caller has seen its room's deck. */
  predicate SawDeck(q: Proc)
  {
    || q.pc == Callback(false) || q.pc.NextAppend?
    || ((q.pc.Loop? || q.pc.Wait?) && (q.pc.op.FinalizeOp? || q.pc.op.EnsureOp?))
  }

  /** A claim that its caller has not acted on is at most the open end of the log, and nobody has used it. */
  predicate ClaimStands(w: World, token: string)
  {
    forall i :: 0 <= i < |w.log| && w.log[i].token == token ==>
      i == |w.log| - 1 && w.log[i].phase == CLAIMED && w.decks == {}
  }

  predicate ProcOk(w: World, q: Proc)
  {
    && q.room != ""
    && (OwnToken(q) != "" ==> OwnToken(q) in w.tokens)
    && (MayLand(q) ==> q.token != "" && Protected(w, q))
    && (SawDeck(q) ==> q.room in w.decks)
    && (Releasing(q) ==> !q.limbo && (ClaimedWith(w, q.room, q.token) ==> q.room !in w.decks))
    && (ClaimsNow(q) ==> q.token == "" && q.pc.op.token != "" && q.pc.op.afterClaim.ThenFirstAppend? && !q.limbo)
    && (ClaimsNow(q) ==> ClaimStands(w, q.pc.op.token))
    && (q.pc.FirstAppend? || q.pc.Recover? || q.pc.Revalidate? || Releasing(q) ==> q.token != "")
    && (q.pc.Wait? ==> q.pc.expected <= |w.log| && q.pc.rec.room == q.room)
    && (q.pc.Wait? && ClaimsNow(q) ==> q.pc.rec.token == q.pc.op.token)
    && (q.limbo ==> q.pc.Recover? || q.pc.Done?)
  }

  predicate Owns(q: Proc, r: Record) { OwnToken(q) == r.token ==> q.room == r.room }

  predicate LogOk(w: World)
  {
    && w.game != "" && Lifecycle(w.game, w.log)
    && (forall i :: 0 <= i < |w.log| ==> w.log[i].token in w.tokens && w.log[i].token != "")
    && (forall p, i :: p in w.procs && 0 <= i < |w.log| ==> Owns(w.procs[p], w.log[i]))
  }

  predicate DecksOk(w: World) { forall r :: r in w.decks ==> BoundTo(w, r) }

  predicate TokensOk(w: World)
  {
    forall p, q :: p in w.procs && q in w.procs && p != q && OwnToken(w.procs[p]) != "" ==>
      OwnToken(w.procs[p]) != OwnToken(w.procs[q])
  }

  predicate MsgOk(w: World, m: Msg)
  {
    && m.expected <= |w.log| && m.rec.token in w.tokens && m.rec.token != ""
    && (m.rec.phase == ACTIVE ==> m.rec.room in w.decks)
    && (m.expected == |w.log| ==> CanFollow(w.game, w.log, m.rec))
    && (m.expected == |w.log| && m.rec.phase == RELEASED ==> m.rec.room !in w.decks)
    && (forall p :: p in w.procs ==> OwnsMsg(w, w.procs[p], m))
  }

  /** What the owner of a message's token can be doing while the message may still land. */
  predicate OwnsMsg(w: World, q: Proc, m: Msg)
  {
    OwnToken(q) == m.rec.token ==>
      && q.room == m.rec.room
      && (m.rec.phase == RELEASED ==> Retired(q))
      && (m.rec.phase == CLAIMED && m.expected == |w.log| ==> AwaitsClaim(w, q))
  }

  /** Stopped, or waiting for the claim that was just sent. */
  predicate AwaitsClaim(w: World, q: Proc) { q.pc.Done? || (q.pc.Wait? && ClaimsNow(q) && q.pc.expected == |w.log|) }

  predicate Inv(w: World)
  {
    && LogOk(w) && DecksOk(w) && TokensOk(w)
    && (forall p :: p in w.procs ==> ProcOk(w, w.procs[p]))
    && (forall m :: m in w.flight ==> MsgOk(w, m))
  }

  // ---- every step keeps it

  /** A caller may move on when its new position is in order and it keeps the promises about its messages. */
  predicate Continues(w: World, q: Proc, q': Proc)
  {
    && q'.room == q.room
    && (OwnToken(q') == "" || OwnToken(q') == OwnToken(q) || OwnToken(q') !in w.tokens)
    && (OwnToken(q') == OwnToken(q) ==>
          && (Retired(q) ==> Retired(q'))
          && (AwaitsClaim(w, q) && !NothingSent(w, q) ==> AwaitsClaim(w, q')))
  }

  /** No claim of this caller can still land. */
  predicate NothingSent(w: World, q: Proc) { q.pc.Wait? && q.pc.expected != |w.log| }

  lemma LocalKeeps(w: World, w': World, p: nat, q': Proc)
    requires Inv(w) && w' == w.(procs := w.procs[p := q'], tokens := w'.tokens) && w.tokens <= w'.tokens
    requires ProcOk(w', q') && if p in w.procs then Continues(w, w.procs[p], q') else OwnToken(q') == ""
    ensures Inv(w')
  {
    hide Lifecycle, CanFollow;
    assert p in w.procs ==> ProcOk(w, w.procs[p]);
    assert LogOk(w') by {
      forall x, i | x in w'.procs && 0 <= i < |w.log| ensures Owns(w'.procs[x], w.log[i]) {
        assert x in w.procs ==> Owns(w.procs[x], w.log[i]);
      }
    }
    forall x | x in w'.procs ensures ProcOk(w', w'.procs[x]) {
      if x != p { assert ProcOk(w, w.procs[x]); }
    }
    assert TokensOk(w') by {
      forall x, y | x in w'.procs && y in w'.procs && x != y && OwnToken(w'.procs[x]) != ""
        ensures OwnToken(w'.procs[x]) != OwnToken(w'.procs[y])
      {
        assert x in w.procs ==> ProcOk(w, w.procs[x]);
        assert y in w.procs ==> ProcOk(w, w.procs[y]);
      }
    }
    forall m | m in w'.flight ensures MsgOk(w', m) {
      assert MsgOk(w, m);
      forall x | x in w'.procs ensures OwnsMsg(w', w'.procs[x], m) {
        assert x in w.procs ==> OwnsMsg(w, w.procs[x], m);
      }
    }
  }

  lemma CallKeeps(w: World, p: nat, room: string, create: bool)
    requires Inv(w)
    ensures Inv(CallStep(w, p, room, create))
  {
    hide Inv, Protected;
    if CallStep(w, p, room, create) != w {
      LocalKeeps(w, CallStep(w, p, room, create), p, Proc(room, create, "", true, Load, false));
    }
  }

  /** The parts of the invariant that speak about one caller. */
  lemma Known(w: World, p: nat)
    requires Inv(w) && p in w.procs
    ensures ProcOk(w, w.procs[p]) && w.game != ""
    ensures forall r :: r in w.decks ==> BoundTo(w, r)
    ensures forall i :: 0 <= i < |w.log| ==> w.log[i].token in w.tokens
    ensures Fold(w.game, w.log) == if w.log == [] then Some(ZERO)
                                   else var r := w.log[|w.log| - 1]; Some(State(r.room, r.phase, r.token, |w.log|))
    ensures w.log != [] ==>
              var r := w.log[|w.log| - 1];
              Owns(w.procs[p], r) && ProperRecord(w.game, r) && r.phase in {CLAIMED, ACTIVE, RELEASED}
  {
    hide TokensOk, MsgOk, Fold, BoundTo, ProcOk;
    LifecycleFolds(w.game, w.log);
    assert w.log != [] ==> Owns(w.procs[p], w.log[|w.log| - 1]);
  }

  lemma ReadDeckKeeps(w: World, p: nat)
    requires Inv(w) && p in w.procs
    ensures Inv(ReadDeckStep(w, p, w.procs[p]))
  {
    hide Inv, Protected, Fold;
    Known(w, p);
    var w' := ReadDeckStep(w, p, w.procs[p]);
    LocalKeeps(w, w', p, w'.procs[p]);
  }

  lemma CallbackKeeps(w: World, p: nat, changed: bool, newToken: string)
    requires Inv(w) && p in w.procs
    ensures Inv(CallbackStep(w, p, w.procs[p], changed, newToken))
  {
    hide Inv, Protected, Fold;
    Known(w, p);
    var w' := CallbackStep(w, p, w.procs[p], changed, newToken);
    LocalKeeps(w, w', p, w'.procs[p]);
  }

  lemma RecheckKeeps(w: World, p: nat)
    requires Inv(w) && p in w.procs
    ensures Inv(RecheckStep(w, p, w.procs[p]))
  {
    hide Inv, Fold;
    Known(w, p);
    var w' := RecheckStep(w, p, w.procs[p]);
    LocalKeeps(w, w', p, w'.procs[p]);
  }

  lemma CheckExistsKeeps(w: World, p: nat)
    requires Inv(w) && p in w.procs
    ensures Inv(CheckExistsStep(w, p, w.procs[p], true))
  {
    hide Inv, Protected, Fold;
    Known(w, p);
    var w' := CheckExistsStep(w, p, w.procs[p], true);
    LocalKeeps(w, w', p, w'.procs[p]);
  }

  lemma AppendNextKeeps(w: World, p: nat, result: AppendResult)
    requires Inv(w) && p in w.procs
    ensures Inv(AppendNextStep(w, p, w.procs[p], result))
  {
    hide Inv, Protected, Fold;
    Known(w, p);
    var w' := AppendNextStep(w, p, w.procs[p], result);
    LocalKeeps(w, w', p, w'.procs[p]);
  }

  lemma StopKeeps(w: World, p: nat)
    requires Inv(w) && p in w.procs
    ensures Inv(With(w, p, w.procs[p].(pc := Done)))
  {
    hide Inv, Fold;
    Known(w, p);
    LocalKeeps(w, With(w, p, w.procs[p].(pc := Done)), p, w.procs[p].(pc := Done));
  }

  /** A failed loop only stops its caller, or goes on to the repair of a deck that was seen. */
  lemma FailureKeeps(w: World, p: nat)
    requires Inv(w) && p in w.procs && (w.procs[p].pc.Loop? || w.procs[p].pc.Wait?)
    ensures Inv(With(w, p, Leave(w.procs[p], w.procs[p].pc.op, OnFailure(w.procs[p].pc.op))))
  {
    hide Inv, Fold;
    Known(w, p);
    var q := w.procs[p];
    var q' := Leave(q, q.pc.op, OnFailure(q.pc.op));
    LocalKeeps(w, With(w, p, q'), p, q');
  }

  /** A first append that may still happen is protected by the binding, so it breaks nothing when it lands. */
  lemma DeckLands(w: World, p: nat)
    requires Inv(w) && p in w.procs && MayLand(w.procs[p])
    ensures Inv(w.(decks := w.decks + {w.procs[p].room}))
  {
    hide Lifecycle, CanFollow;
    var w' := w.(decks := w.decks + {w.procs[p].room});
    var q := w.procs[p];
    assert ProcOk(w, q);
    forall x | x in w'.procs ensures ProcOk(w', w'.procs[x]) {
      assert ProcOk(w, w.procs[x]);
      if ClaimsNow(w.procs[x]) { assert OwnToken(w.procs[x]) != OwnToken(q); }
    }
    forall m | m in w'.flight ensures MsgOk(w', m) {
      assert MsgOk(w, m) && OwnsMsg(w, q, m);
      LiveRelease(w, m);
    }
  }

  lemma LiveRelease(w: World, m: Msg)
    requires m.expected == |w.log| && m.rec.phase == RELEASED ==> CanFollow(w.game, w.log, m.rec)
    ensures m.expected == |w.log| && m.rec.phase == RELEASED ==> ClaimedWith(w, m.rec.room, m.rec.token)
  {}

  lemma LateDeckKeeps(w: World, p: nat)
    requires Inv(w) && p in w.procs
    ensures Inv(LateDeckStep(w, p, w.procs[p]))
  {
    hide Inv, Fold;
    var q := w.procs[p];
    if q.limbo {
      DeckLands(w, p);
      var w1 := w.(decks := w.decks + {q.room});
      Known(w1, p);
      LocalKeeps(w1, LateDeckStep(w, p, q), p, q.(limbo := false));
    }
  }

  lemma AppendFirstKeeps(w: World, p: nat, landed: bool, result: AppendResult)
    requires Inv(w) && p in w.procs
    ensures Inv(AppendFirstStep(w, p, w.procs[p], landed, result))
  {
    hide Inv, Fold;
    var q := w.procs[p];
    var w' := AppendFirstStep(w, p, q, landed, result);
    if q.pc.FirstAppend? && w' != w {
      if landed { DeckLands(w, p); }
      var w1 := if landed then w.(decks := w.decks + {q.room}) else w;
      Known(w1, p);
      LocalKeeps(w1, w', p, w'.procs[p]);
    }
  }

  /** A loop succeeds only when the binding is as its caller needs it. */
  lemma SuccessKeeps(w: World, p: nat)
    requires Inv(w) && p in w.procs && (w.procs[p].pc.Loop? || NothingSent(w, w.procs[p]))
    requires w.procs[p].pc.Loop? || w.procs[p].pc.Wait?
    requires w.procs[p].pc.op.ClaimOp? ==> Protected(w, w.procs[p].(token := w.procs[p].pc.op.token))
    ensures Inv(With(w, p, Leave(w.procs[p], w.procs[p].pc.op, OnSuccess(w.procs[p].pc.op))))
  {
    hide Inv, Fold;
    Known(w, p);
    var q := w.procs[p];
    var q' := Leave(q, q.pc.op, OnSuccess(q.pc.op));
    LocalKeeps(w, With(w, p, q'), p, q');
  }

  /** A message that is sent follows the log as it stands, and its sender owns its token. */
  lemma Sends(w: World, p: nat, m: Msg, q': Proc)
    requires Inv(w) && p in w.procs && m.expected == |w.log| && CanFollow(w.game, w.log, m.rec)
    requires m.rec.token in w.tokens && (m.rec.phase == ACTIVE ==> m.rec.room in w.decks)
    requires m.rec.phase == RELEASED ==> m.rec.room !in w.decks
    requires m.rec.phase != ACTIVE ==> m.rec.token == OwnToken(q') && m.rec.room == q'.room
    requires m.rec.phase == ACTIVE ==> forall x :: x in w.procs ==> Owns(w.procs[x], m.rec)
    requires m.rec.phase == RELEASED ==> Retired(q')
    requires m.rec.phase == CLAIMED ==> AwaitsClaim(w, q')
    requires w.procs[p] == q'
    ensures Inv(w.(flight := w.flight + {m}))
  {
    hide Lifecycle, CanFollow;
    var w' := w.(flight := w.flight + {m});
    forall x | x in w'.procs ensures ProcOk(w', w'.procs[x]) {
      assert ProcOk(w, w.procs[x]);
    }
    assert ProperRecord(w.game, m.rec) by { FollowsProper(w.game, w.log, m.rec); }
    forall x | x in w'.procs ensures OwnsMsg(w', w'.procs[x], m) {
      if x != p && m.rec.phase != ACTIVE { assert OwnToken(w.procs[x]) != OwnToken(q'); }
    }
    forall y | y in w'.flight ensures MsgOk(w', y) {
      if y != m {
        assert MsgOk(w, y);
        forall x | x in w'.procs ensures OwnsMsg(w', w'.procs[x], y) { assert OwnsMsg(w, w.procs[x], y); }
      }
    }
  }

  lemma FollowsProper(game: string, log: seq<Record>, r: Record)
    requires CanFollow(game, log, r)
    ensures ProperRecord(game, r) && r.phase in {CLAIMED, ACTIVE, RELEASED}
    ensures r.phase != CLAIMED ==> log != [] && log[|log| - 1].room == r.room && log[|log| - 1].token == r.token
  {}

  lemma LookKeeps(w: World, p: nat, newToken: string)
    requires Inv(w) && p in w.procs
    ensures Inv(LookStep(w, p, w.procs[p], newToken))
  {
    hide Inv, Fold;
    var q := w.procs[p];
    Known(w, p);
    if q.pc.Loop? {
      var op, st := q.pc.op, Fold(w.game, w.log).value;
      if q.pc.tries >= MAX_ATTEMPTS || Decide(w.game, q, op, st).Fails? {
        FailureKeeps(w, p);
      } else if Decide(w.game, q, op, st).Succeeds? {
        SuccessKeeps(w, p);
      } else if Decide(w.game, q, op, st).Appends? {
        var rec := Decide(w.game, q, op, st).rec;
        var q' := q.(pc := Wait(op, q.pc.tries, |w.log|, rec));
        LocalKeeps(w, With(w, p, q'), p, q');
        if rec.phase == ACTIVE { LastOwned(w); LastOwned(With(w, p, q')); }
        Sends(With(w, p, q'), p, Msg(|w.log|, rec), q');
      }
    }
  }

  lemma LastOwned(w: World)
    requires Inv(w) && w.log != []
    ensures var r := w.log[|w.log| - 1]; r.token in w.tokens && forall x :: x in w.procs ==> Owns(w.procs[x], r)
  {
    hide Lifecycle, TokensOk, MsgOk, ProcOk;
  }

  lemma LearnKeeps(w: World, p: nat, result: AppendResult)
    requires Inv(w) && p in w.procs
    ensures Inv(LearnStep(w, p, w.procs[p], result))
  {
    hide Inv, Fold;
    var q := w.procs[p];
    Known(w, p);
    if q.pc.Wait? {
      match result {
        case Unclear => FailureKeeps(w, p);
        case Conflicted =>
          if q.pc.expected != |w.log| {
            var q' := q.(pc := Loop(q.pc.op, q.pc.tries + 1));
            LocalKeeps(w, With(w, p, q'), p, q');
          }
        case Acknowledged =>
          if q.pc.expected < |w.log| && w.log[q.pc.expected] == q.pc.rec {
            if q.pc.op.ClaimOp? { assert w.log[q.pc.expected].token == q.pc.op.token; }
            SuccessKeeps(w, p);
          }
      }
    }
  }

  /** What a message that can land says about its caller, and about every caller that may append a deck. */
  lemma LandKeeps(w: World, m: Msg)
    requires Inv(w)
    ensures Inv(LandStep(w, m))
  {
    hide Lifecycle, Fold;
    if m in w.flight && m.expected == |w.log| {
      var w' := LandStep(w, m);
      assert MsgOk(w, m);
      LifecycleSnoc(w.game, w.log, m.rec);
      assert w'.log[|w.log|] == m.rec;
      assert LogOk(w') by {
        forall x, i | x in w'.procs && 0 <= i < |w'.log| ensures Owns(w'.procs[x], w'.log[i]) {
          if i < |w.log| { assert Owns(w.procs[x], w.log[i]); } else { assert OwnsMsg(w, w.procs[x], m); }
        }
      }
      forall x | x in w'.procs ensures ProcOk(w', w'.procs[x]) { LandProc(w, m, x); }
      forall y | y in w'.flight ensures MsgOk(w', y) {
        assert MsgOk(w, y);
        forall x | x in w'.procs ensures OwnsMsg(w', w'.procs[x], y) { assert OwnsMsg(w, w.procs[x], y); }
      }
    }
  }

  lemma LandProc(w: World, m: Msg, x: nat)
    requires Inv(w) && m in w.flight && m.expected == |w.log| && x in w.procs
    ensures ProcOk(LandStep(w, m), w.procs[x])
  {
    hide Lifecycle, Fold, TokensOk;
    var q := w.procs[x];
    var w' := LandStep(w, m);
    assert MsgOk(w, m) && ProcOk(w, q) && OwnsMsg(w, q, m);
    assert w'.log == w.log + [m.rec];
  }

  /** Every step of a settled run keeps the invariant. */
  lemma StepKeeps(w: World, l: Label)
    requires Inv(w) && (l.CheckExists? ==> l.settled)
    ensures Inv(Step(w, l))
  {
    hide Inv, CallStep, LandStep, ReadDeckStep, CallbackStep, LookStep, ReadFailsStep, LearnStep, RecheckStep, AppendFirstStep,
         LateDeckStep, CheckExistsStep, AppendNextStep, With;
    match l {
      case Call(p, room, create) => CallKeeps(w, p, room, create);
      case Land(m) => LandKeeps(w, m);
      case _ =>
        if l.p in w.procs {
          match l {
            case ReadDeck(p) => ReadDeckKeeps(w, p);
            case RunCallback(p, changed, newToken) => CallbackKeeps(w, p, changed, newToken);
            case Look(p, newToken) => LookKeeps(w, p, newToken);
            case ReadFails(p) => LoopFailureKeeps(w, p);
            case Learn(p, result) => LearnKeeps(w, p, result);
            case Recheck(p) => RecheckKeeps(w, p);
            case AppendFirst(p, landed, result) => AppendFirstKeeps(w, p, landed, result);
            case LateDeck(p) => LateDeckKeeps(w, p);
            case CheckExists(p, _) => CheckExistsKeeps(w, p);
            case AppendNext(p, result) => AppendNextKeeps(w, p, result);
            case Stop(p) => StopKeeps(w, p);
            case _ =>
          }
        }
    }
  }

  lemma LoopFailureKeeps(w: World, p: nat)
    requires Inv(w) && p in w.procs
    ensures Inv(ReadFailsStep(w, p, w.procs[p]))
  {
    hide Inv;
    if w.procs[p].pc.Loop? { FailureKeeps(w, p); }
  }

  lemma {:induction false} RunKeeps(w: World, ls: seq<Label>)
    requires Inv(w) && Settled(ls)
    ensures Inv(Run(w, ls))
  {
    hide Inv, Step;
    if ls != [] {
      RunKeeps(w, ls[..|ls| - 1]);
      StepKeeps(Run(w, ls[..|ls| - 1]), ls[|ls| - 1]);
    }
  }

  // ---- what follows for every run

  lemma StartOk(game: string)
    requires game != ""
    ensures Inv(Start(game))
  {}

  /** At most one room ever has a deck for the game, and then the binding names that room. */
  lemma OneRoomPerGame(game: string, ls: seq<Label>)
    requires game != "" && Settled(ls)
    ensures var w := Run(Start(game), ls);
            && (forall r, s :: r in w.decks && s in w.decks ==> r == s)
            && (forall r :: r in w.decks ==> Fold(game, w.log).Some? && Fold(game, w.log).value.BoundRoom() == Some(r))
  {
    hide Step, TokensOk, MsgOk, ProcOk, Fold;
    StartOk(game);
    RunKeeps(Start(game), ls);
    var w := Run(Start(game), ls);
    GameFixed(Start(game), ls);
    LifecycleFolds(game, w.log);
  }

  lemma {:induction false} GameFixed(w: World, ls: seq<Label>)
    ensures Run(w, ls).game == w.game
  {
    if ls != [] { GameFixed(w, ls[..|ls| - 1]); }
  }

  /** Every reachable binding log is a lifecycle, so folding it never fails and shows its last record. */
  lemma LogIsLifecycle(game: string, ls: seq<Label>)
    requires game != "" && Settled(ls)
    ensures var log := Run(Start(game), ls).log;
            && Lifecycle(game, log)
            && Fold(game, log) == if log == [] then Some(ZERO)
                                  else var r := log[|log| - 1]; Some(State(r.room, r.phase, r.token, |log|))
  {
    hide Step, TokensOk, MsgOk, ProcOk, Fold;
    StartOk(game);
    RunKeeps(Start(game), ls);
    GameFixed(Start(game), ls);
    LifecycleFolds(game, Run(Start(game), ls).log);
  }

  /** An active binding is final: no later step changes the log. */
  lemma {:induction false} ActiveIsFinal(w: World, ls: seq<Label>)
    requires Inv(w) && Settled(ls) && w.log != [] && w.log[|w.log| - 1].phase == ACTIVE
    ensures Run(w, ls).log == w.log
  {
    hide Inv, Step;
    if ls != [] {
      var before := Run(w, ls[..|ls| - 1]);
      ActiveIsFinal(w, ls[..|ls| - 1]);
      RunKeeps(w, ls[..|ls| - 1]);
      StepLog(before, ls[|ls| - 1]);
      NoLiveMessage(before, ls[|ls| - 1]);
    }
  }

  lemma StepLog(w: World, l: Label)
    ensures Step(w, l).log == if l.Land? && l.m in w.flight && l.m.expected == |w.log| then w.log + [l.m.rec] else w.log
  {
    hide Fold;
  }

  lemma NoLiveMessage(w: World, l: Label)
    requires Inv(w) && w.log != [] && w.log[|w.log| - 1].phase == ACTIVE
    ensures l.Land? && l.m in w.flight ==> l.m.expected != |w.log|
  {
    hide Lifecycle, ProcOk, TokensOk, Fold;
    if l.Land? && l.m in w.flight { assert MsgOk(w, l.m); }
  }

  /** Only the caller that made a claim can release it: a release is sent by the caller that owns the token. */
  lemma OnlyOwnerReleases(w: World, l: Label, m: Msg)
    requires Inv(w) && m !in w.flight && m in Step(w, l).flight && m.rec.phase == RELEASED
    ensures l.Look? && l.p in w.procs && OwnToken(w.procs[l.p]) == m.rec.token && ClaimedWith(w, w.procs[l.p].room, m.rec.token)
    ensures w.procs[l.p].room !in w.decks
  {
    hide Lifecycle, TokensOk, MsgOk, Fold;
    assert l.Look?;
    Known(w, l.p);
    assert ProcOk(w, w.procs[l.p]);
  }

  /** The repair loop that runs for an existing deck never finds the binding missing or held by another room. */
  lemma EnsureNeverConflicts(w: World, p: nat)
    requires Inv(w) && p in w.procs && w.procs[p].pc.Loop? && w.procs[p].pc.op.EnsureOp?
    ensures Fold(w.game, w.log).Some?
    ensures var e := EvaluateFinalizeRepair(Fold(w.game, w.log).value, w.procs[p].room);
            e == FinalizeAlreadyActive || e == FinalizeAppend
  {
    hide Inv, Fold;
    Known(w, p);
  }

  // ---- an undisturbed caller

  /** No caller reads whether its stream exists, and no unknown append lands. */
  predicate Plain(ls: seq<Label>) { forall i :: 0 <= i < |ls| ==> !ls[i].CheckExists? && !ls[i].LateDeck? }

  lemma Then(start: World, ls: seq<Label>, w: World, l: Label) returns (ls': seq<Label>)
    requires Run(start, ls) == w
    ensures ls' == ls + [l] && Run(start, ls') == Step(w, l) && (Plain(ls) && !l.CheckExists? && !l.LateDeck? ==> Plain(ls'))
  {
    ls' := ls + [l];
    assert ls'[..|ls|] == ls;
  }

  lemma NoRun(w: World)
    ensures Run(w, []) == w
  {}

  predicate Free(w: World) { w.log == [] || w.log[|w.log| - 1].phase == RELEASED }

  lemma ProcSet(w: World, p: nat, x: Proc, y: Proc)
    ensures With(With(w, p, x), p, y) == With(w, p, y)
  {
    assert w.procs[p := x][p := y] == w.procs[p := y];
  }

  /** One turn of a loop that appends: the append lands, and its caller is told. */
  lemma ThenAppends(start: World, ls: seq<Label>, w: World, p: nat, q: Proc, rec: Record) returns (ls': seq<Label>)
    requires Run(start, ls) == w && p in w.procs && w.procs[p] == q && q.pc.Loop? && q.pc.tries == 0
    requires Fold(w.game, w.log).Some? && Decide(w.game, q, q.pc.op, Fold(w.game, w.log).value) == Appends(rec)
    requires Msg(|w.log|, rec) !in w.flight
    ensures Run(start, ls') == With(w, p, Leave(q, q.pc.op, OnSuccess(q.pc.op))).(log := w.log + [rec])
    ensures Plain(ls) ==> Plain(ls')
  {
    hide Run, Fold, Decide, Leave, OnSuccess;
    var op, m := q.pc.op, Msg(|w.log|, rec);
    var waiting := q.(pc := Wait(op, 0, |w.log|, rec));
    ls' := Then(start, ls, w, Look(p, ""));
    var w1 := With(w, p, waiting).(flight := w.flight + {m});
    ls' := Then(start, ls', w1, Land(m));
    assert w.flight + {m} - {m} == w.flight;
    var w2 := With(w, p, waiting).(log := w.log + [rec]);
    ls' := Then(start, ls', w2, Learn(p, Acknowledged));
    SetWaits(q, waiting);
    ProcSet(w2, p, waiting, Leave(q, op, OnSuccess(op)));
    ProcSet(w, p, waiting, Leave(q, op, OnSuccess(op)));
  }

  lemma SetWaits(q: Proc, waiting: Proc)
    requires q.pc.Loop? && waiting == q.(pc := waiting.pc)
    ensures Leave(waiting, q.pc.op, OnSuccess(q.pc.op)) == Leave(q, q.pc.op, OnSuccess(q.pc.op))
  {}

  lemma FreeFacts(w: World)
    requires Inv(w) && Free(w)
    ensures w.game != "" && w.decks == {} && Lifecycle(w.game, w.log)
    ensures Fold(w.game, w.log).Some? && Fold(w.game, w.log).value.IsEmptyOrReleased()
  {
    hide Lifecycle, CanFollow;
    LifecycleFolds(w.game, w.log);
    forall r ensures r !in w.decks { assert r in w.decks ==> BoundTo(w, r); }
  }

  lemma FreshNotSent(w: World, m: Msg)
    requires Inv(w) && m.rec.token !in w.tokens
    ensures m !in w.flight
  {
    hide LogOk, DecksOk, TokensOk, ProcOk, CanFollow;
    assert m in w.flight ==> MsgOk(w, m);
  }

  function Fresh(room: string, token: string, pc: Pc): Proc { Proc(room, true, token, true, pc, false) }

  /** The caller reads that there is no deck, and starts its claim. */
  lemma ThenStarts(w: World, p: nat, room: string, token: string) returns (ls: seq<Label>)
    requires w.game != "" && w.decks == {} && p !in w.procs && room != "" && IsFresh(w, token)
    ensures Run(w, ls) ==
      With(w, p, Fresh(room, "", Loop(ClaimOp(token, ThenFirstAppend), 0))).(tokens := w.tokens + {token})
    ensures Plain(ls)
  {
    hide Run;
    assert Run(w, []) == w by { NoRun(w); }
    var q0, q1 := Fresh(room, "", Load), Fresh(room, "", Callback(true));
    ls := Then(w, [], w, Call(p, room, true));
    ls := Then(w, ls, With(w, p, q0), ReadDeck(p));
    ProcSet(w, p, q0, q1);
    ls := Then(w, ls, With(w, p, q1), RunCallback(p, true, token));
    ProcSet(w, p, q1, Fresh(room, "", Loop(ClaimOp(token, ThenFirstAppend), 0)));
  }

  /** Its claim lands. */
  lemma ThenClaims(w: World, p: nat, room: string, token: string) returns (ls: seq<Label>)
    requires Inv(w) && Free(w) && p !in w.procs && room != "" && IsFresh(w, token)
    ensures Run(w, ls) ==
      With(w, p, Fresh(room, token, FirstAppend)).(log := w.log + [Record(room, w.game, CLAIMED, token)], tokens := w.tokens + {token})
    ensures Plain(ls)
  {
    hide Run, Inv, Fold;
    var rec, op := Record(room, w.game, CLAIMED, token), ClaimOp(token, ThenFirstAppend);
    FreeFacts(w);
    FreshNotSent(w, Msg(|w.log|, rec));
    ls := ThenStarts(w, p, room, token);
    var q := Fresh(room, "", Loop(op, 0));
    ls := ThenAppends(w, ls, With(w, p, q).(tokens := w.tokens + {token}), p, q, rec);
    ProcSet(w, p, q, Fresh(room, token, FirstAppend));
  }

  lemma ClaimFolds(w: World, claim: Record)
    requires Inv(w) && Free(w) && claim.game == w.game && claim.room != "" && claim.phase == CLAIMED && claim.token != ""
    ensures Fold(w.game, w.log + [claim]) == Some(State(claim.room, CLAIMED, claim.token, |w.log| + 1))
  {
    hide Inv, Fold;
    FreeFacts(w);
    LifecycleSnoc(w.game, w.log, claim);
    LifecycleFolds(w.game, w.log + [claim]);
  }

  /** Its first append is acknowledged, and the binding becomes active. */
  lemma ThenBinds(w: World, p: nat, room: string, token: string) returns (ls: seq<Label>)
    requires Inv(w) && Free(w) && p !in w.procs && room != "" && IsFresh(w, token)
    ensures Run(w, ls) ==
      With(w, p, Fresh(room, token, Done)).(log := w.log + [Record(room, w.game, CLAIMED, token)] + [Record(room, w.game, ACTIVE, token)],
                                            tokens := w.tokens + {token}, decks := {room})
    ensures Plain(ls)
  {
    hide Run, Inv, Fold;
    var claim, active := Record(room, w.game, CLAIMED, token), Record(room, w.game, ACTIVE, token);
    FreeFacts(w);
    ClaimFolds(w, claim);
    FreshNotSent(w, Msg(|w.log| + 1, active));
    ls := ThenClaims(w, p, room, token);
    var q1, q2 := Fresh(room, token, FirstAppend), Fresh(room, token, Loop(FinalizeOp(token, FinalizeReturns), 0));
    var w1 := With(w, p, q1).(log := w.log + [claim], tokens := w.tokens + {token});
    ls := Then(w, ls, w1, AppendFirst(p, true, Acknowledged));
    ProcSet(w, p, q1, q2);
    assert {} + {room} == {room};
    var w2 := With(w, p, q2).(log := w.log + [claim], tokens := w.tokens + {token}, decks := {room});
    ls := ThenAppends(w, ls, w2, p, q2, active);
    ProcSet(w, p, q2, Fresh(room, token, Done));
  }

  /** From every reachable state in which no room holds the game, a caller that is left alone gets it: its deck stream exists
      and the binding is active for its room. Claims that were released, and appends that are still under way, do not
      stand in its way. */
  lemma FreeGameCanBeTaken(w: World, p: nat, room: string, token: string) returns (ls: seq<Label>)
    requires Inv(w) && Free(w) && p !in w.procs && room != "" && IsFresh(w, token)
    ensures var w' := Run(w, ls);
            && w'.decks == {room} && p in w'.procs && w'.procs[p].pc.Done?
            && w'.log == w.log + [Record(room, w.game, CLAIMED, token), Record(room, w.game, ACTIVE, token)]
            && Plain(ls)
  {
    hide Run, Inv;
    ls := ThenBinds(w, p, room, token);
  }
}
