/** First deck appends with an unknown outcome that land after their caller read the stream: exactly when a second room can
    then hold a deck of the game. */
module BindingRaces {
  import opened Common
  import opened Binding
  import opened BindingProtocol
  import opened BindingProgress

  /** What the caller reads after an unknown first append, when the append may still land later. */
  function ReadTooEarly(w: World, p: nat): World { Step(w, CheckExists(p, false)) }

  ghost predicate TwoRooms(w: World) { exists r, s :: r in w.decks && s in w.decks && r != s }

  ghost predicate SecondRoom(w: World, ls: seq<Label>) { Settled(ls) && TwoRooms(Run(w, ls)) }

  /** In a reachable state a caller reads its stream after a failed first append, too early. A second room can then get a deck
      exactly when the append is still under way and the stream was not there when it was read. */
  lemma LateLanding(game: string, before: seq<Label>, p: nat, other: nat, room: string, token: string)
    requires game != "" && Settled(before)
    requires var w := Run(Start(game), before);
             && p in w.procs && w.procs[p].pc.Recover?
             && other !in w.procs && room != "" && room != w.procs[p].room && IsFresh(w, token)
    ensures var w := Run(Start(game), before);
            (exists ls :: SecondRoom(ReadTooEarly(w, p), ls)) <==> w.procs[p].limbo && w.procs[p].room !in w.decks
  {
    hide Run, Step, Inv, IsFresh;
    StartOk(game);
    RunKeeps(Start(game), before);
    var w := Run(Start(game), before);
    if w.procs[p].limbo && w.procs[p].room !in w.decks {
      RunActive(Start(game), before);
      var ls := SecondRoomFollows(w, p, other, room, token);
      assert SecondRoom(ReadTooEarly(w, p), ls);
    } else {
      forall ls ensures !SecondRoom(ReadTooEarly(w, p), ls) {
        if Settled(ls) { OneRoomStays(w, p, ls); }
      }
    }
  }

  // ---- two worlds that differ in whether an append is under way

  predicate Twins(w: World, w': World, p: nat)
  {
    && p in w.procs && p in w'.procs
    && w' == w.(procs := w.procs[p := w.procs[p].(limbo := w'.procs[p].limbo)])
  }

  /** The same world with other callers, and with another limbo for caller x. */
  predicate Alike(w: World, w': World, x: nat)
  {
    && x in w.procs && x in w'.procs && w' == w.(procs := w'.procs)
    && w'.procs[x] == w.procs[x].(limbo := w'.procs[x].limbo)
  }

  /** A step of caller x writes back its own entry only. */
  predicate Own(w: World, v: World, x: nat)
    requires x in w.procs
  {
    x in v.procs && v.procs == w.procs[x := v.procs[x]] && v.procs[x].room == w.procs[x].room && w.decks <= v.decks
  }

  /** Steps of x from alike worlds end in alike worlds. */
  predicate AlikeStep(w: World, w': World, v: World, v': World, x: nat)
    requires x in w.procs && x in w'.procs
  {
    && Alike(v, v', x) && Own(w, v, x) && Own(w', v', x)
    && (w.procs[x] == w'.procs[x] ==> v.procs[x] == v'.procs[x])
  }

  lemma NoChange(w: World, p: nat)
    requires p in w.procs
    ensures w.procs == w.procs[p := w.procs[p]]
  {}

  lemma SetAlike(w: World, w': World, v: World, v': World, x: nat)
    requires Alike(w, w', x) && x in v.procs && x in v'.procs
    requires v.procs == w.procs[x := v.procs[x]] && v'.procs == w'.procs[x := v'.procs[x]] && v' == v.(procs := v'.procs)
    requires v'.procs[x] == v.procs[x].(limbo := v'.procs[x].limbo) && v.procs[x].room == w.procs[x].room && w.decks <= v.decks
    requires w.procs[x] == w'.procs[x] ==> v.procs[x] == v'.procs[x]
    ensures AlikeStep(w, w', v, v', x)
  {}

  lemma SameDecision(game: string, q: Proc, q': Proc, op: Op, st: State)
    requires q' == q.(limbo := q'.limbo)
    ensures Decide(game, q, op, st) == Decide(game, q', op, st)
  {}

  lemma ReadDeckAlike(w: World, w': World, x: nat)
    requires Alike(w, w', x)
    ensures var v, v' := ReadDeckStep(w, x, w.procs[x]), ReadDeckStep(w', x, w'.procs[x]);
            AlikeStep(w, w', v, v', x) && (w'.procs[x].limbo ==> v'.procs[x].limbo)
  {
    hide Fold, OnSuccess, OnFailure, AlikeStep;
    NoChange(w, x);
    NoChange(w', x);
    SetAlike(w, w', ReadDeckStep(w, x, w.procs[x]), ReadDeckStep(w', x, w'.procs[x]), x);
  }

  lemma CallbackAlike(w: World, w': World, x: nat, changed: bool, newToken: string)
    requires Alike(w, w', x)
    ensures var v, v' := CallbackStep(w, x, w.procs[x], changed, newToken), CallbackStep(w', x, w'.procs[x], changed, newToken);
            AlikeStep(w, w', v, v', x) && (w'.procs[x].limbo ==> v'.procs[x].limbo)
  {
    hide Fold, OnSuccess, OnFailure, AlikeStep;
    NoChange(w, x);
    NoChange(w', x);
    SetAlike(w, w', CallbackStep(w, x, w.procs[x], changed, newToken), CallbackStep(w', x, w'.procs[x], changed, newToken), x);
  }

  lemma LeaveAlike(w: World, w': World, x: nat, op: Op, pc: Pc)
    requires Alike(w, w', x)
    ensures var v, v' := With(w, x, Leave(w.procs[x], op, pc)), With(w', x, Leave(w'.procs[x], op, pc));
            AlikeStep(w, w', v, v', x) && (w'.procs[x].limbo ==> v'.procs[x].limbo)
  {
    hide AlikeStep, TokenAfter;
    assert TokenAfter(w'.procs[x], op) == TokenAfter(w.procs[x], op) by { SameToken(w.procs[x], w'.procs[x], op); }
    SetAlike(w, w', With(w, x, Leave(w.procs[x], op, pc)), With(w', x, Leave(w'.procs[x], op, pc)), x);
  }

  lemma SameToken(q: Proc, q': Proc, op: Op)
    requires q' == q.(limbo := q'.limbo)
    ensures TokenAfter(q', op) == TokenAfter(q, op)
  {}

  /** The caller moves on, and may send a message or take a token. */
  lemma MoveAlike(w: World, w': World, x: nat, pc: Pc, retry: bool, flight: set<Msg>, tokens: set<string>)
    requires Alike(w, w', x)
    ensures var v := With(w, x, w.procs[x].(pc := pc, retry := retry)).(flight := flight, tokens := tokens);
            var v' := With(w', x, w'.procs[x].(pc := pc, retry := retry)).(flight := flight, tokens := tokens);
            AlikeStep(w, w', v, v', x) && (w'.procs[x].limbo ==> v'.procs[x].limbo)
  {
    hide AlikeStep;
    SetAlike(w, w', With(w, x, w.procs[x].(pc := pc, retry := retry)).(flight := flight, tokens := tokens),
             With(w', x, w'.procs[x].(pc := pc, retry := retry)).(flight := flight, tokens := tokens), x);
  }

  lemma StayAlike(w: World, w': World, x: nat)
    requires Alike(w, w', x)
    ensures AlikeStep(w, w', w, w', x)
  {
    NoChange(w, x);
    NoChange(w', x);
  }

  lemma LookAlike(w: World, w': World, x: nat, newToken: string)
    requires Alike(w, w', x)
    ensures var v, v' := LookStep(w, x, w.procs[x], newToken), LookStep(w', x, w'.procs[x], newToken);
            AlikeStep(w, w', v, v', x) && (w'.procs[x].limbo ==> v'.procs[x].limbo)
  {
    hide Fold, OnSuccess, OnFailure, Decide, AlikeStep, Leave;
    var q, q', st := w.procs[x], w'.procs[x], Fold(w.game, w.log);
    StayAlike(w, w', x);
    if q.pc.Loop? {
      var op, tries := q.pc.op, q.pc.tries;
      LeaveAlike(w, w', x, op, OnFailure(op));
      if st.Some? && tries < MAX_ATTEMPTS {
        SameDecision(w.game, q, q', op, st.value);
        LeaveAlike(w, w', x, op, OnSuccess(op));
        var d := Decide(w.game, q, op, st.value);
        if d.Appends? {
          MoveAlike(w, w', x, Wait(op, tries, |w.log|, d.rec), q.retry, w.flight + {Msg(|w.log|, d.rec)}, w.tokens);
        } else if d.ClaimsFirst? && op.EnsureOp? {
          MoveAlike(w, w', x, Loop(ClaimOp(newToken, ThenFinalizeRepair(op.after)), 0), q.retry, w.flight, w.tokens + {newToken});
        }
      }
    }
  }

  lemma LearnAlike(w: World, w': World, x: nat, result: AppendResult)
    requires Alike(w, w', x)
    ensures var v, v' := LearnStep(w, x, w.procs[x], result), LearnStep(w', x, w'.procs[x], result);
            AlikeStep(w, w', v, v', x) && (w'.procs[x].limbo ==> v'.procs[x].limbo)
  {
    hide Fold, OnSuccess, OnFailure, AlikeStep;
    NoChange(w, x);
    NoChange(w', x);
    SetAlike(w, w', LearnStep(w, x, w.procs[x], result), LearnStep(w', x, w'.procs[x], result), x);
  }

  lemma AppendFirstAlike(w: World, w': World, x: nat, landed: bool, result: AppendResult)
    requires Alike(w, w', x)
    ensures var v, v' := AppendFirstStep(w, x, w.procs[x], landed, result), AppendFirstStep(w', x, w'.procs[x], landed, result);
            AlikeStep(w, w', v, v', x) && (w'.procs[x].limbo ==> v'.procs[x].limbo)
  {
    hide Fold, OnSuccess, OnFailure, AlikeStep;
    NoChange(w, x);
    NoChange(w', x);
    SetAlike(w, w', AppendFirstStep(w, x, w.procs[x], landed, result), AppendFirstStep(w', x, w'.procs[x], landed, result), x);
  }

  lemma OtherAlike(w: World, w': World, x: nat, l: Label)
    requires Alike(w, w', x) && (l.ReadFails? || l.Recheck? || l.AppendNext? || l.Stop?) && l.p == x
    ensures AlikeStep(w, w', Step(w, l), Step(w', l), x) && (w'.procs[x].limbo ==> Step(w', l).procs[x].limbo)
  {
    hide Fold, OnSuccess, OnFailure, AlikeStep, EvaluateClaim, Leave;
    var q := w.procs[x];
    StayAlike(w, w', x);
    if l.ReadFails? && q.pc.Loop? {
      LeaveAlike(w, w', x, q.pc.op, OnFailure(q.pc.op));
    } else {
      forall pc, retry ensures MovedAlike(w, w', x, pc, retry) {
        MoveAlike(w, w', x, pc, retry, w.flight, w.tokens);
      }
      assert MovedAlike(w, w', x, Step(w, l).procs[x].pc, Step(w, l).procs[x].retry);
    }
  }

  predicate MovedAlike(w: World, w': World, x: nat, pc: Pc, retry: bool)
    requires x in w.procs && x in w'.procs
  {
    AlikeStep(w, w', With(w, x, w.procs[x].(pc := pc, retry := retry)), With(w', x, w'.procs[x].(pc := pc, retry := retry)), x)
  }

  lemma DeckAlike(w: World, w': World, x: nat, l: Label)
    requires Alike(w, w', x) && (l.CheckExists? || l.LateDeck?) && l.p == x
    requires l.LateDeck? ==> w.procs[x] == w'.procs[x] || w.procs[x].room in w.decks
    ensures AlikeStep(w, w', Step(w, l), Step(w', l), x)
  {
    hide AlikeStep;
    NoChange(w, x);
    NoChange(w', x);
    assert w.procs[x].room in w.decks ==> w.decks + {w.procs[x].room} == w.decks;
    SetAlike(w, w', Step(w, l), Step(w', l), x);
  }

  lemma StepAlike(w: World, w': World, l: Label)
    requires !l.Call? && !l.Land? && Alike(w, w', l.p)
    requires l.LateDeck? ==> w.procs[l.p] == w'.procs[l.p] || w.procs[l.p].room in w.decks
    ensures AlikeStep(w, w', Step(w, l), Step(w', l), l.p)
    ensures !l.CheckExists? && !l.LateDeck? && w'.procs[l.p].limbo ==> Step(w', l).procs[l.p].limbo
  {
    assert l.p in w.procs && l.p in w'.procs;
    hide ReadDeckStep, CallbackStep, LookStep, ReadFailsStep, LearnStep, RecheckStep, AppendFirstStep, LateDeckStep,
         CheckExistsStep, AppendNextStep, With, AlikeStep, Alike;
    match l {
      case ReadDeck(p) => ReadDeckAlike(w, w', p);
      case RunCallback(p, changed, newToken) => CallbackAlike(w, w', p, changed, newToken);
      case Look(p, newToken) => LookAlike(w, w', p, newToken);
      case Learn(p, result) => LearnAlike(w, w', p, result);
      case AppendFirst(p, landed, result) => AppendFirstAlike(w, w', p, landed, result);
      case CheckExists(p, _) => DeckAlike(w, w', p, l);
      case LateDeck(p) => DeckAlike(w, w', p, l);
      case ReadFails(p) => OtherAlike(w, w', p, l);
      case Recheck(p) => OtherAlike(w, w', p, l);
      case AppendNext(p, _) => OtherAlike(w, w', p, l);
      case Stop(p) => OtherAlike(w, w', p, l);
      case _ =>
    }
  }

  lemma TwinsOwn(w: World, w': World, v: World, v': World, p: nat)
    requires Twins(w, w', p) && AlikeStep(w, w', v, v', p)
    ensures Twins(v, v', p)
  {
    assert v'.procs == v.procs[p := v'.procs[p]];
  }

  lemma TwinsOther(w: World, w': World, v: World, v': World, p: nat, x: nat)
    requires Twins(w, w', p) && x != p && x in w.procs && AlikeStep(w, w', v, v', x)
    ensures Twins(v, v', p) && v.procs[p] == w.procs[p] && v'.procs[p] == w'.procs[p]
  {
    assert v'.procs == v.procs[p := v'.procs[p]];
  }

  lemma TwinsShared(w: World, w': World, p: nat, l: Label)
    requires Twins(w, w', p) && (l.Call? || l.Land? || l.p !in w.procs)
    ensures Twins(Step(w, l), Step(w', l), p) && Step(w, l).decks == w.decks
    ensures Step(w, l).procs[p] == w.procs[p] && Step(w', l).procs[p] == w'.procs[p]
  {
    if l.Call? {
      assert Step(w', l).procs == Step(w, l).procs[p := w'.procs[p]];
    }
  }

  /** The append matters only when it lands, and only when the stream is not there yet. */
  lemma TwinsStep(w: World, w': World, p: nat, l: Label)
    requires Twins(w, w', p) && (w.procs[p].room in w.decks || l != LateDeck(p))
    ensures Twins(Step(w, l), Step(w', l), p) && w.decks <= Step(w, l).decks
    ensures Step(w, l).procs[p].room == w.procs[p].room
    ensures !l.CheckExists? && !l.LateDeck? && w'.procs[p].limbo ==> Step(w', l).procs[p].limbo
  {
    hide Step;
    if l.Call? || l.Land? || l.p !in w.procs {
      TwinsShared(w, w', p, l);
    } else {
      StepAlike(w, w', l);
      if l.p == p {
        TwinsOwn(w, w', Step(w, l), Step(w', l), p);
      } else {
        TwinsOther(w, w', Step(w, l), Step(w', l), p, l.p);
      }
    }
  }

  lemma {:induction false} TwinsRun(w: World, w': World, p: nat, ls: seq<Label>)
    requires Twins(w, w', p) && (w.procs[p].room in w.decks || Plain(ls))
    ensures Twins(Run(w, ls), Run(w', ls), p) && w.decks <= Run(w, ls).decks && Run(w, ls).procs[p].room == w.procs[p].room
    ensures Plain(ls) && w'.procs[p].limbo ==> Run(w', ls).procs[p].limbo
  {
    hide Step;
    if ls != [] {
      var before := ls[..|ls| - 1];
      TwinsRun(w, w', p, before);
      TwinsStep(Run(w, before), Run(w', before), p, ls[|ls| - 1]);
    }
  }

  lemma ReadTwins(w: World, p: nat)
    requires p in w.procs && w.procs[p].pc.Recover?
    ensures Twins(Step(w, CheckExists(p, true)), ReadTooEarly(w, p), p) && ReadTooEarly(w, p).procs[p].limbo == w.procs[p].limbo
    ensures var w1 := Step(w, CheckExists(p, true));
            && w1 == With(w, p, w1.procs[p]) && !w1.procs[p].limbo && w1.procs[p].room == w.procs[p].room
            && (w.procs[p].room !in w.decks ==> w1.procs[p] == w.procs[p].(pc := Loop(ReleaseOp, 0), limbo := false))
  {}

  lemma OneBound(w: World)
    requires Inv(w)
    ensures !TwoRooms(w)
  {
    hide LogOk, TokensOk, ProcOk, MsgOk;
  }

  /** When the stream was there, or nothing is under way, reading early is reading in time. */
  lemma OneRoomStays(w: World, p: nat, ls: seq<Label>)
    requires Inv(w) && p in w.procs && w.procs[p].pc.Recover? && Settled(ls) && (w.procs[p].limbo ==> w.procs[p].room in w.decks)
    ensures !TwoRooms(Run(ReadTooEarly(w, p), ls))
  {
    hide Run, Step, Inv, Settled;
    var w1 := Step(w, CheckExists(p, true));
    ReadTwins(w, p);
    StepKeeps(w, CheckExists(p, true));
    RunKeeps(w1, ls);
    OneBound(Run(w1, ls));
    if w.procs[p].limbo {
      TwinsRun(w1, ReadTooEarly(w, p), p, ls);
    } else {
      SameTwins(w1, ReadTooEarly(w, p), p);
    }
  }

  lemma SameTwins(w: World, w': World, p: nat)
    requires Twins(w, w', p) && w.procs[p].limbo == w'.procs[p].limbo
    ensures w == w'
  {
    assert w.procs[p := w.procs[p]] == w.procs;
  }

  // ---- the second room

  /** A game becomes active only for a room that has a deck. */
  predicate ActiveHasDeck(w: World) { forall i :: 0 <= i < |w.log| && w.log[i].phase == ACTIVE ==> w.log[i].room in w.decks }

  lemma {:induction false} RunActive(start: World, ls: seq<Label>)
    requires Inv(start) && Settled(ls) && ActiveHasDeck(start)
    ensures ActiveHasDeck(Run(start, ls))
  {
    hide Inv, Step;
    if ls != [] {
      var before := ls[..|ls| - 1];
      var w, l := Run(start, before), ls[|ls| - 1];
      RunActive(start, before);
      RunKeeps(start, before);
      StepLog(w, l);
      DecksGrow(w, l);
      ActiveIsSent(w, l);
    }
  }

  lemma DecksGrow(w: World, l: Label)
    ensures w.decks <= Step(w, l).decks
  {
    hide Fold, Decide, OnSuccess, OnFailure, TokenAfter, Leave;
  }

  lemma ActiveIsSent(w: World, l: Label)
    requires Inv(w)
    ensures l.Land? && l.m in w.flight && l.m.rec.phase == ACTIVE ==> l.m.rec.room in w.decks
  {
    hide LogOk, DecksOk, TokensOk, ProcOk, CanFollow;
    assert l.Land? && l.m in w.flight ==> MsgOk(w, l.m);
  }

  /** The caller's release can be sent, and has not been. */
  lemma ReleaseIsDue(w: World, p: nat)
    requires Inv(w) && ActiveHasDeck(w) && p in w.procs
    requires var q := w.procs[p]; q.pc.Recover? && q.limbo && q.room !in w.decks
    ensures var q := w.procs[p]; var rec := Record(q.room, w.game, RELEASED, q.token);
            && Fold(w.game, w.log).Some? && Msg(|w.log|, rec) !in w.flight
            && Decide(w.game, q.(pc := Loop(ReleaseOp, 0), limbo := false), ReleaseOp, Fold(w.game, w.log).value) == Appends(rec)
  {
    hide Inv, Fold, Lifecycle, CanFollow;
    Known(w, p);
    var q := w.procs[p];
    var m := Msg(|w.log|, Record(q.room, w.game, RELEASED, q.token));
    assert ClaimedWith(w, q.room, q.token);
    if m in w.flight { KnownMsg(w, m, p); }
  }

  lemma KnownMsg(w: World, m: Msg, p: nat)
    requires Inv(w) && m in w.flight && p in w.procs
    ensures OwnsMsg(w, w.procs[p], m)
  {
    hide LogOk, DecksOk, TokensOk, ProcOk, CanFollow;
    assert MsgOk(w, m);
  }

  /** The claim is released, another caller gets the game, and the append lands. */
  lemma SecondRoomFollows(w: World, p: nat, other: nat, room: string, token: string) returns (ls: seq<Label>)
    requires Inv(w) && ActiveHasDeck(w) && p in w.procs && w.procs[p].pc.Recover? && w.procs[p].limbo && w.procs[p].room !in w.decks
    requires other !in w.procs && room != "" && room != w.procs[p].room && IsFresh(w, token)
    ensures SecondRoom(ReadTooEarly(w, p), ls) && Run(ReadTooEarly(w, p), ls).decks == {w.procs[p].room, room}
  {
    hide Run, Step, Inv, Fold, Decide;
    var q := w.procs[p];
    var w1, w1' := Step(w, CheckExists(p, true)), ReadTooEarly(w, p);
    ReadTwins(w, p);
    StepKeeps(w, CheckExists(p, true));
    ReleaseIsDue(w, p);
    var rec := Record(q.room, w.game, RELEASED, q.token);
    assert Run(w1, []) == w1 by { NoRun(w1); }
    var first := ThenAppends(w1, [], w1, p, w1.procs[p], rec);
    RunKeeps(w1, first);
    var w2 := Run(w1, first);
    var second := FreeGameCanBeTaken(w2, other, room, token);
    RunConcat(w1, first, second);
    ls := first + second;
    TwinsRun(w1, w1', p, ls);
    var w3 := Run(w1', ls);
    assert w3.decks == {room} && w3.procs[p].limbo && w3.procs[p].room == q.room;
    ls := Then(w1', ls, w3, LateDeck(p));
    LateLands(w3, p);
    assert TwoRooms(Run(w1', ls));
  }

  lemma LateLands(w: World, p: nat)
    requires p in w.procs && w.procs[p].limbo
    ensures Step(w, LateDeck(p)).decks == w.decks + {w.procs[p].room}
  {}

  /** For every game and every two rooms there is such a run: the first one claims the game, its append has an unknown
      outcome, and both end up with a deck. */
  lemma UnsettledAppendBreaks(game: string, a: string, b: string) returns (ls: seq<Label>)
    requires game != "" && a != "" && b != "" && a != b
    ensures Run(Start(game), ls).decks == {a, b}
  {
    hide Run, Step, Inv, Fold;
    StartOk(game);
    var first := ThenClaims(Start(game), 0, a, "t");
    var w1 := Run(Start(game), first);
    var second := Then(Start(game), first, w1, AppendFirst(0, false, Unclear));
    AppendUnknown(w1, 0);
    var w2 := Run(Start(game), second);
    RunKeeps(Start(game), second);
    RunActive(Start(game), second);
    var third := Then(Start(game), second, w2, CheckExists(0, false));
    var rest := SecondRoomFollows(w2, 0, 1, b, "u");
    RunConcat(Start(game), third, rest);
    ls := third + rest;
  }

  lemma AppendUnknown(w: World, p: nat)
    requires p in w.procs && w.procs[p].pc.FirstAppend?
    ensures Step(w, AppendFirst(p, false, Unclear)) == With(w, p, w.procs[p].(pc := Recover, limbo := true))
  {}
}
