/** Where a caller of WithDeck gets when nobody interferes: after a lost append, after an append with unknown outcome, and with a
    binding that has to be repaired. */
module BindingProgress {
  import opened Common
  import opened Binding
  import opened BindingProtocol

  /** A run by p alone, in which no unknown append lands and no stream is checked. */
  ghost predicate Gets(w: World, ls: seq<Label>, w': World) { Run(w, ls) == w' && Plain(ls) }

  /** Only the caller p and the log have moved; a message of its may have been taken up. */
  predicate Moved(w: World, w': World, p: nat, pc: Pc)
    requires p in w.procs
  {
    && w'.game == w.game && w'.decks == w.decks && w'.tokens == w.tokens && w.log <= w'.log
    && w'.procs == w.procs[p := w.procs[p].(pc := pc)]
  }

  lemma More(w: World, ls: seq<Label>, w1: World, l: Label) returns (ls': seq<Label>)
    requires Gets(w, ls, w1) && !l.CheckExists? && !l.LateDeck?
    ensures Gets(w, ls', Step(w1, l)) && (Inv(w1) ==> Inv(Step(w1, l)))
  {
    hide Run, Inv, Step, Plain;
    ls' := Then(w, ls, w1, l);
    if Inv(w1) { StepKeeps(w1, l); }
  }

  /** One turn of a loop that has been tried fewer than eight times, and whose append lands. */
  lemma TurnAppends(w: World, ls: seq<Label>, w1: World, p: nat, rec: Record) returns (ls': seq<Label>, w2: World)
    requires Gets(w, ls, w1) && p in w1.procs && w1.procs[p].pc.Loop? && w1.procs[p].pc.tries < 8
    requires Fold(w1.game, w1.log).Some?
    requires Decide(w1.game, w1.procs[p], w1.procs[p].pc.op, Fold(w1.game, w1.log).value) == Appends(rec)
    ensures Gets(w, ls', w2) && (Inv(w1) ==> Inv(w2))
    ensures w2 == With(w1, p, Leave(w1.procs[p], w1.procs[p].pc.op, OnSuccess(w1.procs[p].pc.op)))
                    .(log := w1.log + [rec], flight := w1.flight - {Msg(|w1.log|, rec)})
  {
    hide Run, Fold, Decide, Leave, OnSuccess, Inv, Plain;
    var (q, m) := (w1.procs[p], Msg(|w1.log|, rec));
    var waiting := q.(pc := Wait(q.pc.op, q.pc.tries, |w1.log|, rec));
    ls' := More(w, ls, w1, Look(p, ""));
    var v1 := With(w1, p, waiting).(flight := w1.flight + {m});
    assert Step(w1, Look(p, "")) == v1;
    ls' := More(w, ls', v1, Land(m));
    assert w1.flight + {m} - {m} == w1.flight - {m};
    var v2 := With(w1, p, waiting).(log := w1.log + [rec], flight := w1.flight - {m});
    assert Step(v1, Land(m)) == v2;
    ls' := More(w, ls', v2, Learn(p, Acknowledged));
    SetWaits(q, waiting);
    ProcSet(v2, p, waiting, Leave(q, q.pc.op, OnSuccess(q.pc.op)));
    ProcSet(w1, p, waiting, Leave(q, q.pc.op, OnSuccess(q.pc.op)));
    w2 := Step(v2, Learn(p, Acknowledged));
  }

  /** One turn that needs no append. */
  lemma TurnDecides(w: World, ls: seq<Label>, w1: World, p: nat) returns (ls': seq<Label>, w2: World)
    requires Gets(w, ls, w1) && Inv(w1) && p in w1.procs && w1.procs[p].pc.Loop? && w1.procs[p].pc.tries < 8
    requires Fold(w1.game, w1.log).Some?
    requires var d := Decide(w1.game, w1.procs[p], w1.procs[p].pc.op, Fold(w1.game, w1.log).value); d.Succeeds? || d.Fails?
    ensures Gets(w, ls', w2) && Inv(w2)
    ensures var (q, op) := (w1.procs[p], w1.procs[p].pc.op);
            w2 == With(w1, p, Leave(q, op, if Decide(w1.game, q, op, Fold(w1.game, w1.log).value).Succeeds? then OnSuccess(op) else OnFailure(op)))
  {
    hide Run, Fold, Decide, Leave, OnSuccess, OnFailure, Inv, Plain;
    ls' := More(w, ls, w1, Look(p, ""));
    w2 := Step(w1, Look(p, ""));
  }

  /** The last record decides, and it belongs to a room with a deck. */
  lemma LastRecord(w: World, p: nat)
    requires Inv(w) && p in w.procs && w.procs[p].room in w.decks
    ensures w.log != [] && Fold(w.game, w.log).Some?
    ensures var (st, r) := (Fold(w.game, w.log).value, w.log[|w.log| - 1]);
            && r.room == w.procs[p].room && r.token != "" && st == State(r.room, r.phase, r.token, |w.log|)
            && (r.phase == "claimed" || r.phase == "active")
  {
    hide Inv, Fold;
    Known(w, p);
  }

  /** Repairing the binding of a deck that exists ends with an active binding of its room. */
  lemma EnsureEnds(w: World, ls: seq<Label>, w1: World, p: nat) returns (ls': seq<Label>, w2: World)
    requires Gets(w, ls, w1) && Inv(w1) && p in w1.procs && w1.procs[p].pc.Loop? && w1.procs[p].pc.tries < 8
    requires w1.procs[p].pc.op.EnsureOp? && w1.procs[p].room in w1.decks
    ensures Gets(w, ls', w2) && Inv(w2) && Last(w2, "active", w1.procs[p].room)
    ensures Moved(w1, w2, p, if w1.procs[p].pc.op.after == ThenCallback then Callback(false) else Done)
  {
    hide Run, Fold, Inv, Plain, Gets;
    var q := w1.procs[p];
    LastRecord(w1, p);
    var r := w1.log[|w1.log| - 1];
    if r.phase == "active" {
      ls', w2 := TurnDecides(w, ls, w1, p);
    } else {
      ls', w2 := TurnAppends(w, ls, w1, p, Record(q.room, w1.game, "active", r.token));
    }
  }

  /** Finalizing for a deck that exists ends with an active binding of its room, with the claim's own token or by a repair. */
  lemma FinalizeEnds(w: World, ls: seq<Label>, w1: World, p: nat) returns (ls': seq<Label>, w2: World)
    requires Gets(w, ls, w1) && Inv(w1) && p in w1.procs && w1.procs[p].pc.Loop? && w1.procs[p].pc.tries < 8
    requires w1.procs[p].pc.op.FinalizeOp? && w1.procs[p].pc.op.afterFinalize.FinalizeOrRepair? && w1.procs[p].room in w1.decks
    ensures Gets(w, ls', w2) && Inv(w2) && Last(w2, "active", w1.procs[p].room) && Moved(w1, w2, p, Done)
  {
    hide Run, Fold, Inv, Plain, Gets;
    var q := w1.procs[p];
    LastRecord(w1, p);
    var r := w1.log[|w1.log| - 1];
    if r.phase == "active" {
      ls', w2 := TurnDecides(w, ls, w1, p);
    } else if q.pc.op.token != "" && q.pc.op.token == r.token {
      ls', w2 := TurnAppends(w, ls, w1, p, Record(q.room, w1.game, "active", r.token));
    } else {
      var v;
      ls', v := TurnDecides(w, ls, w1, p);
      var repairing := q.(pc := Loop(EnsureOp(ThenReturn), 0));
      assert v == With(w1, p, repairing);
      ls', w2 := EnsureEnds(w, ls', v, p);
      ProcSet(w1, p, repairing, q.(pc := Done));
    }
  }

  lemma Nothing(w: World)
    ensures Gets(w, [], w)
  {
    NoRun(w);
  }

  // ---- a lost append

  /** The caller's append to its deck stream, as the store may refuse it. A refused first append may find that the stream is there. */
  predicate Loses(q: Proc, p: nat, l: Label)
  {
    (q.pc.FirstAppend? && l.AppendFirst? && l.p == p && l.result == Conflicted)
    || (q.pc.NextAppend? && l.AppendNext? && l.p == p && l.result == Conflicted)
  }

  lemma LostOnce(w: World, p: nat, l: Label)
    requires p in w.procs && Loses(w.procs[p], p, l)
    ensures var (w', q) := (Step(w, l), w.procs[p]);
            && w'.log == w.log && w'.tokens == w.tokens && w'.flight == w.flight && w'.game == w.game
            && w'.decks == (if l.AppendFirst? && l.landed then w.decks + {q.room} else w.decks)
            && w'.procs == w.procs[p := if q.retry then q.(retry := false, pc := Load) else q.(pc := if l.AppendFirst? then Recover else Done)]
  {}

  /** In every reachable state a caller that loses its append, and has not been retried, loads the deck again and runs its callback
      a second time when it is left alone, with its token and for the last time: over the deck when the stream is there by now,
      whose binding is then active, and over an empty one otherwise. */
  lemma LoserRunsAgain(w: World, p: nat, l: Label) returns (ls: seq<Label>, w': World)
    requires Inv(w) && p in w.procs && Loses(w.procs[p], p, l) && w.procs[p].retry
    ensures Gets(Step(w, l), ls, w') && Inv(w')
    ensures var (q, w1) := (w.procs[p], Step(w, l));
            && w'.decks == w1.decks && w'.tokens == w.tokens && w.log <= w'.log
            && w'.procs == w.procs[p := q.(retry := false, pc := if q.room in w1.decks then Callback(false)
                                                                else if q.create then Callback(true) else Done)]
            && (q.room in w1.decks ==> Last(w', "active", q.room))
  {
    hide Run, Fold, Inv, Gets;
    var q := w.procs[p];
    LostOnce(w, p, l);
    StepKeeps(w, l);
    var w1 := Step(w, l);
    Nothing(w1);
    ls := More(w1, [], w1, ReadDeck(p));
    var w2 := Step(w1, ReadDeck(p));
    if q.room in w1.decks {
      var loaded := q.(retry := false, pc := Loop(EnsureOp(ThenCallback), 0));
      assert w2.procs == w.procs[p := loaded];
      ls, w' := EnsureEnds(w1, ls, w2, p);
      assert w'.procs == w.procs[p := q.(retry := false, pc := Callback(false))];
    } else {
      w' := w2;
    }
  }

  // ---- a first append, and the recovery from one

  /** A first append that is acknowledged ends with the deck and an active binding. */
  lemma FirstAppendEnds(w: World, p: nat) returns (ls: seq<Label>, w': World)
    requires Inv(w) && p in w.procs && w.procs[p].pc.FirstAppend?
    ensures Gets(w, ls, w') && Inv(w') && w'.decks == w.decks + {w.procs[p].room} && Last(w', "active", w.procs[p].room)
    ensures w'.procs == w.procs[p := w.procs[p].(pc := Done)] && w'.tokens == w.tokens
  {
    hide Run, Fold, Inv, Gets;
    var q := w.procs[p];
    Nothing(w);
    Known(w, p);
    ls := More(w, [], w, AppendFirst(p, true, Acknowledged));
    var w1 := Step(w, AppendFirst(p, true, Acknowledged));
    assert w1.procs == w.procs[p := q.(pc := Loop(FinalizeOp(q.token, FinalizeReturns), 0))];
    LastRecord(w1, p);
    var r := w.log[|w.log| - 1];
    if r.phase == "active" {
      ls, w' := TurnDecides(w, ls, w1, p);
    } else {
      ls, w' := TurnAppends(w, ls, w1, p, Record(q.room, w.game, "active", q.token));
    }
    assert w'.procs == w.procs[p := q.(pc := Done)];
  }

  /** A caller that is retried with its token still holding the game claims nothing again: it checks the claim and appends. */
  lemma RetriedFirstAppendEnds(w: World, p: nat) returns (ls: seq<Label>, w': World)
    requires Inv(w) && p in w.procs && w.procs[p].pc == Callback(true) && w.procs[p].token != "" && Protected(w, w.procs[p])
    ensures Gets(w, ls, w') && Inv(w') && w'.decks == w.decks + {w.procs[p].room} && Last(w', "active", w.procs[p].room)
    ensures w'.procs == w.procs[p := w.procs[p].(pc := Done)] && w'.tokens == w.tokens
  {
    hide Run, Fold, Inv, Gets;
    var q := w.procs[p];
    Nothing(w);
    Known(w, p);
    ls := More(w, [], w, RunCallback(p, true, ""));
    var w1 := Step(w, RunCallback(p, true, ""));
    assert w1 == With(w, p, q.(pc := Revalidate));
    ls := More(w, ls, w1, Recheck(p));
    var w2 := Step(w1, Recheck(p));
    ProcSet(w, p, q.(pc := Revalidate), q.(pc := FirstAppend));
    assert w2 == With(w, p, q.(pc := FirstAppend));
    var more;
    more, w' := FirstAppendEnds(w2, p);
    ls := Joined(w, ls, w2, more, w');
    assert w'.procs == w.procs[p := q.(pc := Done)];
  }

  lemma Joined(w: World, ls: seq<Label>, w1: World, more: seq<Label>, w2: World) returns (all: seq<Label>)
    requires Gets(w, ls, w1) && Gets(w1, more, w2)
    ensures Gets(w, all, w2)
  {
    all := ls + more;
    RunConcat(w, ls, more);
  }

  lemma {:induction false} RunConcat(w: World, ls: seq<Label>, more: seq<Label>)
    ensures Run(w, ls + more) == Run(Run(w, ls), more)
  {
    hide Step;
    if more == [] {
      assert ls + more == ls;
    } else {
      var n := |more| - 1;
      assert (ls + more)[..|ls| + n] == ls + more[..n];
      RunConcat(w, ls, more[..n]);
    }
  }

  /** After a first append that failed or whose outcome is unknown the caller looks for the stream, in time. When it is there the
      binding becomes active; when it is not, the caller's own claim is released, and nothing else changes. */
  lemma RecoveryEnds(w: World, p: nat) returns (ls: seq<Label>, w': World)
    requires Inv(w) && p in w.procs && w.procs[p].pc.Recover?
    ensures Gets(Step(w, CheckExists(p, true)), ls, w') && Inv(w') && w'.decks == w.decks
    ensures w'.procs == w.procs[p := w.procs[p].(pc := Done, limbo := false)]
    ensures var q := w.procs[p];
            if q.room in w.decks then Last(w', "active", q.room)
            else w'.log == if ClaimedWith(w, q.room, q.token) then w.log + [Record(q.room, w.game, "released", q.token)] else w.log
  {
    hide Run, Fold, Inv, Gets;
    var q := w.procs[p];
    StepKeeps(w, CheckExists(p, true));
    Known(w, p);
    var w1 := Step(w, CheckExists(p, true));
    Nothing(w1);
    if q.room in w.decks {
      assert w1.procs == w.procs[p := q.(limbo := false, pc := Loop(FinalizeOp(q.token, FinalizeOrRepair), 0))];
      ls, w' := FinalizeEnds(w1, [], w1, p);
    } else {
      assert w1.procs == w.procs[p := q.(limbo := false, pc := Loop(ReleaseOp, 0))];
      if ClaimedWith(w, q.room, q.token) {
        ls, w' := TurnAppends(w1, [], w1, p, Record(q.room, w.game, "released", q.token));
      } else {
        ls, w' := TurnDecides(w1, [], w1, p);
      }
    }
    assert w'.procs == w.procs[p := q.(pc := Done, limbo := false)];
  }

  // ---- overtaken in a loop

  /** A record that was overtaken sends its caller around the loop once more, up to eight times in all; after that the loop fails. */
  lemma OvertakenTriesAgain(w: World, p: nat)
    requires Inv(w) && p in w.procs && w.procs[p].pc.Wait? && w.procs[p].pc.expected < |w.log|
    ensures Step(w, Learn(p, Conflicted)) == With(w, p, w.procs[p].(pc := Loop(w.procs[p].pc.op, w.procs[p].pc.tries + 1)))
    ensures var w' := Step(w, Learn(p, Conflicted));
            w.procs[p].pc.tries + 1 >= 8 ==>
              Step(w', Look(p, "")) == With(w, p, Leave(w.procs[p], w.procs[p].pc.op, OnFailure(w.procs[p].pc.op)))
  {
    hide Inv, Fold;
    var q := w.procs[p];
    ProcSet(w, p, q.(pc := Loop(q.pc.op, q.pc.tries + 1)), Leave(q, q.pc.op, OnFailure(q.pc.op)));
  }

  /** A repair that is overtaken fewer than eight times still ends with an active binding. */
  lemma OvertakenEnsureEnds(w: World, p: nat) returns (ls: seq<Label>, w': World)
    requires Inv(w) && p in w.procs && w.procs[p].pc.Wait? && w.procs[p].pc.op.EnsureOp? && w.procs[p].pc.tries < 7
    requires w.procs[p].pc.expected < |w.log|
    ensures Gets(Step(w, Learn(p, Conflicted)), ls, w') && Inv(w') && Last(w', "active", w.procs[p].room)
  {
    hide Run, Fold, Inv, Gets;
    OvertakenTriesAgain(w, p);
    StepKeeps(w, Learn(p, Conflicted));
    Known(w, p);
    Nothing(Step(w, Learn(p, Conflicted)));
    ls, w' := EnsureEnds(Step(w, Learn(p, Conflicted)), [], Step(w, Learn(p, Conflicted)), p);
  }

  // ---- an existing deck

  /** A caller over an existing deck that has nothing more to write: its callback changed nothing, or its append is there. */
  predicate Finishes(q: Proc, p: nat, l: Label)
  {
    (q.pc == Callback(false) && l.RunCallback? && l.p == p && !l.changed) || (q.pc.NextAppend? && l == AppendNext(p, Acknowledged))
  }

  /** In every reachable state such a caller then ends with an active binding of its room. */
  lemma ExistingDeckEnds(w: World, p: nat, l: Label) returns (ls: seq<Label>, w': World)
    requires Inv(w) && p in w.procs && Finishes(w.procs[p], p, l)
    ensures Gets(Step(w, l), ls, w') && Inv(w') && w'.decks == w.decks && Last(w', "active", w.procs[p].room)
    ensures w'.procs == w.procs[p := w.procs[p].(pc := Done)]
  {
    hide Run, Fold, Inv, Plain;
    var (q, w1) := (w.procs[p], Step(w, l));
    Known(w, p);
    StepKeeps(w, l);
    Nothing(w1);
    assert w1.procs == w.procs[p := q.(pc := Loop(EnsureOp(ThenReturn), 0))];
    ls, w' := EnsureEnds(w1, [], w1, p);
    assert w'.procs == w.procs[p := q.(pc := Done)];
  }

  /** The log says that nobody holds the game. */
  predicate Unheld(game: string, log: seq<Record>)
  {
    AllNamed(game, log) && NoBind(log) && (log == [] || log[|log| - 1].phase == "released")
  }

  lemma UnheldFolds(game: string, log: seq<Record>, claim: Record)
    requires Unheld(game, log) && claim.game == game && claim.room != "" && claim.phase == "claimed"
    ensures Fold(game, log).Some? && Fold(game, log).value.IsEmptyOrReleased() && Fold(game, log).value.phase !in {"active", "claimed"}
    ensures Fold(game, log + [claim]) == Some(State(claim.room, "claimed", claim.token, |log| + 1))
  {
    hide Fold;
    OpenFold(game, log);
    OpenFold(game, log + [claim]);
  }

  /** A deck may exist without a binding, as one that is older than the binding log does. Whatever the rest of the world is, the
      repair by a caller of its room claims the game with a fresh token and finalizes the claim, and then goes on. */
  lemma OrphanDeckIsBound(w: World, p: nat, token: string) returns (ls: seq<Label>, w': World)
    requires p in w.procs && w.procs[p].pc.Loop? && w.procs[p].pc.op.EnsureOp? && w.procs[p].pc.tries < 8
    requires Unheld(w.game, w.log) && w.procs[p].room != "" && token != "" && token !in w.tokens
    ensures Gets(w, ls, w') && w'.decks == w.decks
    ensures var room := w.procs[p].room;
            w'.log == w.log + [Record(room, w.game, "claimed", token), Record(room, w.game, "active", token)]
    ensures w'.procs == w.procs[p := w.procs[p].(pc := if w.procs[p].pc.op.after == ThenCallback then Callback(false) else Done)]
  {
    hide Run, Fold, Inv, Plain;
    var (q, after) := (w.procs[p], w.procs[p].pc.op.after);
    var claim, bind := Record(q.room, w.game, "claimed", token), Record(q.room, w.game, "active", token);
    UnheldFolds(w.game, w.log, claim);
    Nothing(w);
    ls := More(w, [], w, Look(p, token));
    var w1 := Step(w, Look(p, token));
    assert w1.procs == w.procs[p := q.(pc := Loop(ClaimOp(token, ThenFinalizeRepair(after)), 0))];
    var w2;
    ls, w2 := TurnAppends(w, ls, w1, p, claim);
    assert w2.procs == w.procs[p := q.(pc := Loop(FinalizeOp(token, FinalizeContinues(after)), 0))];
    ls, w' := TurnAppends(w, ls, w2, p, bind);
    assert w'.procs == w.procs[p := q.(pc := GoOn(after))];
    assert w.log + [claim] + [bind] == w.log + [claim, bind];
  }
}
