/** The binding of one game id to one room (binding_state.go): records, the fold, and the decisions. */
module Binding {
  import opened Common

  const CLAIMED := "claimed"
  const ACTIVE := "active"
  const RELEASED := "released"

  datatype Record = Record(room: string, game: string, phase: string, token: string)

  /** The folded view; no records give the zero value. */
  datatype State = State(room: string, phase: string, token: string, count: nat)
  {
    predicate IsEmptyOrReleased() { count == 0 || phase == RELEASED || phase == "" }

    function BoundRoom(): Option<string>
    {
      if (phase == CLAIMED || phase == ACTIVE) && room != "" then Some(room) else None
    }
  }

  const ZERO: State := State("", "", "", 0)

  /** Old records carry no phase; they are immutable binds. */
  function PhaseOf(r: Record): string { if r.phase == "" then ACTIVE else r.phase }

  /** One record read after a folded prefix. An active view keeps its room and token. */
  function FoldStep(game: string, st: State, r: Record): Option<State>
  {
    if r.game != game || r.room == "" then None
    else if st.phase == ACTIVE then
      if r.room != st.room then None else Some(st.(count := st.count + 1))
    else Some(State(r.room, PhaseOf(r), r.token, st.count + 1))
  }

  function Fold(game: string, records: seq<Record>): (r: Option<State>)
    ensures r.Some? ==> r.value.count == |records|
  {
    if records == [] then Some(ZERO)
    else
      var n := |records| - 1;
      var before := Fold(game, records[..n]);
      if before.None? then None else FoldStep(game, before.value, records[n])
  }

  lemma FoldFails(game: string, records: seq<Record>, i: nat)
    requires i < |records| && Fold(game, records[..i + 1]).None?
    ensures Fold(game, records).None?
    decreases |records|
  {
    hide FoldStep;
    var n := |records| - 1;
    if i < n {
      assert records[..n][..i + 1] == records[..i + 1];
      FoldFails(game, records[..n], i);
    } else {
      assert records[..i + 1] == records;
    }
  }

  method FoldBindingRecords(game: string, records: seq<Record>) returns (r: Option<State>)
    ensures r == Fold(game, records)
  {
    var st := ZERO;
    var activeLocked, lockedRoom := false, "";
    for i := 0 to |records|
      invariant Fold(game, records[..i]) == Some(st)
      invariant activeLocked == (st.phase == ACTIVE) && (activeLocked ==> lockedRoom == st.room)
    {
      var body := records[i];
      assert records[..i + 1][..i] == records[..i];
      if body.game != game { FoldFails(game, records, i); return None; }
      if body.room == "" { FoldFails(game, records, i); return None; }
      var p := PhaseOf(body);
      if activeLocked {
        if body.room != lockedRoom { FoldFails(game, records, i); return None; }
        st := st.(count := i + 1);
      } else {
        st := State(body.room, p, body.token, i + 1);
        if p == ACTIVE {
          activeLocked := true;
          lockedRoom := body.room;
        }
      }
    }
    assert records[..|records|] == records;
    return Some(st);
  }

  // ---- decisions

  datatype ClaimOutcome = ClaimAppend | ClaimOwned | ClaimActiveOK | ClaimConflict
  datatype FinalizeOutcome = FinalizeAppend | FinalizeAlreadyActive | FinalizeConflict | FinalizeNotClaimed
  datatype ReleaseOutcome = ReleaseAppend | ReleaseNoop
  datatype Recovery = RecoveryRelease | RecoveryFinalize

  function EvaluateClaim(st: State, room: string, token: string): ClaimOutcome
  {
    if st.IsEmptyOrReleased() then ClaimAppend
    else if st.phase == ACTIVE then if st.room == room then ClaimActiveOK else ClaimConflict
    else if st.phase == CLAIMED then
      if st.room == room && st.token != "" && st.token == token then ClaimOwned else ClaimConflict
    else ClaimConflict
  }

  function EvaluateFinalize(st: State, room: string, token: string): FinalizeOutcome
  {
    if st.phase == ACTIVE then if st.room == room then FinalizeAlreadyActive else FinalizeConflict
    else if st.phase == CLAIMED then
      if st.room == room && st.token != "" && st.token == token then FinalizeAppend else FinalizeConflict
    else if st.IsEmptyOrReleased() then FinalizeNotClaimed
    else FinalizeConflict
  }

  function EvaluateFinalizeRepair(st: State, room: string): FinalizeOutcome
  {
    if st.phase == ACTIVE then if st.room == room then FinalizeAlreadyActive else FinalizeConflict
    else if st.phase == CLAIMED then if st.room == room then FinalizeAppend else FinalizeConflict
    else if st.IsEmptyOrReleased() then FinalizeNotClaimed
    else FinalizeConflict
  }

  function EvaluateRelease(st: State, token: string): ReleaseOutcome
  {
    if st.phase == CLAIMED && st.token != "" && st.token == token then ReleaseAppend else ReleaseNoop
  }

  function EvaluateAppendRecovery(known: bool, deckExists: bool): Recovery
  {
    if !known && deckExists then RecoveryFinalize else RecoveryRelease
  }

  /** A failure that is known releases the claim whatever is stored; an unknown one releases it exactly when there is no deck. */
  lemma RecoveryExactly(deckExists: bool)
    ensures EvaluateAppendRecovery(true, deckExists) == RecoveryRelease
    ensures EvaluateAppendRecovery(false, deckExists) == RecoveryRelease <==> !deckExists
  {}

  // ---- what a log means, record by record

  /** A record that binds for good: an active one, or an old one that carries no phase. */
  predicate Binds(r: Record) { r.phase == "" || r.phase == "active" }

  predicate FirstBind(log: seq<Record>, i: nat)
  {
    i < |log| && Binds(log[i]) && forall j :: 0 <= j < i ==> !Binds(log[j])
  }

  predicate NoBind(log: seq<Record>) { forall j :: 0 <= j < |log| ==> !Binds(log[j]) }

  predicate AllNamed(game: string, log: seq<Record>) { forall j :: 0 <= j < |log| ==> log[j].game == game && log[j].room != "" }

  predicate SameRoomFrom(log: seq<Record>, i: nat) { forall j :: i <= j < |log| ==> log[j].room == log[i].room }

  /** Without a binding record a log folds exactly when its records name the game and a room, and shows its last record. */
  lemma {:induction false} OpenFold(game: string, log: seq<Record>)
    requires NoBind(log)
    ensures Fold(game, log) == if !AllNamed(game, log) then None
                               else if log == [] then Some(State("", "", "", 0))
                               else var r := log[|log| - 1]; Some(State(r.room, r.phase, r.token, |log|))
  {
    if log != [] {
      var n := |log| - 1;
      OpenFold(game, log[..n]);
      assert AllNamed(game, log) <==> AllNamed(game, log[..n]) && log[n].game == game && log[n].room != "";
    }
  }

  /** With one, it folds exactly when its records name the game and a room, and from the first binding record on that
      record's room; and then it is active for that room and token. */
  lemma {:induction false} BoundFold(game: string, log: seq<Record>, i: nat)
    requires FirstBind(log, i)
    ensures Fold(game, log) == if AllNamed(game, log) && SameRoomFrom(log, i) then Some(State(log[i].room, "active", log[i].token, |log|))
                               else None
  {
    var n := |log| - 1;
    var before := log[..n];
    assert AllNamed(game, log) <==> AllNamed(game, before) && log[n].game == game && log[n].room != "";
    if i == n {
      OpenFold(game, before);
    } else {
      BoundFold(game, before, i);
      assert SameRoomFrom(log, i) <==> SameRoomFrom(before, i) && log[n].room == log[i].room by {
        forall j | i <= j < n ensures before[j] == log[j] {}
      }
    }
  }

  /** A bound game is closed: whatever else the log holds, its room keeps it, every other room meets a conflict with any token,
      and nobody can release it. */
  lemma BoundGameIsClosed(game: string, log: seq<Record>, i: nat, room: string, token: string)
    requires FirstBind(log, i) && Fold(game, log).Some?
    ensures var st := Fold(game, log).value;
            && st.BoundRoom() == Some(log[i].room)
            && EvaluateClaim(st, room, token) == (if room == log[i].room then ClaimActiveOK else ClaimConflict)
            && EvaluateFinalize(st, room, token) == (if room == log[i].room then FinalizeAlreadyActive else FinalizeConflict)
            && EvaluateFinalizeRepair(st, room) == (if room == log[i].room then FinalizeAlreadyActive else FinalizeConflict)
            && EvaluateRelease(st, token) == ReleaseNoop
  {
    hide Fold;
    BoundFold(game, log, i);
    assert AllNamed(game, log) && log[i].room != "";
  }

  /** A game without a binding record is decided by its last record alone. An open claim belongs to its room and token, and only
      to them; any caller of the room may finalize it for a deck that exists. */
  lemma OpenGameDecisions(game: string, log: seq<Record>, room: string, token: string)
    requires NoBind(log) && Fold(game, log).Some?
    ensures var st := Fold(game, log).value;
            if log == [] || log[|log| - 1].phase == "released" then
              && st.BoundRoom() == None && EvaluateClaim(st, room, token) == ClaimAppend
              && EvaluateFinalize(st, room, token) == EvaluateFinalizeRepair(st, room) == FinalizeNotClaimed
              && EvaluateRelease(st, token) == ReleaseNoop
            else if log[|log| - 1].phase == "claimed" then
              var claim := log[|log| - 1];
              var owner := token != "" && token == claim.token;
              && st.BoundRoom() == Some(claim.room)
              && EvaluateClaim(st, room, token) == (if owner && room == claim.room then ClaimOwned else ClaimConflict)
              && EvaluateFinalize(st, room, token) == (if owner && room == claim.room then FinalizeAppend else FinalizeConflict)
              && EvaluateFinalizeRepair(st, room) == (if room == claim.room then FinalizeAppend else FinalizeConflict)
              && EvaluateRelease(st, token) == (if owner then ReleaseAppend else ReleaseNoop)
            else
              && st.BoundRoom() == None && EvaluateClaim(st, room, token) == ClaimConflict
              && EvaluateFinalize(st, room, token) == EvaluateFinalizeRepair(st, room) == FinalizeConflict
              && EvaluateRelease(st, token) == ReleaseNoop
  {
    hide Fold;
    OpenFold(game, log);
    if log != [] { assert !Binds(log[|log| - 1]) && log[|log| - 1].room != ""; }
  }

  // ---- the shape of a binding log

  predicate ProperRecord(game: string, r: Record) { r.game == game && r.room != "" && r.token != "" }

  /** The records that may come next: a claim of a free game, or the end of the claim that is open. */
  predicate CanFollow(game: string, log: seq<Record>, r: Record)
  {
    && ProperRecord(game, r)
    && if r.phase == CLAIMED then log == [] || log[|log| - 1].phase == RELEASED
       else
         && (r.phase == RELEASED || r.phase == ACTIVE)
         && log != [] && log[|log| - 1].phase == CLAIMED
         && log[|log| - 1].room == r.room && log[|log| - 1].token == r.token
  }

  /** (claimed released)* (claimed (active)?)?, where the second record of a pair repeats the claim's room and token. */
  predicate Lifecycle(game: string, log: seq<Record>)
  {
    log == [] || (Lifecycle(game, log[..|log| - 1]) && CanFollow(game, log[..|log| - 1], log[|log| - 1]))
  }

  /** The fold of such a log never fails and shows its last record. */
  lemma {:induction false} LifecycleFolds(game: string, log: seq<Record>)
    requires Lifecycle(game, log)
    ensures Fold(game, log) == if log == [] then Some(ZERO)
                               else var r := log[|log| - 1]; Some(State(r.room, r.phase, r.token, |log|))
  {
    if log != [] { LifecycleFolds(game, log[..|log| - 1]); }
  }

  lemma LifecycleSnoc(game: string, log: seq<Record>, r: Record)
    ensures Lifecycle(game, log + [r]) <==> Lifecycle(game, log) && CanFollow(game, log, r)
  {
    assert (log + [r])[..|log|] == log;
  }

  /** What stands at a place: a claim at every even one, its end at the odd one after it, and an active record only last. */
  predicate AtPlace(game: string, log: seq<Record>, k: nat)
    requires k < |log|
  {
    && ProperRecord(game, log[k])
    && if k % 2 == 0 then log[k].phase == CLAIMED
       else (log[k].phase == RELEASED || (log[k].phase == ACTIVE && k == |log| - 1))
            && log[k].room == log[k - 1].room && log[k].token == log[k - 1].token
  }

  /** Record by record and place by place the rules are the same; in particular nothing follows an active record. */
  lemma {:induction false} LifecycleShape(game: string, log: seq<Record>)
    ensures Lifecycle(game, log) <==> forall k :: 0 <= k < |log| ==> AtPlace(game, log, k)
  {
    if log != [] {
      var n := |log| - 1;
      LifecycleShape(game, log[..n]);
      if Lifecycle(game, log) {
        forall k | 0 <= k < n ensures AtPlace(game, log, k) { assert AtPlace(game, log[..n], k); }
        if n > 0 { assert AtPlace(game, log[..n], n - 1); }
      }
      if forall k :: 0 <= k < |log| ==> AtPlace(game, log, k) {
        forall k | 0 <= k < n ensures AtPlace(game, log[..n], k) { assert AtPlace(game, log, k); }
        assert AtPlace(game, log, n);
        if n > 0 { assert AtPlace(game, log, n - 1); }
      }
    }
  }

  /** One more record after an active state. */
  lemma ActiveStep(game: string, log: seq<Record>, r: Record)
    requires Fold(game, log).Some? && Fold(game, log).value.phase == ACTIVE
    ensures Fold(game, log + [r]) ==
      if r.game == game && r.room != "" && r.room == Fold(game, log).value.room then Some(Fold(game, log).value.(count := |log| + 1)) else None
  {
    assert (log + [r])[..|log|] == log;
  }

  /** Even on a log that broke the rules, an active binding keeps its room and token as long as the log folds. */
  lemma {:induction false} ActiveAbsorbs(game: string, log: seq<Record>, more: seq<Record>)
    requires Fold(game, log).Some? && Fold(game, log).value.phase == ACTIVE
    ensures Fold(game, log + more) ==
      if forall i :: 0 <= i < |more| ==> more[i].game == game && more[i].room != "" && more[i].room == Fold(game, log).value.room
      then Some(Fold(game, log).value.(count := |log| + |more|)) else None
  {
    hide Fold;
    if more == [] {
      assert log + more == log;
      } else {
      var n := |more| - 1;
      ActiveAbsorbs(game, log, more[..n]);
      assert log + more == log + more[..n] + [more[n]];
      if Fold(game, log + more[..n]).Some? {
        ActiveStep(game, log + more[..n], more[n]);
      } else {
        FoldFails(game, log + more, |log| + n - 1);
      }
    }
  }
}
