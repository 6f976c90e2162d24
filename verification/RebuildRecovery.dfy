/** What delivering a message again does for a rebuild that stopped halfway. */
module RebuildRecovery {
  import opened Common
  import opened Spaces
  import opened RebuildMessage
  import opened Rebuild
  import opened RebuildInvariant
  import opened RebuildProgress
  import Backfill
  import BackfillAnswers

  /** The message asks for the page after page i of the job, and names the request r as its cause. */
  predicate Follows(env: Env, cps: seq<Checkpoint>, i: int, r: Request, id: string, now: Time, g: Fields)
  {
    0 <= i < |cps| &&
    Parse(env.clock, g) == Some(Request(id, r.eventType, r.schemaVersion, r.correlationId, r.eventId, now, r.jobId, r.context,
                                        r.topic, r.fromCp, r.toCp, r.fromAt, r.toAt, r.hasCp, r.hasAt, cps[i].next, 1))
  }

  /** Page i is the only one with this topic and cursor, and it is the one that is found. */
  lemma OnlyPage(env: Env, jobId: string, db: Db, i: int)
    requires EnvOk(env) && DbOk(env, jobId, db) && db.job.Some? && 0 <= i < |db.cps|
    ensures forall j :: 0 <= j < |db.cps| && IsPage(db.cps[j], db.cps[i].topic, db.cps[i].cursor) ==> j == i
    ensures Find(db.cps, db.cps[i].topic, db.cps[i].cursor) == Some(db.cps[i])
  {
    hide EnvOk, ChainOk, GenOk, ServingOk, IsClone, AllServed, IdemOk, Find, InRangeRows, NextText;
    var s, k := db.job.value.spec, db.cps[i];
    var m := InRange(env, jobId, s, db);
    RangeInOrder(env, jobId, s, db);
    forall j | 0 <= j < |db.cps| && IsPage(db.cps[j], k.topic, k.cursor) ensures j == i {
      if i < j { CursorsDistinct(env, jobId, s, m, db.cps, i, j); }
      if j < i { CursorsDistinct(env, jobId, s, m, db.cps, j, i); }
    }
    FindFinds(db.cps, k.topic, k.cursor);
    if Find(db.cps, k.topic, k.cursor).Some? {
      var j :| 0 <= j < |db.cps| && db.cps[j] == Find(db.cps, k.topic, k.cursor).value;
      assert IsPage(db.cps[j], k.topic, k.cursor);
    }
  }

  /** The page of a row, by the row. */
  lemma RowPage(env: Env, jobId: string, db: Db, k: (string, string)) returns (i: int)
    requires DbOk(env, jobId, db) && k in db.idem
    ensures db.job.Some? && Counted(db, i) && IsPage(db.cps[i], k.0, k.1)
    ensures db.idem[k].Finalized? ==> db.cps[i].next == "" && db.active && HasStatus(db, Complete)
    ensures db.idem[k].FollowUpPublished? ==> db.cps[i].next != "" && db.idem[k].eventId != "" && Trimmed(db.idem[k].eventId)
  {
    hide ChainOk, GenOk, ServingOk, IsClone, AllServed, Trimmed;
    assert IdemOk(db, k, db.idem[k]);
    match db.idem[k] {
      case FollowUpPublished(id) => i :| Counted(db, i) && db.cps[i].topic == k.0 && db.cps[i].cursor == k.1 && db.cps[i].next != "";
      case Finalized => i :| Counted(db, i) && db.cps[i].topic == k.0 && db.cps[i].cursor == k.1 && db.cps[i].next == "";
    }
  }

  /** Whenever a message is delivered again whose page is recorded as followed up, its follow-up is sent again: the message
      parses, has the recorded event id, names the redelivered request as its cause, and asks for the page that the one
      checkpoint of the page leads to. Nothing else changes. A page that was finalized is left alone. */
  lemma RedeliveryPublishesAgain(env: Env, w: World, f: Fields, r: Request, now: Time) returns (i: int, g: Fields)
    requires Inv(env, w) && !w.quarantined && f in w.sent && Parse(env.clock, f) == Some(r) && HasRow(env, w, f)
    ensures 0 <= i < |w.db.cps| && IsPage(w.db.cps[i], r.topic, r.cursor)
    ensures forall j :: 0 <= j < |w.db.cps| && IsPage(w.db.cps[j], r.topic, r.cursor) ==> j == i
    ensures match w.db.idem[(r.topic, r.cursor)]
            case FollowUpPublished(id) =>
              w.db.cps[i].next != "" && Follows(env, w.db.cps, i, r, id, now, g)
              && Step(env, w, Redeliver(f, now)) == w.(sent := w.sent + {g})
            case Finalized => w.db.cps[i].next == "" && Done(w.db) && Step(env, w, Redeliver(f, now)) == w
  {
    hide EnvOk, DbOk, OwnerOk, Parse, Encode, WellFormed, CursorOk, Find, Trimmed;
    assert SentOk(env, w.jobId, w.db, f);
    i := RowPage(env, w.jobId, w.db, (r.topic, r.cursor));
    OnlyPage(env, w.jobId, w.db, i);
    var id := if w.db.idem[(r.topic, r.cursor)].FollowUpPublished? then w.db.idem[(r.topic, r.cursor)].eventId else "";
    var follow := FollowUp(r, id, env.followUpId(r.jobId, r.topic, r.cursor), w.db.cps[i].next, now).(eventId := id);
    g := Encode(env.clock, follow);
    if id != "" { SentParses(env, w, f, r, id, i, now); } else { OnlyLastEnds(env, w, i); }
  }

  lemma SentParses(env: Env, w: World, f: Fields, r: Request, id: string, i: int, now: Time)
    requires Inv(env, w) && f in w.sent && Parse(env.clock, f) == Some(r) && id != "" && Trimmed(id)
    requires w.db.job.Some? && Counted(w.db, i) && w.db.cps[i].next != ""
    ensures var follow := FollowUp(r, id, env.followUpId(r.jobId, r.topic, r.cursor), w.db.cps[i].next, now);
            follow.eventId == id && Parse(env.clock, Encode(env.clock, follow)) == Some(follow)
  {
    hide EnvOk, DbOk, OwnerOk, Parse, Encode, WellFormed, Find, Trimmed, CursorOk;
    assert SentOk(env, w.jobId, w.db, f);
    FollowUpOk(env, w, r, id, w.db.cps[i], i, now);
    TimesOk(env);
    EncodeRoundTrip(env.clock, FollowUp(r, id, env.followUpId(r.jobId, r.topic, r.cursor), w.db.cps[i].next, now));
  }

  // ---- from the first message on

  /** The message asks for page i of the job, which is recorded already or is the next one; the pages before are recorded as
      continued. */
  ghost predicate Stands(env: Env, w: World, s: Spec, f: Fields, i: int)
  {
    && f in w.sent && ForJob(env, w.jobId, f) && SpecOf(Parse(env.clock, f).value) == s
    && (w.db.job.Some? ==> w.db.job.value.spec == s)
    && 0 <= i <= |w.db.cps| && (i > 0 ==> w.db.cps[i - 1].next != "")
    && Parse(env.clock, f).value.cursor == if i == 0 then "" else w.db.cps[i - 1].next
  }

  /** What the replay of a recorded page leaves alone. */
  predicate SamePages(w: World, w': World)
  {
    && Steady(w, w') && w'.db.cps == w.db.cps && w'.db.gen == w.db.gen && w'.db.lastRead == w.db.lastRead
    && (w.db.job.Some? ==> w'.db.job.Some? && w'.db.job.value.spec == w.db.job.value.spec)
  }

  lemma StandsAtPage(env: Env, w: World, s: Spec, f: Fields, i: int)
    requires Inv(env, w) && Stands(env, w, s, f, i) && w.db.job.Some? && i < |w.db.cps|
    ensures var r := Parse(env.clock, f).value;
            && IsPage(w.db.cps[i], r.topic, r.cursor) && Find(w.db.cps, r.topic, r.cursor) == Some(w.db.cps[i])
            && forall j :: 0 <= j < |w.db.cps| && IsPage(w.db.cps[j], r.topic, r.cursor) ==> j == i
  {
    hide EnvOk, SentOk, OwnerOk, GenOk, IdemOk, ServingOk, IsClone, AllServed, Parse, Find, NextText, InRangeRows;
    assert CheckpointOk(env, w.jobId, s, InRange(env, w.jobId, s, w.db), w.db.cps, i);
    OnlyPage(env, w.jobId, w.db, i);
  }

  /** A recorded page without a row is taken up again where its checkpoint was written. */
  lemma Retakes(env: Env, w: World, f: Fields, r: Request, cp: Checkpoint, now: Time)
    requires !w.quarantined && f in w.sent && ForJob(env, w.jobId, f) && Parse(env.clock, f) == Some(r)
    requires w.db.job.Some? && w.db.job.value.spec == SpecOf(r) && Find(w.db.cps, r.topic, r.cursor) == Some(cp)
    ensures var w1 := Step(env, w, Acquire(f));
            && Steady(w, w1) && w1.db == w.db && Holder(w1, r, Leased)
            && var w2 := Step(env, w1, Work(now));
            Steady(w, w2) && w2.db == w.db && Holder(w2, r, Reconciling(cp))
  {
    hide Parse, Find;
  }

  /** From the message of a recorded page without a row to the point after its progress is counted. */
  lemma ThenRetakes(env: Env, start: World, ls: seq<Label>, w: World, f: Fields, r: Request, cp: Checkpoint, now: Time)
    returns (ls': seq<Label>, w': World)
    requires Rebuild.Run(env, start, ls) == w && Inv(env, w) && !w.quarantined && !HasRow(env, w, f)
    requires f in w.sent && ForJob(env, w.jobId, f) && Parse(env.clock, f) == Some(r)
    requires w.db.job.Some? && w.db.job.value.spec == SpecOf(r) && Find(w.db.cps, r.topic, r.cursor) == Some(cp)
    ensures Rebuild.Run(env, start, ls') == w' && Inv(env, w') && SamePages(w, w') && Holder(w', r, Applied(cp))
    ensures Alone(env, start, ls) ==> Alone(env, start, ls')
  {
    hide Inv, Step, Rebuild.Run, Parse, Find, Alone, HasRow;
    Retakes(env, w, f, r, cp, now);
    ls' := Then(env, start, ls, w, Acquire(f));
    var w1 := Step(env, w, Acquire(f));
    ls' := Then(env, start, ls', w1, Work(now));
    var w2 := Step(env, w1, Work(now));
    Reconciles(env, w2, r, cp, now);
    ls' := Then(env, start, ls', w2, Work(now));
    w' := Step(env, w2, Work(now));
  }

  /** A recorded page that was continued leads on to the next one: with its row, which is read again, */
  lemma ThenRedelivers(env: Env, start: World, ls: seq<Label>, w: World, s: Spec, f: Fields, i: int, now: Time)
    returns (ls': seq<Label>, w': World, f': Fields)
    requires Rebuild.Run(env, start, ls) == w && Inv(env, w) && !w.quarantined && Stands(env, w, s, f, i) && HasRow(env, w, f)
    requires w.db.job.Some? && i < |w.db.cps| && w.db.cps[i].next != ""
    ensures Rebuild.Run(env, start, ls') == w' && Inv(env, w') && SamePages(w, w') && Stands(env, w', s, f', i + 1)
    ensures Alone(env, start, ls) ==> Alone(env, start, ls')
  {
    hide Inv, Step, Rebuild.Run, Parse, Encode, Find, Alone, HasRow;
    StandsAtPage(env, w, s, f, i);
    var j;
    j, f' := RedeliveryPublishesAgain(env, w, f, Parse(env.clock, f).value, now);
    ls' := Then(env, start, ls, w, Redeliver(f, now));
    w' := Step(env, w, Redeliver(f, now));
  }

  /** and without its row, which is then written. */
  lemma ThenFollowsUp(env: Env, start: World, ls: seq<Label>, w: World, s: Spec, f: Fields, i: int, now: Time)
    returns (ls': seq<Label>, w': World, f': Fields)
    requires Rebuild.Run(env, start, ls) == w && Inv(env, w) && !w.quarantined && Stands(env, w, s, f, i) && !HasRow(env, w, f)
    requires w.db.job.Some? && i < |w.db.cps| && w.db.cps[i].next != ""
    ensures Rebuild.Run(env, start, ls') == w' && Inv(env, w') && SamePages(w, w') && Stands(env, w', s, f', i + 1)
    ensures Alone(env, start, ls) ==> Alone(env, start, ls')
  {
    hide Inv, Step, Rebuild.Run, Parse, Encode, Find, Alone, HasRow;
    var r, cp := Parse(env.clock, f).value, w.db.cps[i];
    StandsAtPage(env, w, s, f, i);
    var w1 := w;
    ls', w1 := ThenRetakes(env, start, ls, w, f, r, cp, now);
    Publishes(env, w1, r, cp, now);
    ls' := Then(env, start, ls', w1, Work(now));
    var w2 := Step(env, w1, Work(now));
    var follow := FollowOf(env, r, cp, now);
    IsSent(env, w2, r, follow, now);
    f' := Encode(env.clock, follow);
    ls' := Then(env, start, ls', w2, Work(now));
    w' := Step(env, w2, Work(now));
    FollowStands(env, w, w', s, f, i, f', now);
  }

  lemma FollowStands(env: Env, w: World, w': World, s: Spec, f: Fields, i: int, f': Fields, now: Time)
    requires Stands(env, w, s, f, i) && i < |w.db.cps| && w.db.cps[i].next != "" && SamePages(w, w') && w.db.job.Some?
    requires f' in w'.sent && Parse(env.clock, f') == Some(FollowOf(env, Parse(env.clock, f).value, w.db.cps[i], now))
    ensures Stands(env, w', s, f', i + 1)
  {
    hide Parse;
  }

  predicate LastPageIn(cps: seq<Checkpoint>) { cps != [] && cps[|cps| - 1].next == "" }

  /** A recorded last page leads to the end of the job. */
  lemma ThenFinishes(env: Env, start: World, ls: seq<Label>, w: World, s: Spec, f: Fields, i: int, now: Time)
    returns (ls': seq<Label>, w': World)
    requires Rebuild.Run(env, start, ls) == w && Inv(env, w) && !w.quarantined && Stands(env, w, s, f, i)
    requires w.db.job.Some? && i == |w.db.cps| - 1 && w.db.cps[i].next == ""
    ensures Rebuild.Run(env, start, ls') == w' && Inv(env, w') && Steady(w, w') && Done(w'.db) && w'.db.lastRead == w.db.lastRead
    ensures Alone(env, start, ls) ==> Alone(env, start, ls')
  {
    hide Inv, Step, Rebuild.Run, Parse, Find, Alone;
    var r := Parse(env.clock, f).value;
    StandsAtPage(env, w, s, f, i);
    ls', w' := ls, w;
    if HasRow(env, w, f) {
      FinalRow(env, w, f, r, i);
    } else {
      var w1 := w;
      ls', w1 := ThenRetakes(env, start, ls, w, f, r, w.db.cps[i], now);
      ls', w' := ThenEnds(env, start, ls', w1, r, w.db.cps[i], now);
    }
  }

  /** A last page has a row only after everything is done. */
  lemma FinalRow(env: Env, w: World, f: Fields, r: Request, i: int)
    requires Inv(env, w) && Parse(env.clock, f) == Some(r) && HasRow(env, w, f)
    requires i == |w.db.cps| - 1 && i >= 0 && w.db.cps[i].next == "" && IsPage(w.db.cps[i], r.topic, r.cursor)
    requires forall j :: 0 <= j < |w.db.cps| && IsPage(w.db.cps[j], r.topic, r.cursor) ==> j == i
    ensures Done(w.db)
  {
    hide EnvOk, SentOk, OwnerOk, DbOk, Parse, Find;
    var j := RowPage(env, w.jobId, w.db, (r.topic, r.cursor));
  }

  /** The message after the recorded pages asks for the next one. */
  lemma AsksNext(env: Env, w: World, s: Spec, f: Fields)
    requires Inv(env, w) && Stands(env, w, s, f, |w.db.cps|)
    ensures Asks(env, w, f)
  {
    hide EnvOk, SentOk, OwnerOk, GenOk, IdemOk, ServingOk, IsClone, AllServed, Parse, Find, ChainOk, InRangeRows;
    var topic := Parse(env.clock, f).value.topic;
    NoPages(topic, "");
    RangeInOrder(env, w.jobId, s, w.db);
    if w.db.cps != [] { NextIsNew(env, w.jobId, s, InRange(env, w.jobId, s, w.db), w.db.cps, topic); }
  }

  lemma {:induction false} ThenRecovers(env: Env, start: World, ls: seq<Label>, w: World, s: Spec, f: Fields, i: int, now: Time)
    returns (ls': seq<Label>, w': World)
    requires Rebuild.Run(env, start, ls) == w && Inv(env, w) && !w.quarantined && Stands(env, w, s, f, i)
    requires Served(env, w, s) && Harmony(env, InRangeRows(env, w.jobId, s, w.rows), w.db)
    ensures Rebuild.Run(env, start, ls') == w' && Inv(env, w') && Steady(w, w') && Done(w'.db)
    ensures w'.db.lastRead == if LastPageIn(w.db.cps) then w.db.lastRead else w.rows
    ensures Alone(env, start, ls) ==> Alone(env, start, ls')
    decreases |w.db.cps| - i
  {
    hide Inv, Step, Rebuild.Run, Parse, Find, Alone, HasRow, Asks, Served, Harmony, InRangeRows;
    NoPageYet(env, w, i);
    if i == |w.db.cps| {
      AsksNext(env, w, s, f);
      ls', w' := ThenActivates(env, start, ls, w, f, now);
    } else if w.db.cps[i].next == "" {
      OnlyLastEnds(env, w, i);
      ls', w' := ThenFinishes(env, start, ls, w, s, f, i, now);
    } else {
      var w1, f1 := w, f;
      if HasRow(env, w, f) {
        ls', w1, f1 := ThenRedelivers(env, start, ls, w, s, f, i, now);
      } else {
        ls', w1, f1 := ThenFollowsUp(env, start, ls, w, s, f, i, now);
      }
      SameServed(env, w, w1, s);
      SameHarmony(env, InRangeRows(env, w.jobId, s, w.rows), w.db, w1.db);
      ls', w' := ThenRecovers(env, start, ls', w1, s, f1, i + 1, now);
    }
  }

  lemma NoPageYet(env: Env, w: World, i: int)
    requires Inv(env, w) && 0 <= i <= |w.db.cps|
    ensures i < |w.db.cps| ==> w.db.job.Some?
  {
    hide EnvOk, SentOk, OwnerOk;
  }

  lemma OnlyLastEnds(env: Env, w: World, i: int)
    requires Inv(env, w) && w.db.job.Some? && 0 <= i < |w.db.cps| && w.db.cps[i].next == ""
    ensures i == |w.db.cps| - 1
  {
    hide EnvOk, SentOk, OwnerOk, GenOk, IdemOk, ServingOk, IsClone, AllServed, NextText, Continuous;
    var s := w.db.job.value.spec;
    ChainIsContinuous(env, w.jobId, s, InRange(env, w.jobId, s, w.db), w.db.cps, i);
  }

  /** A run may stop anywhere, with any messages lost on the way to their workers. If the first message of the job is
      delivered again, a worker that is left alone takes the job to its end: it sends the follow-ups of the recorded
      pages again, goes on where the last checkpoint was written, reads the pages that are missing,
      activates the generation, completes the job and finalizes its last page. */
  lemma StoppedJobRecovers(env: Env, jobId: string, base: map<string, string>, before: seq<Label>, f: Fields, now: Time)
    returns (ls: seq<Label>)
    requires EnvOk(env) && ForJob(env, jobId, f) && Parse(env.clock, f).value.cursor == ""
    requires var w, s := Rebuild.Run(env, Start(jobId, base), before), SpecOf(Parse(env.clock, f).value);
             && f in w.sent && !w.quarantined && (w.db.job.Some? ==> w.db.job.value.spec == s)
             && Served(env, w, s) && Harmony(env, InRangeRows(env, jobId, s, w.rows), w.db)
    ensures var w := Rebuild.Run(env, Start(jobId, base), before);
            && Alone(env, w, ls)
            && var w' := Rebuild.Run(env, w, ls);
            && Done(w'.db) && Rebuilt(env, jobId, w'.db) && w'.rows == w.rows && w'.db.serving == w.db.serving
            && w'.db.lastRead == if LastPageIn(w.db.cps) then w.db.lastRead else w.rows
  {
    hide Inv, EnvOk, Parse, Served, Harmony, InRangeRows, Rebuild.Run, Rebuilt, Exact, Alone, Step;
    RunKeeps(env, jobId, base, before);
    var w, s := Rebuild.Run(env, Start(jobId, base), before), SpecOf(Parse(env.clock, f).value);
    NoRun(env, w);
    var w';
    ls, w' := ThenRecovers(env, w, [], w, s, f, 0, now);
    ActiveIsRebuilt(env, w');
  }

  // ---- which rows a job is about

  /** The producer reads times as they were written. */
  ghost predicate SameTimes(env: Env)
  {
    forall t :: env.backfill.parseTime(env.clock.format(t)) == Some(t)
  }

  /** The in-range rows of a job are those of its topic whose id is between its two checkpoints, if it has them, and whose time
      is between its two times, if it has them; and a job with such texts is one that the producer understands. */
  lemma RowsOfTheJob(env: Env, r: Request, row: Backfill.Row)
    requires TimesRoundTrip(env.clock) && SameTimes(env) && WellFormed(r) && r.context == "ranking"
    requires r.hasCp ==> BackfillAnswers.Numbers(env.backfill, r.fromCp, r.toCp)
    ensures var req := ProducerRequest(env, r.jobId, SpecOf(r), "");
            && Backfill.Parse(env.backfill, req).Ok?
            && (Backfill.InRange(Backfill.RangeOf(env.backfill, req), row) <==>
                  && row.topic == r.topic
                  && (r.hasCp ==> env.backfill.parseInt(r.fromCp).value <= row.id <= env.backfill.parseInt(r.toCp).value)
                  && (r.hasAt ==> row.occurredAt.Some? && r.fromAt <= row.occurredAt.value <= r.toAt))
  {
    hide Backfill.Parse, Backfill.InRange, Backfill.RangeOf, Trimmed;
    var req := ProducerRequest(env, r.jobId, SpecOf(r), "");
    assert BackfillAnswers.Proper(env.backfill, req);
    BackfillAnswers.RequestIsRead(env.backfill, req);
    BackfillAnswers.RangeIsWanted(env.backfill, req, row);
  }

  /** Whatever the store holds, a worker activates a generation only over pages that are all counted and link without gap. */
  lemma ActivationIsGuarded(env: Env, w: World, r: Request, cp: Checkpoint, now: Time)
    requires !w.quarantined && Holder(w, r, Applied(cp)) && cp.next == "" && w.db.job.Some? && !w.db.active
    ensures var (w', pages) := (Step(env, w, Work(now)), w.db.cps);
            && (w'.db.active <==>
                  && w.db.job.value.pages >= |pages| && pages != [] && IndexesDiffer(pages)
                  && forall i :: 0 <= i < |pages| ==>
                       pages[i].index < |pages| && Continues(pages, i) && (pages[i].index == |pages| - 1 ==> pages[i].next == ""))
            && w'.db == w.db.(active := w'.db.active)
  {
    hide Continuous, IndexesDiffer, Continues;
    ContinuousExactly(w.db.cps);
  }
}
