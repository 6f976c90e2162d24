/** What one worker gets done when nobody interferes: it takes a job to its activation. */
module RebuildProgress {
  import opened Common
  import opened Spaces
  import opened RebuildMessage
  import opened Rebuild
  import opened RebuildInvariant
  import Backfill

  /** The producer understands the range of the job, and its rows are good. */
  ghost predicate Served(env: Env, w: World, s: Spec)
  {
    && Backfill.Parse(env.backfill, ProducerRequest(env, w.jobId, s, "")).Ok?
    && forall r :: r in w.rows && r.topic == s.topic ==> Backfill.RowOk(env.backfill, s.topic, r)
  }

  /** In-range rows with one key have one payload. */
  ghost predicate KeysApart(env: Env, m: seq<Backfill.Row>)
  {
    forall i, j :: 0 <= i < |m| && 0 <= j < |m| && env.key(m[i].payload) == env.key(m[j].payload) ==> m[i].payload == m[j].payload
  }

  predicate Agrees(env: Env, m: seq<Backfill.Row>, gen: map<string, string>)
  {
    forall j :: 0 <= j < |m| && env.key(m[j].payload) in gen ==> gen[env.key(m[j].payload)] == m[j].payload
  }

  /** No record of the range contradicts another one, or one that is in the generation or being served; so none is
      quarantined. */
  ghost predicate Harmony(env: Env, m: seq<Backfill.Row>, db: Db)
  {
    KeysApart(env, m) && Agrees(env, m, db.gen) && Agrees(env, m, db.serving.current)
  }

  lemma SameHarmony(env: Env, m: seq<Backfill.Row>, db: Db, db': Db)
    requires Harmony(env, m, db) && db'.serving == db.serving
    ensures db'.gen == db.gen || db'.gen == Cloned(db.gen, db.serving.current) ==> Harmony(env, m, db')
  {}

  /** f was sent, and asks for the next page of the job. */
  ghost predicate Asks(env: Env, w: World, f: Fields)
  {
    f in w.sent && ForJob(env, w.jobId, f) && (w.db.job.Some? ==> NextPage(w.db, Parse(env.clock, f).value))
  }

  /** The producer's rows and the serving generation are as they were, and nothing went wrong. */
  predicate Steady(w: World, w': World)
  {
    w'.rows == w.rows && w'.jobId == w.jobId && w'.db.serving == w.db.serving && !w'.quarantined
  }

  /** The lease holder is at this point. */
  predicate Holder(w: World, r: Request, pc: Pc) { w.owner == Some(Owner(r, pc)) }

  predicate HasRow(env: Env, w: World, f: Fields)
  {
    Parse(env.clock, f).Some? && (Parse(env.clock, f).value.topic, Parse(env.clock, f).value.cursor) in w.db.idem
  }

  /** What the worker itself does: it works on, and it takes a message up by the row of its page if there is one, by its lease
      if not. */
  predicate OwnStep(env: Env, w: World, l: Label)
  {
    l.Work? || (l.Redeliver? && HasRow(env, w, l.m)) || (l.Acquire? && !HasRow(env, w, l.m))
  }

  /** Nothing happens but the steps of that worker. */
  predicate Alone(env: Env, start: World, ls: seq<Label>)
  {
    ls == [] ||
    (Alone(env, start, ls[..|ls| - 1]) && OwnStep(env, Rebuild.Run(env, start, ls[..|ls| - 1]), ls[|ls| - 1]))
  }

  lemma Then(env: Env, start: World, ls: seq<Label>, w: World, l: Label) returns (ls': seq<Label>)
    requires Rebuild.Run(env, start, ls) == w && Inv(env, w)
    ensures Rebuild.Run(env, start, ls') == Step(env, w, l) && Inv(env, Step(env, w, l))
    ensures Alone(env, start, ls) && OwnStep(env, w, l) ==> Alone(env, start, ls')
  {
    hide Inv, Step, OwnStep;
    ls' := ls + [l];
    assert ls'[..|ls|] == ls;
    StepKeeps(env, w, l);
  }

  predicate IsPage(c: Checkpoint, topic: string, cursor: string) { c.topic == topic && c.cursor == cursor }

  /** A page with a row is recorded. */
  lemma RowHasPage(env: Env, jobId: string, db: Db, k: (string, string))
    requires DbOk(env, jobId, db)
    ensures k in db.idem ==> db.job.Some? && exists i :: 0 <= i < |db.cps| && IsPage(db.cps[i], k.0, k.1)
  {
    hide ChainOk, GenOk, ServingOk, IsClone, AllServed;
    if k in db.idem {
      assert IdemOk(db, k, db.idem[k]);
      var i :| Counted(db, i) && db.cps[i].topic == k.0 && db.cps[i].cursor == k.1;
      assert IsPage(db.cps[i], k.0, k.1);
    }
  }

  /** A page that is still to come has no row. */
  lemma NoRowYet(env: Env, w: World, f: Fields)
    requires Inv(env, w) && Asks(env, w, f)
    ensures !HasRow(env, w, f)
  {
    hide EnvOk, SentOk, OwnerOk, DbOk, Parse, Find;
    var r := Parse(env.clock, f).value;
    FindFinds(w.db.cps, r.topic, r.cursor);
    RowHasPage(env, w.jobId, w.db, (r.topic, r.cursor));
  }

  // ---- up to the producer

  lemma Leases(env: Env, w: World, f: Fields)
    requires Inv(env, w) && Asks(env, w, f) && !w.quarantined
    ensures var (w', r) := (Step(env, w, Acquire(f)), Parse(env.clock, f).value);
            Steady(w, w') && w'.db == w.db && Holder(w', r, Leased) && RequestOk(w.jobId, w.db, r)
  {
    hide DbOk, EnvOk, OwnerOk, Parse, NextPage, RequestOk;
    assert SentOk(env, w.jobId, w.db, f);
  }

  /** From the lease to the fetch: the job is registered and marked as building where it was not. */
  lemma Readies(env: Env, w: World, r: Request, now: Time)
    requires !w.quarantined && w.owner.Some? && w.owner.value.req == r && (w.db.job.Some? ==> NextPage(w.db, r))
    requires w.db.job.None? ==> w.db.cps == []
    ensures var w' := Step(env, w, Work(now));
            && (Holder(w, r, Leased) ==> Steady(w, w') && w'.db == w.db && Holder(w', r, Ensuring))
            && (Holder(w, r, Ensuring) && w.db.job.None? ==>
                  Steady(w, w') && w'.db == w.db.(job := Some(Job(SpecOf(r), Initializing, 0, 0, "", ""))) && Holder(w', r, Ensuring))
            && (Holder(w, r, Ensuring) && HasStatus(w.db, Initializing) ==>
                  Steady(w, w') && w'.db == w.db.(gen := Cloned(w.db.gen, w.db.serving.current)) && Holder(w', r, Marking))
            && (Holder(w, r, Marking) && w.db.job.Some? ==>
                  Steady(w, w') && w'.db == w.db.(job := Some(w.db.job.value.(status := Building))) && Holder(w', r, Ensuring))
            && (Holder(w, r, Ensuring) && HasStatus(w.db, Building) ==> Steady(w, w') && w'.db == w.db && Holder(w', r, Fetching))
  {
    hide Find, Cloned;
  }

  predicate HasStatus(db: Db, status: Status) { db.job.Some? && db.job.value.status == status }

  lemma NothingYet(env: Env, w: World, r: Request)
    requires Inv(env, w)
    ensures w.db.job.None? ==> w.db.cps == []
  {
    hide EnvOk, SentOk, OwnerOk;
  }

  /** The message is taken up, and the job registered if it was not. */
  lemma ThenStarts(env: Env, start: World, ls: seq<Label>, w: World, f: Fields, m: seq<Backfill.Row>, now: Time)
    returns (ls': seq<Label>, w': World)
    requires Rebuild.Run(env, start, ls) == w && Inv(env, w) && Asks(env, w, f) && !w.quarantined && Harmony(env, m, w.db)
    ensures Rebuild.Run(env, start, ls') == w' && Inv(env, w') && Steady(w, w') && w'.db.cps == w.db.cps && Harmony(env, m, w'.db)
    ensures Alone(env, start, ls) ==> Alone(env, start, ls')
    ensures Holder(w', Parse(env.clock, f).value, Ensuring) && NextPage(w'.db, Parse(env.clock, f).value)
  {
    hide Inv, Step, Parse, Find, Rebuild.Run, Harmony, Cloned, Alone, HasRow;
    var r := Parse(env.clock, f).value;
    NoRowYet(env, w, f);
    ls' := Then(env, start, ls, w, Acquire(f));
    Leases(env, w, f);
    NothingYet(env, w, r);
    w' := Step(env, w, Acquire(f));
    Readies(env, w', r, now);
    ls' := Then(env, start, ls', w', Work(now));
    w' := Step(env, w', Work(now));
    if w.db.job.None? {
      NoPages(r.topic, r.cursor);
      Readies(env, w', r, now);
      ls' := Then(env, start, ls', w', Work(now));
      w' := Step(env, w', Work(now));
    }
    SameHarmony(env, m, w.db, w'.db);
  }

  lemma ThenFetches(env: Env, start: World, ls: seq<Label>, w: World, f: Fields, m: seq<Backfill.Row>, now: Time)
    returns (ls': seq<Label>, w': World)
    requires Rebuild.Run(env, start, ls) == w && Inv(env, w) && Asks(env, w, f) && !w.quarantined && Harmony(env, m, w.db)
    ensures Rebuild.Run(env, start, ls') == w' && Inv(env, w') && Steady(w, w') && w'.db.cps == w.db.cps && Harmony(env, m, w'.db)
    ensures Alone(env, start, ls) ==> Alone(env, start, ls')
    ensures Holder(w', Parse(env.clock, f).value, Fetching) && NextPage(w'.db, Parse(env.clock, f).value)
  {
    hide Inv, Step, Parse, Find, Rebuild.Run, Harmony, Cloned, Alone, HasRow;
    var r := Parse(env.clock, f).value;
    ls', w' := ThenStarts(env, start, ls, w, f, m, now);
    if w'.db.job.value.status == Initializing {
      ls', w' := ThenClones(env, start, ls', w', r, m, now);
    }
    Readies(env, w', r, now);
    var w1 := w';
    ls' := Then(env, start, ls', w1, Work(now));
    w' := Step(env, w1, Work(now));
    SameHarmony(env, m, w1.db, w'.db);
  }

  /** The clone is made, and the generation marked as building. */
  lemma ThenClones(env: Env, start: World, ls: seq<Label>, w: World, r: Request, m: seq<Backfill.Row>, now: Time)
    returns (ls': seq<Label>, w': World)
    requires Rebuild.Run(env, start, ls) == w && Inv(env, w) && !w.quarantined && Harmony(env, m, w.db)
    requires Holder(w, r, Ensuring) && NextPage(w.db, r) && HasStatus(w.db, Initializing)
    ensures Rebuild.Run(env, start, ls') == w' && Inv(env, w') && Steady(w, w') && w'.db.cps == w.db.cps && Harmony(env, m, w'.db)
    ensures Alone(env, start, ls) ==> Alone(env, start, ls')
    ensures Holder(w', r, Ensuring) && NextPage(w'.db, r) && HasStatus(w'.db, Building)
  {
    hide Inv, Step, Find, Rebuild.Run, Harmony, Cloned, Alone;
    Readies(env, w, r, now);
    ls' := Then(env, start, ls, w, Work(now));
    w' := Step(env, w, Work(now));
    Readies(env, w', r, now);
    ls' := Then(env, start, ls', w', Work(now));
    w' := Step(env, w', Work(now));
    SameHarmony(env, m, w.db, w'.db);
  }

  lemma NoPages(topic: string, cursor: string)
    ensures Find([], topic, cursor) == None
  {}

  // ---- the page is read and applied

  /** The producer answers for the next page. */
  lemma Answers(env: Env, w: World, r: Request)
    requires Inv(env, w) && NextPage(w.db, r) && CursorOk(w.db, r.cursor) && Served(env, w, SpecOf(r))
    ensures var page := Backfill.PageOf(env.backfill, w.rows, ProducerRequest(env, w.jobId, SpecOf(r), r.cursor));
            page.Ok? && (TextOf(env, page.value.nextCursor) == "" || TextOf(env, page.value.nextCursor) != r.cursor)
  {
    hide Inv, NextPage, CursorOk, Backfill.PageOf, ProducerRequest, NextText, InRangeRows, Served, EnvOk, TextOf;
    var s := SpecOf(r);
    var m, k := InRangeRows(env, w.jobId, s, w.rows), Upto(w.db.cps);
    CursorStands(env, w, r);
    PageComes(env, w, s, r.cursor, k);
    var page := Backfill.PageOf(env.backfill, w.rows, ProducerRequest(env, w.jobId, s, r.cursor)).value;
    FetchedPage(env, w.jobId, s, w.rows, r.cursor, k, page);
    NextDiffers(env, w, s, k, k + |page.records|);
  }

  lemma NextDiffers(env: Env, w: World, s: Spec, k: nat, k': nat)
    requires Inv(env, w) && k <= k'
    ensures var m := InRangeRows(env, w.jobId, s, w.rows);
            0 < k && k < |m| && k < k' < |m| ==> NextText(env, w.jobId, s, m, k') != NextText(env, w.jobId, s, m, k)
  {
    hide DbOk, SentOk, OwnerOk, NextText, InRangeRows;
    var m := InRangeRows(env, w.jobId, s, w.rows);
    RowsInOrder(env, w, s);
    if 0 < k && k < |m| && k < k' < |m| { NextTextInjective(env, w.jobId, s, m, k, k'); }
  }

  lemma RowsInOrder(env: Env, w: World, s: Spec)
    requires Inv(env, w)
    ensures Backfill.IdsInOrder(w.rows) && Backfill.IdsInOrder(InRangeRows(env, w.jobId, s, w.rows)) && EnvOk(env)
  {
    hide DbOk, SentOk, OwnerOk, EnvOk;
    Backfill.MatchingMembers(w.rows, Backfill.RangeOf(env.backfill, ProducerRequest(env, w.jobId, s, "")));
  }

  /** The next page's cursor stands after the applied rows, also among the rows that the producer has by now. */
  lemma CursorStands(env: Env, w: World, r: Request)
    requires Inv(env, w) && NextPage(w.db, r) && CursorOk(w.db, r.cursor)
    ensures EnvOk(env) && Backfill.IdsInOrder(w.rows)
    ensures var (m, k) := (InRangeRows(env, w.jobId, SpecOf(r), w.rows), Upto(w.db.cps));
            && (k == 0 <==> r.cursor == "") && k <= |m| && (k > 0 ==> k < |m| && r.cursor == NextText(env, w.jobId, SpecOf(r), m, k))
  {
    hide EnvOk, SentOk, OwnerOk, GenOk, IdemOk, InRangeRows, NextText, CursorOk, Find;
    var s := SpecOf(r);
    NextIsLast(env, w.jobId, w.db, r);
    RangeGrows(env, w.jobId, s, w.db, w.db.(lastRead := w.rows));
    LastCursor(env, w.jobId, s, InRange(env, w.jobId, s, w.db), InRangeRows(env, w.jobId, s, w.rows), w.db.cps);
  }

  lemma PageComes(env: Env, w: World, s: Spec, cursor: string, k: nat)
    requires EnvOk(env) && Backfill.IdsInOrder(w.rows) && Served(env, w, s)
    requires var m := InRangeRows(env, w.jobId, s, w.rows);
             k <= |m| && (k == 0 ==> cursor == "") && (k > 0 ==> cursor == NextText(env, w.jobId, s, m, k))
    ensures Backfill.PageOf(env.backfill, w.rows, ProducerRequest(env, w.jobId, s, cursor)).Ok?
  {
    hide Backfill.PageOf, Backfill.RowOk, Backfill.Matching, InRangeRows, TimesRoundTrip, Trimmed;
    var m := InRangeRows(env, w.jobId, s, w.rows);
    var req, base := ProducerRequest(env, w.jobId, s, cursor), ProducerRequest(env, w.jobId, s, "");
    Backfill.MatchingMembers(w.rows, Backfill.RangeOf(env.backfill, base));
    assert InRangeRows(env, w.jobId, s, w.rows) == m;
    assert k > 0 ==> m[k - 1].id >= 1 by { RangeIds(env, w, s, k); }
    assert k > 0 ==> req.cursor == Backfill.Sealed(Backfill.CursorAt(base, m, k).cursor);
    Backfill.PageServed(env.backfill, w.rows, req);
  }

  lemma RangeIds(env: Env, w: World, s: Spec, k: nat)
    requires Backfill.IdsInOrder(w.rows) && k <= |InRangeRows(env, w.jobId, s, w.rows)|
    ensures k > 0 ==> InRangeRows(env, w.jobId, s, w.rows)[k - 1].id >= 1
  {
    Backfill.MatchingMembers(w.rows, Backfill.RangeOf(env.backfill, ProducerRequest(env, w.jobId, s, "")));
  }

  lemma KnownOwner(env: Env, w: World)
    requires Inv(env, w) && w.owner.Some?
    ensures OwnerOk(env, w.jobId, w.db, w.owner.value) && DbOk(env, w.jobId, w.db) && EnvOk(env) && !w.gap
    ensures RequestOk(w.jobId, w.db, w.owner.value.req)
  {
    hide DbOk, EnvOk, SentOk, RequestOk;
  }

  lemma Reads(env: Env, w: World, r: Request, now: Time)
    requires Inv(env, w) && Holder(w, r, Fetching) && NextPage(w.db, r) && Served(env, w, SpecOf(r)) && !w.quarantined
    ensures var w' := Step(env, w, Work(now));
            Steady(w, w') && w'.db == w.db.(lastRead := w.rows) && w'.owner.Some? && w'.owner.value.req == r && w'.owner.value.pc.Applying?
  {
    hide Inv, NextPage, Served, Backfill.PageOf, ProducerRequest, TextOf, CursorOk, WellFormed, DbOk, EnvOk;
    KnownOwner(env, w);
    Answers(env, w, r);
  }

  /** The worker is applying the page of this request, which it has read from the rows as they are. */
  ghost predicate Applies(env: Env, w: World, r: Request)
  {
    && w.owner.Some? && w.owner.value.req == r && w.owner.value.pc.Applying? && !w.quarantined
    && w.db.lastRead == w.rows && NextPage(w.db, r) && Harmony(env, InRangeRows(env, w.jobId, SpecOf(r), w.rows), w.db)
  }

  /** A record is applied, not quarantined: only a record with its payload can have its key. */
  lemma AppliesOne(env: Env, w: World, r: Request, now: Time)
    requires Inv(env, w) && Applies(env, w, r) && w.owner.value.pc.left != []
    ensures var (w', pc) := (Step(env, w, Work(now)), w.owner.value.pc);
            && Steady(w, w') && w'.db == w.db.(gen := w'.db.gen) && Harmony(env, InRangeRows(env, w.jobId, SpecOf(r), w.rows), w'.db)
            && Holder(w', r, Applying(pc.left[1..], pc.next, pc.accepted + 1, pc.upto))
  {
    hide Inv, EnvOk, CursorOk, WellFormed, InRangeRows, NextText, IdemOk, ChainOk, Find;
    KnownOwner(env, w);
    var m, pc := InRange(env, w.jobId, SpecOf(r), w.db), w.owner.value.pc;
    var j := pc.upto - |pc.left|;
    assert pc.left[0] == m[j].payload;
    assert m == InRangeRows(env, w.jobId, SpecOf(r), w.rows);
  }

  lemma {:induction false} ThenApplies(env: Env, start: World, ls: seq<Label>, w: World, r: Request, now: Time)
    returns (ls': seq<Label>, w': World)
    requires Rebuild.Run(env, start, ls) == w && Inv(env, w) && Applies(env, w, r)
    ensures Rebuild.Run(env, start, ls') == w' && Inv(env, w') && Steady(w, w') && Applies(env, w', r)
    ensures Alone(env, start, ls) ==> Alone(env, start, ls')
    ensures w'.owner.value.pc.left == [] && w'.db == w.db.(gen := w'.db.gen)
    decreases |w.owner.value.pc.left|
  {
    hide Inv, Step, NextPage, Rebuild.Run, InRangeRows, Harmony, Alone;
    ls', w' := ls, w;
    if w.owner.value.pc.left != [] {
      AppliesOne(env, w, r, now);
      ls' := Then(env, start, ls, w, Work(now));
      var w1 := Step(env, w, Work(now));
      SameNext(w.db, w1.db, r);
      ls', w' := ThenApplies(env, start, ls', w1, r, now);
    }
  }

  lemma SameNext(db: Db, db': Db, r: Request)
    requires NextPage(db, r) && db'.job == db.job && db'.cps == db.cps
    ensures NextPage(db', r)
  {}

  // ---- the page is recorded

  lemma RecordsPage(env: Env, w: World, r: Request, now: Time)
    requires Inv(env, w) && Applies(env, w, r) && w.owner.value.pc.left == []
    ensures var w' := Step(env, w, Work(now));
            && Steady(w, w') && w'.owner.Some? && w'.owner.value.req == r && w'.owner.value.pc.Reconciling?
            && w'.db == w.db.(cps := w.db.cps + [w'.owner.value.pc.cp])
  {
    hide Inv, NextPage, Harmony, InRangeRows;
    assert w.db.job.Some? by { NextHasJob(w.db, r); }
  }

  lemma NextHasJob(db: Db, r: Request)
    requires NextPage(db, r)
    ensures db.job.Some? && db.job.value.spec == SpecOf(r) && db.job.value.status != Complete
  {}

  lemma Reconciles(env: Env, w: World, r: Request, cp: Checkpoint, now: Time)
    requires !w.quarantined && Holder(w, r, Reconciling(cp)) && w.db.job.Some?
    ensures var w' := Step(env, w, Work(now));
            && Steady(w, w') && Holder(w', r, Applied(cp)) && w'.db == w.db.(job := w'.db.job)
            && w'.db.job.Some? && w'.db.job.value.spec == w.db.job.value.spec
            && (w.db.job.value.status != Complete ==> w'.db.job.value.status != Complete)
  {}

  /** The page is in the store, and counted. */
  ghost predicate PageIsIn(w: World, r: Request, cp: Checkpoint)
  {
    && Holder(w, r, Applied(cp)) && w.db.lastRead == w.rows && !w.quarantined
    && w.db.job.Some? && w.db.job.value.spec == SpecOf(r) && w.db.job.value.status != Complete
    && w.db.cps != [] && w.db.cps[|w.db.cps| - 1] == cp
  }

  lemma ThenRecords(env: Env, start: World, ls: seq<Label>, w: World, r: Request, now: Time)
    returns (ls': seq<Label>, w': World, cp: Checkpoint)
    requires Rebuild.Run(env, start, ls) == w && Inv(env, w) && Applies(env, w, r) && w.owner.value.pc.left == []
    ensures Rebuild.Run(env, start, ls') == w' && Inv(env, w') && Steady(w, w') && PageIsIn(w', r, cp)
    ensures Alone(env, start, ls) ==> Alone(env, start, ls')
    ensures w'.db.cps == w.db.cps + [cp] && w'.db.gen == w.db.gen && w'.db.serving == w.db.serving
  {
    hide Inv, Step, NextPage, Rebuild.Run, InRangeRows, Harmony, Alone;
    NextHasJob(w.db, r);
    RecordsPage(env, w, r, now);
    ls' := Then(env, start, ls, w, Work(now));
    var w1 := Step(env, w, Work(now));
    cp := w1.owner.value.pc.cp;
    Reconciles(env, w1, r, cp, now);
    ls' := Then(env, start, ls', w1, Work(now));
    w' := Step(env, w1, Work(now));
  }

  // ---- after the page

  /** The generation is active, the job complete, and its last page finalized. */
  predicate Done(db: Db)
  {
    && db.active && HasStatus(db, Complete) && db.cps != []
    && var c := db.cps[|db.cps| - 1];
    c.next == "" && (c.topic, c.cursor) in db.idem && db.idem[(c.topic, c.cursor)].Finalized?
  }

  /** After the last page the activation checks pass; if that was done before, the page is only finalized. */
  lemma Activates(env: Env, w: World, r: Request, cp: Checkpoint, now: Time)
    requires Inv(env, w) && !w.quarantined && Holder(w, r, Applied(cp)) && cp.next == "" && Inv(env, Step(env, w, Work(now)))
    ensures w.db.job.Some? && w.db.cps != [] && w.db.cps[|w.db.cps| - 1] == cp && cp.topic == r.topic && cp.cursor == r.cursor
    ensures var w' := Step(env, w, Work(now));
            && Steady(w, w') && w'.db == w.db.(active := true)
            && if HasStatus(w.db, Complete) && w.db.active then Holder(w', r, Finalizing(cp)) else Holder(w', r, Completing(cp))
  {
    hide EnvOk, SentOk, Continuous, RequestOk, GenOk, IdemOk, ServingOk, IsClone, AllServed, NextText, InRangeRows, ChainOk;
    KnownOwner(env, w);
    var s := w.db.job.value.spec;
    var i :| Recorded(w.db, i, cp) && Counted(w.db, i);
    ChainIsContinuous(env, w.jobId, s, InRange(env, w.jobId, s, w.db), w.db.cps, i);
  }

  lemma Completes(env: Env, w: World, r: Request, cp: Checkpoint, now: Time)
    requires !w.quarantined && w.db.job.Some?
    ensures var w' := Step(env, w, Work(now));
            && (Holder(w, r, Completing(cp)) ==>
                  && Steady(w, w') && w'.db == w.db.(job := Some(w.db.job.value.(status := Complete)))
                  && Holder(w', r, Finalizing(cp)))
            && (Holder(w, r, Finalizing(cp)) ==>
                  Steady(w, w') && w'.db == w.db.(idem := w.db.idem[(r.topic, r.cursor) := Finalized]))
  {}

  /** From the recorded last page to the end of the job. */
  lemma ThenEnds(env: Env, start: World, ls: seq<Label>, w: World, r: Request, cp: Checkpoint, now: Time)
    returns (ls': seq<Label>, w': World)
    requires Rebuild.Run(env, start, ls) == w && Inv(env, w) && !w.quarantined && Holder(w, r, Applied(cp)) && cp.next == ""
    ensures Rebuild.Run(env, start, ls') == w' && Inv(env, w') && Steady(w, w') && Done(w'.db)
    ensures w'.db.cps == w.db.cps && w'.db.gen == w.db.gen && w'.db.lastRead == w.db.lastRead
    ensures Alone(env, start, ls) ==> Alone(env, start, ls')
  {
    hide Inv, Step, Rebuild.Run, Alone;
    StepKeeps(env, w, Work(now));
    Activates(env, w, r, cp, now);
    ls' := Then(env, start, ls, w, Work(now));
    w' := Step(env, w, Work(now));
    if Holder(w', r, Completing(cp)) {
      Completes(env, w', r, cp, now);
      ls' := Then(env, start, ls', w', Work(now));
      w' := Step(env, w', Work(now));
    }
    Completes(env, w', r, cp, now);
    ls' := Then(env, start, ls', w', Work(now));
    w' := Step(env, w', Work(now));
  }

  function FollowOf(env: Env, r: Request, cp: Checkpoint, now: Time): Request
  {
    var id := env.followUpId(r.jobId, r.topic, r.cursor);
    FollowUp(r, id, id, cp.next, now)
  }

  /** No page asked for the cursor that the last page issued. */
  lemma NextIsNew(env: Env, jobId: string, s: Spec, m: seq<Backfill.Row>, cps: seq<Checkpoint>, topic: string)
    requires EnvOk(env) && ChainOk(env, jobId, s, m, cps) && Backfill.IdsInOrder(m) && cps != [] && cps[|cps| - 1].next != ""
    ensures Find(cps, topic, cps[|cps| - 1].next).None?
  {
    hide NextText, Find;
    var n := |cps| - 1;
    assert CheckpointOk(env, jobId, s, m, cps, n);
    forall i | 0 <= i < |cps| ensures cps[i].cursor != cps[n].next {
      assert CheckpointOk(env, jobId, s, m, cps, i);
      if i > 0 {
        assert CheckpointOk(env, jobId, s, m, cps, i - 1);
        UptoGrows(env, jobId, s, m, cps, i - 1, n);
        NextTextInjective(env, jobId, s, m, cps[i - 1].upto, cps[n].upto);
      }
    }
    FindFinds(cps, topic, cps[n].next);
  }

  /** The follow-up of a page that was continued asks for the next page. */
  lemma FollowUpIsNext(env: Env, w: World, r: Request, cp: Checkpoint, now: Time)
    requires Inv(env, w) && PageIsIn(w, r, cp) && cp.next != ""
    ensures NextPage(w.db, FollowOf(env, r, cp, now))
  {
    hide EnvOk, SentOk, OwnerOk, GenOk, IdemOk, NextText, InRangeRows, ChainOk, Find;
    var s := SpecOf(r);
    RangeInOrder(env, w.jobId, s, w.db);
    NextIsNew(env, w.jobId, s, InRange(env, w.jobId, s, w.db), w.db.cps, r.topic);
  }

  lemma Publishes(env: Env, w: World, r: Request, cp: Checkpoint, now: Time)
    requires !w.quarantined && Holder(w, r, Applied(cp)) && cp.next != ""
    ensures var w' := Step(env, w, Work(now));
            Steady(w, w') && w'.db == w.db.(idem := w'.db.idem) && Holder(w', r, Publishing(FollowOf(env, r, cp, now)))
  {}

  lemma IsSent(env: Env, w: World, r: Request, follow: Request, now: Time)
    requires Inv(env, w) && !w.quarantined && Holder(w, r, Publishing(follow))
    ensures var (w', f) := (Step(env, w, Work(now)), Encode(env.clock, follow));
            Steady(w, w') && w'.db == w.db && f in w'.sent && ForJob(env, w.jobId, f) && Parse(env.clock, f) == Some(follow)
  {
    hide Inv, DbOk, EnvOk, Parse, Encode, WellFormed, CursorOk;
    KnownOwner(env, w);
    assert TimesRoundTrip(env.clock) by { TimesOk(env); }
    EncodeRoundTrip(env.clock, follow);
  }

  lemma TimesOk(env: Env)
    requires EnvOk(env)
    ensures TimesRoundTrip(env.clock)
  {
    hide TimesRoundTrip;
  }

  lemma ThenContinues(env: Env, start: World, ls: seq<Label>, w: World, r: Request, cp: Checkpoint, now: Time)
    returns (ls': seq<Label>, w': World, f: Fields)
    requires Rebuild.Run(env, start, ls) == w && Inv(env, w) && PageIsIn(w, r, cp) && cp.next != ""
    ensures Rebuild.Run(env, start, ls') == w' && Inv(env, w') && Steady(w, w') && w'.db.cps == w.db.cps
    ensures Alone(env, start, ls) ==> Alone(env, start, ls')
    ensures w'.db.gen == w.db.gen && w'.db.serving == w.db.serving
    ensures Asks(env, w', f) && SpecOf(Parse(env.clock, f).value) == SpecOf(r)
  {
    hide Inv, Step, NextPage, Rebuild.Run, Parse, Encode, Alone;
    var follow := FollowOf(env, r, cp, now);
    FollowUpIsNext(env, w, r, cp, now);
    Publishes(env, w, r, cp, now);
    ls' := Then(env, start, ls, w, Work(now));
    var w1 := Step(env, w, Work(now));
    SameNext(w.db, w1.db, follow);
    IsSent(env, w1, r, follow, now);
    f := Encode(env.clock, follow);
    ls' := Then(env, start, ls', w1, Work(now));
    w' := Step(env, w1, Work(now));
  }

  // ---- page after page

  /** A page that was continued has applied more rows than the pages before it, and not all. */
  lemma PageAdds(env: Env, w: World, r: Request, cps: seq<Checkpoint>, cp: Checkpoint)
    requires Inv(env, w) && PageIsIn(w, r, cp) && w.db.cps == cps + [cp] && cp.next != ""
    ensures Upto(cps) < Upto(w.db.cps) <= |InRangeRows(env, w.jobId, SpecOf(r), w.rows)|
  {
    hide EnvOk, SentOk, OwnerOk, GenOk, IdemOk, NextText, InRangeRows;
    var s := SpecOf(r);
    assert CheckpointOk(env, w.jobId, s, InRange(env, w.jobId, s, w.db), w.db.cps, |cps|);
    assert cps != [] ==> w.db.cps[|cps| - 1] == cps[|cps| - 1];
  }

  lemma {:induction false} ThenActivates(env: Env, start: World, ls: seq<Label>, w: World, f: Fields, now: Time)
    returns (ls': seq<Label>, w': World)
    requires Rebuild.Run(env, start, ls) == w && Inv(env, w) && Asks(env, w, f) && !w.quarantined
    requires var s := SpecOf(Parse(env.clock, f).value); Served(env, w, s) && Harmony(env, InRangeRows(env, w.jobId, s, w.rows), w.db)
    ensures Rebuild.Run(env, start, ls') == w' && Inv(env, w') && Steady(w, w') && Done(w'.db) && w'.db.lastRead == w.rows
    ensures Alone(env, start, ls) ==> Alone(env, start, ls')
    decreases |InRangeRows(env, w.jobId, SpecOf(Parse(env.clock, f).value), w.rows)| - Upto(w.db.cps)
  {
    hide Inv, Step, NextPage, Rebuild.Run, Parse, Served, Harmony, InRangeRows, Applies, Alone;
    var r := Parse(env.clock, f).value;
    var m, cps := InRangeRows(env, w.jobId, SpecOf(r), w.rows), w.db.cps;
    ls', w' := ThenFetches(env, start, ls, w, f, m, now);
    SameServed(env, w, w', SpecOf(r));
    ls', w' := ThenReads(env, start, ls', w', r, m, now);
    ls', w' := ThenApplies(env, start, ls', w', r, now);
    ApplyingHarmony(env, w', r);
    var w2 := w';
    var cp: Checkpoint;
    ls', w', cp := ThenRecords(env, start, ls', w2, r, now);
    if cp.next == "" {
      var w3 := w';
      ls', w' := ThenEnds(env, start, ls', w3, r, cp, now);
    } else {
      PageAdds(env, w', r, cps, cp);
      var w3 := w';
      var f': Fields;
      ls', w', f' := ThenContinues(env, start, ls', w3, r, cp, now);
      SameServed(env, w, w', SpecOf(r));
      SameHarmony(env, m, w2.db, w'.db);
      ls', w' := ThenActivates(env, start, ls', w', f', now);
    }
  }

  lemma ThenReads(env: Env, start: World, ls: seq<Label>, w: World, r: Request, m: seq<Backfill.Row>, now: Time)
    returns (ls': seq<Label>, w': World)
    requires Rebuild.Run(env, start, ls) == w && Inv(env, w) && Holder(w, r, Fetching) && NextPage(w.db, r) && !w.quarantined
    requires m == InRangeRows(env, w.jobId, SpecOf(r), w.rows) && Served(env, w, SpecOf(r)) && Harmony(env, m, w.db)
    ensures Rebuild.Run(env, start, ls') == w' && Inv(env, w') && Steady(w, w') && Applies(env, w', r) && w'.db.cps == w.db.cps
    ensures Alone(env, start, ls) ==> Alone(env, start, ls')
  {
    hide Inv, Step, NextPage, Rebuild.Run, Served, Harmony, InRangeRows, Alone;
    Reads(env, w, r, now);
    ls' := Then(env, start, ls, w, Work(now));
    w' := Step(env, w, Work(now));
    SameNext(w.db, w'.db, r);
    SameHarmony(env, m, w.db, w'.db);
  }

  lemma ApplyingHarmony(env: Env, w: World, r: Request)
    requires Applies(env, w, r)
    ensures Harmony(env, InRangeRows(env, w.jobId, SpecOf(r), w.rows), w.db)
  {}

  lemma SameServed(env: Env, w: World, w': World, s: Spec)
    requires Steady(w, w') && Served(env, w, s)
    ensures Served(env, w', s)
  {}

  /** From every reachable state in which some message asks for the next page of a job, a worker that is left alone takes the
      job to its activation: page after page is read, applied, recorded and followed up, and in the end the generation
      holds the records of all in-range rows that the producer has, what was served, and nothing else. The job is complete,
      and its last page finalized. */
  lemma UndisturbedJobActivates(env: Env, w: World, f: Fields, now: Time) returns (ls: seq<Label>)
    requires Inv(env, w) && Asks(env, w, f) && !w.quarantined
    requires var s := SpecOf(Parse(env.clock, f).value); Served(env, w, s) && Harmony(env, InRangeRows(env, w.jobId, s, w.rows), w.db)
    ensures var w' := Rebuild.Run(env, w, ls);
            Done(w'.db) && w'.db.lastRead == w.rows && Rebuilt(env, w.jobId, w'.db) && w'.db.serving == w.db.serving
    ensures Alone(env, w, ls)
  {
    hide Inv, Asks, Parse, Served, Harmony, InRangeRows, Rebuild.Run, Rebuilt, Exact;
    assert Rebuild.Run(env, w, []) == w && Alone(env, w, []) by { NoRun(env, w); }
    var w';
    ls, w' := ThenActivates(env, w, [], w, f, now);
    ActiveIsRebuilt(env, w');
  }

  lemma NoRun(env: Env, w: World)
    ensures Rebuild.Run(env, w, []) == w && Alone(env, w, [])
  {}

  // ---- from the start

  /** The producer may have any rows. */
  lemma {:induction false} ThenProduces(env: Env, jobId: string, base: map<string, string>, rows: seq<Backfill.Row>) returns (ls: seq<Label>)
    requires EnvOk(env) && Backfill.IdsInOrder(rows)
    ensures var w := Start(jobId, base).(rows := rows);
            Rebuild.Run(env, Start(jobId, base), ls) == w && Inv(env, w)
    decreases |rows|
  {
    hide Inv, Rebuild.Run, EnvOk;
    if rows == [] {
      ls := [];
      NoRun(env, Start(jobId, base));
      StartOk(env, jobId, base);
    } else {
      var n := |rows| - 1;
      var w := Start(jobId, base).(rows := rows[..n]);
      ls := ThenProduces(env, jobId, base, rows[..n]);
      assert rows[..n] + [rows[n]] == rows;
      ls := Then(env, Start(jobId, base), ls, w, AppendRow(rows[n]));
    }
  }

  /** A submitted job over any rows of the producer, and with anything being served, can be taken to its activation; its
      generation is then the served one with the in-range records added. */
  lemma SubmittedJobActivates(env: Env, jobId: string, base: map<string, string>, rows: seq<Backfill.Row>, f: Fields, now: Time)
    returns (ls: seq<Label>)
    requires EnvOk(env) && Backfill.IdsInOrder(rows) && ForJob(env, jobId, f) && Parse(env.clock, f).value.cursor == ""
    requires var s, m := SpecOf(Parse(env.clock, f).value), InRangeRows(env, jobId, SpecOf(Parse(env.clock, f).value), rows);
             Served(env, Start(jobId, base).(rows := rows), s) && KeysApart(env, m) && Agrees(env, m, base)
    ensures var w' := Rebuild.Run(env, Start(jobId, base), ls);
            && Done(w'.db) && w'.db.lastRead == rows && Rebuilt(env, jobId, w'.db) && w'.db.serving == Serving(base, base, {})
            && (base == map[] ==> Exact(env, jobId, w'.db))
  {
    hide Inv, EnvOk, Parse, Served, KeysApart, Agrees, InRangeRows, Rebuild.Run, Rebuilt, Exact;
    ls := ThenProduces(env, jobId, base, rows);
    var w := Start(jobId, base).(rows := rows);
    ls := Then(env, Start(jobId, base), ls, w, Submit(f));
    var w1 := Step(env, w, Submit(f));
    SameServed(env, w, w1, SpecOf(Parse(env.clock, f).value));
    NothingDisagrees(env, InRangeRows(env, jobId, SpecOf(Parse(env.clock, f).value), rows));
    var w';
    ls, w' := ThenActivates(env, Start(jobId, base), ls, w1, f, now);
    ActiveIsRebuilt(env, w');
  }

  lemma NothingDisagrees(env: Env, m: seq<Backfill.Row>)
    ensures Agrees(env, m, map[])
  {}
}
