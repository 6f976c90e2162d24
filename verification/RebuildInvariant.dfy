/** What every run of a rebuild keeps true, up to its activation. */
module RebuildInvariant {
  import opened Common
  import opened Spaces
  import opened RebuildMessage
  import opened Rebuild
  import Backfill

  function InRange(env: Env, jobId: string, s: Spec, db: Db): seq<Backfill.Row> { InRangeRows(env, jobId, s, db.lastRead) }

  /** The text of the cursor after the first k in-range rows. */
  function NextText(env: Env, jobId: string, s: Spec, m: seq<Backfill.Row>, k: int): string
  {
    TextOf(env, Backfill.CursorAt(ProducerRequest(env, jobId, s, ""), m, k))
  }

  /** Page i starts where page i - 1 stops, and names the place where it stops itself. */
  ghost predicate CheckpointOk(env: Env, jobId: string, s: Spec, m: seq<Backfill.Row>, cps: seq<Checkpoint>, i: nat)
    requires i < |cps|
  {
    var c := cps[i];
    && c.topic == s.topic && c.index == i && c.upto <= |m|
    && c.cursor == (if i == 0 then "" else cps[i - 1].next)
    && (i > 0 ==> cps[i - 1].next != "" && cps[i - 1].upto < c.upto)
    && c.applied == c.upto - (if i == 0 then 0 else cps[i - 1].upto)
    && (c.next != "" ==> 0 < c.upto < |m| && c.next == NextText(env, jobId, s, m, c.upto))
    && (c.next == "" ==> c.upto == |m|)
  }

  ghost predicate ChainOk(env: Env, jobId: string, s: Spec, m: seq<Backfill.Row>, cps: seq<Checkpoint>)
  {
    forall i :: 0 <= i < |cps| ==> CheckpointOk(env, jobId, s, m, cps, i)
  }

  function Upto(cps: seq<Checkpoint>): nat { if cps == [] then 0 else cps[|cps| - 1].upto }

  /** The job's progress counts every counted page once, and names one of them. */
  ghost predicate ProgressOk(job: Job, cps: seq<Checkpoint>)
  {
    && job.pages <= |cps| && job.accepted == (if job.pages == 0 then 0 else cps[job.pages - 1].upto)
    && (if job.pages == 0 then job.lastCursor == job.nextCursor == ""
        else exists i :: 0 <= i < job.pages && cps[i].cursor == job.lastCursor && cps[i].next == job.nextCursor)
  }

  predicate Holds(env: Env, gen: map<string, string>, payload: string)
  {
    env.key(payload) in gen && gen[env.key(payload)] == payload
  }

  /** The record was served when the run started, or a live event carried it. */
  predicate FromServing(env: Env, g: Serving, k: string, payload: string)
  {
    (k in g.base && g.base[k] == payload) || (payload in g.lives && env.key(payload) == k)
  }

  ghost predicate FromRow(env: Env, m: seq<Backfill.Row>, k: string, payload: string)
  {
    exists j :: 0 <= j < |m| && env.key(m[j].payload) == k && m[j].payload == payload
  }

  /** The generation holds the first n in-range records; and each of its records is an in-range one, was served when the run
      started, or came with a live event. */
  ghost predicate GenOk(env: Env, m: seq<Backfill.Row>, g: Serving, gen: map<string, string>, n: nat)
  {
    && n <= |m|
    && (forall k :: k in gen ==> FromServing(env, g, k, gen[k]) || FromRow(env, m, k, gen[k]))
    && (forall j :: 0 <= j < n ==> Holds(env, gen, m[j].payload))
  }

  /** What readers see only grows. */
  predicate ServingOk(env: Env, g: Serving)
  {
    && (forall k :: k in g.base ==> k in g.current && g.current[k] == g.base[k])
    && (forall k :: k in g.current ==> FromServing(env, g, k, g.current[k]))
  }

  predicate AllServed(env: Env, g: Serving, gen: map<string, string>)
  {
    forall k :: k in gen ==> FromServing(env, g, k, gen[k])
  }

  /** Every key that was served when the run started is in the generation, with its record or a live one. */
  predicate IsClone(g: Serving, gen: map<string, string>)
  {
    forall k :: k in g.base ==> k in gen && (gen[k] == g.base[k] || gen[k] in g.lives)
  }

  /** The checkpoint is recorded, and counted in the job's progress when it must be. */
  predicate Recorded(db: Db, i: int, cp: Checkpoint) { 0 <= i < |db.cps| && db.cps[i] == cp }

  predicate Counted(db: Db, i: int) { db.job.Some? && 0 <= i < |db.cps| && db.job.value.pages >= i + 1 }

  ghost predicate IdemOk(db: Db, k: (string, string), d: Disposition)
  {
    exists i :: Counted(db, i) && db.cps[i].topic == k.0 && db.cps[i].cursor == k.1
                && match d case FollowUpPublished(id) => db.cps[i].next != "" && id != "" && Trimmed(id)
                           case Finalized => db.cps[i].next == "" && db.active && db.job.value.status == Complete
  }

  ghost predicate DbOk(env: Env, jobId: string, db: Db)
  {
    && Backfill.IdsInOrder(db.lastRead) && ServingOk(env, db.serving)
    && match db.job
       case None => db.cps == [] && db.idem == map[] && db.gen == map[] && !db.active
       case Some(job) =>
         var m, n := InRange(env, jobId, job.spec, db), |db.cps|;
         && ChainOk(env, jobId, job.spec, m, db.cps)
         && GenOk(env, m, db.serving, db.gen, Upto(db.cps))
         && (job.status == Initializing ==> db.cps == [] && AllServed(env, db.serving, db.gen))
         && (job.status != Initializing ==> IsClone(db.serving, db.gen))
         && job.pages <= n <= job.pages + 1 && ProgressOk(job, db.cps)
         && (job.status == Complete ==> db.active)
         && (db.active ==> n > 0 && db.cps[n - 1].next == "" && job.pages == n)
         && (forall k :: k in db.idem ==> IdemOk(db, k, db.idem[k]))
  }

  /** A cursor that may be asked for: the empty one, or one that a counted page issued. */
  ghost predicate CursorOk(db: Db, cursor: string)
  {
    cursor == "" || exists i :: Counted(db, i) && db.cps[i].next == cursor
  }

  ghost predicate RequestOk(jobId: string, db: Db, r: Request)
  {
    WellFormed(r) && r.jobId == jobId && CursorOk(db, r.cursor)
  }

  ghost predicate SentOk(env: Env, jobId: string, db: Db, f: Fields)
  {
    ForJob(env, jobId, f) && RequestOk(jobId, db, Parse(env.clock, f).value)
  }

  /** The request's page is the next one of its job. */
  ghost predicate NextPage(db: Db, r: Request)
  {
    && db.job.Some? && db.job.value.spec == SpecOf(r) && db.job.value.status != Complete
    && Find(db.cps, r.topic, r.cursor).None?
  }

  /** The page being applied: rows from..upto of the range, of which the last |left| are still to be applied. */
  ghost predicate PageOk(env: Env, jobId: string, db: Db, r: Request, left: seq<string>, next: string, accepted: nat, upto: nat)
  {
    && NextPage(db, r) && accepted == upto - |left| - Upto(db.cps)
    && var m := InRange(env, jobId, SpecOf(r), db);
    && upto <= |m| && |left| <= upto - Upto(db.cps)
    && (db.cps != [] ==> Upto(db.cps) < upto)
    && left == Backfill.Payloads(m[upto - |left|..upto])
    && next == (if upto < |m| then NextText(env, jobId, SpecOf(r), m, upto) else "")
    && (upto < |m| ==> 0 < upto)
    && (forall j :: 0 <= j < upto - |left| ==> Holds(env, db.gen, m[j].payload))
  }

  ghost predicate OwnerOk(env: Env, jobId: string, db: Db, o: Owner)
  {
    && RequestOk(jobId, db, o.req)
    && match o.pc
       case Leased => true
       case Ensuring => db.job.Some? ==> NextPage(db, o.req)
       case Marking => NextPage(db, o.req) && IsClone(db.serving, db.gen)
       case Fetching => NextPage(db, o.req) && db.job.value.status == Building
       case Applying(left, next, accepted, upto) => PageOk(env, jobId, db, o.req, left, next, accepted, upto) && db.job.value.status == Building
       case Reconciling(cp) => OwnPage(db, o.req, cp) && exists i :: Recorded(db, i, cp)
       case Applied(cp) => OwnPage(db, o.req, cp) && exists i :: Recorded(db, i, cp) && Counted(db, i)
       case Completing(cp) => OwnPage(db, o.req, cp) && cp.next == "" && db.active && exists i :: Recorded(db, i, cp) && Counted(db, i)
       case Finalizing(cp) => OwnPage(db, o.req, cp) && cp.next == "" && db.active && db.job.value.status == Complete
                              && exists i :: Recorded(db, i, cp) && Counted(db, i)
       case Publishing(f) => RequestOk(jobId, db, f) && f.cursor != ""
  }

  predicate OwnPage(db: Db, r: Request, cp: Checkpoint)
  {
    db.job.Some? && db.job.value.spec == SpecOf(r) && cp.topic == r.topic && cp.cursor == r.cursor
  }

  ghost predicate Inv(env: Env, w: World)
  {
    && EnvOk(env) && !w.orphan && !w.gap
    && Backfill.IdsInOrder(w.rows) && w.db.lastRead <= w.rows
    && DbOk(env, w.jobId, w.db)
    && (forall f :: f in w.sent ==> SentOk(env, w.jobId, w.db, f))
    && (w.owner.Some? ==> OwnerOk(env, w.jobId, w.db, w.owner.value))
  }

  // ---- looking up checkpoints

  lemma {:induction false} FindFinds(cps: seq<Checkpoint>, topic: string, cursor: string)
    ensures var r := Find(cps, topic, cursor);
            if r.Some? then exists i :: 0 <= i < |cps| && cps[i] == r.value && r.value.topic == topic && r.value.cursor == cursor
            else forall i :: 0 <= i < |cps| ==> cps[i].topic != topic || cps[i].cursor != cursor
  {
    if cps != [] {
      FindFinds(cps[1..], topic, cursor);
      if Find(cps[1..], topic, cursor).Some? {
        var i :| 0 <= i < |cps[1..]| && cps[1..][i] == Find(cps[1..], topic, cursor).value;
        assert cps[i + 1] == cps[1..][i];
      }
      if !(cps[0].topic == topic && cps[0].cursor == cursor) && Find(cps[1..], topic, cursor).None? {
        forall i | 0 <= i < |cps| ensures cps[i].topic != topic || cps[i].cursor != cursor {
          if i > 0 { assert cps[i] == cps[1..][i - 1]; }
        }
      }
    }
  }

  /** The page of a request without a checkpoint is the one after the last recorded page. */
  lemma NextIsLast(env: Env, jobId: string, db: Db, r: Request)
    requires DbOk(env, jobId, db) && NextPage(db, r) && CursorOk(db, r.cursor)
    ensures r.cursor == "" ==> db.cps == []
    ensures r.cursor != "" ==> db.cps != [] && r.cursor == db.cps[|db.cps| - 1].next && db.job.value.pages == |db.cps|
  {
    hide NextText, InRange, GenOk, Find, IdemOk;
    var n := |db.cps|;
    FindFinds(db.cps, r.topic, r.cursor);
    var m := InRange(env, jobId, db.job.value.spec, db);
    if r.cursor == "" {
      assert n > 0 ==> CheckpointOk(env, jobId, db.job.value.spec, m, db.cps, 0);
    } else {
      var i :| Counted(db, i) && db.cps[i].next == r.cursor;
      assert i + 1 < n ==> CheckpointOk(env, jobId, db.job.value.spec, m, db.cps, i + 1);
    }
  }

  // ---- what a larger store keeps

  /** The job keeps its specification, checkpoints are only added, counted pages stay counted, an active generation stays active
      and a complete job complete. */
  predicate Extends(db: Db, db': Db)
  {
    && db.cps <= db'.cps && (db.active ==> db'.active)
    && (db.job.Some? ==> db'.job.Some? && db'.job.value.spec == db.job.value.spec && db.job.value.pages <= db'.job.value.pages)
    && (db.job.Some? && db.job.value.status == Complete ==> db'.job.value.status == Complete)
  }

  lemma CursorStays(db: Db, db': Db, cursor: string)
    requires Extends(db, db') && CursorOk(db, cursor)
    ensures CursorOk(db', cursor)
  {
    if cursor != "" {
      var i :| Counted(db, i) && db.cps[i].next == cursor;
      assert Counted(db', i) && db'.cps[i].next == cursor;
    }
  }

  lemma IdemStays(db: Db, db': Db, k: (string, string), d: Disposition)
    requires Extends(db, db') && IdemOk(db, k, d)
    ensures IdemOk(db', k, d)
  {
    if d.Finalized? {
      var i :| Counted(db, i) && db.cps[i].topic == k.0 && db.cps[i].cursor == k.1 && db.cps[i].next == "";
      assert Counted(db', i) && db'.cps[i] == db.cps[i];
    } else {
      var i :| Counted(db, i) && db.cps[i].topic == k.0 && db.cps[i].cursor == k.1 && db.cps[i].next != ""
               && d.eventId != "" && Trimmed(d.eventId);
      assert Counted(db', i) && db'.cps[i] == db.cps[i];
    }
  }

  /** The lease holder moves on and the store grows. */
  lemma OwnerMoves(env: Env, w: World, w': World)
    requires Inv(env, w) && Extends(w.db, w'.db) && DbOk(env, w.jobId, w'.db) && w'.db.lastRead <= w.rows
    requires w'.jobId == w.jobId && w'.rows == w.rows && w'.orphan == w.orphan && w'.gap == w.gap && w'.sent == w.sent
    requires w'.owner.Some? ==> OwnerOk(env, w.jobId, w'.db, w'.owner.value)
    ensures Inv(env, w')
  {
    hide EnvOk, DbOk, OwnerOk, CursorOk, Extends, WellFormed, Parse;
    forall f | f in w'.sent ensures SentOk(env, w'.jobId, w'.db, f) {
      assert SentOk(env, w.jobId, w.db, f);
      CursorStays(w.db, w'.db, Parse(env.clock, f).value.cursor);
    }
  }

  lemma AbandonKeeps(env: Env, w: World)
    requires Inv(env, w)
    ensures Inv(env, Abandon(w))
  {
    hide EnvOk, DbOk, SentOk, OwnerOk;
  }

  // ---- the steps of the lease holder

  lemma LeasedKeeps(env: Env, w: World, o: Owner)
    requires Inv(env, w) && w.owner == Some(o) && o.pc.Leased?
    ensures Inv(env, LeasedStep(w, o))
  {
    hide EnvOk, SentOk, CursorOk, ChainOk, GenOk, IdemOk, InRange, Find, WellFormed;
    FindFinds(w.db.cps, o.req.topic, o.req.cursor);
    AbandonKeeps(env, w);
    var found := Find(w.db.cps, o.req.topic, o.req.cursor);
    if found.Some? {
      var i :| 0 <= i < |w.db.cps| && w.db.cps[i] == found.value;
      assert Recorded(w.db, i, found.value);
    }
    OwnerMoves(env, w, LeasedStep(w, o));
  }

  lemma EnsuringKeeps(env: Env, w: World, o: Owner)
    requires Inv(env, w) && w.owner == Some(o) && o.pc.Ensuring?
    ensures Inv(env, EnsuringStep(w, o))
  {
    hide EnvOk, SentOk, InRange, WellFormed, NextText, Find, GenOk, ServingOk, IsClone, AllServed, Cloned;
    AbandonKeeps(env, w);
    var w' := EnsuringStep(w, o);
    FindFinds(w.db.cps, o.req.topic, o.req.cursor);
    if w.db.job.Some? {
      var s := w.db.job.value.spec;
      SameRange(env, w.jobId, s, w.db, w'.db);
      ClonedOk(env, InRange(env, w.jobId, s, w.db), w.db.serving, w.db.gen, Upto(w.db.cps));
      forall k | k in w.db.idem ensures IdemOk(w'.db, k, w.db.idem[k]) { IdemStays(w.db, w'.db, k, w.db.idem[k]); }
    } else {
      NothingHeld(env, InRange(env, w.jobId, SpecOf(o.req), w'.db), w.db.serving);
      assert w'.db.gen == map[];
    }
    CursorStays(w.db, w'.db, o.req.cursor);
    assert DbOk(env, w.jobId, w'.db);
    OwnerMoves(env, w, w');
  }

  lemma NothingHeld(env: Env, m: seq<Backfill.Row>, g: Serving)
    ensures GenOk(env, m, g, map[], 0) && AllServed(env, g, map[])
  {}

  /** Cloning keeps what the generation holds and adds what is served. */
  lemma ClonedOk(env: Env, m: seq<Backfill.Row>, g: Serving, gen: map<string, string>, n: nat)
    requires GenOk(env, m, g, gen, n) && ServingOk(env, g)
    ensures GenOk(env, m, g, Cloned(gen, g.current), n)
    ensures AllServed(env, g, gen) ==> AllServed(env, g, Cloned(gen, g.current)) && IsClone(g, Cloned(gen, g.current))
  {
    hide FromRow;
  }

  lemma MarkingKeeps(env: Env, w: World, o: Owner)
    requires Inv(env, w) && w.owner == Some(o) && o.pc.Marking?
    ensures Inv(env, MarkingStep(w, o))
  {
    hide EnvOk, SentOk, InRange, WellFormed, NextText, Find, GenOk, ServingOk, IsClone;
    var w' := MarkingStep(w, o);
    SameRange(env, w.jobId, w.db.job.value.spec, w.db, w'.db);
    forall k | k in w.db.idem ensures IdemOk(w'.db, k, w.db.idem[k]) { IdemStays(w.db, w'.db, k, w.db.idem[k]); }
    CursorStays(w.db, w'.db, o.req.cursor);
    OwnerMoves(env, w, w');
  }

  lemma ReconcilingKeeps(env: Env, w: World, o: Owner)
    requires Inv(env, w) && w.owner == Some(o) && o.pc.Reconciling?
    ensures Inv(env, ReconcilingStep(w, o))
  {
    hide EnvOk, SentOk, InRange, WellFormed, NextText, GenOk;
    var cp := o.pc.cp;
    var w' := ReconcilingStep(w, o);
    var i :| Recorded(w.db, i, cp);
    assert CheckpointOk(env, w.jobId, w.db.job.value.spec, InRange(env, w.jobId, w.db.job.value.spec, w.db), w.db.cps, i);
    SameRange(env, w.jobId, w.db.job.value.spec, w.db, w'.db);
    forall k | k in w.db.idem ensures IdemOk(w'.db, k, w.db.idem[k]) { IdemStays(w.db, w'.db, k, w.db.idem[k]); }
    CursorStays(w.db, w'.db, o.req.cursor);
    assert Recorded(w'.db, i, cp) && Counted(w'.db, i);
    OwnerMoves(env, w, w');
  }

  lemma SameRange(env: Env, jobId: string, s: Spec, db: Db, db': Db)
    requires db.lastRead == db'.lastRead
    ensures InRange(env, jobId, s, db) == InRange(env, jobId, s, db')
  {}

  /** Row j is applied to a generation that holds the rows before it, or had it already. */
  lemma GenRecorded(env: Env, m: seq<Backfill.Row>, g: Serving, gen: map<string, string>, n: nat, j: nat)
    requires GenOk(env, m, g, gen, n) && j < |m|
    requires var k := env.key(m[j].payload); k in gen ==> gen[k] == m[j].payload
    ensures var gen' := gen[env.key(m[j].payload) := m[j].payload];
            && GenOk(env, m, g, gen', n) && Holds(env, gen', m[j].payload) && (IsClone(g, gen) ==> IsClone(g, gen'))
            && forall p :: Holds(env, gen, p) ==> Holds(env, gen', p)
  {
    hide FromServing;
    assert FromRow(env, m, env.key(m[j].payload), m[j].payload);
  }

  lemma ApplyingRecordKeeps(env: Env, w: World, o: Owner)
    requires Inv(env, w) && w.owner == Some(o) && o.pc.Applying? && o.pc.left != []
    ensures Inv(env, ApplyingStep(env, w, o))
  {
    hide EnvOk, SentOk, InRange, WellFormed, NextText, ChainOk, CursorOk, Find, GenOk, Holds, ServingOk, IsClone;
    AbandonKeeps(env, w);
    var left, upto := o.pc.left, o.pc.upto;
    var w' := ApplyingStep(env, w, o);
    var k := env.key(left[0]);
    if !(k in w.db.gen && w.db.gen[k] != left[0]) {
      var m := InRange(env, w.jobId, SpecOf(o.req), w.db);
      var j := upto - |left|;
      assert left[0] == m[j].payload;
      SameRange(env, w.jobId, SpecOf(o.req), w.db, w'.db);
      assert left[1..] == Backfill.Payloads(m[j + 1..upto]);
      GenRecorded(env, m, w.db.serving, w.db.gen, Upto(w.db.cps), j);
      forall x | x in w.db.idem ensures IdemOk(w'.db, x, w.db.idem[x]) { IdemStays(w.db, w'.db, x, w.db.idem[x]); }
      CursorStays(w.db, w'.db, o.req.cursor);
      OwnerMoves(env, w, w');
    }
  }

  // ---- the next page is read

  /** In-range rows that were read before come first in a later read. */
  lemma RangeGrows(env: Env, jobId: string, s: Spec, db: Db, db': Db)
    requires db.lastRead <= db'.lastRead
    ensures InRange(env, jobId, s, db) <= InRange(env, jobId, s, db')
  {
    Backfill.MatchingGrows(db.lastRead, db'.lastRead, Backfill.RangeOf(env.backfill, ProducerRequest(env, jobId, s, "")));
  }

  lemma ChainGrows(env: Env, jobId: string, s: Spec, m: seq<Backfill.Row>, m': seq<Backfill.Row>, cps: seq<Checkpoint>)
    requires ChainOk(env, jobId, s, m, cps) && m <= m' && (cps != [] ==> cps[|cps| - 1].next != "")
    ensures ChainOk(env, jobId, s, m', cps)
  {
    forall i | 0 <= i < |cps| ensures CheckpointOk(env, jobId, s, m', cps, i) {
      assert CheckpointOk(env, jobId, s, m, cps, i);
      assert i + 1 < |cps| ==> CheckpointOk(env, jobId, s, m, cps, i + 1);
      var k := cps[i].upto;
      assert 0 < k <= |m| ==> m[k - 1] == m'[k - 1];
    }
  }

  lemma GenGrows(env: Env, m: seq<Backfill.Row>, m': seq<Backfill.Row>, g: Serving, gen: map<string, string>, n: nat)
    requires GenOk(env, m, g, gen, n) && m <= m'
    ensures GenOk(env, m', g, gen, n)
  {
    forall k | k in gen ensures FromServing(env, g, k, gen[k]) || FromRow(env, m', k, gen[k]) {
      if FromRow(env, m, k, gen[k]) {
        var j :| 0 <= j < |m| && env.key(m[j].payload) == k && m[j].payload == gen[k];
        assert m'[j] == m[j];
      }
    }
  }

  /** The request for an issued cursor carries that cursor, opened. */
  lemma RequestAt(env: Env, jobId: string, s: Spec, m: seq<Backfill.Row>, cursor: string, k: nat)
    requires EnvOk(env) && k <= |m| && (k == 0 ==> cursor == "") && (k > 0 ==> cursor == NextText(env, jobId, s, m, k))
    ensures var base := ProducerRequest(env, jobId, s, "");
            ProducerRequest(env, jobId, s, cursor)
            == base.(cursor := Backfill.CursorAt(base, m, k), limit := Backfill.MAX_LIMIT)
  {
    hide TimesRoundTrip;
  }

  /** What the producer answers for the next page: the rows after those already applied. */
  lemma FetchedPage(env: Env, jobId: string, s: Spec, rows: seq<Backfill.Row>, cursor: string, k: nat, page: Backfill.Page)
    requires EnvOk(env) && Backfill.IdsInOrder(rows)
    requires Backfill.PageOf(env.backfill, rows, ProducerRequest(env, jobId, s, cursor)) == Backfill.Ok(page)
    requires var m := InRangeRows(env, jobId, s, rows);
             k <= |m| && (k == 0 ==> cursor == "") && (k > 0 ==> cursor == NextText(env, jobId, s, m, k))
    ensures var m := InRangeRows(env, jobId, s, rows);
            var k' := k + |page.records|;
            && k' <= |m| && page.records == Backfill.Payloads(m[k..k'])
            && TextOf(env, page.nextCursor) == (if k' < |m| then NextText(env, jobId, s, m, k') else "")
            && (k < |m| ==> k < k')
  {
    hide Backfill.PageOf, Backfill.Matching, Backfill.RangeOf, ProducerRequest, EnvOk;
    var base := ProducerRequest(env, jobId, s, "");
    var m := InRangeRows(env, jobId, s, rows);
    var text := Backfill.CursorAt(base, m, k);
    RequestAt(env, jobId, s, m, cursor, k);
    Backfill.TurnDelivers(env.backfill, base, Backfill.Turn(rows, Backfill.MAX_LIMIT, page), text, k);
    var k' := k + |page.records|;
    assert page.records == Backfill.Payloads(m[..k'])[k..];
    assert Backfill.Payloads(m[k..k']) == Backfill.Payloads(m[..k'])[k..];
  }

  /** A later read of the producer leaves the store in order while the next page is still to come. */
  lemma ReadAgain(env: Env, jobId: string, db: Db, rows: seq<Backfill.Row>, r: Request)
    requires DbOk(env, jobId, db) && NextPage(db, r) && db.lastRead <= rows && Backfill.IdsInOrder(rows)
    requires db.cps != [] ==> db.cps[|db.cps| - 1].next != ""
    ensures DbOk(env, jobId, db.(lastRead := rows))
  {
    hide InRangeRows, ChainOk, GenOk, IdemOk, Find, NextText;
    var s, db' := db.job.value.spec, db.(lastRead := rows);
    var m, m' := InRange(env, jobId, s, db), InRange(env, jobId, s, db');
    RangeGrows(env, jobId, s, db, db');
    ChainGrows(env, jobId, s, m, m', db.cps);
    GenGrows(env, m, m', db.serving, db.gen, Upto(db.cps));
    forall x | x in db.idem ensures IdemOk(db', x, db.idem[x]) { IdemStays(db, db', x, db.idem[x]); }
  }

  /** The rows that were read are those after the applied ones. */
  lemma ReadPage(env: Env, jobId: string, db: Db, r: Request, page: Backfill.Page)
    requires EnvOk(env) && DbOk(env, jobId, db) && NextPage(db, r) && CursorOk(db, r.cursor)
    requires db.cps != [] ==> db.cps[|db.cps| - 1].next != ""
    requires Backfill.PageOf(env.backfill, db.lastRead, ProducerRequest(env, jobId, SpecOf(r), r.cursor)) == Backfill.Ok(page)
    ensures PageOk(env, jobId, db, r, page.records, TextOf(env, page.nextCursor), 0, PositionOf(db.cps, r.cursor) + |page.records|)
  {
    hide EnvOk, InRangeRows, CursorOk, IdemOk, Find, NextText, ProducerRequest, Backfill.PageOf;
    var s, k := SpecOf(r), Upto(db.cps);
    var m := InRange(env, jobId, s, db);
    NextIsLast(env, jobId, db, r);
    LastCursor(env, jobId, s, m, m, db.cps);
    FetchedPage(env, jobId, s, db.lastRead, r.cursor, k, page);
    FirstHeld(env, m, db.serving, db.gen, k);
  }

  lemma FetchingKeeps(env: Env, w: World, o: Owner)
    requires Inv(env, w) && w.owner == Some(o) && o.pc.Fetching?
    ensures Inv(env, FetchingStep(env, w, o))
  {
    hide SentOk, WellFormed, Backfill.PageOf, DbOk, EnvOk, ProducerRequest, CursorOk, PageOk, Find;
    AbandonKeeps(env, w);
    var w' := FetchingStep(env, w, o);
    var page := Backfill.PageOf(env.backfill, w.rows, ProducerRequest(env, w.jobId, SpecOf(o.req), o.req.cursor));
    NextIsLast(env, w.jobId, w.db, o.req);
    if page.Ok? && !(TextOf(env, page.value.nextCursor) != "" && TextOf(env, page.value.nextCursor) == o.req.cursor) {
      ReadAgain(env, w.jobId, w.db, w.rows, o.req);
      CursorStays(w.db, w'.db, o.req.cursor);
      ReadPage(env, w.jobId, w'.db, o.req, page.value);
      OwnerMoves(env, w, w');
    }
  }

  lemma FirstHeld(env: Env, m: seq<Backfill.Row>, g: Serving, gen: map<string, string>, n: nat)
    requires GenOk(env, m, g, gen, n)
    ensures n <= |m| && forall j :: 0 <= j < n ==> Holds(env, gen, m[j].payload)
  {}

  /** The last recorded page that was continued issued the cursor of the rows after it, also by a later read. */
  lemma LastCursor(env: Env, jobId: string, s: Spec, m: seq<Backfill.Row>, m': seq<Backfill.Row>, cps: seq<Checkpoint>)
    requires ChainOk(env, jobId, s, m, cps) && m <= m' && (cps != [] ==> cps[|cps| - 1].next != "")
    ensures cps == [] ==> Upto(cps) == 0
    ensures cps != [] ==> 0 < Upto(cps) < |m'| && cps[|cps| - 1].next == NextText(env, jobId, s, m', Upto(cps))
  {
    if cps != [] {
      assert CheckpointOk(env, jobId, s, m, cps, |cps| - 1);
      assert m[Upto(cps) - 1] == m'[Upto(cps) - 1];
    }
  }

  // ---- the page is recorded

  /** The page is the next link of the chain. */
  lemma ChainExtends(env: Env, jobId: string, s: Spec, m: seq<Backfill.Row>, cps: seq<Checkpoint>, c: Checkpoint)
    requires EnvOk(env) && ChainOk(env, jobId, s, m, cps) && c.topic == s.topic && c.index == |cps| && c.upto <= |m|
    requires c.cursor == (if cps == [] then "" else cps[|cps| - 1].next) && c.applied == c.upto - Upto(cps)
    requires cps != [] ==> cps[|cps| - 1].next != "" && cps[|cps| - 1].upto < c.upto
    requires c.next == (if c.upto < |m| then NextText(env, jobId, s, m, c.upto) else "") && (c.upto < |m| ==> 0 < c.upto)
    ensures ChainOk(env, jobId, s, m, cps + [c])
  {
    hide NextText, EnvOk;
    var all := cps + [c];
    if c.upto < |m| { NextTextNotEmpty(env, jobId, s, m, c.upto); }
    forall i | 0 <= i < |all| ensures CheckpointOk(env, jobId, s, m, all, i) {
      if i < |cps| { assert CheckpointOk(env, jobId, s, m, cps, i); }
    }
  }

  lemma ApplyingDoneKeeps(env: Env, w: World, o: Owner)
    requires Inv(env, w) && w.owner == Some(o) && o.pc.Applying? && o.pc.left == []
    ensures Inv(env, ApplyingStep(env, w, o))
  {
    hide EnvOk, SentOk, InRangeRows, WellFormed, NextText, Find, CursorOk, IdemOk, GenOk, ServingOk, IsClone, AllServed, Holds;
    hide ChainOk;
    var w' := ApplyingStep(env, w, o);
    var s := SpecOf(o.req);
    var m := InRange(env, w.jobId, s, w.db);
    HeldUpTo(env, m, w.db.serving, w.db.gen, Upto(w.db.cps), o.pc.upto);
    NextIsLast(env, w.jobId, w.db, o.req);
    SameRange(env, w.jobId, s, w.db, w'.db);
    var n := |w.db.cps|;
    ChainExtends(env, w.jobId, s, m, w.db.cps, w'.db.cps[n]);
    NotActive(w.db, o.req);
    forall x | x in w.db.idem ensures IdemOk(w'.db, x, w.db.idem[x]) { IdemStays(w.db, w'.db, x, w.db.idem[x]); }
    CursorStays(w.db, w'.db, o.req.cursor);
    assert Recorded(w'.db, n, w'.db.cps[n]);
    assert DbOk(env, w.jobId, w'.db);
    OwnerMoves(env, w, w');
  }

  lemma HeldUpTo(env: Env, m: seq<Backfill.Row>, g: Serving, gen: map<string, string>, n: nat, n': nat)
    requires GenOk(env, m, g, gen, n) && n' <= |m| && forall j :: 0 <= j < n' ==> Holds(env, gen, m[j].payload)
    ensures GenOk(env, m, g, gen, n')
  {}

  lemma NextTextNotEmpty(env: Env, jobId: string, s: Spec, m: seq<Backfill.Row>, k: int)
    requires EnvOk(env) && 0 < k <= |m|
    ensures NextText(env, jobId, s, m, k) != "" && Trimmed(NextText(env, jobId, s, m, k))
  {}

  /** While there is a next page, the generation is not active. */
  lemma NotActive(db: Db, r: Request)
    requires db.job.Some? && (r.cursor == "" ==> db.cps == []) && (r.cursor != "" ==> db.cps != [] && r.cursor == db.cps[|db.cps| - 1].next)
    ensures db.active && |db.cps| > 0 && db.cps[|db.cps| - 1].next == "" ==> false
  {}

  // ---- after a page

  /** When the recorded page is the last one, the activation checks pass. */
  lemma ChainIsContinuous(env: Env, jobId: string, s: Spec, m: seq<Backfill.Row>, cps: seq<Checkpoint>, i: int)
    requires ChainOk(env, jobId, s, m, cps) && 0 <= i < |cps| && cps[i].next == ""
    ensures i == |cps| - 1 && Continuous(cps)
  {
    hide NextText;
    assert forall j :: 0 <= j < |cps| ==> CheckpointOk(env, jobId, s, m, cps, j);
    assert i + 1 < |cps| ==> CheckpointOk(env, jobId, s, m, cps, i + 1);
    forall j | 0 <= j < |cps| ensures cps[j].index == j && (j > 0 ==> cps[j].cursor == cps[j - 1].next) && (j == 0 ==> cps[j].cursor == "") {
      assert CheckpointOk(env, jobId, s, m, cps, j);
    }
    ByPosition(cps);
  }

  lemma AppliedKeeps(env: Env, w: World, o: Owner, now: Time)
    requires Inv(env, w) && w.owner == Some(o) && o.pc.Applied?
    ensures Inv(env, AppliedStep(env, w, o, now))
  {
    hide Inv, AppliedStep;
    if o.pc.cp.next == "" { LastAppliedKeeps(env, w, o, now); } else { NextAppliedKeeps(env, w, o, now); }
  }

  lemma LastAppliedKeeps(env: Env, w: World, o: Owner, now: Time)
    requires Inv(env, w) && w.owner == Some(o) && o.pc.Applied? && o.pc.cp.next == ""
    ensures Inv(env, AppliedStep(env, w, o, now))
  {
    hide SentOk, InRangeRows, WellFormed, NextText, Find, GenOk, Continuous, EnvOk, Parse;
    var cp := o.pc.cp;
    var w' := AppliedStep(env, w, o, now);
    var i :| Recorded(w.db, i, cp) && Counted(w.db, i);
    var s := w.db.job.value.spec;
    SameRange(env, w.jobId, s, w.db, w'.db);
    CursorStays(w.db, w'.db, o.req.cursor);
    ChainIsContinuous(env, w.jobId, s, InRange(env, w.jobId, s, w.db), w.db.cps, i);
    assert Recorded(w'.db, i, cp) && Counted(w'.db, i);
    forall x | x in w.db.idem ensures IdemOk(w'.db, x, w.db.idem[x]) { IdemStays(w.db, w'.db, x, w.db.idem[x]); }
    OwnerMoves(env, w, w');
  }

  lemma NextAppliedKeeps(env: Env, w: World, o: Owner, now: Time)
    requires Inv(env, w) && w.owner == Some(o) && o.pc.Applied? && o.pc.cp.next != ""
    ensures Inv(env, AppliedStep(env, w, o, now))
  {
    hide SentOk, InRangeRows, WellFormed, NextText, Find, GenOk, Continuous, EnvOk, Parse;
    var cp := o.pc.cp;
    var w' := AppliedStep(env, w, o, now);
    var i :| Recorded(w.db, i, cp) && Counted(w.db, i);
    var s := w.db.job.value.spec;
    SameRange(env, w.jobId, s, w.db, w'.db);
    CursorStays(w.db, w'.db, o.req.cursor);
    var id := env.followUpId(o.req.jobId, o.req.topic, o.req.cursor);
    IdGood(env, o.req.jobId, o.req.topic, o.req.cursor);
    FollowUpOk(env, w, o.req, id, cp, i, now);
    forall x | x in w'.db.idem ensures IdemOk(w'.db, x, w'.db.idem[x]) {
      if x == (o.req.topic, o.req.cursor) {
        assert Counted(w'.db, i) && w'.db.cps[i] == cp;
      } else {
        IdemStays(w.db, w'.db, x, w.db.idem[x]);
      }
    }
    CursorStays(w.db, w'.db, cp.next);
    OwnerMoves(env, w, w');
  }

  lemma IdGood(env: Env, j: string, t: string, c: string)
    requires EnvOk(env)
    ensures env.followUpId(j, t, c) != "" && Trimmed(env.followUpId(j, t, c))
  {}

  /** A follow-up for a recorded page asks for the cursor that the page issued. */
  lemma FollowUpOk(env: Env, w: World, r: Request, id: string, cp: Checkpoint, i: int, now: Time)
    requires EnvOk(env) && DbOk(env, w.jobId, w.db) && RequestOk(w.jobId, w.db, r) && id != "" && Trimmed(id)
    requires Recorded(w.db, i, cp) && Counted(w.db, i) && cp.next != ""
    ensures var f := FollowUp(r, id, env.followUpId(r.jobId, r.topic, r.cursor), cp.next, now);
            RequestOk(w.jobId, w.db, f) && f.cursor != ""
  {
    hide Trimmed, InRangeRows, GenOk, IdemOk, ValidContextTopic, TimesRoundTrip;
    var s := w.db.job.value.spec;
    var m := InRange(env, w.jobId, s, w.db);
    assert CheckpointOk(env, w.jobId, s, m, w.db.cps, i);
    assert Trimmed(cp.next);
  }

  lemma CompletingKeeps(env: Env, w: World, o: Owner, now: Time)
    requires Inv(env, w) && w.owner == Some(o) && o.pc.Completing?
    ensures Inv(env, WorkStep(env, w, o, now))
  {
    hide EnvOk, SentOk, InRangeRows, WellFormed, NextText, GenOk, ChainOk, Find;
    var cp := o.pc.cp;
    var w' := WorkStep(env, w, o, now);
    var i :| Recorded(w.db, i, cp) && Counted(w.db, i);
    SameRange(env, w.jobId, w.db.job.value.spec, w.db, w'.db);
    forall x | x in w.db.idem ensures IdemOk(w'.db, x, w.db.idem[x]) { IdemStays(w.db, w'.db, x, w.db.idem[x]); }
    CursorStays(w.db, w'.db, o.req.cursor);
    assert Recorded(w'.db, i, cp) && Counted(w'.db, i);
    OwnerMoves(env, w, w');
  }

  lemma FinalizingKeeps(env: Env, w: World, o: Owner, now: Time)
    requires Inv(env, w) && w.owner == Some(o) && o.pc.Finalizing?
    ensures Inv(env, WorkStep(env, w, o, now))
  {
    hide EnvOk, SentOk, InRangeRows, WellFormed, NextText, GenOk, ChainOk, Find;
    var cp := o.pc.cp;
    var w' := WorkStep(env, w, o, now);
    var i :| Recorded(w.db, i, cp) && Counted(w.db, i);
    SameRange(env, w.jobId, w.db.job.value.spec, w.db, w'.db);
    forall x | x in w'.db.idem ensures IdemOk(w'.db, x, w'.db.idem[x]) {
      if x == (o.req.topic, o.req.cursor) {
        assert Counted(w'.db, i) && w'.db.cps[i] == cp;
      } else {
        IdemStays(w.db, w'.db, x, w.db.idem[x]);
      }
    }
    OwnerMoves(env, w, w');
  }

  /** A message that is added is one that the job may process. */
  lemma SendKeeps(env: Env, w: World, f: Fields, owner: Option<Owner>)
    requires Inv(env, w) && SentOk(env, w.jobId, w.db, f) && (owner.None? || owner == w.owner)
    ensures Inv(env, w.(sent := w.sent + {f}, owner := owner))
  {
    hide EnvOk, DbOk, SentOk, OwnerOk;
  }

  lemma EncodedSentOk(env: Env, w: World, r: Request)
    requires EnvOk(env) && RequestOk(w.jobId, w.db, r)
    ensures SentOk(env, w.jobId, w.db, Encode(env.clock, r))
  {
    hide WellFormed, CursorOk, Parse, Encode, TimesRoundTrip;
    EncodeRoundTrip(env.clock, r);
  }

  lemma PublishingKeeps(env: Env, w: World, o: Owner, now: Time)
    requires Inv(env, w) && w.owner == Some(o) && o.pc.Publishing?
    ensures Inv(env, WorkStep(env, w, o, now))
  {
    hide EnvOk, DbOk, SentOk, RequestOk, Encode;
    EncodedSentOk(env, w, o.pc.follow);
    SendKeeps(env, w, Encode(env.clock, o.pc.follow), None);
  }

  // ---- delivery

  /** No two checkpoints have the same cursor, so the one that is found is the one that was recorded. */
  lemma CursorsDistinct(env: Env, jobId: string, s: Spec, m: seq<Backfill.Row>, cps: seq<Checkpoint>, i: int, j: int)
    requires EnvOk(env) && ChainOk(env, jobId, s, m, cps) && Backfill.IdsInOrder(m) && 0 <= i < j < |cps|
    ensures cps[i].cursor != cps[j].cursor
  {
    hide NextText;
    assert CheckpointOk(env, jobId, s, m, cps, i) && CheckpointOk(env, jobId, s, m, cps, j);
    if i > 0 {
      assert CheckpointOk(env, jobId, s, m, cps, i - 1) && CheckpointOk(env, jobId, s, m, cps, j - 1);
      UptoGrows(env, jobId, s, m, cps, i - 1, j - 1);
      NextTextInjective(env, jobId, s, m, cps[i - 1].upto, cps[j - 1].upto);
    }
  }

  lemma {:induction false} UptoGrows(env: Env, jobId: string, s: Spec, m: seq<Backfill.Row>, cps: seq<Checkpoint>, i: int, j: int)
    requires ChainOk(env, jobId, s, m, cps) && 0 <= i < j < |cps|
    ensures cps[i].upto < cps[j].upto
    decreases j
  {
    hide NextText;
    assert CheckpointOk(env, jobId, s, m, cps, j);
    if i < j - 1 { UptoGrows(env, jobId, s, m, cps, i, j - 1); }
  }

  lemma NextTextInjective(env: Env, jobId: string, s: Spec, m: seq<Backfill.Row>, a: int, b: int)
    requires EnvOk(env) && Backfill.IdsInOrder(m) && 0 < a < b <= |m|
    ensures NextText(env, jobId, s, m, a) != NextText(env, jobId, s, m, b)
  {
    hide ProducerRequest;
    var base := ProducerRequest(env, jobId, s, "");
    var x, y := Backfill.CursorAt(base, m, a).cursor, Backfill.CursorAt(base, m, b).cursor;
    assert x.id != y.id;
    assert env.open(env.seal(x)) == Backfill.Sealed(x) && env.open(env.seal(y)) == Backfill.Sealed(y);
  }

  /** A page that was recorded as continued is found with its next cursor. */
  lemma ContinuedIsFound(env: Env, jobId: string, db: Db, k: (string, string))
    requires EnvOk(env) && DbOk(env, jobId, db) && k in db.idem && db.idem[k].FollowUpPublished?
    ensures var cp := Find(db.cps, k.0, k.1);
            cp.Some? && cp.value.next != "" && exists i :: Recorded(db, i, cp.value) && Counted(db, i)
    ensures db.idem[k].eventId != "" && Trimmed(db.idem[k].eventId)
  {
    hide InRangeRows, NextText, GenOk, ChainOk, Find, EnvOk, Trimmed;
    assert IdemOk(db, k, db.idem[k]);
    var i :| Counted(db, i) && db.cps[i].topic == k.0 && db.cps[i].cursor == k.1 && db.cps[i].next != "";
    FindFinds(db.cps, k.0, k.1);
    var cp := Find(db.cps, k.0, k.1);
    var j :| 0 <= j < |db.cps| && db.cps[j] == cp.value && cp.value.cursor == k.1;
    var s := db.job.value.spec;
    var m := InRange(env, jobId, s, db);
    RangeInOrder(env, jobId, s, db);
    if i < j { CursorsDistinct(env, jobId, s, m, db.cps, i, j); }
    if j < i { CursorsDistinct(env, jobId, s, m, db.cps, j, i); }
    assert Recorded(db, i, cp.value);
  }

  lemma RangeInOrder(env: Env, jobId: string, s: Spec, db: Db)
    requires Backfill.IdsInOrder(db.lastRead)
    ensures Backfill.IdsInOrder(InRange(env, jobId, s, db))
  {
    Backfill.MatchingMembers(db.lastRead, Backfill.RangeOf(env.backfill, ProducerRequest(env, jobId, s, "")));
  }

  lemma RedeliverKeeps(env: Env, w: World, f: Fields, now: Time)
    requires Inv(env, w)
    ensures Inv(env, RedeliverStep(env, w, f, now))
  {
    hide EnvOk, DbOk, OwnerOk, Find, Parse, Encode, WellFormed, CursorOk, Trimmed;
    if f in w.sent {
      assert SentOk(env, w.jobId, w.db, f);
      var req := Parse(env.clock, f).value;
      var k := (req.topic, req.cursor);
      if k in w.db.idem && w.db.idem[k].FollowUpPublished? {
        ContinuedIsFound(env, w.jobId, w.db, k);
        var id, cp := w.db.idem[k].eventId, Find(w.db.cps, req.topic, req.cursor).value;
        var i :| Recorded(w.db, i, cp) && Counted(w.db, i);
        FollowUpOk(env, w, req, id, cp, i, now);
        var follow := FollowUp(req, id, env.followUpId(req.jobId, req.topic, req.cursor), cp.next, now);
        assert follow.(eventId := id) == follow;
        EncodedSentOk(env, w, follow);
        SendKeeps(env, w, Encode(env.clock, follow), w.owner);
      }
    }
  }

  lemma AcquireKeeps(env: Env, w: World, f: Fields)
    requires Inv(env, w) && f in w.sent && ForJob(env, w.jobId, f)
    ensures Inv(env, w.(owner := Some(Owner(Parse(env.clock, f).value, Leased))))
  {
    hide EnvOk, DbOk, Parse, WellFormed, CursorOk;
    assert SentOk(env, w.jobId, w.db, f);
  }

  lemma SubmitKeeps(env: Env, w: World, f: Fields)
    requires Inv(env, w) && ForJob(env, w.jobId, f) && Parse(env.clock, f).value.cursor == ""
    ensures Inv(env, w.(sent := w.sent + {f}))
  {
    hide EnvOk, DbOk, OwnerOk, Parse, WellFormed;
    ParsedIsWellFormed(env.clock, f);
    SendKeeps(env, w, f, w.owner);
  }

  lemma AppendRowKeeps(env: Env, w: World, row: Backfill.Row)
    requires Inv(env, w) && Appendable(w.rows, row)
    ensures Inv(env, w.(rows := w.rows + [row]))
  {
    hide EnvOk, DbOk, SentOk, OwnerOk;
  }

  /** The generations grow by a live record. */
  lemma InsertedOk(env: Env, m: seq<Backfill.Row>, g: Serving, g': Serving, gen: map<string, string>, n: nat, p: string)
    requires GenOk(env, m, g, gen, n) && g'.base == g.base && g'.lives == g.lives + {p}
    ensures GenOk(env, m, g', gen, n) && GenOk(env, m, g', Insert(env, gen, p), n)
    ensures IsClone(g, gen) ==> IsClone(g', gen) && IsClone(g', Insert(env, gen, p))
    ensures AllServed(env, g, gen) ==> AllServed(env, g', gen) && AllServed(env, g', Insert(env, gen, p))
    ensures forall x :: Holds(env, gen, x) ==> Holds(env, Insert(env, gen, p), x)
  {
    hide FromRow;
  }

  lemma ServedOk(env: Env, g: Serving, p: string)
    requires ServingOk(env, g)
    ensures var g' := g.(lives := g.lives + {p});
            ServingOk(env, g') && ServingOk(env, g'.(current := Insert(env, g'.current, p)))
  {}

  /** Live writes do not disturb the lease holder. */
  lemma OwnerStays(env: Env, jobId: string, db: Db, db': Db, o: Owner)
    requires OwnerOk(env, jobId, db, o) && db' == db.(serving := db'.serving, gen := db'.gen)
    requires IsClone(db.serving, db.gen) ==> IsClone(db'.serving, db'.gen)
    requires forall x :: Holds(env, db.gen, x) ==> Holds(env, db'.gen, x)
    ensures OwnerOk(env, jobId, db', o)
  {
    hide WellFormed, InRangeRows, Holds, IsClone, NextText, Find, CursorOk;
    CursorStays2(db, db', o.req.cursor);
    if o.pc.Publishing? { CursorStays2(db, db', o.pc.follow.cursor); }
    match o.pc {
      case Reconciling(cp) => RecordStays(db, db', cp);
      case Applied(cp) => RecordStays(db, db', cp);
      case Completing(cp) => RecordStays(db, db', cp);
      case Finalizing(cp) => RecordStays(db, db', cp);
      case _ =>
    }
  }

  lemma CursorStays2(db: Db, db': Db, cursor: string)
    requires db' == db.(serving := db'.serving, gen := db'.gen)
    ensures CursorOk(db, cursor) ==> CursorOk(db', cursor)
  {
    if CursorOk(db, cursor) { CursorStays(db, db', cursor); }
  }

  lemma RecordStays(db: Db, db': Db, cp: Checkpoint)
    requires db' == db.(serving := db'.serving, gen := db'.gen)
    ensures (exists i :: Recorded(db, i, cp)) ==> exists i :: Recorded(db', i, cp)
    ensures (exists i :: Recorded(db, i, cp) && Counted(db, i)) ==> exists i :: Recorded(db', i, cp) && Counted(db', i)
  {
    if i :| Recorded(db, i, cp) && Counted(db, i) {
      assert Recorded(db', i, cp) && Counted(db', i);
    }
    if i :| Recorded(db, i, cp) {
      assert Recorded(db', i, cp);
    }
  }

  lemma LiveKeeps(env: Env, w: World, p: string, building: bool)
    requires Inv(env, w)
    ensures Inv(env, LiveStep(env, w, p, building))
  {
    hide EnvOk, SentOk, InRangeRows, GenOk, ServingOk, IsClone, AllServed, OwnerOk, ChainOk, IdemOk, Insert, Holds;
    var w' := LiveStep(env, w, p, building);
    ServedOk(env, w.db.serving, p);
    if w.db.job.Some? {
      var s := w.db.job.value.spec;
      SameRange(env, w.jobId, s, w.db, w'.db);
      InsertedOk(env, InRange(env, w.jobId, s, w.db), w.db.serving, w'.db.serving, w.db.gen, Upto(w.db.cps), p);
      forall k | k in w.db.idem ensures IdemOk(w'.db, k, w.db.idem[k]) { IdemStays(w.db, w'.db, k, w.db.idem[k]); }
    }
    assert IsClone(w.db.serving, w.db.gen) ==> IsClone(w'.db.serving, w'.db.gen) by {
      InsertedClone(env, w.db.serving, w'.db.serving, w.db.gen, p);
    }
    if w.owner.Some? { OwnerStays(env, w.jobId, w.db, w'.db, w.owner.value); }
    OwnerMoves(env, w, w');
  }

  lemma InsertedClone(env: Env, g: Serving, g': Serving, gen: map<string, string>, p: string)
    requires g'.base == g.base && g.lives <= g'.lives
    ensures IsClone(g, gen) ==> IsClone(g', gen) && IsClone(g', Insert(env, gen, p))
  {}

  lemma StepKeeps(env: Env, w: World, l: Label)
    requires Inv(env, w)
    ensures Inv(env, Step(env, w, l))
  {
    hide MarkingStep, LiveStep;
    hide Inv, RedeliverStep, Parse, Appendable, LeasedStep, EnsuringStep, FetchingStep, ApplyingStep, ReconcilingStep, AppliedStep, Encode;
    match l {
      case AppendRow(row) => if Appendable(w.rows, row) { AppendRowKeeps(env, w, row); }
      case Submit(f) => if ForJob(env, w.jobId, f) && Parse(env.clock, f).value.cursor == "" { SubmitKeeps(env, w, f); }
      case Redeliver(f, now) => RedeliverKeeps(env, w, f, now);
      case Acquire(f) => if f in w.sent && ForJob(env, w.jobId, f) { AcquireKeeps(env, w, f); }
      case LiveWrite(p, building) => LiveKeeps(env, w, p, building);
      case Drop => AbandonKeeps(env, w);
      case Work(now) =>
        if w.owner.Some? {
          var o := w.owner.value;
          match o.pc {
            case Leased => LeasedKeeps(env, w, o);
            case Ensuring => EnsuringKeeps(env, w, o);
            case Marking => MarkingKeeps(env, w, o);
            case Fetching => FetchingKeeps(env, w, o);
            case Applying(left, _, _, _) => if left == [] { ApplyingDoneKeeps(env, w, o); } else { ApplyingRecordKeeps(env, w, o); }
            case Reconciling(_) => ReconcilingKeeps(env, w, o);
            case Applied(_) => AppliedKeeps(env, w, o, now);
            case Completing(_) => CompletingKeeps(env, w, o, now);
            case Finalizing(_) => FinalizingKeeps(env, w, o, now);
            case Publishing(_) => PublishingKeeps(env, w, o, now);
          }
        }
    }
  }

  lemma {:induction false} RunKeeps(env: Env, jobId: string, base: map<string, string>, ls: seq<Label>)
    requires EnvOk(env)
    ensures Inv(env, Run(env, Start(jobId, base), ls)) && Run(env, Start(jobId, base), ls).jobId == jobId
    decreases |ls|
  {
    hide EnvOk, Inv, Step;
    if ls == [] {
      StartOk(env, jobId, base);
    } else {
      RunKeeps(env, jobId, base, ls[..|ls| - 1]);
      StepKeeps(env, Run(env, Start(jobId, base), ls[..|ls| - 1]), ls[|ls| - 1]);
      JobFixed(env, Run(env, Start(jobId, base), ls[..|ls| - 1]), ls[|ls| - 1]);
    }
  }

  lemma StartOk(env: Env, jobId: string, base: map<string, string>)
    requires EnvOk(env)
    ensures Inv(env, Start(jobId, base))
  {
    hide EnvOk;
  }

  lemma JobFixed(env: Env, w: World, l: Label)
    ensures Step(env, w, l).jobId == w.jobId
  {
    hide Parse, Encode, Backfill.PageOf, Continuous;
  }

  // ---- what follows for every run

  /** The record is that of an in-range row that the last read saw. */
  ghost predicate FromRange(env: Env, range: Backfill.Query, rows: seq<Backfill.Row>, k: string, payload: string)
  {
    exists r :: r in rows && Backfill.InRange(range, r) && env.key(r.payload) == k && r.payload == payload
  }

  /** The generation holds the record of each in-range row that the last read saw, under its key; every key that was served
      when the run started, with its record or a live one; and nothing that is not an in-range record, was not served, and
      did not come with a live event. */
  ghost predicate Rebuilt(env: Env, jobId: string, db: Db)
  {
    db.job.Some? &&
    var range := Backfill.RangeOf(env.backfill, ProducerRequest(env, jobId, db.job.value.spec, ""));
    && (forall r :: r in db.lastRead && Backfill.InRange(range, r) ==> Holds(env, db.gen, r.payload))
    && (forall k :: k in db.gen ==>
          FromServing(env, db.serving, k, db.gen[k]) || FromRange(env, range, db.lastRead, k, db.gen[k]))
    && IsClone(db.serving, db.gen)
  }

  /** The generation holds the in-range records, each under its key, and nothing else. */
  ghost predicate Exact(env: Env, jobId: string, db: Db)
  {
    db.job.Some? &&
    var range := Backfill.RangeOf(env.backfill, ProducerRequest(env, jobId, db.job.value.spec, ""));
    && (forall r :: r in db.lastRead && Backfill.InRange(range, r) ==> Holds(env, db.gen, r.payload))
    && (forall k :: k in db.gen ==> FromRange(env, range, db.lastRead, k, db.gen[k]))
  }

  lemma ActiveIsRebuilt(env: Env, w: World)
    requires Inv(env, w) && w.db.active
    ensures Rebuilt(env, w.jobId, w.db) && w.db.lastRead <= w.rows
    ensures w.db.serving.base == map[] && w.db.serving.lives == {} ==> Exact(env, w.jobId, w.db)
  {
    hide EnvOk, SentOk, OwnerOk, IdemOk, NextText, Backfill.InRange, ServingOk, IsClone, FromServing;
    var db := w.db;
    var s := db.job.value.spec;
    var m, n := InRange(env, w.jobId, s, db), |db.cps|;
    var range := Backfill.RangeOf(env.backfill, ProducerRequest(env, w.jobId, s, ""));
    assert CheckpointOk(env, w.jobId, s, m, db.cps, n - 1);
    Backfill.MatchingMembers(db.lastRead, range);
    forall k, p ensures FromRow(env, m, k, p) ==> FromRange(env, range, db.lastRead, k, p) {
      RowInRange(env, range, db.lastRead, m, k, p);
    }
    assert Rebuilt(env, w.jobId, db);
    if db.serving.base == map[] && db.serving.lives == {} { NothingServed(env, w.jobId, db); }
  }

  lemma RowInRange(env: Env, range: Backfill.Query, rows: seq<Backfill.Row>, m: seq<Backfill.Row>, k: string, p: string)
    requires forall r :: r in m ==> r in rows && Backfill.InRange(range, r)
    ensures FromRow(env, m, k, p) ==> FromRange(env, range, rows, k, p)
  {
    hide Backfill.InRange;
    if FromRow(env, m, k, p) {
      var j :| 0 <= j < |m| && env.key(m[j].payload) == k && m[j].payload == p;
      assert m[j] in m;
    }
  }

  lemma NothingServed(env: Env, jobId: string, db: Db)
    requires Rebuilt(env, jobId, db) && db.serving.base == map[] && db.serving.lives == {}
    ensures Exact(env, jobId, db)
  {
    hide Backfill.InRange, FromRange, Backfill.RangeOf;
  }

  /** A live event of the run carried this record. */
  predicate WasWritten(ls: seq<Label>, p: string) { exists i :: 0 <= i < |ls| && ls[i].LiveWrite? && ls[i].payload == p }

  /** In every run: when the generation is activated, it is rebuilt; and it is exact when nothing was served and no live
      event was written. */
  lemma ActivatedIsExact(env: Env, jobId: string, base: map<string, string>, ls: seq<Label>)
    requires EnvOk(env) && Run(env, Start(jobId, base), ls).db.active
    ensures var w := Run(env, Start(jobId, base), ls);
            && Rebuilt(env, jobId, w.db) && w.db.lastRead <= w.rows
            && w.db.serving.base == base && (forall p :: p in w.db.serving.lives ==> WasWritten(ls, p))
            && (base == map[] && (forall p :: !WasWritten(ls, p)) ==> Exact(env, jobId, w.db))
  {
    hide Inv, Exact, Rebuilt, WasWritten;
    RunKeeps(env, jobId, base, ls);
    ServingFrom(env, jobId, base, ls);
    var w := Run(env, Start(jobId, base), ls);
    ActiveIsRebuilt(env, w);
    if forall p :: !WasWritten(ls, p) {
      assert forall p :: p !in w.db.serving.lives;
    }
  }

  lemma {:induction false} ServingFrom(env: Env, jobId: string, base: map<string, string>, ls: seq<Label>)
    ensures var g := Run(env, Start(jobId, base), ls).db.serving;
            g.base == base && forall p :: p in g.lives ==> WasWritten(ls, p)
    decreases |ls|
  {
    hide Step, WasWritten;
    if ls != [] {
      var before, l := ls[..|ls| - 1], ls[|ls| - 1];
      ServingFrom(env, jobId, base, before);
      StepServes(env, Run(env, Start(jobId, base), before), l);
      forall p ensures (WasWritten(before, p) ==> WasWritten(ls, p)) && (l.LiveWrite? && l.payload == p ==> WasWritten(ls, p)) {
        WrittenLater(ls, p);
      }
    }
  }

  lemma WrittenLater(ls: seq<Label>, p: string)
    requires ls != []
    ensures WasWritten(ls[..|ls| - 1], p) ==> WasWritten(ls, p)
    ensures ls[|ls| - 1].LiveWrite? && ls[|ls| - 1].payload == p ==> WasWritten(ls, p)
  {
    if WasWritten(ls[..|ls| - 1], p) {
      var i :| 0 <= i < |ls| - 1 && ls[..|ls| - 1][i].LiveWrite? && ls[..|ls| - 1][i].payload == p;
      assert ls[i].LiveWrite? && ls[i].payload == p;
    }
  }

  lemma StepServes(env: Env, w: World, l: Label)
    ensures var g, g' := w.db.serving, Step(env, w, l).db.serving;
            g'.base == g.base && g'.lives <= g.lives + if l.LiveWrite? then {l.payload} else {}
  {
    hide Parse, Encode, WorkStep;
    if l.Work? && w.owner.Some? { WorkServes(env, w, w.owner.value, l.now); }
  }

  lemma WorkServes(env: Env, w: World, o: Owner, now: Time)
    ensures WorkStep(env, w, o, now).db.serving == w.db.serving
  {
    hide Encode, LeasedStep, EnsuringStep, FetchingStep, ApplyingStep, AppliedStep, ReconcilingStep, MarkingStep;
    MiddleServes(w, o);
    assert LeasedStep(w, o).db.serving == w.db.serving && EnsuringStep(w, o).db.serving == w.db.serving by { EarlyServe(w, o); }
    assert FetchingStep(env, w, o).db.serving == w.db.serving by { FetchingServes(env, w, o); }
    if o.pc.Applying? { ApplyingServes(env, w, o); }
    if o.pc.Applied? { AppliedServes(env, w, o, now); }
  }

  lemma MiddleServes(w: World, o: Owner)
    ensures MarkingStep(w, o).db.serving == w.db.serving
    ensures o.pc.Reconciling? ==> ReconcilingStep(w, o).db.serving == w.db.serving
  {
    hide Reconcile;
  }

  lemma EarlyServe(w: World, o: Owner)
    ensures LeasedStep(w, o).db.serving == w.db.serving && EnsuringStep(w, o).db.serving == w.db.serving
  {
    hide Find, Cloned;
  }

  lemma FetchingServes(env: Env, w: World, o: Owner)
    ensures FetchingStep(env, w, o).db.serving == w.db.serving
  {
    hide Backfill.PageOf, ProducerRequest, TextOf;
  }

  lemma ApplyingServes(env: Env, w: World, o: Owner)
    requires o.pc.Applying?
    ensures ApplyingStep(env, w, o).db.serving == w.db.serving
  {}

  lemma AppliedServes(env: Env, w: World, o: Owner, now: Time)
    requires o.pc.Applied?
    ensures AppliedStep(env, w, o, now).db.serving == w.db.serving
  {
    hide Continuous;
  }

  // ---- progress

  function SumApplied(cps: seq<Checkpoint>): nat
  {
    if cps == [] then 0 else SumApplied(cps[..|cps| - 1]) + cps[|cps| - 1].applied
  }

  lemma {:induction false} SumIsUpto(env: Env, jobId: string, s: Spec, m: seq<Backfill.Row>, cps: seq<Checkpoint>, k: nat)
    requires ChainOk(env, jobId, s, m, cps) && k <= |cps|
    ensures SumApplied(cps[..k]) == if k == 0 then 0 else cps[k - 1].upto
    decreases k
  {
    hide NextText;
    if k > 0 {
      SumIsUpto(env, jobId, s, m, cps, k - 1);
      assert cps[..k][..k - 1] == cps[..k - 1];
      assert CheckpointOk(env, jobId, s, m, cps, k - 1);
    }
  }

  /** The counters say what the first pages applied, each page once, and the two cursors are those of one of these pages. */
  ghost predicate CountsOnce(job: Job, cps: seq<Checkpoint>)
  {
    && job.pages <= |cps| && job.accepted == SumApplied(cps[..job.pages])
    && (job.pages > 0 ==> exists i :: 0 <= i < job.pages && cps[i].cursor == job.lastCursor && cps[i].next == job.nextCursor)
  }

  /** In every run, however often a page is delivered, taken over or reconciled again: every page is counted once, at most the
      last one is not counted yet, and when the job is active all are, and their records are the in-range rows, one each. */
  lemma ProgressIsExact(env: Env, jobId: string, base: map<string, string>, ls: seq<Label>)
    requires EnvOk(env) && Run(env, Start(jobId, base), ls).db.job.Some?
    ensures var db := Run(env, Start(jobId, base), ls).db;
            && CountsOnce(db.job.value, db.cps) && |db.cps| <= db.job.value.pages + 1
            && (db.active ==>
                  && db.job.value.pages == |db.cps|
                  && db.job.value.accepted == |InRangeRows(env, jobId, db.job.value.spec, db.lastRead)|)
  {
    hide EnvOk, Step, SentOk, OwnerOk, IdemOk, GenOk, ServingOk, IsClone, AllServed, NextText, InRangeRows;
    RunKeeps(env, jobId, base, ls);
    var db := Run(env, Start(jobId, base), ls).db;
    var s := db.job.value.spec;
    var m := InRange(env, jobId, s, db);
    SumIsUpto(env, jobId, s, m, db.cps, db.job.value.pages);
    if db.active { assert CheckpointOk(env, jobId, s, m, db.cps, |db.cps| - 1); }
  }

  // ---- nothing is lost

  predicate Kept(a: map<string, string>, b: map<string, string>) { forall k :: k in a ==> k in b && b[k] == a[k] }

  predicate AllKept(db: Db, db': Db) { Kept(db.gen, db'.gen) && Kept(db.serving.current, db'.serving.current) }

  lemma StepKeepsRecords(env: Env, w: World, l: Label)
    ensures AllKept(w.db, Step(env, w, l).db)
  {
    hide Parse, Encode, WorkStep;
    if l.Work? && w.owner.Some? { WorkKeepsRecords(env, w, w.owner.value, l.now); }
  }

  lemma WorkKeepsRecords(env: Env, w: World, o: Owner, now: Time)
    ensures AllKept(w.db, WorkStep(env, w, o, now).db)
  {
    hide Encode, LeasedStep, EnsuringStep, FetchingStep, ApplyingStep, AppliedStep, ReconcilingStep, MarkingStep, Kept;
    assert forall a :: Kept(a, a) by { SameIsKept(); }
    match o.pc {
      case Ensuring => EnsuringKeepsRecords(w, o);
      case Fetching => FetchingKeepsRecords(env, w, o);
      case Applying(_, _, _, _) => ApplyingKeepsRecords(env, w, o);
      case Applied(_) => AppliedKeepsRecords(env, w, o, now);
      case _ => OthersKeepRecords(w, o);
    }
  }

  lemma SameIsKept()
    ensures forall a :: Kept(a, a)
  {}

  lemma EnsuringKeepsRecords(w: World, o: Owner)
    ensures AllKept(w.db, EnsuringStep(w, o).db)
  {
    hide Find;
  }

  lemma FetchingKeepsRecords(env: Env, w: World, o: Owner)
    ensures AllKept(w.db, FetchingStep(env, w, o).db)
  {
    hide Backfill.PageOf, ProducerRequest, TextOf;
  }

  lemma ApplyingKeepsRecords(env: Env, w: World, o: Owner)
    requires o.pc.Applying?
    ensures AllKept(w.db, ApplyingStep(env, w, o).db)
  {}

  lemma AppliedKeepsRecords(env: Env, w: World, o: Owner, now: Time)
    requires o.pc.Applied?
    ensures AllKept(w.db, AppliedStep(env, w, o, now).db)
  {
    hide Continuous;
  }

  lemma OthersKeepRecords(w: World, o: Owner)
    ensures AllKept(w.db, LeasedStep(w, o).db) && AllKept(w.db, MarkingStep(w, o).db)
    ensures o.pc.Reconciling? ==> AllKept(w.db, ReconcilingStep(w, o).db)
  {
    hide Find, Reconcile;
  }

  lemma {:induction false} RunKeepsRecords(env: Env, w: World, ls: seq<Label>)
    ensures AllKept(w.db, Run(env, w, ls).db)
    decreases |ls|
  {
    hide Step;
    if ls != [] {
      RunKeepsRecords(env, w, ls[..|ls| - 1]);
      StepKeepsRecords(env, Run(env, w, ls[..|ls| - 1]), ls[|ls| - 1]);
    }
  }

  /** A live event stays under its key in each generation that it was written to, whatever happens afterwards: it is there with
      its own payload, or with that of the record which was there first. */
  lemma LiveEventsStay(env: Env, w: World, p: string, building: bool, ls: seq<Label>)
    requires !w.quarantined && (building ==> w.db.job.Some?)
    ensures var db := Run(env, Step(env, w, LiveWrite(p, building)), ls).db;
            var (before, after) := if building then (w.db.gen, db.gen) else (w.db.serving.current, db.serving.current);
            env.key(p) in after && after[env.key(p)] == if env.key(p) in before then before[env.key(p)] else p
  {
    RunKeepsRecords(env, Step(env, w, LiveWrite(p, building)), ls);
  }

  /** In every run: no page that was recorded as continued is without its next cursor, no activation check fails, and every
      message asks for the empty cursor or for one on the chain that starts there, with all earlier pages applied. */
  lemma EveryCursorIsOnTheChain(env: Env, jobId: string, base: map<string, string>, ls: seq<Label>, f: Fields)
    requires EnvOk(env) && f in Run(env, Start(jobId, base), ls).sent
    ensures var w := Run(env, Start(jobId, base), ls);
            && !w.orphan && !w.gap
            && Parse(env.clock, f).Some?
            && var cursor := Parse(env.clock, f).value.cursor;
            cursor == "" || (w.db.job.Some? && exists i :: OnChain(env, w.jobId, w.db, cursor, i))
  {
    hide EnvOk, Step, Parse, OwnerOk, IdemOk, NextText, WellFormed, InRangeRows;
    RunKeeps(env, jobId, base, ls);
    var w := Run(env, Start(jobId, base), ls);
    assert SentOk(env, w.jobId, w.db, f);
    var cursor := Parse(env.clock, f).value.cursor;
    if cursor != "" {
      var i :| Counted(w.db, i) && w.db.cps[i].next == cursor;
      ChainUpTo(env, w.jobId, w.db, i);
    }
  }

  lemma ChainUpTo(env: Env, jobId: string, db: Db, i: int)
    requires DbOk(env, jobId, db) && Counted(db, i)
    ensures OnChain(env, jobId, db, db.cps[i].next, i)
  {
    hide NextText, InRange, InRangeRows, IdemOk, ChainOk, CheckpointOk, StartsAtLink, Holds;
    var s, n := db.job.value.spec, |db.cps|;
    var m := InRange(env, jobId, s, db);
    forall k | 0 <= k <= i ensures db.cps[k].upto <= |m| && StartsAtLink(db.cps, k) { Linked(env, jobId, s, m, db.cps, k); }
    if i < n - 1 { UptoGrows(env, jobId, s, m, db.cps, i, n - 1); }
  }

  lemma Linked(env: Env, jobId: string, s: Spec, m: seq<Backfill.Row>, cps: seq<Checkpoint>, k: int)
    requires ChainOk(env, jobId, s, m, cps) && 0 <= k < |cps|
    ensures cps[k].upto <= |m| && StartsAtLink(cps, k)
  {
    hide NextText;
    assert CheckpointOk(env, jobId, s, m, cps, k);
  }

  /** Page k was asked for with the cursor that page k - 1 issued, page 0 with the empty one. */
  predicate StartsAtLink(cps: seq<Checkpoint>, k: int)
    requires 0 <= k < |cps|
  {
    cps[k].cursor == if k == 0 then "" else cps[k - 1].next
  }

  /** The cursor is the one that page i issued; the pages link back to the empty cursor, and their rows are applied. */
  ghost predicate OnChain(env: Env, jobId: string, db: Db, cursor: string, i: int)
    requires db.job.Some?
  {
    var m := InRange(env, jobId, db.job.value.spec, db);
    && 0 <= i < |db.cps| && db.cps[i].next == cursor && db.cps[i].upto <= |m|
    && (forall k :: 0 <= k <= i ==> StartsAtLink(db.cps, k))
    && (forall j :: 0 <= j < db.cps[i].upto ==> Holds(env, db.gen, m[j].payload))
  }
}
