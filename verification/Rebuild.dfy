/** The paged rebuild of one recovery job (analytics/src/kafka_rebuild_consumer.go, store/recovery.go), fed by Ranking's
    backfill pages. Messages may be delivered any number of times, in any order, by any worker, and a worker may crash
    between any two durable writes. The store lets only the holder of the job's lease write. */
module Rebuild {
  import opened Common
  import opened Spaces
  import opened RebuildMessage
  import Backfill

  datatype Env = Env(clock: Clock, backfill: Backfill.Env, seal: Backfill.Cursor -> string, open: string -> Backfill.CursorText,
                     followUpId: (string, string, string) -> string, key: string -> string)

  /** Sealed cursors open again; neither they nor the follow-up ids are empty or padded. */
  ghost predicate EnvOk(env: Env)
  {
    && TimesRoundTrip(env.clock)
    && (forall c :: env.open(env.seal(c)) == Backfill.Sealed(c) && env.seal(c) != "" && Trimmed(env.seal(c)))
    && (forall j, t, c :: env.followUpId(j, t, c) != "" && Trimmed(env.followUpId(j, t, c)))
  }

  // ---- the durable store

  /** What a job must keep on every page. */
  datatype Spec = Spec(context: string, topic: string, fromCp: string, toCp: string, fromAt: Time, toAt: Time, hasCp: bool, hasAt: bool)

  function SpecOf(r: Request): Spec { Spec(r.context, r.topic, r.fromCp, r.toCp, r.fromAt, r.toAt, r.hasCp, r.hasAt) }

  datatype Status = Initializing | Building | Complete

  datatype Job = Job(spec: Spec, status: Status, pages: nat, accepted: nat, lastCursor: string, nextCursor: string)

  /** One page checkpoint. upto counts the in-range rows that were applied up to and with this page. */
  datatype Checkpoint = Checkpoint(topic: string, cursor: string, index: nat, next: string, applied: nat, upto: nat)

  datatype Disposition = FollowUpPublished(eventId: string) | Finalized

  /** The generation that readers see: base holds its records when the run starts, current those that it holds by now, and
      lives is what live events carried. A generation maps the idempotency key of a record to its payload. */
  datatype Serving = Serving(base: map<string, string>, current: map<string, string>, lives: set<string>)

  /** gen is the generation of the job; lastRead is what the last producer read saw. */
  datatype Db = Db(job: Option<Job>, cps: seq<Checkpoint>, idem: map<(string, string), Disposition>,
                   gen: map<string, string>, active: bool, lastRead: seq<Backfill.Row>, serving: Serving)

  /** applyToGeneration: the first record under a key stays. */
  function Insert(env: Env, gen: map<string, string>, payload: string): map<string, string>
  {
    if env.key(payload) in gen then gen else gen[env.key(payload) := payload]
  }

  /** CloneActiveGenerationInto: records that the new generation has already are newer than cloned ones, and stay. */
  function Cloned(gen: map<string, string>, from: map<string, string>): map<string, string>
  {
    map k | k in gen.Keys + from.Keys :: if k in gen then gen[k] else from[k]
  }

  function Find(cps: seq<Checkpoint>, topic: string, cursor: string): Option<Checkpoint>
  {
    if cps == [] then None
    else if cps[0].topic == topic && cps[0].cursor == cursor then Some(cps[0])
    else Find(cps[1..], topic, cursor)
  }

  /** AssertRecoveryJobAcceptsPage. */
  predicate AcceptsPage(status: Status, hasCheckpoint: bool) { status != Complete || hasCheckpoint }

  /** ReconcileJobProgressFromCheckpoint: counters advance once per page index. */
  function Reconcile(job: Job, cp: Checkpoint): Job
  {
    var counted := if job.pages < cp.index + 1 then job.(accepted := job.accepted + cp.applied, pages := cp.index + 1) else job;
    counted.(lastCursor := cp.cursor, nextCursor := cp.next,
             status := if job.status == Initializing then Building else job.status)
  }

  /** The pages by index; of several with one index the last one counts. */
  function ByIndex(pages: seq<Checkpoint>): map<nat, Checkpoint>
  {
    if pages == [] then map[] else ByIndex(pages[..|pages| - 1])[pages[|pages| - 1].index := pages[|pages| - 1]]
  }

  predicate LinkAt(m: map<nat, Checkpoint>, k: nat)
  {
    k in m && if k == 0 then m[k].cursor == "" else k - 1 in m && m[k].cursor == m[k - 1].next
  }

  /** Pages 0 to n - 1 link from the empty cursor to a last page without a next one. */
  predicate Linked(m: map<nat, Checkpoint>, n: nat)
    requires n > 0
  {
    && (forall k: nat :: k < n ==> k in m)
    && (forall k: nat :: k < n ==> LinkAt(m, k))
    && m[n - 1].next == ""
  }

  /** Indexes without holes, and links without gaps. */
  predicate Continuous(pages: seq<Checkpoint>)
  {
    pages != [] && (forall i :: 0 <= i < |pages| ==> pages[i].index < |pages|) && Linked(ByIndex(pages), |pages|)
  }

  lemma {:induction false} ByIndexMembers(pages: seq<Checkpoint>)
    ensures forall k :: k in ByIndex(pages) <==> exists i :: 0 <= i < |pages| && pages[i].index == k
  {
    if pages != [] {
      var front := pages[..|pages| - 1];
      ByIndexMembers(front);
      forall k ensures k in ByIndex(pages) <==> exists i :: 0 <= i < |pages| && pages[i].index == k {
        if k in ByIndex(front) {
          var i :| 0 <= i < |front| && front[i].index == k;
          assert pages[i].index == k;
        }
        if i :| 0 <= i < |pages| && pages[i].index == k {
          assert i < |front| ==> front[i].index == k;
        }
      }
    }
  }

  /** Pages that are listed by their indexes are found there. */
  lemma {:induction false} ByPosition(pages: seq<Checkpoint>)
    requires forall i :: 0 <= i < |pages| ==> pages[i].index == i
    ensures forall k: nat :: k < |pages| ==> k in ByIndex(pages) && ByIndex(pages)[k] == pages[k]
  {
    if pages != [] { ByPosition(pages[..|pages| - 1]); }
  }

  /** verifyPageContinuity. */
  method VerifyPageContinuity(pages: seq<Checkpoint>) returns (ok: bool)
    ensures ok == Continuous(pages)
  {
    if |pages| == 0 { return false; }
    var byIdx: map<nat, Checkpoint> := map[];
    var maxIdx := 0;
    for i := 0 to |pages|
      invariant byIdx == ByIndex(pages[..i])
      invariant forall j :: 0 <= j < i ==> pages[j].index <= maxIdx
      invariant maxIdx == 0 || exists j :: 0 <= j < i && pages[j].index == maxIdx
    {
      assert pages[..i + 1][..i] == pages[..i];
      byIdx := byIdx[pages[i].index := pages[i]];
      if pages[i].index > maxIdx { maxIdx := pages[i].index; }
    }
    assert pages[..|pages|] == pages;
    ByIndexMembers(pages);
    if |pages| != maxIdx + 1 {
      assert Continuous(pages) ==> |pages| - 1 in ByIndex(pages);
      return false;
    }
    ok := CheckLinks(byIdx, maxIdx + 1);
  }

  function Indexes(pages: seq<Checkpoint>): set<nat> { set i | 0 <= i < |pages| :: pages[i].index }

  function Below(n: nat): set<nat> { if n == 0 then {} else Below(n - 1) + {n - 1} }

  lemma {:induction false} BelowSize(n: nat)
    ensures |Below(n)| == n && forall k: nat :: k in Below(n) <==> k < n
  {
    if n > 0 { BelowSize(n - 1); }
  }

  predicate IndexesDiffer(pages: seq<Checkpoint>) { forall i, j :: 0 <= i < j < |pages| ==> pages[i].index != pages[j].index }

  lemma IndexesSnoc(pages: seq<Checkpoint>)
    requires pages != []
    ensures var n := |pages| - 1;
            && Indexes(pages) == Indexes(pages[..n]) + {pages[n].index}
            && (IndexesDiffer(pages) <==> IndexesDiffer(pages[..n]) && pages[n].index !in Indexes(pages[..n]))
  {
    var n := |pages| - 1;
    var front := pages[..n];
    assert forall i :: 0 <= i < n ==> front[i] == pages[i];
    forall i | 0 <= i < n ensures pages[i].index in Indexes(front) { assert front[i].index in Indexes(front); }
    forall k ensures k in Indexes(pages) <==> k in Indexes(front) || k == pages[n].index {
      assert pages[n].index in Indexes(pages);
      if k in Indexes(front) {
        var i :| 0 <= i < n && front[i].index == k;
        assert pages[i].index == k;
      }
    }
    if IndexesDiffer(front) && pages[n].index !in Indexes(front) {
      forall i, j | 0 <= i < j < |pages| ensures pages[i].index != pages[j].index {
        assert j < n ==> front[i].index != front[j].index;
      }
    }
    if IndexesDiffer(pages) {
      forall i | 0 <= i < n ensures front[i].index != pages[n].index { assert pages[i].index != pages[n].index; }
    }
  }

  lemma {:induction false} IndexCount(pages: seq<Checkpoint>)
    ensures |Indexes(pages)| <= |pages| && (|Indexes(pages)| == |pages| <==> IndexesDiffer(pages))
  {
    hide Indexes, IndexesDiffer;
    if pages == [] {
      NoIndexes();
    } else {
      IndexesSnoc(pages);
      IndexCount(pages[..|pages| - 1]);
    }
  }

  lemma NoIndexes()
    ensures Indexes([]) == {} && IndexesDiffer([])
  {}

  /** As many pages as indexes below n, and all below n: the indexes differ exactly when none is missing. */
  lemma NoneMissing(pages: seq<Checkpoint>)
    requires forall i :: 0 <= i < |pages| ==> pages[i].index < |pages|
    ensures IndexesDiffer(pages) <==> forall k: nat :: k < |pages| ==> k in Indexes(pages)
  {
    var n := |pages|;
    IndexCount(pages);
    BelowSize(n);
    assert Indexes(pages) <= Below(n);
    SameSize(Indexes(pages), Below(n));
    assert Indexes(pages) == Below(n) <==> forall k: nat :: k < n ==> k in Indexes(pages);
  }

  lemma SameSize(a: set<nat>, b: set<nat>)
    requires a <= b
    ensures |a| == |b| ==> a == b
  {
    assert b == a + (b - a);
    assert |b| == |a| + |b - a|;
  }

  /** Page i starts where the page with the index before it stops, the first one at the empty cursor. */
  predicate Continues(pages: seq<Checkpoint>, i: int)
    requires 0 <= i < |pages|
  {
    if pages[i].index == 0 then pages[i].cursor == ""
    else exists j :: 0 <= j < |pages| && pages[j].index + 1 == pages[i].index && pages[j].next == pages[i].cursor
  }

  lemma {:induction false} ByIndexAt(pages: seq<Checkpoint>, i: int)
    requires 0 <= i < |pages| && IndexesDiffer(pages)
    ensures pages[i].index in ByIndex(pages) && ByIndex(pages)[pages[i].index] == pages[i]
  {
    var n := |pages| - 1;
    if i < n {
      assert forall a, b :: 0 <= a < b < n ==> pages[..n][a] == pages[a] && pages[..n][b] == pages[b];
      ByIndexAt(pages[..n], i);
    }
  }

  /** The check, page by page and without the map: all indexes from 0 on are there once, every page continues the one before it,
      and only the last one has no next cursor. */
  lemma ContinuousExactly(pages: seq<Checkpoint>)
    ensures Continuous(pages) <==>
              && pages != [] && IndexesDiffer(pages)
              && (forall i :: 0 <= i < |pages| ==>
                    pages[i].index < |pages| && Continues(pages, i) && (pages[i].index == |pages| - 1 ==> pages[i].next == ""))
  {
    hide Continuous;
    var n, m := |pages|, ByIndex(pages);
    if pages != [] && forall i :: 0 <= i < n ==> pages[i].index < n {
      NoneMissing(pages);
      ByIndexMembers(pages);
      assert forall k: nat :: k in Indexes(pages) <==> k in m;
      if IndexesDiffer(pages) {
        forall i | 0 <= i < n ensures pages[i].index in m && m[pages[i].index] == pages[i] { ByIndexAt(pages, i); }
        assert forall k: nat :: k < n ==> k in m && exists i :: 0 <= i < n && pages[i].index == k;
        ContinuesIsLink(pages, m);
      }
    }
    ContinuousIs(pages);
  }

  lemma ContinuousIs(pages: seq<Checkpoint>)
    ensures Continuous(pages) <==>
              pages != [] && (forall i :: 0 <= i < |pages| ==> pages[i].index < |pages|) && Linked(ByIndex(pages), |pages|)
  {}

  /** The pages by index, and where they are listed. */
  predicate Placed(pages: seq<Checkpoint>, m: map<nat, Checkpoint>)
  {
    && (forall i :: 0 <= i < |pages| ==> pages[i].index < |pages| && pages[i].index in m && m[pages[i].index] == pages[i])
    && forall k: nat :: k < |pages| ==> k in m && exists i :: 0 <= i < |pages| && pages[i].index == k
  }

  lemma LinkIsContinued(pages: seq<Checkpoint>, m: map<nat, Checkpoint>, i: int)
    requires Placed(pages, m) && 0 <= i < |pages|
    ensures Continues(pages, i) <==> LinkAt(m, pages[i].index)
  {
    var k := pages[i].index;
    if k > 0 {
      assert k - 1 in m;
      var j :| 0 <= j < |pages| && pages[j].index == k - 1;
      assert m[k - 1] == pages[j];
    }
  }

  lemma ContinuesIsLink(pages: seq<Checkpoint>, m: map<nat, Checkpoint>)
    requires pages != [] && Placed(pages, m)
    ensures Linked(m, |pages|) <==>
              forall i :: 0 <= i < |pages| ==> Continues(pages, i) && (pages[i].index == |pages| - 1 ==> pages[i].next == "")
  {
    hide Continues, LinkAt;
    var n := |pages|;
    forall i | 0 <= i < n ensures Continues(pages, i) <==> LinkAt(m, pages[i].index) { LinkIsContinued(pages, m, i); }
    if forall i :: 0 <= i < n ==> Continues(pages, i) && (pages[i].index == n - 1 ==> pages[i].next == "") {
      forall k: nat | k < n ensures LinkAt(m, k) && (k == n - 1 ==> m[k].next == "") {
        assert k in m;
        var i :| 0 <= i < n && pages[i].index == k;
        assert Continues(pages, i);
      }
      assert n - 1 in m && LinkAt(m, n - 1);
    }
  }

  method CheckLinks(byIdx: map<nat, Checkpoint>, n: nat) returns (ok: bool)
    requires n > 0
    ensures ok == Linked(byIdx, n)
  {
    var prevNext := "";
    for k := 0 to n
      invariant forall j: nat :: j < k ==> j in byIdx
      invariant prevNext == if k == 0 then "" else byIdx[k - 1].next
      invariant forall j: nat :: j < k ==> LinkAt(byIdx, j)
    {
      if k !in byIdx { return false; }
      if byIdx[k].cursor != prevNext {
        assert !LinkAt(byIdx, k);
        return false;
      }
      prevNext := byIdx[k].next;
    }
    return byIdx[n - 1].next == "";
  }

  // ---- producer pages

  function ProducerRequest(env: Env, jobId: string, s: Spec, cursor: string): Backfill.Request
  {
    Backfill.Request(jobId, s.topic, 1, if cursor == "" then Backfill.NoCursor else env.open(cursor), Backfill.MAX_LIMIT,
                     if s.hasCp then s.fromCp else "", if s.hasCp then s.toCp else "",
                     if s.hasAt then env.clock.format(s.fromAt) else "", if s.hasAt then env.clock.format(s.toAt) else "")
  }

  function TextOf(env: Env, c: Backfill.CursorText): string
  {
    match c
    case Sealed(cursor) => env.seal(cursor)
    case _ => ""
  }

  /** The in-range rows of the job. */
  function InRangeRows(env: Env, jobId: string, s: Spec, rows: seq<Backfill.Row>): seq<Backfill.Row>
  {
    Backfill.Matching(rows, Backfill.RangeOf(env.backfill, ProducerRequest(env, jobId, s, "")))
  }

  // ---- workers

  /** Where the lease holder is in ExecutePage. upto counts the in-range rows up to the end of the page. */
  datatype Pc =
    | Leased
    | Ensuring
    | Marking
    | Fetching
    | Applying(left: seq<string>, next: string, accepted: nat, upto: nat)
    | Reconciling(cp: Checkpoint)
    | Applied(cp: Checkpoint)
    | Completing(cp: Checkpoint)
    | Finalizing(cp: Checkpoint)
    | Publishing(follow: Request)

  datatype Owner = Owner(req: Request, pc: Pc)

  /** orphan: a page was recorded as continued, but its next cursor was not found. gap: an activation check failed.
      quarantined: a record was refused because another payload has its key. */
  datatype World = World(jobId: string, rows: seq<Backfill.Row>, sent: set<Fields>, db: Db, owner: Option<Owner>,
                         orphan: bool, gap: bool, quarantined: bool)

  function Start(jobId: string, base: map<string, string>): World
  {
    World(jobId, [], {}, Db(None, [], map[], map[], false, [], Serving(base, base, {})), None, false, false, false)
  }

  datatype Label =
    | AppendRow(row: Backfill.Row)
    | Submit(m: Fields)
    | Redeliver(m: Fields, now: Time)
    | Acquire(m: Fields)
    | Work(now: Time)
    | LiveWrite(payload: string, building: bool)
    | Drop

  /** A message that reached this job: it parses, and its Kafka key is the job id. */
  predicate ForJob(env: Env, jobId: string, m: Fields)
  {
    Parse(env.clock, m).Some? && Parse(env.clock, m).value.jobId == jobId
  }

  predicate Appendable(rows: seq<Backfill.Row>, row: Backfill.Row)
  {
    row.id >= 1 && forall i :: 0 <= i < |rows| ==> rows[i].id < row.id
  }

  /** A page that is already recorded: its follow-up is published again, or it was the last one. */
  function RedeliverStep(env: Env, w: World, m: Fields, now: Time): World
  {
    if m !in w.sent || !ForJob(env, w.jobId, m) then w
    else
      var req := Parse(env.clock, m).value;
      var k := (req.topic, req.cursor);
      if k !in w.db.idem || w.db.idem[k].Finalized? then w
      else
        var id := w.db.idem[k].eventId;
        var cp := Find(w.db.cps, req.topic, req.cursor);
        var next := if cp.Some? then cp.value.next else "";
        if next == "" then w.(orphan := true)
        else
          var follow := FollowUp(req, id, env.followUpId(req.jobId, req.topic, req.cursor), next, now).(eventId := id);
          w.(sent := w.sent + {Encode(env.clock, follow)})
  }

  function Goto(w: World, o: Owner, pc: Pc): World { w.(owner := Some(o.(pc := pc))) }

  function Abandon(w: World): World { w.(owner := None) }

  /** The checkpoint and the job are read; an applied page is only reconciled again. */
  function LeasedStep(w: World, o: Owner): World
  {
    var cp := Find(w.db.cps, o.req.topic, o.req.cursor);
    if w.db.job.None? then Goto(w, o, Ensuring)
    else if w.db.job.value.spec != SpecOf(o.req) then Abandon(w)
    else if !AcceptsPage(w.db.job.value.status, cp.Some?) then Abandon(w)
    else if cp.Some? then Goto(w, o, Reconciling(cp.value))
    else Goto(w, o, Ensuring)
  }

  /** A live event is written to the generation that readers see, and to the job's once that is registered. The two writes of
      one event are two steps, so that anything may come between them. */
  function LiveStep(env: Env, w: World, payload: string, building: bool): World
  {
    var g := w.db.serving.(lives := w.db.serving.lives + {payload});
    if !building then w.(db := w.db.(serving := g.(current := Insert(env, g.current, payload))))
    else if w.db.job.None? then w
    else w.(db := w.db.(serving := g, gen := Insert(env, w.db.gen, payload)))
  }

  /** EnsureRecoveryBuildingGeneration: register, clone, and mark as building. A job that is found initializing is cloned
      into again. */
  function EnsuringStep(w: World, o: Owner): World
  {
    if w.db.job.None? then w.(db := w.db.(job := Some(Job(SpecOf(o.req), Initializing, 0, 0, "", ""))))
    else
      var job := w.db.job.value;
      var cp := Find(w.db.cps, o.req.topic, o.req.cursor);
      if job.spec != SpecOf(o.req) || job.status == Complete then Abandon(w)
      else if job.status == Initializing then Goto(w, o, Marking).(db := w.db.(gen := Cloned(w.db.gen, w.db.serving.current)))
      else if cp.Some? then Goto(w, o, Reconciling(cp.value))
      else Goto(w, o, Fetching)
  }

  function MarkingStep(w: World, o: Owner): World
  {
    if w.db.job.None? then Abandon(w)
    else Goto(w, o, Ensuring).(db := w.db.(job := Some(w.db.job.value.(status := Building))))
  }

  function FetchingStep(env: Env, w: World, o: Owner): World
  {
    var page := Backfill.PageOf(env.backfill, w.rows, ProducerRequest(env, w.jobId, SpecOf(o.req), o.req.cursor));
    if page.Err? then Abandon(w)
    else
      var next := TextOf(env, page.value.nextCursor);
      if next != "" && next == o.req.cursor then Abandon(w)
      else
        var upto := PositionOf(w.db.cps, o.req.cursor) + |page.value.records|;
        Goto(w, o, Applying(page.value.records, next, 0, upto)).(db := w.db.(lastRead := w.rows))
  }

  /** How many in-range rows lie before the cursor, by the checkpoint that issued it. */
  function PositionOf(cps: seq<Checkpoint>, cursor: string): nat
  {
    if cursor == "" || cps == [] then 0 else cps[|cps| - 1].upto
  }

  /** The next record is applied, or the page is recorded. A record that was applied before is accepted again. */
  function ApplyingStep(env: Env, w: World, o: Owner): World
    requires o.pc.Applying?
  {
    var (left, next, accepted, upto) := (o.pc.left, o.pc.next, o.pc.accepted, o.pc.upto);
    if left != [] then
      var k := env.key(left[0]);
      if k in w.db.gen && w.db.gen[k] != left[0] then Abandon(w).(quarantined := true)
      else
        Goto(w, o, Applying(left[1..], next, accepted + 1, upto)).(db := w.db.(gen := w.db.gen[k := left[0]]))
    else if w.db.job.None? then Abandon(w)
    else
      var index := if o.req.cursor == "" then 0 else w.db.job.value.pages;
      var cp := Checkpoint(o.req.topic, o.req.cursor, index, next, accepted, upto);
      Goto(w, o, Reconciling(cp)).(db := w.db.(cps := w.db.cps + [cp]))
  }

  function ReconcilingStep(w: World, o: Owner): World
    requires o.pc.Reconciling?
  {
    if w.db.job.None? then Abandon(w)
    else Goto(w, o, Applied(o.pc.cp)).(db := w.db.(job := Some(Reconcile(w.db.job.value, o.pc.cp))))
  }

  /** afterPageApplied: activation after the last page, otherwise the record that a follow-up goes out. */
  function AppliedStep(env: Env, w: World, o: Owner, now: Time): World
    requires o.pc.Applied?
  {
    var cp := o.pc.cp;
    var k := (o.req.topic, o.req.cursor);
    if cp.next == "" then
      if w.db.job.None? then Abandon(w)
      else if w.db.job.value.status == Complete && w.db.active then Goto(w, o, Finalizing(cp))
      else if !Continuous(w.db.cps) || w.db.job.value.pages < |w.db.cps| then Abandon(w).(gap := true)
      else Goto(w, o, Completing(cp)).(db := w.db.(active := true))
    else
      var id := env.followUpId(o.req.jobId, o.req.topic, o.req.cursor);
      Goto(w, o, Publishing(FollowUp(o.req, id, id, cp.next, now))).(db := w.db.(idem := w.db.idem[k := FollowUpPublished(id)]))
  }

  function WorkStep(env: Env, w: World, o: Owner, now: Time): World
  {
    match o.pc
    case Leased => LeasedStep(w, o)
    case Ensuring => EnsuringStep(w, o)
    case Marking => MarkingStep(w, o)
    case Fetching => FetchingStep(env, w, o)
    case Applying(_, _, _, _) => ApplyingStep(env, w, o)
    case Reconciling(_) => ReconcilingStep(w, o)
    case Applied(_) => AppliedStep(env, w, o, now)
    case Completing(cp) =>
      if w.db.job.None? then Abandon(w)
      else Goto(w, o, Finalizing(cp)).(db := w.db.(job := Some(w.db.job.value.(status := Complete))))
    case Finalizing(_) => Abandon(w).(db := w.db.(idem := w.db.idem[(o.req.topic, o.req.cursor) := Finalized]))
    case Publishing(follow) => Abandon(w).(sent := w.sent + {Encode(env.clock, follow)})
  }

  /** A step that is not enabled changes nothing, and a run ends with its first quarantined record. Acquire takes the lease
      over from whoever held it; Drop is a crash, a lost lease or any other error of the holder. */
  function Step(env: Env, w: World, l: Label): World
  {
    if w.quarantined then w else
    match l
    case AppendRow(row) => if Appendable(w.rows, row) then w.(rows := w.rows + [row]) else w
    case Submit(m) => if ForJob(env, w.jobId, m) && Parse(env.clock, m).value.cursor == "" then w.(sent := w.sent + {m}) else w
    case Redeliver(m, now) => RedeliverStep(env, w, m, now)
    case Acquire(m) =>
      if m in w.sent && ForJob(env, w.jobId, m) then w.(owner := Some(Owner(Parse(env.clock, m).value, Leased))) else w
    case Work(now) => if w.owner.Some? then WorkStep(env, w, w.owner.value, now) else w
    case LiveWrite(payload, building) => LiveStep(env, w, payload, building)
    case Drop => Abandon(w)
  }

  function Run(env: Env, w: World, ls: seq<Label>): World
  {
    if ls == [] then w else Step(env, Run(env, w, ls[..|ls| - 1]), ls[|ls| - 1])
  }
}
