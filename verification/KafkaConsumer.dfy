/** The retrying batch consumer of Ranking, Gateway and Analytics (kafka_consumer.go of each): per-partition serial
    workers over a retained batch, quarantine rows, dead-letter publishing and offset commits, under crashes. */
module KafkaConsumer {
  import opened Common

  datatype Partition = Partition(topic: string, number: nat)

  /** A record as the consumer sees it: the trimmed key, the aggregate that its body names when it parses, and the
      room that can be peeked from a body that does not. */
  datatype Rec = Rec(key: string, parsed: Option<string>, peek: string)

  // ---- what the three consumers do with keys

  datatype Policy = Ranking | Gateway | NoQuarantine

  predicate Alnum(c: char) { '0' <= c <= '9' || 'A' <= c <= 'Z' || 'a' <= c <= 'z' }

  /** ^[A-Za-z0-9][A-Za-z0-9_-]{0,127}$ */
  predicate ValidId(s: string)
  {
    1 <= |s| <= 128 && Alnum(s[0]) && forall i :: 0 < i < |s| ==> Alnum(s[i]) || s[i] == '_' || s[i] == '-'
  }

  /** trustworthyPlayerAggregateKey. */
  function TrustworthyKey(key: string): string { if ValidId(key) then key else "" }

  /** The key under which a quarantine row is looked up before the record is parsed. */
  function CheckKey(p: Policy, r: Rec): string
  {
    match p
    case Ranking => r.key
    case Gateway => TrustworthyKey(r.key)
    case NoQuarantine => ""
  }

  /** The aggregate that is quarantined when the record fails. */
  function FailKey(p: Policy, r: Rec): string
  {
    match p
    case Ranking => if r.key != "" then r.key else if r.parsed.Some? then r.parsed.value else r.peek
    case Gateway => TrustworthyKey(r.key)
    case NoQuarantine => ""
  }

  /** The handler is called: the body parses and the record key is the aggregate that it names. */
  predicate Callable(p: Policy, r: Rec)
  {
    r.parsed.Some? && (p.NoQuarantine? || (r.key != "" && r.key == r.parsed.value))
  }

  /** The handler may accept: the session store refuses player ids that cannot form a Redis key. */
  predicate Acceptable(p: Policy, r: Rec) { Callable(p, r) && (p.Gateway? ==> ValidId(r.key)) }

  lemma KeysAgree(p: Policy, r: Rec)
    ensures CheckKey(p, r) != "" ==> FailKey(p, r) == CheckKey(p, r)
    ensures Callable(p, r) ==> FailKey(p, r) == CheckKey(p, r)
    ensures Acceptable(p, r) && !p.NoQuarantine? ==> FailKey(p, r) == r.key != ""
  {}

  datatype Config = Config(policy: string -> Policy, maxAttempts: nat)

  // ---- the machine

  datatype Pc = Ready | Calling(attempt: nat) | Quarantining | Publishing | Committing | Stopped

  /** One partition's share [from, to) of the retained batch; at is the record that is being processed. */
  datatype Worker = Worker(from: nat, to: nat, at: nat, pc: Pc)

  datatype Consumer = Down | Idle(fetch: map<Partition, nat>) | Busy(fetch: map<Partition, nat>, workers: map<Partition, Worker>)

  /** late: the handler was called for an aggregate whose quarantine row existed. */
  datatype World = World(logs: map<Partition, seq<Rec>>, committed: map<Partition, nat>, rows: set<(string, string)>,
                         accepted: set<(Partition, nat)>, dlq: set<(Partition, nat)>, consumer: Consumer, late: bool)

  const EMPTY := World(map[], map[], {}, {}, {}, Down, false)

  datatype Outcome = Accepted | Terminal | Retryable

  /** landed: the effect happened; ok: the caller was told so. */
  datatype Label =
    | Produce(tp: Partition, rec: Rec)
    | Boot
    | Crash
    | Poll(ends: map<Partition, nat>)
    | Check(tp: Partition, ok: bool)
    | Call(tp: Partition, outcome: Outcome)
    | Quarantine(tp: Partition, landed: bool, ok: bool)
    | Publish(tp: Partition, landed: bool, ok: bool)
    | Commit(tp: Partition, landed: bool, ok: bool)
    | GiveUp(tp: Partition)
    | FinishBatch
    | RetryBatch

  function LogOf(w: World, tp: Partition): seq<Rec> { if tp in w.logs then w.logs[tp] else [] }

  function Position(m: map<Partition, nat>, tp: Partition): nat { if tp in m then m[tp] else 0 }

  function At(w: World, tp: Partition, k: Worker): World
    requires w.consumer.Busy?
  {
    w.(consumer := w.consumer.(workers := w.consumer.workers[tp := k]))
  }

  /** Which positions a poll may deliver up to, and the workers for what it delivers. */
  predicate Deliverable(w: World, fetch: map<Partition, nat>, ends: map<Partition, nat>)
  {
    ends != map[] && forall tp :: tp in ends ==> Position(fetch, tp) < ends[tp] <= |LogOf(w, tp)|
  }

  function Workers(fetch: map<Partition, nat>, ends: map<Partition, nat>): map<Partition, Worker>
  {
    map tp | tp in ends :: Worker(Position(fetch, tp), ends[tp], Position(fetch, tp), Ready)
  }

  /** processOne up to the first handler call: the quarantine check, then parsing. */
  function CheckStep(cfg: Config, w: World, tp: Partition, k: Worker, rec: Rec, ok: bool): World
    requires w.consumer.Busy?
  {
    var p := cfg.policy(tp.topic);
    if !ok then At(w, tp, k.(pc := Stopped))
    else if CheckKey(p, rec) != "" && (tp.topic, CheckKey(p, rec)) in w.rows then At(w, tp, k.(pc := Publishing))
    else if Callable(p, rec) then At(w, tp, k.(pc := Calling(1)))
    else At(w, tp, k.(pc := Quarantining))
  }

  /** One attempt of the handler. */
  function CallHandlerStep(cfg: Config, w: World, tp: Partition, k: Worker, rec: Rec, attempt: nat, outcome: Outcome): World
    requires w.consumer.Busy?
  {
    var p := cfg.policy(tp.topic);
    var w' := w.(late := w.late || (FailKey(p, rec) != "" && (tp.topic, FailKey(p, rec)) in w.rows));
    match outcome
    case Accepted =>
      if Acceptable(p, rec) then At(w', tp, k.(pc := Committing)).(accepted := w.accepted + {(tp, k.at)}) else w
    case Terminal => At(w', tp, k.(pc := Quarantining))
    case Retryable => At(w', tp, k.(pc := if attempt < cfg.maxAttempts then Calling(attempt + 1) else Quarantining))
  }

  function QuarantineStep(cfg: Config, w: World, tp: Partition, k: Worker, rec: Rec, landed: bool, ok: bool): World
    requires w.consumer.Busy?
  {
    var key := FailKey(cfg.policy(tp.topic), rec);
    if key == "" then At(w, tp, k.(pc := Publishing))
    else
      var rows := if landed then w.rows + {(tp.topic, key)} else w.rows;
      if ok && (tp.topic, key) !in rows then w
      else At(w, tp, k.(pc := if ok then Publishing else Stopped)).(rows := rows)
  }

  function PublishStep(w: World, tp: Partition, k: Worker, landed: bool, ok: bool): World
    requires w.consumer.Busy?
  {
    var dlq := if landed then w.dlq + {(tp, k.at)} else w.dlq;
    if ok && (tp, k.at) !in dlq then w
    else At(w, tp, k.(pc := if ok then Committing else Stopped)).(dlq := dlq)
  }

  /** A commit sets the group's position to the next record, forwards or backwards. */
  function CommitStep(w: World, tp: Partition, k: Worker, landed: bool, ok: bool): World
    requires w.consumer.Busy?
  {
    var committed := if landed then w.committed[tp := k.at + 1] else w.committed;
    At(w, tp, if ok then k.(at := k.at + 1, pc := Ready) else k.(pc := Stopped)).(committed := committed)
  }

  function WorkerStep(cfg: Config, w: World, tp: Partition, k: Worker, l: Label): World
    requires w.consumer.Busy?
  {
    var log := LogOf(w, tp);
    if l.GiveUp? then At(w, tp, k.(pc := Stopped))
    else if !(k.at < k.to && k.at < |log|) then w
    else
      match l
      case Check(_, ok) => if k.pc.Ready? then CheckStep(cfg, w, tp, k, log[k.at], ok) else w
      case Call(_, outcome) =>
        if k.pc.Calling? then CallHandlerStep(cfg, w, tp, k, log[k.at], k.pc.attempt, outcome) else w
      case Quarantine(_, landed, ok) =>
        if k.pc.Quarantining? then QuarantineStep(cfg, w, tp, k, log[k.at], landed, ok) else w
      case Publish(_, landed, ok) => if k.pc.Publishing? then PublishStep(w, tp, k, landed, ok) else w
      case Commit(_, landed, ok) => if k.pc.Committing? then CommitStep(w, tp, k, landed, ok) else w
      case _ => w
  }

  predicate Finished(k: Worker) { k.pc.Ready? && k.at == k.to }

  /** A step that is not enabled changes nothing. */
  function Step(cfg: Config, w: World, l: Label): World
  {
    match l
    case Produce(tp, rec) => w.(logs := w.logs[tp := LogOf(w, tp) + [rec]])
    case Boot => if w.consumer.Down? then w.(consumer := Idle(w.committed)) else w
    case Crash => w.(consumer := Down)
    case Poll(ends) =>
      if w.consumer.Idle? && Deliverable(w, w.consumer.fetch, ends) then
        w.(consumer := Busy(w.consumer.fetch + ends, Workers(w.consumer.fetch, ends)))
      else w
    case FinishBatch =>
      if w.consumer.Busy? && forall tp :: tp in w.consumer.workers ==> Finished(w.consumer.workers[tp]) then
        w.(consumer := Idle(w.consumer.fetch))
      else w
    case RetryBatch =>
      if w.consumer.Busy? && forall tp :: tp in w.consumer.workers ==>
           Finished(w.consumer.workers[tp]) || w.consumer.workers[tp].pc.Stopped? then
        w.(consumer := w.consumer.(workers := map tp | tp in w.consumer.workers ::
                                     w.consumer.workers[tp].(at := w.consumer.workers[tp].from, pc := Ready)))
      else w
    case _ =>
      if w.consumer.Busy? && l.tp in w.consumer.workers then WorkerStep(cfg, w, l.tp, w.consumer.workers[l.tp], l) else w
  }

  function Run(cfg: Config, w: World, ls: seq<Label>): World
  {
    if ls == [] then w else Step(cfg, Run(cfg, w, ls[..|ls| - 1]), ls[|ls| - 1])
  }

  // ---- positions

  predicate Settled(w: World, tp: Partition, o: nat) { (tp, o) in w.accepted || (tp, o) in w.dlq }

  /** Accepted, or its failure is on record as a quarantine row where the consumer keeps one. */
  predicate Resolved(cfg: Config, w: World, tp: Partition, o: nat)
  {
    o < |LogOf(w, tp)| &&
    var key := FailKey(cfg.policy(tp.topic), LogOf(w, tp)[o]);
    (tp, o) in w.accepted || key == "" || (tp.topic, key) in w.rows
  }

  predicate DoneBelow(cfg: Config, w: World, tp: Partition, n: nat)
  {
    n <= |LogOf(w, tp)| && forall o: nat :: o < n ==> Settled(w, tp, o) && Resolved(cfg, w, tp, o)
  }

  predicate WorkerOk(cfg: Config, w: World, tp: Partition, k: Worker, fetch: map<Partition, nat>)
  {
    && k.from <= k.at <= k.to == Position(fetch, tp) && k.to <= |LogOf(w, tp)|
    && DoneBelow(cfg, w, tp, k.at)
    && (!k.pc.Ready? && !k.pc.Stopped? ==> k.at < k.to)
    && (k.pc.Publishing? || k.pc.Committing? ==> Resolved(cfg, w, tp, k.at))
    && (k.pc.Committing? ==> Settled(w, tp, k.at))
    && (k.pc.Calling? && k.at < k.to ==> Callable(cfg.policy(tp.topic), LogOf(w, tp)[k.at]))
  }

  ghost predicate Inv(cfg: Config, w: World)
  {
    && (forall tp :: DoneBelow(cfg, w, tp, Position(w.committed, tp)))
    && match w.consumer
       case Down => true
       case Idle(fetch) => forall tp :: DoneBelow(cfg, w, tp, Position(fetch, tp))
       case Busy(fetch, workers) =>
         && (forall tp :: tp in workers ==> WorkerOk(cfg, w, tp, workers[tp], fetch))
         && (forall tp :: tp !in workers ==> DoneBelow(cfg, w, tp, Position(fetch, tp)))
  }

  /** Nothing that was done is undone: logs, rows, acceptances and publications only grow. */
  predicate Grows(w: World, w': World)
  {
    && (forall tp :: tp in w.logs ==> tp in w'.logs && w.logs[tp] <= w'.logs[tp])
    && w.rows <= w'.rows && w.accepted <= w'.accepted && w.dlq <= w'.dlq
  }

  lemma DoneStays(cfg: Config, w: World, w': World, tp: Partition, n: nat)
    requires Grows(w, w') && DoneBelow(cfg, w, tp, n)
    ensures DoneBelow(cfg, w', tp, n)
  {
    forall o: nat | o < n ensures Settled(w', tp, o) && Resolved(cfg, w', tp, o) {
      assert Settled(w, tp, o) && Resolved(cfg, w, tp, o);
      assert LogOf(w, tp)[o] == LogOf(w', tp)[o];
    }
  }

  lemma WorkerStays(cfg: Config, w: World, w': World, tp: Partition, k: Worker, fetch: map<Partition, nat>)
    requires Grows(w, w') && WorkerOk(cfg, w, tp, k, fetch)
    ensures WorkerOk(cfg, w', tp, k, fetch)
  {
    hide DoneBelow, Callable, FailKey;
    DoneStays(cfg, w, w', tp, k.at);
    assert k.at < |LogOf(w, tp)| ==> LogOf(w, tp)[k.at] == LogOf(w', tp)[k.at];
  }

  /** One worker moves, and what it did is recorded. */
  lemma WorkerMoves(cfg: Config, w: World, w': World, tp: Partition, k': Worker)
    requires Inv(cfg, w) && w.consumer.Busy? && tp in w.consumer.workers && Grows(w, w')
    requires w'.consumer == w.consumer.(workers := w.consumer.workers[tp := k'])
    requires w'.committed == w.committed
             || (tp in w'.committed && w'.committed == w.committed[tp := w'.committed[tp]] && DoneBelow(cfg, w', tp, w'.committed[tp]))
    requires WorkerOk(cfg, w', tp, k', w.consumer.fetch)
    ensures Inv(cfg, w')
  {
    hide DoneBelow, WorkerOk, Grows;
    var fetch, workers := w.consumer.fetch, w.consumer.workers;
    forall x ensures DoneBelow(cfg, w', x, Position(w'.committed, x)) {
      if Position(w'.committed, x) == Position(w.committed, x) { DoneStays(cfg, w, w', x, Position(w.committed, x)); }
    }
    forall x | x in w'.consumer.workers ensures WorkerOk(cfg, w', x, w'.consumer.workers[x], fetch) {
      if x != tp { WorkerStays(cfg, w, w', x, workers[x], fetch); }
    }
    forall x | x !in w'.consumer.workers ensures DoneBelow(cfg, w', x, Position(fetch, x)) {
      DoneStays(cfg, w, w', x, Position(fetch, x));
    }
  }

  lemma NextDone(cfg: Config, w: World, tp: Partition, n: nat)
    requires DoneBelow(cfg, w, tp, n) && Settled(w, tp, n) && Resolved(cfg, w, tp, n)
    ensures DoneBelow(cfg, w, tp, n + 1)
  {}

  lemma WorkerStepKeeps(cfg: Config, w: World, tp: Partition, l: Label)
    requires Inv(cfg, w) && w.consumer.Busy? && tp in w.consumer.workers
    ensures Inv(cfg, WorkerStep(cfg, w, tp, w.consumer.workers[tp], l))
  {
    hide Inv, WorkerOk, CheckStep, CallHandlerStep, QuarantineStep, PublishStep, CommitStep;
    var k := w.consumer.workers[tp];
    KnownWorker(cfg, w, tp);
    if l.GiveUp? {
      MoveOnly(cfg, w, tp, k.(pc := Stopped));
    } else if k.at < k.to && k.at < |LogOf(w, tp)| {
      match l {
        case Check(_, ok) => if k.pc.Ready? { CheckKeeps(cfg, w, tp, k, ok); }
        case Call(_, outcome) => if k.pc.Calling? { CallKeeps(cfg, w, tp, k, outcome); }
        case Quarantine(_, landed, ok) => if k.pc.Quarantining? { QuarantineKeeps(cfg, w, tp, k, landed, ok); }
        case Publish(_, landed, ok) => if k.pc.Publishing? { PublishKeeps(cfg, w, tp, k, landed, ok); }
        case Commit(_, landed, ok) => if k.pc.Committing? { CommitKeeps(cfg, w, tp, k, landed, ok); }
        case _ =>
      }
    }
  }

  lemma MoveOnly(cfg: Config, w: World, tp: Partition, k': Worker)
    requires Inv(cfg, w) && w.consumer.Busy? && tp in w.consumer.workers
    requires k'.at == w.consumer.workers[tp].at && k'.from == w.consumer.workers[tp].from && k'.to == w.consumer.workers[tp].to
    requires k'.pc.Stopped?
    ensures Inv(cfg, At(w, tp, k'))
  {
    hide Inv, DoneBelow;
    KnownWorker(cfg, w, tp);
    DoneStays(cfg, w, At(w, tp, k'), tp, k'.at);
    WorkerMoves(cfg, w, At(w, tp, k'), tp, k');
  }

  lemma CheckKeeps(cfg: Config, w: World, tp: Partition, k: Worker, ok: bool)
    requires Inv(cfg, w) && w.consumer.Busy? && tp in w.consumer.workers && w.consumer.workers[tp] == k
    requires k.pc.Ready? && k.at < k.to && k.at < |LogOf(w, tp)|
    ensures Inv(cfg, CheckStep(cfg, w, tp, k, LogOf(w, tp)[k.at], ok))
  {
    hide Inv, DoneBelow, FailKey, CheckKey, Callable;
    KnownWorker(cfg, w, tp);
    var w' := CheckStep(cfg, w, tp, k, LogOf(w, tp)[k.at], ok);
    KeysAgree(cfg.policy(tp.topic), LogOf(w, tp)[k.at]);
    DoneStays(cfg, w, w', tp, k.at);
    WorkerMoves(cfg, w, w', tp, w'.consumer.workers[tp]);
  }

  lemma CallKeeps(cfg: Config, w: World, tp: Partition, k: Worker, outcome: Outcome)
    requires Inv(cfg, w) && w.consumer.Busy? && tp in w.consumer.workers && w.consumer.workers[tp] == k
    requires k.pc.Calling? && k.at < k.to && k.at < |LogOf(w, tp)|
    ensures Inv(cfg, CallHandlerStep(cfg, w, tp, k, LogOf(w, tp)[k.at], k.pc.attempt, outcome))
  {
    hide Inv, DoneBelow, FailKey, CheckKey, Callable, Acceptable;
    KnownWorker(cfg, w, tp);
    var w' := CallHandlerStep(cfg, w, tp, k, LogOf(w, tp)[k.at], k.pc.attempt, outcome);
    if w' != w {
      DoneStays(cfg, w, w', tp, k.at);
      WorkerMoves(cfg, w, w', tp, w'.consumer.workers[tp]);
    }
  }

  lemma QuarantineKeeps(cfg: Config, w: World, tp: Partition, k: Worker, landed: bool, ok: bool)
    requires Inv(cfg, w) && w.consumer.Busy? && tp in w.consumer.workers && w.consumer.workers[tp] == k
    requires k.pc.Quarantining? && k.at < k.to && k.at < |LogOf(w, tp)|
    ensures Inv(cfg, QuarantineStep(cfg, w, tp, k, LogOf(w, tp)[k.at], landed, ok))
  {
    hide Inv, DoneBelow, FailKey, Callable, Resolved, QuarantineStep;
    KnownWorker(cfg, w, tp);
    var w' := QuarantineStep(cfg, w, tp, k, LogOf(w, tp)[k.at], landed, ok);
    if w' != w {
      OnRecord(cfg, w, tp, k, landed, ok);
      DoneStays(cfg, w, w', tp, k.at);
      WorkerMoves(cfg, w, w', tp, w'.consumer.workers[tp]);
    }
  }

  lemma OnRecord(cfg: Config, w: World, tp: Partition, k: Worker, landed: bool, ok: bool)
    requires w.consumer.Busy? && tp in w.consumer.workers && w.consumer.workers[tp] == k && k.at < |LogOf(w, tp)|
    ensures var w' := QuarantineStep(cfg, w, tp, k, LogOf(w, tp)[k.at], landed, ok);
            w' != w ==>
              && Grows(w, w') && w'.logs == w.logs && w'.committed == w.committed && w'.consumer.Busy? && tp in w'.consumer.workers
              && w'.consumer == w.consumer.(workers := w.consumer.workers[tp := w'.consumer.workers[tp]])
              && (w'.consumer.workers[tp] == k.(pc := Stopped)
                  || (w'.consumer.workers[tp] == k.(pc := Publishing) && Resolved(cfg, w', tp, k.at)))
  {
    hide FailKey;
  }

  lemma PublishKeeps(cfg: Config, w: World, tp: Partition, k: Worker, landed: bool, ok: bool)
    requires Inv(cfg, w) && w.consumer.Busy? && tp in w.consumer.workers && w.consumer.workers[tp] == k
    requires k.pc.Publishing? && k.at < k.to
    ensures Inv(cfg, PublishStep(w, tp, k, landed, ok))
  {
    hide Inv, DoneBelow, FailKey, Callable;
    KnownWorker(cfg, w, tp);
    var w' := PublishStep(w, tp, k, landed, ok);
    if w' != w {
      DoneStays(cfg, w, w', tp, k.at);
      WorkerMoves(cfg, w, w', tp, w'.consumer.workers[tp]);
    }
  }

  lemma CommitKeeps(cfg: Config, w: World, tp: Partition, k: Worker, landed: bool, ok: bool)
    requires Inv(cfg, w) && w.consumer.Busy? && tp in w.consumer.workers && w.consumer.workers[tp] == k
    requires k.pc.Committing? && k.at < k.to
    ensures Inv(cfg, CommitStep(w, tp, k, landed, ok))
  {
    hide Inv, DoneBelow, Resolved, Settled, Callable;
    KnownWorker(cfg, w, tp);
    var w' := CommitStep(w, tp, k, landed, ok);
    DoneStays(cfg, w, w', tp, k.at);
    NextDone(cfg, w, tp, k.at);
    DoneStays(cfg, w, w', tp, k.at + 1);
    WorkerMoves(cfg, w, w', tp, w'.consumer.workers[tp]);
  }

  lemma KnownWorker(cfg: Config, w: World, tp: Partition)
    requires Inv(cfg, w) && w.consumer.Busy? && tp in w.consumer.workers
    ensures WorkerOk(cfg, w, tp, w.consumer.workers[tp], w.consumer.fetch)
  {}

  lemma {:induction false} StepKeeps(cfg: Config, w: World, l: Label)
    requires Inv(cfg, w)
    ensures Inv(cfg, Step(cfg, w, l))
  {
    hide DoneBelow, WorkerStep, Callable, Resolved, Settled;
    var w' := Step(cfg, w, l);
    if l.Boot? || l.Crash? {
      forall x, n: nat | DoneBelow(cfg, w, x, n) ensures DoneBelow(cfg, w', x, n) { DoneStays(cfg, w, w', x, n); }
    } else if l.Produce? {
      ProduceKeeps(cfg, w, l.tp, l.rec);
    } else if l.Poll? && w' != w {
      PollKeeps(cfg, w, l.ends);
    } else if l.RetryBatch? && w' != w {
      RetryKeeps(cfg, w);
    } else if l.FinishBatch? && w' != w {
      FinishKeeps(cfg, w);
    } else if w' != w {
      WorkerStepKeeps(cfg, w, l.tp, l);
    }
  }

  lemma ProduceKeeps(cfg: Config, w: World, tp: Partition, rec: Rec)
    requires Inv(cfg, w)
    ensures Inv(cfg, Step(cfg, w, Produce(tp, rec)))
  {
    hide DoneBelow, WorkerOk;
    var w' := Step(cfg, w, Produce(tp, rec));
    assert Grows(w, w');
    forall x, n: nat | DoneBelow(cfg, w, x, n) ensures DoneBelow(cfg, w', x, n) { DoneStays(cfg, w, w', x, n); }
    if w.consumer.Busy? {
      forall x | x in w.consumer.workers ensures WorkerOk(cfg, w', x, w.consumer.workers[x], w.consumer.fetch) {
        WorkerStays(cfg, w, w', x, w.consumer.workers[x], w.consumer.fetch);
      }
    }
  }

  lemma PollKeeps(cfg: Config, w: World, ends: map<Partition, nat>)
    requires Inv(cfg, w) && w.consumer.Idle? && Deliverable(w, w.consumer.fetch, ends)
    ensures Inv(cfg, Step(cfg, w, Poll(ends)))
  {
    hide DoneBelow;
    var fetch := w.consumer.fetch;
    var w' := Step(cfg, w, Poll(ends));
    forall x, n: nat | DoneBelow(cfg, w, x, n) ensures DoneBelow(cfg, w', x, n) { DoneStays(cfg, w, w', x, n); }
    forall tp | tp in ends ensures WorkerOk(cfg, w', tp, Workers(fetch, ends)[tp], fetch + ends) {
      assert DoneBelow(cfg, w, tp, Position(fetch, tp));
    }
    forall tp | tp !in ends ensures DoneBelow(cfg, w', tp, Position(fetch + ends, tp)) {
      assert DoneBelow(cfg, w, tp, Position(fetch, tp));
    }
  }

  lemma RetryKeeps(cfg: Config, w: World)
    requires Inv(cfg, w) && w.consumer.Busy?
    ensures Inv(cfg, w.(consumer := w.consumer.(workers := map tp | tp in w.consumer.workers ::
                                    w.consumer.workers[tp].(at := w.consumer.workers[tp].from, pc := Ready))))
  {
    hide Resolved, Settled;
    var w' := w.(consumer := w.consumer.(workers := map tp | tp in w.consumer.workers ::
                                    w.consumer.workers[tp].(at := w.consumer.workers[tp].from, pc := Ready)));
    forall x, n: nat | DoneBelow(cfg, w, x, n) ensures DoneBelow(cfg, w', x, n) { DoneStays(cfg, w, w', x, n); }
    forall tp | tp in w'.consumer.workers ensures WorkerOk(cfg, w', tp, w'.consumer.workers[tp], w.consumer.fetch) {
      var k := w.consumer.workers[tp];
      assert WorkerOk(cfg, w, tp, k, w.consumer.fetch);
      assert DoneBelow(cfg, w, tp, k.from);
    }
  }

  lemma FinishKeeps(cfg: Config, w: World)
    requires Inv(cfg, w) && w.consumer.Busy?
    requires forall tp :: tp in w.consumer.workers ==> Finished(w.consumer.workers[tp])
    ensures Inv(cfg, w.(consumer := Idle(w.consumer.fetch)))
  {
    hide DoneBelow;
    var w' := w.(consumer := Idle(w.consumer.fetch));
    forall x, n: nat | DoneBelow(cfg, w, x, n) ensures DoneBelow(cfg, w', x, n) { DoneStays(cfg, w, w', x, n); }
    forall tp ensures DoneBelow(cfg, w', tp, Position(w.consumer.fetch, tp)) {
      if tp in w.consumer.workers { assert WorkerOk(cfg, w, tp, w.consumer.workers[tp], w.consumer.fetch); }
    }
  }

  lemma {:induction false} RunKeeps(cfg: Config, start: World, ls: seq<Label>)
    requires Inv(cfg, start)
    ensures Inv(cfg, Run(cfg, start, ls))
  {
    hide Inv, Step;
    if ls != [] {
      RunKeeps(cfg, start, ls[..|ls| - 1]);
      StepKeeps(cfg, Run(cfg, start, ls[..|ls| - 1]), ls[|ls| - 1]);
    }
  }

  /** Logs that nobody has read yet. */
  function Fresh(logs: map<Partition, seq<Rec>>): World { EMPTY.(logs := logs) }

  lemma FreshOk(cfg: Config, logs: map<Partition, seq<Rec>>)
    ensures Inv(cfg, Fresh(logs))
  {}

  /** No record is lost: in every run, with any failures, retries and crashes, each record below the committed position
      of its partition was accepted by the handler or acknowledged by the dead-letter topic. */
  lemma CommittedIsSettled(cfg: Config, logs: map<Partition, seq<Rec>>, ls: seq<Label>, tp: Partition, o: nat)
    requires o < Position(Run(cfg, Fresh(logs), ls).committed, tp)
    ensures var w := Run(cfg, Fresh(logs), ls); o < |LogOf(w, tp)| && Settled(w, tp, o)
  {
    hide Step, Resolved, Settled;
    FreshOk(cfg, logs);
    RunKeeps(cfg, Fresh(logs), ls);
    var w := Run(cfg, Fresh(logs), ls);
    assert DoneBelow(cfg, w, tp, Position(w.committed, tp));
  }

  // ---- quarantine

  function Key(cfg: Config, w: World, tp: Partition, o: nat): string
    requires o < |LogOf(w, tp)|
  {
    FailKey(cfg.policy(tp.topic), LogOf(w, tp)[o])
  }

  predicate KeyAt(cfg: Config, w: World, tp: Partition, o: int, key: string)
  {
    0 <= o < |LogOf(w, tp)| && Key(cfg, w, tp, o) == key
  }

  predicate FirstOf(cfg: Config, w: World, tp: Partition, o: int, key: string)
  {
    KeyAt(cfg, w, tp, o, key) && forall i :: 0 <= i < o ==> !KeyAt(cfg, w, tp, i, key)
  }

  /** Another partition of the topic holds a record of the aggregate. */
  ghost predicate Shared(cfg: Config, w: World, tp: Partition, key: string)
  {
    exists s, i :: s != tp && s.topic == tp.topic && KeyAt(cfg, w, s, i, key)
  }

  /** The handler can be called for the first record of an aggregate here, and the aggregate has a record elsewhere. */
  ghost predicate RiskAt(cfg: Config, w: World, tp: Partition, o: int)
  {
    && 0 <= o < |LogOf(w, tp)| && Key(cfg, w, tp, o) != "" && FirstOf(cfg, w, tp, o, Key(cfg, w, tp, o))
    && Callable(cfg.policy(tp.topic), LogOf(w, tp)[o]) && Shared(cfg, w, tp, Key(cfg, w, tp, o))
  }

  ghost predicate Risky(cfg: Config, w: World) { exists tp, o :: RiskAt(cfg, w, tp, o) }

  predicate Quarantined(w: World, tp: Partition, key: string) { key != "" && (tp.topic, key) in w.rows }

  /** The earlier records of the record's aggregate were accepted. */
  predicate PrefixOk(cfg: Config, w: World, tp: Partition, o: nat)
  {
    o < |LogOf(w, tp)| &&
    forall i :: 0 <= i < o && Key(cfg, w, tp, i) == Key(cfg, w, tp, o) != "" ==> (tp, i) in w.accepted
  }

  predicate AcceptedOk(cfg: Config, w: World, tp: Partition, o: nat)
  {
    PrefixOk(cfg, w, tp, o) && Acceptable(cfg.policy(tp.topic), LogOf(w, tp)[o])
  }

  ghost predicate Calls(cfg: Config, w: World)
  {
    && (w.late ==> Risky(cfg, w))
    && (forall e :: e in w.accepted ==> AcceptedOk(cfg, w, e.0, e.1))
    && (w.consumer.Busy? ==> forall tp :: tp in w.consumer.workers ==> Guarded(cfg, w, tp, w.consumer.workers[tp]))
  }

  /** While the handler may be called, the aggregate's earlier records were accepted, and only a record of another partition
      can have quarantined it. */
  ghost predicate Guarded(cfg: Config, w: World, tp: Partition, k: Worker)
  {
    k.pc.Calling? && k.at < |LogOf(w, tp)| ==>
      PrefixOk(cfg, w, tp, k.at) && (Quarantined(w, tp, Key(cfg, w, tp, k.at)) ==> Shared(cfg, w, tp, Key(cfg, w, tp, k.at)))
  }

  lemma StepGrows(cfg: Config, w: World, l: Label)
    ensures Grows(w, Step(cfg, w, l))
  {
    hide FailKey, CheckKey, Callable, Acceptable, Deliverable, Workers;
  }

  lemma PrefixStays(cfg: Config, w: World, w': World, tp: Partition, o: nat)
    requires Grows(w, w') && PrefixOk(cfg, w, tp, o)
    ensures PrefixOk(cfg, w', tp, o) && LogOf(w', tp)[o] == LogOf(w, tp)[o]
  {
    hide FailKey;
    assert forall i :: 0 <= i <= o ==> LogOf(w', tp)[i] == LogOf(w, tp)[i];
    forall i | 0 <= i < o && Key(cfg, w', tp, i) == Key(cfg, w', tp, o) != "" ensures (tp, i) in w'.accepted {
      assert Key(cfg, w, tp, i) == Key(cfg, w, tp, o);
    }
  }

  lemma KeyStays(cfg: Config, w: World, w': World, tp: Partition, o: int, key: string)
    requires Grows(w, w') && 0 <= o < |LogOf(w, tp)|
    ensures KeyAt(cfg, w', tp, o, key) == KeyAt(cfg, w, tp, o, key)
  {
    hide FailKey;
  }

  lemma SharedStays(cfg: Config, w: World, w': World, tp: Partition, key: string)
    requires Grows(w, w') && Shared(cfg, w, tp, key)
    ensures Shared(cfg, w', tp, key)
  {
    hide KeyAt;
    var s, i :| s != tp && s.topic == tp.topic && KeyAt(cfg, w, s, i, key);
    assert 0 <= i < |LogOf(w, s)| by { InLog(cfg, w, s, i, key); }
    KeyStays(cfg, w, w', s, i, key);
  }

  lemma InLog(cfg: Config, w: World, s: Partition, i: int, key: string)
    requires KeyAt(cfg, w, s, i, key)
    ensures 0 <= i < |LogOf(w, s)|
  {}

  lemma RiskStays(cfg: Config, w: World, w': World)
    requires Grows(w, w') && Risky(cfg, w)
    ensures Risky(cfg, w')
  {
    hide FailKey, Shared, Callable;
    var tp, o :| RiskAt(cfg, w, tp, o);
    var key := Key(cfg, w, tp, o);
    forall i | 0 <= i <= o ensures KeyAt(cfg, w', tp, i, key) == KeyAt(cfg, w, tp, i, key) && LogOf(w', tp)[i] == LogOf(w, tp)[i] {
      KeyStays(cfg, w, w', tp, i, key);
    }
    SharedStays(cfg, w, w', tp, key);
    assert RiskAt(cfg, w', tp, o);
  }

  /** The first record of an aggregate in a partition. */
  lemma {:induction false} FirstExists(cfg: Config, w: World, tp: Partition, o: nat) returns (i: nat)
    requires o < |LogOf(w, tp)|
    ensures i <= o && FirstOf(cfg, w, tp, i, Key(cfg, w, tp, o))
  {
    hide FailKey;
    var key := Key(cfg, w, tp, o);
    if j: nat :| j < o && KeyAt(cfg, w, tp, j, key) {
      i := FirstExists(cfg, w, tp, j);
    } else {
      i := o;
    }
  }

  /** A late call is a risk of the logs. */
  lemma LateIsRisky(cfg: Config, w: World, tp: Partition, o: nat)
    requires (forall e :: e in w.accepted ==> AcceptedOk(cfg, w, e.0, e.1)) && PrefixOk(cfg, w, tp, o)
    requires Callable(cfg.policy(tp.topic), LogOf(w, tp)[o]) && Key(cfg, w, tp, o) != "" && Shared(cfg, w, tp, Key(cfg, w, tp, o))
    ensures Risky(cfg, w)
  {
    hide FailKey, Shared, Callable;
    var i := FirstExists(cfg, w, tp, o);
    if i < o {
      assert (tp, i) in w.accepted;
      assert AcceptedOk(cfg, w, (tp, i).0, (tp, i).1);
    }
    assert RiskAt(cfg, w, tp, i);
  }

  /** While the aggregate is not quarantined, every earlier record of it has been accepted. */
  lemma EarlierAccepted(cfg: Config, w: World, tp: Partition, o: nat)
    requires DoneBelow(cfg, w, tp, o) && o < |LogOf(w, tp)| && !Quarantined(w, tp, Key(cfg, w, tp, o))
    ensures PrefixOk(cfg, w, tp, o)
  {
    hide FailKey;
    forall i | 0 <= i < o && Key(cfg, w, tp, i) == Key(cfg, w, tp, o) != "" ensures (tp, i) in w.accepted {
      assert Resolved(cfg, w, tp, i);
    }
  }

  lemma GuardStays(cfg: Config, w: World, w': World, tp: Partition, k: Worker)
    requires Grows(w, w') && Guarded(cfg, w, tp, k) && (k.pc.Calling? ==> k.at < |LogOf(w, tp)|)
    requires k.pc.Calling? && Quarantined(w', tp, Key(cfg, w, tp, k.at)) ==>
               Quarantined(w, tp, Key(cfg, w, tp, k.at)) || Shared(cfg, w, tp, Key(cfg, w, tp, k.at))
    ensures Guarded(cfg, w', tp, k)
  {
    hide FailKey, Shared, PrefixOk, Grows;
    if k.pc.Calling? {
      PrefixStays(cfg, w, w', tp, k.at);
      if Quarantined(w', tp, Key(cfg, w, tp, k.at)) { SharedStays(cfg, w, w', tp, Key(cfg, w, tp, k.at)); }
    }
  }

  lemma WorkerStepCalls(cfg: Config, w: World, tp: Partition, l: Label)
    requires Inv(cfg, w) && Calls(cfg, w) && w.consumer.Busy? && tp in w.consumer.workers
    ensures Calls(cfg, WorkerStep(cfg, w, tp, w.consumer.workers[tp], l))
  {
    hide Inv, DoneBelow, FailKey, WorkerStep, PrefixOk, Guarded, AcceptedOk, Grows, Risky;
    var k := w.consumer.workers[tp];
    KnownWorker(cfg, w, tp);
    var w' := WorkerStep(cfg, w, tp, k, l);
    if w' != w {
      WorkerStepGrows(cfg, w, tp, k, l);
      if w.late { RiskStays(cfg, w, w'); }
      WorkerSteps(cfg, w, tp, l);
      forall e | e in w'.accepted ensures AcceptedOk(cfg, w', e.0, e.1) {
        if e in w.accepted { AcceptedStays(cfg, w, w', e.0, e.1); }
      }
      forall x | x in w'.consumer.workers ensures Guarded(cfg, w', x, w'.consumer.workers[x]) {
        if x != tp { OtherGuarded(cfg, w, tp, l, x); }
      }
    }
  }

  lemma AcceptedStays(cfg: Config, w: World, w': World, tp: Partition, o: nat)
    requires Grows(w, w') && AcceptedOk(cfg, w, tp, o)
    ensures AcceptedOk(cfg, w', tp, o)
  {
    hide PrefixOk, Acceptable, Grows;
    PrefixStays(cfg, w, w', tp, o);
  }

  /** The call is late only where the logs are a risk; what it accepts is in order. */
  lemma CalledOk(cfg: Config, w: World, w': World, tp: Partition, o: nat)
    requires Grows(w, w') && (forall e :: e in w.accepted ==> AcceptedOk(cfg, w, e.0, e.1))
    requires o < |LogOf(w, tp)| && PrefixOk(cfg, w, tp, o) && Callable(cfg.policy(tp.topic), LogOf(w, tp)[o])
    ensures Key(cfg, w, tp, o) != "" && Shared(cfg, w, tp, Key(cfg, w, tp, o)) ==> Risky(cfg, w')
    ensures Acceptable(cfg.policy(tp.topic), LogOf(w, tp)[o]) ==> AcceptedOk(cfg, w', tp, o)
  {
    hide FailKey, Callable, Acceptable, PrefixOk, Shared, Risky, AcceptedOk, Grows;
    if Key(cfg, w, tp, o) != "" && Shared(cfg, w, tp, Key(cfg, w, tp, o)) {
      LateIsRisky(cfg, w, tp, o);
      RiskStays(cfg, w, w');
    }
    PrefixStays(cfg, w, w', tp, o);
    if Acceptable(cfg.policy(tp.topic), LogOf(w, tp)[o]) { NowAccepted(cfg, w', tp, o); }
  }

  lemma NowAccepted(cfg: Config, w: World, tp: Partition, o: nat)
    requires PrefixOk(cfg, w, tp, o) && Acceptable(cfg.policy(tp.topic), LogOf(w, tp)[o])
    ensures AcceptedOk(cfg, w, tp, o)
  {}

  /** What a worker's own step does. */
  ghost predicate Moved(cfg: Config, w: World, w': World, tp: Partition, k: Worker)
  {
    && w.consumer.Busy? && tp in w.consumer.workers && w.consumer.workers[tp] == k
    && w'.consumer.Busy? && tp in w'.consumer.workers
    && w'.consumer.workers == w.consumer.workers[tp := w'.consumer.workers[tp]]
    && Guarded(cfg, w', tp, w'.consumer.workers[tp]) && (w'.late ==> w.late || Risky(cfg, w'))
    && (forall e :: e in w'.accepted && e !in w.accepted ==> AcceptedOk(cfg, w', e.0, e.1))
    && (forall r :: r in w'.rows ==> r in w.rows || (k.at < |LogOf(w, tp)| && r == (tp.topic, Key(cfg, w, tp, k.at))))
  }

  lemma WorkerSteps(cfg: Config, w: World, tp: Partition, l: Label)
    requires Inv(cfg, w) && Calls(cfg, w) && w.consumer.Busy? && tp in w.consumer.workers
    ensures var k := w.consumer.workers[tp];
            var w' := WorkerStep(cfg, w, tp, k, l);
            w' != w ==> Moved(cfg, w, w', tp, k)
  {
    hide Inv, DoneBelow, FailKey, Calls, Guarded, AcceptedOk, Risky, CheckStep, CallHandlerStep, PrefixOk, Shared;
    var k := w.consumer.workers[tp];
    var w' := WorkerStep(cfg, w, tp, k, l);
    if w' != w && k.at < k.to && k.at < |LogOf(w, tp)| && l.Check? && k.pc.Ready? {
      CheckCalls(cfg, w, tp, k, l.ok);
    } else if w' != w && k.at < k.to && k.at < |LogOf(w, tp)| && l.Call? && k.pc.Calling? {
      CallCalls(cfg, w, tp, k, l.outcome);
    } else if w' != w {
      NotCalling(cfg, w', tp, w'.consumer.workers[tp]);
    }
  }

  lemma CheckCalls(cfg: Config, w: World, tp: Partition, k: Worker, ok: bool)
    requires Inv(cfg, w) && w.consumer.Busy? && tp in w.consumer.workers && w.consumer.workers[tp] == k
    requires Calls(cfg, w) && k.at < |LogOf(w, tp)|
    ensures Moved(cfg, w, CheckStep(cfg, w, tp, k, LogOf(w, tp)[k.at], ok), tp, k)
  {
    hide Inv, DoneBelow, FailKey, CheckKey, Callable, PrefixOk, Risky, AcceptedOk, Shared;
    KnownWorker(cfg, w, tp);
    var w' := CheckStep(cfg, w, tp, k, LogOf(w, tp)[k.at], ok);
    KeysAgree(cfg.policy(tp.topic), LogOf(w, tp)[k.at]);
    if w'.consumer.workers[tp].pc.Calling? {
      EarlierAccepted(cfg, w, tp, k.at);
      PrefixStays(cfg, w, w', tp, k.at);
    }
  }

  lemma CallCalls(cfg: Config, w: World, tp: Partition, k: Worker, outcome: Outcome)
    requires Inv(cfg, w) && w.consumer.Busy? && tp in w.consumer.workers && w.consumer.workers[tp] == k
    requires Calls(cfg, w) && k.pc.Calling? && k.at < k.to && k.at < |LogOf(w, tp)|
    ensures var w' := CallHandlerStep(cfg, w, tp, k, LogOf(w, tp)[k.at], k.pc.attempt, outcome);
            w' != w ==> Moved(cfg, w, w', tp, k)
  {
    hide Inv, DoneBelow, FailKey, Callable, Acceptable, PrefixOk, Risky, AcceptedOk, Shared;
    KnownWorker(cfg, w, tp);
    assert Guarded(cfg, w, tp, k);
    var w' := CallHandlerStep(cfg, w, tp, k, LogOf(w, tp)[k.at], k.pc.attempt, outcome);
    if w' != w {
      CalledOk(cfg, w, w', tp, k.at);
      GuardStays(cfg, w, w', tp, k);
    }
  }

  /** What a worker's step does to another worker: only a record of its own partition can quarantine. */
  lemma OtherGuarded(cfg: Config, w: World, tp: Partition, l: Label, x: Partition)
    requires Inv(cfg, w) && Calls(cfg, w) && w.consumer.Busy? && tp in w.consumer.workers && x in w.consumer.workers && x != tp
    ensures Guarded(cfg, WorkerStep(cfg, w, tp, w.consumer.workers[tp], l), x, w.consumer.workers[x])
  {
    hide Inv, DoneBelow, FailKey, Callable, PrefixOk, Grows, AcceptedOk, Risky, WorkerStep;
    var k, kx := w.consumer.workers[tp], w.consumer.workers[x];
    var w' := WorkerStep(cfg, w, tp, k, l);
    KnownWorker(cfg, w, x);
    WorkerStepGrows(cfg, w, tp, k, l);
    WorkerSteps(cfg, w, tp, l);
    assert Guarded(cfg, w, x, kx);
    if kx.pc.Calling? && k.at < |LogOf(w, tp)| {
      assert KeyAt(cfg, w, tp, k.at, Key(cfg, w, tp, k.at));
    }
    GuardStays(cfg, w, w', x, kx);
  }

  lemma WorkerStepGrows(cfg: Config, w: World, tp: Partition, k: Worker, l: Label)
    requires w.consumer.Busy?
    ensures Grows(w, WorkerStep(cfg, w, tp, k, l))
  {
    hide FailKey, CheckKey, Callable, Acceptable;
  }

  lemma StepCalls(cfg: Config, w: World, l: Label)
    requires Inv(cfg, w) && Calls(cfg, w)
    ensures Calls(cfg, Step(cfg, w, l))
  {
    hide Inv, WorkerStep, Guarded, AcceptedOk, Risky, Deliverable, Grows;
    StepGrows(cfg, w, l);
    var w' := Step(cfg, w, l);
    if !l.Produce? && !l.Poll? && !l.RetryBatch? && !l.FinishBatch? && !l.Boot? && !l.Crash? {
      if w' != w { WorkerStepCalls(cfg, w, l.tp, l); }
    } else {
      if w.late { RiskStays(cfg, w, w'); }
      forall e | e in w'.accepted ensures AcceptedOk(cfg, w', e.0, e.1) { AcceptedStays(cfg, w, w', e.0, e.1); }
      if l.Produce? && w.consumer.Busy? {
        forall x | x in w.consumer.workers ensures Guarded(cfg, w', x, w.consumer.workers[x]) {
          InsideLog(cfg, w, x);
          GuardStays(cfg, w, w', x, w.consumer.workers[x]);
        }
      } else if w'.consumer.Busy? && w' != w {
        forall x | x in w'.consumer.workers ensures Guarded(cfg, w', x, w'.consumer.workers[x]) {
          NotCalling(cfg, w', x, w'.consumer.workers[x]);
        }
      }
    }
  }

  lemma NotCalling(cfg: Config, w: World, x: Partition, k: Worker)
    requires !k.pc.Calling?
    ensures Guarded(cfg, w, x, k)
  {}

  lemma InsideLog(cfg: Config, w: World, x: Partition)
    requires Inv(cfg, w) && w.consumer.Busy? && x in w.consumer.workers
    ensures w.consumer.workers[x].pc.Calling? ==> w.consumer.workers[x].at < |LogOf(w, x)|
  {
    hide Inv, DoneBelow;
    KnownWorker(cfg, w, x);
  }

  lemma {:induction false} RunCalls(cfg: Config, logs: map<Partition, seq<Rec>>, ls: seq<Label>)
    ensures Calls(cfg, Run(cfg, Fresh(logs), ls))
  {
    hide Inv, Step;
    if ls != [] {
      var before := ls[..|ls| - 1];
      RunCalls(cfg, logs, before);
      FreshOk(cfg, logs);
      RunKeeps(cfg, Fresh(logs), before);
      StepCalls(cfg, Run(cfg, Fresh(logs), before), ls[|ls| - 1]);
    }
  }

  /** In every run, whatever failed or crashed in between: what the handler accepted of an aggregate in a partition are the
      first of its records there, and the handler is called for an aggregate after its quarantine row exists only where the
      logs are a risk. */
  lemma QuarantineHolds(cfg: Config, logs: map<Partition, seq<Rec>>, ls: seq<Label>)
    ensures var w := Run(cfg, Fresh(logs), ls);
            && (w.late ==> Risky(cfg, w))
            && (forall tp, i: nat, j: nat :: (tp, j) in w.accepted && i < j ==>
                  j < |LogOf(w, tp)| && (Key(cfg, w, tp, i) == Key(cfg, w, tp, j) != "" ==> (tp, i) in w.accepted))
  {
    hide Step, FailKey, Risky;
    RunCalls(cfg, logs, ls);
    var w := Run(cfg, Fresh(logs), ls);
    forall tp, i: nat, j: nat | (tp, j) in w.accepted && i < j
      ensures j < |LogOf(w, tp)| && (Key(cfg, w, tp, i) == Key(cfg, w, tp, j) != "" ==> (tp, i) in w.accepted)
    {
      assert AcceptedOk(cfg, w, (tp, j).0, (tp, j).1);
    }
  }

  /** The record names the aggregate by its key; for Ranking, without a key, by its body, as far as that can be read. */
  predicate Names(p: Policy, r: Rec, aggregate: string)
  {
    match p
    case Ranking => r.key == aggregate || (r.key == "" && (r.parsed == Some(aggregate) || (r.parsed.None? && r.peek == aggregate)))
    case Gateway => r.key == aggregate
    case NoQuarantine => false
  }

  /** The body parses, and where the consumer keeps quarantine rows the record's key is the aggregate that the body names. */
  predicate SaysItsKey(cfg: Config, w: World, tp: Partition, o: nat)
  {
    o < |LogOf(w, tp)| &&
    var r := LogOf(w, tp)[o];
    r.parsed.Some? && (cfg.policy(tp.topic) != NoQuarantine ==> r.key != "" && r.parsed.value == r.key)
  }

  predicate CanBeRedisKey(key: string)
  {
    1 <= |key| <= 128 && key[0] !in "_-"
    && forall c :: c in key ==> '0' <= c <= '9' || 'A' <= c <= 'Z' || 'a' <= c <= 'z' || c in "_-"
  }

  /** A record may be accepted exactly when its body names its key, and for Gateway the key can be part of a Redis key; what is
      looked up before that is the key itself, where it can be trusted. */
  lemma AcceptableExactly(p: Policy, r: Rec)
    ensures Acceptable(p, r) <==>
              match p
              case Ranking => r.key != "" && r.parsed == Some(r.key)
              case Gateway => r.key != "" && r.parsed == Some(r.key) && CanBeRedisKey(r.key)
              case NoQuarantine => r.parsed.Some?
    ensures CheckKey(p, r) ==
              match p
              case Ranking => r.key
              case Gateway => if CanBeRedisKey(r.key) then r.key else ""
              case NoQuarantine => ""
  {
    assert r.key != "" ==> forall i :: 0 < i < |r.key| ==> r.key[i] in r.key;
  }

  /** In every run: only such records are handed to the handler or accepted; Gateway accepts those alone whose key can be part
      of a Redis key; and once a record was accepted, so were all earlier ones of its partition that name its aggregate. */
  lemma OnlyMatchingKeysAreCalled(cfg: Config, logs: map<Partition, seq<Rec>>, ls: seq<Label>)
    ensures var w := Run(cfg, Fresh(logs), ls);
            && (w.consumer.Busy? ==> forall tp :: tp in w.consumer.workers && w.consumer.workers[tp].pc.Calling? ==>
                  SaysItsKey(cfg, w, tp, w.consumer.workers[tp].at))
            && (forall tp, o :: (tp, o) in w.accepted ==>
                  SaysItsKey(cfg, w, tp, o) && (cfg.policy(tp.topic).Gateway? ==> CanBeRedisKey(LogOf(w, tp)[o].key)))
            && (forall tp, o: nat, i: nat :: (tp, o) in w.accepted && i < o ==>
                  Names(cfg.policy(tp.topic), LogOf(w, tp)[i], LogOf(w, tp)[o].key) ==> (tp, i) in w.accepted)
  {
    hide Step, Risky, Run;
    RunCalls(cfg, logs, ls);
    FreshOk(cfg, logs);
    RunKeeps(cfg, Fresh(logs), ls);
    var w := Run(cfg, Fresh(logs), ls);
    forall tp, o | (tp, o) in w.accepted ensures AcceptedOk(cfg, w, tp, o) { assert AcceptedOk(cfg, w, (tp, o).0, (tp, o).1); }
    forall tp, o: nat, i: nat | (tp, o) in w.accepted && i < o
      ensures AcceptedOk(cfg, w, tp, o) && (Key(cfg, w, tp, i) == Key(cfg, w, tp, o) != "" ==> (tp, i) in w.accepted)
    {
      assert AcceptedOk(cfg, w, tp, o);
    }
  }

  /** A batch that failed is worked through again from its first record, partition by partition. */
  lemma BatchStartsOver(cfg: Config, w: World, tp: Partition)
    requires w.consumer.Busy? && tp in w.consumer.workers
    requires forall x :: x in w.consumer.workers ==> Finished(w.consumer.workers[x]) || w.consumer.workers[x].pc.Stopped?
    ensures var (k, w') := (w.consumer.workers[tp], Step(cfg, w, RetryBatch));
            && w'.consumer.Busy? && tp in w'.consumer.workers && w'.consumer.workers[tp] == Worker(k.from, k.to, k.from, Ready)
            && w' == w.(consumer := w'.consumer)
  {}

  // ---- an undisturbed consumer

  lemma Then(cfg: Config, start: World, ls: seq<Label>, w: World, l: Label) returns (ls': seq<Label>)
    requires Run(cfg, start, ls) == w
    ensures ls' == ls + [l] && Run(cfg, start, ls') == Step(cfg, w, l)
  {
    ls' := ls + [l];
    assert ls'[..|ls|] == ls;
  }

  /** The consumer is busy with the record at n of this partition alone. */
  predicate Alone(w: World, tp: Partition, n: nat, pc: Pc)
  {
    w.consumer.Busy? && w.consumer.workers == map[tp := Worker(n, n + 1, n, pc)] && n < |LogOf(w, tp)|
  }

  lemma ThenCommits(cfg: Config, start: World, ls: seq<Label>, w: World, tp: Partition, n: nat) returns (ls': seq<Label>)
    requires Run(cfg, start, ls) == w && Alone(w, tp, n, Committing)
    ensures Run(cfg, start, ls') == w.(committed := w.committed[tp := n + 1], consumer := Idle(w.consumer.fetch))
  {
    hide Run;
    ls' := Then(cfg, start, ls, w, Commit(tp, true, true));
    var w' := At(w, tp, Worker(n, n + 1, n + 1, Ready)).(committed := w.committed[tp := n + 1]);
    assert Step(cfg, w, Commit(tp, true, true)) == w';
    ls' := Then(cfg, start, ls', w', FinishBatch);
  }

  lemma ThenPublishes(cfg: Config, start: World, ls: seq<Label>, w: World, tp: Partition, n: nat) returns (ls': seq<Label>)
    requires Run(cfg, start, ls) == w && Alone(w, tp, n, Publishing)
    ensures Run(cfg, start, ls') ==
      w.(dlq := w.dlq + {(tp, n)}, committed := w.committed[tp := n + 1], consumer := Idle(w.consumer.fetch))
  {
    hide Run;
    ls' := Then(cfg, start, ls, w, Publish(tp, true, true));
    var w' := At(w, tp, Worker(n, n + 1, n, Committing)).(dlq := w.dlq + {(tp, n)});
    assert Step(cfg, w, Publish(tp, true, true)) == w';
    ls' := ThenCommits(cfg, start, ls', w', tp, n);
  }

  function RowsAfter(cfg: Config, w: World, tp: Partition, rec: Rec): set<(string, string)>
  {
    var key := FailKey(cfg.policy(tp.topic), rec);
    if key == "" then w.rows else w.rows + {(tp.topic, key)}
  }

  lemma ThenFails(cfg: Config, start: World, ls: seq<Label>, w: World, tp: Partition, n: nat) returns (ls': seq<Label>)
    requires Run(cfg, start, ls) == w && Alone(w, tp, n, Quarantining)
    ensures Run(cfg, start, ls') ==
      w.(rows := RowsAfter(cfg, w, tp, LogOf(w, tp)[n]), dlq := w.dlq + {(tp, n)}, committed := w.committed[tp := n + 1],
         consumer := Idle(w.consumer.fetch))
  {
    hide Run, FailKey;
    ls' := Then(cfg, start, ls, w, Quarantine(tp, true, true));
    var w' := At(w, tp, Worker(n, n + 1, n, Publishing)).(rows := RowsAfter(cfg, w, tp, LogOf(w, tp)[n]));
    assert Step(cfg, w, Quarantine(tp, true, true)) == w';
    ls' := ThenPublishes(cfg, start, ls', w', tp, n);
  }

  /** The aggregate was quarantined by an earlier record. */
  predicate Barred(cfg: Config, w: World, tp: Partition, rec: Rec)
  {
    var key := CheckKey(cfg.policy(tp.topic), rec);
    key != "" && (tp.topic, key) in w.rows
  }

  /** The handler never accepts what the session store refuses. */
  ghost predicate Honest(cfg: Config, tp: Partition, rec: Rec, answers: nat -> Outcome)
  {
    forall a :: answers(a).Accepted? ==> Acceptable(cfg.policy(tp.topic), rec)
  }

  /** The handler's answers, asked from this attempt on, end in an acceptance. */
  predicate Succeeds(cfg: Config, answers: nat -> Outcome, attempt: nat)
    decreases cfg.maxAttempts - attempt
  {
    match answers(attempt)
    case Accepted => true
    case Terminal => false
    case Retryable => attempt < cfg.maxAttempts && Succeeds(cfg, answers, attempt + 1)
  }

  /** Whatever run led here and whatever the handler answers, a consumer that is left alone takes the next record to a
      commit: accepted when its aggregate is not quarantined and an answer within the allowed attempts accepts it, otherwise
      published to the dead-letter topic, with its aggregate quarantined. */
  lemma NextRecordIsSettled(cfg: Config, start: World, ls: seq<Label>, w: World, tp: Partition, n: nat, answers: nat -> Outcome)
    returns (ls': seq<Label>)
    requires Run(cfg, start, ls) == w && w.consumer.Idle? && n == Position(w.consumer.fetch, tp) && n < |LogOf(w, tp)|
    requires Honest(cfg, tp, LogOf(w, tp)[n], answers)
    ensures var rec := LogOf(w, tp)[n];
            var w' := w.(committed := w.committed[tp := n + 1], consumer := Idle(w.consumer.fetch[tp := n + 1]));
            Run(cfg, start, ls') ==
              if Barred(cfg, w, tp, rec) then w'.(dlq := w.dlq + {(tp, n)})
              else if Callable(cfg.policy(tp.topic), rec) && Succeeds(cfg, answers, 1) then w'.(accepted := w.accepted + {(tp, n)})
              else w'.(dlq := w.dlq + {(tp, n)}, rows := RowsAfter(cfg, w, tp, rec))
  {
    hide Run, Step, Barred, FailKey, Callable, Acceptable, Succeeds, Honest;
    var rec, p := LogOf(w, tp)[n], cfg.policy(tp.topic);
    var w1 := Polled(w, tp, n, Ready);
    ls' := Then(cfg, start, ls, w, Poll(map[tp := n + 1]));
    PollOne(cfg, w, tp, n);
    ls' := Then(cfg, start, ls', w1, Check(tp, true));
    CheckOne(cfg, w, tp, n);
    if Barred(cfg, w, tp, rec) {
      ls' := ThenPublishes(cfg, start, ls', Polled(w, tp, n, Publishing), tp, n);
    } else if Callable(p, rec) {
      assert !Barred(cfg, Polled(w, tp, n, Calling(1)), tp, rec) by { SameBarred(cfg, w, Polled(w, tp, n, Calling(1)), tp, rec); }
      ls' := ThenCalls(cfg, start, ls', Polled(w, tp, n, Calling(1)), tp, n, 1, answers);
    } else {
      ls' := ThenFails(cfg, start, ls', Polled(w, tp, n, Quarantining), tp, n);
    }
  }

  /** The record at n was polled. */
  function Polled(w: World, tp: Partition, n: nat, pc: Pc): World
    requires w.consumer.Idle?
  {
    w.(consumer := Busy(w.consumer.fetch[tp := n + 1], map[tp := Worker(n, n + 1, n, pc)]))
  }

  lemma PollOne(cfg: Config, w: World, tp: Partition, n: nat)
    requires w.consumer.Idle? && n == Position(w.consumer.fetch, tp) && n < |LogOf(w, tp)|
    ensures Step(cfg, w, Poll(map[tp := n + 1])) == Polled(w, tp, n, Ready)
  {
    var ends := map[tp := n + 1];
    assert w.consumer.fetch + ends == w.consumer.fetch[tp := n + 1];
    assert Workers(w.consumer.fetch, ends) == map[tp := Worker(n, n + 1, n, Ready)];
    assert tp in ends;
  }

  lemma CheckOne(cfg: Config, w: World, tp: Partition, n: nat)
    requires w.consumer.Idle? && n < |LogOf(w, tp)|
    ensures var rec := LogOf(w, tp)[n];
            Step(cfg, Polled(w, tp, n, Ready), Check(tp, true)) == Polled(w, tp, n,
              if Barred(cfg, w, tp, rec) then Publishing else if Callable(cfg.policy(tp.topic), rec) then Calling(1) else Quarantining)
  {
    hide CheckKey, Callable;
    var k := Worker(n, n + 1, n, Ready);
    forall pc ensures map[tp := k][tp := k.(pc := pc)] == map[tp := k.(pc := pc)] {}
  }

  lemma SameBarred(cfg: Config, w: World, w': World, tp: Partition, rec: Rec)
    requires w'.rows == w.rows
    ensures Barred(cfg, w', tp, rec) == Barred(cfg, w, tp, rec)
  {}

  lemma {:induction false} ThenCalls(cfg: Config, start: World, ls: seq<Label>, w: World, tp: Partition, n: nat, attempt: nat,
                                     answers: nat -> Outcome)
    returns (ls': seq<Label>)
    requires Run(cfg, start, ls) == w && Alone(w, tp, n, Calling(attempt))
    requires !Barred(cfg, w, tp, LogOf(w, tp)[n]) && Callable(cfg.policy(tp.topic), LogOf(w, tp)[n])
    requires Honest(cfg, tp, LogOf(w, tp)[n], answers)
    ensures var rec := LogOf(w, tp)[n];
            var w' := w.(committed := w.committed[tp := n + 1], consumer := Idle(w.consumer.fetch));
            Run(cfg, start, ls') ==
              if Succeeds(cfg, answers, attempt) then w'.(accepted := w.accepted + {(tp, n)})
              else w'.(dlq := w.dlq + {(tp, n)}, rows := RowsAfter(cfg, w, tp, rec))
    decreases cfg.maxAttempts - attempt
  {
    hide Run, Barred, Step, FailKey, Callable, Acceptable;
    var rec, outcome := LogOf(w, tp)[n], answers(attempt);
    ls' := Then(cfg, start, ls, w, Call(tp, outcome));
    CallOne(cfg, w, tp, n, attempt, outcome);
    var w' := Step(cfg, w, Call(tp, outcome));
    if outcome.Accepted? {
      ls' := ThenCommits(cfg, start, ls', w', tp, n);
    } else if outcome.Retryable? && attempt < cfg.maxAttempts {
      SameBarred(cfg, w, w', tp, rec);
      ls' := ThenCalls(cfg, start, ls', w', tp, n, attempt + 1, answers);
    } else {
      ls' := ThenFails(cfg, start, ls', w', tp, n);
    }
  }

  lemma CallOne(cfg: Config, w: World, tp: Partition, n: nat, attempt: nat, outcome: Outcome)
    requires Alone(w, tp, n, Calling(attempt)) && !Barred(cfg, w, tp, LogOf(w, tp)[n])
    requires Callable(cfg.policy(tp.topic), LogOf(w, tp)[n])
    requires outcome.Accepted? ==> Acceptable(cfg.policy(tp.topic), LogOf(w, tp)[n])
    ensures var next := match outcome
                        case Accepted => Committing
                        case Terminal => Quarantining
                        case Retryable => if attempt < cfg.maxAttempts then Calling(attempt + 1) else Quarantining;
            Step(cfg, w, Call(tp, outcome)) ==
              At(w, tp, Worker(n, n + 1, n, next)).(accepted := if outcome.Accepted? then w.accepted + {(tp, n)} else w.accepted)
            && Alone(Step(cfg, w, Call(tp, outcome)), tp, n, next)
  {
    hide CheckKey, FailKey, Callable, Acceptable;
    KeysAgree(cfg.policy(tp.topic), LogOf(w, tp)[n]);
  }

  /** A consumer that is left alone settles all records from its position on. */
  lemma {:induction false} ThenCatchesUp(cfg: Config, start: World, ls: seq<Label>, w: World, tp: Partition, n: nat,
                                         answers: nat -> nat -> Outcome)
    returns (ls': seq<Label>, w': World)
    requires Run(cfg, start, ls) == w && w.consumer.Idle? && n == Position(w.consumer.fetch, tp) <= |LogOf(w, tp)|
    requires forall o: nat :: n <= o < |LogOf(w, tp)| ==> Honest(cfg, tp, LogOf(w, tp)[o], answers(o))
    ensures Run(cfg, start, ls') == w' && w'.logs == w.logs && Grows(w, w')
    ensures forall o: nat :: n <= o < |LogOf(w, tp)| ==> Settled(w', tp, o)
    ensures Position(w'.committed, tp) == if n < |LogOf(w, tp)| then |LogOf(w, tp)| else Position(w.committed, tp)
    decreases |LogOf(w, tp)| - n
  {
    hide Run, Honest, Barred, Callable, Succeeds, FailKey;
    if n == |LogOf(w, tp)| {
      ls', w' := ls, w;
    } else {
      ls' := NextRecordIsSettled(cfg, start, ls, w, tp, n, answers(n));
      var w1 := Run(cfg, start, ls');
      assert w1.logs == w.logs && Settled(w1, tp, n) && Grows(w, w1);
      ls', w' := ThenCatchesUp(cfg, start, ls', w1, tp, n + 1, answers);
    }
  }

  /** A consumer may crash in any reachable state; when it starts again and is left alone, it settles all records of a
      partition that its logs hold, and its committed position is then their end. */
  lemma RestartCatchesUp(cfg: Config, logs: map<Partition, seq<Rec>>, ls: seq<Label>, tp: Partition, answers: nat -> nat -> Outcome)
    returns (ls': seq<Label>)
    requires var w := Run(cfg, Fresh(logs), ls);
             forall o: nat :: o < |LogOf(w, tp)| ==> Honest(cfg, tp, LogOf(w, tp)[o], answers(o))
    ensures var w := Run(cfg, Fresh(logs), ls);
            var w' := Run(cfg, Step(cfg, Step(cfg, w, Crash), Boot), ls');
            && w'.logs == w.logs && Grows(w, w') && Position(w'.committed, tp) == |LogOf(w, tp)|
            && forall o: nat :: o < |LogOf(w, tp)| ==> Settled(w', tp, o)
  {
    hide Run, Honest, Resolved, Settled;
    var w := Run(cfg, Fresh(logs), ls);
    FreshOk(cfg, logs);
    RunKeeps(cfg, Fresh(logs), ls);
    assert DoneBelow(cfg, w, tp, Position(w.committed, tp));
    var w1 := w.(consumer := Idle(w.committed));
    DoneStays(cfg, w, w1, tp, Position(w.committed, tp));
    assert Run(cfg, w1, []) == w1 by { NoSteps(cfg, w1); }
    var w';
    ls', w' := ThenCatchesUp(cfg, w1, [], w1, tp, Position(w.committed, tp), answers);
    DoneStays(cfg, w, w', tp, Position(w.committed, tp));
  }

  lemma NoSteps(cfg: Config, w: World)
    ensures Run(cfg, w, []) == w
  {}
}
