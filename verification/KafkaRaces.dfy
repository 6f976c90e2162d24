/** Which logs let the handler be called for an aggregate whose quarantine row exists: both directions. */
module KafkaRaces {
  import opened Common
  import opened KafkaConsumer

  /** Some run over these logs, without any further record, calls the handler for a quarantined aggregate. */
  ghost predicate CanBeLate(cfg: Config, logs: map<Partition, seq<Rec>>)
  {
    exists ls :: LateRun(cfg, logs, ls)
  }

  ghost predicate LateRun(cfg: Config, logs: map<Partition, seq<Rec>>, ls: seq<Label>)
  {
    Run(cfg, Fresh(logs), ls).late && Run(cfg, Fresh(logs), ls).logs == logs
  }

  /** A late call is possible exactly when the first record of an aggregate in some partition can be handed to the handler
      and another partition of the topic also holds a record of the aggregate. */
  lemma LateExactly(cfg: Config, logs: map<Partition, seq<Rec>>)
    ensures CanBeLate(cfg, logs) <==> Risky(cfg, Fresh(logs))
  {
    hide Run, RiskAt;
    if CanBeLate(cfg, logs) {
      var ls :| LateRun(cfg, logs, ls);
      QuarantineHolds(cfg, logs, ls);
      SameRisk(cfg, Run(cfg, Fresh(logs), ls), Fresh(logs));
    }
    if Risky(cfg, Fresh(logs)) {
      var tp, o :| RiskAt(cfg, Fresh(logs), tp, o);
      var ls := RaceIsLate(cfg, logs, tp, o);
      assert LateRun(cfg, logs, ls);
    }
  }

  /** Whether logs are a risk depends on the logs alone. */
  lemma SameRisk(cfg: Config, w: World, w': World)
    requires w.logs == w'.logs && Risky(cfg, w)
    ensures Risky(cfg, w')
  {
    hide RiskAt;
    var bare := w.(rows := {}, accepted := {}, dlq := {});
    var tp, o :| RiskAt(cfg, w, tp, o);
    assert RiskAt(cfg, bare, tp, o) by { SameRiskAt(cfg, w, bare, tp, o); }
    RiskStays(cfg, bare, w');
  }

  lemma SameRiskAt(cfg: Config, w: World, w': World, tp: Partition, o: int)
    requires w.logs == w'.logs && RiskAt(cfg, w, tp, o)
    ensures RiskAt(cfg, w', tp, o)
  {
    hide FailKey, Callable;
    var key := Key(cfg, w, tp, o);
    assert forall x, i :: KeyAt(cfg, w', x, i, key) == KeyAt(cfg, w, x, i, key);
  }

  /** Records of an aggregate in two partitions, one without a key: a keyless record that names the aggregate only in its
      body quarantines it while another partition's first record of it is already past the check. */
  lemma KeylessRecordRaces(cfg: Config, logs: map<Partition, seq<Rec>>, keyed: Partition, bare: Partition, o: nat, i: nat)
    requires keyed in logs && bare in logs && o < |logs[keyed]| && i < |logs[bare]|
    requires keyed.topic == bare.topic && keyed != bare && cfg.policy(keyed.topic).Ranking?
    requires Callable(Ranking, logs[keyed][o])
    requires forall k :: 0 <= k < o ==> FailKey(Ranking, logs[keyed][k]) != logs[keyed][o].key
    requires logs[bare][i].key == "" && logs[bare][i].parsed.None? && logs[bare][i].peek == logs[keyed][o].key
    ensures CanBeLate(cfg, logs)
  {
    var w := Fresh(logs);
    assert KeyAt(cfg, w, bare, i, logs[keyed][o].key);
    assert RiskAt(cfg, w, keyed, o);
    LateExactly(cfg, logs);
  }

  // ---- the run that is late

  lemma Booted(cfg: Config, logs: map<Partition, seq<Rec>>) returns (ls: seq<Label>, w: World)
    ensures Run(cfg, Fresh(logs), ls) == w == Fresh(logs).(consumer := Idle(map[]))
  {
    w := Fresh(logs).(consumer := Idle(map[]));
    ls := Then(cfg, Fresh(logs), [], Fresh(logs), Boot);
  }

  function Answer(cfg: Config, tp: Partition, rec: Rec): Outcome
  {
    if Acceptable(cfg.policy(tp.topic), rec) then Accepted else Terminal
  }

  /** The consumer takes the first n records of a partition, none of the aggregate, to their commits. */
  lemma {:induction false} CatchUp(cfg: Config, start: World, ls: seq<Label>, w: World, tp: Partition, n: nat, key: string)
    returns (ls': seq<Label>, w': World)
    requires Run(cfg, start, ls) == w && w.consumer.Idle? && Position(w.consumer.fetch, tp) == 0 && n <= |LogOf(w, tp)|
    requires (forall i :: 0 <= i < n ==> !KeyAt(cfg, w, tp, i, key)) && (tp.topic, key) !in w.rows
    ensures Run(cfg, start, ls') == w' && w'.consumer.Idle? && w'.logs == w.logs && (tp.topic, key) !in w'.rows
    ensures Position(w'.consumer.fetch, tp) == n
    ensures forall x :: x != tp ==> Position(w'.consumer.fetch, x) == Position(w.consumer.fetch, x)
    decreases n
  {
    hide Run, FailKey, Acceptable, Callable, Barred, Succeeds;
    if n == 0 {
      ls', w' := ls, w;
    } else {
      var before, v := CatchUp(cfg, start, ls, w, tp, n - 1, key);
      var rec := LogOf(v, tp)[n - 1];
      assert Answer(cfg, tp, rec).Accepted? ==> Acceptable(cfg.policy(tp.topic), rec);
      ls' := NextRecordIsSettled(cfg, start, before, v, tp, n - 1, a => Answer(cfg, tp, rec));
      w' := Run(cfg, start, ls');
      assert !KeyAt(cfg, w, tp, n - 1, key);
      assert LogOf(v, tp) == LogOf(w, tp);
      assert FailKey(cfg.policy(tp.topic), rec) != key;
    }
  }

  lemma CatchUpTo(cfg: Config, start: World, ls: seq<Label>, w: World, tp: Partition, n: nat, key: string)
    returns (ls': seq<Label>, w': World)
    requires Run(cfg, start, ls) == w && w.consumer.Idle? && Position(w.consumer.fetch, tp) == 0 && w.logs == start.logs
    requires FirstOf(cfg, start, tp, n, key) && (tp.topic, key) !in w.rows
    ensures Run(cfg, start, ls') == w' && w'.consumer.Idle? && w'.logs == w.logs && (tp.topic, key) !in w'.rows
    ensures Position(w'.consumer.fetch, tp) == n && KeyAt(cfg, w', tp, n, key)
    ensures forall x :: x != tp ==> Position(w'.consumer.fetch, x) == Position(w.consumer.fetch, x)
  {
    hide Run, FailKey;
    assert forall k :: KeyAt(cfg, w, tp, k, key) == KeyAt(cfg, start, tp, k, key);
    ls', w' := CatchUp(cfg, start, ls, w, tp, n, key);
    assert KeyAt(cfg, w', tp, n, key) == KeyAt(cfg, w, tp, n, key);
  }

  /** Two partitions have a record in hand. */
  function Pair(w: World, fetch: map<Partition, nat>, tp: Partition, a: Worker, s: Partition, b: Worker): World
  {
    w.(consumer := Busy(fetch, map[tp := a, s := b]))
  }

  lemma PairIsUnordered(w: World, fetch: map<Partition, nat>, tp: Partition, a: Worker, s: Partition, b: Worker)
    requires tp != s
    ensures Pair(w, fetch, tp, a, s, b) == Pair(w, fetch, s, b, tp, a)
  {
    assert map[tp := a, s := b] == map[s := b, tp := a];
  }

  function At0(n: nat, pc: Pc): Worker { Worker(n, n + 1, n, pc) }

  lemma PollPair(cfg: Config, w: World, tp: Partition, o: nat, s: Partition, j: nat) returns (fetch: map<Partition, nat>, l: Label)
    requires w.consumer.Idle? && tp != s && o < |LogOf(w, tp)| && j < |LogOf(w, s)|
    requires Position(w.consumer.fetch, tp) == o && Position(w.consumer.fetch, s) == j
    ensures Step(cfg, w, l) == Pair(w, fetch, tp, At0(o, Ready), s, At0(j, Ready))
  {
    var ends := map[tp := o + 1, s := j + 1];
    fetch, l := w.consumer.fetch + ends, Poll(ends);
    assert tp in ends;
    assert Workers(w.consumer.fetch, ends) == map[tp := At0(o, Ready), s := At0(j, Ready)];
  }

  /** The first of the pair passes the check, while its aggregate is not quarantined. */
  lemma PairChecks(cfg: Config, w: World, fetch: map<Partition, nat>, tp: Partition, o: nat, s: Partition, b: Worker, key: string)
    requires KeyAt(cfg, w, tp, o, key) && key != "" && (tp.topic, key) !in w.rows && tp != s
    ensures Step(cfg, Pair(w, fetch, tp, At0(o, Ready), s, b), Check(tp, true)) ==
              Pair(w, fetch, tp, At0(o, if Callable(cfg.policy(tp.topic), LogOf(w, tp)[o]) then Calling(1) else Quarantining), s, b)
  {
    hide FailKey, CheckKey, Callable;
    KeysAgree(cfg.policy(tp.topic), LogOf(w, tp)[o]);
    forall pc ensures map[tp := At0(o, Ready), s := b][tp := At0(o, pc)] == map[tp := At0(o, pc), s := b] {}
  }

  lemma PairRefused(cfg: Config, w: World, fetch: map<Partition, nat>, tp: Partition, o: nat, s: Partition, b: Worker, key: string)
    requires KeyAt(cfg, w, tp, o, key) && (tp.topic, key) !in w.rows && tp != s
    ensures Step(cfg, Pair(w, fetch, tp, At0(o, Calling(1)), s, b), Call(tp, Terminal)) ==
              Pair(w, fetch, tp, At0(o, Quarantining), s, b)
  {
    hide FailKey, Callable;
    assert map[tp := At0(o, Calling(1)), s := b][tp := At0(o, Quarantining)] == map[tp := At0(o, Quarantining), s := b];
  }

  lemma PairQuarantines(cfg: Config, w: World, fetch: map<Partition, nat>, tp: Partition, o: nat, s: Partition, b: Worker, key: string)
    requires KeyAt(cfg, w, tp, o, key) && key != "" && tp != s
    ensures Step(cfg, Pair(w, fetch, tp, At0(o, Quarantining), s, b), Quarantine(tp, true, true)) ==
              Pair(w.(rows := w.rows + {(tp.topic, key)}), fetch, tp, At0(o, Publishing), s, b)
  {
    hide FailKey, Callable;
    assert map[tp := At0(o, Quarantining), s := b][tp := At0(o, Publishing)] == map[tp := At0(o, Publishing), s := b];
  }

  /** Once the row exists, the next handler call is late. */
  lemma PairIsLate(cfg: Config, w: World, fetch: map<Partition, nat>, tp: Partition, o: nat, s: Partition, b: Worker, key: string)
    requires KeyAt(cfg, w, tp, o, key) && key != "" && (tp.topic, key) in w.rows && tp != s
    ensures var w' := Step(cfg, Pair(w, fetch, tp, At0(o, Calling(1)), s, b), Call(tp, Terminal));
            w'.late && w'.logs == w.logs
  {
    hide FailKey, Callable;
  }

  /** Both records pass the check before either fails; then one fails, and the other is handed over. */
  lemma BothInHand(cfg: Config, start: World, ls: seq<Label>, w: World, tp: Partition, o: nat, s: Partition, j: nat, key: string)
    returns (ls': seq<Label>)
    requires Run(cfg, start, ls) == w && w.consumer.Idle? && tp != s && tp.topic == s.topic && (tp.topic, key) !in w.rows
    requires KeyAt(cfg, w, tp, o, key) && KeyAt(cfg, w, s, j, key) && key != ""
    requires o < |LogOf(w, tp)| && Callable(cfg.policy(tp.topic), LogOf(w, tp)[o])
    requires Position(w.consumer.fetch, tp) == o && Position(w.consumer.fetch, s) == j
    ensures Run(cfg, start, ls').late && Run(cfg, start, ls').logs == w.logs
  {
    hide Run, Step, Key, Callable, Pair;
    InLog(cfg, w, s, j, key);
    var fetch, l := PollPair(cfg, w, tp, o, s, j);
    ls' := Then(cfg, start, ls, w, l);
    ls' := Then(cfg, start, ls', Pair(w, fetch, tp, At0(o, Ready), s, At0(j, Ready)), Check(tp, true));
    PairChecks(cfg, w, fetch, tp, o, s, At0(j, Ready), key);
    PairIsUnordered(w, fetch, tp, At0(o, Calling(1)), s, At0(j, Ready));
    ls' := Then(cfg, start, ls', Pair(w, fetch, s, At0(j, Ready), tp, At0(o, Calling(1))), Check(s, true));
    PairChecks(cfg, w, fetch, s, j, tp, At0(o, Calling(1)), key);
    if Callable(cfg.policy(s.topic), LogOf(w, s)[j]) {
      ls' := Then(cfg, start, ls', Pair(w, fetch, s, At0(j, Calling(1)), tp, At0(o, Calling(1))), Call(s, Terminal));
      PairRefused(cfg, w, fetch, s, j, tp, At0(o, Calling(1)), key);
    }
    ls' := Then(cfg, start, ls', Pair(w, fetch, s, At0(j, Quarantining), tp, At0(o, Calling(1))), Quarantine(s, true, true));
    PairQuarantines(cfg, w, fetch, s, j, tp, At0(o, Calling(1)), key);
    var w' := w.(rows := w.rows + {(s.topic, key)});
    PairIsUnordered(w', fetch, s, At0(j, Publishing), tp, At0(o, Calling(1)));
    ls' := Then(cfg, start, ls', Pair(w', fetch, tp, At0(o, Calling(1)), s, At0(j, Publishing)), Call(tp, Terminal));
    SameKeyAt(cfg, w, w', tp, o, key);
    PairIsLate(cfg, w', fetch, tp, o, s, At0(j, Publishing), key);
  }

  lemma SameKeyAt(cfg: Config, w: World, w': World, tp: Partition, o: int, key: string)
    requires w.logs == w'.logs && KeyAt(cfg, w, tp, o, key)
    ensures KeyAt(cfg, w', tp, o, key)
  {}

  /** The consumer is caught up to the first record of the aggregate in both partitions, and takes both in hand. */
  lemma RaceIsLate(cfg: Config, logs: map<Partition, seq<Rec>>, tp: Partition, o: int) returns (ls: seq<Label>)
    requires RiskAt(cfg, Fresh(logs), tp, o)
    ensures LateRun(cfg, logs, ls)
  {
    hide Run, Step, FailKey, Callable, KeyAt;
    var start := Fresh(logs);
    var key := Key(cfg, start, tp, o);
    var s, i :| s != tp && s.topic == tp.topic && KeyAt(cfg, start, s, i, key);
    KeyIs(cfg, start, s, i, key);
    var j := FirstExists(cfg, start, s, i);
    var w;
    ls, w := Booted(cfg, logs);
    ls, w := CatchUpTo(cfg, start, ls, w, tp, o, key);
    ls, w := CatchUpTo(cfg, start, ls, w, s, j, key);
    SameKeyAt(cfg, start, w, tp, o, key);
    ls := BothInHand(cfg, start, ls, w, tp, o, s, j, key);
  }

  lemma KeyIs(cfg: Config, w: World, tp: Partition, o: int, key: string)
    requires KeyAt(cfg, w, tp, o, key)
    ensures 0 <= o < |LogOf(w, tp)| && Key(cfg, w, tp, o) == key
  {}
}
