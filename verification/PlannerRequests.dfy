/** What the changed paths ask of the delivery plan, path by path and entry by entry, and what the plan makes of it. */
module PlannerRequests {
  import opened Common
  import opened ImpactGraph
  import opened ImpactPlanner

  predicate HasEffect(m: ImpactMap, c: Change, effect: Effect)
  {
    c.owner.Repository? && c.owner.name in m.effects && m.effects[c.owner.name] == effect
  }

  predicate Uses(consumers: map<string, set<string>>, name: string, n: string) { name in consumers && n in consumers[name] }

  /** An entry is tested for its own inputs, for a library whose test consumer it is, for a contract that it is a party to, and
      for a path that tests every component. */
  predicate AsksTest(m: ImpactMap, c: Change, n: string)
  {
    || n in c.tests
    || (c.owner.Shared? && Uses(m.testConsumers, c.owner.name, n))
    || (c.owner.Contract? && Uses(m.parties, c.owner.name, n))
    || (HasEffect(m, c, TestAll) && n in m.components)
  }

  predicate AsksImage(m: ImpactMap, c: Change, n: string)
  {
    || n in c.images
    || (c.owner.Shared? && Uses(m.imageConsumers, c.owner.name, n))
    || (HasEffect(m, c, ImageAll) && n in m.components)
  }

  predicate Available(m: ImpactMap, deploy: set<Env>, n: string, e: Env)
  {
    e in deploy && (n in m.platformEnvs ==> e in m.platformEnvs[n])
  }

  /** An entry is reconciled where a changed inventory says so: its own, that of a platform node it depends on, or the
      inventory of everything, which without an environment in the path means all of the pipeline's. */
  ghost predicate AsksEnv(m: ImpactMap, deploy: set<Env>, c: Change, n: string, e: Env)
  {
    Available(m, deploy, n, e) &&
    match c.owner
    case Inventory(name) => n == name && c.env == Some(e)
    case PlatformInventory(name) => n == name && c.env == Some(e)
    case Platform(name) => Reaches(m.graph, n, name) && c.env == Some(e)
    case Repository(_) => HasEffect(m, c, InventoryAll) && (c.env.None? || c.env == Some(e))
    case _ => false
  }

  /** A path with an input pattern of something that has no entry, a repository path without an effect, and an inventory of
      something that is not managed there. */
  ghost predicate Raises(m: ImpactMap, c: Change)
  {
    || (exists n :: n in c.images + c.charts && n !in m.entries)
    || (match c.owner
        case Repository(name) => name !in m.effects
        case Inventory(name) => c.env.None? || name !in m.components
        case PlatformInventory(name) =>
          c.env.None? || name !in m.platformEnvs || name !in m.entries || c.env.value !in m.platformEnvs[name]
        case Platform(name) => c.env.None? && exists n :: n in m.entries && Reaches(m.graph, n, name)
        case _ => false)
  }

  ghost predicate TestAsked(m: ImpactMap, changes: seq<Change>, n: string) { exists c :: c in changes && AsksTest(m, c, n) }

  ghost predicate ImageAsked(m: ImpactMap, changes: seq<Change>, n: string) { exists c :: c in changes && AsksImage(m, c, n) }

  ghost predicate ChartAsked(changes: seq<Change>, n: string) { exists c :: c in changes && n in c.charts }

  ghost predicate EnvAsked(m: ImpactMap, deploy: set<Env>, changes: seq<Change>, n: string, e: Env)
  {
    exists c :: c in changes && AsksEnv(m, deploy, c, n, e)
  }

  ghost predicate AsksOnly(a: Action, test: bool, image: bool, chart: bool)
  {
    && a.test == test && a.image == image && a.chart == chart && (a.reconcile <==> a.envs != {})
    && !a.publishImage && !a.publishChart && !a.promote
  }

  /** The entries hold what was asked for, and nothing else. */
  ghost predicate Asked(m: ImpactMap, deploy: set<Env>, changes: seq<Change>, actions: Actions)
  {
    && actions.Keys == m.entries
    && (forall n :: n in actions ==>
          AsksOnly(actions[n], TestAsked(m, changes, n), ImageAsked(m, changes, n), ChartAsked(changes, n)))
    && (forall n, e :: n in actions ==> (e in actions[n].envs <==> EnvAsked(m, deploy, changes, n, e)))
  }

  ghost predicate SomeRaises(m: ImpactMap, changes: seq<Change>) { exists c :: c in changes && Raises(m, c) }

  // ---- one path

  /** What one path does to one entry. */
  ghost predicate Adds(m: ImpactMap, deploy: set<Env>, c: Change, n: string, a: Action, b: Action)
  {
    && b == a.(test := a.test || AsksTest(m, c, n), image := a.image || AsksImage(m, c, n), chart := a.chart || n in c.charts,
               reconcile := b.reconcile, envs := b.envs)
    && (forall e :: e in b.envs <==> e in a.envs || AsksEnv(m, deploy, c, n, e))
    && ((a.reconcile <==> a.envs != {}) ==> (b.reconcile <==> b.envs != {}))
  }

  lemma MarkAdds(m: ImpactMap, deploy: set<Env>, n: string, a: Action, environments: set<Env>)
    ensures var b := Marked(a, m.Supported(n) * environments, deploy);
            && b == a.(reconcile := b.reconcile, envs := b.envs)
            && (forall e :: e in b.envs <==> e in a.envs || (Available(m, deploy, n, e) && e in environments))
            && ((a.reconcile <==> a.envs != {}) ==> (b.reconcile <==> b.envs != {}))
  {
    forall e: Env ensures e in EVERY { EveryEnv(e); }
  }

  lemma EntryAfter(m: ImpactMap, deploy: set<Env>, actions: Actions, tests: set<string>, images: set<string>, charts: set<string>,
                   names: set<string>, environments: set<Env>, n: string)
    requires n in actions
    ensures var f := Flagged(actions, tests, images, charts);
            f.Keys == actions.Keys && f[n] == actions[n].(test := actions[n].test || n in tests, image := actions[n].image || n in images,
                                                          chart := actions[n].chart || n in charts)
    ensures var f := MarkedAll(m, deploy, actions, names, environments);
            f.Keys == actions.Keys && f[n] == if n in names then Marked(actions[n], m.Supported(n) * environments, deploy) else actions[n]
  {
    hide Marked;
  }

  lemma PathAdds(m: ImpactMap, deploy: set<Env>, actions: Actions, c: Change, n: string)
    requires m.Valid() && actions.Keys == m.entries && n in actions && PathEffect(m, deploy, actions, c).Some?
    ensures var after := PathEffect(m, deploy, actions, c).value;
            after.Keys == actions.Keys && Adds(m, deploy, c, n, actions[n], after[n])
  {
    hide Flagged, OwnerEffect, Adds;
    EntryAfter(m, deploy, actions, c.tests, c.images, c.charts, {}, {}, n);
    var flagged := Flagged(actions, c.tests, c.images, c.charts);
    OwnerAdds(m, deploy, flagged, c, n);
    FlagsFirst(m, deploy, c, n, actions[n], flagged[n], PathEffect(m, deploy, actions, c).value[n]);
  }

  lemma FlagsFirst(m: ImpactMap, deploy: set<Env>, c: Change, n: string, a: Action, f: Action, b: Action)
    requires f == a.(test := a.test || n in c.tests, image := a.image || n in c.images, chart := a.chart || n in c.charts)
    requires Adds(m, deploy, c.(tests := {}, images := {}, charts := {}), n, f, b)
    ensures Adds(m, deploy, c, n, a, b)
  {
    hide Reaches;
    var bare := c.(tests := {}, images := {}, charts := {});
    forall e ensures AsksEnv(m, deploy, bare, n, e) == AsksEnv(m, deploy, c, n, e) {}
  }

  lemma FlaggedAdds(m: ImpactMap, deploy: set<Env>, actions: Actions, c: Change, tests: set<string>, images: set<string>, n: string)
    requires n in actions && (n in tests <==> AsksTest(m, c, n)) && (n in images <==> AsksImage(m, c, n)) && n !in c.charts
    requires forall e :: !AsksEnv(m, deploy, c, n, e)
    ensures var after := Flagged(actions, tests, images, {});
            after.Keys == actions.Keys && Adds(m, deploy, c, n, actions[n], after[n])
  {
    hide AsksTest, AsksImage, AsksEnv;
    EntryAfter(m, deploy, actions, tests, images, {}, {}, {}, n);
  }

  lemma MarkedAdds(m: ImpactMap, deploy: set<Env>, actions: Actions, c: Change, names: set<string>, environments: set<Env>, n: string)
    requires n in actions && !AsksTest(m, c, n) && !AsksImage(m, c, n) && n !in c.charts
    requires forall e :: AsksEnv(m, deploy, c, n, e) <==> n in names && Available(m, deploy, n, e) && e in environments
    ensures var after := MarkedAll(m, deploy, actions, names, environments);
            after.Keys == actions.Keys && Adds(m, deploy, c, n, actions[n], after[n])
  {
    hide AsksTest, AsksImage, AsksEnv, Available, Marked, MarkedAll, Adds;
    EntryAfter(m, deploy, actions, {}, {}, {}, names, environments, n);
    if n in names { OneAdds(m, deploy, c, n, actions[n], environments); } else { Unchanged(m, deploy, c, n, actions[n]); }
  }

  lemma OneAdds(m: ImpactMap, deploy: set<Env>, c: Change, n: string, a: Action, environments: set<Env>)
    requires !AsksTest(m, c, n) && !AsksImage(m, c, n) && n !in c.charts
    requires forall e :: AsksEnv(m, deploy, c, n, e) <==> Available(m, deploy, n, e) && e in environments
    ensures Adds(m, deploy, c, n, a, Marked(a, m.Supported(n) * environments, deploy))
  {
    hide AsksTest, AsksImage, AsksEnv, Available, Marked;
    MarkAdds(m, deploy, n, a, environments);
  }

  /** The same for the owner alone, without the input patterns of the path. */
  lemma OwnerAdds(m: ImpactMap, deploy: set<Env>, actions: Actions, c0: Change, n: string)
    requires m.Valid() && actions.Keys == m.entries && n in actions && OwnerEffect(m, deploy, actions, c0).Some?
    ensures var after := OwnerEffect(m, deploy, actions, c0).value;
            after.Keys == actions.Keys && Adds(m, deploy, c0.(tests := {}, images := {}, charts := {}), n, actions[n], after[n])
  {
    hide Reaches, Flagged, MarkedAll, Adds;
    var c := c0.(tests := {}, images := {}, charts := {});
    match c.owner {
      case Component => Unchanged(m, deploy, c, n, actions[n]);
      case PlatformComponent => Unchanged(m, deploy, c, n, actions[n]);
      case Shared(name) => FlaggedAdds(m, deploy, actions, c, Listed(m.testConsumers, name), Listed(m.imageConsumers, name), n);
      case Contract(name) => FlaggedAdds(m, deploy, actions, c, Listed(m.parties, name), {}, n);
      case Repository(name) =>
        match m.effects[name] {
          case Validate => Unchanged(m, deploy, c, n, actions[n]);
          case TestAll => FlaggedAdds(m, deploy, actions, c, m.components, {}, n);
          case ImageAll => FlaggedAdds(m, deploy, actions, c, {}, m.components, n);
          case InventoryAll => MarkedAdds(m, deploy, actions, c, actions.Keys, if c.env.Some? then {c.env.value} else deploy, n);
        }
      case Inventory(name) => MarkedAdds(m, deploy, actions, c, {name}, {c.env.value}, n);
      case PlatformInventory(name) => MarkedAdds(m, deploy, actions, c, {name}, {c.env.value}, n);
      case Platform(name) =>
        var hit := set x | x in actions && Reaches(m.graph, x, name);
        if hit == {} {
          assert n !in hit;
          Unchanged(m, deploy, c, n, actions[n]);
        } else {
          MarkedAdds(m, deploy, actions, c, hit, {c.env.value}, n);
        }
    }
  }

  lemma Unchanged(m: ImpactMap, deploy: set<Env>, c: Change, n: string, a: Action)
    requires !AsksTest(m, c, n) && !AsksImage(m, c, n) && n !in c.charts && forall e :: !AsksEnv(m, deploy, c, n, e)
    ensures Adds(m, deploy, c, n, a, a)
  {
    hide AsksTest, AsksImage, AsksEnv;
  }

  lemma PathRaises(m: ImpactMap, deploy: set<Env>, actions: Actions, c: Change)
    requires m.Valid() && actions.Keys == m.entries
    ensures PathEffect(m, deploy, actions, c).None? <==> Raises(m, c)
  {
    hide Reaches, Marked;
    var flagged := Flagged(actions, c.tests, c.images, c.charts);
    assert flagged.Keys == m.entries;
    if c.owner.Platform? {
      var hit := set n | n in flagged && Reaches(m.graph, n, c.owner.name);
      if n :| n in m.entries && Reaches(m.graph, n, c.owner.name) {
        assert n in hit;
      } else {
        assert hit == {};
      }
    }
  }

  // ---- all paths

  lemma LastAsks(m: ImpactMap, deploy: set<Env>, changes: seq<Change>, n: string)
    requires changes != []
    ensures var (k, c) := (|changes| - 1, changes[|changes| - 1]);
            && (TestAsked(m, changes, n) <==> TestAsked(m, changes[..k], n) || AsksTest(m, c, n))
            && (ImageAsked(m, changes, n) <==> ImageAsked(m, changes[..k], n) || AsksImage(m, c, n))
            && (ChartAsked(changes, n) <==> ChartAsked(changes[..k], n) || n in c.charts)
            && (forall e :: EnvAsked(m, deploy, changes, n, e) <==> EnvAsked(m, deploy, changes[..k], n, e) || AsksEnv(m, deploy, c, n, e))
            && (SomeRaises(m, changes) <==> SomeRaises(m, changes[..k]) || Raises(m, c))
  {
    hide AsksTest, AsksImage, AsksEnv, Raises;
    assert changes == changes[..|changes| - 1] + [changes[|changes| - 1]];
  }

  /** For all changed paths, in whatever order: the planner raises exactly when one of them does; otherwise an entry is tested,
      built or charted, and reconciled in an environment, exactly when one of them asks for it. */
  lemma {:induction false} PathsAskExactly(m: ImpactMap, deploy: set<Env>, changes: seq<Change>)
    requires m.Valid()
    ensures var r := PathEffects(m, deploy, changes);
            if SomeRaises(m, changes) then r.None? else r.Some? && Asked(m, deploy, changes, r.value)
  {
    hide PathEffect, AsksTest, AsksImage, AsksEnv, Raises, TestAsked, ImageAsked, ChartAsked, EnvAsked, SomeRaises;
    if changes == [] {
      NothingAsked(m, deploy);
    } else {
      var k := |changes| - 1;
      PathsAskExactly(m, deploy, changes[..k]);
      LastAsks(m, deploy, changes, "");
      var before := PathEffects(m, deploy, changes[..k]);
      if before.Some? {
        PathRaises(m, deploy, before.value, changes[k]);
        if PathEffects(m, deploy, changes).Some? {
          forall n | n in before.value ensures Fits(m, deploy, changes, n, PathEffects(m, deploy, changes).value) {
            LastAsks(m, deploy, changes, n);
            PathAdds(m, deploy, before.value, changes[k], n);
          }
          OneKeys(m, deploy, before.value, changes[k]);
        }
      }
    }
  }

  ghost predicate Fits(m: ImpactMap, deploy: set<Env>, changes: seq<Change>, n: string, actions: Actions)
  {
    && n in actions
    && AsksOnly(actions[n], TestAsked(m, changes, n), ImageAsked(m, changes, n), ChartAsked(changes, n))
    && (forall e :: e in actions[n].envs <==> EnvAsked(m, deploy, changes, n, e))
  }

  lemma OneKeys(m: ImpactMap, deploy: set<Env>, actions: Actions, c: Change)
    ensures var r := PathEffect(m, deploy, actions, c); r.Some? ==> r.value.Keys == actions.Keys
  {
    hide Reaches, Marked;
    if n :| n in actions {
      forall tests, images, charts ensures Flagged(actions, tests, images, charts).Keys == actions.Keys {}
      forall x: Actions, names, environments ensures MarkedAll(m, deploy, x, names, environments).Keys == x.Keys {}
    }
  }

  lemma NothingAsked(m: ImpactMap, deploy: set<Env>)
    ensures Asked(m, deploy, [], map n | n in m.entries :: NOTHING) && !SomeRaises(m, [])
  {}

  /** A manual pipeline tests and builds the selected components, builds the selected platform components that have an image,
      charts all selected ones, and asks for no environment. */
  lemma SelectionAsksExactly(m: ImpactMap, deploy: set<Env>, changes: seq<Change>, chosen: set<string>)
    ensures var r := Requested(m, deploy, Web, changes, Some(chosen));
            && r.Some? && r.value.Keys == m.entries
            && forall n :: n in r.value ==>
                 && r.value[n].envs == {}
                 && AsksOnly(r.value[n], n in chosen && n in m.components,
                             n in chosen && (n in m.components || n in m.platformImages), n in chosen)
  {}

  // ---- the plan

  /** A platform entry can be shipped only where it is managed. */
  predicate CanShip(m: ImpactMap, deploy: set<Env>, n: string) { exists e :: e in deploy && Available(m, deploy, n, e) }

  predicate Ships(m: ImpactMap, deploy: set<Env>, eligible: bool, n: string, asked: Action, a: Action)
  {
    && a.test == asked.test && a.image == asked.image && a.chart == asked.chart
    && (a.publishImage <==> eligible && asked.image && CanShip(m, deploy, n))
    && (a.publishChart <==> eligible && asked.chart && CanShip(m, deploy, n))
    && (a.promote <==> a.publishImage || a.publishChart)
    && (a.reconcile <==> a.envs != {})
  }

  /** s is promoted to the environment, or was asked to be reconciled there. */
  predicate Moves(m: ImpactMap, deploy: set<Env>, asked: Actions, plan: Actions, s: string, e: Env)
  {
    s in asked && s in plan && ((plan[s].promote && Available(m, deploy, s, e)) || e in asked[s].envs)
  }

  ghost predicate Follows(m: ImpactMap, deploy: set<Env>, asked: Actions, plan: Actions, n: string, e: Env)
  {
    Available(m, deploy, n, e) && exists s :: Moves(m, deploy, asked, plan, s, e) && Reaches(m.graph, n, s)
  }

  ghost predicate Plannable(m: ImpactMap, deploy: set<Env>, asked: Actions)
  {
    && (forall n :: n in asked ==> (asked[n].reconcile <==> asked[n].envs != {}))
    && (forall n, e :: n in asked && e in asked[n].envs ==> Available(m, deploy, n, e))
  }

  lemma SupportedIs(m: ImpactMap, deploy: set<Env>, n: string)
    ensures forall e :: e in m.Supported(n) * deploy <==> Available(m, deploy, n, e)
  {
    forall e: Env ensures e in EVERY { EveryEnv(e); }
  }

  /** The plan of a pipeline that may deploy somewhere: an eligible one publishes what was asked to be built and can be shipped,
      and reconciles an entry exactly where that was asked for, or where something that it depends on, or itself, moves. */
  lemma PlanSaysExactly(m: ImpactMap, deploy: set<Env>, eligible: bool, asked: Actions, plan: Actions)
    requires PlannedFrom(m, deploy, eligible, asked, plan) && deploy != {}
    requires Plannable(m, deploy, asked)
    ensures plan.Keys == asked.Keys && forall n :: n in plan ==> Ships(m, deploy, eligible, n, asked[n], plan[n])
    ensures forall n, e :: n in plan ==>
              (e in plan[n].envs <==> e in asked[n].envs || (eligible && Follows(m, deploy, asked, plan, n, e)))
  {
    hide Reaches, Gets, Follows, Available;
    var was := PublishedAll(m, deploy, eligible, asked);
    forall n | n in plan ensures Ships(m, deploy, eligible, n, asked[n], plan[n]) { ShipsWhere(m, deploy, eligible, n, asked[n]); }
    if eligible {
      forall n, e | n in plan ensures Gets(m, deploy, was, n, e) <==> e in asked[n].envs || Follows(m, deploy, asked, plan, n, e) {
        FollowsIs(m, deploy, asked, plan, n, e);
      }
    }
  }

  lemma ShipsWhere(m: ImpactMap, deploy: set<Env>, eligible: bool, n: string, a: Action)
    requires deploy != {}
    ensures (n in m.platformEnvs ==> m.Supported(n) * deploy != {}) <==> CanShip(m, deploy, n)
  {
    SupportedIs(m, deploy, n);
    var e :| e in deploy;
    assert n !in m.platformEnvs ==> Available(m, deploy, n, e);
    if m.Supported(n) * deploy != {} {
      var x :| x in m.Supported(n) * deploy;
      assert Available(m, deploy, n, x);
    }
  }

  lemma FollowsIs(m: ImpactMap, deploy: set<Env>, asked: Actions, plan: Actions, n: string, e: Env)
    requires PlannedFrom(m, deploy, true, asked, plan) && n in plan
    requires Plannable(m, deploy, asked)
    ensures Gets(m, deploy, PublishedAll(m, deploy, true, asked), n, e) <==> e in asked[n].envs || Follows(m, deploy, asked, plan, n, e)
  {
    hide Reaches, Available;
    var was := PublishedAll(m, deploy, true, asked);
    forall s ensures forall e :: e in m.Supported(s) * deploy <==> Available(m, deploy, s, e) { SupportedIs(m, deploy, s); }
    if s :| Spreads(m, deploy, was, s, n, e) {
      assert Moves(m, deploy, asked, plan, s, e) && Reaches(m.graph, n, s);
    }
    if Follows(m, deploy, asked, plan, n, e) {
      var s :| Moves(m, deploy, asked, plan, s, e) && Reaches(m.graph, n, s);
      assert Spreads(m, deploy, was, s, n, e);
    }
  }

  /** From the changed paths to the plan: a plan that does not raise has every entry that some path asks for tested and built,
      published if it can be shipped, and reconciled exactly where a path asks for that or where something it depends on moves. */
  lemma ChangesArePlanned(m: ImpactMap, deploy: set<Env>, eligible: bool, changes: seq<Change>, asked: Actions, plan: Actions)
    requires m.Valid() && deploy != {} && PathEffects(m, deploy, changes) == Some(asked) && PlannedFrom(m, deploy, eligible, asked, plan)
    ensures plan.Keys == m.entries && forall n :: n in plan ==>
              && plan[n].test == TestAsked(m, changes, n)
              && plan[n].publishImage == (eligible && ImageAsked(m, changes, n) && CanShip(m, deploy, n))
              && plan[n].publishChart == (eligible && ChartAsked(changes, n) && CanShip(m, deploy, n))
              && plan[n].promote == (plan[n].publishImage || plan[n].publishChart)
    ensures forall n, e :: n in plan ==>
              (e in plan[n].envs <==> EnvAsked(m, deploy, changes, n, e) || (eligible && Follows(m, deploy, asked, plan, n, e)))
  {
    hide PathEffects, PlannedFrom, TestAsked, ImageAsked, ChartAsked, CanShip, Follows, SomeRaises;
    PathsAskExactly(m, deploy, changes);
    assert Plannable(m, deploy, asked) by {
      forall n, e | n in asked && e in asked[n].envs ensures Available(m, deploy, n, e) {
        assert EnvAsked(m, deploy, changes, n, e);
        var c :| c in changes && AsksEnv(m, deploy, c, n, e);
      }
    }
    PlanSaysExactly(m, deploy, eligible, asked, plan);
  }

  /** Something is promoted only from the main branch, never by a merge request; while production is deployed to, only with
      executable preflight checks and without any change of a schema; and a pipeline that meets this is not blocked. */
  lemma ProductionIsGuarded(m: ImpactMap, deploy: set<Env>, source: Source, mainBranch: bool, changes: seq<Change>, preflight: bool,
                            asked: Actions, plan: Actions)
    requires PlannedFrom(m, deploy, IsMain(source, mainBranch), asked, plan)
    ensures (exists n :: n in plan && plan[n].promote && (plan[n].publishImage || plan[n].publishChart)) ==>
              mainBranch && source != MergeRequest
    ensures var safe := preflight && forall c :: c in changes ==> !c.migration;
            Blocked(IsMain(source, mainBranch), deploy, changes, preflight)
            <==> mainBranch && source != MergeRequest && Production in deploy && !safe
  {
    var was := PublishedAll(m, deploy, IsMain(source, mainBranch), asked);
    assert forall n :: n in plan ==> plan[n].promote == was[n].promote;
    match source { case MergeRequest => case Push => case Web => }
  }
}
