/** The delivery plan of a change (ci/lib/impact_planner.rb): which components are built, published and reconciled where. */
module ImpactPlanner {
  import opened Common
  import opened ImpactGraph

  datatype Env = Production | LocalProduction

  const EVERY: set<Env> := {Production, LocalProduction}

  /** One entry of the plan. A platform entry has no test flag. reconcileEnvironments is kept in a fixed order in the
      original, so a set says the same. */
  datatype Action = Action(test: bool, image: bool, chart: bool, publishImage: bool, publishChart: bool, promote: bool,
                           reconcile: bool, envs: set<Env>)

  type Actions = map<string, Action>

  const NOTHING := Action(false, false, false, false, false, false, false, {})

  datatype Effect = Validate | TestAll | ImageAll | InventoryAll

  /** The impact map. Names of components and of platform components are disjoint; entries are the components, and the
      platform components that have both a chart and an inventory. */
  datatype ImpactMap = ImpactMap(
    graph: Graph, components: set<string>, entries: set<string>, platformEnvs: map<string, set<Env>>, platformImages: set<string>,
    testConsumers: map<string, set<string>>, imageConsumers: map<string, set<string>>, parties: map<string, set<string>>,
    effects: map<string, Effect>)
  {
    predicate Valid()
    {
      && graph.Valid() && components !! platformEnvs.Keys
      && components <= entries && entries <= components + platformEnvs.Keys
      && (forall n :: n in components ==> n in graph.nodes) && (forall n :: n in platformEnvs ==> n in graph.nodes)
      && (forall k :: k in testConsumers ==> testConsumers[k] <= components)
      && (forall k :: k in imageConsumers ==> imageConsumers[k] <= components)
      && (forall k :: k in parties ==> parties[k] <= components)
    }

    /** Where an entry can be reconciled. */
    function Supported(n: string): set<Env> { if n in platformEnvs then platformEnvs[n] else EVERY }
  }

  datatype Owner =
    | Component | PlatformComponent | Shared(name: string) | Contract(name: string) | Repository(name: string)
    | Inventory(name: string) | PlatformInventory(name: string) | Platform(name: string)

  /** A changed path: its one owner, the entries whose input patterns it matches, and the environment that it names. */
  datatype Change = Change(owner: Owner, tests: set<string>, images: set<string>, charts: set<string>, env: Option<Env>, migration: bool)

  datatype Source = MergeRequest | Push | Web

  /** mark_reconcile. */
  function Marked(a: Action, environments: set<Env>, deploy: set<Env>): Action
  {
    var selected := environments * deploy;
    if selected == {} then a else a.(reconcile := true, envs := a.envs + selected)
  }

  function Published(m: ImpactMap, deploy: set<Env>, eligible: bool, n: string, a: Action): Action
  {
    var can := eligible && (n in m.platformEnvs ==> m.Supported(n) * deploy != {});
    a.(publishImage := can && a.image, publishChart := can && a.chart, promote := (can && a.image) || (can && a.chart))
  }

  // ---- what the changed paths ask for

  function Flagged(actions: Actions, tests: set<string>, images: set<string>, charts: set<string>): Actions
  {
    map n | n in actions ::
      actions[n].(test := actions[n].test || n in tests, image := actions[n].image || n in images,
                  chart := actions[n].chart || n in charts)
  }

  /** The named entries are marked for the environments that they support. */
  function MarkedAll(m: ImpactMap, deploy: set<Env>, actions: Actions, names: set<string>, environments: set<Env>): Actions
  {
    map n | n in actions :: if n in names then Marked(actions[n], m.Supported(n) * environments, deploy) else actions[n]
  }

  function Listed(consumers: map<string, set<string>>, name: string): set<string>
  {
    if name in consumers then consumers[name] else {}
  }

  /** What the owner of a changed path does to the entries; None when the planner raises. A platform node reconciles
      everything that depends on it, and needs an environment only when there is such an entry. */
  ghost function OwnerEffect(m: ImpactMap, deploy: set<Env>, actions: Actions, change: Change): Option<Actions>
  {
    match change.owner
    case Component => Some(actions)
    case PlatformComponent => Some(actions)
    case Shared(name) => Some(Flagged(actions, Listed(m.testConsumers, name), Listed(m.imageConsumers, name), {}))
    case Contract(name) => Some(Flagged(actions, Listed(m.parties, name), {}, {}))
    case Repository(name) =>
      if name !in m.effects then None
      else (match m.effects[name]
            case Validate => Some(actions)
            case TestAll => Some(Flagged(actions, m.components, {}, {}))
            case ImageAll => Some(Flagged(actions, {}, m.components, {}))
            case InventoryAll =>
              Some(MarkedAll(m, deploy, actions, actions.Keys, if change.env.Some? then {change.env.value} else deploy)))
    case Inventory(name) =>
      if change.env.None? || name !in m.components then None
      else Some(MarkedAll(m, deploy, actions, {name}, {change.env.value}))
    case PlatformInventory(name) =>
      if change.env.None? || name !in m.platformEnvs || name !in actions || change.env.value !in m.platformEnvs[name] then None
      else Some(MarkedAll(m, deploy, actions, {name}, {change.env.value}))
    case Platform(name) =>
      var hit := set n | n in actions && Reaches(m.graph, n, name);
      if hit == {} then Some(actions)
      else if change.env.None? then None
      else Some(MarkedAll(m, deploy, actions, hit, {change.env.value}))
  }

  /** One changed path: its input patterns, then its owner. A pattern of a platform component that has no entry, for lack of a
      chart and an inventory, raises. */
  ghost function PathEffect(m: ImpactMap, deploy: set<Env>, actions: Actions, c: Change): Option<Actions>
  {
    if c.images + c.charts <= actions.Keys then OwnerEffect(m, deploy, Flagged(actions, c.tests, c.images, c.charts), c) else None
  }

  ghost function PathEffects(m: ImpactMap, deploy: set<Env>, changes: seq<Change>): Option<Actions>
  {
    if changes == [] then Some(map n | n in m.entries :: NOTHING)
    else
      var k := |changes| - 1;
      var before := PathEffects(m, deploy, changes[..k]);
      if before.None? then None else PathEffect(m, deploy, before.value, changes[k])
  }

  /** Changed paths whose owner asks for a validation of the inventory. */
  predicate NeedsInventory(m: ImpactMap, c: Change)
  {
    c.owner.Inventory? || c.owner.PlatformInventory? || c.owner.Platform?
    || (c.owner.Repository? && c.owner.name in m.effects && m.effects[c.owner.name] == InventoryAll)
  }

  /** A platform entry is built or charted. */
  predicate TouchesPlatform(m: ImpactMap, actions: Actions)
  {
    exists n :: n in actions && n in m.platformEnvs && (actions[n].image || actions[n].chart)
  }

  /** inventoryValidation of a plan over changed paths. */
  predicate InventoryNeeded(m: ImpactMap, changes: seq<Change>, actions: Actions)
  {
    (exists c :: c in changes && NeedsInventory(m, c)) || TouchesPlatform(m, actions)
  }

  /** No path takes back what an earlier one asked to build. */
  lemma FlagsStay(m: ImpactMap, deploy: set<Env>, actions: Actions, c: Change)
    requires TouchesPlatform(m, actions)
    ensures var after := OwnerEffect(m, deploy, actions, c); after.Some? ==> TouchesPlatform(m, after.value)
  {
    hide Flagged, MarkedAll, TouchesPlatform, Reaches;
    forall tests, images, charts ensures TouchesPlatform(m, Flagged(actions, tests, images, charts)) {
      FlaggedStays(m, actions, tests, images, charts);
    }
    forall names, environments ensures TouchesPlatform(m, MarkedAll(m, deploy, actions, names, environments)) {
      MarkedStays(m, deploy, actions, names, environments);
    }
  }

  lemma FlaggedStays(m: ImpactMap, actions: Actions, tests: set<string>, images: set<string>, charts: set<string>)
    requires TouchesPlatform(m, actions)
    ensures TouchesPlatform(m, Flagged(actions, tests, images, charts))
  {
    var n :| n in actions && n in m.platformEnvs && (actions[n].image || actions[n].chart);
    assert n in Flagged(actions, tests, images, charts);
  }

  lemma MarkedStays(m: ImpactMap, deploy: set<Env>, actions: Actions, names: set<string>, environments: set<Env>)
    requires TouchesPlatform(m, actions)
    ensures TouchesPlatform(m, MarkedAll(m, deploy, actions, names, environments))
  {
    var n :| n in actions && n in m.platformEnvs && (actions[n].image || actions[n].chart);
    assert n in MarkedAll(m, deploy, actions, names, environments);
  }

  lemma OneMore(m: ImpactMap, changes: seq<Change>, i: nat)
    requires i < |changes|
    ensures (exists c :: c in changes[..i + 1] && NeedsInventory(m, c))
            <==> (exists c :: c in changes[..i] && NeedsInventory(m, c)) || NeedsInventory(m, changes[i])
  {
    assert changes[..i + 1] == changes[..i] + [changes[i]];
    assert changes[i] in changes[..i + 1];
  }

  /** The entries before publication: the manual selection, or what the changed paths ask for. */
  ghost function Requested(m: ImpactMap, deploy: set<Env>, source: Source, changes: seq<Change>, selection: Option<set<string>>): Option<Actions>
  {
    if source != Web then if changes == [] then None else PathEffects(m, deploy, changes)
    else if selection.None? then None
    else
      var chosen := selection.value;
      Some(Flagged(map n | n in m.entries :: NOTHING, chosen * m.components, chosen * (m.components + m.platformImages), chosen))
  }

  /** Production promotion is blocked for schema changes, and without executable preflight checks. */
  predicate Blocked(main: bool, deploy: set<Env>, changes: seq<Change>, preflight: bool)
  {
    main && Production in deploy && ((exists c :: c in changes && c.migration) || !preflight)
  }

  predicate IsMain(source: Source, mainBranch: bool) { (source == Push || source == Web) && mainBranch }

  function PublishedAll(m: ImpactMap, deploy: set<Env>, eligible: bool, actions: Actions): Actions
  {
    map n | n in actions :: Published(m, deploy, eligible, n, actions[n])
  }

  /** A change that the impact map can classify. */
  predicate Classified(m: ImpactMap, c: Change)
  {
    c.tests <= m.components && (c.owner.Platform? ==> c.owner.name in m.graph.nodes)
  }

  predicate IsSeed(a: Action) { a.promote || a.reconcile }

  /** The environments that a seed spreads to what depends on it. */
  function SeedEnvs(m: ImpactMap, deploy: set<Env>, n: string, a: Action): set<Env>
  {
    if a.promote then m.Supported(n) * deploy else a.envs
  }

  /** The seed, if any, from which an entry gets an environment. */
  ghost predicate Spreads(m: ImpactMap, deploy: set<Env>, was: Actions, s: string, n: string, e: Env)
  {
    && s in was && IsSeed(was[s]) && Reaches(m.graph, n, s)
    && e in SeedEnvs(m, deploy, s, was[s]) && e in m.Supported(n) * deploy
  }

  ghost predicate Gets(m: ImpactMap, deploy: set<Env>, was: Actions, n: string, e: Env)
  {
    n in was && (e in was[n].envs || exists s :: Spreads(m, deploy, was, s, n, e))
  }

  class Planner {
    const m: ImpactMap
    const deploy: set<Env>
    var actions: Actions

    ghost predicate Valid()
      reads this
    {
      && m.Valid() && actions.Keys == m.entries
      && (forall n :: n in actions ==>
            (actions[n].reconcile <==> actions[n].envs != {}) && actions[n].envs <= m.Supported(n) * deploy)
    }

    constructor (m: ImpactMap, deploy: set<Env>)
      requires m.Valid()
      ensures Valid() && this.m == m && this.deploy == deploy && actions == map n | n in m.entries :: NOTHING
    {
      this.m := m;
      this.deploy := deploy;
      actions := map n | n in m.entries :: NOTHING;
    }

    method Mark(n: string, environments: set<Env>)
      requires Valid() && n in actions && environments * deploy <= m.Supported(n)
      modifies this
      ensures Valid() && actions == old(actions)[n := Marked(old(actions)[n], environments, deploy)]
    {
      var selected := environments * deploy;
      if selected == {} { return; }
      actions := actions[n := actions[n].(reconcile := true, envs := actions[n].envs + selected)];
    }

    // ---- the effect of a changed path

    method Flag(tests: set<string>, images: set<string>, charts: set<string>)
      requires Valid()
      modifies this
      ensures Valid() && actions == Flagged(old(actions), tests, images, charts)
    {
      actions := map n | n in actions ::
        actions[n].(test := actions[n].test || n in tests, image := actions[n].image || n in images,
                    chart := actions[n].chart || n in charts);
    }

    /** Marks some entries for some environments; entries that do not support them are left alone. */
    method MarkAll(names: set<string>, environments: set<Env>)
      requires Valid() && names <= actions.Keys
      modifies this
      ensures Valid() && actions == MarkedAll(m, deploy, old(actions), names, environments)
    {
      ghost var was := actions;
      var rest := names;
      while rest != {}
        invariant Valid() && rest <= names && actions.Keys == was.Keys
        invariant forall n :: n in actions ==>
          actions[n] == if n in names && n !in rest then Marked(was[n], m.Supported(n) * environments, deploy) else was[n]
        decreases rest
      {
        var n :| n in rest;
        Mark(n, m.Supported(n) * environments);
        rest := rest - {n};
      }
    }

    /** apply_owner_effect; ok is false when it raises. */
    method ApplyOwnerEffect(change: Change) returns (ok: bool, inventory: bool)
      requires Valid() && Classified(m, change)
      modifies this
      ensures Valid()
      ensures OwnerEffect(m, deploy, old(actions), change) == if ok then Some(actions) else None
      ensures inventory <==> ok && NeedsInventory(m, change)
    {
      match change.owner {
        case Component => return true, false;
        case PlatformComponent => return true, false;
        case Shared(name) =>
          Flag(Listed(m.testConsumers, name), Listed(m.imageConsumers, name), {});
          return true, false;
        case Contract(name) =>
          Flag(Listed(m.parties, name), {}, {});
          return true, false;
        case Repository(name) =>
          ok, inventory := ApplyRepositoryEffect(name, change);
        case Inventory(name) =>
          if change.env.None? || name !in m.components { return false, false; }
          EveryEnv(change.env.value);
          MarkOne(name, change.env.value);
          return true, true;
        case PlatformInventory(name) =>
          if change.env.None? || name !in m.platformEnvs || name !in actions { return false, false; }
          if change.env.value !in m.platformEnvs[name] { return false, false; }
          MarkOne(name, change.env.value);
          return true, true;
        case Platform(name) =>
          var dependents := TransitiveDependents(m.graph, [name]);
          DependentsOfOne(m.graph, name, dependents);
          var hit := set n | n in dependents && n in actions;
          assert forall n :: n in actions ==> n in m.graph.nodes;
          assert hit == set n | n in actions && Reaches(m.graph, n, name);
          if hit == {} { return true, true; }
          if change.env.None? { return false, false; }
          MarkAll(hit, {change.env.value});
          return true, true;
      }
    }

    method ApplyRepositoryEffect(name: string, change: Change) returns (ok: bool, inventory: bool)
      requires Valid() && change.owner == Repository(name)
      modifies this
      ensures Valid()
      ensures OwnerEffect(m, deploy, old(actions), change) == if ok then Some(actions) else None
      ensures inventory <==> ok && m.effects[name] == InventoryAll
    {
      if name !in m.effects { return false, false; }
      match m.effects[name] {
        case Validate => return true, false;
        case TestAll => Flag(m.components, {}, {}); return true, false;
        case ImageAll => Flag({}, m.components, {}); return true, false;
        case InventoryAll =>
          MarkAll(actions.Keys, if change.env.Some? then {change.env.value} else deploy);
          return true, true;
      }
    }

    method MarkOne(name: string, e: Env)
      requires Valid() && name in actions && e in m.Supported(name)
      modifies this
      ensures Valid() && actions == MarkedAll(m, deploy, old(actions), {name}, {e})
    {
      Mark(name, {e});
      assert m.Supported(name) * {e} == {e};
    }

    // ---- what is published spreads to what depends on it

    /** The two loops of plan that decide what is published, entry by entry and flag by flag. Only what was asked for is
        published, only by an eligible pipeline, and what is promoted can be reconciled somewhere. */
    method Publish(eligible: bool)
      requires Valid()
      modifies this
      ensures Valid()
      ensures actions == PublishedAll(m, deploy, eligible, old(actions))
      ensures deploy != {} ==> forall n :: n in actions && actions[n].promote ==>
                eligible && (old(actions)[n].image || old(actions)[n].chart) && SeedEnvs(m, deploy, n, actions[n]) != {}
    {
      hide Published, SeedEnvs;
      ghost var was := actions;
      PublishComponents(eligible);
      PublishPlatform(eligible, was);
      assert actions == PublishedAll(m, deploy, eligible, was);
      forall n | n in actions && actions[n].promote && deploy != {}
        ensures eligible && (was[n].image || was[n].chart) && SeedEnvs(m, deploy, n, actions[n]) != {}
      {
        PromotedReaches(m, deploy, eligible, n, was[n]);
      }
    }

    method PublishComponents(eligible: bool)
      requires Valid()
      modifies this
      ensures Valid()
      ensures forall n :: n in actions ==>
        actions[n] == if n in m.platformEnvs then old(actions)[n] else Published(m, deploy, eligible, n, old(actions)[n])
    {
      hide Published;
      ghost var was := actions;
      var rest := actions.Keys - m.platformEnvs.Keys;
      while rest != {}
        invariant Valid() && rest <= actions.Keys - m.platformEnvs.Keys
        invariant forall n :: n in actions ==>
          actions[n] == if n in m.platformEnvs || n in rest then was[n] else Published(m, deploy, eligible, n, was[n])
        decreases rest
      {
        var n :| n in rest;
        PublishFlags(n, eligible, eligible);
        rest := rest - {n};
      }
    }

    method PublishPlatform(eligible: bool, ghost was: Actions)
      requires Valid() && was.Keys == actions.Keys
      requires forall n :: n in actions ==>
        actions[n] == if n in m.platformEnvs then was[n] else Published(m, deploy, eligible, n, was[n])
      modifies this
      ensures Valid()
      ensures forall n :: n in actions ==> actions[n] == Published(m, deploy, eligible, n, was[n])
    {
      hide Published;
      var rest := actions.Keys * m.platformEnvs.Keys;
      while rest != {}
        invariant Valid() && rest <= actions.Keys * m.platformEnvs.Keys
        invariant forall n :: n in actions ==>
          actions[n] == if n in rest then was[n] else Published(m, deploy, eligible, n, was[n])
        decreases rest
      {
        var n :| n in rest;
        var supported := m.platformEnvs[n] * deploy;
        PublishFlags(n, eligible && supported != {}, eligible);
        rest := rest - {n};
      }
    }

    method PublishFlags(n: string, can: bool, ghost eligible: bool)
      requires Valid() && n in actions && can == (eligible && (n in m.platformEnvs ==> m.Supported(n) * deploy != {}))
      modifies this
      ensures Valid() && actions == old(actions)[n := Published(m, deploy, eligible, n, old(actions)[n])]
    {
      hide Published, ImpactMap.Supported;
      var a := actions[n];
      a := a.(publishImage := can && a.image);
      a := a.(publishChart := can && a.chart);
      a := a.(promote := a.publishImage || a.publishChart);
      FlagsOnly(m, deploy, eligible, n, actions[n], a);
      actions := actions[n := a];
    }

    /** One seed is processed: its entry is read as it is now, and its dependents are marked in place. */
    method SpreadSeed(s: string, ghost was: Actions, ghost rest: set<string>)
      requires Valid() && s in actions && Spreading(m, deploy, was, actions, rest) && IsSeed(was[s])
      modifies this
      ensures Valid() && Spreading(m, deploy, was, actions, rest - {s})
    {
      hide Spreading;
      var action := actions[s];
      assert action.promote == was[s].promote by { FlagsKept(m, deploy, was, actions, rest, s); }
      var environments := if action.promote then m.Supported(s) * deploy else action.envs;
      var dependents := TransitiveDependents(m.graph, [s]);
      DependentsOfOne(m.graph, s, dependents);
      var hit := set n | n in dependents && n in actions;
      ghost var now := actions;
      MarkAll(hit, environments);
      SeedSpreads(m, deploy, was, now, actions, rest, s, environments);
    }

    /** The part of plan that runs for publish-eligible pipelines. */
    method Spread()
      requires Valid()
      modifies this
      ensures Valid() && actions.Keys == old(actions).Keys
      ensures forall n, e :: n in actions ==> (e in actions[n].envs <==> Gets(m, deploy, old(actions), n, e))
      ensures forall n :: n in actions ==>
        actions[n] == old(actions)[n].(reconcile := actions[n].envs != {}, envs := actions[n].envs)
    {
      ghost var was := actions;
      var rest := set n | n in actions && IsSeed(actions[n]);
      ghost var seeds := rest;
      SpreadStart(m, deploy, was);
      while rest != {}
        invariant Valid() && rest <= seeds && Spreading(m, deploy, was, actions, rest)
        decreases rest
      {
        var s :| s in rest;
        SpreadSeed(s, was, rest);
        rest := rest - {s};
      }
    }

    /** plan; ok is false when it raises. What was asked for is published, and on the main branch spreads: an entry ends up
        marked for an environment exactly when it was asked for, or when it depends on an entry that is published or
        marked there. */
    method Plan(source: Source, mainBranch: bool, changes: seq<Change>, selection: Option<set<string>>, preflight: bool)
      returns (ok: bool, eligible: bool, inventory: bool)
      requires Valid() && actions == map n | n in m.entries :: NOTHING
      requires (selection.Some? ==> selection.value <= actions.Keys) && forall c :: c in changes ==> Classified(m, c)
      modifies this
      ensures Valid()
      ensures ok <==> !Blocked(IsMain(source, mainBranch), deploy, changes, preflight)
                      && Requested(m, deploy, source, changes, selection).Some?
      ensures eligible <==> ok && IsMain(source, mainBranch)
      ensures ok ==> PlannedFrom(m, deploy, eligible, Requested(m, deploy, source, changes, selection).value, actions)
      ensures eligible ==> Closed(m, deploy, actions)
      ensures inventory <==> ok && source != Web && InventoryNeeded(m, changes, Requested(m, deploy, source, changes, selection).value)
    {
      var main := (source == Push || source == Web) && mainBranch;
      if main && Production in deploy {
        if exists c :: c in changes && c.migration { return false, false, false; }
        if !preflight { return false, false, false; }
      }
      ok, inventory := Request(source, changes, selection);
      if !ok { return false, false, false; }
      ghost var asked := actions;
      Publish(main);
      ghost var was := actions;
      if main {
        Spread();
        SpreadCloses(m, deploy, was, actions);
      }
      PlanIs(m, deploy, main, asked, was, actions);
      return true, main, inventory;
    }

    /** One changed path: its input patterns, then its owner. */
    method ApplyPath(c: Change) returns (ok: bool, inventory: bool)
      requires Valid() && Classified(m, c)
      modifies this
      ensures Valid()
      ensures PathEffect(m, deploy, old(actions), c) == if ok then Some(actions) else None
      ensures inventory <==> ok && NeedsInventory(m, c)
      ensures ok && TouchesPlatform(m, old(actions)) ==> TouchesPlatform(m, actions)
    {
      hide NeedsInventory, TouchesPlatform, OwnerEffect, Flagged;
      if !(c.images + c.charts <= actions.Keys) { return false, false; }
      if TouchesPlatform(m, actions) { FlaggedStays(m, actions, c.tests, c.images, c.charts); }
      Flag(c.tests, c.images, c.charts);
      if TouchesPlatform(m, actions) { FlagsStay(m, deploy, actions, c); }
      ok, inventory := ApplyOwnerEffect(c);
    }

    /** The part of plan that reads the manual selection, or the changed paths one after the other. */
    method Request(source: Source, changes: seq<Change>, selection: Option<set<string>>) returns (ok: bool, inventory: bool)
      requires Valid() && actions == map n | n in m.entries :: NOTHING
      requires forall c :: c in changes ==> Classified(m, c)
      modifies this
      ensures Valid()
      ensures Requested(m, deploy, source, changes, selection) == if ok then Some(actions) else None
      ensures inventory <==> ok && source != Web && InventoryNeeded(m, changes, actions)
    {
      hide NeedsInventory, TouchesPlatform, PathEffect;
      if source == Web {
        if selection.None? { return false, false; }
        var chosen := selection.value;
        Flag(chosen * m.components, chosen * (m.components + m.platformImages), chosen);
        return true, false;
      }
      if changes == [] { return false, false; }
      inventory := false;
      NothingTouched(m);
      for i := 0 to |changes|
        invariant Valid() && PathEffects(m, deploy, changes[..i]) == Some(actions)
        invariant inventory <==> InventoryNeeded(m, changes[..i], actions)
      {
        assert changes[..i + 1][..i] == changes[..i];
        OneMore(m, changes, i);
        var done, needs := ApplyPath(changes[i]);
        if !done { RaisedStays(m, deploy, changes, i + 1); return false, false; }
        inventory := inventory || needs || TouchesPlatform(m, actions);
      }
      assert changes[..|changes|] == changes;
      return true, inventory;
    }
  }

  lemma NothingTouched(m: ImpactMap)
    ensures !TouchesPlatform(m, map n | n in m.entries :: NOTHING)
  {}

  lemma FlagsOnly(m: ImpactMap, deploy: set<Env>, eligible: bool, n: string, a: Action, b: Action)
    requires var can := eligible && (n in m.platformEnvs ==> m.Supported(n) * deploy != {});
             b == a.(publishImage := can && a.image, publishChart := can && a.chart, promote := (can && a.image) || (can && a.chart))
    ensures b == Published(m, deploy, eligible, n, a) && b.reconcile == a.reconcile && b.envs == a.envs
  {}

  /** A promoted entry can be reconciled in some environment of the pipeline. */
  lemma PromotedReaches(m: ImpactMap, deploy: set<Env>, eligible: bool, n: string, a: Action)
    requires deploy != {} && Published(m, deploy, eligible, n, a).promote
    ensures eligible && (a.image || a.chart) && SeedEnvs(m, deploy, n, Published(m, deploy, eligible, n, a)) != {}
  {
    if n !in m.platformEnvs {
      var e :| e in deploy;
      EveryEnv(e);
      assert e in m.Supported(n) * deploy;
    }
  }

  lemma {:induction false} RaisedStays(m: ImpactMap, deploy: set<Env>, changes: seq<Change>, i: nat)
    requires i <= |changes| && PathEffects(m, deploy, changes[..i]).None?
    ensures PathEffects(m, deploy, changes).None?
    decreases |changes|
  {
    hide PathEffect;
    if i == |changes| {
      assert changes[..i] == changes;
    } else {
      var k := |changes| - 1;
      assert changes[..k][..i] == changes[..i];
      RaisedStays(m, deploy, changes[..k], i);
    }
  }

  /** The finished entries: the flags that were asked for, published when eligible; the environments that were asked for,
      and when eligible those that spread from published or marked entries, and no others. */
  ghost predicate PlannedFrom(m: ImpactMap, deploy: set<Env>, eligible: bool, asked: Actions, plan: Actions)
  {
    var was := PublishedAll(m, deploy, eligible, asked);
    && plan.Keys == asked.Keys
    && (forall n :: n in plan ==> plan[n] == was[n].(reconcile := plan[n].envs != {}, envs := plan[n].envs))
    && (forall n, e :: n in plan ==> (e in plan[n].envs <==> if eligible then Gets(m, deploy, was, n, e) else e in asked[n].envs))
  }

  lemma PlanIs(m: ImpactMap, deploy: set<Env>, eligible: bool, asked: Actions, was: Actions, plan: Actions)
    requires was == PublishedAll(m, deploy, eligible, asked) && plan.Keys == was.Keys
    requires forall n :: n in plan ==> plan[n] == was[n].(reconcile := plan[n].envs != {}, envs := plan[n].envs)
    requires eligible ==> forall n, e :: n in plan ==> (e in plan[n].envs <==> Gets(m, deploy, was, n, e))
    requires !eligible ==> plan == was
    ensures PlannedFrom(m, deploy, eligible, asked, plan)
  {
    hide Gets;
  }

  /** s is published, n depends on it, and both can be reconciled in e. */
  ghost predicate PublishedFor(m: ImpactMap, deploy: set<Env>, plan: Actions, s: string, n: string, e: Env)
  {
    s in plan && n in plan && plan[s].promote && Reaches(m.graph, n, s) && e in m.Supported(s) * deploy * m.Supported(n)
  }

  /** A published entry reconciles itself and everything that depends on it, wherever both can be reconciled; and nothing is
      reconciled that was not asked for and depends on nothing that was published or asked for. */
  lemma PlanReaches(m: ImpactMap, deploy: set<Env>, asked: Actions, plan: Actions)
    requires PlannedFrom(m, deploy, true, asked, plan)
    ensures forall s, n, e :: PublishedFor(m, deploy, plan, s, n, e) ==> e in plan[n].envs
    ensures forall n, e :: n in plan && e in plan[n].envs ==>
              e in asked[n].envs || exists s :: s in asked && Reaches(m.graph, n, s) && (plan[s].promote || e in asked[s].envs)
  {
    var was := PublishedAll(m, deploy, true, asked);
    forall s, n, e | PublishedFor(m, deploy, plan, s, n, e) ensures e in plan[n].envs
    {
      assert Spreads(m, deploy, was, s, n, e);
      assert Gets(m, deploy, was, n, e);
    }
    forall n, e | n in plan && e in plan[n].envs
      ensures e in asked[n].envs || exists s :: s in asked && Reaches(m.graph, n, s) && (plan[s].promote || e in asked[s].envs)
    {
      assert Gets(m, deploy, was, n, e);
      if e !in asked[n].envs {
        var s :| Spreads(m, deploy, was, s, n, e);
        assert s in asked && Reaches(m.graph, n, s) && (plan[s].promote || e in asked[s].envs);
      }
    }
  }

  /** What has been spread so far lies between the start and the result; the processed seeds are done. */
  ghost predicate Spreading(m: ImpactMap, deploy: set<Env>, was: Actions, now: Actions, rest: set<string>)
  {
    && now.Keys == was.Keys
    && (forall n :: n in now ==> now[n] == was[n].(reconcile := now[n].reconcile, envs := now[n].envs))
    && (forall n :: n in now ==> was[n].envs <= now[n].envs)
    && (forall n, e :: n in now && e in now[n].envs ==> Gets(m, deploy, was, n, e))
    && (forall s, n, e :: s !in rest && n in was && Spreads(m, deploy, was, s, n, e) ==> e in now[n].envs)
  }

  lemma FlagsKept(m: ImpactMap, deploy: set<Env>, was: Actions, now: Actions, rest: set<string>, s: string)
    requires Spreading(m, deploy, was, now, rest) && s in now
    ensures s in was && now[s].promote == was[s].promote
  {}

  /** The entry of a name after the seed's dependents were marked. */
  ghost function After(m: ImpactMap, deploy: set<Env>, now: Actions, s: string, environments: set<Env>, n: string): Action
    requires n in now
  {
    if Reaches(m.graph, n, s) then Marked(now[n], m.Supported(n) * environments, deploy) else now[n]
  }

  lemma SeedSpreads(m: ImpactMap, deploy: set<Env>, was: Actions, now: Actions, after: Actions,
                    rest: set<string>, s: string, environments: set<Env>)
    requires Spreading(m, deploy, was, now, rest) && s in now && IsSeed(was[s])
    requires environments == if was[s].promote then m.Supported(s) * deploy else now[s].envs
    requires after.Keys == now.Keys && forall n :: n in now ==> after[n] == After(m, deploy, now, s, environments, n)
    ensures Spreading(m, deploy, was, after, rest - {s})
  {
    hide Spreads, Gets, After;
    forall n | n in after
      ensures after[n] == was[n].(reconcile := after[n].reconcile, envs := after[n].envs) && was[n].envs <= after[n].envs
    {
      AfterKeeps(m, deploy, was, now, rest, s, environments, n);
    }
    forall n, e | n in after && e in after[n].envs ensures Gets(m, deploy, was, n, e) {
      NewIsGiven(m, deploy, was, now, after[n], rest, s, environments, n, e);
    }
    forall x, n, e | x !in rest - {s} && n in was && Spreads(m, deploy, was, x, n, e) ensures e in after[n].envs {
      ProcessedHas(m, deploy, was, now, after[n], rest, s, environments, x, n, e);
    }
  }

  lemma AfterKeeps(m: ImpactMap, deploy: set<Env>, was: Actions, now: Actions, rest: set<string>,
                   s: string, environments: set<Env>, n: string)
    requires Spreading(m, deploy, was, now, rest) && n in now
    ensures var a := After(m, deploy, now, s, environments, n);
            a == was[n].(reconcile := a.reconcile, envs := a.envs) && was[n].envs <= a.envs
  {
    hide Reaches, Spreads, Gets;
  }

  lemma NewIsGiven(m: ImpactMap, deploy: set<Env>, was: Actions, now: Actions, entry: Action,
                   rest: set<string>, s: string, environments: set<Env>, n: string, e: Env)
    requires Spreading(m, deploy, was, now, rest) && s in now && IsSeed(was[s]) && e in entry.envs
    requires environments == if was[s].promote then m.Supported(s) * deploy else now[s].envs
    requires n in now && entry == After(m, deploy, now, s, environments, n)
    ensures Gets(m, deploy, was, n, e)
  {
    hide Reaches, Spreads, Gets;
    if e !in now[n].envs { SeedGives(m, deploy, was, s, n, e, environments, now[s].envs); }
  }

  lemma ProcessedHas(m: ImpactMap, deploy: set<Env>, was: Actions, now: Actions, entry: Action,
                     rest: set<string>, s: string, environments: set<Env>, x: string, n: string, e: Env)
    requires Spreading(m, deploy, was, now, rest) && s in now && n in was && x !in rest - {s} && Spreads(m, deploy, was, x, n, e)
    requires environments == if was[s].promote then m.Supported(s) * deploy else now[s].envs
    requires n in now && entry == After(m, deploy, now, s, environments, n)
    ensures e in entry.envs
  {
    hide Reaches, Spreads;
    if x == s {
      SpreadsFrom(m, deploy, was, s, n, e);
      MarkedHas(now[n], m.Supported(n) * environments, deploy, e);
    } else {
      assert e in now[n].envs;
    }
  }

  lemma MarkedHas(a: Action, environments: set<Env>, deploy: set<Env>, e: Env)
    requires e in environments && e in deploy
    ensures e in Marked(a, environments, deploy).envs
  {}

  lemma SpreadsFrom(m: ImpactMap, deploy: set<Env>, was: Actions, s: string, n: string, e: Env)
    requires Spreads(m, deploy, was, s, n, e)
    ensures Reaches(m.graph, n, s) && e in m.Supported(n) * deploy
    ensures was[s].promote ==> e in m.Supported(s) * deploy
    ensures !was[s].promote ==> e in was[s].envs
  {}

  lemma EveryEnv(e: Env)
    ensures e in EVERY
  {
    match e { case Production => case LocalProduction => }
  }

  lemma DependentsOfOne(g: Graph, s: string, r: seq<string>)
    requires g.Valid() && s in g.nodes && IsDependents(g, [s], r)
    ensures forall n :: n in g.nodes ==> (n in r <==> Reaches(g, n, s))
    ensures forall n :: n in r ==> n in g.nodes
  {
    ReachesSelf(g, s);
    assert s in [s];
  }

  lemma SpreadStart(m: ImpactMap, deploy: set<Env>, was: Actions)
    ensures forall n, e :: n in was && e in was[n].envs ==> Gets(m, deploy, was, n, e)
    ensures forall s, n, e :: !(s in was && IsSeed(was[s])) ==> !Spreads(m, deploy, was, s, n, e)
  {}

  /** What a dependent gets from a seed's entry as it has become, it gets from some seed as it was. */
  lemma SeedGives(m: ImpactMap, deploy: set<Env>, was: Actions, s: string, n: string, e: Env,
                  environments: set<Env>, now: set<Env>)
    requires s in was && n in was && IsSeed(was[s]) && Reaches(m.graph, n, s) && e in environments && e in m.Supported(n) * deploy
    requires environments == if was[s].promote then m.Supported(s) * deploy else now
    requires forall x :: x in now ==> Gets(m, deploy, was, s, x)
    ensures Gets(m, deploy, was, n, e)
  {
    if e in SeedEnvs(m, deploy, s, was[s]) {
      assert Spreads(m, deploy, was, s, n, e);
    } else {
      assert Gets(m, deploy, was, s, e);
      var x :| Spreads(m, deploy, was, x, s, e);
      ReachesTransitive(m.graph, n, s, x);
      assert Spreads(m, deploy, was, x, n, e);
    }
  }

  /** Whatever is marked for an environment, everything that depends on it and supports the environment is marked for it too. */
  ghost predicate Closed(m: ImpactMap, deploy: set<Env>, actions: Actions)
  {
    forall n, d, e :: n in actions && d in actions && e in actions[n].envs && Reaches(m.graph, d, n) && e in m.Supported(d) ==>
      e in actions[d].envs
  }

  lemma SpreadCloses(m: ImpactMap, deploy: set<Env>, was: Actions, actions: Actions)
    requires actions.Keys == was.Keys
    requires forall n, e :: n in actions ==> (e in actions[n].envs <==> Gets(m, deploy, was, n, e))
    requires forall n :: n in was ==> (was[n].reconcile <==> was[n].envs != {}) && was[n].envs <= m.Supported(n) * deploy
    ensures Closed(m, deploy, actions)
  {
    forall n, d, e | n in actions && d in actions && e in actions[n].envs && Reaches(m.graph, d, n) && e in m.Supported(d)
      ensures e in actions[d].envs
    {
      assert Gets(m, deploy, was, n, e);
      if e in was[n].envs {
        assert Spreads(m, deploy, was, n, d, e);
      } else {
        var s :| Spreads(m, deploy, was, s, n, e);
        ReachesTransitive(m.graph, d, n, s);
        assert Spreads(m, deploy, was, s, d, e);
      }
    }
  }
}
