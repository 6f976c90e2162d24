/** The deployment dependency graph (ci/lib/impact_map.rb): cycle detection and reverse reachability. */
module ImpactGraph {
  /** The deployment nodes, and what each of them depends on. */
  datatype Graph = Graph(nodes: seq<string>, deps: map<string, seq<string>>)
  {
    /** validate_node_refs: every node has a list, and lists name nodes. */
    predicate Valid()
    {
      (forall n :: n in nodes ==> n in deps) && (forall n, d :: n in nodes && n in deps && d in deps[n] ==> d in nodes)
    }
  }

  /** Each node of the path depends on the next one. */
  ghost predicate IsPath(g: Graph, p: seq<string>)
  {
    && p != [] && (forall i :: 0 <= i < |p| ==> p[i] in g.nodes && p[i] in g.deps)
    && (forall i :: 0 <= i < |p| - 1 ==> p[i + 1] in g.deps[p[i]])
  }

  ghost predicate PathFrom(g: Graph, p: seq<string>, a: string, b: string) { IsPath(g, p) && p[0] == a && p[|p| - 1] == b }

  /** a is b, or depends on it, directly or through other nodes. */
  ghost predicate Reaches(g: Graph, a: string, b: string) { exists p :: PathFrom(g, p, a, b) }

  ghost predicate IsCycle(g: Graph, p: seq<string>) { IsPath(g, p) && |p| >= 2 && p[0] == p[|p| - 1] }

  ghost predicate Cyclic(g: Graph) { exists p :: IsCycle(g, p) }

  lemma ReachesSelf(g: Graph, a: string)
    requires g.Valid() && a in g.nodes
    ensures Reaches(g, a, a)
  {
    assert PathFrom(g, [a], a, a);
  }

  lemma ReachesStep(g: Graph, a: string, d: string, b: string)
    requires g.Valid() && a in g.nodes && d in g.deps[a] && Reaches(g, d, b)
    ensures Reaches(g, a, b)
  {
    var p :| PathFrom(g, p, d, b);
    assert PathFrom(g, [a] + p, a, b);
  }

  lemma ReachesTransitive(g: Graph, a: string, b: string, c: string)
    requires Reaches(g, a, b) && Reaches(g, b, c)
    ensures Reaches(g, a, c)
  {
    var p :| PathFrom(g, p, a, b);
    var q :| PathFrom(g, q, b, c);
    var r := p + q[1..];
    forall i | 0 <= i < |r| - 1 ensures r[i + 1] in g.deps[r[i]] {
      if i >= |p| - 1 {
        var j := i - (|p| - 1);
        assert q[j + 1] in g.deps[q[j]];
      }
    }
    assert PathFrom(g, r, a, c);
  }

  lemma TailPath(g: Graph, p: seq<string>)
    requires IsPath(g, p) && |p| >= 2
    ensures IsPath(g, p[1..]) && p[1] in g.deps[p[0]]
  {
    var q := p[1..];
    forall i | 0 <= i < |q| - 1 ensures q[i + 1] in g.deps[q[i]] { assert p[i + 2] in g.deps[p[i + 1]]; }
  }

  // ---- cycle detection

  /** order lists finished nodes: each after everything it depends on. */
  ghost predicate Finished(g: Graph, order: seq<string>)
  {
    forall i :: 0 <= i < |order| ==> order[i] in g.nodes && order[i] in g.deps && DoneBefore(g, order, i)
  }

  ghost predicate DoneBefore(g: Graph, order: seq<string>, i: nat)
    requires i < |order| && order[i] in g.deps
  {
    forall d :: d in g.deps[order[i]] ==> d in order[..i]
  }

  lemma FinishedSnoc(g: Graph, order: seq<string>, n: string)
    requires Finished(g, order) && n in g.nodes && n in g.deps && forall d :: d in g.deps[n] ==> d in order
    ensures Finished(g, order + [n])
  {
    var o := order + [n];
    forall i | 0 <= i < |o| ensures o[i] in g.nodes && o[i] in g.deps && DoneBefore(g, o, i) {
      if i < |order| {
        assert DoneBefore(g, order, i) && o[..i] == order[..i];
      } else {
        assert o[..i] == order;
      }
    }
  }

  /** The first position of a node in a list. */
  function Rank(order: seq<string>, n: string): (r: nat)
    ensures r <= |order| && (n in order <==> r < |order|) && (r < |order| ==> order[r] == n)
    ensures forall i :: 0 <= i < r ==> order[i] != n
  {
    if order == [] || order[0] == n then 0
    else
      assert order == [order[0]] + order[1..];
      1 + Rank(order[1..], n)
  }

  /** Along a path through finished nodes the ranks fall. */
  lemma {:induction false} RanksFall(g: Graph, order: seq<string>, p: seq<string>)
    requires Finished(g, order) && IsPath(g, p) && p[0] in order && |p| >= 2
    ensures p[|p| - 1] in order && Rank(order, p[|p| - 1]) < Rank(order, p[0])
    decreases |p|
  {
    var r := Rank(order, p[0]);
    TailPath(g, p);
    assert DoneBefore(g, order, r);
    assert p[1] in order[..r];
    var j :| 0 <= j < r && order[j] == p[1];
    assert Rank(order, p[1]) <= j;
    if |p| > 2 { RanksFall(g, order, p[1..]); }
  }

  lemma FinishedAcyclic(g: Graph, order: seq<string>)
    requires Finished(g, order) && forall n :: n in g.nodes ==> n in order
    ensures !Cyclic(g)
  {
    forall p | IsPath(g, p) && |p| >= 2 ensures p[0] != p[|p| - 1] { RanksFall(g, order, p); }
  }

  /** Going back to a node of the current path closes a cycle. */
  lemma BackEdge(g: Graph, stack: seq<string>, n: string)
    requires (stack == [] || IsPath(g, stack)) && n in stack && n in g.deps[stack[|stack| - 1]]
    ensures Cyclic(g)
  {
    var i :| 0 <= i < |stack| && stack[i] == n;
    assert IsCycle(g, stack[i..] + [n]);
  }

  /** The depth-first search, with the hashes visiting and visited that its lambda shares. */
  class CycleCheck {
    const g: Graph
    var visiting: set<string>
    var visited: set<string>
    ghost var stack: seq<string>
    ghost var order: seq<string>

    ghost predicate Valid()
      reads this
    {
      && g.Valid() && Finished(g, order)
      && (forall n :: n in visited <==> n in order)
      && (forall n :: n in visiting <==> n in stack)
      && (stack == [] || IsPath(g, stack))
      && visiting !! visited
    }

    constructor (g: Graph)
      requires g.Valid()
      ensures Valid() && this.g == g && visiting == {} && visited == {} && stack == []
    {
      this.g := g;
      visiting, visited := {}, {};
      stack, order := [], [];
    }

    /** False stands for the raised error. */
    method Visit(name: string) returns (ok: bool)
      requires Valid() && name in g.nodes && (stack != [] ==> name in g.deps[stack[|stack| - 1]])
      requires visiting <= (set n | n in g.nodes)
      modifies this
      ensures ok ==> Valid() && stack == old(stack) && visiting == old(visiting) && name in visited && old(visited) <= visited
      ensures !ok ==> Cyclic(g)
      decreases (set n | n in g.nodes) - visiting
    {
      if name in visiting {
        BackEdge(g, stack, name);
        return false;
      }
      if name in visited { return true; }
      assert name in (set n | n in g.nodes) - visiting;
      visiting := visiting + {name};
      stack := stack + [name];
      ghost var before, below := old(visited), old(visiting);
      var deps := g.deps[name];
      for i := 0 to |deps|
        invariant Valid() && stack == old(stack) + [name] && visiting == below + {name} && before <= visited
        invariant forall j :: 0 <= j < i ==> deps[j] in visited
      {
        var done := Visit(deps[i]);
        if !done { return false; }
      }
      visiting := visiting - {name};
      assert visiting == below;
      stack := stack[..|stack| - 1];
      assert stack == old(stack);
      FinishedSnoc(g, order, name);
      visited := visited + {name};
      order := order + [name];
      return true;
    }
  }

  /** validate_acyclic_graph!: it raises exactly when the dependencies form a cycle. */
  method ValidateAcyclicGraph(g: Graph) returns (ok: bool)
    requires g.Valid()
    ensures ok <==> !Cyclic(g)
  {
    var check := new CycleCheck(g);
    for i := 0 to |g.nodes|
      invariant check.Valid() && check.g == g && check.visiting == {} && check.stack == [] && fresh(check)
      invariant forall j :: 0 <= j < i ==> g.nodes[j] in check.visited
    {
      var done := check.Visit(g.nodes[i]);
      if !done { return false; }
    }
    FinishedAcyclic(g, check.order);
    return true;
  }

  // ---- reverse reachability

  predicate DependsOnAny(g: Graph, n: string, selected: seq<string>)
    requires n in g.deps
  {
    exists d :: d in g.deps[n] && d in selected
  }

  /** The nodes outside the selection that depend on a member of it. */
  function Added(g: Graph, nodes: seq<string>, selected: seq<string>): (r: seq<string>)
    requires forall n :: n in nodes ==> n in g.deps
    ensures forall n :: n in r <==> n in nodes && n !in selected && DependsOnAny(g, n, selected)
  {
    if nodes == [] then []
    else
      var n := nodes[0];
      assert nodes == [n] + nodes[1..];
      (if n !in selected && DependsOnAny(g, n, selected) then [n] else []) + Added(g, nodes[1..], selected)
  }

  /** What transitive_dependents returns, as a set: the names and every node that reaches one of them. */
  ghost predicate IsDependents(g: Graph, names: seq<string>, selected: seq<string>)
  {
    forall n :: n in selected <==> n in names || (n in g.nodes && exists s :: s in names && Reaches(g, n, s))
  }

  function Uniq(s: seq<string>): (r: seq<string>)
    ensures forall x :: x in r <==> x in s
    ensures forall i, j :: 0 <= i < j < |r| ==> r[i] != r[j]
  {
    if s == [] then []
    else
      var n := |s| - 1;
      assert s == s[..n] + [s[n]];
      if s[n] in Uniq(s[..n]) then Uniq(s[..n]) else Uniq(s[..n]) + [s[n]]
  }

  /** A selection that nothing can be added to contains everything that reaches it. */
  lemma {:induction false} ClosedUnder(g: Graph, selected: seq<string>, p: seq<string>)
    requires g.Valid() && Added(g, g.nodes, selected) == []
    requires IsPath(g, p) && p[|p| - 1] in selected
    ensures p[0] in selected
    decreases |p|
  {
    if |p| > 1 {
      TailPath(g, p);
      ClosedUnder(g, selected, p[1..]);
      assert DependsOnAny(g, p[0], selected);
      assert p[0] !in Added(g, g.nodes, selected);
    }
  }

  ghost predicate ReachesAny(g: Graph, n: string, names: seq<string>) { exists s :: s in names && Reaches(g, n, s) }

  /** Every name is selected, and what is selected reaches a name. */
  ghost predicate Sound(g: Graph, names: seq<string>, selected: seq<string>)
  {
    && (forall s :: s in names ==> s in selected)
    && (forall n :: n in selected ==> n in g.nodes && ReachesAny(g, n, names))
  }

  function Left(g: Graph, selected: seq<string>): set<string> { set n | n in g.nodes && n !in selected }

  lemma NamesSound(g: Graph, names: seq<string>)
    requires g.Valid() && forall s :: s in names ==> s in g.nodes
    ensures Sound(g, names, names)
  {
    forall n | n in names ensures ReachesAny(g, n, names) { ReachesSelf(g, n); }
  }

  lemma AddedSound(g: Graph, names: seq<string>, selected: seq<string>)
    requires g.Valid() && Sound(g, names, selected)
    ensures Sound(g, names, selected + Added(g, g.nodes, selected))
    ensures Added(g, g.nodes, selected) != [] ==> Left(g, selected + Added(g, g.nodes, selected)) < Left(g, selected)
  {
    var added := Added(g, g.nodes, selected);
    forall n | n in added ensures ReachesAny(g, n, names) {
      var d :| d in g.deps[n] && d in selected;
      var s :| s in names && Reaches(g, d, s);
      ReachesStep(g, n, d, s);
    }
    if added != [] {
      assert added[0] in added;
      assert added[0] in Left(g, selected) && added[0] !in Left(g, selected + added);
    }
  }

  lemma NothingAdded(g: Graph, names: seq<string>, selected: seq<string>)
    requires g.Valid() && Sound(g, names, selected) && Added(g, g.nodes, selected) == []
    ensures IsDependents(g, names, selected)
  {
    forall n, s | n in g.nodes && s in names && Reaches(g, n, s) ensures n in selected {
      var p :| PathFrom(g, p, n, s);
      ClosedUnder(g, selected, p);
    }
  }

  method TransitiveDependents(g: Graph, names: seq<string>) returns (r: seq<string>)
    requires g.Valid() && forall s :: s in names ==> s in g.nodes
    ensures IsDependents(g, names, r)
    ensures forall i, j :: 0 <= i < j < |r| ==> r[i] != r[j]
  {
    hide Sound, Left, IsDependents;
    var selected := names;
    NamesSound(g, names);
    while true
      invariant Sound(g, names, selected)
      decreases Left(g, selected)
    {
      var added := Added(g, g.nodes, selected);
      AddedSound(g, names, selected);
      if added == [] {
        NothingAdded(g, names, selected);
        break;
      }
      selected := selected + added;
    }
    r := Uniq(selected);
    SameMembers(g, names, selected, r);
  }

  lemma SameMembers(g: Graph, names: seq<string>, a: seq<string>, b: seq<string>)
    requires IsDependents(g, names, a) && forall x :: x in a <==> x in b
    ensures IsDependents(g, names, b)
  {}
}
