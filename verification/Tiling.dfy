/** Named intervals that cover [0, end) without gap or overlap, and their order by start. */
module Tiling {
  datatype Span = Span(from: int, to: int)

  predicate NoDup(ops: seq<string>) { forall i, j :: 0 <= i < j < |ops| ==> ops[i] != ops[j] }

  ghost predicate SameNames(m: map<string, Span>, ops: seq<string>) { forall op :: op in m <==> op in ops }

  /** The listed spans follow one another from 0 and the last one stops at end. */
  ghost predicate Chained(m: map<string, Span>, ops: seq<string>, end: int)
    requires forall op :: op in ops ==> op in m
  {
    if ops == [] then end == 0
    else
      var last := m[ops[|ops| - 1]];
      last.to == end && Chained(m, ops[..|ops| - 1], last.from)
  }

  ghost predicate Tiles(m: map<string, Span>, ops: seq<string>, end: int)
  {
    NoDup(ops) && SameNames(m, ops) && Chained(m, ops, end)
  }

  /** Some order of the spans covers [0, end) without gap or overlap. */
  ghost predicate Contiguous(m: map<string, Span>, end: int)
  {
    exists ops :: Tiles(m, ops, end)
  }

  predicate Positive(m: map<string, Span>) { forall op :: op in m ==> m[op].from < m[op].to }

  ghost predicate SortedByFrom(m: map<string, Span>, ops: seq<string>)
    requires forall op :: op in ops ==> op in m
  {
    forall i, j :: 0 <= i < j < |ops| ==> m[ops[i]].from <= m[ops[j]].from
  }

  lemma {:induction false} ChainBounds(m: map<string, Span>, ops: seq<string>, end: int)
    requires Positive(m) && (forall op :: op in ops ==> op in m) && Chained(m, ops, end)
    ensures 0 <= end
    ensures forall i :: 0 <= i < |ops| ==> 0 <= m[ops[i]].from && m[ops[i]].to <= end
    ensures forall i, j :: 0 <= i < j < |ops| ==> m[ops[i]].to <= m[ops[j]].from
  {
    if ops != [] {
      var n := |ops| - 1;
      ChainBounds(m, ops[..n], m[ops[n]].from);
    }
  }

  /** The last name of a chain is the last one in order of start. */
  lemma SameLast(m: map<string, Span>, ops: seq<string>, sorted: seq<string>, end: int)
    requires Positive(m) && (forall op :: op in ops ==> op in m) && NoDup(ops)
    requires forall op :: op in ops <==> op in sorted
    requires Chained(m, ops, end) && SortedByFrom(m, sorted) && ops != []
    ensures sorted != [] && ops[|ops| - 1] == sorted[|sorted| - 1]
  {
    hide Chained;
    ChainBounds(m, ops, end);
    var a := ops[|ops| - 1];
    assert a in sorted;
    var b := sorted[|sorted| - 1];
    assert b in ops;
    var i :| 0 <= i < |ops| && ops[i] == b;
    var j :| 0 <= j < |sorted| && sorted[j] == a;
    assert m[a].from <= m[b].from;
  }

  /** Without its last name a list keeps what it was. */
  lemma InitKeeps(m: map<string, Span>, ops: seq<string>)
    requires ops != [] && NoDup(ops) && forall op :: op in ops ==> op in m
    ensures var init := ops[..|ops| - 1];
            && NoDup(init) && (forall op :: op in init <==> op in ops && op != ops[|ops| - 1])
            && (SortedByFrom(m, ops) ==> SortedByFrom(m, init))
            && forall end :: Chained(m, ops, end) ==> Chained(m, init, m[ops[|ops| - 1]].from)
  {
    forall op ensures op in ops[..|ops| - 1] <==> op in ops && op != ops[|ops| - 1] { ButLast(ops, op); }
  }

  /** Two lists of the same names in order of start are equal when one of them is a chain. */
  lemma {:induction false} ChainIsTheSortedList(m: map<string, Span>, ops: seq<string>, sorted: seq<string>, end: int)
    requires Positive(m) && NoDup(ops) && NoDup(sorted) && (forall op :: op in ops ==> op in m)
    requires forall op :: op in ops <==> op in sorted
    requires Chained(m, ops, end) && SortedByFrom(m, sorted)
    ensures ops == sorted
    decreases |ops|
  {
    hide Chained, NoDup, SortedByFrom, Positive;
    assert sorted == [] || sorted[0] in ops;
    if ops != [] {
      SameLast(m, ops, sorted, end);
      InitKeeps(m, ops);
      InitKeeps(m, sorted);
      var a, ops', sorted' := ops[|ops| - 1], ops[..|ops| - 1], sorted[..|sorted| - 1];
      ChainIsTheSortedList(m, ops', sorted', m[a].from);
      assert ops == ops' + [a] && sorted == sorted' + [a];
    }
  }

  lemma ButLast(ops: seq<string>, op: string)
    requires ops != [] && NoDup(ops)
    ensures op in ops[..|ops| - 1] <==> op in ops && op != ops[|ops| - 1]
  {
    if op in ops && op != ops[|ops| - 1] {
      var i :| 0 <= i < |ops| && ops[i] == op;
      assert ops[..|ops| - 1][i] == op;
    }
  }

  /** A span that starts where the chain ends extends it. */
  lemma TilesExtend(m: map<string, Span>, ops: seq<string>, end: int, op: string, to: int)
    requires Tiles(m, ops, end) && op !in m
    ensures Tiles(m[op := Span(end, to)], ops + [op], to)
  {
    var m', ops' := m[op := Span(end, to)], ops + [op];
    assert ops'[..|ops|] == ops;
    ChainFrame(m, m', ops, end);
  }

  lemma {:induction false} ChainFrame(m: map<string, Span>, m': map<string, Span>, ops: seq<string>, end: int)
    requires forall op :: op in ops ==> op in m && op in m' && m[op] == m'[op]
    ensures Chained(m, ops, end) == Chained(m', ops, end)
  {
    if ops != [] { ChainFrame(m, m', ops[..|ops| - 1], m[ops[|ops| - 1]].from); }
  }

  /** sort.Slice by start, on the names of some spans. */
  method SortByFrom(m: map<string, Span>, ops: seq<string>) returns (out: seq<string>)
    requires NoDup(ops) && forall op :: op in ops ==> op in m
    ensures NoDup(out) && (forall op :: op in out <==> op in ops) && |out| == |ops|
    ensures forall op :: op in out ==> op in m
    ensures SortedByFrom(m, out)
  {
    out := [];
    for i := 0 to |ops|
      invariant NoDup(out) && |out| == i && (forall op :: op in out <==> op in ops[..i])
      invariant forall op :: op in out ==> op in m
      invariant SortedByFrom(m, out)
    {
      var k := 0;
      while k < |out| && m[out[k]].from <= m[ops[i]].from
        invariant 0 <= k <= |out|
        invariant forall j :: 0 <= j < k ==> m[out[j]].from <= m[ops[i]].from
      {
        k := k + 1;
      }
      assert ops[i] in m;
      InsertKeeps(m, ops, i, out, k);
      out := out[..k] + [ops[i]] + out[k..];
    }
    assert ops[..|ops|] == ops;
  }

  function Inserted(out: seq<string>, k: nat, op: string): (o: seq<string>)
    requires k <= |out|
    ensures |o| == |out| + 1
    ensures forall j :: 0 <= j < |o| ==> o[j] == if j < k then out[j] else if j == k then op else out[j - 1]
  {
    out[..k] + [op] + out[k..]
  }

  lemma InsertedNames(out: seq<string>, k: nat, op: string)
    requires k <= |out| && NoDup(out) && op !in out
    ensures NoDup(Inserted(out, k, op)) && forall x :: x in Inserted(out, k, op) <==> x in out || x == op
  {
    var o := Inserted(out, k, op);
    assert out == out[..k] + out[k..];
    forall i, j | 0 <= i < j < |o| ensures o[i] != o[j] {
      assert j < k ==> out[i] != out[j];
      assert i == k ==> out[j - 1] in out;
      assert j == k ==> out[i] in out;
    }
  }

  lemma InsertedSorted(m: map<string, Span>, out: seq<string>, k: nat, op: string)
    requires k <= |out| && op in m && (forall x :: x in out ==> x in m) && SortedByFrom(m, out)
    requires forall j :: 0 <= j < k ==> m[out[j]].from <= m[op].from
    requires k < |out| ==> m[op].from < m[out[k]].from
    ensures forall x :: x in Inserted(out, k, op) ==> x in m
    ensures SortedByFrom(m, Inserted(out, k, op))
  {
    forall j | k <= j < |out| ensures m[op].from < m[out[j]].from {}
  }

  lemma InsertKeeps(m: map<string, Span>, ops: seq<string>, i: nat, out: seq<string>, k: nat)
    requires i < |ops| && k <= |out| && NoDup(ops) && (forall op :: op in ops ==> op in m)
    requires NoDup(out) && (forall op :: op in out <==> op in ops[..i]) && SortedByFrom(m, out)
    requires forall j :: 0 <= j < k ==> m[out[j]].from <= m[ops[i]].from
    requires k < |out| ==> m[ops[i]].from < m[out[k]].from
    ensures var o := out[..k] + [ops[i]] + out[k..];
            NoDup(o) && (forall op :: op in o <==> op in ops[..i + 1]) && SortedByFrom(m, o)
  {
    assert ops[i] !in ops[..i] by { assert forall j :: 0 <= j < i ==> ops[..i][j] == ops[j] != ops[i]; }
    assert ops[..i + 1] == ops[..i] + [ops[i]];
    hide NoDup, SortedByFrom;
    InsertedNames(out, k, ops[i]);
    InsertedSorted(m, out, k, ops[i]);
    assert out[..k] + [ops[i]] + out[k..] == Inserted(out, k, ops[i]);
  }

  /** Consecutive pieces of a sequence, one for each listed span. */
  ghost function Pieces<T>(s: seq<T>, m: map<string, Span>, ops: seq<string>): seq<T>
    requires forall op :: op in ops ==> op in m && 0 <= m[op].from <= m[op].to <= |s|
  {
    if ops == [] then []
    else
      var last := m[ops[|ops| - 1]];
      Pieces(s, m, ops[..|ops| - 1]) + s[last.from..last.to]
  }

  /** The pieces of a chain concatenate to the covered prefix. */
  lemma {:induction false} PiecesTile<T>(s: seq<T>, m: map<string, Span>, ops: seq<string>, end: int)
    requires forall op :: op in ops ==> op in m && 0 <= m[op].from <= m[op].to <= |s|
    requires 0 <= end <= |s| && Chained(m, ops, end)
    ensures Pieces(s, m, ops) == s[..end]
  {
    if ops != [] {
      var last := m[ops[|ops| - 1]];
      PiecesTile(s, m, ops[..|ops| - 1], last.from);
      assert s[..last.from] + s[last.from..last.to] == s[..end];
    }
  }
}
