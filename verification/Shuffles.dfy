/** Which orders the shuffle gives, and for which generator words. */
module Shuffles {
  import opened Common
  import opened Cards

  /** Places above the current step are settled. */
  lemma {:induction false} TopStays(pick: nat -> nat, s: seq<string>, i: nat, k: nat)
    requires i < k < |s|
    ensures ShuffleFrom(pick, s, i)[k] == s[k]
    decreases i
  {
    if i > 0 { TopStays(pick, Swap(s, i, Drawn(pick, i)), i - 1, k); }
  }

  /** Two generators agree when their words leave the same remainders at every step. */
  predicate Agree(p: nat -> nat, q: nat -> nat, i: nat)
  {
    forall k: nat :: 1 <= k <= i ==> p(k) % (k + 1) == q(k) % (k + 1)
  }

  lemma SwapDistinct(s: seq<string>, i: nat, j: nat)
    requires i < |s| && j < |s| && Distinct(s)
    ensures Distinct(Swap(s, i, j)) && Swap(s, i, j)[i] == s[j]
  {}

  lemma TopIsDrawn(pick: nat -> nat, s: seq<string>, i: nat)
    requires 1 <= i < |s| && Distinct(s)
    ensures var j := pick(i) % (i + 1);
            && j <= i && ShuffleFrom(pick, s, i) == ShuffleFrom(pick, Swap(s, i, j), i - 1)
            && ShuffleFrom(pick, s, i)[i] == s[j] && Distinct(Swap(s, i, j))
  {
    hide ShuffleFrom, Distinct;
    var j := Drawn(pick, i);
    ShuffleStep(pick, s, i, j);
    SwapDistinct(s, i, j);
    TopStays(pick, Swap(s, i, j), i - 1, i);
  }

  lemma AgreeMore(p: nat -> nat, q: nat -> nat, i: nat)
    requires i > 0
    ensures Agree(p, q, i) <==> Agree(p, q, i - 1) && p(i) % (i + 1) == q(i) % (i + 1)
  {
    hide Distinct;
    if Agree(p, q, i - 1) && p(i) % (i + 1) == q(i) % (i + 1) {
      forall k: nat | 1 <= k <= i ensures p(k) % (k + 1) == q(k) % (k + 1) {
        if k == i {} else { assert k <= i - 1; }
      }
    }
  }

  /** Of distinct cards, two generators give the same order exactly when they agree. */
  lemma {:induction false} SameOrder(p: nat -> nat, q: nat -> nat, s: seq<string>, i: nat)
    requires (i < |s| || i == 0) && Distinct(s)
    ensures ShuffleFrom(p, s, i) == ShuffleFrom(q, s, i) <==> Agree(p, q, i)
    decreases i
  {
    hide ShuffleFrom, Swap, Agree;
    if i == 0 {
      ShuffleDone(p, s);
      ShuffleDone(q, s);
      assert Agree(p, q, 0) by { NothingDrawn(p, q); }
    } else {
      TopIsDrawn(p, s, i);
      TopIsDrawn(q, s, i);
      AgreeMore(p, q, i);
      if p(i) % (i + 1) == q(i) % (i + 1) { SameOrder(p, q, Swap(s, i, p(i) % (i + 1)), i - 1); }
    }
  }

  lemma NothingDrawn(p: nat -> nat, q: nat -> nat)
    ensures Agree(p, q, 0)
  {}

  /** Of any distinct cards every order comes up, for some generator words, of which word i can be chosen from 0 to i. */
  lemma {:induction false} EveryOrderComesUp(s: seq<string>, o: seq<string>, i: nat) returns (pick: nat -> nat)
    requires (i < |s| || i == 0) && Distinct(s) && multiset(s) == multiset(o)
    requires |s| == |o| && forall k :: i < k < |s| ==> s[k] == o[k]
    ensures ShuffleFrom(pick, s, i) == o && forall k: nat :: pick(k) <= k
    decreases i
  {
    hide ShuffleFrom, Distinct;
    if i == 0 {
      pick := k => 0;
      ShuffleDone(pick, s);
      OnlyFirstLeft(s, o);
    } else {
      var j := PlaceOf(s, o, i);
      var rest := EveryOrderComesUp(Swap(s, i, j), o, i - 1);
      pick := WithPlace(rest, s, i, j);
    }
  }

  /** The generator that draws this place first, and then as before. */
  lemma WithPlace(rest: nat -> nat, s: seq<string>, i: nat, j: nat) returns (pick: nat -> nat)
    requires 1 <= i < |s| && j <= i && Distinct(s) && forall k: nat :: rest(k) <= k
    ensures ShuffleFrom(pick, s, i) == ShuffleFrom(rest, Swap(s, i, j), i - 1) && forall k: nat :: pick(k) <= k
  {
    hide ShuffleFrom, Distinct, Swap;
    pick := k => if k == i then j else rest(k);
    SwapDistinct(s, i, j);
    SameOrder(pick, rest, Swap(s, i, j), i - 1);
    ShuffleStep(pick, s, i, j);
  }

  /** With all other places right, so is the first. */
  lemma OnlyFirstLeft(s: seq<string>, o: seq<string>)
    requires |s| == |o| && multiset(s) == multiset(o) && forall k :: 0 < k < |s| ==> s[k] == o[k]
    ensures s == o
  {
    if s != [] {
      assert s[1..] == o[1..] && s == [s[0]] + s[1..] && o == [o[0]] + o[1..];
      assert multiset{s[0]} + multiset(s[1..]) == multiset(s);
      assert multiset{o[0]} + multiset(o[1..]) == multiset(o);
      assert multiset{s[0]} == multiset{o[0]} by {
        assert multiset(s) - multiset(s[1..]) == multiset{s[0]} && multiset(o) - multiset(o[1..]) == multiset{o[0]};
      }
      assert s[0] in multiset{o[0]};
    }
  }

  /** The card wanted at place i is at place i or below; brought there, it is right from place i on. */
  lemma PlaceOf(s: seq<string>, o: seq<string>, i: nat) returns (j: nat)
    requires i < |s| == |o| && Distinct(s) && multiset(s) == multiset(o) && forall k :: i < k < |s| ==> s[k] == o[k]
    ensures j <= i && s[j] == o[i] && Distinct(Swap(s, i, j)) && multiset(Swap(s, i, j)) == multiset(o)
    ensures forall k :: i <= k < |s| ==> Swap(s, i, j)[k] == o[k]
  {
    assert o[i] in multiset(s);
    j :| 0 <= j < |s| && s[j] == o[i];
    DistinctMultiset(s);
    if j > i { RepeatedTwice(o, i, j); }
    SwapDistinct(s, i, j);
    assert multiset(Swap(s, i, j)) == multiset(s);
  }

  /** Two generators order the deck in one way exactly when each of their words leaves the same remainder. */
  lemma OneChoice(p: nat -> nat, q: nat -> nat)
    ensures DeckOrder(p) == DeckOrder(q) <==> forall k: nat :: 1 <= k <= 107 ==> p(k) % (k + 1) == q(k) % (k + 1)
  {
    hide StandardDeck, ShuffleFrom, Distinct;
    StandardDeckProper();
    SameOrder(p, q, StandardDeck(), DECK_SIZE - 1);
  }

  /** Every order of the deck's cards comes up, for some choice of the places that are drawn. */
  lemma EveryDeckOrder(o: seq<string>) returns (pick: nat -> nat)
    requires multiset(o) == multiset(StandardDeck())
    ensures DeckOrder(pick) == o && forall k: nat :: pick(k) <= k
  {
    hide StandardDeck, ShuffleFrom, Distinct;
    var d := StandardDeck();
    StandardDeckProper();
    assert |d| == |multiset(d)| && |o| == |multiset(o)|;
    pick := EveryOrderComesUp(d, o, DECK_SIZE - 1);
  }

  // ---- one draw without bias

  const WORDS: int := 0x1_0000_0000_0000_0000

  /** The multiple of n below which words are used; the word WORDS - 1 is never below it. */
  function Limit(n: nat): int
    requires n > 0
  {
    (WORDS - 1) / n * n
  }

  /** The words of the generator's stream from one place on are read until one can be used; none may be in the part of the
      stream that is given. */
  method Uint64n(words: seq<nat>, from: nat, n: nat) returns (r: Option<nat>, next: nat)
    requires from <= |words|
    ensures n == 0 ==> r == Some(0) && next == from
    ensures n > 0 && r.None? ==> next == |words| && forall k :: from <= k < |words| ==> words[k] >= Limit(n)
    ensures n > 0 && r.Some? ==>
              from < next <= |words| && words[next - 1] < Limit(n) && r.value == words[next - 1] % n < n
              && forall k :: from <= k < next - 1 ==> words[k] >= Limit(n)
  {
    next := from;
    if n == 0 { return Some(0), next; }
    var limit := (WORDS - 1) / n * n;
    while next < |words|
      invariant from <= next <= |words|
      invariant forall k :: from <= k < next ==> words[k] >= limit
    {
      var v := words[next];
      next := next + 1;
      if v < limit { return Some(v % n), next; }
    }
    return None, next;
  }

  /** The words below a multiple of n that leave this remainder. */
  function Leaving(n: nat, m: nat, r: nat): set<nat>
    requires n > 0
  {
    set v: nat | v < m * n && v % n == r
  }

  lemma {:induction false} LeavingCount(n: nat, m: nat, r: nat)
    requires r < n
    ensures |Leaving(n, m, r)| == m
  {
    if m == 0 {
      assert Leaving(n, 0, r) == {};
    } else {
      LeavingCount(n, m - 1, r);
      var last := (m - 1) * n + r;
      OneMoreMultiple(n, m, r);
      assert Leaving(n, m, r) == Leaving(n, m - 1, r) + {last};
      assert last !in Leaving(n, m - 1, r);
    }
  }

  lemma OneMoreMultiple(n: nat, m: nat, r: nat)
    requires r < n && m > 0
    ensures forall v: nat :: v < m * n && v % n == r <==> (v < (m - 1) * n && v % n == r) || v == (m - 1) * n + r
    ensures (m - 1) * n + r >= (m - 1) * n
  {
    forall v: nat ensures v < m * n && v % n == r <==> (v < (m - 1) * n && v % n == r) || v == (m - 1) * n + r {
      Remainder(n, m - 1, r);
      OneWord(n, m, v / n, v % n);
      assert v == v / n * n + v % n;
    }
  }

  lemma OneWord(n: nat, m: nat, q: nat, rest: nat)
    requires rest < n && m > 0
    ensures q * n + rest < m * n <==> q * n + rest < (m - 1) * n || q == m - 1
  {
    Larger(n, m, q);
    Larger(n, q + 1, m - 1);
    Larger(n, q + 1, m);
    assert (q + 1) * n == q * n + n;
  }

  lemma Between(n: nat, q: nat, m: nat, r: nat)
    requires r < n && m > 0 && (m - 1) * n <= q * n + r < m * n
    ensures q == m - 1
  {
    Larger(n, m, q);
    Larger(n, q + 1, m - 1);
  }

  lemma Larger(n: nat, a: int, b: int)
    ensures a <= b ==> a * n <= b * n
  {}

  lemma Remainder(n: nat, q: nat, r: nat)
    requires r < n
    ensures (q * n + r) % n == r && q * n + r < (q + 1) * n
  {
    var v := q * n + r;
    assert v == v / n * n + v % n;
    Between(n, v / n, q + 1, v % n);
  }

  /** The draw has no bias: every remainder is left by equally many of the words that are used, and fewer than n + 1 of all
      words are not. */
  lemma NoBias(n: nat, r: nat)
    requires r < n < WORDS
    ensures |set v: nat | v < Limit(n) && v % n == r| == (WORDS - 1) / n
    ensures WORDS - n <= Limit(n) < WORDS
  {
    var m := (WORDS - 1) / n;
    LeavingCount(n, m, r);
    assert Leaving(n, m, r) == set v: nat | v < Limit(n) && v % n == r;
  }

  /** The documented limit is the largest multiple of n up to 2^64. It is the one that is used exactly when n does not divide
      2^64; otherwise n more words are passed over, which leaves no bias either. */
  lemma DocumentedLimit(n: nat)
    requires 0 < n < WORDS
    ensures WORDS / n * n == if WORDS % n == 0 then Limit(n) + n else Limit(n)
  {
    var q := WORDS / n;
    assert WORDS == q * n + WORDS % n;
    if WORDS % n == 0 {
      Quotient(n, q - 1, n - 1);
      assert (q - 1) * n + (n - 1) == WORDS - 1;
    } else {
      Quotient(n, q, WORDS % n - 1);
    }
  }

  lemma Quotient(n: nat, q: int, r: nat)
    requires r < n && q >= 0
    ensures (q * n + r) / n == q
  {
    var v := q * n + r;
    assert v == v / n * n + v % n;
    Between(n, v / n, q + 1, v % n);
  }
}
