/** What a deck's two published commitments pin down (service.go, orderCommitment). */
module DeckCommitments {
  import opened Common
  import opened Cards
  import opened DeckService
  import opened Decimal
  import Encoders
  import Shuffles

  predicate NulFree(s: string) { 0 as char !in s }

  lemma LastCard(a: string, x: string, b: string, y: string)
    requires NulFree(x) && NulFree(y) && a + x + Encoders.NUL == b + y + Encoders.NUL
    requires (a == "" || a[|a| - 1] == 0 as char) && (b == "" || b[|b| - 1] == 0 as char)
    ensures a == b && x == y
  {
    var s, t := a + x, b + y;
    assert s == (s + Encoders.NUL)[..|s|] && t == (t + Encoders.NUL)[..|t|];
    LongerHead(a, x, b, y);
    LongerHead(b, y, a, x);
    assert a == s[..|a|] && b == t[..|b|] && x == s[|a|..] && y == t[|b|..];
  }

  lemma LongerHead(a: string, x: string, b: string, y: string)
    requires NulFree(y) && a + x == b + y && (a == "" || a[|a| - 1] == 0 as char)
    ensures |a| <= |b|
  {
    var s := a + x;
    assert forall k :: |b| <= k < |s| ==> s[k] == y[k - |b|];
    assert a != "" ==> s[|a| - 1] == a[|a| - 1];
  }

  lemma TextEnds(cards: seq<string>)
    ensures cards == [] <==> OrderText(cards) == ""
    ensures cards != [] ==> OrderText(cards)[|OrderText(cards)| - 1] == 0 as char
  {}

  /** Lists of cards without NUL have different texts. */
  lemma {:induction false} OrderTextInjective(a: seq<string>, b: seq<string>)
    requires (forall i :: 0 <= i < |a| ==> NulFree(a[i])) && (forall i :: 0 <= i < |b| ==> NulFree(b[i]))
    requires OrderText(a) == OrderText(b)
    ensures a == b
    decreases |a|
  {
    TextEnds(a);
    TextEnds(b);
    if a != [] {
      var m, n := |a| - 1, |b| - 1;
      TextEnds(a[..m]);
      TextEnds(b[..n]);
      LastCard(OrderText(a[..m]), a[m], OrderText(b[..n]), b[n]);
      OrderTextInjective(a[..m], b[..n]);
      assert a == a[..m] + [a[m]] && b == b[..n] + [b[n]];
    }
  }

  lemma DigitsNulFree(n: nat)
    ensures NulFree("c" + Itoa(n))
  {
    hide Itoa;
    assert NulFree(Itoa(n)) by { assert Digits(Itoa(n)); }
  }

  lemma NamesNulFree()
    ensures forall i :: 0 <= i < |COLORS| ==> NulFree(COLORS[i])
    ensures forall i :: 0 <= i < |FACES| ==> NulFree(FACES[i])
    ensures NulFree("") && NulFree("wild") && NulFree("wild_draw_four")
  {}

  lemma EncodedNulFree(c: Card)
    requires NulFree(c.id) && NulFree(c.color) && NulFree(c.face)
    ensures NulFree(EncodeCard(c))
  {}

  lemma StandardCardsNulFree(i: nat)
    requires i < DECK_SIZE
    ensures NulFree(StandardDeck()[i])
  {
    hide Itoa, NulFree, EncodeCard;
    DigitsNulFree(i + 1);
    NamesNulFree();
    EncodedNulFree(StandardCard(i));
  }

  lemma DeckNulFree(pick: nat -> nat)
    ensures forall i :: 0 <= i < |DeckOrder(pick)| ==> NulFree(DeckOrder(pick)[i])
  {
    hide StandardDeck, DeckOrder;
    DeckOrderCards(pick);
    var o, d := DeckOrder(pick), StandardDeck();
    forall i | 0 <= i < |o| ensures NulFree(o[i]) {
      assert o[i] in multiset(d);
      var j :| 0 <= j < |d| && d[j] == o[i];
      StandardCardsNulFree(j);
    }
  }

  /** Under a hash without collisions, two decks with one order commitment have one order, and were shuffled by words with the
      same remainders; two decks with one seed commitment have one seed, and so everything else in common. */
  lemma CommitmentsBind(ideal: Ideal, seed: string, seed': string)
    requires forall x, y :: ideal.sha(x) == ideal.sha(y) ==> x == y
    ensures OrderCommitment(ideal, OrderFor(ideal, seed)) == OrderCommitment(ideal, OrderFor(ideal, seed')) <==>
              OrderFor(ideal, seed) == OrderFor(ideal, seed')
    ensures OrderFor(ideal, seed) == OrderFor(ideal, seed') <==>
              forall k: nat :: 1 <= k <= 107 ==> ideal.pick(seed, k) % (k + 1) == ideal.pick(seed', k) % (k + 1)
    ensures ideal.sha(seed) == ideal.sha(seed') ==> OrderFor(ideal, seed) == OrderFor(ideal, seed')
  {
    hide OrderText, DeckOrder;
    var p, q := Picks(ideal, seed), Picks(ideal, seed');
    DeckNulFree(p);
    DeckNulFree(q);
    if OrderText(DeckOrder(p)) == OrderText(DeckOrder(q)) { OrderTextInjective(DeckOrder(p), DeckOrder(q)); }
    Shuffles.OneChoice(p, q);
    assert forall k: nat :: p(k) == ideal.pick(seed, k) && q(k) == ideal.pick(seed', k);
  }
}
