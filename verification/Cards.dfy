/** Cards, the standard deck and its shuffle (cards.go, domain/seed.go). */
module Cards {
  import opened Common
  import opened Decimal
  import opened Separators

  /** CardDTO. */
  datatype Card = Card(id: string, color: string, face: string)

  const SEP: char := 0x1f as char

  function EncodeCard(c: Card): string { c.id + [SEP] + c.color + [SEP] + c.face }

  function DecodeCard(s: string): Option<Card>
  {
    var parts := Split(SEP, s);
    if |parts| != 3 then None else Some(Card(parts[0], parts[1], parts[2]))
  }

  predicate SepFree(c: Card) { SEP !in c.id && SEP !in c.color && SEP !in c.face }

  lemma EncodeIsJoin(c: Card)
    ensures EncodeCard(c) == Join(SEP, [c.id, c.color, c.face])
  {
    var parts := [c.id, c.color, c.face];
    assert parts[1..] == [c.color, c.face] && parts[1..][1..] == [c.face];
    assert Join(SEP, parts[1..]) == c.color + [SEP] + c.face;
    assert c.id + [SEP] + (c.color + [SEP] + c.face) == EncodeCard(c);
  }

  lemma DecodeEncodeCard(c: Card)
    requires SepFree(c)
    ensures DecodeCard(EncodeCard(c)) == Some(c)
  {
    EncodeIsJoin(c);
    SplitJoin(SEP, [c.id, c.color, c.face]);
  }

  /** Decoding keeps all of the text, so a decoded card encodes to what was read. */
  lemma EncodeDecodeCard(s: string)
    requires DecodeCard(s).Some?
    ensures EncodeCard(DecodeCard(s).value) == s
  {
    JoinSplit(SEP, s);
    var parts := Split(SEP, s);
    EncodeIsJoin(DecodeCard(s).value);
    assert parts == [parts[0], parts[1], parts[2]];
  }

  /** Only the decoded card has its encoding: text with two separators is divided in one way. */
  lemma OnlyDecoded(c: Card)
    requires DecodeCard(EncodeCard(c)).Some?
    ensures DecodeCard(EncodeCard(c)) == Some(c)
  {
    hide Split, FirstIndex, SepFree;
    var tail := c.color + [SEP] + c.face;
    assert EncodeCard(c) == c.id + [SEP] + tail;
    SplitCount(SEP, c.id, tail);
    SplitCount(SEP, c.color, c.face);
    OnePart(c.id);
    OnePart(c.color);
    OnePart(c.face);
    DecodeEncodeCard(c);
  }

  lemma OnePart(s: string)
    requires |Split(SEP, s)| == 1
    ensures SEP !in s
  {
    NoIndexMeansAbsent(s);
  }

  lemma {:induction false} NoIndexMeansAbsent(s: string)
    ensures FirstIndex(SEP, s) == |s| ==> SEP !in s
  {
    if s != [] && s[0] != SEP { NoIndexMeansAbsent(s[1..]); }
  }

  /** decodeCards, as a value: every card, or nothing when one does not decode. */
  function DecodeAll(raw: seq<string>): (r: Option<seq<Card>>)
    ensures r.Some? ==> |r.value| == |raw| && forall i :: 0 <= i < |raw| ==> DecodeCard(raw[i]) == Some(r.value[i])
    ensures r.None? ==> exists i :: 0 <= i < |raw| && DecodeCard(raw[i]).None?
  {
    if forall i :: 0 <= i < |raw| ==> DecodeCard(raw[i]).Some? then
      Some(seq(|raw|, i requires 0 <= i < |raw| => DecodeCard(raw[i]).value))
    else None
  }

  method DecodeCards(raw: seq<string>) returns (out: Option<seq<Card>>)
    ensures out == DecodeAll(raw)
  {
    var cards: seq<Card> := [];
    for i := 0 to |raw|
      invariant |cards| == i
      invariant forall j :: 0 <= j < i ==> DecodeCard(raw[j]) == Some(cards[j])
    {
      var c := DecodeCard(raw[i]);
      if c.None? { return None; }
      cards := cards + [c.value];
    }
    assert cards == DecodeAll(raw).value;
    return Some(cards);
  }

  // ---- the standard deck

  const COLORS: seq<string> := ["red", "yellow", "green", "blue"]
  const FACES: seq<string> := ["1", "2", "3", "4", "5", "6", "7", "8", "9", "skip", "reverse", "draw_two"]

  const DECK_SIZE: nat := 108

  /** One of the 25 cards of a colour: a zero, then two of each other face. */
  function ColourCard(id: string, c: nat, r: nat): Card
    requires c < 4 && r < 25
  {
    Card(id, COLORS[c], if r == 0 then "0" else FACES[(r - 1) / 2])
  }

  /** The card dealt the i-th identity: 25 cards per colour, then eight wild cards. */
  function StandardCard(i: nat): Card
    requires i < DECK_SIZE
  {
    var id := "c" + Itoa(i + 1);
    if i < 100 then ColourCard(id, i / 25, i % 25)
    else Card(id, "", if i % 2 == 0 then "wild" else "wild_draw_four")
  }

  function StandardDeck(): (d: seq<string>)
    ensures |d| == DECK_SIZE
  {
    seq(DECK_SIZE, i requires 0 <= i < DECK_SIZE => EncodeCard(StandardCard(i)))
  }

  lemma CardIn(c: nat, r: nat, n: nat)
    requires c < 4 && r < 25 && n == 25 * c + r
    ensures StandardCard(n) == ColourCard("c" + Itoa(n + 1), c, r)
  {
    hide Itoa, ColourCard;
    InColour(c, r);
  }

  lemma TwoOfEach(c: nat, f: nat, n: nat)
    requires c < 4 && f < 12 && n == 25 * c + 1 + 2 * f
    ensures StandardCard(n) == Card("c" + Itoa(n + 1), COLORS[c], FACES[f])
    ensures StandardCard(n + 1) == Card("c" + Itoa(n + 2), COLORS[c], FACES[f])
  {
    hide Itoa, StandardCard;
    CardIn(c, 1 + 2 * f, n);
    CardIn(c, 2 + 2 * f, n + 1);
    assert (1 + 2 * f - 1) / 2 == f && (2 + 2 * f - 1) / 2 == f;
  }

  lemma InColour(c: nat, r: nat)
    requires r < 25
    ensures (25 * c + r) / 25 == c && (25 * c + r) % 25 == r
  {}

  predicate BeginsDeck(out: seq<string>)
  {
    |out| <= DECK_SIZE && forall j :: 0 <= j < |out| ==> out[j] == EncodeCard(StandardCard(j))
  }

  lemma BeginsSnoc(out: seq<string>, c: Card)
    requires BeginsDeck(out) && |out| < DECK_SIZE && c == StandardCard(|out|)
    ensures BeginsDeck(out + [EncodeCard(c)])
  {
    hide EncodeCard, StandardCard;
  }

  lemma BeginsEmpty()
    ensures BeginsDeck([])
  {}

  lemma BeginsAll(out: seq<string>)
    requires BeginsDeck(out) && |out| == 108
    ensures out == StandardDeck()
  {}

  method StandardDeckCards() returns (out: seq<string>)
    ensures out == StandardDeck()
  {
    hide EncodeCard, StandardCard, StandardDeck, BeginsDeck, Itoa;
    BeginsEmpty();
    out := [];
    var n := 0;
    for c := 0 to 4
      invariant n == |out| == 25 * c && BeginsDeck(out)
    {
      CardIn(c, 0, n);
      n := n + 1;
      var zero := Card("c" + Itoa(n), COLORS[c], "0");
      BeginsSnoc(out, zero);
      out := out + [EncodeCard(zero)];
      for f := 0 to 12
        invariant n == |out| == 25 * c + 1 + 2 * f && BeginsDeck(out)
      {
        TwoOfEach(c, f, n);
        n := n + 1;
        var first := Card("c" + Itoa(n), COLORS[c], FACES[f]);
        BeginsSnoc(out, first);
        out := out + [EncodeCard(first)];
        n := n + 1;
        var second := Card("c" + Itoa(n), COLORS[c], FACES[f]);
        BeginsSnoc(out, second);
        out := out + [EncodeCard(second)];
      }
    }
    for k := 0 to 4
      invariant n == |out| == 100 + 2 * k && BeginsDeck(out)
    {
      WildCards(k, n);
      n := n + 1;
      var wild := Card("c" + Itoa(n), "", "wild");
      BeginsSnoc(out, wild);
      out := out + [EncodeCard(wild)];
      n := n + 1;
      var wildFour := Card("c" + Itoa(n), "", "wild_draw_four");
      BeginsSnoc(out, wildFour);
      out := out + [EncodeCard(wildFour)];
    }
    BeginsAll(out);
  }

  lemma WildCards(k: nat, n: nat)
    requires k < 4 && n == 100 + 2 * k
    ensures StandardCard(n) == Card("c" + Itoa(n + 1), "", "wild")
    ensures StandardCard(n + 1) == Card("c" + Itoa(n + 2), "", "wild_draw_four")
  {}

  lemma NumberSepFree(n: nat)
    ensures SEP !in "c" + Itoa(n)
  {
    hide Itoa;
    assert Digits(Itoa(n));
  }

  lemma NamesSepFree()
    ensures forall i :: 0 <= i < |COLORS| ==> SEP !in COLORS[i]
    ensures forall i :: 0 <= i < |FACES| ==> SEP !in FACES[i]
    ensures SEP !in "" && SEP !in "0" && SEP !in "wild" && SEP !in "wild_draw_four"
  {}

  lemma StandardCardSepFree(i: nat)
    requires i < DECK_SIZE
    ensures SepFree(StandardCard(i))
  {
    hide Itoa;
    NumberSepFree(i + 1);
    NamesSepFree();
  }

  /** The 108 cards decode and are pairwise distinct, by their identities. */
  lemma StandardDeckDistinct(i: nat, j: nat)
    requires i < DECK_SIZE && j < DECK_SIZE
    ensures DecodeCard(StandardDeck()[i]) == Some(StandardCard(i))
    ensures StandardDeck()[i] == StandardDeck()[j] ==> i == j
  {
    StandardCardSepFree(i);
    StandardCardSepFree(j);
    DecodeEncodeCard(StandardCard(i));
    DecodeEncodeCard(StandardCard(j));
    if StandardDeck()[i] == StandardDeck()[j] {
      assert Itoa(i + 1) == StandardCard(i).id[1..];
      assert Itoa(j + 1) == StandardCard(j).id[1..];
      ItoaInjective(i + 1, j + 1);
    }
  }

  /** How often a card of this colour and face is in the deck. */
  function Copies(color: string, face: string): nat
  {
    if color in {"red", "yellow", "green", "blue"} then
      if face == "0" then 1
      else if face in {"1", "2", "3", "4", "5", "6", "7", "8", "9", "skip", "reverse", "draw_two"} then 2
      else 0
    else if color == "" && face in {"wild", "wild_draw_four"} then 4
    else 0
  }

  predicate Shows(i: nat, color: string, face: string)
    requires i < DECK_SIZE
  {
    StandardCard(i).color == color && StandardCard(i).face == face
  }

  function FaceAt(r: nat): string
    requires r <= 12
  {
    if r == 0 then "0" else FACES[r - 1]
  }

  lemma CardAt(i: nat)
    requires i < DECK_SIZE
    ensures i < 100 ==> StandardCard(i).color == COLORS[i / 25] && StandardCard(i).face == FaceAt((i % 25 + 1) / 2)
    ensures i >= 100 ==> StandardCard(i).color == "" && StandardCard(i).face == if i % 2 == 0 then "wild" else "wild_draw_four"
  {
    hide Itoa;
  }

  lemma NamesDiffer()
    ensures forall i, j :: 0 <= i < j < 4 ==> COLORS[i] != COLORS[j]
    ensures forall i, j :: 0 <= i < j <= 12 ==> FaceAt(i) != FaceAt(j)
    ensures forall i :: 0 <= i < 4 ==> COLORS[i] != ""
  {}

  /** The colours and faces by their names. */
  lemma NamesAre(color: string, face: string)
    ensures color in {"red", "yellow", "green", "blue"} <==> exists c :: 0 <= c < 4 && COLORS[c] == color
    ensures face in {"1", "2", "3", "4", "5", "6", "7", "8", "9", "skip", "reverse", "draw_two"}
            <==> exists r :: 1 <= r <= 12 && FaceAt(r) == face
  {
    assert COLORS[0] == "red" && COLORS[1] == "yellow" && COLORS[2] == "green" && COLORS[3] == "blue";
    assert FaceAt(1) == "1" && FaceAt(2) == "2" && FaceAt(3) == "3" && FaceAt(4) == "4" && FaceAt(5) == "5" && FaceAt(6) == "6";
    assert FaceAt(7) == "7" && FaceAt(8) == "8" && FaceAt(9) == "9";
    assert FaceAt(10) == "skip" && FaceAt(11) == "reverse" && FaceAt(12) == "draw_two";
  }

  function Places(color: string, face: string): set<nat> { set i: nat | i < DECK_SIZE && Shows(i, color, face) }

  lemma ColourPlaces(c: nat, r: nat)
    requires c < 4 && r <= 12
    ensures Places(COLORS[c], FaceAt(r)) == if r == 0 then {25 * c} else {25 * c + 2 * r - 1, 25 * c + 2 * r}
  {
    hide StandardCard, FaceAt;
    NamesDiffer();
    forall i: nat | i < DECK_SIZE
      ensures Shows(i, COLORS[c], FaceAt(r)) <==> i == 25 * c + (if r == 0 then 0 else 2 * r - 1) || (r > 0 && i == 25 * c + 2 * r)
    {
      CardAt(i);
      assert i < 100 ==> i == 25 * (i / 25) + i % 25;
    }
  }

  lemma WildPlaces()
    ensures Places("", "wild") == {100, 102, 104, 106} && Places("", "wild_draw_four") == {101, 103, 105, 107}
  {
    hide StandardCard;
    NamesDiffer();
    forall i: nat | i < DECK_SIZE ensures Shows(i, "", "wild") <==> i >= 100 && i % 2 == 0 { CardAt(i); }
    forall i: nat | i < DECK_SIZE ensures Shows(i, "", "wild_draw_four") <==> i >= 100 && i % 2 == 1 { CardAt(i); }
  }

  lemma NoPlaces(color: string, face: string)
    requires !(exists c :: 0 <= c < 4 && COLORS[c] == color) || (face != "0" && !(exists r :: 1 <= r <= 12 && FaceAt(r) == face))
    requires color != "" || (face != "wild" && face != "wild_draw_four")
    ensures Places(color, face) == {}
  {
    hide StandardCard;
    forall i: nat | i < DECK_SIZE ensures !Shows(i, color, face) {
      CardAt(i);
      if i < 100 { assert FaceAt((i % 25 + 1) / 2) != "0" ==> (i % 25 + 1) / 2 >= 1; }
    }
  }

  /** The deck has the composition that the rules of the game ask for. */
  lemma DeckComposition(color: string, face: string)
    ensures |set i: nat | i < DECK_SIZE && Shows(i, color, face)| == Copies(color, face)
  {
    hide Shows, FaceAt;
    assert Places(color, face) == set i: nat | i < DECK_SIZE && Shows(i, color, face);
    NamesAre(color, face);
    assert FaceAt(0) == "0" && "" !in {"red", "yellow", "green", "blue"} by { ZeroFace(); }
    if c :| 0 <= c < 4 && COLORS[c] == color {
      if face == "0" {
        ColourPlaces(c, 0);
      } else if r :| 1 <= r <= 12 && FaceAt(r) == face {
        ColourPlaces(c, r);
      } else {
        NoPlaces(color, face);
      }
    } else if color == "" && face in {"wild", "wild_draw_four"} {
      WildPlaces();
    } else {
      NoPlaces(color, face);
    }
  }

  lemma ZeroFace()
    ensures FaceAt(0) == "0"
  {}

  // ---- the shuffle

  function Swap(s: seq<string>, i: nat, j: nat): (t: seq<string>)
    requires i < |s| && j < |s|
    ensures |t| == |s|
  {
    s[i := s[j]][j := s[i]]
  }

  /** The place that step i draws: the counter generator's word for the step, pick(i), modulo i + 1. */
  function Drawn(pick: nat -> nat, i: nat): (j: nat)
    ensures j <= i
  {
    pick(i) % (i + 1)
  }

  /** The Fisher-Yates steps i, i - 1, ..., 1. */
  function ShuffleFrom(pick: nat -> nat, s: seq<string>, i: nat): (t: seq<string>)
    requires i < |s| || i == 0
    ensures |t| == |s|
    decreases i
  {
    if i == 0 then s else ShuffleFrom(pick, Swap(s, i, Drawn(pick, i)), i - 1)
  }

  function Shuffle(pick: nat -> nat, cards: seq<string>): seq<string>
  {
    if |cards| < 2 then cards else ShuffleFrom(pick, cards, |cards| - 1)
  }

  lemma ShuffleStep(pick: nat -> nat, s: seq<string>, i: nat, j: nat)
    requires 1 <= i < |s| && j == Drawn(pick, i)
    ensures j < |s| && ShuffleFrom(pick, s, i) == ShuffleFrom(pick, Swap(s, i, j), i - 1)
  {}

  method SwapCards(out: array<string>, i: nat, j: nat)
    requires i < out.Length && j < out.Length
    modifies out
    ensures out[..] == Swap(old(out[..]), i, j)
  {
    out[i], out[j] := out[j], out[i];
  }

  lemma ShuffleDone(pick: nat -> nat, s: seq<string>)
    ensures ShuffleFrom(pick, s, 0) == s
  {}

  method ShuffleCards(pick: nat -> nat, cards: seq<string>) returns (r: seq<string>)
    ensures r == Shuffle(pick, cards)
  {
    if |cards| < 2 { return cards; }
    ghost var shuffled := Shuffle(pick, cards);
    hide ShuffleFrom, Shuffle, Swap, Drawn;
    var out := new string[|cards|](i requires 0 <= i < |cards| => cards[i]);
    assert out[..] == cards;
    var i := |cards| - 1;
    while i >= 1
      invariant 0 <= i < |cards| == out.Length
      invariant ShuffleFrom(pick, out[..], i) == shuffled
    {
      var j := Drawn(pick, i);
      ShuffleStep(pick, out[..], i, j);
      SwapCards(out, i, j);
      i := i - 1;
    }
    ShuffleDone(pick, out[..]);
    return out[..];
  }

  lemma {:induction false} ShuffleFromPermutes(pick: nat -> nat, s: seq<string>, i: nat)
    requires i < |s| || i == 0
    ensures multiset(ShuffleFrom(pick, s, i)) == multiset(s)
    decreases i
  {
    if i > 0 {
      var j := Drawn(pick, i);
      ShuffleFromPermutes(pick, Swap(s, i, j), i - 1);
      assert multiset(Swap(s, i, j)) == multiset(s);
    }
  }

  /** The order of a deck: the shuffled standard deck. */
  function DeckOrder(pick: nat -> nat): (o: seq<string>)
    ensures |o| == DECK_SIZE
  {
    Shuffle(pick, StandardDeck())
  }

  predicate Distinct(s: seq<string>) { forall i, j :: 0 <= i < j < |s| ==> s[i] != s[j] }

  predicate AllDecode(s: seq<string>) { forall i :: 0 <= i < |s| ==> DecodeCard(s[i]).Some? }

  lemma StandardDeckProper()
    ensures Distinct(StandardDeck()) && AllDecode(StandardDeck())
  {
    hide DecodeCard, StandardCard, StandardDeck;
    var d := StandardDeck();
    forall i | 0 <= i < |d| ensures DecodeCard(d[i]).Some? { StandardDeckDistinct(i, i); }
    forall i, j | 0 <= i < j < |d| ensures d[i] != d[j] { StandardDeckDistinct(i, j); }
  }

  lemma PermutationProper(o: seq<string>, d: seq<string>)
    requires multiset(o) == multiset(d) && Distinct(d) && AllDecode(d)
    ensures Distinct(o) && AllDecode(o)
  {
    hide DecodeCard;
    forall i | 0 <= i < |o| ensures DecodeCard(o[i]).Some? {
      assert o[i] in multiset(d);
    }
    DistinctMultiset(d);
    forall i, j | 0 <= i < j < |o| ensures o[i] != o[j] {
      RepeatedTwice(o, i, j);
      assert o[i] in multiset(d);
    }
  }

  /** Every card of the standard deck is in the order exactly once, and every card there decodes. */
  lemma DeckOrderCards(pick: nat -> nat)
    ensures multiset(DeckOrder(pick)) == multiset(StandardDeck())
    ensures Distinct(DeckOrder(pick)) && AllDecode(DeckOrder(pick))
  {
    ShuffleFromPermutes(pick, StandardDeck(), DECK_SIZE - 1);
    StandardDeckProper();
    PermutationProper(DeckOrder(pick), StandardDeck());
  }

  lemma {:induction false} DistinctMultiset(d: seq<string>)
    requires Distinct(d)
    ensures forall x :: x in d ==> multiset(d)[x] == 1
  {
    if d != [] {
      DistinctMultiset(d[1..]);
      assert d == [d[0]] + d[1..];
      assert multiset(d) == multiset{d[0]} + multiset(d[1..]);
    }
  }

  lemma RepeatedTwice(o: seq<string>, i: nat, j: nat)
    requires i < j < |o|
    ensures o[i] == o[j] ==> multiset(o)[o[i]] >= 2
  {
    assert o == o[..i] + [o[i]] + o[i + 1..j] + [o[j]] + o[j + 1..];
    assert multiset(o) == multiset(o[..i]) + multiset{o[i]} + multiset(o[i + 1..j]) + multiset{o[j]} + multiset(o[j + 1..]);
  }
}
