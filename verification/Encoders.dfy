/** The injective text and byte encodings of Game Integrity: envelope AAD, reservation shapes and ids,
    stream names. A byte is a character below 256. */
module Encoders {
  import opened Decimal
  import opened Separators

  // ---- length-prefixed fields (envelope.go, envelope_meta.go)

  /** The four big-endian bytes that byte(n >> 24), ..., byte(n) write, truncating included. */
  function Prefix(n: nat): (p: string)
    ensures |p| == 4
  {
    [(n / 0x100_0000 % 256) as char, (n / 0x1_0000 % 256) as char, (n / 0x100 % 256) as char, (n % 256) as char]
  }

  function AppendLengthPrefixed(dst: string, val: string): string { dst + Prefix(|val|) + val }

  const LIMIT: nat := 0x1_0000_0000

  lemma PrefixInjective(m: nat, n: nat)
    requires m < LIMIT && n < LIMIT && Prefix(m) == Prefix(n)
    ensures m == n
  {
    var p, q := Prefix(m), Prefix(n);
    assert p[0] == q[0] && p[1] == q[1] && p[2] == q[2] && p[3] == q[3];
    PrefixValue(m);
    PrefixValue(n);
  }

  lemma PrefixValue(n: nat)
    requires n < LIMIT
    ensures n == Prefix(n)[0] as int * 0x100_0000 + Prefix(n)[1] as int * 0x1_0000
                 + Prefix(n)[2] as int * 0x100 + Prefix(n)[3] as int
  {
    Octets(n);
  }

  lemma Octets(n: nat)
    ensures n == n / 0x100_0000 * 0x100_0000 + n / 0x1_0000 % 0x100 * 0x1_0000 + n / 0x100 % 0x100 * 0x100 + n % 0x100
  {
    var a, b, c := n / 0x100, n / 0x1_0000, n / 0x100_0000;
    assert b == a / 0x100;
    assert c == b / 0x100;
    assert n == a * 0x100 + n % 0x100;
    assert a == b * 0x100 + a % 0x100;
    assert b == c * 0x100 + b % 0x100;
  }

  /** A field followed by anything is read back in one way. */
  lemma FieldRun(a: string, x: string, b: string, y: string)
    requires |a| < LIMIT && |b| < LIMIT
    requires Prefix(|a|) + a + x == Prefix(|b|) + b + y
    ensures a == b && x == y
  {
    var s := Prefix(|a|) + a + x;
    assert Prefix(|a|) == s[..4];
    assert (Prefix(|b|) + b + y)[..4] == Prefix(|b|);
    PrefixInjective(|a|, |b|);
    assert a == s[4..4 + |a|] && x == s[4 + |a|..];
    assert b == (Prefix(|b|) + b + y)[4..4 + |b|] && y == (Prefix(|b|) + b + y)[4 + |b|..];
  }

  function EncodeFields(fs: seq<string>): string
  {
    if fs == [] then [] else Prefix(|fs[0]|) + fs[0] + EncodeFields(fs[1..])
  }

  predicate Short(fs: seq<string>) { forall i :: 0 <= i < |fs| ==> |fs[i]| < LIMIT }

  /** Lists of short fields, of whatever lengths, have distinct encodings. */
  lemma {:induction false} FieldsInjective(fs: seq<string>, gs: seq<string>)
    requires Short(fs) && Short(gs) && EncodeFields(fs) == EncodeFields(gs)
    ensures fs == gs
  {
    assert fs != [] ==> |EncodeFields(fs)| >= 4;
    assert gs != [] ==> |EncodeFields(gs)| >= 4;
    if fs != [] && gs != [] {
      FieldRun(fs[0], EncodeFields(fs[1..]), gs[0], EncodeFields(gs[1..]));
      FieldsInjective(fs[1..], gs[1..]);
      assert fs == [fs[0]] + fs[1..] && gs == [gs[0]] + gs[1..];
    }
  }

  lemma {:induction false} FieldsSnoc(fs: seq<string>, f: string)
    ensures EncodeFields(fs + [f]) == AppendLengthPrefixed(EncodeFields(fs), f)
  {
    if fs == [] {
      assert [f][1..] == [];
    } else {
      FieldsSnoc(fs[1..], f);
      assert (fs + [f])[1..] == fs[1..] + [f];
    }
  }

  datatype EnvelopeMeta = EnvelopeMeta(
    envelopeVersion: nat, keyVersion: nat, wrappedDEK: string, wrapNonce: string, payloadNonce: string,
    originalEventId: string, originalEventType: string, stream: string, roomId: string, gameId: string,
    kurrentRevision: nat, domainRevision: nat, eventUuid: string)
  {
    function CanonicalAAD(): string
    {
      var buf := AppendLengthPrefixed([], Itoa(envelopeVersion));
      var buf := AppendLengthPrefixed(buf, Itoa(keyVersion));
      var buf := AppendLengthPrefixed(buf, wrappedDEK);
      var buf := AppendLengthPrefixed(buf, wrapNonce);
      var buf := AppendLengthPrefixed(buf, payloadNonce);
      var buf := AppendLengthPrefixed(buf, originalEventId);
      var buf := AppendLengthPrefixed(buf, originalEventType);
      var buf := AppendLengthPrefixed(buf, stream);
      var buf := AppendLengthPrefixed(buf, roomId);
      var buf := AppendLengthPrefixed(buf, gameId);
      var buf := AppendLengthPrefixed(buf, Itoa(kurrentRevision));
      var buf := AppendLengthPrefixed(buf, Itoa(domainRevision));
      AppendLengthPrefixed(buf, eventUuid)
    }

    function Fields(): seq<string>
    {
      [Itoa(envelopeVersion), Itoa(keyVersion), wrappedDEK, wrapNonce, payloadNonce, originalEventId,
       originalEventType, stream, roomId, gameId, Itoa(kurrentRevision), Itoa(domainRevision), eventUuid]
    }
  }

  lemma FieldsStep(fs: seq<string>, k: nat)
    requires k < |fs|
    ensures AppendLengthPrefixed(EncodeFields(fs[..k]), fs[k]) == EncodeFields(fs[..k + 1])
  {
    FieldsSnoc(fs[..k], fs[k]);
    assert fs[..k + 1] == fs[..k] + [fs[k]];
  }

  lemma AadEncodesFields(m: EnvelopeMeta)
    ensures m.CanonicalAAD() == EncodeFields(m.Fields())
  {
    hide AppendLengthPrefixed, EncodeFields;
    var fs := m.Fields();
    FieldsStep(fs, 0);  FieldsStep(fs, 1);  FieldsStep(fs, 2);  FieldsStep(fs, 3);  FieldsStep(fs, 4);
    FieldsStep(fs, 5);  FieldsStep(fs, 6);  FieldsStep(fs, 7);  FieldsStep(fs, 8);  FieldsStep(fs, 9);
    FieldsStep(fs, 10); FieldsStep(fs, 11); FieldsStep(fs, 12);
    assert fs[..0] == [] && fs[..13] == fs;
    NoFields();
  }

  lemma NoFields()
    ensures EncodeFields([]) == []
  {}

  /** The additional data binds every field of the envelope metadata. */
  lemma CanonicalAADInjective(a: EnvelopeMeta, b: EnvelopeMeta)
    requires Short(a.Fields()) && Short(b.Fields())
    requires a.CanonicalAAD() == b.CanonicalAAD()
    ensures a == b
  {
    AadEncodesFields(a);
    AadEncodesFields(b);
    FieldsInjective(a.Fields(), b.Fields());
    var f, g := a.Fields(), b.Fields();
    assert f[0] == g[0] && f[1] == g[1] && f[2] == g[2] && f[3] == g[3] && f[4] == g[4] && f[5] == g[5] && f[6] == g[6];
    assert f[7] == g[7] && f[8] == g[8] && f[9] == g[9] && f[10] == g[10] && f[11] == g[11] && f[12] == g[12];
    ItoaInjective(a.envelopeVersion, b.envelopeVersion);
    ItoaInjective(a.keyVersion, b.keyVersion);
    ItoaInjective(a.kurrentRevision, b.kurrentRevision);
    ItoaInjective(a.domainRevision, b.domainRevision);
  }

  lemma PrefixWraps(n: nat)
    ensures Prefix(n + LIMIT) == Prefix(n)
  {
    assert (n + LIMIT) / 0x100_0000 == n / 0x100_0000 + 0x100;
    assert (n + LIMIT) / 0x1_0000 == n / 0x1_0000 + 0x1_0000;
    assert (n + LIMIT) / 0x100 == n / 0x100 + 0x100_0000;
    SameRemainder(n / 0x100_0000, 0x1);
    SameRemainder(n / 0x1_0000, 0x100);
    SameRemainder(n / 0x100, 0x1_0000);
    SameRemainder(n, 0x100_0000);
  }

  lemma SameRemainder(n: nat, k: nat)
    ensures (n + 256 * k) % 256 == n % 256
  {}

  lemma {:induction false} FieldsConcat(fs: seq<string>, gs: seq<string>)
    ensures EncodeFields(fs + gs) == EncodeFields(fs) + EncodeFields(gs)
  {
    hide EncodeFields, Prefix;
    if fs == [] {
      assert fs + gs == gs;
      NoFields();
    } else {
      FieldsConcat(fs[1..], gs);
      FirstField(fs);
      FirstField(fs + gs);
      assert (fs + gs)[0] == fs[0] && (fs + gs)[1..] == fs[1..] + gs;
      Regroup(Prefix(|fs[0]|) + fs[0], EncodeFields(fs[1..]), EncodeFields(gs));
    }
  }

  lemma Regroup(a: string, b: string, c: string)
    ensures a + (b + c) == a + b + c
  {}

  lemma FirstField(fs: seq<string>)
    requires fs != []
    ensures EncodeFields(fs) == Prefix(|fs[0]|) + fs[0] + EncodeFields(fs[1..])
  {}

  lemma TwoFields(f: string, g: string)
    ensures EncodeFields([f, g]) == Prefix(|f|) + f + Prefix(|g|) + g
  {
    hide Prefix;
    assert [f, g][1..] == [g] && [g][1..] == [];
    assert EncodeFields([g]) == Prefix(|g|) + g + EncodeFields([]);
  }

  /** Past 2^32 bytes the prefix wraps: text of 2^32 - 4 bytes moves from one field to the next, together with the prefix
      between them, and the encoding stays the same. */
  lemma LongFieldsCollide(before: seq<string>, f: string, g: string, after: seq<string>, rest: string)
    requires |rest| == LIMIT - 4
    ensures EncodeFields(before + [f + Prefix(|g|) + rest, g] + after) == EncodeFields(before + [f, rest + Prefix(|g|) + g] + after)
  {
    hide Prefix;
    PrefixWraps(|f|);
    PrefixWraps(|g|);
    var x, y := [f + Prefix(|g|) + rest, g], [f, rest + Prefix(|g|) + g];
    TwoFields(x[0], x[1]);
    TwoFields(y[0], y[1]);
    assert EncodeFields(x) == EncodeFields(y);
    FieldsConcat(before, x);
    FieldsConcat(before, y);
    FieldsConcat(before + x, after);
    FieldsConcat(before + y, after);
  }

  /** So the bound on the lengths is needed: from every metadata record come two different ones, with a field past 2^32 bytes
      each, that have the same additional data. */
  lemma LongFieldCollides(m: EnvelopeMeta, rest: string)
    requires |rest| == LIMIT - 4
    ensures var a := m.(wrappedDEK := m.wrappedDEK + Prefix(|m.wrapNonce|) + rest);
            var b := m.(wrapNonce := rest + Prefix(|m.wrapNonce|) + m.wrapNonce);
            a != b && a.CanonicalAAD() == b.CanonicalAAD()
  {
    hide Prefix, EncodeFields, Itoa;
    var a := m.(wrappedDEK := m.wrappedDEK + Prefix(|m.wrapNonce|) + rest);
    var b := m.(wrapNonce := rest + Prefix(|m.wrapNonce|) + m.wrapNonce);
    assert |a.wrappedDEK| != |b.wrappedDEK|;
    AadEncodesFields(a);
    AadEncodesFields(b);
    var fs := m.Fields();
    assert a.Fields() == fs[..2] + [m.wrappedDEK + Prefix(|m.wrapNonce|) + rest, m.wrapNonce] + fs[4..];
    assert b.Fields() == fs[..2] + [m.wrappedDEK, rest + Prefix(|m.wrapNonce|) + m.wrapNonce] + fs[4..];
    LongFieldsCollide(fs[..2], m.wrappedDEK, m.wrapNonce, fs[4..], rest);
  }

  // ---- reservation shapes and ids (service.go)

  function SeatText(seat: string): string { "|" + Itoa(|seat|) + ":" + seat }

  function SeatsText(seats: seq<string>): string
  {
    if seats == [] then "" else SeatText(seats[0]) + SeatsText(seats[1..])
  }

  function DealShape(seats: seq<string>, perHand: nat): string
  {
    "deal|" + Itoa(perHand) + "|" + Itoa(|seats|) + SeatsText(seats)
  }

  function DrawShape(count: nat): string { "draw|" + Itoa(count) }

  lemma {:induction false} SeatsTextSnoc(seats: seq<string>, seat: string)
    ensures SeatsText(seats + [seat]) == SeatsText(seats) + SeatText(seat)
  {
    if seats == [] {
      assert [seat][1..] == [];
    } else {
      SeatsTextSnoc(seats[1..], seat);
      assert (seats + [seat])[1..] == seats[1..] + [seat];
    }
  }

  /** dealShape writes its text into one builder, seat after seat. */
  method BuildDealShape(seats: seq<string>, perHand: nat) returns (b: string)
    ensures b == DealShape(seats, perHand)
  {
    b := "deal|" + Itoa(perHand) + "|" + Itoa(|seats|);
    var head := b;
    for i := 0 to |seats|
      invariant b == head + SeatsText(seats[..i])
    {
      SeatsTextSnoc(seats[..i], seats[i]);
      assert seats[..i + 1] == seats[..i] + [seats[i]];
      b := b + "|" + Itoa(|seats[i]|) + ":" + seats[i];
    }
    assert seats[..|seats|] == seats;
  }

  lemma SeatRun(a: string, x: string, b: string, y: string)
    requires SeatText(a) + x == SeatText(b) + y
    ensures a == b && x == y
  {
    var u, v := ":" + a + x, ":" + b + y;
    assert SeatText(a) + x == "|" + (Itoa(|a|) + u);
    assert SeatText(b) + y == "|" + (Itoa(|b|) + v);
    assert (SeatText(a) + x)[1..] == Itoa(|a|) + u;
    assert (SeatText(b) + y)[1..] == Itoa(|b|) + v;
    NumberRun(|a|, u, |b|, v);
    assert a == u[1..1 + |a|] && x == u[1 + |a|..];
    assert b == v[1..1 + |b|] && y == v[1 + |b|..];
  }

  lemma {:induction false} SeatsInjective(s: seq<string>, t: seq<string>)
    requires |s| == |t| && SeatsText(s) == SeatsText(t)
    ensures s == t
  {
    if s != [] {
      SeatRun(s[0], SeatsText(s[1..]), t[0], SeatsText(t[1..]));
      SeatsInjective(s[1..], t[1..]);
      assert s == [s[0]] + s[1..] && t == [t[0]] + t[1..];
    }
  }

  /** The deal shape determines seats and hand size, whatever text the seats hold. */
  lemma DealShapeInjective(s: seq<string>, p: nat, t: seq<string>, q: nat)
    requires DealShape(s, p) == DealShape(t, q)
    ensures s == t && p == q
  {
    var x, y := Itoa(|s|) + SeatsText(s), Itoa(|t|) + SeatsText(t);
    DealShapeSplits(s, p);
    DealShapeSplits(t, q);
    NumberRun(p, "|" + x, q, "|" + y);
    assert x == ("|" + x)[1..] && y == ("|" + y)[1..];
    SeatsStop(s);
    SeatsStop(t);
    NumberRun(|s|, SeatsText(s), |t|, SeatsText(t));
    SeatsInjective(s, t);
  }

  lemma DealShapeSplits(s: seq<string>, p: nat)
    ensures DealShape(s, p)[5..] == Itoa(p) + ("|" + (Itoa(|s|) + SeatsText(s)))
  {
    var a, b, c := Itoa(p), Itoa(|s|), SeatsText(s);
    assert "deal|" + a + "|" + b + c == "deal|" + (a + ("|" + (b + c)));
  }

  lemma SeatsStop(s: seq<string>)
    ensures StopsDigits(SeatsText(s))
  {
    if s != [] { assert SeatText(s[0])[0] == '|'; }
  }

  lemma DrawShapeInjective(m: nat, n: nat)
    requires DrawShape(m) == DrawShape(n)
    ensures m == n
  {
    assert Itoa(m) == DrawShape(m)[5..] && Itoa(n) == DrawShape(n)[5..];
    ItoaInjective(m, n);
  }

  lemma ShapesDisjoint(seats: seq<string>, perHand: nat, count: nat)
    ensures DealShape(seats, perHand) != DrawShape(count)
  {
    assert DealShape(seats, perHand)[1] == 'e' && DrawShape(count)[1] == 'r';
  }

  const NUL: string := [0 as char]

  predicate NulFree(s: string) { 0 as char !in s }

  function ReservationPreimage(room: string, game: string, op: string, shape: string): string
  {
    room + NUL + game + NUL + op + NUL + shape
  }

  lemma NulRun(a: string, x: string, b: string, y: string)
    requires NulFree(a) && NulFree(b) && a + NUL + x == b + NUL + y
    ensures a == b && x == y
  {
    SepRun(0 as char, a, x, b, y);
  }

  /** With NUL-free ids the hashed text determines room, game, operation and shape. */
  lemma PreimageInjective(r1: string, g1: string, o1: string, s1: string, r2: string, g2: string, o2: string, s2: string)
    requires NulFree(r1) && NulFree(g1) && NulFree(o1) && NulFree(r2) && NulFree(g2) && NulFree(o2)
    requires ReservationPreimage(r1, g1, o1, s1) == ReservationPreimage(r2, g2, o2, s2)
    ensures r1 == r2 && g1 == g2 && o1 == o2 && s1 == s2
  {
    var x1, x2 := o1 + NUL + s1, o2 + NUL + s2;
    var y1, y2 := g1 + NUL + x1, g2 + NUL + x2;
    assert ReservationPreimage(r1, g1, o1, s1) == r1 + NUL + y1;
    assert ReservationPreimage(r2, g2, o2, s2) == r2 + NUL + y2;
    NulRun(r1, y1, r2, y2);
    NulRun(g1, x1, g2, x2);
    NulRun(o1, s1, o2, s2);
  }

  /** The longer operation id is the shorter one, a NUL and a beginning of the shorter one's shape; the rest of that shape,
      after another NUL, is the longer one's shape. */
  predicate Shifted(o1: string, s1: string, o2: string, s2: string)
  {
    o1 + NUL <= o2 && s1 == o2[|o1| + 1..] + NUL + s2
  }

  /** Within one room and game two operations share the hashed text exactly when they are the same, or one is the other one
      shifted. */
  lemma SamePreimage(room: string, game: string, o1: string, s1: string, o2: string, s2: string)
    ensures ReservationPreimage(room, game, o1, s1) == ReservationPreimage(room, game, o2, s2)
            <==> (o1 == o2 && s1 == s2) || Shifted(o1, s1, o2, s2) || Shifted(o2, s2, o1, s1)
  {
    var p, x, y := room + NUL + game + NUL, o1 + NUL + s1, o2 + NUL + s2;
    assert ReservationPreimage(room, game, o1, s1) == p + x && ReservationPreimage(room, game, o2, s2) == p + y;
    assert x == (p + x)[|p|..] && y == (p + y)[|p|..];
    SameTail(o1, s1, o2, s2);
    SameTail(o2, s2, o1, s1);
  }

  lemma SameTail(o1: string, s1: string, o2: string, s2: string)
    ensures |o1| < |o2| ==> (o1 + NUL + s1 == o2 + NUL + s2 <==> Shifted(o1, s1, o2, s2))
    ensures |o1| == |o2| && o1 + NUL + s1 == o2 + NUL + s2 ==> o1 == o2 && s1 == s2
    ensures Shifted(o1, s1, o2, s2) ==> |o1| < |o2|
  {
    var x, y, n := o1 + NUL + s1, o2 + NUL + s2, |o1|;
    assert x[..n] == o1 && x[..n + 1] == o1 + NUL && x[n + 1..] == s1;
    if n == |o2| {
      assert y[..n] == o2 && y[n + 1..] == s2;
    }
    if n < |o2| {
      assert y[..n + 1] == o2[..n + 1] && y[n + 1..] == o2[n + 1..] + NUL + s2;
      assert o2 == o2[..n + 1] + o2[n + 1..];
      assert x == x[..n + 1] + x[n + 1..] && y == y[..n + 1] + y[n + 1..];
    }
  }

  lemma DigitsNulFree(s: string)
    requires Digits(s)
    ensures NulFree(s)
  {}

  lemma {:induction false} SeatsNulFree(seats: seq<string>)
    ensures NulFree(SeatsText(seats)) <==> forall i :: 0 <= i < |seats| ==> NulFree(seats[i])
  {
    if seats != [] {
      SeatsNulFree(seats[1..]);
      DigitsNulFree(Itoa(|seats[0]|));
      assert forall i :: 0 < i < |seats| ==> seats[i] == seats[1..][i - 1];
    }
  }

  /** A shape holds a NUL only where the text of a seat does. */
  lemma ShapeNulFree(seats: seq<string>, perHand: nat, count: nat)
    ensures NulFree(DealShape(seats, perHand)) <==> forall i :: 0 <= i < |seats| ==> NulFree(seats[i])
    ensures NulFree(DrawShape(count))
  {
    SeatsNulFree(seats);
    DigitsNulFree(Itoa(perHand));
    DigitsNulFree(Itoa(|seats|));
    DigitsNulFree(Itoa(count));
  }

  /** What comes before the last seat's last t in the shape of a deal for two seats. */
  function BeforeTail(first: string, t: string): string { "deal|1|2" + SeatText(first) + "|" + Itoa(1 + |t|) + ":" }

  /** A deal for a seat that is a NUL and another shape t shares its text with a request of shape t under a longer id. */
  lemma NulInOperationCollides(room: string, game: string, op: string, first: string, t: string)
    ensures ReservationPreimage(room, game, op, DealShape([first, NUL + t], 1))
            == ReservationPreimage(room, game, op + NUL + BeforeTail(first, t), t)
  {
    TailShape(first, t);
    var longer := op + NUL + BeforeTail(first, t);
    assert op + NUL <= longer && longer[|op| + 1..] == BeforeTail(first, t);
    SamePreimage(room, game, op, DealShape([first, NUL + t], 1), longer, t);
  }

  lemma TailShape(first: string, t: string)
    ensures DealShape([first, NUL + t], 1) == BeforeTail(first, t) + NUL + t
  {
    hide SeatText;
    var seats := [first, NUL + t];
    assert seats[1..] == [NUL + t] && [NUL + t][1..] == [];
    assert SeatsText([]) == "" && SeatsText([NUL + t]) == SeatText(NUL + t) + SeatsText([]);
    assert SeatsText(seats) == SeatText(first) + SeatText(NUL + t);
    SmallNumbers();
    SeatOfTail(t);
  }

  lemma SmallNumbers()
    ensures Itoa(1) == "1" && Itoa(2) == "2"
  {}

  lemma SeatOfTail(t: string)
    ensures SeatText(NUL + t) == "|" + Itoa(1 + |t|) + ":" + NUL + t
  {
    assert |NUL + t| == 1 + |t|;
  }

  // ---- stream names (stream_names.go; base64url of section 5 of RFC 4648, without padding)

  predicate IsBytes(s: string) { forall i :: 0 <= i < |s| ==> s[i] as int < 256 }

  function Symbol(i: nat): (c: char)
    requires i < 64
  {
    if i < 26 then ('A' as int + i) as char
    else if i < 52 then ('a' as int + i - 26) as char
    else if i < 62 then ('0' as int + i - 52) as char
    else if i == 62 then '-' else '_'
  }

  function SymbolIndex(c: char): int
  {
    if 'A' <= c <= 'Z' then c as int - 'A' as int
    else if 'a' <= c <= 'z' then c as int - 'a' as int + 26
    else if '0' <= c <= '9' then c as int - '0' as int + 52
    else if c == '-' then 62 else 63
  }

  lemma SymbolRoundTrip(i: nat)
    requires i < 64
    ensures SymbolIndex(Symbol(i)) == i && Symbol(i) != '.'
  {}

  function EncodeStreamPart(s: string): string
    requires IsBytes(s)
  {
    if s == [] then []
    else
      var x := s[0] as int;
      if |s| == 1 then [Symbol(x / 4), Symbol(x % 4 * 16)]
      else
        var y := s[1] as int;
        if |s| == 2 then [Symbol(x / 4), Symbol(x % 4 * 16 + y / 16), Symbol(y % 16 * 4)]
        else
          var z := s[2] as int;
          [Symbol(x / 4), Symbol(x % 4 * 16 + y / 16), Symbol(y % 16 * 4 + z / 64), Symbol(z % 64)]
          + EncodeStreamPart(s[3..])
  }

  /** RawURLEncoding.DecodeString on text that EncodeToString produced. */
  function DecodeStreamPart(t: string): seq<int>
  {
    if |t| < 2 then []
    else
      var i, j := SymbolIndex(t[0]), SymbolIndex(t[1]);
      if |t| == 2 then [i * 4 + j / 16]
      else
        var k := SymbolIndex(t[2]);
        if |t| == 3 then [i * 4 + j / 16, j % 16 * 16 + k / 4]
        else [i * 4 + j / 16, j % 16 * 16 + k / 4, k % 4 * 64 + SymbolIndex(t[3])] + DecodeStreamPart(t[4..])
  }

  lemma GroupRoundTrip(x: nat, y: nat, z: nat)
    requires x < 256 && y < 256 && z < 256
    ensures var i, j, k, l := x / 4, x % 4 * 16 + y / 16, y % 16 * 4 + z / 64, z % 64;
            && j < 64 && k < 64
            && SymbolIndex(Symbol(i)) == i && SymbolIndex(Symbol(j)) == j
            && SymbolIndex(Symbol(k)) == k && SymbolIndex(Symbol(l)) == l
            && Symbol(i) != '.' && Symbol(j) != '.' && Symbol(k) != '.' && Symbol(l) != '.'
            && i * 4 + j / 16 == x && j % 16 * 16 + k / 4 == y && k % 4 * 64 + l == z
  {
    SymbolRoundTrip(x / 4);
    SymbolRoundTrip(x % 4 * 16 + y / 16);
    SymbolRoundTrip(y % 16 * 4 + z / 64);
    SymbolRoundTrip(z % 64);
  }

  function Codes(s: string): seq<int> { seq(|s|, i requires 0 <= i < |s| => s[i] as int) }

  lemma FirstGroup(s: string)
    requires IsBytes(s) && |s| >= 3
    ensures var x, y, z := s[0] as int, s[1] as int, s[2] as int;
            EncodeStreamPart(s) == [Symbol(x / 4), Symbol(x % 4 * 16 + y / 16), Symbol(y % 16 * 4 + z / 64), Symbol(z % 64)]
                                   + EncodeStreamPart(s[3..])
  {}

  lemma FirstDecoded(t: string)
    requires |t| >= 4
    ensures var i, j, k, l := SymbolIndex(t[0]), SymbolIndex(t[1]), SymbolIndex(t[2]), SymbolIndex(t[3]);
            DecodeStreamPart(t) == [i * 4 + j / 16, j % 16 * 16 + k / 4, k % 4 * 64 + l] + DecodeStreamPart(t[4..])
  {
    hide SymbolIndex;
  }

  lemma TwoBytes(s: string)
    requires IsBytes(s) && |s| == 2
    ensures DecodeStreamPart(EncodeStreamPart(s)) == Codes(s) && '.' !in EncodeStreamPart(s)
  {
    hide Symbol, SymbolIndex;
    var x, y := s[0] as int, s[1] as int;
    GroupRoundTrip(x, y, 0);
    var t := EncodeStreamPart(s);
    assert t == [Symbol(x / 4), Symbol(x % 4 * 16 + y / 16), Symbol(y % 16 * 4)];
    assert DecodeStreamPart(t) == [x, y];
  }

  lemma OneByte(s: string)
    requires IsBytes(s) && |s| == 1
    ensures DecodeStreamPart(EncodeStreamPart(s)) == Codes(s) && '.' !in EncodeStreamPart(s)
  {
    hide Symbol, SymbolIndex;
    var x := s[0] as int;
    GroupRoundTrip(x, 0, 0);
    var t := EncodeStreamPart(s);
    assert t == [Symbol(x / 4), Symbol(x % 4 * 16)];
    assert DecodeStreamPart(t) == [x];
  }

  lemma NoBytes()
    ensures DecodeStreamPart(EncodeStreamPart("")) == Codes("") && '.' !in EncodeStreamPart("")
  {}

  lemma {:induction false} StreamPartRoundTrip(s: string)
    requires IsBytes(s)
    ensures DecodeStreamPart(EncodeStreamPart(s)) == Codes(s)
    ensures '.' !in EncodeStreamPart(s)
  {
    hide Symbol, SymbolIndex, EncodeStreamPart, DecodeStreamPart;
    if |s| >= 3 {
      StreamPartRoundTrip(s[3..]);
      var t := EncodeStreamPart(s);
      var x, y, z := s[0] as int, s[1] as int, s[2] as int;
      FirstGroup(s);
      GroupRoundTrip(x, y, z);
      FirstDecoded(t);
      assert t[4..] == EncodeStreamPart(s[3..]);
      assert Codes(s) == [x, y, z] + Codes(s[3..]);
    } else if |s| == 2 {
      TwoBytes(s);
    } else if |s| == 1 {
      OneByte(s);
    } else {
      NoBytes();
    }
  }

  lemma StreamPartInjective(a: string, b: string)
    requires IsBytes(a) && IsBytes(b) && EncodeStreamPart(a) == EncodeStreamPart(b)
    ensures a == b
  {
    StreamPartRoundTrip(a);
    StreamPartRoundTrip(b);
    assert |a| == |Codes(a)| == |Codes(b)| == |b|;
    forall i | 0 <= i < |a| ensures a[i] == b[i] {
      assert Codes(a)[i] == Codes(b)[i];
    }
  }

  datatype StreamId = RoomStream(room: string) | DeckStream(room: string, game: string) | BindStream(game: string)
  {
    predicate Valid() {
      match this
      case RoomStream(r) => IsBytes(r)
      case DeckStream(r, g) => IsBytes(r) && IsBytes(g)
      case BindStream(g) => IsBytes(g)
    }

    function Name(): string
      requires Valid()
    {
      match this
      case RoomStream(r) => "gi.room.v1." + EncodeStreamPart(r)
      case DeckStream(r, g) => "gi.deck.v1." + EncodeStreamPart(r) + "." + EncodeStreamPart(g)
      case BindStream(g) => "gi.gamebind.v1." + EncodeStreamPart(g)
    }
  }

  lemma NamesStart(a: StreamId, b: StreamId)
    requires a.Valid() && b.Valid() && a.Name() == b.Name()
    ensures a.RoomStream? == b.RoomStream? && a.DeckStream? == b.DeckStream?
  {
    hide EncodeStreamPart;
    assert a.Name()[3] == b.Name()[3];
  }

  lemma NameRest(a: StreamId)
    requires a.Valid()
    ensures match a
      case RoomStream(r) => a.Name()[11..] == EncodeStreamPart(r)
      case DeckStream(r, g) => a.Name()[11..] == EncodeStreamPart(r) + ['.'] + EncodeStreamPart(g)
      case BindStream(g) => a.Name()[15..] == EncodeStreamPart(g)
  {
    hide EncodeStreamPart;
  }

  /** Distinct aggregates, of one family or of different families, never share a stream. */
  lemma StreamNameInjective(a: StreamId, b: StreamId)
    requires a.Valid() && b.Valid() && a.Name() == b.Name()
    ensures a == b
  {
    hide EncodeStreamPart;
    NamesStart(a, b);
    NameRest(a);
    NameRest(b);
    match a {
      case RoomStream(r) => StreamPartInjective(r, b.room);
      case BindStream(g) => StreamPartInjective(g, b.game);
      case DeckStream(r, g) =>
        StreamPartRoundTrip(r);
        StreamPartRoundTrip(b.room);
        SepRun('.', EncodeStreamPart(r), EncodeStreamPart(g), EncodeStreamPart(b.room), EncodeStreamPart(b.game));
        StreamPartInjective(r, b.room);
        StreamPartInjective(g, b.game);
    }
  }
}
