/** The opaque text of a paging cursor (analytics_backfill_cursor.go, store/leaderboard_cursor.go): a prefix, the payload and its
    MAC, both in base64url without padding. */
module SealedCursor {
  import opened Common
  import opened Encoders
  import opened Separators
  import opened Spaces

  /** What differs between the two cursors: JSON, MAC and the checks of the content are given functions. */
  datatype Codec<!C(!new)> = Codec(prefix: string, guards: set<string>, write: C -> string, read: string -> Option<C>,
                             mac: string -> string, proper: C -> bool)
  {
    ghost predicate Valid() {
      && prefix != "" && IsPlain(prefix[0])
      && (forall c :: IsBytes(write(c)) && write(c) != "")
      && (forall s :: IsBytes(mac(s)) && mac(s) != "")
    }
  }

  predicate OccursAt(s: string, w: string, i: nat) { i + |w| <= |s| && s[i..i + |w|] == w }

  predicate Contains(s: string, w: string) { exists i :: 0 <= i <= |s| && OccursAt(s, w, i) }

  /** The text holds one of the words that the reader takes for a physical key. */
  predicate Guarded<C(!new)>(codec: Codec<C>, text: string) { exists g :: g in codec.guards && Contains(text, g) }

  predicate IsSymbol(c: char)
  {
    'A' <= c <= 'Z' || 'a' <= c <= 'z' || '0' <= c <= '9' || c == '-' || c == '_'
  }

  function WithoutBreaks(s: string): string
  {
    if s == "" then "" else (if s[0] == '\r' || s[0] == '\n' then "" else [s[0]]) + WithoutBreaks(s[1..])
  }

  function Chars(codes: seq<int>): string { seq(|codes|, i requires 0 <= i < |codes| => (codes[i] % 256) as char) }

  /** RawURLEncoding.DecodeString: line breaks are skipped, and the bits left over at the end are ignored. */
  function DecodeBytes(s: string): Option<string>
  {
    var t := WithoutBreaks(s);
    if (exists i :: 0 <= i < |t| && !IsSymbol(t[i])) || |t| % 4 == 1 then None else Some(Chars(DecodeStreamPart(t)))
  }

  /** The text of a cursor. */
  function Seal<C(!new)>(codec: Codec<C>, c: C): string
    requires IsBytes(codec.write(c)) && IsBytes(codec.mac(codec.write(c)))
  {
    codec.prefix + EncodeStreamPart(codec.write(c)) + "." + EncodeStreamPart(codec.mac(codec.write(c)))
  }

  /** The cursor that a text stands for; None when it is refused. */
  function Open<C(!new)>(codec: Codec<C>, raw: string): Option<C>
  {
    var text := Trim(raw);
    if text == "" || Guarded(codec, text) || !(codec.prefix <= text) then None
    else
      var parts := Split('.', text[|codec.prefix|..]);
      if |parts| != 2 || parts[0] == "" || parts[1] == "" then None
      else
        var payload, mac := DecodeBytes(parts[0]), DecodeBytes(parts[1]);
        if payload.None? || mac.None? || mac.value != codec.mac(payload.value) then None
        else Checked(codec, codec.read(payload.value))
  }

  function Checked<C(!new)>(codec: Codec<C>, c: Option<C>): Option<C> { if c.Some? && codec.proper(c.value) then c else None }

  lemma SymbolIs(i: nat)
    requires i < 64
    ensures IsSymbol(Symbol(i)) && IsPlain(Symbol(i))
  {}

  predicate Symbols(t: string) { forall i :: 0 <= i < |t| ==> IsSymbol(t[i]) && IsPlain(t[i]) }

  lemma {:induction false} PartSymbols(s: string)
    requires IsBytes(s)
    ensures Symbols(EncodeStreamPart(s)) && |EncodeStreamPart(s)| % 4 != 1 && (s != "" ==> EncodeStreamPart(s) != "")
  {
    hide Symbol, IsSymbol, IsPlain;
    if |s| >= 3 {
      PartSymbols(s[3..]);
      var x, y, z := s[0] as int, s[1] as int, s[2] as int;
      GroupBounds(x, y, z);
      SymbolIs(x / 4);
      SymbolIs(x % 4 * 16 + y / 16);
      SymbolIs(y % 16 * 4 + z / 64);
      SymbolIs(z % 64);
    } else if |s| == 2 {
      SymbolIs(s[0] as int / 4);
      SymbolIs(s[0] as int % 4 * 16 + s[1] as int / 16);
      SymbolIs(s[1] as int % 16 * 4);
    } else if |s| == 1 {
      SymbolIs(s[0] as int / 4);
      SymbolIs(s[0] as int % 4 * 16);
    }
  }

  lemma GroupBounds(x: nat, y: nat, z: nat)
    requires x < 256 && y < 256 && z < 256
    ensures x / 4 < 64 && x % 4 * 16 + y / 16 < 64 && y % 16 * 4 + z / 64 < 64 && z % 64 < 64
  {}

  lemma {:induction false} NoBreaks(s: string)
    requires Symbols(s)
    ensures WithoutBreaks(s) == s
  {
    if s != "" {
      assert IsSymbol(s[0]);
      NoBreaks(s[1..]);
      assert s == [s[0]] + s[1..];
    }
  }

  lemma BytesBack(s: string)
    requires IsBytes(s)
    ensures DecodeBytes(EncodeStreamPart(s)) == Some(s)
  {
    hide EncodeStreamPart, DecodeStreamPart, WithoutBreaks;
    PartSymbols(s);
    NoBreaks(EncodeStreamPart(s));
    StreamPartRoundTrip(s);
    assert Chars(Codes(s)) == s;
  }

  lemma TwoParts(a: string, b: string)
    requires '.' !in a && '.' !in b
    ensures Split('.', a + "." + b) == [a, b]
  {
    hide Split;
    SplitJoin('.', [a, b]);
    assert [a, b][1..] == [b];
    assert Join('.', [a, b]) == a + ['.'] + b;
  }

  lemma SealedText<C(!new)>(codec: Codec<C>, c: C)
    requires codec.Valid()
    ensures var text := Seal(codec, c);
            && Trim(text) == text != "" && codec.prefix <= text
            && text[|codec.prefix|..] == EncodeStreamPart(codec.write(c)) + "." + EncodeStreamPart(codec.mac(codec.write(c)))
  {
    hide EncodeStreamPart, Leading, Trailing, IsPlain;
    var text, last := Seal(codec, c), EncodeStreamPart(codec.mac(codec.write(c)));
    PartSymbols(codec.mac(codec.write(c)));
    assert text[0] == codec.prefix[0] && text[|text| - 1] == last[|last| - 1];
    PlainEnds(text);
    TrimIsTrimmed(text);
  }

  /** A cursor that was written is read back exactly when its text contains none of the guard words; otherwise it is refused,
      although the service itself issued it. */
  lemma OpenSeal<C(!new)>(codec: Codec<C>, c: C)
    requires codec.Valid()
    ensures Open(codec, Seal(codec, c)) ==
              if Guarded(codec, Seal(codec, c)) then None else Checked(codec, codec.read(codec.write(c)))
  {
    hide EncodeStreamPart, DecodeBytes, Guarded, Split, Trim, Seal, Checked;
    var payload := codec.write(c);
    SealedText(codec, c);
    BytesBack(payload);
    BytesBack(codec.mac(payload));
    PartSymbols(payload);
    PartSymbols(codec.mac(payload));
    StreamPartRoundTrip(payload);
    StreamPartRoundTrip(codec.mac(payload));
    TwoParts(EncodeStreamPart(payload), EncodeStreamPart(codec.mac(payload)));
  }

  /** Whatever is accepted carries the MAC of its own payload, and is what that payload says. */
  lemma OpenedIsAuthentic<C(!new)>(codec: Codec<C>, raw: string)
    requires Open(codec, raw).Some?
    ensures exists payload, part :: DecodeBytes(part) == Some(codec.mac(payload))
              && Checked(codec, codec.read(payload)) == Open(codec, raw) && Contains(raw, part)
  {
    hide DecodeBytes, Guarded, Split, Trim, Checked, Contains;
    var text := Trim(raw);
    var parts := Split('.', text[|codec.prefix|..]);
    var payload := DecodeBytes(parts[0]).value;
    SecondPart(text, |codec.prefix|);
    TrimInside(raw);
    InsideInside(raw, text, parts[1]);
    assert DecodeBytes(parts[1]) == Some(codec.mac(payload));
  }

  /** The text is the prefix, a payload and its MAC, holds no guard word, and its payload says a proper cursor. */
  ghost predicate Signed<C(!new)>(codec: Codec<C>, text: string, a: string, b: string, c: C)
  {
    && text == codec.prefix + a + "." + b && a != "" && b != "" && '.' !in a && '.' !in b
    && (forall g :: g in codec.guards ==> !Contains(text, g))
    && DecodeBytes(a).Some? && DecodeBytes(b) == Some(codec.mac(DecodeBytes(a).value))
    && codec.read(DecodeBytes(a).value) == Some(c) && codec.proper(c)
  }

  /** A text is accepted as a cursor exactly when, without the white space around it, it is such a text. */
  lemma OpenedExactly<C(!new)>(codec: Codec<C>, raw: string, c: C)
    ensures Open(codec, raw) == Some(c) <==> exists a, b :: Signed(codec, Trim(raw), a, b, c)
  {
    hide DecodeBytes, Split, Trim, Contains;
    var text := Trim(raw);
    if Open(codec, raw) == Some(c) {
      var parts := Split('.', text[|codec.prefix|..]);
      TwoPieces(text[|codec.prefix|..]);
      assert text == codec.prefix + text[|codec.prefix|..];
      assert text == codec.prefix + parts[0] + "." + parts[1];
      assert Signed(codec, text, parts[0], parts[1], c);
    }
    if a, b :| Signed(codec, text, a, b, c) {
      TwoParts(a, b);
      assert text == codec.prefix + (a + "." + b);
      assert text[|codec.prefix|..] == a + "." + b;
    }
  }

  lemma TwoPieces(s: string)
    ensures var parts := Split('.', s);
            |parts| == 2 ==> s == parts[0] + "." + parts[1] && '.' !in parts[0] && '.' !in parts[1]
  {
    var parts := Split('.', s);
    JoinSplit('.', s);
    SplitFree('.', s);
    if |parts| == 2 { assert parts == [parts[0], parts[1]] && parts[1..] == [parts[1]]; }
  }

  lemma SecondPart(text: string, n: nat)
    requires n <= |text| && |Split('.', text[n..])| == 2
    ensures Contains(text, Split('.', text[n..])[1])
  {
    hide Split;
    var parts := Split('.', text[n..]);
    JoinSplit('.', text[n..]);
    assert parts[1..] == [parts[1]];
    assert text[n..] == parts[0] + ['.'] + parts[1];
    assert OccursAt(text, parts[1], n + |parts[0]| + 1);
  }

  lemma SliceOfSlice(s: string, a: nat, b: nat, c: nat, d: nat)
    requires a <= b <= |s| && c <= d <= b - a
    ensures s[a..b][c..d] == s[a + c..a + d]
  {
    var x, y := s[a..b][c..d], s[a + c..a + d];
    assert |x| == |y|;
    forall k | 0 <= k < |x| ensures x[k] == y[k] {
      assert x[k] == s[a..b][c + k] == s[a + c + k];
    }
    assert x == y;
  }

  lemma InsideInside(s: string, t: string, w: string)
    requires Contains(s, t) && Contains(t, w)
    ensures Contains(s, w)
  {
    var i :| 0 <= i <= |s| && OccursAt(s, t, i);
    var j :| 0 <= j <= |t| && OccursAt(t, w, j);
    SliceOfSlice(s, i, i + |t|, j, j + |w|);
    assert OccursAt(s, w, i + j);
  }

  lemma TrimInside(s: string)
    ensures Contains(s, Trim(s))
  {
    hide TrimLeft, TrimRight;
    var t := TrimLeft(s);
    LeftInside(s);
    RightKeeps(t);
    PrefixInside(t, TrimRight(t));
    InsideInside(s, t, TrimRight(t));
  }

  lemma PrefixInside(s: string, t: string)
    requires t <= s
    ensures Contains(s, t)
  {
    assert OccursAt(s, t, 0);
  }

  lemma {:induction false} LeftInside(s: string)
    ensures Contains(s, TrimLeft(s))
  {
    hide Leading, IsSpace;
    var n := Leading(s);
    if n > 0 {
      LeftInside(s[n..]);
      assert OccursAt(s, s[n..], n);
      InsideInside(s, s[n..], TrimLeft(s));
    } else {
      assert OccursAt(s, s, 0);
    }
  }

  /** A guard word can come from the content: the bytes of "ky" and the Arabic letter jeem, where they start a last third of a
      group, are written as a text that contains "redis". */
  lemma RedisInside(s: string, k: nat)
    requires IsBytes(s) && k % 3 == 2 && k + 4 <= |s| && s[k] == 'k' && s[k + 1] == 'y' && s[k + 2] as int == 0xd8 && s[k + 3] as int == 0xac
    ensures Contains(EncodeStreamPart(s), "redis")
    decreases |s|
  {
    hide EncodeStreamPart, Symbol;
    var t, u := EncodeStreamPart(s), EncodeStreamPart(s[3..]);
    FirstGroup(s);
    if k == 2 {
      FirstGroup(s[3..]);
      RedisSymbols();
      assert t[3..8] == [t[3]] + u[..4] == "redis";
      assert OccursAt(t, "redis", 3);
    } else {
      RedisInside(s[3..], k - 3);
      assert OccursAt(t, u, 4);
      InsideInside(t, u, "redis");
    }
  }

  lemma RedisSymbols()
    ensures [Symbol('k' as int % 64)] + [Symbol('y' as int / 4), Symbol('y' as int % 4 * 16 + 0xd8 / 16),
                                         Symbol(0xd8 % 16 * 4 + 0xac / 64), Symbol(0xac % 64)] == "redis"
  {}
}
