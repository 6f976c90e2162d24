/** Values shared by every component: optional values, decimal text and the byte order of strings.
    A Go or Ruby string is modelled as a sequence of characters. */
module Common {
  datatype Option<+T> = None | Some(value: T)

  const MAX_INT: int := 0x7fff_ffff_ffff_ffff
}

/** strconv.Itoa and fmt's %d on non-negative numbers. */
module Decimal {
  predicate IsDigit(c: char) { '0' <= c <= '9' }

  predicate Digits(s: string) { forall i :: 0 <= i < |s| ==> IsDigit(s[i]) }

  function Itoa(n: nat): (s: string)
    ensures |s| > 0 && Digits(s)
  {
    if n < 10 then [Digit(n)] else Itoa(n / 10) + [Digit(n % 10)]
  }

  function Digit(n: nat): (c: char)
    requires n < 10
    ensures IsDigit(c) && c as int - '0' as int == n
  {
    "0123456789"[n]
  }

  function Atoi(s: string): nat
    requires Digits(s)
  {
    if s == [] then 0 else Atoi(s[..|s| - 1]) * 10 + (s[|s| - 1] as int - '0' as int)
  }

  /** Decimal text determines the number. */
  lemma {:induction false} AtoiItoa(n: nat)
    ensures Atoi(Itoa(n)) == n
  {
    if n >= 10 {
      AtoiItoa(n / 10);
      assert Itoa(n)[..|Itoa(n)| - 1] == Itoa(n / 10);
    }
  }

  lemma ItoaInjective(a: nat, b: nat)
    requires Itoa(a) == Itoa(b)
    ensures a == b
  {
    AtoiItoa(a);
    AtoiItoa(b);
  }

  predicate StopsDigits(s: string) { s == [] || !IsDigit(s[0]) }

  /** How many characters of s come before its first non-digit. */
  function RunLength(s: string): nat
  {
    if StopsDigits(s) then 0 else 1 + RunLength(s[1..])
  }

  lemma {:induction false} RunLengthOf(a: string, x: string)
    requires Digits(a) && StopsDigits(x)
    ensures RunLength(a + x) == |a|
  {
    if a == [] {
      assert a + x == x;
    } else {
      RunLengthOf(a[1..], x);
      assert (a + x)[1..] == a[1..] + x;
    }
  }

  /** A run of digits ends where the first other character is. */
  lemma DigitRun(a: string, x: string, b: string, y: string)
    requires Digits(a) && Digits(b) && StopsDigits(x) && StopsDigits(y)
    requires a + x == b + y
    ensures a == b && x == y
  {
    RunLengthOf(a, x);
    RunLengthOf(b, y);
    assert a == (a + x)[..|a|] && b == (b + y)[..|b|];
    assert x == (a + x)[|a|..] && y == (b + y)[|b|..];
  }

  /** Decimal numbers followed by a non-digit parse in one way only. */
  lemma NumberRun(m: nat, x: string, n: nat, y: string)
    requires StopsDigits(x) && StopsDigits(y)
    requires Itoa(m) + x == Itoa(n) + y
    ensures m == n && x == y
  {
    DigitRun(Itoa(m), x, Itoa(n), y);
    ItoaInjective(m, n);
  }
}

/** Text divided by a separator character, as strings.Split divides it. */
module Separators {
  /** Text up to the first separator is read back in one way. */
  lemma {:induction false} SepRun(c: char, a: string, x: string, b: string, y: string)
    requires c !in a && c !in b && a + [c] + x == b + [c] + y
    ensures a == b && x == y
  {
    var s, t := a + [c] + x, b + [c] + y;
    FirstIndexOf(c, a, x);
    FirstIndexOf(c, b, y);
    assert a == s[..|a|] && x == s[|a| + 1..] && b == t[..|b|] && y == t[|b| + 1..];
  }

  /** The position of the first c in s, or |s| when there is none. */
  function FirstIndex(c: char, s: string): (k: nat)
    ensures k <= |s| && (k < |s| ==> s[k] == c)
  {
    if s == [] || s[0] == c then 0 else 1 + FirstIndex(c, s[1..])
  }

  lemma {:induction false} FirstIndexOf(c: char, a: string, x: string)
    requires c !in a
    ensures FirstIndex(c, a + [c] + x) == |a|
  {
    if a != [] {
      FirstIndexOf(c, a[1..], x);
      assert (a + [c] + x)[1..] == a[1..] + [c] + x;
    }
  }

  function Split(c: char, s: string): (parts: seq<string>)
    ensures |parts| >= 1
  {
    var k := FirstIndex(c, s);
    if k == |s| then [s] else [s[..k]] + Split(c, s[k + 1..])
  }

  function Join(c: char, parts: seq<string>): string
    requires |parts| >= 1
  {
    if |parts| == 1 then parts[0] else parts[0] + [c] + Join(c, parts[1..])
  }

  /** Splitting loses nothing. */
  lemma {:induction false} JoinSplit(c: char, s: string)
    ensures Join(c, Split(c, s)) == s
  {
    var k := FirstIndex(c, s);
    if k < |s| {
      JoinSplit(c, s[k + 1..]);
      assert Split(c, s)[1..] == Split(c, s[k + 1..]);
      assert s == s[..k] + [c] + s[k + 1..];
    }
  }

  lemma {:induction false} NoneBefore(c: char, s: string)
    ensures c !in s[..FirstIndex(c, s)]
  {
    if s != [] && s[0] != c {
      NoneBefore(c, s[1..]);
      assert s[..FirstIndex(c, s)] == [s[0]] + s[1..][..FirstIndex(c, s[1..])];
    }
  }

  /** No part holds the separator. */
  lemma {:induction false} SplitFree(c: char, s: string)
    ensures forall i :: 0 <= i < |Split(c, s)| ==> c !in Split(c, s)[i]
  {
    var k := FirstIndex(c, s);
    NoneBefore(c, s);
    if k == |s| { assert s[..k] == s; } else { SplitFree(c, s[k + 1..]); }
  }

  /** Parts without the separator come back as they were joined. */
  lemma {:induction false} SplitJoin(c: char, parts: seq<string>)
    requires |parts| >= 1 && forall i :: 0 <= i < |parts| ==> c !in parts[i]
    ensures Split(c, Join(c, parts)) == parts
  {
    if |parts| == 1 {
      NoIndex(c, parts[0]);
    } else {
      var rest := Join(c, parts[1..]);
      FirstIndexOf(c, parts[0], rest);
      SplitJoin(c, parts[1..]);
      var s := parts[0] + [c] + rest;
      assert s[..|parts[0]|] == parts[0] && s[|parts[0]| + 1..] == rest;
      assert parts == [parts[0]] + parts[1..];
    }
  }

  /** A separator between two texts ends a part: the part counts add up. */
  lemma {:induction false} SplitCount(c: char, a: string, b: string)
    ensures |Split(c, a + [c] + b)| == |Split(c, a)| + |Split(c, b)|
  {
    var s := a + [c] + b;
    if a == [] {
      assert s[1..] == b;
    } else if a[0] == c {
      assert s[1..] == a[1..] + [c] + b;
      SplitCount(c, a[1..], b);
    } else {
      assert s[1..] == a[1..] + [c] + b;
      SplitCount(c, a[1..], b);
      SplitSkip(c, s);
      SplitSkip(c, a);
    }
  }

  lemma SplitSkip(c: char, s: string)
    requires s != [] && s[0] != c
    ensures |Split(c, s)| == |Split(c, s[1..])|
  {
    var k := FirstIndex(c, s);
    if k < |s| { assert s[1..][k - 1 + 1..] == s[k + 1..]; }
  }

  lemma {:induction false} NoIndex(c: char, s: string)
    requires c !in s
    ensures FirstIndex(c, s) == |s|
  {
    if s != [] { NoIndex(c, s[1..]); }
  }
}

/** strings.TrimSpace on UTF-8 text, given as bytes. */
module Spaces {
  /** The UTF-8 bytes of one white space character of Unicode. */
  predicate IsSpace(c: string)
  {
    if |c| == 1 then c[0] == ' ' || 9 <= c[0] as int <= 13
    else if |c| == 2 then c[0] as int == 0xc2 && (c[1] as int == 0x85 || c[1] as int == 0xa0)
    else if |c| == 3 then IsWideSpace(c[0] as int, c[1] as int, c[2] as int)
    else false
  }

  /** U+1680, U+2000 to U+200A, U+2028, U+2029, U+202F, U+205F and U+3000. */
  predicate IsWideSpace(x: int, y: int, z: int)
  {
    || (x == 0xe1 && y == 0x9a && z == 0x80)
    || (x == 0xe2 && y == 0x80 && (0x80 <= z <= 0x8a || z == 0xa8 || z == 0xa9 || z == 0xaf))
    || (x == 0xe2 && y == 0x81 && z == 0x9f)
    || (x == 0xe3 && y == 0x80 && z == 0x80)
  }

  /** How many bytes the white space character at the start of s takes, if there is one. */
  function Leading(s: string): (n: nat)
    ensures n <= |s| && (n > 0 ==> IsSpace(s[..n]))
  {
    if |s| >= 1 && IsSpace(s[..1]) then 1
    else if |s| >= 2 && IsSpace(s[..2]) then 2
    else if |s| >= 3 && IsSpace(s[..3]) then 3
    else 0
  }

  /** The same at the end of s. */
  function Trailing(s: string): (n: nat)
    ensures n <= |s| && (n > 0 ==> IsSpace(s[|s| - n..]))
  {
    if |s| >= 1 && IsSpace(s[|s| - 1..]) then 1
    else if |s| >= 2 && IsSpace(s[|s| - 2..]) then 2
    else if |s| >= 3 && IsSpace(s[|s| - 3..]) then 3
    else 0
  }

  function TrimLeft(s: string): string { if Leading(s) > 0 then TrimLeft(s[Leading(s)..]) else s }

  function TrimRight(s: string): string { if Trailing(s) > 0 then TrimRight(s[..|s| - Trailing(s)]) else s }

  function Trim(s: string): string { TrimRight(TrimLeft(s)) }

  predicate Blank(s: string) { Trim(s) == "" }

  /** Text that trimming leaves alone. */
  predicate Trimmed(s: string) { Leading(s) == 0 && Trailing(s) == 0 }

  lemma TrimIsTrimmed(s: string)
    ensures Trimmed(Trim(s)) && (Trimmed(s) ==> Trim(s) == s)
  {
    hide Leading, Trailing;
    LeftStops(s);
    RightKeeps(TrimLeft(s));
    PrefixLeading(Trim(s), TrimLeft(s));
  }

  lemma {:induction false} LeftStops(s: string)
    ensures Leading(TrimLeft(s)) == 0
  {
    if Leading(s) > 0 { LeftStops(s[Leading(s)..]); }
  }

  lemma {:induction false} RightKeeps(s: string)
    ensures TrimRight(s) <= s && Trailing(TrimRight(s)) == 0
  {
    if Trailing(s) > 0 { RightKeeps(s[..|s| - Trailing(s)]); }
  }

  /** What starts without white space still does when it is cut short. */
  lemma PrefixLeading(t: string, s: string)
    requires t <= s && Leading(s) == 0
    ensures Leading(t) == 0
  {
    hide IsSpace;
    assert |t| >= 1 ==> t[..1] == s[..1];
    assert |t| >= 2 ==> t[..2] == s[..2];
    assert |t| >= 3 ==> t[..3] == s[..3];
  }

  predicate IsPlain(c: char) { ' ' < c && c as int < 0x80 }

  /** No white space character starts or ends with a plain one. */
  lemma PlainIsNoSpace(c: string)
    requires c != "" && (IsPlain(c[0]) || IsPlain(c[|c| - 1]))
    ensures !IsSpace(c)
  {}

  lemma NoSpaceOf(s: string, n: nat)
    requires 0 < n <= |s| && IsPlain(s[0]) && IsPlain(s[|s| - 1])
    ensures !IsSpace(s[..n]) && !IsSpace(s[|s| - n..])
  {
    hide IsSpace, IsPlain;
    var x, y := s[..n], s[|s| - n..];
    assert x[0] == s[0] && y[|y| - 1] == s[|s| - 1];
    PlainIsNoSpace(x);
    PlainIsNoSpace(y);
  }

  /** Text between plain characters is trimmed. */
  lemma PlainEnds(s: string)
    requires s != "" && IsPlain(s[0]) && IsPlain(s[|s| - 1])
    ensures Trimmed(s)
  {
    hide IsSpace, IsPlain, Leading, Trailing;
    var n, m := Leading(s), Trailing(s);
    if n > 0 { NoSpaceOf(s, n); }
    if m > 0 { NoSpaceOf(s, m); }
  }

  /** Text that starts with no white space is not blank. */
  lemma NotBlank(s: string)
    requires s != "" && Leading(s) == 0
    ensures !Blank(s)
  {
    hide Leading, Trailing;
    AllGone(s);
  }

  lemma SpaceLeads(s: string)
    requires IsSpace(s)
    ensures Leading(s) > 0
  {
    assert s[..|s|] == s;
  }

  lemma {:induction false} AllGone(s: string)
    ensures TrimRight(s) == "" && s != "" ==> Leading(s) > 0
  {
    hide IsSpace, Leading, Trailing;
    var n := Trailing(s);
    if n == |s| && n > 0 {
      assert s[|s| - n..] == s;
      SpaceLeads(s);
    } else if n > 0 {
      var r := s[..|s| - n];
      AllGone(r);
      if Leading(s) == 0 { PrefixLeading(r, s); }
    }
  }
}

/** The order of sort.Strings, and the sorted list of a finite set of strings. */
module StringOrder {
  predicate Less(a: string, b: string)
  {
    b != [] && (a == [] || a[0] < b[0] || (a[0] == b[0] && Less(a[1..], b[1..])))
  }

  lemma SameHead(a: string, b: string)
    requires a != [] && b != []
    ensures forall k :: 0 < k <= |a| && k <= |b| && a[..k] == b[..k] ==> a[0] == b[0]
  {
    forall k | 0 < k <= |a| && k <= |b| && a[..k] == b[..k] ensures a[0] == b[0] {
      assert a[..k][0] == a[0] && b[..k][0] == b[0];
    }
  }

  /** The byte order of Go strings: a proper prefix comes first, otherwise the first difference decides. */
  lemma {:induction false} LessExactly(a: string, b: string)
    ensures Less(a, b) <==>
              (|a| < |b| && b[..|a|] == a) || exists k :: 0 <= k < |a| && k < |b| && a[..k] == b[..k] && a[k] < b[k]
    decreases |a|
  {
    if a != [] && b != [] && a[0] == b[0] {
      var x, y := a[1..], b[1..];
      LessExactly(x, y);
      if |x| < |y| { assert b[..|a|] == [b[0]] + y[..|x|] && a == [a[0]] + x; }
      if k :| 0 <= k < |x| && k < |y| && x[..k] == y[..k] && x[k] < y[k] {
        assert a[..k + 1] == [a[0]] + x[..k] && b[..k + 1] == [b[0]] + y[..k] && a[k + 1] < b[k + 1];
      }
      if k :| 0 <= k < |a| && k < |b| && a[..k] == b[..k] && a[k] < b[k] {
        assert k > 0 && x[..k - 1] == a[..k][1..] && y[..k - 1] == b[..k][1..] && x[k - 1] < y[k - 1];
      }
      if |a| < |b| && b[..|a|] == a { assert y[..|x|] == b[..|a|][1..] && x == a[1..]; }
    } else if a != [] && b != [] {
      if a[0] < b[0] { assert a[..0] == b[..0]; }
      SameHead(a, b);
    }
  }

  lemma Trichotomy(a: string, b: string)
    ensures Less(a, b) || a == b || Less(b, a)
  {
    if a != [] && b != [] && a[0] == b[0] {
      Trichotomy(a[1..], b[1..]);
      assert a == [a[0]] + a[1..] && b == [b[0]] + b[1..];
    }
  }

  lemma Irreflexive(a: string)
    ensures !Less(a, a)
  {}

  lemma Transitive(a: string, b: string, c: string)
    requires Less(a, b) && Less(b, c)
    ensures Less(a, c)
  {
    if a != [] && a[0] == b[0] == c[0] {
      Transitive(a[1..], b[1..], c[1..]);
    }
  }

  /** Strictly increasing, hence free of repetitions. */
  predicate Sorted(s: seq<string>)
  {
    forall i, j :: 0 <= i < j < |s| ==> Less(s[i], s[j])
  }

  /** s lists exactly the members of ks in increasing order. */
  ghost predicate Lists(s: seq<string>, ks: set<string>)
  {
    Sorted(s) && forall k :: k in ks <==> k in s
  }

  /** The sorted list of a set does not depend on the order in which the set was walked. */
  lemma {:induction false} ListUnique(s: seq<string>, t: seq<string>, ks: set<string>)
    requires Lists(s, ks) && Lists(t, ks)
    ensures s == t
    decreases |s|
  {
    assert t == [] || t[0] in ks;
    if s != [] {
      assert s[0] in t;
      assert t[0] in s;
      FirstIsLeast(s, t[0]);
      FirstIsLeast(t, s[0]);
      if s[0] != t[0] {
        Transitive(s[0], t[0], s[0]);
        Irreflexive(s[0]);
      }
      TailLists(s, ks);
      TailLists(t, ks);
      ListUnique(s[1..], t[1..], ks - {s[0]});
      assert s == [s[0]] + s[1..] && t == [t[0]] + t[1..];
    }
  }

  lemma FirstIsLeast(s: seq<string>, k: string)
    requires Sorted(s) && k in s
    ensures s[0] == k || Less(s[0], k)
  {}

  lemma TailLists(s: seq<string>, ks: set<string>)
    requires s != [] && Lists(s, ks)
    ensures Lists(s[1..], ks - {s[0]})
  {
    Irreflexive(s[0]);
    assert s == [s[0]] + s[1..];
  }

  /** The position at which k belongs in a sorted list. */
  function Rank(s: seq<string>, k: string): (r: nat)
    ensures r <= |s|
  {
    if s == [] || Less(k, s[0]) || k == s[0] then 0 else 1 + Rank(s[1..], k)
  }

  function Insert(s: seq<string>, k: string): seq<string>
  {
    s[..Rank(s, k)] + [k] + s[Rank(s, k)..]
  }

  lemma RankSplits(s: seq<string>, k: string)
    requires Sorted(s) && k !in s
    ensures forall i :: 0 <= i < Rank(s, k) ==> Less(s[i], k)
    ensures forall i :: Rank(s, k) <= i < |s| ==> Less(k, s[i])
  {
    if s == [] {
    } else if Less(k, s[0]) {
      forall i | 0 < i < |s| ensures Less(k, s[i]) { Transitive(k, s[0], s[i]); }
    } else {
      Trichotomy(k, s[0]);
      RankSplits(s[1..], k);
      assert forall i :: 0 < i < |s| ==> s[i] == s[1..][i - 1];
    }
  }

  lemma InsertLists(s: seq<string>, ks: set<string>, k: string)
    requires Lists(s, ks) && k !in ks
    ensures Lists(Insert(s, k), ks + {k})
  {
    RankSplits(s, k);
    var r := Rank(s, k);
    var t := Insert(s, k);
    forall i, j | 0 <= i < j < |t| ensures Less(t[i], t[j]) {
      if i < r && j > r { Transitive(s[i], k, s[j - 1]); }
    }
    forall x ensures x in ks + {k} <==> x in t {
      assert s == s[..r] + s[r..];
    }
  }

  /** The sorted list of a finite set exists. */
  ghost function SortedList(ks: set<string>): (s: seq<string>)
    ensures Lists(s, ks)
  {
    ListExists(ks);
    var s :| Lists(s, ks);
    s
  }

  lemma {:induction false} ListExists(ks: set<string>)
    ensures exists s :: Lists(s, ks)
  {
    if ks == {} {
      assert Lists([], ks);
    } else {
      var k :| k in ks;
      ListExists(ks - {k});
      var s :| Lists(s, ks - {k});
      InsertLists(s, ks - {k}, k);
      assert ks - {k} + {k} == ks;
      assert Lists(Insert(s, k), ks);
    }
  }

  /** Ranging over a Go map's keys in any order and calling sort.Strings gives the sorted list. */
  method SortedKeys(ks: set<string>) returns (out: seq<string>)
    ensures out == SortedList(ks)
  {
    out := [];
    var rest := ks;
    while rest != {}
      invariant rest <= ks
      invariant Lists(out, ks - rest)
      decreases rest
    {
      var k :| k in rest;
      InsertLists(out, ks - rest, k);
      out := Insert(out, k);
      assert ks - (rest - {k}) == (ks - rest) + {k};
      rest := rest - {k};
    }
    assert ks - rest == ks;
    ListUnique(out, SortedList(ks), ks);
  }
}

/** encoding/hex. */
module Hex {
  import opened Common

  predicate IsBytes(s: string) { forall i :: 0 <= i < |s| ==> s[i] as int < 256 }

  function HexDigit(n: nat): char
    requires n < 16
  {
    "0123456789abcdef"[n]
  }

  function HexValue(c: char): Option<nat>
  {
    if '0' <= c <= '9' then Some(c as int - '0' as int)
    else if 'a' <= c <= 'f' then Some(c as int - 'a' as int + 10)
    else if 'A' <= c <= 'F' then Some(c as int - 'A' as int + 10)
    else None
  }

  function EncodeHex(s: string): (h: string)
    requires IsBytes(s)
    ensures |h| == 2 * |s|
  {
    if s == [] then []
    else [HexDigit(s[0] as int / 16), HexDigit(s[0] as int % 16)] + EncodeHex(s[1..])
  }

  function DecodeHex(h: string): Option<string>
  {
    if h == [] then Some([])
    else if |h| == 1 then None
    else
      var a, b, rest := HexValue(h[0]), HexValue(h[1]), DecodeHex(h[2..]);
      if a.None? || b.None? || rest.None? || a.value > 15 || b.value > 15 then None
      else Some([(a.value * 16 + b.value) as char] + rest.value)
  }

  lemma {:induction false} HexRoundTrip(s: string)
    requires IsBytes(s)
    ensures DecodeHex(EncodeHex(s)) == Some(s)
  {
    hide HexDigit, HexValue;
    if s != [] {
      HexRoundTrip(s[1..]);
      var h, x := EncodeHex(s), s[0] as int;
      assert h[2..] == EncodeHex(s[1..]);
      DigitRoundTrip(x / 16);
      DigitRoundTrip(x % 16);
      assert x / 16 * 16 + x % 16 == x;
      assert s == [s[0]] + s[1..];
    }
  }

  lemma DigitRoundTrip(n: nat)
    requires n < 16
    ensures HexValue(HexDigit(n)) == Some(n)
  {
    assert "0123456789abcdef"[n] == if n < 10 then ('0' as int + n) as char else ('a' as int + n - 10) as char;
  }
}
