/** The canonical JSON that Ranking fingerprints (ranking/src/kafka_tournament_parse.go): objects with sorted keys,
    numbers as the text that was read, strings quoted as encoding/json quotes them. */
module CanonicalJson {
  import opened Common
  import Decimal
  import opened StringOrder
  import Hex

  datatype Json = Null | Bool(b: bool) | Num(text: string) | Str(s: string) | Arr(items: seq<Json>) | Obj(fields: map<string, Json>)

  // ---- strings

  /** The letter of a two-character escape. */
  function ShortEscape(c: char): Option<char>
  {
    match c
    case '"' => Some('"')
    case '\\' => Some('\\')
    case '\n' => Some('n')
    case '\r' => Some('r')
    case '\t' => Some('t')
    case _ => if c as int == 8 then Some('b') else if c as int == 12 then Some('f') else None
  }

  /** Control characters, the HTML characters, and the two line separators are written in hexadecimal. */
  predicate IsHexEscaped(c: char)
  {
    c as int < 0x20 || c == '<' || c == '>' || c == '&' || c as int == 0x2028 || c as int == 0x2029
  }

  function Hex4(n: nat): (h: string)
    requires n < 0x1_0000
    ensures |h| == 4
  {
    [Hex.HexDigit(n / 0x1000), Hex.HexDigit(n / 0x100 % 16), Hex.HexDigit(n / 16 % 16), Hex.HexDigit(n % 16)]
  }

  function Escape(c: char): (e: string)
    ensures 1 <= |e| <= 6
  {
    if ShortEscape(c).Some? then ['\\', ShortEscape(c).value]
    else if IsHexEscaped(c) then ['\\', 'u'] + Hex4(c as int)
    else [c]
  }

  function Escaped(s: string): string { if s == [] then [] else Escape(s[0]) + Escaped(s[1..]) }

  /** json.Marshal of a string. */
  function Quote(s: string): string { "\"" + Escaped(s) + "\"" }

  function Digit(c: char): int { var v := Hex.HexValue(c); if v.Some? then v.value else 0 }

  /** The character that quoted text starts with, and how long its escape is. */
  function Head(s: string): (int, nat)
  {
    if s == [] then (0, 0)
    else if s[0] != '\\' || |s| < 2 then (s[0] as int, 1)
    else if s[1] == 'u' then
      if |s| < 6 then (0, 1)
      else (Digit(s[2]) * 0x1000 + Digit(s[3]) * 0x100 + Digit(s[4]) * 16 + Digit(s[5]), 6)
    else
      (match s[1]
       case 'n' => 10
       case 'r' => 13
       case 't' => 9
       case 'b' => 8
       case 'f' => 12
       case x => x as int, 2)
  }

  lemma Hex4Value(n: nat)
    requires n < 0x1_0000
    ensures var h := Hex4(n); Digit(h[0]) * 0x1000 + Digit(h[1]) * 0x100 + Digit(h[2]) * 16 + Digit(h[3]) == n
  {
    hide Hex.HexDigit, Hex.HexValue;
    DigitOf(n / 0x1000);
    DigitOf(n / 0x100 % 16);
    DigitOf(n / 16 % 16);
    DigitOf(n % 16);
    Nibbles(n);
  }

  lemma DigitOf(n: nat)
    requires n < 16
    ensures Digit(Hex.HexDigit(n)) == n
  {
    Hex.DigitRoundTrip(n);
  }

  lemma Nibbles(n: nat)
    requires n < 0x1_0000
    ensures n / 0x1000 * 0x1000 + n / 0x100 % 16 * 0x100 + n / 16 % 16 * 16 + n % 16 == n
  {
    var a, b, c := n / 16, n / 0x100, n / 0x1000;
    assert b == a / 16;
    assert c == b / 16;
    assert n == a * 16 + n % 16;
    assert a == b * 16 + a % 16;
    assert b == c * 16 + b % 16;
  }

  lemma HeadOfEscape(c: char, x: string)
    ensures Head(Escape(c) + x) == (c as int, |Escape(c)|)
    ensures (Escape(c) + x)[0] != '"'
  {
    hide Hex4, Digit;
    var s := Escape(c) + x;
    if ShortEscape(c).None? && IsHexEscaped(c) {
      Hex4Value(c as int);
      var h := Hex4(c as int);
      assert s[2] == h[0] && s[3] == h[1] && s[4] == h[2] && s[5] == h[3];
    }
  }

  /** Escaped text up to the closing quote is read in one way. */
  lemma {:induction false} QuoteRun(s: string, x: string, t: string, y: string)
    requires Escaped(s) + "\"" + x == Escaped(t) + "\"" + y
    ensures s == t && x == y
  {
    hide Escape, Head;
    var u, v := Escaped(s) + "\"" + x, Escaped(t) + "\"" + y;
    if s != [] {
      assert u == Escape(s[0]) + (Escaped(s[1..]) + "\"" + x);
      HeadOfEscape(s[0], Escaped(s[1..]) + "\"" + x);
    }
    if t != [] {
      assert v == Escape(t[0]) + (Escaped(t[1..]) + "\"" + y);
      HeadOfEscape(t[0], Escaped(t[1..]) + "\"" + y);
    }
    assert s == [] ==> u[0] == '"';
    assert t == [] ==> v[0] == '"';
    if s == [] {
      assert x == u[1..] && y == v[1..];
    } else {
      var k := |Escape(s[0])|;
      assert u[k..] == Escaped(s[1..]) + "\"" + x && v[k..] == Escaped(t[1..]) + "\"" + y;
      QuoteRun(s[1..], x, t[1..], y);
      assert s == [s[0]] + s[1..] && t == [t[0]] + t[1..];
    }
  }

  // ---- values

  predicate NumberChar(c: char) { '0' <= c <= '9' || c == '-' || c == '+' || c == '.' || c == 'e' || c == 'E' }

  /** The text of a JSON number starts with a digit or a minus sign. */
  predicate NumberText(t: string)
  {
    t != [] && ('0' <= t[0] <= '9' || t[0] == '-') && forall i :: 0 <= i < |t| ==> NumberChar(t[i])
  }

  ghost predicate Wellformed(v: Json)
    decreases v
  {
    match v
    case Num(t) => NumberText(t)
    case Arr(items) => forall i :: 0 <= i < |items| ==> Wellformed(items[i])
    case Obj(fields) => forall k :: k in fields ==> Wellformed(fields[k])
    case _ => true
  }

  ghost function Canonical(v: Json): string
    decreases v, 1, 0
  {
    match v
    case Null => "null"
    case Bool(b) => if b then "true" else "false"
    case Num(t) => t
    case Str(s) => Quote(s)
    case Arr(items) => "[" + ItemsText(v, items) + "]"
    case Obj(fields) => "{" + FieldsText(v, SortedList(fields.Keys)) + "}"
  }

  ghost function ItemsText(v: Json, items: seq<Json>): string
    requires v.Arr? && forall i :: 0 <= i < |items| ==> items[i] in v.items
    decreases v, 0, |items|
  {
    if items == [] then ""
    else
      assert items[0] in v.items;
      Canonical(items[0]) + (if |items| == 1 then "" else "," + ItemsText(v, items[1..]))
  }

  ghost function FieldText(v: Json, k: string): string
    requires v.Obj? && k in v.fields
    decreases v, 0, 0
  {
    Quote(k) + ":" + Canonical(v.fields[k])
  }

  ghost function FieldsText(v: Json, keys: seq<string>): string
    requires v.Obj? && forall k :: k in keys ==> k in v.fields
    decreases v, 0, |keys| + 1
  {
    if keys == [] then ""
    else
      FieldText(v, keys[0]) + (if |keys| == 1 then "" else "," + FieldsText(v, keys[1..]))
  }

  lemma {:induction false} ItemsSnoc(v: Json, items: seq<Json>, x: Json)
    requires v.Arr? && x in v.items && forall i :: 0 <= i < |items| ==> items[i] in v.items
    ensures forall i :: 0 <= i < |items + [x]| ==> (items + [x])[i] in v.items
    ensures ItemsText(v, items + [x]) == (if items == [] then "" else ItemsText(v, items) + ",") + Canonical(x)
    decreases |items|
  {
    hide Canonical;
    if items == [] {
      assert items + [x] == [x];
    } else {
      ItemsSnoc(v, items[1..], x);
      assert (items + [x])[1..] == items[1..] + [x];
    }
  }

  lemma {:induction false} FieldsSnoc(v: Json, keys: seq<string>, k: string)
    requires v.Obj? && k in v.fields && forall x :: x in keys ==> x in v.fields
    ensures forall x :: x in keys + [k] ==> x in v.fields
    ensures FieldsText(v, keys + [k]) == (if keys == [] then "" else FieldsText(v, keys) + ",") + FieldText(v, k)
    decreases |keys|
  {
    hide FieldText;
    if keys == [] {
      assert keys + [k] == [k];
    } else {
      FieldsSnoc(v, keys[1..], k);
      assert (keys + [k])[1..] == keys[1..] + [k];
    }
  }

  /** canonicalJSON. The keys of an object are collected in any order and then sorted, so the text does not depend on
      the order in which a map is walked. */
  method WriteCanonical(v: Json) returns (buf: string)
    ensures buf == Canonical(v)
    decreases v, 1
  {
    match v {
      case Null => return "null";
      case Bool(b) => return if b then "true" else "false";
      case Num(t) => return t;
      case Str(s) => return Quote(s);
      case Arr(items) => buf := WriteItems(v);
      case Obj(fields) => buf := WriteFields(v);
    }
  }

  method WriteItems(v: Json) returns (buf: string)
    requires v.Arr?
    ensures buf == "[" + ItemsText(v, v.items) + "]"
    decreases v, 0
  {
    hide Canonical, ItemsText;
    var items := v.items;
    buf := "[";
    NoItems(v);
    for i := 0 to |items|
      invariant forall j :: 0 <= j < i ==> items[..i][j] in v.items
      invariant buf == "[" + ItemsText(v, items[..i])
    {
      ItemsSnoc(v, items[..i], items[i]);
      assert items[..i + 1] == items[..i] + [items[i]];
      if i > 0 { buf := buf + ","; }
      var text := WriteCanonical(items[i]);
      buf := buf + text;
    }
    assert items[..|items|] == items;
    buf := buf + "]";
  }

  method WriteFields(v: Json) returns (buf: string)
    requires v.Obj?
    ensures buf == "{" + FieldsText(v, SortedList(v.fields.Keys)) + "}"
    decreases v, 0
  {
    hide Canonical, FieldsText, Quote;
    var keys := SortedKeys(v.fields.Keys);
    buf := "{";
    NoItems(v);
    for i := 0 to |keys|
      invariant forall k :: k in keys[..i] ==> k in v.fields
      invariant buf == "{" + FieldsText(v, keys[..i])
    {
      assert keys[i] in v.fields.Keys;
      FieldsSnoc(v, keys[..i], keys[i]);
      assert keys[..i + 1] == keys[..i] + [keys[i]];
      if i > 0 { buf := buf + ","; }
      buf := buf + Quote(keys[i]);
      buf := buf + ":";
      var text := WriteCanonical(v.fields[keys[i]]);
      buf := buf + text;
    }
    assert keys[..|keys|] == keys;
    buf := buf + "}";
  }

  lemma NoItems(v: Json)
    ensures v.Arr? ==> ItemsText(v, []) == ""
    ensures v.Obj? ==> FieldsText(v, []) == ""
  {}

  // ---- reading canonical text

  /** What may follow a value. */
  predicate Delimited(x: string) { x == [] || x[0] == ',' || x[0] == ']' || x[0] == '}' }

  /** The first character of a value's text tells its kind. */
  function KindOf(c: char): nat
  {
    if c == 'n' then 0 else if c == 't' then 1 else if c == 'f' then 2 else if c == '"' then 3
    else if c == '[' then 4 else if c == '{' then 5 else 6
  }

  function Kind(v: Json): nat
  {
    match v
    case Null => 0
    case Bool(b) => if b then 1 else 2
    case Str(_) => 3
    case Arr(_) => 4
    case Obj(_) => 5
    case Num(_) => 6
  }

  lemma FirstTellsKind(v: Json, x: string)
    requires Wellformed(v)
    ensures Canonical(v) != "" && KindOf((Canonical(v) + x)[0]) == Kind(v)
    ensures Canonical(v)[0] != ']' && Canonical(v)[0] != '}' && Canonical(v)[0] != ','
  {}

  /** The length of a run of number characters. */
  function NumberRun(s: string): nat { if s == [] || !NumberChar(s[0]) then 0 else 1 + NumberRun(s[1..]) }

  lemma {:induction false} NumberRunOf(t: string, x: string)
    requires (forall i :: 0 <= i < |t| ==> NumberChar(t[i])) && Delimited(x)
    ensures NumberRun(t + x) == |t|
  {
    if t == [] {
      assert t + x == x;
    } else {
      assert (t + x)[1..] == t[1..] + x;
      NumberRunOf(t[1..], x);
    }
  }

  lemma NumbersApart(t: string, x: string, u: string, y: string)
    requires NumberText(t) && NumberText(u) && Delimited(x) && Delimited(y) && t + x == u + y
    ensures t == u && x == y
  {
    NumberRunOf(t, x);
    NumberRunOf(u, y);
    assert t == (t + x)[..|t|] && u == (u + y)[..|u|] && x == (t + x)[|t|..] && y == (u + y)[|u|..];
  }

  /** The text of a value, up to a delimiter, determines the value. */
  lemma {:induction false} CanonicalRun(v: Json, x: string, w: Json, y: string)
    requires Wellformed(v) && Wellformed(w) && Delimited(x) && Delimited(y)
    requires Canonical(v) + x == Canonical(w) + y
    ensures v == w && x == y
    decreases v, 1, 0
  {
    hide Canonical, Wellformed, Quote, KindOf, Delimited;
    FirstTellsKind(v, x);
    FirstTellsKind(w, y);
    match v {
      case Null => LeafRun(v, x, w, y);
      case Bool(_) => LeafRun(v, x, w, y);
      case Num(_) => LeafRun(v, x, w, y);
      case Str(_) => LeafRun(v, x, w, y);
      case Arr(items) =>
        Opened(v, x);
        Opened(w, y);
        ItemsRun(v, items, x, w, w.items, y);
      case Obj(fields) =>
        Opened(v, x);
        Opened(w, y);
        var ks, ls := SortedList(fields.Keys), SortedList(w.fields.Keys);
        FieldsRun(v, ks, x, w, ls, y);
        SameFields(fields, w.fields, ks);
    }
  }

  lemma SameFields(f: map<string, Json>, g: map<string, Json>, ks: seq<string>)
    requires Lists(ks, f.Keys) && Lists(ks, g.Keys) && forall k :: k in ks ==> k in f && k in g && f[k] == g[k]
    ensures f == g
  {
    assert f.Keys == g.Keys;
  }

  lemma LeafRun(v: Json, x: string, w: Json, y: string)
    requires Wellformed(v) && Wellformed(w) && Delimited(x) && Delimited(y)
    requires !v.Arr? && !v.Obj? && Kind(v) == Kind(w) && Canonical(v) + x == Canonical(w) + y
    ensures v == w && x == y
  {
    hide Escaped;
    var n := |Canonical(v)|;
    match v {
      case Null => assert x == (Canonical(v) + x)[n..] && y == (Canonical(w) + y)[n..];
      case Bool(_) => assert x == (Canonical(v) + x)[n..] && y == (Canonical(w) + y)[n..];
      case Num(t) => NumbersApart(t, x, w.text, y);
      case Str(s) =>
        assert (Canonical(v) + x)[1..] == Escaped(s) + "\"" + x;
        assert (Canonical(w) + y)[1..] == Escaped(w.s) + "\"" + y;
        QuoteRun(s, x, w.s, y);
    }
  }

  /** What follows the opening bracket. */
  lemma Opened(v: Json, x: string)
    ensures v.Arr? ==> (Canonical(v) + x)[1..] == ItemsText(v, v.items) + "]" + x
    ensures v.Obj? ==> (Canonical(v) + x)[1..] == FieldsText(v, SortedList(v.fields.Keys)) + "}" + x
  {
    hide ItemsText, FieldsText;
  }

  function More(last: bool, rest: string): string { if last then "" else "," + rest }

  /** After an item comes the closing bracket, or a comma and the rest. */
  lemma AfterItem(p: bool, r: string, x: string, q: bool, t: string, y: string, close: string)
    requires |close| == 1 && close != ","
    requires More(p, r) + close + x == More(q, t) + close + y
    ensures p == q && (p ==> x == y) && (!p ==> r + close + x == t + close + y)
  {
    var u, v := More(p, r) + close + x, More(q, t) + close + y;
    assert u[0] == v[0];
    if p {
      assert x == u[1..] && y == v[1..];
    } else {
      assert u[1..] == r + close + x && v[1..] == t + close + y;
    }
  }

  lemma MoreDelimited(p: bool, r: string, close: string, x: string)
    requires close == "]" || close == "}"
    ensures Delimited(More(p, r) + close + x)
  {}

  /** The text of the remaining items, from the first one on. */
  ghost function ItemsFrom(v: Json, a: seq<Json>, x: string): string
    requires v.Arr? && a != [] && forall i :: 0 <= i < |a| ==> a[i] in v.items
  {
    Canonical(a[0]) + (More(|a| == 1, ItemsText(v, a[1..])) + "]" + x)
  }

  lemma ItemsStart(v: Json, a: seq<Json>, x: string)
    requires v.Arr? && Wellformed(v) && forall i :: 0 <= i < |a| ==> a[i] in v.items
    ensures a == [] ==> ItemsText(v, a) + "]" + x == "]" + x
    ensures a != [] ==> Wellformed(a[0]) && a[0] in v.items && ItemsText(v, a) + "]" + x == ItemsFrom(v, a, x)
    ensures a != [] ==> ItemsFrom(v, a, x) != "" && ItemsFrom(v, a, x)[0] != ']'
  {
    hide Canonical, Wellformed, ItemsText, More, KindOf;
    if a == [] {
      NoItems(v);
      assert "" + "]" + x == "]" + x;
    } else {
      FirstItem(v, a);
      FirstTellsKind(a[0], "");
      Regrouped(Canonical(a[0]), More(|a| == 1, ItemsText(v, a[1..])), x);
    }
  }

  lemma FirstItem(v: Json, a: seq<Json>)
    requires v.Arr? && Wellformed(v) && a != [] && forall i :: 0 <= i < |a| ==> a[i] in v.items
    ensures Wellformed(a[0]) && ItemsText(v, a) == Canonical(a[0]) + More(|a| == 1, ItemsText(v, a[1..]))
  {
    hide Canonical;
  }

  lemma Regrouped(item: string, rest: string, x: string)
    ensures item + rest + "]" + x == item + (rest + "]" + x)
  {}

  lemma {:induction false} ItemsRun(v: Json, a: seq<Json>, x: string, w: Json, b: seq<Json>, y: string)
    requires v.Arr? && w.Arr? && Wellformed(v) && Wellformed(w)
    requires (forall i :: 0 <= i < |a| ==> a[i] in v.items) && (forall i :: 0 <= i < |b| ==> b[i] in w.items)
    requires ItemsText(v, a) + "]" + x == ItemsText(w, b) + "]" + y
    ensures a == b && x == y
    decreases v, 0, |a|
  {
    hide Canonical, ItemsText, Wellformed, Delimited, More;
    ItemsStart(v, a, x);
    ItemsStart(w, b, y);
    var s := ItemsText(v, a) + "]" + x;
    assert (a == [] ==> s[0] == ']' && s[1..] == x) && (b == [] ==> s[0] == ']' && s[1..] == y);
    if a != [] && b != [] {
      var u, z := More(|a| == 1, ItemsText(v, a[1..])) + "]" + x, More(|b| == 1, ItemsText(w, b[1..])) + "]" + y;
      MoreDelimited(|a| == 1, ItemsText(v, a[1..]), "]", x);
      MoreDelimited(|b| == 1, ItemsText(w, b[1..]), "]", y);
      CanonicalRun(a[0], u, b[0], z);
      AfterItem(|a| == 1, ItemsText(v, a[1..]), x, |b| == 1, ItemsText(w, b[1..]), y, "]");
      if |a| > 1 { ItemsRun(v, a[1..], x, w, b[1..], y); }
      assert a == [a[0]] + a[1..] && b == [b[0]] + b[1..];
    }
  }

  /** A field as the escaped key, and what follows its closing quote. */
  lemma FieldSplit(v: Json, k: string, rest: string, x: string)
    requires v.Obj? && k in v.fields
    ensures FieldText(v, k) + rest + x == "\"" + (Escaped(k) + "\"" + (":" + Canonical(v.fields[k]) + (rest + x)))
  {
    hide Canonical, Escaped;
  }

  /** The fields after the first opening quote. */
  ghost function FieldsFrom(v: Json, a: seq<string>, x: string): string
    requires v.Obj? && a != [] && forall k :: k in a ==> k in v.fields
  {
    Escaped(a[0]) + "\"" + (":" + Canonical(v.fields[a[0]]) + (More(|a| == 1, FieldsText(v, a[1..])) + "}" + x))
  }

  lemma FieldsStart(v: Json, a: seq<string>, x: string)
    requires v.Obj? && forall k :: k in a ==> k in v.fields
    ensures a == [] ==> FieldsText(v, a) + "}" + x == "}" + x
    ensures a != [] ==> FieldsText(v, a) + "}" + x == "\"" + FieldsFrom(v, a, x)
  {
    hide *;
    if a == [] {
      NoItems(v);
      assert "" + "}" + x == "}" + x;
    } else {
      FirstField(v, a, x);
    }
  }

  lemma FirstField(v: Json, a: seq<string>, x: string)
    requires v.Obj? && a != [] && forall k :: k in a ==> k in v.fields
    ensures FieldsText(v, a) + "}" + x == "\"" + FieldsFrom(v, a, x)
  {
    hide Canonical, Escaped, FieldText, More, FieldsText;
    FieldsHead(v, a);
    FieldSplit(v, a[0], More(|a| == 1, FieldsText(v, a[1..])) + "}", x);
    Regroup(FieldText(v, a[0]), More(|a| == 1, FieldsText(v, a[1..])), x);
  }

  lemma Regroup(field: string, rest: string, x: string)
    ensures field + rest + "}" + x == field + (rest + "}") + x
  {}

  lemma FieldsHead(v: Json, a: seq<string>)
    requires v.Obj? && a != [] && forall k :: k in a ==> k in v.fields
    ensures FieldsText(v, a) == FieldText(v, a[0]) + More(|a| == 1, FieldsText(v, a[1..]))
  {
    hide FieldText;
  }

  lemma {:induction false} FieldsRun(v: Json, a: seq<string>, x: string, w: Json, b: seq<string>, y: string)
    requires v.Obj? && w.Obj? && Wellformed(v) && Wellformed(w)
    requires (forall k :: k in a ==> k in v.fields) && (forall k :: k in b ==> k in w.fields)
    requires FieldsText(v, a) + "}" + x == FieldsText(w, b) + "}" + y
    ensures a == b && x == y && forall k :: k in a ==> k in v.fields && k in w.fields && v.fields[k] == w.fields[k]
    decreases v, 0, |a|
  {
    hide *;
    FieldsStart(v, a, x);
    FieldsStart(w, b, y);
    var s := FieldsText(v, a) + "}" + x;
    assert (a == [] ==> s[0] == '}' && s[1..] == x) && (b == [] ==> s[0] == '}' && s[1..] == y);
    assert a != [] ==> s[0] == '"' && s[1..] == FieldsFrom(v, a, x);
    assert b != [] ==> s[0] == '"' && s[1..] == FieldsFrom(w, b, y);
    if a != [] { NextField(v, a, x, w, b, y); }
  }

  lemma {:induction false} NextField(v: Json, a: seq<string>, x: string, w: Json, b: seq<string>, y: string)
    requires v.Obj? && w.Obj? && Wellformed(v) && Wellformed(w) && a != [] && b != []
    requires (forall k :: k in a ==> k in v.fields) && (forall k :: k in b ==> k in w.fields)
    requires FieldsFrom(v, a, x) == FieldsFrom(w, b, y)
    ensures a == b && x == y && forall k :: k in a ==> k in v.fields && k in w.fields && v.fields[k] == w.fields[k]
    decreases v, 0, |a|, 0
  {
    hide Canonical, FieldsText, Delimited, More, Escaped;
    var ra, rb := FieldsText(v, a[1..]), FieldsText(w, b[1..]);
    var u, z := More(|a| == 1, ra) + "}" + x, More(|b| == 1, rb) + "}" + y;
    var c, d := Canonical(v.fields[a[0]]), Canonical(w.fields[b[0]]);
    MoreDelimited(|a| == 1, ra, "}", x);
    MoreDelimited(|b| == 1, rb, "}", y);
    QuoteRun(a[0], ":" + c + u, b[0], ":" + d + z);
    assert c + u == (":" + c + u)[1..] && d + z == (":" + d + z)[1..];
    CanonicalRun(v.fields[a[0]], u, w.fields[b[0]], z);
    AfterItem(|a| == 1, ra, x, |b| == 1, rb, y, "}");
    if |a| > 1 { FieldsRun(v, a[1..], x, w, b[1..], y); }
    assert a == [a[0]] + a[1..] && b == [b[0]] + b[1..];
  }

  /** Different bodies have different canonical texts. */
  lemma CanonicalInjective(v: Json, w: Json)
    requires Wellformed(v) && Wellformed(w) && Canonical(v) == Canonical(w)
    ensures v == w
  {
    assert Canonical(v) + "" == Canonical(v) && Canonical(w) + "" == Canonical(w);
    CanonicalRun(v, "", w, "");
  }

  // ---- what is built from canonical text

  /** playersAdvancedBusinessKey: encoding/json's text of an array of a string, an integer and a string. */
  function PlayersAdvancedKey(tournament: string, round: nat, slot: string): string
  {
    "[" + Quote(tournament) + "," + Decimal.Itoa(round) + "," + Quote(slot) + "]"
  }

  lemma QuotedRun(s: string, x: string, t: string, y: string)
    requires Quote(s) + x == Quote(t) + y
    ensures s == t && x == y
  {
    hide Escaped;
    assert (Quote(s) + x)[1..] == Escaped(s) + "\"" + x && (Quote(t) + y)[1..] == Escaped(t) + "\"" + y;
    QuoteRun(s, x, t, y);
  }

  /** Two advancements have one business key only when they are of one tournament, round and slot, whatever their text. */
  lemma PlayersAdvancedKeyInjective(t: string, n: nat, s: string, t': string, n': nat, s': string)
    requires PlayersAdvancedKey(t, n, s) == PlayersAdvancedKey(t', n', s')
    ensures t == t' && n == n' && s == s'
  {
    hide Quote, Decimal.Itoa;
    var a, a' := "," + (Quote(s) + "]"), "," + (Quote(s') + "]");
    var b, b' := "," + (Decimal.Itoa(n) + a), "," + (Decimal.Itoa(n') + a');
    assert PlayersAdvancedKey(t, n, s)[1..] == Quote(t) + b && PlayersAdvancedKey(t', n', s')[1..] == Quote(t') + b';
    QuotedRun(t, b, t', b');
    assert b[1..] == Decimal.Itoa(n) + a && b'[1..] == Decimal.Itoa(n') + a';
    Decimal.NumberRun(n, a, n', a');
    assert a[1..] == Quote(s) + "]" && a'[1..] == Quote(s') + "]";
    QuotedRun(s, "]", s', "]");
  }

  const OPTIONAL: set<string> := {"rule", "completionReason", "causationId"}

  type Body = map<string, Json>

  /** The optional contract fields of the record, absent or present with their value, over the identity. */
  function ContractBody(identity: Body, raw: Body): Body
  {
    identity + map k | k in raw && k in OPTIONAL :: raw[k]
  }

  /** fingerprintContractBody, with the hexadecimal digest as an ideal function. */
  ghost function Fingerprint(digest: string -> string, identity: Body, raw: Body): string
  {
    digest(Canonical(Obj(ContractBody(identity, raw))))
  }

  ghost predicate WellformedBody(b: Body) { forall k :: k in b ==> Wellformed(b[k]) }

  predicate SameOptional(raw: Body, raw': Body)
  {
    forall k :: k in OPTIONAL ==> (k in raw <==> k in raw') && (k in raw ==> k in raw' && raw[k] == raw'[k])
  }

  /** Two records have one fingerprint exactly when they have one identity and agree on every optional field, absence
      included. Other fields of a record do not matter. */
  lemma FingerprintExact(digest: string -> string, identity: Body, raw: Body, identity': Body, raw': Body)
    requires forall a, b :: digest(a) == digest(b) ==> a == b
    requires WellformedBody(identity) && WellformedBody(raw) && WellformedBody(identity') && WellformedBody(raw')
    requires identity.Keys !! OPTIONAL && identity'.Keys !! OPTIONAL
    ensures Fingerprint(digest, identity, raw) == Fingerprint(digest, identity', raw')
            <==> identity == identity' && SameOptional(raw, raw')
  {
    hide Canonical, ContractBody, SameOptional;
    var b, b' := ContractBody(identity, raw), ContractBody(identity', raw');
    BodyWellformed(identity, raw);
    BodyWellformed(identity', raw');
    if SameOptional(raw, raw') { SameBody(identity, raw, raw'); }
    if Fingerprint(digest, identity, raw) == Fingerprint(digest, identity', raw') {
      CanonicalInjective(Obj(b), Obj(b'));
      BodyParts(identity, raw, identity', raw');
    }
  }

  lemma BodyWellformed(identity: Body, raw: Body)
    requires WellformedBody(identity) && WellformedBody(raw)
    ensures Wellformed(Obj(ContractBody(identity, raw)))
  {}

  lemma SameBody(identity: Body, raw: Body, raw': Body)
    requires SameOptional(raw, raw')
    ensures ContractBody(identity, raw) == ContractBody(identity, raw')
  {}

  lemma BodyParts(identity: Body, raw: Body, identity': Body, raw': Body)
    requires identity.Keys !! OPTIONAL && identity'.Keys !! OPTIONAL && ContractBody(identity, raw) == ContractBody(identity', raw')
    ensures identity == identity' && SameOptional(raw, raw')
  {
    var b, b' := ContractBody(identity, raw), ContractBody(identity', raw');
    assert identity == b - OPTIONAL && identity' == b' - OPTIONAL;
    forall k | k in OPTIONAL ensures (k in raw <==> k in b) && (k in raw' <==> k in b') {}
  }
}
