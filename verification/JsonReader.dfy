/** A reader of JSON text, by the grammar in section 2 of RFC 8259, without white space between tokens: what is canonical text
    is JSON. */
module JsonReader {
  import opened Common
  import opened CanonicalJson
  import opened StringOrder
  import Hex

  // ---- strings

  function IsHex(s: string): bool { |s| == 4 && forall i :: 0 <= i < 4 ==> Hex.HexValue(s[i]).Some? }

  function CodeOf(s: string): int
    requires IsHex(s)
  {
    ((Hex.HexValue(s[0]).value * 16 + Hex.HexValue(s[1]).value) * 16 + Hex.HexValue(s[2]).value) * 16 + Hex.HexValue(s[3]).value
  }

  /** One character of a string and how long it is written: control characters, quotes and backslashes must be escaped. */
  function ReadChar(s: string): Option<(char, nat)>
    requires s != ""
    ensures ReadChar(s).Some? ==> 1 <= ReadChar(s).value.1 <= |s|
  {
    if s[0] == '"' || (s[0] as int) < 0x20 then None
    else if s[0] != '\\' then Some((s[0], 1))
    else if |s| < 2 then None
    else
      match s[1]
      case '"' => Some(('"', 2))
      case '\\' => Some(('\\', 2))
      case '/' => Some(('/', 2))
      case 'b' => Some((8 as char, 2))
      case 'f' => Some((12 as char, 2))
      case 'n' => Some(('\n', 2))
      case 'r' => Some(('\r', 2))
      case 't' => Some(('\t', 2))
      case 'u' =>
        if |s| < 6 || !IsHex(s[2..6]) then None
        else
          var code := CodeOf(s[2..6]);
          if code < 0 || 0xD800 <= code < 0xE000 || code >= 0x1_0000 then None else Some((code as char, 6))
      case _ => None
  }

  /** A string after its opening quote, and what follows its closing one. */
  function ReadString(s: string): Option<(string, string)>
    decreases |s|
  {
    if s == "" then None
    else if s[0] == '"' then Some(("", s[1..]))
    else
      var c := ReadChar(s);
      if c.None? then None
      else
        var rest := ReadString(s[c.value.1..]);
        if rest.None? then None else Some(([c.value.0] + rest.value.0, rest.value.1))
  }

  // ---- values

  predicate Begins(s: string, c: char) { s != "" && s[0] == c }

  /** A value and what follows it. Text that is nested deeper than depth is not read. */
  function ReadValue(s: string, depth: nat): Option<(Json, string)>
    decreases depth, 1
  {
    if "null" <= s then Some((Null, s[4..]))
    else if "true" <= s then Some((Bool(true), s[4..]))
    else if "false" <= s then Some((Bool(false), s[5..]))
    else if Begins(s, '"') then
      var t := ReadString(s[1..]);
      if t.None? then None else Some((Str(t.value.0), t.value.1))
    else if depth == 0 then None
    else if Begins(s, '[') then
      if Begins(s[1..], ']') then Some((Arr([]), s[2..])) else ReadItems(s[1..], depth - 1)
    else if Begins(s, '{') then
      if Begins(s[1..], '}') then Some((Obj(map[]), s[2..])) else ReadFields(s[1..], depth - 1)
    else
      var k := NumberLength(s);
      if k > 0 && NumberText(s[..k]) then Some((Num(s[..k]), s[k..])) else None
  }

  function NumberLength(s: string): (k: nat)
    ensures k <= |s|
  {
    if s == "" || !NumberChar(s[0]) then 0 else 1 + NumberLength(s[1..])
  }

  /** The items up to the closing bracket. */
  function ReadItems(s: string, depth: nat): (r: Option<(Json, string)>)
    ensures r.Some? ==> r.value.0.Arr?
    decreases depth, 2
  {
    var first := ReadValue(s, depth);
    if first.None? then None
    else if Begins(first.value.1, ']') then Some((Arr([first.value.0]), first.value.1[1..]))
    else if !Begins(first.value.1, ',') || depth == 0 then None
    else
      var rest := ReadItems(first.value.1[1..], depth - 1);
      if rest.None? then None else Some((Arr([first.value.0] + rest.value.0.items), rest.value.1))
  }

  /** The fields up to the closing brace; of two with one name the later one counts. */
  function ReadFields(s: string, depth: nat): (r: Option<(Json, string)>)
    ensures r.Some? ==> r.value.0.Obj?
    decreases depth, 2
  {
    if !Begins(s, '"') then None
    else
      var key := ReadString(s[1..]);
      if key.None? || !Begins(key.value.1, ':') then None
      else
        var first := ReadValue(key.value.1[1..], depth);
        if first.None? then None
        else if Begins(first.value.1, '}') then Some((Obj(map[key.value.0 := first.value.0]), first.value.1[1..]))
        else if !Begins(first.value.1, ',') || depth == 0 then None
        else
          var rest := ReadFields(first.value.1[1..], depth - 1);
          if rest.None? then None
          else Some((Obj(map[key.value.0 := first.value.0] + rest.value.0.fields), rest.value.1))
  }

  // ---- canonical text is read back

  lemma HexReads(n: nat)
    requires n < 0x1_0000
    ensures IsHex(Hex4(n)) && CodeOf(Hex4(n)) == n
  {
    hide Hex.HexDigit, Hex.HexValue;
    Hex.DigitRoundTrip(n / 0x1000);
    Hex.DigitRoundTrip(n / 0x100 % 16);
    Hex.DigitRoundTrip(n / 16 % 16);
    Hex.DigitRoundTrip(n % 16);
    Nibbles(n);
  }

  /** Each character is read back from its escape. */
  lemma EscapeReads(c: char, x: string)
    ensures ReadChar(Escape(c) + x) == Some((c, |Escape(c)|)) && (Escape(c) + x)[0] != '"'
  {
    hide Hex4, IsHex, CodeOf;
    var s := Escape(c) + x;
    if ShortEscape(c).None? && IsHexEscaped(c) {
      HexReads(c as int);
      assert s[2..6] == Hex4(c as int);
    }
  }

  lemma {:induction false} StringReads(t: string, x: string)
    ensures ReadString(Escaped(t) + "\"" + x) == Some((t, x))
  {
    hide Escape, ReadChar;
    var s := Escaped(t) + "\"" + x;
    if t == "" {
      assert s == "\"" + x && s[1..] == x;
    } else {
      var rest := Escaped(t[1..]) + "\"" + x;
      assert s == Escape(t[0]) + rest;
      EscapeReads(t[0], rest);
      assert s[|Escape(t[0])|..] == rest;
      StringReads(t[1..], x);
      assert [t[0]] + t[1..] == t;
    }
  }

  lemma {:induction false} NumberReads(t: string, x: string)
    requires (forall i :: 0 <= i < |t| ==> NumberChar(t[i])) && Delimited(x)
    ensures NumberLength(t + x) == |t|
  {
    if t == "" {
      assert t + x == x;
    } else {
      assert (t + x)[1..] == t[1..] + x;
      NumberReads(t[1..], x);
    }
  }

  lemma NoKeyword(s: string)
    requires s != "" && s[0] != 'n' && s[0] != 't' && s[0] != 'f'
    ensures !("null" <= s) && !("true" <= s) && !("false" <= s)
  {}

  lemma LeafReads(v: Json, x: string, depth: nat)
    requires Wellformed(v) && Delimited(x) && !v.Arr? && !v.Obj? && depth > 0
    ensures ReadValue(Canonical(v) + x, depth) == Some((v, x))
  {
    hide Escaped, ReadString;
    var s := Canonical(v) + x;
    match v {
      case Null => assert s[4..] == x;
      case Bool(b) =>
        assert s[|Canonical(v)|..] == x && s[0] == if b then 't' else 'f';
        assert !("null" <= s);
      case Num(t) =>
        NumberReads(t, x);
        assert s[0] == t[0] && NumberChar(s[0]);
        NoKeyword(s);
        assert s[..|t|] == t && s[|t|..] == x;
      case Str(t) =>
        StringReads(t, x);
        NoKeyword(s);
        assert s[1..] == Escaped(t) + "\"" + x;
    }
  }

  /** Canonical text, up to a delimiter, is read back as the value that it was written for. */
  lemma {:induction false} ValueReads(v: Json, x: string, depth: nat)
    requires Wellformed(v) && Delimited(x) && depth >= |Canonical(v)|
    ensures ReadValue(Canonical(v) + x, depth) == Some((v, x))
    decreases v, 1, 0
  {
    hide *;
    ListText(v);
    FirstTellsKind(v, x);
    match v {
      case Arr(items) =>
        if items == [] {
          EmptyReads(v, x, depth);
        } else {
          ItemsRead(v, items, x, depth - 1);
          ListReads(v, x, depth);
        }
      case Obj(fields) =>
        var ks := SortedList(fields.Keys);
        if ks == [] {
          EmptyReads(v, x, depth);
        } else {
          SortedNames(fields);
          FieldsRead(v, ks, x, depth - 1);
          ListReads(v, x, depth);
        }
      case _ => LeafReads(v, x, depth);
    }
  }

  lemma SortedNames(fields: map<string, Json>)
    ensures var ks := SortedList(fields.Keys);
            Sorted(ks) && (forall k :: k in ks ==> k in fields) && (map k | k in ks :: fields[k]) == fields
  {
    assert Lists(SortedList(fields.Keys), fields.Keys);
  }

  lemma ListText(v: Json)
    ensures v.Arr? ==> Canonical(v) == "[" + ItemsText(v, v.items) + "]" && (v.items == [] ==> Canonical(v) == "[]")
    ensures v.Obj? ==> Canonical(v) == "{" + FieldsText(v, SortedList(v.fields.Keys)) + "}"
    ensures v.Obj? && SortedList(v.fields.Keys) == [] ==> Canonical(v) == "{}" && v.fields == map[]
  {
    if v.Obj? { assert Lists(SortedList(v.fields.Keys), v.fields.Keys); }
  }

  lemma EmptyReads(v: Json, x: string, depth: nat)
    requires depth > 0 && ((v == Arr([]) && Canonical(v) == "[]") || (v == Obj(map[]) && Canonical(v) == "{}"))
    ensures ReadValue(Canonical(v) + x, depth) == Some((v, x))
  {
    var s := Canonical(v) + x;
    assert s[2..] == x && s[1..][0] == s[1];
  }

  /** A list that is not empty is read after its opening bracket. */
  lemma ListReads(v: Json, x: string, depth: nat)
    requires Wellformed(v) && depth > 0
    requires (v.Arr? && v.items != []) || (v.Obj? && SortedList(v.fields.Keys) != [])
    ensures v.Arr? ==> ReadValue(Canonical(v) + x, depth) == ReadItems(ItemsText(v, v.items) + "]" + x, depth - 1)
    ensures v.Obj? ==> ReadValue(Canonical(v) + x, depth) == ReadFields(FieldsText(v, SortedList(v.fields.Keys)) + "}" + x, depth - 1)
  {
    hide Canonical, ReadItems, ReadFields, ItemsText, FieldsText, Wellformed;
    ListText(v);
    Opened(v, x);
    var s := Canonical(v) + x;
    NoKeyword(s);
    if v.Arr? { ItemsStart(v, v.items, x); } else { FieldsStart(v, SortedList(v.fields.Keys), x); }
  }

  lemma {:induction false} ItemsRead(v: Json, a: seq<Json>, x: string, depth: nat)
    requires v.Arr? && Wellformed(v) && a != [] && forall i :: 0 <= i < |a| ==> a[i] in v.items
    requires depth > |ItemsText(v, a)|
    ensures ReadItems(ItemsText(v, a) + "]" + x, depth) == Some((Arr(a), x))
    decreases v, 0, |a|
  {
    hide Canonical, ItemsText, Wellformed, Delimited, ReadValue;
    FirstItem(v, a);
    ItemsStart(v, a, x);
    var rest := ItemsText(v, a[1..]);
    var u := More(|a| == 1, rest) + "]" + x;
    MoreDelimited(|a| == 1, rest, "]", x);
    ValueReads(a[0], u, depth);
    if |a| == 1 {
      assert u[1..] == x && a == [a[0]];
    } else {
      assert u[1..] == rest + "]" + x;
      ItemsRead(v, a[1..], x, depth - 1);
      assert a == [a[0]] + a[1..];
    }
  }

  lemma FieldWellformed(v: Json, k: string)
    requires v.Obj? && Wellformed(v) && k in v.fields
    ensures Wellformed(v.fields[k])
  {}

  /** One turn of ReadFields: a name, a colon and a value were read. */
  lemma FieldTurn(k: string, t: string, value: Json, u: string, depth: nat)
    requires ReadValue(t, depth) == Some((value, u)) && (Begins(u, '}') || (Begins(u, ',') && depth > 0))
    ensures var r := ReadFields("\"" + (Escaped(k) + "\"" + (":" + t)), depth);
            if Begins(u, '}') then r == Some((Obj(map[k := value]), u[1..]))
            else
              var rest := ReadFields(u[1..], depth - 1);
              r == if rest.None? then None else Some((Obj(map[k := value] + rest.value.0.fields), rest.value.1))
  {
    hide ReadValue, ReadString, Escaped;
    var s := "\"" + (Escaped(k) + "\"" + (":" + t));
    StringReads(k, ":" + t);
    assert s[1..] == Escaped(k) + "\"" + (":" + t) && (":" + t)[1..] == t;
  }

  /** What follows the value of the first field. */
  ghost function Rest(v: Json, a: seq<string>, x: string): string
    requires v.Obj? && a != [] && forall k :: k in a ==> k in v.fields
  {
    More(|a| == 1, FieldsText(v, a[1..])) + "}" + x
  }

  lemma RestIs(v: Json, a: seq<string>, x: string)
    requires v.Obj? && a != [] && forall k :: k in a ==> k in v.fields
    ensures var u := Rest(v, a, x);
            && Delimited(u)
            && (|a| == 1 ==> Begins(u, '}') && u[1..] == x)
            && (|a| > 1 ==> Begins(u, ',') && u[1..] == FieldsText(v, a[1..]) + "}" + x)
  {
    hide FieldsText;
  }

  /** The text of the fields, from the first name on, and how long it is. */
  lemma FieldsAre(v: Json, a: seq<string>, x: string)
    requires v.Obj? && Wellformed(v) && a != [] && forall k :: k in a ==> k in v.fields
    ensures var c := Canonical(v.fields[a[0]]);
            && Wellformed(v.fields[a[0]]) && |FieldsText(v, a)| > |c|
            && (|a| > 1 ==> |FieldsText(v, a)| > |FieldsText(v, a[1..])| + 1)
            && FieldsText(v, a) + "}" + x == "\"" + (Escaped(a[0]) + "\"" + (":" + (c + Rest(v, a, x))))
  {
    hide Canonical, FieldsText, FieldText, Wellformed, Escaped;
    FieldsHead(v, a);
    FieldsStart(v, a, x);
    FieldWellformed(v, a[0]);
    FieldLonger(v, a[0]);
    var c := Canonical(v.fields[a[0]]);
    assert ":" + c + Rest(v, a, x) == ":" + (c + Rest(v, a, x));
  }

  lemma {:induction false} FieldsRead(v: Json, a: seq<string>, x: string, depth: nat)
    requires v.Obj? && Wellformed(v) && a != [] && Sorted(a) && forall k :: k in a ==> k in v.fields
    requires depth > |FieldsText(v, a)|
    ensures ReadFields(FieldsText(v, a) + "}" + x, depth) == Some((Obj(map k | k in a :: v.fields[k]), x))
    decreases v, 0, |a|
  {
    hide Canonical, FieldsText, Wellformed, Delimited, ReadValue, ReadFields, Escaped, Sorted, Rest;
    FieldsAre(v, a, x);
    RestIs(v, a, x);
    var k, u := a[0], Rest(v, a, x);
    ValueReads(v.fields[k], u, depth);
    FieldTurn(k, Canonical(v.fields[k]) + u, v.fields[k], u, depth);
    if |a| > 1 {
      TailSorted(a);
      FieldsRead(v, a[1..], x, depth - 1);
    }
    FieldsSplit(v.fields, a);
  }

  lemma FieldsSplit(fields: map<string, Json>, a: seq<string>)
    requires a != [] && forall k :: k in a ==> k in fields
    ensures |a| == 1 ==> (map k | k in a :: fields[k]) == map[a[0] := fields[a[0]]]
    ensures a[0] !in a[1..] ==>
              (map k | k in a :: fields[k]) == map[a[0] := fields[a[0]]] + (map k | k in a[1..] :: fields[k])
  {
    assert a == [a[0]] + a[1..];
  }

  lemma FieldLonger(v: Json, k: string)
    requires v.Obj? && k in v.fields
    ensures |FieldText(v, k)| > |Canonical(v.fields[k])|
  {
    hide Canonical, Escaped;
  }

  lemma TailSorted(a: seq<string>)
    requires Sorted(a) && a != []
    ensures Sorted(a[1..]) && a[0] !in a[1..]
  {
    Irreflexive(a[0]);
  }

  /** Canonical text is JSON, for the very value it was written for. */
  lemma CanonicalReads(v: Json)
    requires Wellformed(v)
    ensures ReadValue(Canonical(v), |Canonical(v)|) == Some((v, ""))
  {
    assert Canonical(v) + "" == Canonical(v);
    ValueReads(v, "", |Canonical(v)|);
  }

  // ---- what canonical text does not hold

  /** No control character, HTML character or line separator. */
  predicate IsClean(c: char)
  {
    (c as int) >= 0x20 && c != '<' && c != '>' && c != '&' && c as int != 0x2028 && c as int != 0x2029
  }

  predicate Clean(s: string) { forall i :: 0 <= i < |s| ==> IsClean(s[i]) }

  lemma EscapeClean(c: char)
    ensures Clean(Escape(c))
  {
    hide Hex4, IsClean;
    assert IsClean('\\') && IsClean('u') by { PlainClean(); }
    if ShortEscape(c).Some? {
      ShortClean(c);
    } else if IsHexEscaped(c) {
      Hex4Clean(c as int);
    } else {
      OthersClean(c);
    }
  }

  lemma PlainClean()
    ensures IsClean('\\') && IsClean('u')
  {}

  lemma ShortClean(c: char)
    ensures ShortEscape(c).Some? ==> IsClean(ShortEscape(c).value)
  {}

  lemma OthersClean(c: char)
    ensures !IsHexEscaped(c) ==> IsClean(c)
  {}

  lemma Hex4Clean(n: nat)
    requires n < 0x1_0000
    ensures Clean(Hex4(n))
  {
    hide Hex.HexDigit, IsClean;
    HexDigitsClean(n / 0x1000);
    HexDigitsClean(n / 0x100 % 16);
    HexDigitsClean(n / 16 % 16);
    HexDigitsClean(n % 16);
  }

  lemma HexDigitsClean(n: nat)
    requires n < 16
    ensures IsClean(Hex.HexDigit(n))
  {}

  /** A quoted string can stand in HTML, on one line. */
  lemma {:induction false} QuotedIsClean(s: string)
    ensures Clean(Escaped(s)) && Clean(Quote(s))
  {
    if s != "" {
      hide Escape;
      EscapeClean(s[0]);
      QuotedIsClean(s[1..]);
    }
  }
}
