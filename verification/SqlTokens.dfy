/** What the splitter makes of SQL text that is put together from its tokens: quoted values in either escaping, comments, and
    plain characters. */
module SqlTokens {
  import opened Common
  import opened SqlSplit

  /** One character of a quoted value: as it is, after a backslash, or a quote that is doubled. */
  datatype Item = Plain(c: char) | Escaped(c: char) | Doubled

  datatype Token = Char(c: char) | Quoted(q: char, items: seq<Item>) | Line(text: string) | Block(text: string)

  function ItemText(q: char, i: Item): string
  {
    match i
    case Plain(c) => [c]
    case Escaped(c) => ['\\', c]
    case Doubled => [q, q]
  }

  function ItemsText(q: char, items: seq<Item>): string
  {
    if items == [] then "" else ItemText(q, items[0]) + ItemsText(q, items[1..])
  }

  function TokenText(t: Token): string
  {
    match t
    case Char(c) => [c]
    case Quoted(q, items) => [q] + ItemsText(q, items) + [q]
    case Line(text) => "--" + text + "\n"
    case Block(text) => "/*" + text + "*/"
  }

  function Text(ts: seq<Token>): string { if ts == [] then "" else TokenText(ts[0]) + Text(ts[1..]) }

  predicate TokenOk(t: Token)
  {
    match t
    case Char(c) => c !in "'\"`;"
    case Quoted(q, items) => q in "'\"`" && forall i :: 0 <= i < |items| && items[i].Plain? ==> items[i].c != q && items[i].c != '\\'
    case Line(text) => '\n' !in text
    case Block(text) => forall i :: 0 <= i < |text| - 1 ==> !(text[i] == '*' && text[i + 1] == '/')
  }

  /** What follows does not turn the token into another one. */
  predicate Apart(t: Token, next: string)
  {
    next != "" ==>
      match t
      case Char(c) => !(c == '-' && next[0] == '-') && !(c == '/' && next[0] == '*')
      case Quoted(q, _) => next[0] != q
      case _ => true
  }

  predicate TokensOk(ts: seq<Token>)
  {
    forall i :: 0 <= i < |ts| ==> TokenOk(ts[i]) && Apart(ts[i], Text(ts[i + 1..]))
  }

  // ---- the lexer on one token

  lemma Turns(st: State, s: string, buf: string, k: nat, st': State)
    requires s != "" && !(st.Code? && s[0] == ';') && Take(st, s) == (k, st')
    ensures Scan(st, s, buf) == Scan(st', s[k..], buf + s[..k])
  {}

  lemma ItemTurn(q: QuoteChar, item: Item, y: string)
    requires item.Plain? ==> item.c != q && item.c != '\\'
    ensures Take(Quote(q), ItemText(q, item) + y) == (|ItemText(q, item)|, Quote(q))
  {}

  lemma {:induction false} QuoteScans(q: QuoteChar, items: seq<Item>, x: string, buf: string)
    requires TokenOk(Quoted(q, items)) && Apart(Quoted(q, items), x)
    ensures Scan(Quote(q), ItemsText(q, items) + [q] + x, buf) == Scan(Code, x, buf + ItemsText(q, items) + [q])
  {
    hide Scan, Take;
    var s := ItemsText(q, items) + [q] + x;
    if items == [] {
      assert s == [q] + x && s[1..] == x && s[..1] == [q];
      assert buf + "" + [q] == buf + [q];
      QuoteEnds(q, x);
      Turns(Quote(q), s, buf, 1, Code);
    } else {
      var one, rest := ItemText(q, items[0]), ItemsText(q, items[1..]);
      var k := |one|;
      assert s == one + (rest + [q] + x);
      assert s[k..] == rest + [q] + x && s[..k] == one;
      ItemTurn(q, items[0], rest + [q] + x);
      Turns(Quote(q), s, buf, k, Quote(q));
      assert forall i :: 0 <= i < |items[1..]| ==> items[1..][i] == items[i + 1];
      QuoteScans(q, items[1..], x, buf + one);
      assert buf + one + rest + [q] == buf + (one + rest) + [q];
    }
  }

  lemma QuoteEnds(q: QuoteChar, x: string)
    requires Apart(Quoted(q, []), x)
    ensures Take(Quote(q), [q] + x) == (1, Code)
  {}

  lemma {:induction false} LineScans(text: string, x: string, buf: string)
    requires '\n' !in text
    ensures Scan(LineComment, text + "\n" + x, buf) == Scan(Code, x, buf + text + "\n")
  {
    var s := text + "\n" + x;
    if text == "" {
      assert s == "\n" + x && s[1..] == x && s[..1] == "\n";
      assert buf + "" + "\n" == buf + "\n";
    } else {
      assert s[1..] == text[1..] + "\n" + x && s[..1] == [text[0]];
      LineScans(text[1..], x, buf + [text[0]]);
      assert buf + [text[0]] + text[1..] == buf + text;
    }
  }

  lemma {:induction false} BlockScans(text: string, x: string, buf: string)
    requires TokenOk(Block(text))
    ensures Scan(BlockComment, text + "*/" + x, buf) == Scan(Code, x, buf + text + "*/")
  {
    var s := text + "*/" + x;
    if text == "" {
      assert s == "*/" + x && s[2..] == x && s[..2] == "*/";
      assert buf + "" + "*/" == buf + "*/";
    } else {
      assert s[1..] == text[1..] + "*/" + x && s[..1] == [text[0]];
      assert !Starts(s, '*', '/') by { assert |text| == 1 ==> s[1] == '*'; assert |text| > 1 ==> s[1] == text[1]; }
      BlockScans(text[1..], x, buf + [text[0]]);
      assert buf + [text[0]] + text[1..] == buf + text;
    }
  }

  lemma QuotedScans(q: QuoteChar, items: seq<Item>, x: string, buf: string)
    requires TokenOk(Quoted(q, items)) && Apart(Quoted(q, items), x)
    ensures var t := TokenText(Quoted(q, items)); Scan(Code, t + x, buf) == Scan(Code, x, buf + t)
  {
    hide ItemsText, Scan, TokenOk, Apart;
    var t := TokenText(Quoted(q, items));
    var s := t + x;
    QuoteScans(q, items, x, buf + [q]);
    Turns(Code, s, buf, 1, Quote(q));
    assert s[1..] == ItemsText(q, items) + [q] + x && s[..1] == [q];
    assert buf + [q] + ItemsText(q, items) + [q] == buf + t;
  }

  lemma LineTokenScans(text: string, x: string, buf: string)
    requires '\n' !in text
    ensures var t := TokenText(Line(text)); Scan(Code, t + x, buf) == Scan(Code, x, buf + t)
  {
    hide Scan;
    var t := TokenText(Line(text));
    var s := t + x;
    LineScans(text, x, buf + "--");
    Turns(Code, s, buf, 2, LineComment);
    assert s[2..] == text + "\n" + x && s[..2] == "--";
    assert buf + "--" + text + "\n" == buf + t;
  }

  lemma BlockTokenScans(text: string, x: string, buf: string)
    requires TokenOk(Block(text))
    ensures var t := TokenText(Block(text)); Scan(Code, t + x, buf) == Scan(Code, x, buf + t)
  {
    hide Scan, TokenOk;
    var t := TokenText(Block(text));
    var s := t + x;
    BlockScans(text, x, buf + "/*");
    Turns(Code, s, buf, 2, BlockComment);
    assert s[2..] == text + "*/" + x && s[..2] == "/*";
    assert buf + "/*" + text + "*/" == buf + t;
  }

  /** The lexer gets over a token and is back in code; semicolons inside it do not matter. */
  lemma TokenScans(t: Token, x: string, buf: string)
    requires TokenOk(t) && Apart(t, x)
    ensures Scan(Code, TokenText(t) + x, buf) == Scan(Code, x, buf + TokenText(t))
  {
    hide Scan, ItemsText;
    match t {
      case Char(c) => CharScans(c, x, buf);
      case Quoted(q, items) => QuotedScans(q, items, x, buf);
      case Line(text) => LineTokenScans(text, x, buf);
      case Block(text) => BlockTokenScans(text, x, buf);
    }
  }

  lemma CharScans(c: char, x: string, buf: string)
    requires TokenOk(Char(c)) && Apart(Char(c), x)
    ensures Scan(Code, [c] + x, buf) == Scan(Code, x, buf + [c])
  {
    hide Scan;
    var s := [c] + x;
    Turns(Code, s, buf, 1, Code);
    assert s[1..] == x && s[..1] == [c];
  }

  predicate EndsHere(x: string) { x == "" || x[0] == ';' }

  lemma {:induction false} TextScans(ts: seq<Token>, x: string, buf: string)
    requires TokensOk(ts) && EndsHere(x)
    ensures Scan(Code, Text(ts) + x, buf) == Scan(Code, x, buf + Text(ts))
  {
    hide Scan, TokenText, TokenOk;
    if ts == [] {
      assert Text(ts) + x == x && buf + Text(ts) == buf;
    } else {
      var t, rest := ts[0], Text(ts[1..]);
      assert TokenOk(t) && Apart(t, rest);
      assert Text(ts) + x == TokenText(t) + (rest + x);
      StaysApart(t, rest, x);
      TokenScans(t, rest + x, buf);
      TailOk(ts);
      TextScans(ts[1..], x, buf + TokenText(t));
      assert buf + TokenText(t) + rest == buf + Text(ts);
    }
  }

  lemma StaysApart(t: Token, rest: string, x: string)
    requires TokenOk(t) && Apart(t, rest) && EndsHere(x)
    ensures Apart(t, rest + x)
  {
    assert rest == "" ==> rest + x == x;
  }

  lemma TailOk(ts: seq<Token>)
    requires TokensOk(ts) && ts != []
    ensures TokensOk(ts[1..])
  {
    hide TokenOk, Apart, Text;
    forall i | 0 <= i < |ts[1..]| ensures TokenOk(ts[1..][i]) && Apart(ts[1..][i], Text(ts[1..][i + 1..])) {
      assert ts[1..][i] == ts[i + 1] && ts[1..][i + 1..] == ts[i + 1 + 1..];
    }
  }

  // ---- statements

  function Joined(stmts: seq<seq<Token>>): string
  {
    if stmts == [] then "" else Text(stmts[0]) + ";" + Joined(stmts[1..])
  }

  /** White space or a comment. */
  predicate Idle(t: Token) { t.Line? || t.Block? || (t.Char? && (t.c == ' ' || 9 <= t.c as int <= 13)) }

  predicate IsIdle(ts: seq<Token>) { forall t :: t in ts ==> Idle(t) }

  function Kept(stmts: seq<seq<Token>>): seq<string>
  {
    if stmts == [] then [] else (if IsIdle(stmts[0]) then [] else [Strip(Text(stmts[0]))]) + Kept(stmts[1..])
  }

  predicate NoNul(s: string) { 0 as char !in s }

  predicate AllBlank(b: string) { forall i :: 0 <= i < |b| ==> IsBlank(b[i]) }

  lemma {:induction false} EmptyTail(st: State, t: string, b: string)
    requires !st.Quote? && AllBlank(b)
    ensures EmptyFrom(st, t + b) == EmptyFrom(st, t)
    decreases |t| + |b|
  {
    if t == "" {
      assert t + b == b;
      if b != "" {
        assert b[1..] == "" + b[1..];
        EmptyTail(if st.LineComment? && b[0] != '\n' then LineComment else if st.BlockComment? then BlockComment else Code, "", b[1..]);
      }
    } else {
      assert |t| == 1 && b != "" ==> (t + b)[1] == b[0];
      assert |t| >= 2 ==> (t + b)[1] == t[1];
      match st {
        case Code =>
          if Starts(t, '-', '-') {
            assert (t + b)[2..] == t[2..] + b;
            EmptyTail(LineComment, t[2..], b);
          } else if Starts(t, '/', '*') {
            assert (t + b)[2..] == t[2..] + b;
            EmptyTail(BlockComment, t[2..], b);
          } else {
            assert (t + b)[1..] == t[1..] + b;
            EmptyTail(Code, t[1..], b);
          }
        case LineComment =>
          assert (t + b)[1..] == t[1..] + b;
          EmptyTail(if t[0] == '\n' then Code else LineComment, t[1..], b);
        case BlockComment =>
          if Starts(t, '*', '/') {
            assert (t + b)[2..] == t[2..] + b;
            EmptyTail(Code, t[2..], b);
          } else {
            assert (t + b)[1..] == t[1..] + b;
            EmptyTail(BlockComment, t[1..], b);
          }
      }
    }
  }

  lemma {:induction false} EmptyHead(a: string, t: string)
    requires AllBlank(a)
    ensures EmptyFrom(Code, a + t) == EmptyFrom(Code, t)
  {
    if a == "" {
      assert a + t == t;
    } else {
      assert (a + t)[1..] == a[1..] + t;
      EmptyHead(a[1..], t);
    }
  }

  /** White space around a text does not matter. */
  lemma EmptyStripped(s: string)
    requires NoNul(s)
    ensures Empty(Strip(s)) == EmptyFrom(Code, s)
  {
    hide EmptyFrom, Strip;
    var a, b := StripParts(s);
    StripTwice(s);
    assert AllBlank(a) && AllBlank(b) by {
      assert forall i :: 0 <= i < |a| ==> a[i] == s[i];
      assert forall i :: 0 <= i < |b| ==> b[i] == s[|s| - |b| + i];
    }
    assert s == a + (Strip(s) + b);
    EmptyHead(a, Strip(s) + b);
    EmptyTail(Code, Strip(s), b);
    assert EmptyFrom(Code, "") by { NothingIsEmpty(); }
  }

  lemma NothingIsEmpty()
    ensures EmptyFrom(Code, "")
  {}

  lemma {:induction false} EmptyLine(text: string, x: string)
    requires '\n' !in text
    ensures EmptyFrom(LineComment, text + "\n" + x) == EmptyFrom(Code, x)
  {
    var s := text + "\n" + x;
    if text == "" {
      assert s == "\n" + x && s[1..] == x;
    } else {
      assert s[1..] == text[1..] + "\n" + x;
      EmptyLine(text[1..], x);
    }
  }

  lemma {:induction false} EmptyBlock(text: string, x: string)
    requires TokenOk(Block(text))
    ensures EmptyFrom(BlockComment, text + "*/" + x) == EmptyFrom(Code, x)
  {
    var s := text + "*/" + x;
    if text == "" {
      assert s == "*/" + x && s[2..] == x;
    } else {
      assert s[1..] == text[1..] + "*/" + x;
      assert !Starts(s, '*', '/') by { assert |text| == 1 ==> s[1] == '*'; assert |text| > 1 ==> s[1] == text[1]; }
      EmptyBlock(text[1..], x);
    }
  }

  lemma EmptyToken(t: Token, x: string)
    requires TokenOk(t) && Apart(t, x)
    ensures EmptyFrom(Code, TokenText(t) + x) <==> Idle(t) && EmptyFrom(Code, x)
  {
    hide ItemsText, EmptyFrom;
    var s := TokenText(t) + x;
    EmptyTurn(s);
    match t {
      case Char(c) => assert s[1..] == x;
      case Quoted(q, items) => assert s[0] == q;
      case Line(text) =>
        EmptyLine(text, x);
        assert s[2..] == text + "\n" + x;
      case Block(text) =>
        EmptyBlock(text, x);
        assert s[2..] == text + "*/" + x;
    }
  }

  lemma EmptyTurn(s: string)
    requires s != ""
    ensures EmptyFrom(Code, s) ==
              if Starts(s, '-', '-') then EmptyFrom(LineComment, s[2..])
              else if Starts(s, '/', '*') then EmptyFrom(BlockComment, s[2..])
              else IsBlank(s[0]) && EmptyFrom(Code, s[1..])
  {}

  lemma {:induction false} EmptyTokens(ts: seq<Token>)
    requires TokensOk(ts)
    ensures EmptyFrom(Code, Text(ts)) == IsIdle(ts)
  {
    hide EmptyFrom, TokenText, TokenOk, Apart, Idle;
    if ts == [] {
      NothingIsEmpty();
    } else {
      assert TokenOk(ts[0]) && Apart(ts[0], Text(ts[1..]));
      TailOk(ts);
      EmptyTokens(ts[1..]);
      EmptyToken(ts[0], Text(ts[1..]));
      assert ts == [ts[0]] + ts[1..];
    }
  }

  /** Whatever values are quoted, in whichever escaping, and whatever the comments hold: text that is put together from tokens
      splits at the semicolons between the statements and nowhere else, and drops exactly the statements that are only
      white space and comments. */
  lemma {:induction false} TokensSplit(stmts: seq<seq<Token>>)
    requires forall i :: 0 <= i < |stmts| ==> TokensOk(stmts[i]) && NoNul(Text(stmts[i]))
    ensures Scan(Code, Joined(stmts), "") == Some(Kept(stmts))
    ensures Split(Joined(stmts)) == if Kept(stmts) == [] then None else Some(Kept(stmts))
  {
    hide TokensOk, Text, Strip, IsIdle, Empty;
    if stmts == [] {
      NothingLeft();
    } else {
      hide Scan;
      var ts, rest := stmts[0], Joined(stmts[1..]);
      assert forall i :: 0 <= i < |stmts[1..]| ==> stmts[1..][i] == stmts[i + 1];
      TokensSplit(stmts[1..]);
      TextScans(ts, ";" + rest, "");
      assert Text(ts) + (";" + rest) == Joined(stmts) && "" + Text(ts) == Text(ts);
      AtSemicolon(Text(ts), rest);
      EmptyTokens(ts);
      EmptyStripped(Text(ts));
    }
  }

  lemma NothingLeft()
    ensures Scan(Code, "", "") == Some([])
  {
    assert Strip("") == "";
  }

  lemma AtSemicolon(buf: string, rest: string)
    ensures Scan(Code, ";" + rest, buf) == ScanAfter(buf, rest)
  {
    assert (";" + rest)[1..] == rest;
  }

  // ---- values

  /** A value with each quote and each backslash escaped by a backslash. */
  function Slashed(q: char, value: string): seq<Item>
  {
    if value == "" then [] else [if value[0] == q || value[0] == '\\' then Escaped(value[0]) else Plain(value[0])] + Slashed(q, value[1..])
  }

  /** A value with each quote doubled, and each backslash escaped. */
  function Redoubled(q: char, value: string): seq<Item>
  {
    if value == "" then []
    else [if value[0] == q then Doubled else if value[0] == '\\' then Escaped('\\') else Plain(value[0])] + Redoubled(q, value[1..])
  }

  lemma {:induction false} EscapingsAreItems(q: char, value: string)
    ensures forall i :: i in Slashed(q, value) || i in Redoubled(q, value) ==> i.Plain? ==> i.c != q && i.c != '\\'
  {
    if value != "" { EscapingsAreItems(q, value[1..]); }
  }

  /** A quoted value is one token, whatever it contains: no semicolon in it splits, and the first one after it does. */
  lemma ValueNeverSplits(q: QuoteChar, value: string, doubled: bool, rest: string)
    ensures var t := TokenText(Quoted(q, if doubled then Redoubled(q, value) else Slashed(q, value)));
            Scan(Code, t + ";" + rest, "") == ScanAfter(t, rest) && Split(t) == Some([t])
  {
    hide Scan, ItemsText, Slashed, Redoubled, Strip, Empty;
    EscapingsAreItems(q, value);
    var token := Quoted(q, if doubled then Redoubled(q, value) else Slashed(q, value));
    var t := TokenText(token);
    TokenScans(token, ";" + rest, "");
    assert t + (";" + rest) == t + ";" + rest && "" + t == t;
    AtSemicolon(t, rest);
    TokenScans(token, "", "");
    assert t + "" == t;
    ScanAtEnd(t);
    QuotedIsKept(q, t);
  }

  lemma ScanAtEnd(buf: string)
    ensures Scan(Code, "", buf) == Some(Emit(buf))
  {}

  lemma QuotedIsKept(q: QuoteChar, t: string)
    requires |t| >= 2 && t[0] == q && t[|t| - 1] == q
    ensures Emit(t) == [t]
  {
    StripOf("", t, "");
    assert "" + t + "" == t;
  }
}
