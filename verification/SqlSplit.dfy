/** The ClickHouse statement splitter (infrastructure/bootstrap/lib/clickhouse_sql_split.rb). */
module SqlSplit {
  import opened Common

  predicate IsQuote(c: char) { c == '\'' || c == '"' || c == '`' }

  type QuoteChar = c: char | IsQuote(c) witness '`'

  datatype State = Code | LineComment | BlockComment | Quote(q: QuoteChar)

  /** Does s start with the two characters? */
  predicate Starts(s: string, a: char, b: char) { |s| >= 2 && s[0] == a && s[1] == b }

  /** How many characters one turn of the lexer consumes, and the state after it. A semicolon in code is not consumed here. */
  function Take(st: State, s: string): (r: (nat, State))
    requires s != []
    ensures 1 <= r.0 <= |s|
  {
    match st
    case Code =>
      if Starts(s, '-', '-') then (2, LineComment)
      else if Starts(s, '/', '*') then (2, BlockComment)
      else if IsQuote(s[0]) then (1, Quote(s[0]))
      else (1, Code)
    case LineComment => (1, if s[0] == '\n' then Code else LineComment)
    case BlockComment => if Starts(s, '*', '/') then (2, Code) else (1, BlockComment)
    case Quote(q) =>
      if s[0] == '\\' then (if |s| >= 2 then 2 else 1, Quote(q))
      else if s[0] == q then if |s| >= 2 && s[1] == q then (2, Quote(q)) else (1, Code)
      else (1, Quote(q))
  }

  // ---- strip and emptiness

  /** What String#strip removes; \s in a pattern matches the same characters except NUL. */
  predicate IsStripped(c: char) { c == 0 as char || IsBlank(c) }

  predicate IsBlank(c: char) { c == ' ' || 9 <= c as int <= 13 }

  function StripLeft(s: string): string { if s != [] && IsStripped(s[0]) then StripLeft(s[1..]) else s }

  function StripRight(s: string): string
  {
    if s != [] && IsStripped(s[|s| - 1]) then StripRight(s[..|s| - 1]) else s
  }

  function Strip(s: string): string { StripRight(StripLeft(s)) }

  /** Only comments and white space from here on. */
  predicate EmptyFrom(st: State, s: string)
    requires !st.Quote?
    decreases |s|
  {
    if s == [] then true
    else
      match st
      case Code =>
        if Starts(s, '-', '-') then EmptyFrom(LineComment, s[2..])
        else if Starts(s, '/', '*') then EmptyFrom(BlockComment, s[2..])
        else IsBlank(s[0]) && EmptyFrom(Code, s[1..])
      case LineComment => EmptyFrom(if s[0] == '\n' then Code else LineComment, s[1..])
      case BlockComment => if Starts(s, '*', '/') then EmptyFrom(Code, s[2..]) else EmptyFrom(BlockComment, s[1..])
  }

  predicate Empty(stmt: string) { Strip(stmt) == "" || EmptyFrom(Code, stmt) }

  method StatementEmpty(stmt: string) returns (r: bool)
    ensures r == Empty(stmt)
  {
    if Strip(stmt) == "" { return true; }
    var i, state := 0, Code;
    while i < |stmt|
      invariant 0 <= i <= |stmt| && !state.Quote?
      invariant EmptyFrom(state, stmt[i..]) == EmptyFrom(Code, stmt)
    {
      var ch := stmt[i];
      var nxt := if i + 1 < |stmt| then Some(stmt[i + 1]) else None;
      assert stmt[i..][1..] == stmt[i + 1..];
      assert i + 2 <= |stmt| ==> stmt[i..][2..] == stmt[i + 2..];
      match state {
        case Code =>
          if ch == '-' && nxt == Some('-') {
            i, state := i + 2, LineComment;
          } else if ch == '/' && nxt == Some('*') {
            i, state := i + 2, BlockComment;
          } else if IsBlank(ch) {
            i := i + 1;
          } else {
            return false;
          }
        case LineComment =>
          i := i + 1;
          if ch == '\n' { state := Code; }
        case BlockComment =>
          if ch == '*' && nxt == Some('/') {
            i, state := i + 2, Code;
          } else {
            i := i + 1;
          }
      }
    }
    return true;
  }

  // ---- splitting

  function Emit(buf: string): seq<string> { if Empty(Strip(buf)) then [] else [Strip(buf)] }

  /** The statements of the rest of the text, when buf has been collected since the last one; None when it ends inside a
      quote or a block comment. */
  function Scan(st: State, s: string, buf: string): Option<seq<string>>
    decreases |s|
  {
    if s == [] then
      if st.Quote? || st.BlockComment? then None else Some(Emit(buf))
    else if st.Code? && s[0] == ';' then
      var rest := Scan(Code, s[1..], "");
      if rest.None? then None else Some(Emit(buf) + rest.value)
    else
      var (k, st') := Take(st, s);
      Scan(st', s[k..], buf + s[..k])
  }

  /** split; None stands for its errors. */
  function Split(sql: string): Option<seq<string>>
  {
    var stmts := Scan(Code, sql, "");
    if stmts == Some([]) then None else stmts
  }

  /** The text from i on scans to what the whole text scans to, after what was already found. */
  ghost predicate Scanned(sql: string, i: nat, st: State, buf: string, found: seq<string>)
    requires i <= |sql|
  {
    var rest := Scan(st, sql[i..], buf);
    Scan(Code, sql, "") == if rest.None? then None else Some(found + rest.value)
  }

  lemma TakeTurn(sql: string, i: nat, st: State, buf: string, found: seq<string>)
    requires i < |sql| && Scanned(sql, i, st, buf, found) && !(st.Code? && sql[i] == ';')
    ensures var (k, st') := Take(st, sql[i..]);
            i + k <= |sql| && Scanned(sql, i + k, st', buf + sql[i..i + k], found)
  {
    var (k, st') := Take(st, sql[i..]);
    assert sql[i..][k..] == sql[i + k..] && sql[i..][..k] == sql[i..i + k];
  }

  lemma EmitTurn(sql: string, i: nat, buf: string, found: seq<string>)
    requires i < |sql| && Scanned(sql, i, Code, buf, found) && sql[i] == ';'
    ensures Scanned(sql, i + 1, Code, "", found + Emit(buf))
  {
    assert sql[i..][1..] == sql[i + 1..];
    var rest := Scan(Code, sql[i + 1..], "");
    assert rest.Some? ==> found + (Emit(buf) + rest.value) == found + Emit(buf) + rest.value;
  }

  method SplitStatements(sql: string) returns (r: Option<seq<string>>)
    ensures r == Split(sql)
  {
    hide Scan, Scanned;
    var statements: seq<string> := [];
    var buf := "";
    var i, n, state := 0, |sql|, Code;
    ScanStart(sql);
    while i < n
      invariant 0 <= i <= n && Scanned(sql, i, state, buf, statements)
      decreases n - i
    {
      var ch := sql[i];
      var nxt := if i + 1 < n then Some(sql[i + 1]) else None;
      if state.Code? && ch == ';' {
        EmitTurn(sql, i, buf, statements);
        var stmt := Strip(buf);
        var empty := StatementEmpty(stmt);
        assert statements + [] == statements;
        if !empty { statements := statements + [stmt]; }
        buf := "";
        i := i + 1;
        continue;
      }
      TakeTurn(sql, i, state, buf, statements);
      match state {
        case Code =>
          if ch == '-' && nxt == Some('-') {
            buf, i, state := buf + sql[i..i + 2], i + 2, LineComment;
          } else if ch == '/' && nxt == Some('*') {
            buf, i, state := buf + sql[i..i + 2], i + 2, BlockComment;
          } else if IsQuote(ch) {
            buf, i, state := buf + sql[i..i + 1], i + 1, Quote(ch);
          } else {
            buf, i := buf + sql[i..i + 1], i + 1;
          }
        case LineComment =>
          buf, i := buf + sql[i..i + 1], i + 1;
          if ch == '\n' { state := Code; }
        case BlockComment =>
          if ch == '*' && nxt == Some('/') {
            buf, i, state := buf + sql[i..i + 2], i + 2, Code;
          } else {
            buf, i := buf + sql[i..i + 1], i + 1;
          }
        case Quote(q) =>
          if ch == '\\' {
            if i + 1 < n {
              buf, i := buf + sql[i..i + 2], i + 2;
            } else {
              buf, i := buf + sql[i..i + 1], i + 1;
            }
          } else if ch == q {
            if nxt == Some(q) {
              buf, i := buf + sql[i..i + 2], i + 2;
            } else {
              buf, i, state := buf + sql[i..i + 1], i + 1, Code;
            }
          } else {
            buf, i := buf + sql[i..i + 1], i + 1;
          }
      }
    }
    ScanEnd(sql, state, buf, statements);
    if state.Quote? || state.BlockComment? { return None; }
    var trailing := Strip(buf);
    var empty := StatementEmpty(trailing);
    assert statements + [] == statements;
    if !empty { statements := statements + [trailing]; }
    if |statements| == 0 { return None; }
    return Some(statements);
  }

  lemma ScanStart(sql: string)
    ensures Scanned(sql, 0, Code, "", [])
  {
    assert sql[0..] == sql;
    var rest := Scan(Code, sql, "");
    assert rest.Some? ==> [] + rest.value == rest.value;
  }

  lemma ScanEnd(sql: string, st: State, buf: string, found: seq<string>)
    requires Scanned(sql, |sql|, st, buf, found)
    ensures Scan(Code, sql, "") == if st.Quote? || st.BlockComment? then None else Some(found + Emit(buf))
  {
    assert sql[|sql|..] == [];
  }

  // ---- what a statement is

  /** The lexer's state after the whole text, or None when a semicolon in code comes first. */
  function RunOver(st: State, s: string): Option<State>
    decreases |s|
  {
    if s == [] then Some(st)
    else if st.Code? && s[0] == ';' then None
    else RunOver(Take(st, s).1, s[Take(st, s).0..])
  }

  /** Text that ends where a semicolon would end a statement, or in a line comment. */
  predicate Open(f: Option<State>) { f == Some(Code) || f == Some(LineComment) }

  predicate IsStatement(t: string) { Strip(t) == t && !Empty(t) && Open(RunOver(Code, t)) }

  /** A character after which the lexer behaves as at the end of the text. */
  predicate Inert(c: char) { c != '-' && c != '*' && c != '/' && !IsQuote(c) }

  /** The turn over the end of a text is the same when an inert character follows, except after a backslash in a quote. */
  lemma TakeStable(st: State, s: string, x: string)
    requires s != [] && (x == [] || Inert(x[0]))
    ensures |s| >= 2 || x == [] || !(st.Quote? && s[0] == '\\') ==> Take(st, s + x) == Take(st, s)
  {
    assert |s| >= 2 ==> (s + x)[1] == s[1];
  }

  /** A backslash at the end of a text leaves the quote open. */
  lemma LoneBackslash(st: State, a: string)
    ensures st.Quote? && |a| == 1 && a[0] == '\\' ==> !Open(RunOver(st, a))
  {
    if st.Quote? && |a| == 1 && a[0] == '\\' {
      assert a[1..] == [];
      assert RunOver(st, a) == Some(st);
    }
  }

  /** With its text up to the first semicolon in code, the lexer comes back to code there. */
  lemma {:induction false} RunToSemicolon(st: State, a: string, b: string)
    requires RunOver(st, a) == Some(Code)
    ensures Scan(st, a + ";" + b, "") == ScanAfter(a, b)
    decreases |a|
  {
    ScanBuffer(st, a, b, "");
    assert "" + a == a;
  }

  function ScanAfter(buf: string, b: string): Option<seq<string>>
  {
    var rest := Scan(Code, b, "");
    if rest.None? then None else Some(Emit(buf) + rest.value)
  }

  lemma {:induction false} ScanBuffer(st: State, a: string, b: string, buf: string)
    requires RunOver(st, a) == Some(Code)
    ensures Scan(st, a + ";" + b, buf) == ScanAfter(buf + a, b)
    decreases |a|
  {
    var s := a + ";" + b;
    if a == [] {
      assert s[0] == ';' && s[1..] == b && buf + a == buf;
    } else {
      var (k, st') := Take(st, a);
      assert s == a + (";" + b);
      TakeStable(st, a, ";" + b);
      LoneBackslash(st, a);
      assert s[k..] == a[k..] + ";" + b && s[..k] == a[..k];
      ScanBuffer(st', a[k..], b, buf + a[..k]);
      assert buf + a[..k] + a[k..] == buf + a;
    }
  }

  /** Text without a semicolon in code is one piece. */
  lemma {:induction false} ScanWhole(st: State, t: string, buf: string)
    requires Open(RunOver(st, t))
    ensures Scan(st, t, buf) == Some(Emit(buf + t))
    decreases |t|
  {
    if t == [] {
      assert buf + t == buf;
    } else {
      var (k, st') := Take(st, t);
      ScanWhole(st', t[k..], buf + t[..k]);
      assert buf + t[..k] + t[k..] == buf + t;
    }
  }

  /** A line break after a text that ends in code or in a line comment ends in code. */
  lemma {:induction false} RunNewline(st: State, t: string)
    requires Open(RunOver(st, t))
    ensures RunOver(st, t + "\n") == Some(Code)
    decreases |t|
  {
    if t == [] {
      assert t + "\n" == "\n";
      assert "\n"[1..] == [];
    } else {
      var (k, st') := Take(st, t);
      TakeStable(st, t, "\n");
      LoneBackslash(st, t);
      assert (t + "\n")[k..] == t[k..] + "\n";
      RunNewline(st', t[k..]);
    }
  }

  // ---- strip

  predicate AllStripped(w: string) { forall i :: 0 <= i < |w| ==> IsStripped(w[i]) }

  lemma {:induction false} StripLeftParts(s: string)
    ensures var t := StripLeft(s); |t| <= |s| && s == s[..|s| - |t|] + t && AllStripped(s[..|s| - |t|]) && (t != [] ==> !IsStripped(t[0]))
  {
    if s != [] && IsStripped(s[0]) {
      StripLeftParts(s[1..]);
      var t := StripLeft(s);
      assert s[..|s| - |t|] == [s[0]] + s[1..][..|s| - 1 - |t|];
    }
  }

  lemma {:induction false} StripRightParts(s: string)
    ensures var t := StripRight(s); |t| <= |s| && t == s[..|t|] && AllStripped(s[|t|..]) && (t != [] ==> !IsStripped(t[|t| - 1]))
  {
    if s != [] && IsStripped(s[|s| - 1]) {
      StripRightParts(s[..|s| - 1]);
      var t := StripRight(s);
      assert s[|t|..] == s[..|s| - 1][|t|..] + [s[|s| - 1]];
    }
  }

  /** Stripping gives the text between leading and trailing white space. */
  lemma StripParts(s: string) returns (a: string, b: string)
    ensures s == a + Strip(s) + b && AllStripped(a) && AllStripped(b)
    ensures Strip(s) != [] ==> !IsStripped(Strip(s)[0]) && !IsStripped(Strip(s)[|Strip(s)| - 1])
  {
    StripLeftParts(s);
    var l := StripLeft(s);
    StripRightParts(l);
    a, b := s[..|s| - |l|], l[|Strip(s)|..];
    assert l == Strip(s) + b;
  }

  /** Text that neither starts nor ends with white space is what stripping gives, with any white space around it. */
  lemma StripOf(a: string, t: string, b: string)
    requires AllStripped(a) && AllStripped(b) && (t != [] ==> !IsStripped(t[0]) && !IsStripped(t[|t| - 1]))
    ensures Strip(a + t + b) == t
  {
    if t == [] {
      assert a + t + b == a + b;
      AllGone(a + b);
    } else {
      LeftOf(a, t + b);
      assert a + t + b == a + (t + b);
      RightOf(t, b);
    }
  }

  lemma {:induction false} AllGone(w: string)
    requires AllStripped(w)
    ensures StripLeft(w) == []
  {
    if w != [] { AllGone(w[1..]); }
  }

  lemma {:induction false} LeftOf(a: string, x: string)
    requires AllStripped(a) && x != [] && !IsStripped(x[0])
    ensures StripLeft(a + x) == x
  {
    if a == [] {
      assert a + x == x;
    } else {
      assert (a + x)[1..] == a[1..] + x;
      LeftOf(a[1..], x);
    }
  }

  lemma {:induction false} RightOf(t: string, b: string)
    requires AllStripped(b) && t != [] && !IsStripped(t[|t| - 1])
    ensures StripRight(t + b) == t
  {
    if b == [] {
      assert t + b == t;
    } else {
      assert (t + b)[..|t + b| - 1] == t + b[..|b| - 1];
      RightOf(t, b[..|b| - 1]);
    }
  }

  lemma StripTwice(s: string)
    ensures Strip(Strip(s)) == Strip(s)
  {
    var a, b := StripParts(s);
    assert "" + Strip(s) + "" == Strip(s);
    StripOf("", Strip(s), "");
  }

  // ---- pieces of a text are statements

  /** Leading white space does not matter. */
  lemma {:induction false} RunAfterBlank(a: string, t: string)
    requires AllStripped(a)
    ensures RunOver(Code, a + t) == RunOver(Code, t)
    decreases |a|
  {
    if a == [] {
      assert a + t == t;
    } else {
      assert (a + t)[1..] == a[1..] + t;
      RunAfterBlank(a[1..], t);
    }
  }

  /** Without its trailing white space a text still ends in code or in a line comment. */
  lemma {:induction false} RunBeforeBlank(st: State, t: string, b: string)
    requires AllStripped(b) && Open(RunOver(st, t + b))
    ensures Open(RunOver(st, t))
    decreases |t|
  {
    if t == [] {
      assert t + b == b;
      if st.Quote? || st.BlockComment? { BlankStays(st, b); }
    } else {
      TakeStable(st, t, b);
      if st.Quote? && |t| == 1 && t[0] == '\\' && b != [] {
        assert (t + b)[2..] == b[1..];
        assert Take(st, t + b) == (2, st);
        BlankStays(st, b[1..]);
      } else {
        var (k, st') := Take(st, t);
        assert (t + b)[k..] == t[k..] + b;
        RunBeforeBlank(st', t[k..], b);
      }
    }
  }

  /** White space neither ends a quote nor a block comment. */
  lemma {:induction false} BlankStays(st: State, b: string)
    requires AllStripped(b) && (st.BlockComment? || st.Quote?)
    ensures RunOver(st, b) == Some(st)
    decreases |b|
  {
    if b != [] { BlankStays(st, b[1..]); }
  }

  /** With x after it, the lexer gets over exactly the text a, without a semicolon in code, and is then in state f. */
  predicate Reaches(st: State, a: string, x: string, f: State)
    decreases |a|
  {
    if a == [] then st == f
    else
      var (k, st') := Take(st, a + x);
      !(st.Code? && a[0] == ';') && k <= |a| && Reaches(st', a[k..], x, f)
  }

  lemma {:induction false} ReachesFurther(st: State, a: string, x: string, f: State)
    requires Reaches(st, a, x, f) && x != [] && !(f.Code? && x[0] == ';')
    ensures var (k, f') := Take(f, x); Reaches(st, a + x[..k], x[k..], f')
    decreases |a|
  {
    hide Take;
    var (k, f') := Take(f, x);
    assert x[..k] + x[k..] == x;
    assert a + x[..k] + x[k..] == a + x;
    if a == [] {
      assert a + x[..k] == x[..k] && (a + x[..k])[k..] == [];
    } else {
      var (j, st') := Take(st, a + x);
      ReachesFurther(st', a[j..], x, f);
      assert (a + x[..k])[j..] == a[j..] + x[..k];
    }
  }

  /** Before a semicolon or at the end, what was reached in context is reached by the text alone. */
  lemma {:induction false} ReachedAlone(st: State, a: string, x: string, f: State)
    requires Reaches(st, a, x, f) && (x == [] || x[0] == ';')
    ensures RunOver(st, a) == Some(f)
    decreases |a|
  {
    if a != [] {
      var (k, st') := Take(st, a + x);
      TakeStable(st, a, x);
      ReachedAlone(st', a[k..], x, f);
    }
  }

  lemma PieceIsStatement(buf: string)
    requires Open(RunOver(Code, buf))
    ensures forall t :: t in Emit(buf) ==> IsStatement(t)
  {
    hide Empty;
    var a, b := StripParts(buf);
    var t := Strip(buf);
    StripTwice(buf);
    assert buf == a + (t + b);
    RunAfterBlank(a, t + b);
    RunBeforeBlank(Code, t, b);
  }

  lemma {:induction false} PiecesAreStatements(st: State, s: string, buf: string)
    requires Reaches(Code, buf, s, st) && Scan(st, s, buf).Some?
    ensures forall t :: t in Scan(st, s, buf).value ==> IsStatement(t)
    decreases |s|
  {
    hide IsStatement, Emit;
    if s == [] {
      ReachedAlone(Code, buf, s, st);
      PieceIsStatement(buf);
    } else if st.Code? && s[0] == ';' {
      ReachedAlone(Code, buf, s, st);
      PieceIsStatement(buf);
      PiecesAreStatements(Code, s[1..], "");
    } else {
      ReachesFurther(Code, buf, s, st);
      PiecesAreStatements(Take(st, s).1, s[Take(st, s).0..], buf + s[..Take(st, s).0]);
    }
  }

  // ---- main results

  /** Every piece that splitting returns is a statement. */
  lemma SplitGivesStatements(sql: string)
    requires Split(sql).Some?
    ensures Split(sql).value != [] && forall t :: t in Split(sql).value ==> IsStatement(t)
  {
    hide Scan, IsStatement;
    PiecesAreStatements(Code, sql, "");
  }

  /** A statement splits into itself. */
  lemma StatementSplits(t: string)
    requires IsStatement(t)
    ensures Split(t) == Some([t])
  {
    hide Empty, Scan, RunOver;
    ScanWhole(Code, t, "");
    assert "" + t == t;
  }

  function JoinLines(ts: seq<string>): string { if ts == [] then "" else ts[0] + "\n;" + JoinLines(ts[1..]) }

  function JoinPlain(ts: seq<string>): string { if ts == [] then "" else ts[0] + ";" + JoinPlain(ts[1..]) }

  lemma EmitStatement(t: string, b: string)
    requires IsStatement(t) && AllStripped(b)
    ensures Emit(t + b) == [t] && t != ""
  {
    hide RunOver;
    var x, y := StripParts(t);
    assert t != "";
    StripOf("", t, b);
    assert "" + t + b == t + b;
  }

  lemma {:induction false} ScanLines(ts: seq<string>)
    requires forall t :: t in ts ==> IsStatement(t)
    ensures Scan(Code, JoinLines(ts), "") == Some(ts)
  {
    if ts == [] {
      assert Strip("") == "";
    } else {
      hide Scan, Emit, RunOver;
      var t := ts[0];
      assert IsStatement(t);
      RunNewline(Code, t);
      RunToSemicolon(Code, t + "\n", JoinLines(ts[1..]));
      assert t + "\n" + ";" + JoinLines(ts[1..]) == JoinLines(ts);
      EmitStatement(t, "\n");
      ScanLines(ts[1..]);
      assert [t] + ts[1..] == ts;
    }
  }

  /** Splitting text made of statements, each followed by a line break and a semicolon, gives the statements back; so it
      does for the statements of any text that splits. */
  lemma LinesRoundTrip(sql: string)
    requires Split(sql).Some?
    ensures Split(JoinLines(Split(sql).value)) == Split(sql)
    ensures forall t :: t in Split(sql).value ==> Split(t) == Some([t])
  {
    hide Scan, IsStatement;
    SplitGivesStatements(sql);
    ScanLines(Split(sql).value);
    forall t | t in Split(sql).value ensures Split(t) == Some([t]) { StatementSplits(t); }
  }

  // ---- a plain semicolon

  /** Text that is not empty stays so when a semicolon follows. */
  lemma {:induction false} NotEmptyStays(st: State, t: string, x: string)
    requires !st.Quote? && !EmptyFrom(st, t) && x != [] && x[0] == ';'
    ensures !EmptyFrom(st, t + x)
    decreases |t|
  {
    match st {
      case Code =>
        if Starts(t, '-', '-') {
          assert (t + x)[2..] == t[2..] + x;
          NotEmptyStays(LineComment, t[2..], x);
        } else if Starts(t, '/', '*') {
          assert (t + x)[2..] == t[2..] + x;
          NotEmptyStays(BlockComment, t[2..], x);
        } else if IsBlank(t[0]) {
          assert (t + x)[1..] == t[1..] + x;
          NotEmptyStays(Code, t[1..], x);
        }
      case LineComment =>
        assert (t + x)[1..] == t[1..] + x;
        NotEmptyStays(if t[0] == '\n' then Code else LineComment, t[1..], x);
      case BlockComment =>
        if Starts(t, '*', '/') {
          assert (t + x)[2..] == t[2..] + x;
          NotEmptyStays(Code, t[2..], x);
        } else {
          assert (t + x)[1..] == t[1..] + x;
          NotEmptyStays(BlockComment, t[1..], x);
        }
    }
  }

  /** Stripping a text that starts with a visible character keeps everything up to another one. */
  lemma StripKeeps(s: string, i: nat)
    requires i < |s| && !IsStripped(s[0]) && !IsStripped(s[i])
    ensures |s| >= |Strip(s)| > i && Strip(s) == s[..|Strip(s)|]
  {
    StripRightParts(s);
    var rest := s[|StripRight(s)|..];
    assert s == StripRight(s) + rest;
  }

  /** A piece that begins with a statement and a semicolon is longer than the statement. */
  lemma LongPiece(t: string, y: string)
    requires IsStatement(t)
    ensures Emit(t + ";" + y) != [] && |Emit(t + ";" + y)[0]| > |t|
  {
    hide RunOver, Strip, EmptyFrom;
    var s := t + ";" + y;
    var u, v := StripParts(t);
    assert t != "" && !IsStripped(t[0]) && s[0] == t[0];
    StripKeeps(s, |t|);
    var z := Strip(s);
    assert z[..|t|] == s[..|t|] == t;
    assert z == t + z[|t|..] && z[|t|] == s[|t|];
    NotEmptyStays(Code, t, z[|t|..]);
    StripTwice(s);
  }

  /** Whatever follows, the first piece begins with what was collected. */
  lemma {:induction false} FirstPiece(st: State, s: string, t: string, y: string)
    requires IsStatement(t) && Scan(st, s, t + ";" + y).Some?
    ensures var r := Scan(st, s, t + ";" + y).value; r != [] && |r[0]| > |t|
    decreases |s|
  {
    hide IsStatement, Emit;
    LongPiece(t, y);
    if s != [] && !(st.Code? && s[0] == ';') {
      var k := Take(st, s).0;
      assert t + ";" + y + s[..k] == t + ";" + (y + s[..k]);
      FirstPiece(Take(st, s).1, s[k..], t, y + s[..k]);
    }
  }

  /** After a statement that ends in a line comment a semicolon is part of the comment. */
  lemma {:induction false} ScanComment(st: State, a: string, x: string, buf: string)
    requires RunOver(st, a) == Some(LineComment)
    ensures Scan(st, a + ";" + x, buf) == Scan(LineComment, x, buf + a + ";")
    decreases |a|
  {
    var s := a + ";" + x;
    if a == [] {
      assert s[1..] == x && s[..1] == ";" && buf + a == buf;
    } else {
      var (k, st') := Take(st, a);
      assert s == a + (";" + x);
      TakeStable(st, a, ";" + x);
      LoneBackslash(st, a);
      assert s[k..] == a[k..] + ";" + x && s[..k] == a[..k];
      ScanComment(st', a[k..], x, buf + a[..k]);
      assert buf + a[..k] + a[k..] == buf + a;
    }
  }

  lemma {:induction false} ScanPlain(ts: seq<string>)
    requires forall t :: t in ts ==> IsStatement(t)
    ensures Scan(Code, JoinPlain(ts), "") == Some(ts) <==> forall t :: t in ts ==> RunOver(Code, t) == Some(Code)
  {
    if ts == [] {
      assert Strip("") == "";
    } else {
      hide Scan, Emit, RunOver;
      var t, rest := ts[0], JoinPlain(ts[1..]);
      assert IsStatement(t);
      ScanPlain(ts[1..]);
      assert ts == [t] + ts[1..];
      if RunOver(Code, t) == Some(Code) {
        RunToSemicolon(Code, t, rest);
        EmitStatement(t, "");
        assert t + "" == t;
        PlainStep(t, ts, rest);
      } else {
        ScanComment(Code, t, rest, "");
        assert "" + t + ";" == t + ";" + "";
        if Scan(LineComment, rest, t + ";" + "").Some? { FirstPiece(LineComment, rest, t, ""); }
        assert t in ts;
      }
    }
  }

  lemma PlainStep(t: string, ts: seq<string>, rest: string)
    requires ts != [] && ts[0] == t && Emit(t) == [t]
    ensures ScanAfter(t, rest) == Some(ts) <==> Scan(Code, rest, "") == Some(ts[1..])
  {
    hide Scan, Emit;
    var r := Scan(Code, rest, "");
    if r.Some? {
      assert ([t] + r.value)[1..] == r.value;
      assert [t] + ts[1..] == ts;
    }
  }

  /** With a plain semicolon after each statement the round trip works exactly when no statement ends in a line comment. */
  lemma PlainRoundTrip(sql: string)
    requires Split(sql).Some?
    ensures Split(JoinPlain(Split(sql).value)) == Split(sql)
            <==> forall t :: t in Split(sql).value ==> RunOver(Code, t) == Some(Code)
  {
    hide Scan, IsStatement, RunOver;
    SplitGivesStatements(sql);
    ScanPlain(Split(sql).value);
  }

  /** Stripping drops the line break that ends a comment, so a plain semicolon can end up inside the comment. */
  lemma PlainFails()
    ensures var ts := ["a--", "b"];
            Split(JoinLines(ts)) == Some(ts) && Split(JoinPlain(ts)) == Some(["a--;b;"])
  {
    hide Scan, IsStatement, RunOver, JoinLines;
    var ts := ["a--", "b"];
    SmallStatements();
    ScanLines(ts);
    assert ts[1..] == ["b"] && ["b"][1..] == [];
    assert JoinPlain(["b"]) == "b;";
    assert JoinPlain(ts) == "a--;b;";
    LongComment();
  }

  /** Text that starts with a word character and ends in no white space is not empty and not changed by strip. */
  lemma WordStarts(t: string)
    requires t != "" && !IsStripped(t[|t| - 1]) && 'a' <= t[0] <= 'z'
    ensures Strip(t) == t && !Empty(t)
  {}

  lemma SmallStatements()
    ensures IsStatement("a--") && IsStatement("b")
  {
    hide Strip, Empty, RunOver;
    WordStarts("a--");
    WordStarts("b");
    SmallRuns();
  }

  lemma Turn(st: State, s: string, k: nat, st': State)
    requires s != "" && !(st.Code? && s[0] == ';') && Take(st, s) == (k, st')
    ensures RunOver(st, s) == RunOver(st', s[k..]) && RunOver(st', "") == Some(st')
  {}

  lemma SmallRuns()
    ensures RunOver(Code, "a--") == Some(LineComment) && RunOver(Code, "b") == Some(Code)
  {
    hide RunOver;
    Turn(Code, "a--", 1, Code);
    Turn(Code, "--", 2, LineComment);
    Turn(Code, "b", 1, Code);
    assert "a--"[1..] == "--" && "--"[2..] == "" && "b"[1..] == "";
  }

  lemma LongComment()
    ensures Split("a--;b;") == Some(["a--;b;"])
  {
    hide RunOver, Split, Strip, Empty;
    var t := "a--;b;";
    Turn(Code, t, 1, Code);
    Turn(Code, "--;b;", 2, LineComment);
    Turn(LineComment, ";b;", 1, LineComment);
    Turn(LineComment, "b;", 1, LineComment);
    Turn(LineComment, ";", 1, LineComment);
    assert t[1..] == "--;b;" && "--;b;"[2..] == ";b;" && ";b;"[1..] == "b;" && "b;"[1..] == ";" && ";"[1..] == "";
    WordStarts(t);
    StatementSplits(t);
  }
}
