/**
 `split_statements` (scripts/run_sql.py): splits a SQL script on semicolons outside
 single-quoted strings and `--` comments, dropping the comments.
 */
module SqlSplitter {
  import opened Prelude

  datatype Mode = Plain | InString | InComment

  /** What a finished buffer contributes to the output. */
  function Emit(buf: string): seq<string> {
    if Strip(buf) == "" then [] else [Strip(buf)]
  }

  /** The statements still to come from `s`, when the loop is in `mode` holding `buf`. */
  function Scan(s: string, mode: Mode, buf: string): seq<string>
    decreases |s|
  {
    if |s| == 0 then Emit(buf)
    else match mode
      case InComment =>
        if s[0] == '\n' then Scan(s[1..], Plain, buf + [s[0]]) else Scan(s[1..], InComment, buf)
      case InString =>
        if s[0] == '\'' && |s| > 1 && s[1] == '\'' then Scan(s[2..], InString, buf + [s[0]] + [s[1]])
        else Scan(s[1..], if s[0] == '\'' then Plain else InString, buf + [s[0]])
      case Plain =>
        if s[0] == '-' && |s| > 1 && s[1] == '-' then Scan(s[2..], InComment, buf)
        else if s[0] == '\'' then Scan(s[1..], InString, buf + [s[0]])
        else if s[0] == ';' then Emit(buf) + Scan(s[1..], Plain, "")
        else Scan(s[1..], Plain, buf + [s[0]])
  }

  function Split(sql: string): seq<string> {
    Scan(sql, Plain, "")
  }

  method SplitStatements(sql: string) returns (out: seq<string>)
    ensures out == Split(sql)
  {
    out := [];
    var buf := "";
    var inStr, inComment := false, false;
    var i, n := 0, |sql|;
    while i < n
      invariant 0 <= i <= n
      invariant !(inStr && inComment)
      invariant
        var mode := if inComment then InComment else if inStr then InString else Plain;
        out + Scan(sql[i..], mode, buf) == Split(sql)
      decreases n - i
    {
      var ch := sql[i];
      var quoteNext := i + 1 < n && sql[i + 1] == '\'';
      var dashNext := i + 1 < n && sql[i + 1] == '-';
      assert sql[i..][0] == ch && sql[i..][1..] == sql[i + 1..];
      assert i + 1 < n ==> sql[i..][1] == sql[i + 1] && sql[i..][2..] == sql[i + 2..];
      if inComment {
        if ch == '\n' {
          inComment := false;
          buf := buf + [ch];
        }
        i := i + 1;
        continue;
      }
      if inStr {
        buf := buf + [ch];
        if ch == '\'' {
          if quoteNext {
            buf := buf + [sql[i + 1]];
            i := i + 2;
            continue;
          }
          inStr := false;
        }
        i := i + 1;
        continue;
      }
      if ch == '-' && dashNext {
        inComment := true;
        i := i + 2;
        continue;
      }
      if ch == '\'' {
        inStr := true;
        buf := buf + [ch];
        i := i + 1;
        continue;
      }
      if ch == ';' {
        var stmt := Strip(buf);
        if stmt != "" {
          out := out + [stmt];
        }
        buf := "";
        i := i + 1;
        continue;
      }
      buf := buf + [ch];
      i := i + 1;
    }
    var tail := Strip(buf);
    if tail != "" {
      out := out + [tail];
    }
  }

  // ----- an automaton without lookahead that reads statement text

  /** `Quote` and `Dash` remember one character that the next one may still change the meaning of. */
  datatype State = Outside | Dash | Literal | Quote | Broken

  /** `done`: the string literals closed so far; `open`: the one being read. */
  datatype Reader = Reader(state: State, done: seq<string>, open: string)

  function NextOutside(r: Reader, c: char): Reader {
    if c == '\'' then Reader(Literal, r.done, [c])
    else if c == ';' then Reader(Broken, r.done, "")
    else Reader(if c == '-' then Dash else Outside, r.done, "")
  }

  function Next(r: Reader, c: char): Reader {
    match r.state
    case Broken => r
    case Outside => NextOutside(r, c)
    case Dash => if c == '-' then Reader(Broken, r.done, "") else NextOutside(r, c)
    case Literal => Reader(if c == '\'' then Quote else Literal, r.done, r.open + [c])
    case Quote =>
      if c == '\'' then Reader(Literal, r.done, r.open + [c])
      else NextOutside(Reader(Outside, r.done + [r.open], ""), c)
  }

  function Read(text: string): Reader {
    if |text| == 0 then Reader(Outside, [], "") else Next(Read(text[..|text| - 1]), text[|text| - 1])
  }

  /** The text ends outside every literal. */
  predicate Closed(text: string) {
    var q := Read(text).state;
    q == Outside || q == Dash || q == Quote
  }

  function Closings(text: string): seq<string> {
    var r := Read(text);
    if r.state == Quote then r.done + [r.open] else r.done
  }

  function ModeOf(text: string): Mode {
    if Read(text).state == Literal then InString else Plain
  }

  lemma ReadSnoc(text: string, c: char)
    ensures Read(text + [c]) == Next(Read(text), c)
  {
    assert (text + [c])[..|text|] == text;
  }

  lemma {:induction false} BrokenStays(text: string, more: string)
    requires Read(text + more).state != Broken
    ensures Read(text).state != Broken
    decreases |more|
  {
    if |more| == 0 {
      assert text + more == text;
    } else {
      var last := |more| - 1;
      assert text + more == (text + more[..last]) + [more[last]];
      ReadSnoc(text + more[..last], more[last]);
      BrokenStays(text, more[..last]);
    }
  }

  // ----- the loop's buffer against the automaton

  /** The loop's `mode` and the next character fit what the automaton knows of the buffer. */
  predicate Fits(buf: string, mode: Mode, s: string) {
    var q := Read(buf).state;
    match mode
    case InString => q == Literal
    case InComment => Closed(buf)
    case Plain => Closed(buf) && (|s| > 0 ==> !(q == Dash && s[0] == '-') && !(q == Quote && s[0] == '\''))
  }

  lemma {:induction false} StripLeftRead(text: string)
    ensures Read(StripLeft(text)) == Read(text)
  {
    if |text| > 0 && IsSpace(text[0]) {
      StripLeftRead(text[1..]);
      LeadingSpace(text);
    }
  }

  lemma {:induction false} LeadingSpace(text: string)
    requires |text| > 0 && IsSpace(text[0])
    ensures Read(text[1..]) == Read(text)
  {
    var last := |text| - 1;
    if last > 0 {
      LeadingSpace(text[..last]);
      assert text[1..][..last - 1] == text[..last][1..];
    } else {
      assert text[..0] == "";
    }
  }

  /** Trimming keeps where the text ends and every closed literal. */
  lemma {:induction false} StripRightRead(text: string)
    requires Read(text).state != Broken
    ensures Read(StripRight(text)).state != Broken
    ensures Closed(text) ==> Closed(StripRight(text))
    ensures Closings(StripRight(text)) == Closings(text)
  {
    if |text| > 0 && IsSpace(text[|text| - 1]) {
      StripRightRead(text[..|text| - 1]);
    }
  }

  lemma StripRead(text: string)
    requires Read(text).state != Broken
    ensures Read(Strip(text)).state != Broken
    ensures Closed(text) ==> Closed(Strip(text))
    ensures Closings(Strip(text)) == Closings(text)
  {
    StripLeftRead(text);
    StripRightRead(StripLeft(text));
  }

  predicate Trimmed(s: string) {
    |s| > 0 && !IsSpace(s[0]) && !IsSpace(s[|s| - 1])
  }

  lemma {:induction false} StripRightKeepsStart(s: string)
    ensures StripRight(s) <= s
    ensures |StripRight(s)| > 0 ==> !IsSpace(StripRight(s)[|StripRight(s)| - 1])
  {
    if |s| > 0 && IsSpace(s[|s| - 1]) {
      StripRightKeepsStart(s[..|s| - 1]);
    }
  }

  lemma StripTrims(s: string)
    ensures Strip(s) == "" || Trimmed(Strip(s))
  {
    StripLeftStart(s);
    StripRightKeepsStart(StripLeft(s));
  }

  // ----- what every output looks like

  /** Trimmed, readable as one statement, and closed unless it is the last. */
  predicate WellFormed(stmts: seq<string>) {
    && (forall i | 0 <= i < |stmts| :: Trimmed(stmts[i]) && Read(stmts[i]).state != Broken)
    && (forall i | 0 <= i < |stmts| - 1 :: Closed(stmts[i]))
  }

  /** The closed literals of all statements, in order. */
  function AllClosings(stmts: seq<string>): seq<string> {
    if |stmts| == 0 then [] else Closings(stmts[0]) + AllClosings(stmts[1..])
  }

  lemma EmitFacts(buf: string)
    requires Read(buf).state != Broken
    ensures WellFormed(Emit(buf))
    ensures Closed(buf) && |Emit(buf)| > 0 ==> Closed(Emit(buf)[0])
    ensures AllClosings(Emit(buf)) == Closings(buf)
  {
    StripRead(buf);
    StripTrims(buf);
    assert Closings("") == [];
  }

  lemma PrependStatement(first: string, rest: seq<string>)
    requires Trimmed(first) && Read(first).state != Broken && Closed(first) && WellFormed(rest)
    ensures WellFormed([first] + rest)
    ensures AllClosings([first] + rest) == Closings(first) + AllClosings(rest)
  {
    assert ([first] + rest)[1..] == rest;
  }

  lemma PrependEmit(buf: string, rest: seq<string>)
    requires Closed(buf) && WellFormed(rest)
    ensures WellFormed(Emit(buf) + rest)
    ensures AllClosings(Emit(buf) + rest) == Closings(buf) + AllClosings(rest)
  {
    StripRead(buf);
    StripTrims(buf);
    if Strip(buf) == "" {
      assert Emit(buf) + rest == rest && Closings("") == [];
    } else {
      PrependStatement(Strip(buf), rest);
    }
  }

  /** The literals of the script itself, read with the lookahead of the loop and without any buffer. */
  function LiteralsFrom(s: string, mode: Mode, open: string): seq<string>
    decreases |s|
  {
    if |s| == 0 then []
    else match mode
      case InComment => LiteralsFrom(s[1..], if s[0] == '\n' then Plain else InComment, "")
      case InString =>
        if s[0] == '\'' && |s| > 1 && s[1] == '\'' then LiteralsFrom(s[2..], InString, open + [s[0]] + [s[1]])
        else if s[0] == '\'' then [open + [s[0]]] + LiteralsFrom(s[1..], Plain, "")
        else LiteralsFrom(s[1..], InString, open + [s[0]])
      case Plain =>
        if s[0] == '-' && |s| > 1 && s[1] == '-' then LiteralsFrom(s[2..], InComment, "")
        else if s[0] == '\'' then LiteralsFrom(s[1..], InString, [s[0]])
        else LiteralsFrom(s[1..], Plain, "")
  }

  function Literals(sql: string): seq<string> {
    LiteralsFrom(sql, Plain, "")
  }

  function OpenIn(buf: string, mode: Mode): string {
    if mode == InString then Read(buf).open else ""
  }

  /** What `Scan` gives from a state of the loop. */
  predicate Promise(s: string, mode: Mode, buf: string) {
    var out := Scan(s, mode, buf);
    && WellFormed(out)
    && AllClosings(out) == Closings(buf) + LiteralsFrom(s, mode, OpenIn(buf, mode))
  }

  lemma {:induction false} ScanFacts(s: string, mode: Mode, buf: string)
    requires Fits(buf, mode, s)
    ensures Promise(s, mode, buf)
    decreases |s|, 1
  {
    if |s| == 0 {
      EmitFacts(buf);
    } else {
      match mode
      case InComment => ScanFactsInComment(s, buf);
      case InString => ScanFactsInString(s, buf);
      case Plain => ScanFactsPlain(s, buf);
    }
  }

  lemma {:induction false} ScanFactsInComment(s: string, buf: string)
    requires |s| > 0 && Fits(buf, InComment, s)
    ensures Promise(s, InComment, buf)
    decreases |s|, 0
  {
    ReadSnoc(buf, s[0]);
    if s[0] == '\n' {
      ScanFacts(s[1..], Plain, buf + [s[0]]);
    } else {
      ScanFacts(s[1..], InComment, buf);
    }
  }

  lemma {:induction false} ScanFactsInString(s: string, buf: string)
    requires |s| > 0 && Fits(buf, InString, s)
    ensures Promise(s, InString, buf)
    decreases |s|, 0
  {
    ReadSnoc(buf, s[0]);
    if s[0] == '\'' && |s| > 1 && s[1] == '\'' {
      ReadSnoc(buf + [s[0]], s[1]);
      ScanFacts(s[2..], InString, buf + [s[0]] + [s[1]]);
    } else {
      ScanFacts(s[1..], if s[0] == '\'' then Plain else InString, buf + [s[0]]);
    }
  }

  lemma ScanFactsSemicolon(s: string, buf: string)
    requires |s| > 0 && s[0] == ';' && Closed(buf)
    requires Promise(s[1..], Plain, "")
    ensures Promise(s, Plain, buf)
  {
    var rest := Scan(s[1..], Plain, "");
    assert Closings("") == [] && OpenIn("", Plain) == OpenIn(buf, Plain) == "";
    assert AllClosings(rest) == LiteralsFrom(s[1..], Plain, "");
    assert LiteralsFrom(s, Plain, "") == LiteralsFrom(s[1..], Plain, "");
    PrependEmit(buf, rest);
    assert Scan(s, Plain, buf) == Emit(buf) + rest;
  }

  lemma {:induction false} ScanFactsPlain(s: string, buf: string)
    requires |s| > 0 && Fits(buf, Plain, s)
    ensures Promise(s, Plain, buf)
    decreases |s|, 0
  {
    if s[0] == '-' && |s| > 1 && s[1] == '-' {
      ScanFacts(s[2..], InComment, buf);
    } else if s[0] == ';' {
      ScanFacts(s[1..], Plain, "");
      ScanFactsSemicolon(s, buf);
    } else {
      ReadSnoc(buf, s[0]);
      var next := buf + [s[0]];
      var mode := if s[0] == '\'' then InString else Plain;
      assert Read(next).open == if s[0] == '\'' then [s[0]] else "";
      assert Closings(next) == Closings(buf);
      assert Fits(next, mode, s[1..]);
      ScanFacts(s[1..], mode, next);
    }
  }

  /** Every statement is nonempty and trimmed, readable as one statement, and only the last may end inside a literal. */
  lemma SplitIsWellFormed(sql: string)
    ensures WellFormed(Split(sql))
  {
    ScanFacts(sql, Plain, "");
  }

  /** Every string literal of the script, doubled quotes included, survives verbatim and in order. */
  lemma LiteralsSurvive(sql: string)
    ensures AllClosings(Split(sql)) == Literals(sql)
  {
    ScanFacts(sql, Plain, "");
    assert Closings("") == [];
  }

  // ----- reading a statement again

  lemma TakeOne(buf: string, t: string)
    requires |t| > 0
    ensures (buf + [t[0]]) + t[1..] == buf + t
  {
  }

  /** Two characters that the loop takes together: a doubled quote in a string, or the start of a comment. */
  predicate IsPair(buf: string, s: string) {
    && |s| > 1
    && ((ModeOf(buf) == InString && s[0] == '\'' && s[1] == '\'')
        || (ModeOf(buf) == Plain && s[0] == '-' && s[1] == '-'))
  }

  lemma ScanOne(buf: string, s: string)
    requires |s| > 0 && !IsPair(buf, s) && Fits(buf, ModeOf(buf), s)
    requires Read(buf + [s[0]]).state != Broken
    ensures Scan(s, ModeOf(buf), buf) == Scan(s[1..], ModeOf(buf + [s[0]]), buf + [s[0]])
    ensures Fits(buf + [s[0]], ModeOf(buf + [s[0]]), s[1..])
  {
    ReadSnoc(buf, s[0]);
  }

  lemma ScanQuotePair(buf: string, s: string)
    requires |s| > 1 && s[0] == '\'' && s[1] == '\'' && Read(buf).state == Literal
    ensures
      var two := buf + [s[0]] + [s[1]];
      && Read(two).state == Literal
      && Scan(s, InString, buf) == Scan(s[2..], InString, two)
  {
    ReadSnoc(buf, s[0]);
    ReadSnoc(buf + [s[0]], s[1]);
  }

  lemma TwoDashes(buf: string)
    requires ModeOf(buf) == Plain
    ensures Read(buf + ['-'] + ['-']).state == Broken
  {
    ReadSnoc(buf, '-');
    ReadSnoc(buf + ['-'], '-');
  }

  lemma SplitAfterTwo(buf: string, t: string)
    requires |t| > 1
    ensures buf + [t[0]] + [t[1]] + t[2..] == buf + t
  {
    assert t == [t[0]] + [t[1]] + t[2..];
  }

  lemma DashesBreak(buf: string, t: string)
    requires |t| > 1 && t[0] == '-' && t[1] == '-' && ModeOf(buf) == Plain
    ensures Read(buf + t).state == Broken
  {
    TwoDashes(buf);
    hide Read, ModeOf;
    SplitAfterTwo(buf, t);
    if Read(buf + t).state != Broken {
      BrokenStays(buf + ['-'] + ['-'], t[2..]);
    }
  }

  /** A text the automaton accepts never starts a comment. */
  lemma NoComment(buf: string, t: string, rest: string)
    requires |t| > 0 && Read(buf + t).state != Broken && ModeOf(buf) == Plain
    requires rest == "" || rest[0] == ';'
    ensures !IsPair(buf, t + rest)
  {
    hide Read;
    if |t| > 1 && t[0] == '-' && t[1] == '-' {
      DashesBreak(buf, t);
    }
  }

  /** Splitting a text the automaton accepts only moves it to the buffer. */
  lemma {:induction false} Reread(buf: string, t: string, rest: string)
    requires Read(buf + t).state != Broken
    requires rest == "" || (rest[0] == ';' && Closed(buf + t))
    requires Fits(buf, ModeOf(buf), t + rest)
    ensures Scan(t + rest, ModeOf(buf), buf) == Scan(rest, ModeOf(buf + t), buf + t)
    decreases |t|
  {
    var s := t + rest;
    if |t| == 0 {
      assert buf + t == buf && s == rest;
    } else {
      TakeOne(buf, t);
      BrokenStays(buf + [t[0]], t[1..]);
      assert s[1..] == t[1..] + rest;
      if ModeOf(buf) == InString && IsPair(buf, s) {
        assert |t| > 1;
        ScanQuotePair(buf, s);
        TakeOne(buf + [t[0]], t[1..]);
        assert t[1..][1..] == t[2..] && s[2..] == t[2..] + rest;
        Reread(buf + [t[0]] + [t[1]], t[2..], rest);
      } else {
        if ModeOf(buf) == Plain {
          NoComment(buf, t, rest);
        }
        ScanOne(buf, s);
        Reread(buf + [t[0]], t[1..], rest);
      }
    }
  }

  lemma TrimmedIsItsOwnStrip(s: string)
    requires Trimmed(s)
    ensures Emit(s) == [s]
  {
  }

  lemma {:induction false} SplitOfJoin(stmts: seq<string>)
    requires WellFormed(stmts)
    ensures Split(Join(stmts, ";")) == stmts
  {
    if |stmts| > 0 {
      var first := stmts[0];
      TrimmedIsItsOwnStrip(first);
      assert "" + first == first;
      if |stmts| == 1 {
        assert first + "" == first;
        Reread("", first, "");
      } else {
        var rest := ";" + Join(stmts[1..], ";");
        Reread("", first, rest);
        assert rest[1..] == Join(stmts[1..], ";");
        SplitOfJoin(stmts[1..]);
        assert [first] + stmts[1..] == stmts;
      }
    } else {
      assert Strip("") == "";
    }
  }

  /** For every script: joining its statements with `;` and splitting again gives the same statements. */
  lemma SplitRoundTrip(sql: string)
    ensures Split(Join(Split(sql), ";")) == Split(sql)
  {
    SplitIsWellFormed(sql);
    SplitOfJoin(Split(sql));
  }

  lemma SemicolonInLiteral(a: string, rest: string)
    requires Read(a + [';'] + rest).state != Broken
    ensures Read(a).state == Literal
  {
    ReadSnoc(a, ';');
    BrokenStays(a + [';'], rest);
    hide Read;
  }

  lemma DashesInLiteral(a: string, rest: string)
    requires Read(a + ['-'] + ['-'] + rest).state != Broken
    ensures Read(a).state == Literal
  {
    ReadSnoc(a, '-');
    ReadSnoc(a + ['-'], '-');
    BrokenStays(a + ['-'] + ['-'], rest);
    hide Read;
  }

  lemma CutOne(s: string, k: nat)
    requires k < |s|
    ensures s[..k] + [s[k]] + s[k + 1..] == s
  {
  }

  lemma CutTwo(s: string, k: nat)
    requires k + 1 < |s|
    ensures s[..k] + [s[k]] + [s[k + 1]] + s[k + 2..] == s
  {
  }

  /** No `;` and no `--` stands outside a literal of any output statement. */
  lemma NoSeparatorOutsideLiterals(sql: string, stmt: string, k: nat)
    requires stmt in Split(sql) && k < |stmt|
    requires stmt[k] == ';' || (stmt[k] == '-' && k + 1 < |stmt| && stmt[k + 1] == '-')
    ensures Read(stmt[..k]).state == Literal
  {
    SplitIsWellFormed(sql);
    hide Read;
    if stmt[k] == ';' {
      CutOne(stmt, k);
      SemicolonInLiteral(stmt[..k], stmt[k + 1..]);
    } else {
      CutTwo(stmt, k);
      DashesInLiteral(stmt[..k], stmt[k + 2..]);
    }
  }

  // ----- nothing but comments, separators and outer whitespace is lost

  /** The script without its comments and without the separating semicolons. */
  function BodyFrom(s: string, mode: Mode): string
    decreases |s|
  {
    if |s| == 0 then ""
    else match mode
      case InComment => if s[0] == '\n' then [s[0]] + BodyFrom(s[1..], Plain) else BodyFrom(s[1..], InComment)
      case InString =>
        if s[0] == '\'' && |s| > 1 && s[1] == '\'' then [s[0]] + ([s[1]] + BodyFrom(s[2..], InString))
        else [s[0]] + BodyFrom(s[1..], if s[0] == '\'' then Plain else InString)
      case Plain =>
        if s[0] == '-' && |s| > 1 && s[1] == '-' then BodyFrom(s[2..], InComment)
        else if s[0] == ';' then BodyFrom(s[1..], Plain)
        else [s[0]] + BodyFrom(s[1..], if s[0] == '\'' then InString else Plain)
  }

  function DropSpaces(s: string): string {
    if |s| == 0 then "" else (if IsSpace(s[0]) then "" else [s[0]]) + DropSpaces(s[1..])
  }

  function Concat(stmts: seq<string>): string {
    if |stmts| == 0 then "" else stmts[0] + Concat(stmts[1..])
  }

  lemma {:induction false} DropSpacesConcat(a: string, b: string)
    ensures DropSpaces(a + b) == DropSpaces(a) + DropSpaces(b)
  {
    if |a| == 0 {
      assert a + b == b;
    } else {
      assert (a + b)[1..] == a[1..] + b;
      DropSpacesConcat(a[1..], b);
    }
  }

  lemma {:induction false} DropSpacesStripLeft(s: string)
    ensures DropSpaces(StripLeft(s)) == DropSpaces(s)
  {
    if |s| > 0 && IsSpace(s[0]) {
      DropSpacesStripLeft(s[1..]);
    }
  }

  lemma {:induction false} DropSpacesStripRight(s: string)
    ensures DropSpaces(StripRight(s)) == DropSpaces(s)
  {
    if |s| > 0 && IsSpace(s[|s| - 1]) {
      var cut := s[..|s| - 1];
      DropSpacesStripRight(cut);
      DropSpacesConcat(cut, [s[|s| - 1]]);
      assert s == cut + [s[|s| - 1]] && DropSpaces([s[|s| - 1]]) == "";
    }
  }

  lemma EmitKeeps(buf: string)
    ensures DropSpaces(Concat(Emit(buf))) == DropSpaces(buf)
  {
    DropSpacesStripLeft(buf);
    DropSpacesStripRight(StripLeft(buf));
    if Strip(buf) != "" {
      assert Emit(buf)[1..] == [] && Concat(Emit(buf)) == Strip(buf) + "" == Strip(buf);
    }
  }

  lemma ConcatAppend(head: seq<string>, rest: seq<string>)
    requires |head| <= 1
    ensures Concat(head + rest) == Concat(head) + Concat(rest)
  {
    if |head| == 0 {
      assert head + rest == rest;
    } else {
      assert (head + rest)[1..] == rest && head[1..] == [] && Concat(head) == head[0] + "" == head[0];
    }
  }

  lemma EmitThen(buf: string, rest: seq<string>, body: string)
    requires DropSpaces(Concat(rest)) == DropSpaces("" + body)
    ensures DropSpaces(Concat(Emit(buf) + rest)) == DropSpaces(buf + body)
  {
    assert "" + body == body;
    EmitKeeps(buf);
    ConcatAppend(Emit(buf), rest);
    DropSpacesConcat(Concat(Emit(buf)), Concat(rest));
    DropSpacesConcat(buf, body);
  }

  predicate Keeps(s: string, mode: Mode, buf: string) {
    DropSpaces(Concat(Scan(s, mode, buf))) == DropSpaces(buf + BodyFrom(s, mode))
  }

  lemma KeepOne(s: string, mode: Mode, next: Mode, buf: string)
    requires |s| > 0 && Keeps(s[1..], next, buf + [s[0]])
    requires Scan(s, mode, buf) == Scan(s[1..], next, buf + [s[0]])
    requires BodyFrom(s, mode) == [s[0]] + BodyFrom(s[1..], next)
    ensures Keeps(s, mode, buf)
  {
    assert buf + [s[0]] + BodyFrom(s[1..], next) == buf + BodyFrom(s, mode);
  }

  lemma {:induction false} ScanKeeps(s: string, mode: Mode, buf: string)
    ensures Keeps(s, mode, buf)
    decreases |s|, 1
  {
    if |s| == 0 {
      EmitKeeps(buf);
      assert buf + "" == buf;
    } else if mode == Plain {
      ScanKeepsPlain(s, buf);
    } else if mode == InString {
      ScanKeepsInString(s, buf);
    } else if s[0] == '\n' {
      ScanKeeps(s[1..], Plain, buf + [s[0]]);
      KeepOne(s, mode, Plain, buf);
    } else {
      ScanKeeps(s[1..], InComment, buf);
    }
  }

  lemma {:induction false} ScanKeepsInString(s: string, buf: string)
    requires |s| > 0
    ensures Keeps(s, InString, buf)
    decreases |s|, 0
  {
    if s[0] == '\'' && |s| > 1 && s[1] == '\'' {
      ScanKeeps(s[2..], InString, buf + [s[0]] + [s[1]]);
      var body := BodyFrom(s[2..], InString);
      assert buf + [s[0]] + [s[1]] + body == buf + ([s[0]] + ([s[1]] + body));
    } else {
      var next := if s[0] == '\'' then Plain else InString;
      ScanKeeps(s[1..], next, buf + [s[0]]);
      KeepOne(s, InString, next, buf);
    }
  }

  lemma {:induction false} ScanKeepsPlain(s: string, buf: string)
    requires |s| > 0
    ensures Keeps(s, Plain, buf)
    decreases |s|, 0
  {
    if s[0] == '-' && |s| > 1 && s[1] == '-' {
      ScanKeeps(s[2..], InComment, buf);
    } else if s[0] == ';' {
      ScanKeeps(s[1..], Plain, "");
      EmitThen(buf, Scan(s[1..], Plain, ""), BodyFrom(s[1..], Plain));
    } else {
      var next := if s[0] == '\'' then InString else Plain;
      ScanKeeps(s[1..], next, buf + [s[0]]);
      KeepOne(s, Plain, next, buf);
    }
  }

  /**
   Apart from whitespace, the statements hold exactly the characters that are neither comment nor
   separator, in order.
   */
  lemma NothingElseIsLost(sql: string)
    ensures DropSpaces(Concat(Split(sql))) == DropSpaces(BodyFrom(sql, Plain))
  {
    ScanKeeps(sql, Plain, "");
    assert "" + BodyFrom(sql, Plain) == BodyFrom(sql, Plain);
  }
}
