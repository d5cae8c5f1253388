/**
 What the splitting of scripts does, said with a reader that has no buffer: three laws, each
 about what a caller can see in the script, and the theorem that no other function obeys them.
 */
module SplitterLaws {
  import opened Prelude
  import opened Alphabets
  import opened SqlSplitter

  /** Where in a script a prefix ends; `Hyphen` is in code, behind a hyphen that may start a comment. */
  datatype Region = Code | Hyphen | Quoted | Comment

  function Onward(r: Region, c: char): Region {
    match r
    case Quoted => if c == '\'' then Code else Quoted
    case Comment => if c == '\n' then Code else Comment
    case _ =>
      if c == '\'' then Quoted
      else if c == '-' then (if r == Hyphen then Comment else Hyphen)
      else Code
  }

  /** Where reading `s` from `r` ends; a doubled quote just leaves the literal and enters it again. */
  function RegionAfter(s: string, r: Region): Region {
    if |s| == 0 then r else RegionAfter(s[1..], Onward(r, s[0]))
  }

  predicate Outside(r: Region) {
    r == Code || r == Hyphen
  }

  // ----- the loop against the reader

  function ModeIn(r: Region): Mode {
    match r
    case Quoted => InString
    case Comment => InComment
    case _ => Plain
  }

  /** Emitted statements, mode and buffer after the loop has been over `s`. */
  function Feed(s: string, mode: Mode, buf: string): (seq<string>, Mode, string)
    decreases |s|
  {
    if |s| == 0 then ([], mode, buf)
    else match mode
      case InComment =>
        if s[0] == '\n' then Feed(s[1..], Plain, buf + [s[0]]) else Feed(s[1..], InComment, buf)
      case InString =>
        if s[0] == '\'' && |s| > 1 && s[1] == '\'' then Feed(s[2..], InString, buf + [s[0]] + [s[1]])
        else Feed(s[1..], if s[0] == '\'' then Plain else InString, buf + [s[0]])
      case Plain =>
        if s[0] == '-' && |s| > 1 && s[1] == '-' then Feed(s[2..], InComment, buf)
        else if s[0] == '\'' then Feed(s[1..], InString, buf + [s[0]])
        else if s[0] == ';' then
          var (out, end, rest) := Feed(s[1..], Plain, "");
          (Emit(buf) + out, end, rest)
        else Feed(s[1..], Plain, buf + [s[0]])
  }

  /** The text from here on does not complete a pair with what was read. */
  predicate Apart(r: Region, rest: string) {
    |rest| > 0 ==> !(r == Hyphen && rest[0] == '-')
  }

  /** The loop goes over `s` and then over `rest`. */
  predicate InTwo(s: string, rest: string, r: Region, buf: string) {
    var (out, mode, held) := Feed(s, ModeIn(r), buf);
    && mode == ModeIn(RegionAfter(s, r))
    && Scan(s + rest, ModeIn(r), buf) == out + Scan(rest, mode, held)
  }

  lemma {:induction false} ReadInTwo(s: string, rest: string, r: Region, buf: string)
    requires Apart(r, s + rest) && Apart(RegionAfter(s, r), rest) && (|rest| > 0 ==> rest[0] != '\'')
    ensures InTwo(s, rest, r, buf)
    decreases |s|, 1
  {
    if |s| == 0 {
      assert s + rest == rest;
    } else {
      TailOfJoin(s, rest);
      match r
      case Quoted => ReadQuotedInTwo(s, rest, buf);
      case Comment => ReadInTwo(s[1..], rest, Onward(r, s[0]), if s[0] == '\n' then buf + [s[0]] else buf);
      case _ => ReadCodeInTwo(s, rest, r, buf);
    }
  }

  lemma TailOfJoin(s: string, rest: string)
    requires |s| > 0
    ensures (s + rest)[0] == s[0] && (s + rest)[1..] == s[1..] + rest
    ensures |s| > 1 ==> (s + rest)[1] == s[1] && (s + rest)[2..] == s[2..] + rest
    ensures |s| == 1 && |rest| > 0 ==> (s + rest)[1] == rest[0]
    ensures |s| > 1 ==> s[1..][1..] == s[2..] && s[1..][0] == s[1]
  {
  }

  lemma {:induction false} ReadQuotedInTwo(s: string, rest: string, buf: string)
    requires |s| > 0 && Apart(RegionAfter(s, Quoted), rest) && (|rest| > 0 ==> rest[0] != '\'')
    ensures InTwo(s, rest, Quoted, buf)
    decreases |s|, 0
  {
    TailOfJoin(s, rest);
    if s[0] == '\'' && |s| > 1 && s[1] == '\'' {
      assert RegionAfter(s, Quoted) == RegionAfter(s[2..], Quoted);
      ReadInTwo(s[2..], rest, Quoted, buf + [s[0]] + [s[1]]);
    } else {
      ReadInTwo(s[1..], rest, Onward(Quoted, s[0]), buf + [s[0]]);
    }
  }

  lemma {:induction false} ReadCodeInTwo(s: string, rest: string, r: Region, buf: string)
    requires |s| > 0 && Outside(r)
    requires Apart(r, s + rest) && Apart(RegionAfter(s, r), rest) && (|rest| > 0 ==> rest[0] != '\'')
    ensures InTwo(s, rest, r, buf)
    decreases |s|, 0
  {
    TailOfJoin(s, rest);
    if s[0] == '-' && |s| > 1 && s[1] == '-' {
      assert RegionAfter(s, r) == RegionAfter(s[2..], Comment);
      ReadInTwo(s[2..], rest, Comment, buf);
    } else {
      var next := Onward(r, s[0]);
      if |s| == 1 {
        assert s[1..] + rest == rest && RegionAfter(s, r) == next;
      }
      ReadInTwo(s[1..], rest, next, if s[0] == ';' then "" else buf + [s[0]]);
    }
  }

  // ----- the three laws

  /** A semicolon outside literals and comments ends a statement, whatever follows. */
  lemma SeparatorEndsStatement(a: string, b: string)
    requires Outside(RegionAfter(a, Code))
    ensures Split(a + (";" + b)) == Split(a) + Split(b)
  {
    ReadInTwo(a, ";" + b, Code, "");
    ReadInTwo(a, "", Code, "");
    assert (";" + b)[1..] == b && a + "" == a;
  }

  lemma {:induction false} CommentIsSkipped(c: string, rest: string, buf: string)
    requires '\n' !in c
    ensures Scan(c + rest, InComment, buf) == Scan(rest, InComment, buf)
  {
    if |c| == 0 {
      assert c + rest == rest;
    } else {
      TailOfJoin(c, rest);
      CommentIsSkipped(c[1..], rest, buf);
    }
  }

  /** A comment counts for nothing, up to the end of its line or of the script. */
  lemma CommentIsDropped(a: string, c: string, rest: string)
    requires RegionAfter(a, Code) == Code && '\n' !in c && (rest == "" || rest[0] == '\n')
    ensures Split(a + ("--" + (c + rest))) == Split(a + rest)
  {
    var tail := "--" + (c + rest);
    ReadInTwo(a, tail, Code, "");
    ReadInTwo(a, rest, Code, "");
    assert tail[2..] == c + rest && tail[0] == '-' && tail[1] == '-';
    var buf := Feed(a, Plain, "").2;
    CommentIsSkipped(c, rest, buf);
  }

  /** No semicolon and no comment outside the literals of `s`, read from `r`. */
  predicate Bare(s: string, r: Region) {
    && (forall i | 0 <= i < |s| && s[i] == ';' :: RegionAfter(s[..i], r) == Quoted)
    && (forall i | 0 <= i < |s| - 1 && s[i] == '-' && s[i + 1] == '-' :: RegionAfter(s[..i], r) == Quoted)
  }

  lemma BareTail(s: string, r: Region)
    requires |s| > 0 && Bare(s, r)
    ensures Bare(s[1..], Onward(r, s[0]))
  {
    forall i | 0 <= i < |s| - 1 ensures RegionAfter(s[1..][..i], Onward(r, s[0])) == RegionAfter(s[..i + 1], r) {
      assert s[..i + 1][1..] == s[1..][..i];
    }
    forall i | 0 <= i < |s[1..]| && s[1..][i] == ';' ensures RegionAfter(s[1..][..i], Onward(r, s[0])) == Quoted {
      assert s[i + 1] == ';';
    }
    forall i | 0 <= i < |s[1..]| - 1 && s[1..][i] == '-' && s[1..][i + 1] == '-'
      ensures RegionAfter(s[1..][..i], Onward(r, s[0])) == Quoted
    {
      assert s[i + 1] == '-' && s[i + 2] == '-';
    }
  }

  lemma {:induction false} BareIsKept(s: string, r: Region, buf: string)
    requires Bare(s, r) && r != Comment && Apart(r, s)
    ensures Scan(s, ModeIn(r), buf) == Emit(buf + s)
    decreases |s|
  {
    if |s| == 0 {
      assert buf + s == buf;
    } else {
      BareTail(s, r);
      assert s[..0] == "";
      var next := Onward(r, s[0]);
      TakeOne(buf, s);
      if r == Quoted && s[0] == '\'' && |s| > 1 && s[1] == '\'' {
        BareTail(s[1..], Code);
        SplitAfterTwo(buf, s);
        assert s[1..][1..] == s[2..];
        BareIsKept(s[2..], Quoted, buf + [s[0]] + [s[1]]);
      } else {
        BareIsKept(s[1..], next, buf + [s[0]]);
      }
    }
  }

  /** A script of bare text between whitespace is one statement, or none. */
  lemma BareTextIsOneStatement(u: string, s: string, v: string)
    requires Over(u, WHITESPACE) && Over(v, WHITESPACE) && Bounded(s) && Bare(u + (s + v), Code)
    ensures Split(u + (s + v)) == if s == "" then [] else [s]
  {
    var all := u + (s + v);
    BareIsKept(all, Code, "");
    assert "" + all == all;
    StripTakesTheEnds(u, s, v);
  }

  // ----- no other function obeys them

  /** The three laws, of any function from scripts to statements. */
  ghost predicate ObeysLaws(f: string -> seq<string>) {
    && (forall a, b | Outside(RegionAfter(a, Code)) :: f(a + (";" + b)) == f(a) + f(b))
    && (forall a, c, rest | RegionAfter(a, Code) == Code && '\n' !in c && (rest == "" || rest[0] == '\n') ::
          f(a + ("--" + (c + rest))) == f(a + rest))
    && (forall u, s, v | Over(u, WHITESPACE) && Over(v, WHITESPACE) && Bounded(s) && Bare(u + (s + v), Code) ::
          f(u + (s + v)) == if s == "" then [] else [s])
  }

  lemma SplitObeysLaws()
    ensures ObeysLaws(Split)
  {
    forall a, b | Outside(RegionAfter(a, Code)) ensures Split(a + (";" + b)) == Split(a) + Split(b) {
      SeparatorEndsStatement(a, b);
    }
    forall a, c, rest | RegionAfter(a, Code) == Code && '\n' !in c && (rest == "" || rest[0] == '\n')
      ensures Split(a + ("--" + (c + rest))) == Split(a + rest)
    {
      CommentIsDropped(a, c, rest);
    }
    forall u, s, v | Over(u, WHITESPACE) && Over(v, WHITESPACE) && Bounded(s) && Bare(u + (s + v), Code)
      ensures Split(u + (s + v)) == if s == "" then [] else [s]
    {
      BareTextIsOneStatement(u, s, v);
    }
  }

  predicate SeparatorAt(s: string, i: nat) {
    i < |s| && s[i] == ';' && Outside(RegionAfter(s[..i], Code))
  }

  predicate CommentAt(s: string, i: nat) {
    i + 1 < |s| && s[i] == '-' && s[i + 1] == '-' && RegionAfter(s[..i], Code) == Code
  }

  lemma {:induction false} RegionSnoc(s: string, c: char, r: Region)
    ensures RegionAfter(s + [c], r) == Onward(RegionAfter(s, r), c)
  {
    if |s| > 0 {
      assert (s + [c])[1..] == s[1..] + [c];
      RegionSnoc(s[1..], c, Onward(r, s[0]));
    } else {
      assert s + [c] == [c] && [c][1..] == "";
    }
  }

  lemma RegionOnward(s: string, i: nat)
    requires i < |s|
    ensures RegionAfter(s[..i + 1], Code) == Onward(RegionAfter(s[..i], Code), s[i])
  {
    assert s[..i + 1] == s[..i] + [s[i]];
    RegionSnoc(s[..i], s[i], Code);
  }

  /** Where a prefix ends behind a hyphen, the hyphen stands there in code. */
  lemma HyphenBefore(s: string, i: nat)
    requires i <= |s| && RegionAfter(s[..i], Code) == Hyphen
    ensures i > 0 && s[i - 1] == '-' && RegionAfter(s[..i - 1], Code) == Code
  {
    assert s[..0] == "";
    RegionOnward(s, i - 1);
  }

  lemma {:induction false} CommentHasStart(s: string, i: nat) returns (k: nat)
    requires i <= |s| && RegionAfter(s[..i], Code) == Comment
    ensures CommentAt(s, k)
    decreases i
  {
    assert s[..0] == "";
    RegionOnward(s, i - 1);
    if RegionAfter(s[..i - 1], Code) == Comment {
      k := CommentHasStart(s, i - 1);
    } else {
      HyphenBefore(s, i - 1);
      k := i - 2;
    }
  }

  lemma BareUnlessCut(s: string)
    requires (forall i: nat :: !SeparatorAt(s, i)) && (forall i: nat :: !CommentAt(s, i))
    ensures Bare(s, Code)
  {
    forall i | 0 <= i < |s| ensures RegionAfter(s[..i], Code) != Comment {
      if RegionAfter(s[..i], Code) == Comment {
        var k := CommentHasStart(s, i);
      }
    }
    forall i | 0 <= i < |s| && s[i] == ';' ensures RegionAfter(s[..i], Code) == Quoted {
      assert !SeparatorAt(s, i);
    }
    forall i | 0 <= i < |s| - 1 && s[i] == '-' && s[i + 1] == '-' ensures RegionAfter(s[..i], Code) == Quoted {
      assert !CommentAt(s, i);
      if RegionAfter(s[..i], Code) == Hyphen {
        HyphenBefore(s, i);
        assert CommentAt(s, i - 1);
      }
    }
  }

  lemma {:induction false} LineEnd(s: string) returns (c: string, rest: string)
    ensures s == c + rest && '\n' !in c && (rest == "" || rest[0] == '\n')
  {
    if |s| == 0 || s[0] == '\n' {
      c, rest := "", s;
    } else {
      c, rest := LineEnd(s[1..]);
      c := [s[0]] + c;
    }
  }

  /** Whoever obeys the three laws splits every script as the program does. */
  lemma {:induction false} LawsDetermineSplit(f: string -> seq<string>, sql: string)
    requires ObeysLaws(f)
    ensures f(sql) == Split(sql)
    decreases |sql|
  {
    if i: nat :| SeparatorAt(sql, i) {
      CutAtSeparator(f, sql, i);
      LawsDetermineSplit(f, sql[..i]);
      LawsDetermineSplit(f, sql[i + 1..]);
    } else if i: nat :| CommentAt(sql, i) {
      var shorter := CutComment(f, sql, i);
      LawsDetermineSplit(f, shorter);
    } else {
      BareUnlessCut(sql);
      var u, t, v := Trim(sql);
      SplitObeysLaws();
    }
  }

  lemma CutAtSeparator(f: string -> seq<string>, sql: string, i: nat)
    requires ObeysLaws(f) && SeparatorAt(sql, i)
    ensures f(sql) == f(sql[..i]) + f(sql[i + 1..]) && Split(sql) == Split(sql[..i]) + Split(sql[i + 1..])
  {
    var a, b := sql[..i], sql[i + 1..];
    assert sql == a + (";" + b);
    SeparatorEndsStatement(a, b);
  }

  lemma CutComment(f: string -> seq<string>, sql: string, i: nat) returns (shorter: string)
    requires ObeysLaws(f) && CommentAt(sql, i)
    ensures |shorter| < |sql| && f(sql) == f(shorter) && Split(sql) == Split(shorter)
  {
    var a := sql[..i];
    var c, rest := LineEnd(sql[i + 2..]);
    assert sql == a + ("--" + (c + rest));
    shorter := a + rest;
    CommentIsDropped(a, c, rest);
  }
}
