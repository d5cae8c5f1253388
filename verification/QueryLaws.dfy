/**
 What the normalization of query texts does, said with the characters written out and without
 naming its passes: which differences between two texts it drops, what it puts in their place,
 and what it keeps.
 */
module QueryLaws {
  import opened Prelude
  import opened Alphabets
  import opened QueryNormalizer

  // ----- whitespace

  lemma {:induction false} CollapseOfBlank(u: string, inRun: bool)
    requires |u| > 0 && Over(u, WHITESPACE)
    ensures Collapse(u, inRun) == (if inRun then "" else " ") && IsSpace(u[|u| - 1])
  {
    SpaceIff(u[0]);
    SpaceIff(u[|u| - 1]);
    if |u| == 1 {
      assert u[1..] == "";
    } else {
      CollapseOfBlank(u[1..], true);
    }
  }

  /** Any nonempty run of whitespace stands for any other, anywhere in the text. */
  lemma WhitespaceRunsAreIgnored(a: string, u: string, v: string, b: string)
    requires |u| > 0 && |v| > 0 && Over(u, WHITESPACE) && Over(v, WHITESPACE)
    ensures Normalize(a + (u + b)) == Normalize(a + (v + b))
  {
    var inRun := |a| > 0 && IsSpace(a[|a| - 1]);
    CollapseConcat(a, u + b, false);
    CollapseConcat(a, v + b, false);
    CollapseConcat(u, b, inRun);
    CollapseConcat(v, b, inRun);
    CollapseOfBlank(u, inRun);
    CollapseOfBlank(v, inRun);
    hide Normalize, Collapse;
    WhitespaceIsIgnored(a + (u + b), a + (v + b));
  }

  /** Only single blanks, each before something that is not a space. */
  predicate SingleBlanks(s: string) {
    forall i | 0 <= i < |s| && IsSpace(s[i]) :: s[i] == ' ' && (i + 1 < |s| ==> !IsSpace(s[i + 1]))
  }

  lemma {:induction false} CollapsedShape(s: string, inRun: bool)
    ensures SingleBlanks(Collapse(s, inRun))
    ensures inRun && |Collapse(s, inRun)| > 0 ==> !IsSpace(Collapse(s, inRun)[0])
  {
    if |s| > 0 {
      CollapsedShape(s[1..], IsSpace(s[0]));
    }
  }

  lemma StripEnds(r: string)
    requires Strip(r) == r && |r| > 0
    ensures !IsSpace(r[0]) && !IsSpace(r[|r| - 1])
  {
    StripLeftStart(r);
    StripRightEnd(StripLeft(r));
    StripLeftShortens(r);
    StripRightShortens(StripLeft(r));
  }

  lemma {:induction false} StripRightEnd(s: string)
    ensures |StripRight(s)| > 0 ==> !IsSpace(StripRight(s)[|StripRight(s)| - 1])
  {
    if |s| > 0 && IsSpace(s[|s| - 1]) {
      StripRightEnd(s[..|s| - 1]);
    }
  }

  lemma {:induction false} StripLeftShortens(s: string)
    ensures |StripLeft(s)| <= |s| && (|StripLeft(s)| == |s| ==> StripLeft(s) == s)
  {
    if |s| > 0 && IsSpace(s[0]) {
      StripLeftShortens(s[1..]);
    }
  }

  lemma {:induction false} StripRightShortens(s: string)
    ensures |StripRight(s)| <= |s| && (|StripRight(s)| == |s| ==> StripRight(s) == s)
  {
    if |s| > 0 && IsSpace(s[|s| - 1]) {
      StripRightShortens(s[..|s| - 1]);
    }
  }

  // ----- letters

  /** A capital stands for its small letter, anywhere in the text. */
  lemma LetterCaseIsIgnored(a: string, k: nat, b: string)
    requires k < 26
    ensures Normalize(a + ([UPPERCASE[k]] + b)) == Normalize(a + ([LOWERCASE[k]] + b))
  {
    CaseOfRow(k);
    hide Normalize;
    SameLower(a, UPPERCASE[k], LOWERCASE[k], b);
    CaseIsIgnored(a + ([UPPERCASE[k]] + b), a + ([LOWERCASE[k]] + b));
  }

  lemma CaseOfRow(k: nat)
    requires k < 26
    ensures LowerChar(UPPERCASE[k]) == LOWERCASE[k] == LowerChar(LOWERCASE[k])
  {
    CasesAreRows(UPPERCASE[k]);
    LettersAt(k);
  }

  lemma SameLower(a: string, c: char, d: char, b: string)
    requires LowerChar(c) == LowerChar(d)
    ensures Lower(a + ([c] + b)) == Lower(a + ([d] + b))
  {
    var s, t := a + ([c] + b), a + ([d] + b);
    forall i | 0 <= i < |s| ensures Lower(s)[i] == Lower(t)[i] {
      assert i != |a| ==> s[i] == t[i];
    }
  }

  // ----- numbers

  predicate WordChar(c: char) {
    c in LOWERCASE || c in UPPERCASE || c in DIGITS || c == '_'
  }

  /** A number standing by itself is dropped, and a question mark put in its place. */
  lemma NumberBecomesMark(a: string, d: string, b: string)
    requires |d| > 0 && Over(d, DIGITS)
    requires |a| > 0 ==> !WordChar(a[|a| - 1])
    requires |b| > 0 ==> !WordChar(b[0])
    ensures Normalize(a + (d + b)) == Normalize(a + ("?" + b))
  {
    if |a| > 0 {
      WordIff(a[|a| - 1]);
    }
    if |b| > 0 {
      WordIff(b[0]);
    }
    forall i | 0 <= i < |d| ensures IsDigit(d[i]) {
      DigitIff(d[i]);
    }
    NumbersOfNumber(a, d, b);
    MarkIsKept(a, b);
    hide Normalize, Numbers;
    AbsorbsNumbers(a + (d + b));
    AbsorbsNumbers(a + ("?" + b));
  }

  lemma MarkIsKept(a: string, b: string)
    ensures Numbers(a + ("?" + b)) == Numbers(a) + ("?" + Numbers(b))
  {
    assert !IsWord('?');
    NumbersConcat(a, "?" + b);
    assert ("?" + b)[1..] == b && ("?" + b)[0] == '?';
  }

  // ----- literals

  /** The quote left open after `s`, read with `open` pending; None is outside every literal. */
  function QuoteAfter(s: string, open: Option<char>): Option<char> {
    if |s| == 0 then open
    else if open.None? then QuoteAfter(s[1..], if s[0] == '\'' || s[0] == '"' then Some(s[0]) else None)
    else QuoteAfter(s[1..], if s[0] == open.value then None else open)
  }

  lemma {:induction false} QuoteIsClosed(s: string, q: char)
    requires QuoteAfter(s, Some(q)).None?
    ensures Find(s, q) < |s| && QuoteAfter(s[Find(s, q) + 1..], None).None?
  {
    if |s| > 0 && s[0] != q {
      QuoteIsClosed(s[1..], q);
      assert s[1..][Find(s[1..], q) + 1..] == s[Find(s, q) + 1..];
    }
  }

  lemma {:induction false} StringsConcat(a: string, b: string)
    requires QuoteAfter(a, None).None?
    ensures Strings(a + b) == Strings(a) + Strings(b)
    decreases |a|
  {
    if |a| == 0 {
      assert a + b == b;
    } else if IsQuote(a[0]) {
      var body, rest := ClosedParts(a);
      hide Strings, Find, QuoteAfter;
      LiteralThen(a[0], body, rest, b);
      StringsConcat(rest, b);
      Regroup("?", Strings(rest), Strings(b));
    } else {
      assert Strings(a) == [a[0]] + Strings(a[1..]);
      assert QuoteAfter(a[1..], None).None?;
      hide Strings, Find, QuoteAfter;
      StringsConcat(a[1..], b);
      Regroup([a[0]], a[1..], b);
      assert a == [a[0]] + a[1..];
      StringsCons(a[0], a[1..] + b);
      Regroup([a[0]], Strings(a[1..]), Strings(b));
    }
  }

  lemma ClosedParts(a: string) returns (body: string, rest: string)
    requires |a| > 0 && IsQuote(a[0]) && QuoteAfter(a, None).None?
    ensures a[0] !in body && a == [a[0]] + (body + ([a[0]] + rest)) && |rest| < |a|
    ensures Strings(a) == "?" + Strings(rest) && QuoteAfter(rest, None).None?
  {
    assert QuoteAfter(a[1..], Some(a[0])).None?;
    QuoteIsClosed(a[1..], a[0]);
    hide QuoteAfter, Strings;
    assert a[0] in a[1..];
    body, rest := LiteralParts(a);
    assert a[1..] == body + ([a[0]] + rest);
    FindSplit(body, a[0], rest);
    DropThroughQuote(body, a[0], rest);
  }

  /** A closed literal is dropped with its quotes, and a question mark put in its place. */
  lemma LiteralBecomesMark(a: string, q: char, x: string, b: string)
    requires q == '\'' || q == '"'
    requires q !in x && QuoteAfter(a, None).None?
    ensures Normalize(a + ([q] + (x + ([q] + b)))) == Normalize(a + ("?" + b))
  {
    StringsConcat(a, [q] + (x + ([q] + b)));
    StringsConcat(a, "?" + b);
    StringsOfLiteral(q, x, b);
    StringsCons('?', b);
    hide Normalize, Strings;
    AbsorbsStrings(a + ([q] + (x + ([q] + b))));
    AbsorbsStrings(a + ("?" + b));
  }

  // ----- what is kept

  /** Every blank is single and has something on either side. */
  predicate TidyBlanks(s: string) {
    forall i | 0 <= i < |s| && s[i] in WHITESPACE ::
      s[i] == ' ' && 0 < i < |s| - 1 && s[i - 1] !in WHITESPACE && s[i + 1] !in WHITESPACE
  }

  /** No two quotes of one kind. */
  predicate NoPairedQuotes(s: string) {
    forall i, j | 0 <= i < j < |s| && s[i] == s[j] :: s[i] != '\'' && s[i] != '"'
  }

  /** Digits from `i` to `j` with nothing of a word on either side. */
  predicate LoneNumber(s: string, i: nat, j: nat) {
    && i < j <= |s|
    && (forall k | i <= k < j :: s[k] in DIGITS)
    && (i > 0 ==> !WordChar(s[i - 1]))
    && (j < |s| ==> !WordChar(s[j]))
  }

  ghost predicate NoLoneNumber(s: string) {
    forall i: nat, j: nat :: !LoneNumber(s, i, j)
  }

  predicate NoCapital(s: string) {
    forall c | c in s :: c !in UPPERCASE
  }

  lemma {:induction false} TidyCollapses(s: string, inRun: bool)
    requires forall i | 0 <= i < |s| && IsSpace(s[i]) :: s[i] == ' ' && (i > 0 ==> !IsSpace(s[i - 1]))
    requires inRun && |s| > 0 ==> !IsSpace(s[0])
    ensures Collapse(s, inRun) == s
  {
    if |s| > 0 {
      forall i | 0 <= i < |s[1..]| && IsSpace(s[1..][i])
        ensures s[1..][i] == ' ' && (i > 0 ==> !IsSpace(s[1..][i - 1]))
      {
        assert s[1..][i] == s[i + 1];
      }
      TidyCollapses(s[1..], IsSpace(s[0]));
    }
  }

  lemma BlanksIff(s: string)
    ensures TidyBlanks(s) <==> Strip(s) == s && Collapse(s, false) == s
  {
    if TidyBlanks(s) {
      TidyIsKept(s);
    }
    if Strip(s) == s && Collapse(s, false) == s {
      KeptIsTidy(s);
    }
  }

  lemma TidyIsKept(s: string)
    requires TidyBlanks(s)
    ensures Strip(s) == s && Collapse(s, false) == s
  {
    forall i | 0 <= i < |s| ensures IsSpace(s[i]) <==> s[i] in WHITESPACE {
      SpaceIff(s[i]);
    }
    TidyCollapses(s, false);
  }

  lemma KeptIsTidy(s: string)
    requires Strip(s) == s && Collapse(s, false) == s
    ensures TidyBlanks(s)
  {
    CollapsedShape(s, false);
    if |s| > 0 {
      StripEnds(s);
    }
    hide Strip, Collapse;
    forall i | 0 <= i < |s| && s[i] in WHITESPACE
      ensures s[i] == ' ' && 0 < i < |s| - 1 && s[i - 1] !in WHITESPACE && s[i + 1] !in WHITESPACE
    {
      SpaceIff(s[i]);
      SpaceIff(s[i - 1]);
      SpaceIff(s[i + 1]);
    }
  }

  lemma {:induction false} StringsShortens(s: string)
    ensures |Strings(s)| <= |s|
    decreases |s|
  {
    if |s| > 0 {
      var n := if StartsLiteral(s) then 2 + Find(s[1..], s[0]) else 1;
      StringsShortens(s[n..]);
    }
  }

  lemma {:induction false} StringsIff(s: string)
    ensures NoPairedQuotes(s) <==> Strings(s) == s
    decreases |s|
  {
    if |s| > 0 {
      if StartsLiteral(s) {
        var n := Find(s[1..], s[0]);
        StringsShortens(s[2 + n..]);
        assert s[0] == s[1 + n];
      } else {
        StringsIff(s[1..]);
        assert s == [s[0]] + s[1..];
        assert IsQuote(s[0]) ==> Find(s[1..], s[0]) == |s| - 1;
        if NoPairedQuotes(s[1..]) {
          PairsOfTail(s);
        }
        if NoPairedQuotes(s) {
          PairsInTail(s);
        }
      }
    }
  }

  lemma PairsOfTail(s: string)
    requires |s| > 0 && NoPairedQuotes(s[1..])
    requires IsQuote(s[0]) ==> forall k | 0 <= k < |s| - 1 :: s[1..][k] != s[0]
    ensures NoPairedQuotes(s)
  {
    forall i, j | 0 <= i < j < |s| && s[i] == s[j] ensures s[i] != '\'' && s[i] != '"' {
      assert s[j] == s[1..][j - 1];
      if i > 0 {
        assert s[i] == s[1..][i - 1];
      }
    }
  }

  lemma PairsInTail(s: string)
    requires |s| > 0 && NoPairedQuotes(s)
    ensures NoPairedQuotes(s[1..])
  {
    forall i, j | 0 <= i < j < |s[1..]| && s[1..][i] == s[1..][j] ensures s[1..][i] != '\'' && s[1..][i] != '"' {
      assert s[i + 1] == s[j + 1];
    }
  }

  lemma {:induction false} NumbersShortens(s: string)
    ensures |Numbers(s)| <= |s|
    decreases |s|
  {
    if |s| > 0 {
      NumbersShortens(s[if IsWord(s[0]) then WordRun(s) else 1..]);
    }
  }

  /** The same in the terms of the number pass. */
  lemma LoneIff(s: string, i: nat, j: nat)
    ensures LoneNumber(s, i, j) <==>
      && i < j <= |s| && (forall k | i <= k < j :: IsDigit(s[k]))
      && (i > 0 ==> !IsWord(s[i - 1])) && (j < |s| ==> !IsWord(s[j]))
  {
    if i < j <= |s| {
      forall k | 0 <= k < |s| ensures (IsDigit(s[k]) <==> s[k] in DIGITS) && (IsWord(s[k]) <==> WordChar(s[k])) {
        DigitIff(s[k]);
        WordIff(s[k]);
      }
      hide IsDigit, IsWord, WordChar, DIGITS;
    }
  }

  /** A lone number in the first word is the whole word. */
  lemma LoneAtStart(s: string, i: nat, j: nat)
    requires |s| > 0 && IsWord(s[0]) && LoneNumber(s, i, j) && i < WordRun(s)
    ensures i == 0 && AllDigits(s[..WordRun(s)])
  {
    var n := WordRun(s);
    hide LoneNumber, WordRun, WordChar;
    LoneIff(s, i, j);
    assert i == 0 && j == n;
    assert forall k | 0 <= k < n :: s[..n][k] == s[k];
  }

  lemma LoneShifts(s: string, n: nat, i: nat, j: nat)
    requires n <= |s| && (i > 0 || (n > 0 ==> !WordChar(s[n - 1])))
    ensures LoneNumber(s, n + i, n + j) <==> LoneNumber(s[n..], i, j)
  {
    var t := s[n..];
    hide WordChar, DIGITS;
    assert forall k | 0 <= k < |t| :: t[k] == s[n + k];
    if LoneNumber(t, i, j) {
      forall k | n + i <= k < n + j ensures s[k] in DIGITS {
        assert s[k] == t[k - n];
      }
    }
  }

  lemma {:induction false} NumbersIff(s: string)
    ensures NoLoneNumber(s) <==> Numbers(s) == s
    decreases |s|
  {
    if |s| == 0 {
    } else if IsWord(s[0]) {
      var n := WordRun(s);
      NumbersIff(s[n..]);
      NumbersShortens(s[n..]);
      RunIff(s);
      NumbersOfFirst(s);
    } else {
      NumbersIff(s[1..]);
      OtherIff(s);
    }
  }

  lemma NumberOrIsRun(run: string)
    requires |run| > 0
    ensures |NumberOr(run)| <= |run| && (NumberOr(run) == run <==> !AllDigits(run))
  {
    if AllDigits(run) {
      assert IsDigit(run[0]);
    }
  }

  lemma NumbersOfFirst(s: string)
    requires |s| > 0 && IsWord(s[0]) && |Numbers(s[WordRun(s)..])| <= |s| - WordRun(s)
    ensures Numbers(s) == s <==> Numbers(s[WordRun(s)..]) == s[WordRun(s)..] && !AllDigits(s[..WordRun(s)])
  {
    var run, rest := s[..WordRun(s)], s[WordRun(s)..];
    assert Numbers(s) == NumberOr(run) + Numbers(rest) && |run| > 0;
    hide Numbers, WordRun, AllDigits, NumberOr, IsWord;
    NumberOrIsRun(run);
    assert s == run + rest;
    if NumberOr(run) + Numbers(rest) == run + rest {
      SameParts(NumberOr(run), Numbers(rest), run, rest);
    }
  }

  lemma SameParts(x: string, y: string, v: string, w: string)
    requires x + y == v + w && |x| <= |v| && |y| <= |w|
    ensures x == v && y == w
  {
    assert |x| == |v|;
    assert (x + y)[..|x|] == x && (v + w)[..|v|] == v;
    assert (x + y)[|x|..] == y && (v + w)[|v|..] == w;
  }

  lemma OtherIff(s: string)
    requires |s| > 0 && !IsWord(s[0])
    ensures NoLoneNumber(s) <==> NoLoneNumber(s[1..])
  {
    WordIff(s[0]);
    assert !WordChar(s[0]);
    hide WordChar, LoneNumber, IsWord, IsDigit;
    forall i: nat, j: nat | LoneNumber(s, i, j) ensures !NoLoneNumber(s[1..]) {
      LoneStart(s, i, j);
      LoneShifts(s, 1, i - 1, j - 1);
    }
    forall i: nat, j: nat | LoneNumber(s[1..], i, j) ensures !NoLoneNumber(s) {
      LoneShifts(s, 1, i, j);
    }
  }

  lemma LoneStart(s: string, i: nat, j: nat)
    requires LoneNumber(s, i, j)
    ensures i < j && (!IsWord(s[0]) ==> i > 0)
    ensures i > 0 ==> !WordChar(s[i - 1])
  {
    hide WordChar;
    LoneIff(s, i, j);
  }

  lemma LoneIsLater(s: string)
    requires |s| > 0 && IsWord(s[0]) && !NoLoneNumber(s) && !AllDigits(s[..WordRun(s)])
    ensures !NoLoneNumber(s[WordRun(s)..])
  {
    var n := WordRun(s);
    hide LoneNumber, WordRun, AllDigits, WordChar, IsWord;
    var i: nat, j: nat :| LoneNumber(s, i, j);
    if i < n {
      LoneAtStart(s, i, j);
    } else {
      LoneStart(s, i, j);
      LoneShifts(s, n, i - n, j - n);
    }
  }

  lemma LoneWasThere(s: string, n: nat)
    requires n <= |s| && (n < |s| ==> !IsWord(s[n])) && !NoLoneNumber(s[n..])
    ensures !NoLoneNumber(s)
  {
    hide LoneNumber, WordChar, IsWord;
    var i: nat, j: nat :| LoneNumber(s[n..], i, j);
    LoneAfter(s, n, i, j);
  }

  lemma RunIff(s: string)
    requires |s| > 0 && IsWord(s[0])
    ensures NoLoneNumber(s) <==> NoLoneNumber(s[WordRun(s)..]) && !AllDigits(s[..WordRun(s)])
  {
    var n := WordRun(s);
    assert n > 0;
    hide WordRun, AllDigits, LoneNumber, IsWord;
    if AllDigits(s[..n]) {
      WholeIsLone(s, n);
    } else if !NoLoneNumber(s) {
      hide NoLoneNumber;
      LoneIsLater(s);
    } else if !NoLoneNumber(s[n..]) {
      hide NoLoneNumber;
      LoneWasThere(s, n);
    }
  }

  lemma LoneAfter(s: string, n: nat, i: nat, j: nat)
    requires n <= |s| && (n < |s| ==> !IsWord(s[n])) && LoneNumber(s[n..], i, j)
    ensures LoneNumber(s, n + i, n + j)
  {
    hide LoneNumber, WordChar, IsWord;
    LoneIff(s[n..], i, j);
    LoneStart(s[n..], i, j);
    LoneShifts(s, n, i, j);
  }

  lemma WholeIsLone(s: string, n: nat)
    requires 0 < n <= |s| && AllDigits(s[..n]) && (n < |s| ==> !IsWord(s[n]))
    ensures LoneNumber(s, 0, n)
  {
    hide LoneNumber, IsWord, IsDigit;
    assert forall k | 0 <= k < n :: s[..n][k] == s[k];
    LoneIff(s, 0, n);
  }

  lemma CapitalsIff(s: string)
    ensures NoCapital(s) <==> Lower(s) == s
  {
    forall i | 0 <= i < |s| ensures s[i] !in UPPERCASE <==> LowerChar(s[i]) == s[i] {
      UppercaseIff(s[i]);
    }
    if NoCapital(s) {
      assert forall i | 0 <= i < |s| :: s[i] in s;
      assert forall i | 0 <= i < |s| :: Lower(s)[i] == s[i];
    }
  }

  /** Exactly the texts without capitals, paired quotes, lone numbers and untidy blanks are left as they are. */
  lemma KeptIff(s: string)
    ensures
      Normalize(s) == s <==> NoCapital(s) && NoPairedQuotes(s) && NoLoneNumber(s) && TidyBlanks(s)
  {
    NormalIffFixed(s);
    CapitalsIff(s);
    BlanksIff(s);
    StringsIff(s);
    NumbersIff(s);
    hide Normalize, NoLoneNumber, NoPairedQuotes, TidyBlanks, NoCapital;
  }

  /** The result has no capitals, paired quotes or lone numbers, and only single blanks inside it. */
  lemma ResultIsTidy(s: string)
    ensures
      var r := Normalize(s);
      NoCapital(r) && NoPairedQuotes(r) && NoLoneNumber(r) && TidyBlanks(r)
  {
    NormalizeIsIdempotent(s);
    KeptIff(Normalize(s));
    hide *;
  }

  /** Whitespace at either end is dropped. */
  lemma OuterBlanksAreDropped(u: string, s: string, v: string)
    requires Over(u, WHITESPACE) && Over(v, WHITESPACE)
    ensures Normalize(u + (s + v)) == Normalize(s)
  {
    StripDropsLeft(u, s + v);
    StripDropsRight(s, v);
    hide Strip, Normalize;
    AbsorbsStrip(u + (s + v));
    AbsorbsStrip(s + v);
    AbsorbsStrip(s);
  }

  lemma {:induction false} StripDropsLeft(u: string, s: string)
    requires Over(u, WHITESPACE)
    ensures Strip(u + s) == Strip(s)
  {
    if |u| == 0 {
      assert u + s == s;
    } else {
      SpaceIff(u[0]);
      assert (u + s)[1..] == u[1..] + s;
      StripDropsLeft(u[1..], s);
    }
  }

  lemma {:induction false} StripDropsRight(s: string, v: string)
    requires Over(v, WHITESPACE)
    ensures Strip(s + v) == Strip(s)
  {
    if |v| == 0 {
      assert s + v == s;
    } else {
      var last := |v| - 1;
      SpaceIff(v[last]);
      assert s + v == (s + v[..last]) + [v[last]];
      StripDropsRight(s, v[..last]);
      StripLeftSnoc(s + v[..last], v[last]);
    }
  }

  lemma {:induction false} StripLeftSnoc(s: string, w: char)
    requires IsSpace(w)
    ensures Strip(s + [w]) == Strip(s)
  {
    if |s| > 0 && IsSpace(s[0]) {
      assert (s + [w])[1..] == s[1..] + [w];
      StripLeftSnoc(s[1..], w);
    } else if |s| > 0 {
      assert (s + [w])[..|s|] == s;
    } else {
      assert s + [w] == [w] && [w][1..] == "";
    }
  }
}
