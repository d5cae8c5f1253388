/**
 Query fingerprinting (agent/nodes/observe.py and its copy workers/common/incident.py):
 lowercase, collapse literals, collapse numbers, collapse whitespace.
 */
module QueryNormalizer {
  import opened Prelude

  // ----- the three rewriting passes

  /** Index of the first `c`, or the length when there is none. */
  function Find(s: string, c: char): (n: nat)
    ensures n <= |s|
    ensures n < |s| ==> s[n] == c
    ensures forall i | 0 <= i < n :: s[i] != c
  {
    if |s| == 0 || s[0] == c then 0 else 1 + Find(s[1..], c)
  }

  predicate IsQuote(c: char) {
    c == '\'' || c == '"'
  }

  /** `_STRING_LITERAL.sub("?", s)`: a quote with a later equal quote, scanning from the left. */
  function Strings(s: string): string
    decreases |s|
  {
    if |s| == 0 then ""
    else if IsQuote(s[0]) && Find(s[1..], s[0]) < |s| - 1 then "?" + Strings(s[2 + Find(s[1..], s[0])..])
    else [s[0]] + Strings(s[1..])
  }

  function WordRun(s: string): (n: nat)
    ensures n <= |s|
    ensures forall i | 0 <= i < n :: IsWord(s[i])
    ensures n < |s| ==> !IsWord(s[n])
  {
    if |s| > 0 && IsWord(s[0]) then 1 + WordRun(s[1..]) else 0
  }

  predicate AllDigits(s: string) {
    forall i | 0 <= i < |s| :: IsDigit(s[i])
  }

  function NumberOr(run: string): string {
    if AllDigits(run) then "?" else run
  }

  /** `_NUMBER_LITERAL.sub("?", s)`: a whole word that is all digits. */
  function Numbers(s: string): string
    decreases |s|
  {
    if |s| == 0 then ""
    else if IsWord(s[0]) then NumberOr(s[..WordRun(s)]) + Numbers(s[WordRun(s)..])
    else [s[0]] + Numbers(s[1..])
  }

  /** `re.sub(r"\s+", " ", s)`; `inRun` says that the run's blank is already printed. */
  function Collapse(s: string, inRun: bool): string {
    if |s| == 0 then ""
    else if IsSpace(s[0]) then (if inRun then "" else " ") + Collapse(s[1..], true)
    else [s[0]] + Collapse(s[1..], false)
  }

  function Normalize(sql: string): string {
    Collapse(Numbers(Strings(Lower(Strip(sql)))), false)
  }

  // ----- the number pass is the regular expression

  function DigitRun(s: string): (n: nat)
    ensures n <= |s|
    ensures forall i | 0 <= i < n :: IsDigit(s[i])
    ensures n < |s| ==> !IsDigit(s[n])
  {
    if |s| > 0 && IsDigit(s[0]) then 1 + DigitRun(s[1..]) else 0
  }

  /**
   Left-to-right substitution of `\b\d+\b`. `afterWord`: the previous character is a word
   character, so there is no boundary before a digit here. Backtracking into the digits
   cannot help, since two digits have no boundary between them.
   */
  function SubstituteNumbers(s: string, afterWord: bool): string
    decreases |s|
  {
    if |s| == 0 then ""
    else
      var n := DigitRun(s);
      if n > 0 && !afterWord && (n == |s| || !IsWord(s[n])) then "?" + SubstituteNumbers(s[n..], true)
      else [s[0]] + SubstituteNumbers(s[1..], IsWord(s[0]))
  }

  lemma {:induction false} SubstituteInsideWord(s: string)
    ensures SubstituteNumbers(s, true) == s[..WordRun(s)] + SubstituteNumbers(s[WordRun(s)..], false)
    decreases |s|
  {
    if |s| > 0 {
      if IsWord(s[0]) {
        SubstituteInsideWord(s[1..]);
        assert s[WordRun(s)..] == s[1..][WordRun(s[1..])..];
        assert s[..WordRun(s)] == [s[0]] + s[1..][..WordRun(s[1..])];
      } else {
        assert s[WordRun(s)..] == s && DigitRun(s) == 0;
      }
    }
  }

  lemma DigitRunOfWord(s: string)
    requires |s| > 0 && IsWord(s[0])
    ensures AllDigits(s[..WordRun(s)]) <==> DigitRun(s) == WordRun(s)
    ensures DigitRun(s) <= WordRun(s)
  {
    var n, d := WordRun(s), DigitRun(s);
    assert n < |s| ==> !IsDigit(s[n]);
    assert forall i | 0 <= i < n :: s[..n][i] == s[i];
    assert d < n ==> s[..n][d] == s[d] && !IsDigit(s[d]);
  }

  lemma SubstituteAfterWord(s: string)
    requires |s| > 0 ==> !IsWord(s[0])
    ensures SubstituteNumbers(s, true) == SubstituteNumbers(s, false)
  {
  }

  lemma SubstituteNumber(s: string, n: nat)
    requires 0 < n == DigitRun(s) && (n == |s| || !IsWord(s[n]))
    ensures SubstituteNumbers(s, false) == "?" + SubstituteNumbers(s[n..], false)
  {
    SubstituteAfterWord(s[n..]);
  }

  lemma SubstituteCopies(s: string)
    requires |s| > 0 && DigitRun(s) < |s| && IsWord(s[0]) && IsWord(s[DigitRun(s)])
    ensures SubstituteNumbers(s, false) == [s[0]] + SubstituteNumbers(s[1..], true)
  {
  }

  lemma TakeAfterFirst(s: string, n: nat, tail: string)
    requires 0 < n <= |s|
    ensures [s[0]] + (s[1..][..n - 1] + tail) == s[..n] + tail
    ensures s[1..][n - 1..] == s[n..]
  {
  }

  lemma SubstituteOther(s: string, n: nat)
    requires |s| > 0 && IsWord(s[0]) && DigitRun(s) < n == WordRun(s)
    ensures SubstituteNumbers(s, false) == s[..n] + SubstituteNumbers(s[n..], false)
  {
    hide SubstituteNumbers;
    SubstituteCopies(s);
    SubstituteInsideWord(s[1..]);
    assert WordRun(s[1..]) == n - 1;
    hide WordRun, DigitRun;
    TakeAfterFirst(s, n, SubstituteNumbers(s[n..], false));
  }

  lemma SubstituteRun(s: string)
    requires |s| > 0 && IsWord(s[0])
    ensures
      var n := WordRun(s);
      SubstituteNumbers(s, false) == NumberOr(s[..n]) + SubstituteNumbers(s[n..], false)
  {
    DigitRunOfWord(s);
    if DigitRun(s) < WordRun(s) {
      SubstituteOther(s, WordRun(s));
    } else {
      SubstituteNumber(s, WordRun(s));
    }
  }

  /** The word-by-word pass is the left-to-right substitution of the regular expression. */
  lemma {:induction false} NumbersIsSubstitution(s: string)
    ensures Numbers(s) == SubstituteNumbers(s, false)
    decreases |s|
  {
    if |s| > 0 {
      if IsWord(s[0]) {
        NumbersIsSubstitution(s[WordRun(s)..]);
        SubstituteRun(s);
      } else {
        NumbersIsSubstitution(s[1..]);
      }
    }
  }

  // ----- every pass against Lower

  lemma {:induction false} LowerConcat(a: string, b: string)
    ensures Lower(a + b) == Lower(a) + Lower(b)
  {
    assert forall i | 0 <= i < |a + b| :: Lower(a + b)[i] == (Lower(a) + Lower(b))[i];
  }

  lemma LowerTwice(s: string)
    ensures Lower(Lower(s)) == Lower(s)
  {
    assert forall i | 0 <= i < |s| :: Lower(Lower(s))[i] == Lower(s)[i];
  }

  predicate StartsLiteral(s: string) {
    |s| > 0 && IsQuote(s[0]) && Find(s[1..], s[0]) < |s| - 1
  }

  lemma StartsLiteralLower(s: string)
    requires |s| > 0
    ensures StartsLiteral(Lower(s)) <==> StartsLiteral(s)
    ensures IsQuote(s[0]) ==> Find(Lower(s)[1..], s[0]) == Find(s[1..], s[0])
  {
    assert Lower(s)[1..] == Lower(s[1..]);
    if IsQuote(s[0]) {
      FindLower(s[1..], s[0]);
    }
  }

  lemma LowerSlice(s: string, n: nat)
    requires n <= |s|
    ensures Lower(s)[n..] == Lower(s[n..]) && Lower(s)[..n] == Lower(s[..n])
  {
  }

  lemma {:induction false} StringsLower(s: string)
    ensures Strings(Lower(s)) == Lower(Strings(s))
    decreases |s|
  {
    if |s| > 0 {
      StartsLiteralLower(s);
      if StartsLiteral(s) {
        var n := 2 + Find(s[1..], s[0]);
        LowerSlice(s, n);
        StringsLower(s[n..]);
        LowerConcat("?", Strings(s[n..]));
      } else {
        LowerSlice(s, 1);
        StringsLower(s[1..]);
        LowerConcat([s[0]], Strings(s[1..]));
      }
    }
  }

  lemma {:induction false} FindLower(s: string, c: char)
    requires IsQuote(c)
    ensures Find(Lower(s), c) == Find(s, c)
  {
    if |s| > 0 && s[0] != c {
      FindLower(s[1..], c);
      assert Lower(s)[1..] == Lower(s[1..]);
    }
  }

  lemma {:induction false} WordRunLower(s: string)
    ensures WordRun(Lower(s)) == WordRun(s)
  {
    if |s| > 0 && IsWord(s[0]) {
      WordRunLower(s[1..]);
      assert Lower(s)[1..] == Lower(s[1..]);
    }
  }

  lemma {:induction false} StripLeftLower(s: string)
    ensures StripLeft(Lower(s)) == Lower(StripLeft(s))
  {
    if |s| > 0 && IsSpace(s[0]) {
      StripLeftLower(s[1..]);
      assert Lower(s)[1..] == Lower(s[1..]);
    }
  }

  lemma {:induction false} StripRightLower(s: string)
    ensures StripRight(Lower(s)) == Lower(StripRight(s))
  {
    if |s| > 0 && IsSpace(s[|s| - 1]) {
      StripRightLower(s[..|s| - 1]);
      assert Lower(s)[..|s| - 1] == Lower(s[..|s| - 1]);
    }
  }

  // ----- a pass on a string in two parts

  lemma {:induction false} FindAppend(a: string, b: string, c: char)
    ensures Find(a + b, c) == if Find(a, c) < |a| then Find(a, c) else |a| + Find(b, c)
  {
    if |a| == 0 {
      assert a + b == b;
    } else if a[0] != c {
      assert (a + b)[1..] == a[1..] + b;
      FindAppend(a[1..], b, c);
    }
  }

  lemma {:induction false} WordRunAppend(a: string, b: string)
    ensures WordRun(a + b) == if WordRun(a) < |a| then WordRun(a) else |a| + WordRun(b)
  {
    if |a| == 0 {
      assert a + b == b;
    } else if IsWord(a[0]) {
      assert (a + b)[1..] == a[1..] + b;
      WordRunAppend(a[1..], b);
    }
  }

  predicate StartsWord(s: string) {
    |s| > 0 && IsWord(s[0])
  }

  predicate EndsWord(s: string) {
    |s| > 0 && IsWord(s[|s| - 1])
  }

  lemma EndsWordTail(a: string, n: nat)
    requires n <= |a|
    ensures EndsWord(a[n..]) ==> EndsWord(a)
  {
  }

  lemma NumbersTakeRun(a: string, b: string)
    requires |a| > 0 && IsWord(a[0]) && !(EndsWord(a) && StartsWord(b))
    ensures
      var n := WordRun(a);
      Numbers(a + b) == NumberOr(a[..n]) + Numbers(a[n..] + b)
  {
    var n := WordRun(a);
    WordRunAppend(a, b);
    assert (a + b)[..n] == a[..n] && (a + b)[n..] == a[n..] + b;
  }

  /** The number pass works on both sides of any place that is not inside a word. */
  lemma {:induction false} NumbersConcat(a: string, b: string)
    requires !(EndsWord(a) && StartsWord(b))
    ensures Numbers(a + b) == Numbers(a) + Numbers(b)
    decreases |a|
  {
    if |a| == 0 {
      assert a + b == b;
    } else {
      var n := if IsWord(a[0]) then WordRun(a) else 1;
      EndsWordTail(a, n);
      NumbersConcat(a[n..], b);
      if IsWord(a[0]) {
        NumbersTakeRun(a, b);
        assert Numbers(a) == NumberOr(a[..n]) + Numbers(a[n..]);
        hide Numbers, NumberOr, WordRun;
        Regroup(NumberOr(a[..n]), Numbers(a[n..]), Numbers(b));
      } else {
        assert (a + b)[1..] == a[1..] + b;
        Regroup([a[0]], Numbers(a[1..]), Numbers(b));
      }
    }
  }

  lemma Regroup(x: string, y: string, z: string)
    ensures (x + y) + z == x + (y + z)
  {
  }

  lemma {:induction false} CollapseConcat(a: string, b: string, inRun: bool)
    ensures Collapse(a + b, inRun) == Collapse(a, inRun) + Collapse(b, if |a| == 0 then inRun else IsSpace(a[|a| - 1]))
  {
    if |a| == 0 {
      assert a + b == b;
    } else {
      assert (a + b)[1..] == a[1..] + b;
      CollapseConcat(a[1..], b, IsSpace(a[0]));
    }
  }

  /** Blanks at the end of the text are never part of a closed literal. */
  lemma {:induction false} StringsSpaceEnd(s: string, w: char)
    requires IsSpace(w)
    ensures Strings(s + [w]) == Strings(s) + [w]
    decreases |s|
  {
    if |s| > 0 {
      var t := s + [w];
      assert t[1..] == s[1..] + [w];
      FindAppend(s[1..], [w], s[0]);
      if IsQuote(s[0]) && Find(s[1..], s[0]) < |s| - 1 {
        var n := 2 + Find(s[1..], s[0]);
        assert t[n..] == s[n..] + [w];
        assert Strings(s) == "?" + Strings(s[n..]) && Strings(t) == "?" + Strings(t[n..]);
        hide Strings, Find;
        StringsSpaceEnd(s[n..], w);
        Regroup("?", Strings(s[n..]), [w]);
      } else {
        assert Strings(s) == [s[0]] + Strings(s[1..]) && Strings(t) == [s[0]] + Strings(t[1..]);
        hide Strings, Find;
        StringsSpaceEnd(s[1..], w);
        Regroup([s[0]], Strings(s[1..]), [w]);
      }
    }
  }

  predicate EndsBlank(s: string) {
    |s| > 0 && IsSpace(s[|s| - 1])
  }

  lemma EndsBlankTail(s: string, n: nat)
    requires n <= |s| && (n > 0 ==> !IsSpace(s[n - 1]))
    ensures EndsBlank(s[n..]) <==> EndsBlank(s)
  {
  }

  lemma {:induction false} StringsEnd(s: string)
    ensures EndsBlank(Strings(s)) <==> EndsBlank(s)
    ensures Strings(s) == "" <==> s == ""
    decreases |s|
  {
    if |s| > 0 {
      if IsQuote(s[0]) && Find(s[1..], s[0]) < |s| - 1 {
        var n := 2 + Find(s[1..], s[0]);
        StringsEnd(s[n..]);
        assert s[n - 1] == s[0];
        EndsBlankTail(s, n);
        EndsBlankTail("?" + Strings(s[n..]), 1);
        assert ("?" + Strings(s[n..]))[1..] == Strings(s[n..]);
      } else {
        StringsEnd(s[1..]);
      }
    }
  }

  lemma {:induction false} NumbersEnd(s: string)
    ensures EndsBlank(Numbers(s)) <==> EndsBlank(s)
    ensures Numbers(s) == "" <==> s == ""
    decreases |s|
  {
    if |s| > 0 {
      if IsWord(s[0]) {
        var n := WordRun(s);
        NumbersEnd(s[n..]);
        assert IsWord(s[n - 1]) && s[..n][n - 1] == s[n - 1];
      } else {
        NumbersEnd(s[1..]);
      }
    }
  }

  // ----- Strip against the passes

  lemma {:induction false} StripLeftStrings(s: string)
    ensures StripLeft(Strings(s)) == Strings(StripLeft(s))
  {
    if |s| > 0 && IsSpace(s[0]) {
      StripLeftStrings(s[1..]);
    }
  }

  lemma {:induction false} StripRightStrings(s: string)
    ensures StripRight(Strings(s)) == Strings(StripRight(s))
  {
    if EndsBlank(s) {
      var t := s[..|s| - 1];
      assert s == t + [s[|s| - 1]];
      StringsSpaceEnd(t, s[|s| - 1]);
      assert Strings(s)[..|Strings(s)| - 1] == Strings(t);
      StripRightStrings(t);
    } else {
      StringsEnd(s);
    }
  }

  lemma {:induction false} StripLeftNumbers(s: string)
    ensures StripLeft(Numbers(s)) == Numbers(StripLeft(s))
  {
    if |s| > 0 {
      if IsSpace(s[0]) {
        StripLeftNumbers(s[1..]);
      } else if IsWord(s[0]) {
        assert s[..WordRun(s)][0] == s[0];
      }
    }
  }

  lemma {:induction false} StripRightNumbers(s: string)
    ensures StripRight(Numbers(s)) == Numbers(StripRight(s))
  {
    if EndsBlank(s) {
      var t := s[..|s| - 1];
      assert s == t + [s[|s| - 1]];
      NumbersConcat(t, [s[|s| - 1]]);
      assert Numbers([s[|s| - 1]]) == [s[|s| - 1]];
      assert Numbers(s)[..|Numbers(s)| - 1] == Numbers(t);
      StripRightNumbers(t);
    } else {
      NumbersEnd(s);
    }
  }

  lemma {:induction false} StripLeftCollapse(s: string, inRun: bool)
    ensures StripLeft(Collapse(s, inRun)) == Collapse(StripLeft(s), false)
  {
    if |s| > 0 && IsSpace(s[0]) {
      StripLeftCollapse(s[1..], true);
      var rest := Collapse(s[1..], true);
      assert (" " + rest)[1..] == rest && "" + rest == rest;
    }
  }

  lemma {:induction false} StripRightCollapse(s: string, inRun: bool)
    ensures StripRight(Collapse(s, inRun)) == Collapse(StripRight(s), inRun)
  {
    if |s| > 0 {
      var t, w := s[..|s| - 1], s[|s| - 1];
      assert s == t + [w];
      CollapseConcat(t, [w], inRun);
      var head := Collapse(t, inRun);
      if IsSpace(w) {
        StripRightCollapse(t, inRun);
        assert Collapse(s, inRun) == head || Collapse(s, inRun) == head + " ";
        assert (head + " ")[..|head|] == head;
      } else {
        assert Collapse(s, inRun) == head + [w];
      }
    }
  }

  // ----- the passes against each other

  lemma {:induction false} NumbersLower(s: string)
    ensures Numbers(Lower(s)) == Lower(Numbers(s))
    decreases |s|
  {
    if |s| > 0 {
      var t := Lower(s);
      if IsWord(s[0]) {
        var n := WordRun(s);
        WordRunLower(s);
        assert t[..n] == Lower(s[..n]) && t[n..] == Lower(s[n..]);
        NumberOrLower(s[..n]);
        NumbersLower(s[n..]);
        LowerConcat(NumberOr(s[..n]), Numbers(s[n..]));
      } else {
        assert t[1..] == Lower(s[1..]);
        NumbersLower(s[1..]);
        LowerConcat([s[0]], Numbers(s[1..]));
      }
    }
  }

  lemma NumberOrLower(run: string)
    ensures NumberOr(Lower(run)) == Lower(NumberOr(run))
  {
    assert forall i | 0 <= i < |run| :: IsDigit(Lower(run)[i]) <==> IsDigit(run[i]);
    assert AllDigits(Lower(run)) <==> AllDigits(run);
    assert Lower("?") == "?";
  }

  lemma {:induction false} CollapseLower(s: string, inRun: bool)
    ensures Collapse(Lower(s), inRun) == Lower(Collapse(s, inRun))
  {
    if |s| > 0 {
      assert Lower(s)[1..] == Lower(s[1..]);
      CollapseLower(s[1..], IsSpace(s[0]));
      var head := if !IsSpace(s[0]) then [s[0]] else if inRun then "" else " ";
      LowerConcat(head, Collapse(s[1..], IsSpace(s[0])));
    }
  }

  lemma {:induction false} CollapseKeepsQuotes(s: string, inRun: bool, c: char)
    requires IsQuote(c)
    ensures c in Collapse(s, inRun) <==> c in s
  {
    if |s| > 0 {
      CollapseKeepsQuotes(s[1..], IsSpace(s[0]), c);
      assert s == [s[0]] + s[1..];
    }
  }

  lemma {:induction false} NumbersKeepsQuotes(s: string, c: char)
    requires IsQuote(c)
    ensures c in Numbers(s) <==> c in s
    decreases |s|
  {
    if |s| > 0 {
      var n := if IsWord(s[0]) then WordRun(s) else 1;
      NumbersKeepsQuotes(s[n..], c);
      assert s == s[..n] + s[n..] && s[..1] == [s[0]];
      assert IsWord(s[0]) ==> forall i | 0 <= i < n :: s[..n][i] == s[i];
    }
  }

  lemma DropThroughQuote(body: string, c: char, rest: string)
    ensures (body + ([c] + rest))[|body| + 1..] == rest
  {
  }

  lemma {:induction false} FindSplit(body: string, c: char, rest: string)
    requires c !in body
    ensures Find(body + ([c] + rest), c) == |body|
  {
    if |body| == 0 {
      assert body + ([c] + rest) == [c] + rest;
    } else {
      assert (body + ([c] + rest))[1..] == body[1..] + ([c] + rest);
      FindSplit(body[1..], c, rest);
    }
  }

  /** A text that starts with a closed literal: the literal, then the rest. */
  lemma StringsOfLiteral(q: char, body: string, rest: string)
    requires IsQuote(q) && q !in body
    ensures Strings([q] + (body + ([q] + rest))) == "?" + Strings(rest)
  {
    var s := [q] + (body + ([q] + rest));
    assert s[1..] == body + ([q] + rest);
    FindSplit(body, q, rest);
    DropThroughQuote(body, q, rest);
    assert s[2 + |body|..] == s[1..][1 + |body|..];
  }

  /** A text that starts with a quote that is never closed. */
  lemma StringsOfOpenQuote(q: char, rest: string)
    requires IsQuote(q) && q !in rest
    ensures Strings([q] + rest) == [q] + Strings(rest)
  {
    assert ([q] + rest)[1..] == rest;
  }

  lemma LiteralParts(s: string) returns (body: string, rest: string)
    requires |s| > 0 && IsQuote(s[0]) && s[0] in s[1..]
    ensures s[0] !in body && s == [s[0]] + (body + ([s[0]] + rest)) && |rest| < |s|
    ensures Strings(s) == "?" + Strings(rest)
  {
    var n := Find(s[1..], s[0]);
    body, rest := s[1..][..n], s[2 + n..];
    assert s[1..] == body + ([s[0]] + rest);
    StringsOfLiteral(s[0], body, rest);
  }

  lemma StringsCons(c: char, rest: string)
    requires !IsQuote(c)
    ensures Strings([c] + rest) == [c] + Strings(rest)
  {
    assert ([c] + rest)[1..] == rest;
  }

  lemma {:induction false} StringsCollapse(s: string, inRun: bool)
    ensures Strings(Collapse(s, inRun)) == Collapse(Strings(s), inRun)
    decreases |s|
  {
    if |s| > 0 {
      if IsQuote(s[0]) && s[0] in s[1..] {
        var body, rest := LiteralParts(s);
        StringsCollapse(rest, false);
        CollapseConcat([s[0]], body + ([s[0]] + rest), inRun);
        CollapseConcat(body, [s[0]] + rest, false);
        CollapseConcat([s[0]], rest, |body| > 0 && IsSpace(body[|body| - 1]));
        assert Collapse([s[0]], inRun) == [s[0]];
        CollapseKeepsQuotes(body, false, s[0]);
        StringsOfLiteral(s[0], Collapse(body, false), Collapse(rest, false));
        CollapseConcat("?", Strings(rest), inRun);
        assert Collapse("?", inRun) == "?";
      } else {
        StringsCollapse(s[1..], IsSpace(s[0]));
        var rest := Collapse(s[1..], IsSpace(s[0]));
        if IsQuote(s[0]) {
          CollapseKeepsQuotes(s[1..], false, s[0]);
          StringsOfOpenQuote(s[0], rest);
        } else if IsSpace(s[0]) {
          StringsCons(' ', rest);
          assert "" + rest == rest && "" + Strings(rest) == Strings(rest);
        } else {
          StringsCons(s[0], rest);
        }
      }
    }
  }

  lemma NumbersCons(c: char, rest: string)
    requires !IsWord(c)
    ensures Numbers([c] + rest) == [c] + Numbers(rest)
  {
    assert ([c] + rest)[1..] == rest;
  }

  lemma {:induction false} WordRunOfWord(run: string)
    requires forall i | 0 <= i < |run| :: IsWord(run[i])
    ensures WordRun(run) == |run|
  {
    if |run| > 0 {
      WordRunOfWord(run[1..]);
    }
  }

  lemma NumbersOfRun(run: string, rest: string)
    requires |run| > 0 && (forall i | 0 <= i < |run| :: IsWord(run[i])) && !StartsWord(rest)
    ensures Numbers(run + rest) == NumberOr(run) + Numbers(rest)
  {
    WordRunAppend(run, rest);
    WordRunOfWord(run);
    assert (run + rest)[..|run|] == run && (run + rest)[|run|..] == rest;
  }

  lemma {:induction false} CollapseOfRun(run: string, rest: string, inRun: bool)
    requires |run| > 0 && forall i | 0 <= i < |run| :: !IsSpace(run[i])
    ensures Collapse(run + rest, inRun) == run + Collapse(rest, false)
    decreases |run|
  {
    assert (run + rest)[1..] == run[1..] + rest;
    if |run| > 1 {
      CollapseOfRun(run[1..], rest, false);
      assert [run[0]] + (run[1..] + Collapse(rest, false)) == run + Collapse(rest, false);
    } else {
      assert run[1..] + rest == rest && run == [run[0]];
    }
  }

  lemma {:induction false} NumbersCollapse(s: string, inRun: bool)
    ensures Numbers(Collapse(s, inRun)) == Collapse(Numbers(s), inRun)
    decreases |s|
  {
    if |s| > 0 {
      if IsWord(s[0]) {
        var n := WordRun(s);
        var run, rest := s[..n], s[n..];
        assert s == run + rest;
        NumbersCollapse(rest, false);
        CollapseOfRun(run, rest, inRun);
        NumbersOfRun(run, Collapse(rest, false));
        CollapseOfRun(NumberOr(run), Numbers(rest), inRun);
      } else {
        NumbersCollapse(s[1..], IsSpace(s[0]));
        var rest := Collapse(s[1..], IsSpace(s[0]));
        if IsSpace(s[0]) {
          NumbersCons(' ', rest);
          assert "" + rest == rest && "" + Numbers(rest) == Numbers(rest);
        } else {
          NumbersCons(s[0], rest);
        }
      }
    }
  }

  lemma {:induction false} StringsOfRun(run: string, rest: string)
    requires forall i | 0 <= i < |run| :: !IsQuote(run[i])
    ensures Strings(run + rest) == run + Strings(rest)
    decreases |run|
  {
    if |run| == 0 {
      assert run + rest == rest;
    } else {
      assert run + rest == [run[0]] + (run[1..] + rest);
      StringsCons(run[0], run[1..] + rest);
      StringsOfRun(run[1..], rest);
      assert [run[0]] + (run[1..] + Strings(rest)) == run + Strings(rest);
    }
  }

  lemma StringsStartsWord(s: string)
    ensures StartsWord(Strings(s)) <==> StartsWord(s)
  {
  }

  lemma StringsNumbersLiteral(q: char, body: string, rest: string)
    requires IsQuote(q) && q !in body && Strings(Numbers(rest)) == Numbers(Strings(rest))
    ensures
      var s := [q] + (body + ([q] + rest));
      Strings(Numbers(s)) == Numbers(Strings(s))
  {
    NumbersCons(q, body + ([q] + rest));
    NumbersConcat(body, [q] + rest);
    NumbersCons(q, rest);
    NumbersKeepsQuotes(body, q);
    StringsOfLiteral(q, Numbers(body), Numbers(rest));
    StringsOfLiteral(q, body, rest);
    NumbersCons('?', Strings(rest));
  }

  lemma StringsNumbersRun(run: string, rest: string)
    requires |run| > 0 && (forall i | 0 <= i < |run| :: IsWord(run[i])) && !StartsWord(rest)
    requires Strings(Numbers(rest)) == Numbers(Strings(rest))
    ensures Strings(Numbers(run + rest)) == Numbers(Strings(run + rest))
  {
    StringsStartsWord(rest);
    NumbersOfRun(run, rest);
    StringsOfRun(run, rest);
    NumbersOfRun(run, Strings(rest));
    StringsOfRun(NumberOr(run), Numbers(rest));
  }

  lemma {:induction false} StringsNumbers(s: string)
    ensures Strings(Numbers(s)) == Numbers(Strings(s))
    decreases |s|
  {
    if |s| > 0 {
      if IsWord(s[0]) {
        var n := WordRun(s);
        StringsNumbers(s[n..]);
        StringsNumbersRun(s[..n], s[n..]);
        assert s == s[..n] + s[n..];
      } else if IsQuote(s[0]) && s[0] in s[1..] {
        var body, rest := LiteralParts(s);
        StringsNumbers(rest);
        StringsNumbersLiteral(s[0], body, rest);
      } else {
        StringsNumbers(s[1..]);
        if IsQuote(s[0]) {
          NumbersKeepsQuotes(s[1..], s[0]);
          StringsOfOpenQuote(s[0], Numbers(s[1..]));
        } else {
          StringsCons(s[0], Numbers(s[1..]));
        }
        NumbersCons(s[0], Strings(s[1..]));
      }
    }
  }

  // ----- doing a pass twice

  lemma {:induction false} CollapseTwice(s: string, inRun: bool)
    ensures Collapse(Collapse(s, inRun), inRun) == Collapse(s, inRun)
  {
    if |s| > 0 {
      CollapseTwice(s[1..], IsSpace(s[0]));
      var rest := Collapse(s[1..], IsSpace(s[0]));
      if IsSpace(s[0]) {
        assert "" + rest == rest && (" " + rest)[1..] == rest;
      } else {
        assert ([s[0]] + rest)[1..] == rest;
      }
    }
  }

  lemma {:induction false} NumbersTwice(s: string)
    ensures Numbers(Numbers(s)) == Numbers(s)
    ensures StartsWord(Numbers(s)) ==> StartsWord(s)
    decreases |s|
  {
    if |s| > 0 {
      if IsWord(s[0]) {
        var n := WordRun(s);
        var run, rest := s[..n], s[n..];
        NumbersTwice(rest);
        if AllDigits(run) {
          NumbersCons('?', Numbers(rest));
        } else {
          NumbersOfRun(run, Numbers(rest));
        }
      } else {
        NumbersTwice(s[1..]);
        NumbersCons(s[0], Numbers(s[1..]));
      }
    }
  }

  lemma {:induction false} StringsQuotes(s: string, c: char)
    requires c in Strings(s) && IsQuote(c)
    ensures c in s
    decreases |s|
  {
    if IsQuote(s[0]) && s[0] in s[1..] {
      var _, rest := LiteralParts(s);
      StringsQuotes(rest, c);
    } else if c != s[0] {
      StringsQuotes(s[1..], c);
    }
  }

  lemma {:induction false} StringsTwice(s: string)
    ensures Strings(Strings(s)) == Strings(s)
    decreases |s|
  {
    if |s| > 0 {
      if IsQuote(s[0]) && s[0] in s[1..] {
        var _, rest := LiteralParts(s);
        StringsTwice(rest);
        StringsCons('?', Strings(rest));
      } else {
        StringsTwice(s[1..]);
        if IsQuote(s[0]) {
          if s[0] in Strings(s[1..]) {
            StringsQuotes(s[1..], s[0]);
          }
          StringsOfOpenQuote(s[0], Strings(s[1..]));
        } else {
          StringsCons(s[0], Strings(s[1..]));
        }
      }
    }
  }

  lemma {:induction false} StripRightTwice(s: string)
    ensures StripRight(StripRight(s)) == StripRight(s)
  {
    if EndsBlank(s) {
      StripRightTwice(s[..|s| - 1]);
    }
  }

  lemma {:induction false} StripLeftTwice(s: string)
    ensures StripLeft(StripLeft(s)) == StripLeft(s)
  {
    if |s| > 0 && IsSpace(s[0]) {
      StripLeftTwice(s[1..]);
    }
  }

  lemma {:induction false} StripRightOfStart(s: string)
    requires |s| > 0 && !IsSpace(s[0])
    ensures |StripRight(s)| > 0 && StripRight(s)[0] == s[0]
  {
    if EndsBlank(s) {
      StripRightOfStart(s[..|s| - 1]);
    }
  }

  lemma {:induction false} StripTwice(s: string)
    ensures Strip(Strip(s)) == Strip(s)
  {
    var t := StripLeft(s);
    StripLeftTwice(s);
    if t != "" {
      StripLeftStart(s);
      StripRightOfStart(t);
      assert StripLeft(StripRight(t)) == StripRight(t);
    }
    StripRightTwice(t);
  }

  // ----- the whole normalization absorbs every pass

  lemma AbsorbsLower(s: string)
    ensures Normalize(Lower(s)) == Normalize(s)
  {
    StripLeftLower(s);
    StripRightLower(StripLeft(s));
    LowerTwice(Strip(s));
  }

  lemma AbsorbsStrip(s: string)
    ensures Normalize(Strip(s)) == Normalize(s)
  {
    StripTwice(s);
  }

  lemma AbsorbsStrings(s: string)
    ensures Normalize(Strings(s)) == Normalize(s)
  {
    StripLeftStrings(s);
    StripRightStrings(StripLeft(s));
    StringsLower(Strip(s));
    StringsTwice(Lower(Strip(s)));
  }

  lemma AbsorbsNumbers(s: string)
    ensures Normalize(Numbers(s)) == Normalize(s)
  {
    StripLeftNumbers(s);
    StripRightNumbers(StripLeft(s));
    NumbersLower(Strip(s));
    StringsNumbers(Lower(Strip(s)));
    NumbersTwice(Strings(Lower(Strip(s))));
  }

  lemma AbsorbsCollapse(s: string)
    ensures Normalize(Collapse(s, false)) == Normalize(s)
  {
    StripLeftCollapse(s, false);
    StripRightCollapse(StripLeft(s), false);
    CollapseLower(Strip(s), false);
    StringsCollapse(Lower(Strip(s)), false);
    NumbersCollapse(Strings(Lower(Strip(s))), false);
    CollapseTwice(Numbers(Strings(Lower(Strip(s)))), false);
  }

  /** Normalizing twice is normalizing once. */
  lemma NormalizeIsIdempotent(s: string)
    ensures Normalize(Normalize(s)) == Normalize(s)
  {
    var lowered := Lower(Strip(s));
    AbsorbsCollapse(Numbers(Strings(lowered)));
    AbsorbsNumbers(Strings(lowered));
    AbsorbsStrings(lowered);
    AbsorbsLower(Strip(s));
    AbsorbsStrip(s);
  }

  /** Texts that differ only in letter case normalize alike. */
  lemma CaseIsIgnored(s: string, t: string)
    requires Lower(s) == Lower(t)
    ensures Normalize(s) == Normalize(t)
  {
    AbsorbsLower(s);
    AbsorbsLower(t);
  }

  /** Texts that differ only in the length or kind of their whitespace runs normalize alike. */
  lemma WhitespaceIsIgnored(s: string, t: string)
    requires Collapse(s, false) == Collapse(t, false)
    ensures Normalize(s) == Normalize(t)
  {
    AbsorbsCollapse(s);
    AbsorbsCollapse(t);
  }

  predicate IsNumber(s: string) {
    |s| > 0 && AllDigits(s)
  }

  lemma NumbersOfNumber(before: string, n: string, after: string)
    requires IsNumber(n) && !EndsWord(before) && !StartsWord(after)
    ensures Numbers(before + (n + after)) == Numbers(before) + ("?" + Numbers(after))
  {
    NumbersConcat(before, n + after);
    assert forall i | 0 <= i < |n| :: IsWord(n[i]);
    NumbersOfRun(n, after);
  }

  /** Replacing one standalone number by another changes nothing. */
  lemma NumberValuesAreIgnored(before: string, m: string, n: string, after: string)
    requires IsNumber(m) && IsNumber(n) && !EndsWord(before) && !StartsWord(after)
    ensures Normalize(before + (m + after)) == Normalize(before + (n + after))
  {
    NumbersOfNumber(before, m, after);
    NumbersOfNumber(before, n, after);
    AbsorbsNumbers(before + (m + after));
    AbsorbsNumbers(before + (n + after));
  }

  /**
   A literal with either content starts behind `before`: a quote that is still open there is
   of the other kind and is not closed by either content.
   */
  predicate StartsLiteralAfter(before: string, q: char, x: string, y: string) {
    forall c | c in Strings(before) && IsQuote(c) :: c != q && c !in x && c !in y
  }

  lemma LiteralThen(q: char, body: string, rest: string, b: string)
    requires IsQuote(q) && q !in body
    ensures Strings([q] + (body + ([q] + rest)) + b) == "?" + Strings(rest + b)
  {
    StringsOfLiteral(q, body, rest + b);
    assert [q] + (body + ([q] + rest)) + b == [q] + (body + ([q] + (rest + b)));
  }

  /** An open quote before the literal swallows it up to the next such quote, or stays as it is. */
  lemma OpenQuoteThen(c: char, rest: string, q: char, x: string, after: string)
    requires IsQuote(c) && c !in rest && c != q && c !in x
    ensures
      var s := [q] + (x + ([q] + after));
      Strings([c] + (rest + s)) ==
        if c in after then "?" + Strings(after[Find(after, c) + 1..]) else [c] + Strings(rest + s)
  {
    var s := [q] + (x + ([q] + after));
    hide Strings, Find;
    if c in after {
      var n := Find(after, c);
      var tail := after[n + 1..];
      var body := rest + ([q] + (x + ([q] + after[..n])));
      CutAtQuote(rest, q, x, after, c);
      StringsOfLiteral(c, body, tail);
    } else {
      StringsOfOpenQuote(c, rest + s);
    }
  }

  lemma CutAtQuote(rest: string, q: char, x: string, after: string, c: char)
    requires c in after
    ensures
      var n := Find(after, c);
      && n < |after|
      && rest + ([q] + (x + ([q] + after))) == rest + ([q] + (x + ([q] + after[..n]))) + ([c] + after[n + 1..])
      && c !in after[..n]
  {
    var n := Find(after, c);
    hide Find;
    assert after == after[..n] + ([c] + after[n + 1..]);
  }

  lemma {:induction false} LiteralContentIsDropped(before: string, q: char, x: string, y: string, after: string)
    requires IsQuote(q) && q !in x && q !in y && StartsLiteralAfter(before, q, x, y)
    ensures Strings(before + ([q] + (x + ([q] + after)))) == Strings(before + ([q] + (y + ([q] + after))))
    decreases |before|
  {
    var s, t := [q] + (x + ([q] + after)), [q] + (y + ([q] + after));
    if |before| == 0 {
      assert before + s == s && before + t == t;
      StringsOfLiteral(q, x, after);
      StringsOfLiteral(q, y, after);
    } else if IsQuote(before[0]) && before[0] in before[1..] {
      var body, rest := LiteralParts(before);
      assert Strings(before) == "?" + Strings(rest);
      LiteralThen(before[0], body, rest, s);
      LiteralThen(before[0], body, rest, t);
      LiteralContentIsDropped(rest, q, x, y, after);
    } else {
      var c, rest := before[0], before[1..];
      assert before + s == [c] + (rest + s) && before + t == [c] + (rest + t);
      assert Strings(before) == [c] + Strings(rest);
      LiteralContentIsDropped(rest, q, x, y, after);
      if IsQuote(c) {
        assert c in Strings(before);
        OpenQuoteThen(c, rest, q, x, after);
        OpenQuoteThen(c, rest, q, y, after);
      } else {
        StringsCons(c, rest + s);
        StringsCons(c, rest + t);
      }
    }
  }

  /** Replacing the contents of any literal of a text by contents without its quote changes nothing. */
  lemma LiteralValuesAreIgnored(before: string, q: char, x: string, y: string, after: string)
    requires IsQuote(q) && q !in x && q !in y && StartsLiteralAfter(before, q, x, y)
    ensures Normalize(before + ([q] + (x + ([q] + after)))) == Normalize(before + ([q] + (y + ([q] + after))))
  {
    LiteralContentIsDropped(before, q, x, y, after);
    AbsorbsStrings(before + ([q] + (x + ([q] + after))));
    AbsorbsStrings(before + ([q] + (y + ([q] + after))));
  }

  /** No pass finds anything left to do. */
  predicate IsNormal(s: string) {
    Strip(s) == s && Lower(s) == s && Strings(s) == s && Numbers(s) == s && Collapse(s, false) == s
  }

  lemma NormalizeIsNormal(s: string)
    ensures IsNormal(Normalize(s))
  {
    var low := Lower(Strip(s));
    var str := Strings(low);
    var num := Numbers(str);
    CollapseTwice(num, false);
    NumbersCollapse(num, false);
    NumbersTwice(str);
    StringsCollapse(num, false);
    StringsNumbers(str);
    StringsTwice(low);
    CollapseLower(num, false);
    NumbersLower(str);
    StringsLower(low);
    LowerTwice(Strip(s));
    StripLeftCollapse(num, false);
    StripRightCollapse(StripLeft(num), false);
    StripLeftNumbers(str);
    StripRightNumbers(StripLeft(str));
    StripLeftStrings(low);
    StripRightStrings(StripLeft(low));
    StripLeftLower(Strip(s));
    StripRightLower(StripLeft(Strip(s)));
    StripTwice(s);
  }

  /** The normal texts are exactly the fixed points, so two different normal texts are never confused. */
  lemma NormalIffFixed(s: string)
    ensures IsNormal(s) <==> Normalize(s) == s
  {
    NormalizeIsNormal(s);
  }
}
