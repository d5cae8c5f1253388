/**
 The normalization as a rewriting system: five rules with the characters written out, none of
 them naming a pass. A normalized text is the one text without anything left to rewrite that
 can be reached from the query, in whatever order the rules are used.
 */
module QueryRewriting {
  import opened Prelude
  import opened Alphabets
  import opened QueryNormalizer
  import opened QueryLaws

  /** One use of a rule, with the text on either side. */
  datatype Rewrite =
    | Blank(a: string, u: string, b: string)
    | Outer(u: string, s: string, v: string)
    | Small(a: string, k: nat, b: string)
    | Number(a: string, d: string, b: string)
    | Literal(a: string, q: char, x: string, b: string)

  predicate Allowed(w: Rewrite) {
    match w
    case Blank(_, u, _) => |u| > 0 && Over(u, WHITESPACE)
    case Outer(u, _, v) => Over(u, WHITESPACE) && Over(v, WHITESPACE)
    case Small(_, k, _) => k < 26
    case Number(a, d, b) =>
      && |d| > 0 && Over(d, DIGITS)
      && (|a| > 0 ==> !WordChar(a[|a| - 1]))
      && (|b| > 0 ==> !WordChar(b[0]))
    case Literal(a, q, x, b) => (q == '\'' || q == '"') && q !in x && QuotesAreSingle(a, [q] + (x + ([q] + b)))
  }

  /** No quote of `a` is met again, in `a` or in `rest`. */
  predicate QuotesAreSingle(a: string, rest: string) {
    forall i | 0 <= i < |a| && (a[i] == '\'' || a[i] == '"') :: a[i] !in a[i + 1..] && a[i] !in rest
  }

  function From(w: Rewrite): string
    requires Allowed(w)
  {
    match w
    case Blank(a, u, b) => a + (u + b)
    case Outer(u, s, v) => u + (s + v)
    case Small(a, k, b) => a + ([UPPERCASE[k]] + b)
    case Number(a, d, b) => a + (d + b)
    case Literal(a, q, x, b) => a + ([q] + (x + ([q] + b)))
  }

  function To(w: Rewrite): string
    requires Allowed(w)
  {
    match w
    case Blank(a, _, b) => a + (" " + b)
    case Outer(_, s, _) => s
    case Small(a, k, b) => a + ([LOWERCASE[k]] + b)
    case Number(a, _, b) => a + ("?" + b)
    case Literal(a, _, _, b) => a + ("?" + b)
  }

  ghost predicate Rewrites(s: string, t: string) {
    exists w :: Allowed(w) && From(w) == s && To(w) == t
  }

  /** A way from `s` to `t`, one rewriting after another. */
  ghost predicate IsWay(way: seq<string>, s: string, t: string) {
    && |way| > 0 && way[0] == s && way[|way| - 1] == t
    && (forall i | 0 < i < |way| :: Rewrites(way[i - 1], way[i]))
  }

  ghost predicate Leads(s: string, t: string) {
    exists way :: IsWay(way, s, t)
  }

  ghost predicate Tidy(s: string) {
    NoCapital(s) && NoPairedQuotes(s) && NoLoneNumber(s) && TidyBlanks(s)
  }

  // ----- every rule keeps the normal form

  lemma {:induction false} SingleQuotesAreKept(a: string, rest: string)
    requires QuotesAreSingle(a, rest)
    ensures Strings(a + rest) == a + Strings(rest)
    decreases |a|
  {
    if |a| == 0 {
      assert a + rest == rest;
    } else {
      var c, more := a[0], a[1..];
      TailIsSingle(a, rest);
      hide Strings, QuotesAreSingle;
      SingleQuotesAreKept(more, rest);
      Regroup([c], more, rest);
      assert a == [c] + more;
      if IsQuote(c) {
        StringsOfOpenQuote(c, more + rest);
      } else {
        StringsCons(c, more + rest);
      }
      Regroup([c], more, Strings(rest));
    }
  }

  lemma TailIsSingle(a: string, rest: string)
    requires |a| > 0 && QuotesAreSingle(a, rest)
    ensures QuotesAreSingle(a[1..], rest)
    ensures IsQuote(a[0]) ==> a[0] !in a[1..] + rest
  {
    var more := a[1..];
    forall i | 0 <= i < |more| && (more[i] == '\'' || more[i] == '"')
      ensures more[i] !in more[i + 1..] && more[i] !in rest
    {
      assert more[i] == a[i + 1] && more[i + 1..] == a[i + 2..];
    }
  }

  lemma FirstLiteralBecomesMark(a: string, q: char, x: string, b: string)
    requires IsQuote(q) && q !in x && QuotesAreSingle(a, [q] + (x + ([q] + b)))
    ensures Normalize(a + ([q] + (x + ([q] + b)))) == Normalize(a + ("?" + b))
  {
    var rest := [q] + (x + ([q] + b));
    assert forall c | c in b :: c in rest;
    assert QuotesAreSingle(a, "?" + b);
    SingleQuotesAreKept(a, rest);
    SingleQuotesAreKept(a, "?" + b);
    StringsOfLiteral(q, x, b);
    StringsCons('?', b);
    hide Normalize, Strings;
    AbsorbsStrings(a + rest);
    AbsorbsStrings(a + ("?" + b));
  }

  lemma RuleIsSound(w: Rewrite)
    requires Allowed(w)
    ensures Normalize(From(w)) == Normalize(To(w))
  {
    hide Normalize;
    match w
    case Blank(a, u, b) =>
      SpaceIsWhitespace();
      WhitespaceRunsAreIgnored(a, u, " ", b);
    case Outer(u, s, v) => OuterBlanksAreDropped(u, s, v);
    case Small(a, k, b) => LetterCaseIsIgnored(a, k, b);
    case Number(a, d, b) => NumberBecomesMark(a, d, b);
    case Literal(a, q, x, b) => FirstLiteralBecomesMark(a, q, x, b);
  }

  lemma SpaceIsWhitespace()
    ensures ' ' in WHITESPACE && Over(" ", WHITESPACE)
  {
    assert WHITESPACE[0] == ' ';
  }

  lemma {:induction false} WayKeepsNormalForm(way: seq<string>, s: string, t: string)
    requires IsWay(way, s, t)
    ensures Normalize(s) == Normalize(t)
    decreases |way|
  {
    hide Normalize;
    if |way| > 1 {
      WayKeepsNormalForm(way[..|way| - 1], s, way[|way| - 2]);
      var w :| Allowed(w) && From(w) == way[|way| - 2] && To(w) == t;
      RuleIsSound(w);
    }
  }

  // ----- whatever is not tidy can be rewritten to something lighter

  predicate Heavy(c: char) {
    c in UPPERCASE || c in DIGITS || (c in WHITESPACE && c != ' ')
  }

  function Weight(s: string): (n: nat)
    ensures n >= |s|
  {
    if |s| == 0 then 0 else (if Heavy(s[0]) then 2 else 1) + Weight(s[1..])
  }

  lemma {:induction false} WeightConcat(a: string, b: string)
    ensures Weight(a + b) == Weight(a) + Weight(b)
  {
    if |a| == 0 {
      assert a + b == b;
    } else {
      assert (a + b)[1..] == a[1..] + b;
      WeightConcat(a[1..], b);
    }
  }

  lemma Lighter(a: string, u: string, v: string, b: string)
    requires Weight(v) < Weight(u)
    ensures Weight(a + (v + b)) < Weight(a + (u + b))
  {
    WeightConcat(a, v + b);
    WeightConcat(v, b);
    WeightConcat(a, u + b);
    WeightConcat(u, b);
  }

  lemma WeightOfOne(c: char)
    ensures Weight([c]) == if Heavy(c) then 2 else 1
  {
    assert [c][1..] == "";
  }

  lemma WeightOfSmall(k: nat)
    requires k < 26
    ensures Weight([LOWERCASE[k]]) < Weight([UPPERCASE[k]])
  {
    var c := LOWERCASE[k];
    LettersAt(k);
    UppercaseIff(c);
    DigitIff(c);
    SpaceIff(c);
    WeightOfOne(c);
    WeightOfOne(UPPERCASE[k]);
  }

  lemma WeightOfMark()
    ensures Weight("?") == 1 && Weight(" ") == 1
  {
    UppercaseIff('?');
    DigitIff('?');
    SpaceIff('?');
    UppercaseIff(' ');
    DigitIff(' ');
    WeightOfOne('?');
    WeightOfOne(' ');
  }

  lemma CutAt(s: string, i: nat, j: nat)
    requires i <= j <= |s|
    ensures s[..i] + (s[i..j] + s[j..]) == s
  {
  }

  /** A use of a rule on `s` that makes it lighter. */
  predicate Improves(w: Rewrite, s: string) {
    Allowed(w) && From(w) == s && Weight(To(w)) < Weight(s)
  }

  lemma ImproveCapital(s: string) returns (w: Rewrite)
    requires !NoCapital(s)
    ensures Improves(w, s)
  {
    var i :| 0 <= i < |s| && s[i] in UPPERCASE;
    var k :| 0 <= k < 26 && UPPERCASE[k] == s[i];
    w := Small(s[..i], k, s[i + 1..]);
    CutAt(s, i, i + 1);
    assert s[i..i + 1] == [UPPERCASE[k]];
    WeightOfSmall(k);
    Lighter(w.a, [UPPERCASE[k]], [LOWERCASE[k]], w.b);
  }

  lemma ImproveNumber(s: string) returns (w: Rewrite)
    requires !NoLoneNumber(s)
    ensures Improves(w, s)
  {
    var i: nat, j: nat :| LoneNumber(s, i, j);
    var d := s[i..j];
    w := Number(s[..i], d, s[j..]);
    CutAt(s, i, j);
    WeightOfMark();
    assert d[0] in d && Heavy(d[0]);
    Lighter(w.a, d, "?", w.b);
  }

  lemma ImproveBlank(s: string) returns (w: Rewrite)
    requires !TidyBlanks(s)
    ensures Improves(w, s)
  {
    var i :| 0 <= i < |s| && s[i] in WHITESPACE
      && !(s[i] == ' ' && 0 < i < |s| - 1 && s[i - 1] !in WHITESPACE && s[i + 1] !in WHITESPACE);
    if i == 0 || i == |s| - 1 {
      w := ImproveOuter(s, i);
    } else if s[i] != ' ' {
      w := ImproveRun(s, i, i + 1);
    } else if s[i - 1] in WHITESPACE {
      w := ImproveRun(s, i - 1, i + 1);
    } else {
      w := ImproveRun(s, i, i + 2);
    }
  }

  lemma ImproveOuter(s: string, i: nat) returns (w: Rewrite)
    requires i < |s| && s[i] in WHITESPACE && (i == 0 || i == |s| - 1)
    ensures Improves(w, s)
  {
    WeightOfOne(s[i]);
    if i == 0 {
      w := Outer([s[0]], s[1..], "");
      assert s == [s[0]] + (s[1..] + "");
      WeightConcat([s[0]], s[1..]);
      assert s == [s[0]] + s[1..];
    } else {
      w := Outer("", s[..i], [s[i]]);
      assert s == "" + (s[..i] + [s[i]]);
      WeightConcat(s[..i], [s[i]]);
      assert s == s[..i] + [s[i]];
    }
  }

  lemma ImproveRun(s: string, i: nat, j: nat) returns (w: Rewrite)
    requires i < j <= |s| && (forall k | i <= k < j :: s[k] in WHITESPACE)
    requires j == i + 1 ==> s[i] != ' '
    ensures Improves(w, s)
  {
    var u := s[i..j];
    w := Blank(s[..i], u, s[j..]);
    CutAt(s, i, j);
    WeightOfMark();
    assert u[0] == s[i];
    Lighter(w.a, u, " ", w.b);
  }

  lemma {:induction false} FirstPair(s: string) returns (a: string, q: char, x: string, b: string)
    requires !NoPairedQuotes(s)
    ensures IsQuote(q) && q !in x && s == a + ([q] + (x + ([q] + b))) && QuotesAreSingle(a, [q] + (x + ([q] + b)))
    decreases |s|
  {
    if IsQuote(s[0]) && s[0] in s[1..] {
      var body, rest := LiteralParts(s);
      a, q, x, b := "", s[0], body, rest;
      assert s == "" + ([q] + (x + ([q] + b)));
    } else {
      PairIsLater(s);
      var more;
      more, q, x, b := FirstPair(s[1..]);
      a := [s[0]] + more;
      var rest := [q] + (x + ([q] + b));
      assert s == [s[0]] + s[1..] && a + rest == [s[0]] + (more + rest);
      StillSingle(s[0], more, rest);
    }
  }

  lemma PairIsLater(s: string)
    requires !NoPairedQuotes(s) && !(IsQuote(s[0]) && s[0] in s[1..])
    ensures !NoPairedQuotes(s[1..])
  {
    var i, j :| 0 <= i < j < |s| && s[i] == s[j] && (s[i] == '\'' || s[i] == '"');
    assert s[1..][j - 1] == s[j];
    if i > 0 {
      assert s[1..][i - 1] == s[i];
    }
  }

  lemma StillSingle(c: char, more: string, rest: string)
    requires QuotesAreSingle(more, rest) && (IsQuote(c) ==> c !in more + rest)
    ensures QuotesAreSingle([c] + more, rest)
  {
    var a := [c] + more;
    forall i | 0 <= i < |a| && (a[i] == '\'' || a[i] == '"') ensures a[i] !in a[i + 1..] && a[i] !in rest {
      if i == 0 {
        assert a[1..] == more;
      } else {
        assert a[i] == more[i - 1] && a[i + 1..] == more[i..];
      }
    }
  }

  lemma ImproveLiteral(s: string) returns (w: Rewrite)
    requires !NoPairedQuotes(s)
    ensures Improves(w, s)
  {
    var a, q, x, b := FirstPair(s);
    w := Literal(a, q, x, b);
    var u := [q] + (x + [q]);
    assert [q] + (x + ([q] + b)) == u + b;
    WeightOfMark();
    Lighter(a, u, "?", b);
  }

  lemma Improve(s: string) returns (w: Rewrite)
    requires !Tidy(s)
    ensures Improves(w, s)
  {
    hide Improves;
    if !NoCapital(s) {
      w := ImproveCapital(s);
    } else if !NoPairedQuotes(s) {
      w := ImproveLiteral(s);
    } else if !NoLoneNumber(s) {
      w := ImproveNumber(s);
    } else {
      w := ImproveBlank(s);
    }
  }

  lemma {:induction false} TidyTextIsReached(s: string) returns (way: seq<string>, t: string)
    ensures IsWay(way, s, t) && Tidy(t)
    decreases Weight(s)
  {
    if Tidy(s) {
      way, t := [s], s;
    } else {
      var w := Improve(s);
      way, t := TidyTextIsReached(To(w));
      assert Rewrites(s, To(w));
      hide Rewrites, Tidy;
      way := [s] + way;
    }
  }

  /** The normal form is the one tidy text that the query can be rewritten to. */
  lemma NormalFormIsTheTidyReduct(s: string, t: string)
    ensures t == Normalize(s) <==> Leads(s, t) && Tidy(t)
  {
    if Leads(s, t) && Tidy(t) {
      var way :| IsWay(way, s, t);
      WayKeepsNormalForm(way, s, t);
      KeptIff(t);
    }
    if t == Normalize(s) {
      var way, u := TidyTextIsReached(s);
      WayKeepsNormalForm(way, s, u);
      KeptIff(u);
      assert Leads(s, u);
    }
  }

  /** Two texts have one normal form exactly when they can be rewritten to one text. */
  lemma OneFormIff(s: string, t: string)
    ensures Normalize(s) == Normalize(t) <==> exists u :: Leads(s, u) && Leads(t, u)
  {
    hide Normalize, Tidy, IsWay;
    if Normalize(s) == Normalize(t) {
      NormalFormIsTheTidyReduct(s, Normalize(s));
      NormalFormIsTheTidyReduct(t, Normalize(t));
    }
    if u :| Leads(s, u) && Leads(t, u) {
      var way :| IsWay(way, s, u);
      WayKeepsNormalForm(way, s, u);
      var other :| IsWay(other, t, u);
      WayKeepsNormalForm(other, t, u);
    }
  }
}
