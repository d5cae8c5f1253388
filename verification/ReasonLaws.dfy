/** Which replies of the model are accepted, said on the characters of the reply and of the recommendation. */
module ReasonLaws {
  import opened Prelude
  import opened Alphabets
  import RecipeRenderer
  import opened Reason

  // ----- the parts of a recommendation

  lemma {:induction false} SplitIsNonempty(s: string)
    ensures |SplitCommas(s)| > 0
  {
    if |s| > 0 {
      SplitIsNonempty(s[..|s| - 1]);
    }
  }

  lemma ExtendLast(xs: seq<string>, ys: seq<string>, c: char)
    requires |ys| > 0
    ensures Extend(xs + ys, c) == xs + Extend(ys, c)
  {
    assert (xs + ys)[..|xs + ys| - 1] == xs + ys[..|ys| - 1];
  }

  lemma SplitSnoc(s: string, c: char)
    ensures SplitCommas(s + [c]) == if c == ',' then SplitCommas(s) + [""] else Extend(SplitCommas(s), c)
  {
    assert (s + [c])[..|s|] == s;
  }

  /** A comma separates what stands on either side of it. */
  lemma {:induction false} CommaSeparates(a: string, b: string)
    ensures SplitCommas(a + ("," + b)) == SplitCommas(a) + SplitCommas(b)
    decreases |b|
  {
    if |b| == 0 {
      SplitSnoc(a, ',');
      assert a + ("," + b) == a + [','];
    } else {
      var front, c := b[..|b| - 1], b[|b| - 1];
      assert a + ("," + b) == (a + ("," + front)) + [c] && b == front + [c];
      CommaSeparates(a, front);
      SplitIsNonempty(front);
      SplitSnoc(a + ("," + front), c);
      SplitSnoc(front, c);
      hide SplitCommas, Extend;
      if c == ',' {
        assert (SplitCommas(a) + SplitCommas(front)) + [""] == SplitCommas(a) + (SplitCommas(front) + [""]);
      } else {
        ExtendLast(SplitCommas(a), SplitCommas(front), c);
      }
    }
  }

  /** A text without a comma is one part. */
  lemma {:induction false} PlainIsOnePart(s: string)
    requires ',' !in s
    ensures SplitCommas(s) == [s]
  {
    if |s| > 0 {
      PlainIsOnePart(s[..|s| - 1]);
      assert s == s[..|s| - 1] + [s[|s| - 1]];
    }
  }

  /** `part` stands in `s` between commas or the ends. */
  predicate PartAt(s: string, a: string, part: string, b: string) {
    && s == a + (part + b) && ',' !in part
    && (|a| > 0 ==> a[|a| - 1] == ',')
    && (|b| > 0 ==> b[0] == ',')
  }

  ghost predicate IsPart(s: string, part: string) {
    exists a, b :: PartAt(s, a, part, b)
  }

  lemma {:induction false} FirstComma(s: string) returns (x: string, y: string)
    requires ',' in s
    ensures s == x + ("," + y) && ',' !in x
  {
    if s[0] == ',' {
      x, y := "", s[1..];
    } else {
      x, y := FirstComma(s[1..]);
      x := [s[0]] + x;
    }
  }

  lemma PartIsLater(x: string, y: string, part: string)
    requires IsPart(y, part)
    ensures IsPart(x + ("," + y), part)
  {
    var a, b :| PartAt(y, a, part, b);
    var front := x + ("," + a);
    assert front[|front| - 1] == if a == "" then ',' else a[|a| - 1];
    assert x + ("," + y) == front + (part + b);
    assert PartAt(x + ("," + y), front, part, b);
  }

  lemma PartIsFirst(part: string, rest: string)
    requires ',' !in part && (|rest| > 0 ==> rest[0] == ',')
    ensures IsPart(part + rest, part)
  {
    assert part + rest == "" + (part + rest);
    assert PartAt(part + rest, "", part, rest);
  }

  lemma {:induction false} PartsAreSplit(s: string, part: string)
    requires part in SplitCommas(s)
    ensures IsPart(s, part)
    decreases |s|
  {
    hide IsPart;
    if ',' in s {
      var x, y := FirstComma(s);
      CommaSeparates(x, y);
      PlainIsOnePart(x);
      hide SplitCommas;
      if part == x {
        PartIsFirst(x, "," + y);
      } else {
        PartsAreSplit(y, part);
        PartIsLater(x, y, part);
      }
    } else {
      PlainIsOnePart(s);
      PartIsFirst(s, "");
      assert s + "" == s;
    }
  }

  lemma PartBefore(part: string, b: string)
    requires ',' !in part && (|b| > 0 ==> b[0] == ',')
    ensures part in SplitCommas(part + b)
  {
    PlainIsOnePart(part);
    hide SplitCommas;
    if |b| > 0 {
      assert b == "," + b[1..];
      CommaSeparates(part, b[1..]);
    } else {
      assert part + b == part;
    }
  }

  /** Splitting gives exactly the parts between commas. */
  lemma PartIff(s: string, part: string)
    ensures part in SplitCommas(s) <==> IsPart(s, part)
  {
    if part in SplitCommas(s) {
      PartsAreSplit(s, part);
    }
    if a, b :| PartAt(s, a, part, b) {
      PartBefore(part, b);
      if |a| > 0 {
        var front := a[..|a| - 1];
        assert s == front + ("," + (part + b));
        CommaSeparates(front, part + b);
      } else {
        assert s == part + b;
      }
    }
  }

  // ----- acceptance

  /** Trimmed, the column is one of the trimmed parts of the recommendation, and not empty. */
  ghost predicate Names(candidate: string, column: string) {
    exists part, core :: core != "" && IsPart(candidate, part) && TrimmedTo(part, core) && TrimmedTo(column, core)
  }

  lemma NamesIff(candidate: string, column: string)
    ensures Names(candidate, column) <==> Strip(column) in Recommended(candidate)
  {
    forall s, core ensures Strip(s) == core <==> TrimmedTo(s, core) {
      StripIff(s, core);
    }
    forall part ensures part in SplitCommas(candidate) <==> IsPart(candidate, part) {
      PartIff(candidate, part);
    }
    hide Strip, TrimmedTo, IsPart, SplitCommas;
    if Names(candidate, column) {
      var part, core :|
        core != "" && IsPart(candidate, part) && TrimmedTo(part, core) && TrimmedTo(column, core);
      assert Strip(part) == core == Strip(column);
    }
    if Strip(column) in Recommended(candidate) {
      var part :| part in SplitCommas(candidate) && Strip(part) != "" && Strip(part) == Strip(column);
      assert TrimmedTo(part, Strip(part)) && TrimmedTo(column, Strip(part));
    }
  }

  /** Every field of the call is there, and each in its range. */
  predicate WellFormed(a: Args) {
    && a.reasoning.Some? && a.reasoning.value != ""
    && a.hypothesis.Some? && a.effect.Some? && a.parameters.Some?
    && (a.kind == Some("create_index") || a.kind == Some("analyze_table"))
    && (a.risk == Some("low") || a.risk == Some("medium") || a.risk == Some("high"))
    && a.confidence.Some? && 0.0 <= a.confidence.value <= 1.0
  }

  /** There is a recommendation, and no proposed column is in it. */
  ghost predicate Contradicts(candidate: Option<string>, a: Args) {
    && candidate.Some? && candidate.value != ""
    && (a.parameters.Some? ==> forall c | c in a.parameters.value.columns :: !Names(candidate.value, c))
  }

  lemma ContradictsIff(candidate: Option<string>, a: Args)
    ensures Contradicts(candidate, a) <==> Falsification(candidate, a) == Some(false)
  {
    ContradictedIff(candidate, a);
    if candidate.Some? {
      forall c ensures Names(candidate.value, c) <==> Strip(c) in Recommended(candidate.value) {
        NamesIff(candidate.value, c);
      }
    }
    hide Names, Strip, Recommended, Falsification;
  }

  /** A reply is rejected as prose, as malformed or as contradicted, in that order, and otherwise accepted. */
  lemma RejectedIff(candidate: Option<string>, r: Reply)
    ensures Reject(candidate, r) == Some(Prose) <==> r.None?
    ensures Reject(candidate, r) == Some(SchemaInvalid) <==> r.Some? && !WellFormed(r.value)
    ensures Reject(candidate, r) == Some(Contradicted) <==>
      r.Some? && WellFormed(r.value) && Contradicts(candidate, r.value)
    ensures Reject(candidate, r).None? <==> r.Some? && WellFormed(r.value) && !Contradicts(candidate, r.value)
  {
    if r.Some? {
      ContradictsIff(candidate, r.value);
      hide Contradicts, Falsification;
      var risks := ["low", "medium", "high"];
      assert forall s :: s in risks <==> s == risks[0] || s == risks[1] || s == risks[2];
    }
  }
}
