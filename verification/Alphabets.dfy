/** The character classes of the text functions, spelled out. */
module Alphabets {
  import opened Prelude

  const LOWERCASE: string := "abcdefghijklmnopqrstuvwxyz"
  const UPPERCASE: string := "ABCDEFGHIJKLMNOPQRSTUVWXYZ"
  const DIGITS: string := "0123456789"

  /** Space, tab, line feed, vertical tab, form feed, carriage return and the four separators of ASCII. */
  const WHITESPACE: string := " \t\n\U{0b}\U{0c}\r\U{1c}\U{1d}\U{1e}\U{1f}"

  predicate Over(s: string, alphabet: string) {
    forall c | c in s :: c in alphabet
  }

  lemma SpaceIff(c: char)
    ensures IsSpace(c) <==> c in WHITESPACE
  {
    var w := WHITESPACE;
    assert w[0] == ' ' && w[1] == '\t' && w[2] == '\n' && w[3] == '\U{0b}' && w[4] == '\U{0c}' && w[5] == '\r';
    assert w[6] == '\U{1c}' && w[7] == '\U{1d}' && w[8] == '\U{1e}' && w[9] == '\U{1f}' && |w| == 10;
  }

  lemma DigitIff(c: char)
    ensures IsDigit(c) <==> c in DIGITS
  {
    var d := DIGITS;
    assert |d| == 10;
    assert d[0] == '0' && d[1] == '1' && d[2] == '2' && d[3] == '3' && d[4] == '4';
    assert d[5] == '5' && d[6] == '6' && d[7] == '7' && d[8] == '8' && d[9] == '9';
  }

  lemma LettersAt(k: nat)
    requires k < 26
    ensures LOWERCASE[k] == 'a' + k as char && UPPERCASE[k] == 'A' + k as char
  {
  }

  lemma LowercaseIff(c: char)
    ensures 'a' <= c <= 'z' <==> c in LOWERCASE
  {
    if 'a' <= c <= 'z' {
      LettersAt((c - 'a') as int);
    }
    if c in LOWERCASE {
      var k :| 0 <= k < 26 && LOWERCASE[k] == c;
      LettersAt(k);
    }
  }

  lemma UppercaseIff(c: char)
    ensures 'A' <= c <= 'Z' <==> c in UPPERCASE
  {
    if 'A' <= c <= 'Z' {
      LettersAt((c - 'A') as int);
    }
    if c in UPPERCASE {
      var k :| 0 <= k < 26 && UPPERCASE[k] == c;
      LettersAt(k);
    }
  }

  /** Letter by letter the two cases are the two rows of the alphabet, and nothing else has a case. */
  lemma CasesAreRows(c: char)
    ensures forall k | 0 <= k < 26 :: LowerChar(UPPERCASE[k]) == LOWERCASE[k] && UpperChar(LOWERCASE[k]) == UPPERCASE[k]
    ensures c !in UPPERCASE ==> LowerChar(c) == c
    ensures c !in LOWERCASE ==> UpperChar(c) == c
  {
    UppercaseIff(c);
    LowercaseIff(c);
    forall k | 0 <= k < 26 ensures LowerChar(UPPERCASE[k]) == LOWERCASE[k] && UpperChar(LOWERCASE[k]) == UPPERCASE[k] {
      LettersAt(k);
    }
  }

  lemma WordIff(c: char)
    ensures IsWord(c) <==> c in LOWERCASE || c in UPPERCASE || c in DIGITS || c == '_'
  {
    LowercaseIff(c);
    UppercaseIff(c);
    DigitIff(c);
  }

  // ----- strip

  lemma {:induction false} StripLeftBlank(u: string, s: string)
    requires Over(u, WHITESPACE) && (|s| > 0 ==> s[0] !in WHITESPACE)
    ensures StripLeft(u + s) == s
  {
    if |u| == 0 {
      assert u + s == s;
      if |s| > 0 {
        SpaceIff(s[0]);
      }
    } else {
      assert (u + s)[1..] == u[1..] + s;
      SpaceIff(u[0]);
      StripLeftBlank(u[1..], s);
    }
  }

  lemma {:induction false} StripRightBlank(s: string, v: string)
    requires Over(v, WHITESPACE) && (|s| > 0 ==> s[|s| - 1] !in WHITESPACE)
    ensures StripRight(s + v) == s
  {
    if |v| == 0 {
      assert s + v == s;
      if |s| > 0 {
        SpaceIff(s[|s| - 1]);
      }
    } else {
      var last := |v| - 1;
      assert (s + v)[..|s + v| - 1] == s + v[..last];
      SpaceIff(v[last]);
      StripRightBlank(s, v[..last]);
    }
  }

  /** The text bounded by anything but whitespace, or nothing at all. */
  predicate Bounded(s: string) {
    |s| > 0 ==> s[0] !in WHITESPACE && s[|s| - 1] !in WHITESPACE
  }

  /** `strip` takes exactly the whitespace at both ends. */
  lemma StripTakesTheEnds(u: string, s: string, v: string)
    requires Over(u, WHITESPACE) && Over(v, WHITESPACE) && Bounded(s)
    ensures Strip(u + (s + v)) == s
  {
    if |s| > 0 {
      StripLeftBlank(u, s + v);
    } else {
      assert u + (s + v) == u + v && u + v == (u + v) + "";
      StripLeftBlank(u + v, "");
      assert (u + v) + "" == u + v;
      assert "" + v == v;
      assert s + "" == s;
    }
    if |s| > 0 {
      StripRightBlank(s, v);
    }
  }

  /** Every text is something bounded between whitespace. */
  lemma {:induction false} Trim(s: string) returns (u: string, t: string, v: string)
    ensures s == u + (t + v) && Over(u, WHITESPACE) && Over(v, WHITESPACE) && Bounded(t)
    decreases |s|
  {
    if |s| > 0 && s[0] in WHITESPACE {
      u, t, v := Trim(s[1..]);
      u := [s[0]] + u;
    } else if |s| > 0 && s[|s| - 1] in WHITESPACE {
      u, t, v := Trim(s[..|s| - 1]);
      assert s == u + (t + (v + [s[|s| - 1]]));
      v := v + [s[|s| - 1]];
    } else {
      u, t, v := "", s, "";
      assert s == "" + (s + "");
    }
  }

  /** What `strip` leaves of a text is what stands in it between whitespace. */
  lemma StripIff(s: string, core: string)
    ensures Strip(s) == core <==> TrimmedTo(s, core)
  {
    var u, t, v := Trim(s);
    StripTakesTheEnds(u, t, v);
    assert TrimmedTo(s, t);
    if TrimmedTo(s, core) {
      var u', v' :| s == u' + (core + v') && Over(u', WHITESPACE) && Over(v', WHITESPACE) && Bounded(core);
      StripTakesTheEnds(u', core, v');
    }
  }

  ghost predicate TrimmedTo(s: string, core: string) {
    exists u, v :: s == u + (core + v) && Over(u, WHITESPACE) && Over(v, WHITESPACE) && Bounded(core)
  }
}
