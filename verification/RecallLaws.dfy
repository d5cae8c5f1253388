/**
 What recall's scores say, in the weights, time constants and floor written out, and what
 follows for which items are returned.
 */
module RecallLaws {
  import opened Prelude
  import opened Scoring
  import opened Recall

  /** Days since the row was created; a missing or future time counts as now. */
  function Days(now: real, d: Details): real {
    if d.created == None || now < d.created.value then 0.0 else now - d.created.value
  }

  /** What one shared entity is worth to an item, which has at most one: 0.10 over the incident's entities. */
  predicate Shares(q: Query, d: Details) {
    d.entity.Some? && d.entity.value != "" && d.entity.value in q.entities
  }

  function SharedPart(q: Query, d: Details): real {
    if Shares(q, d) then 1.0 / |q.entities| as real else 0.0
  }

  lemma AffinityOfOne(item: set<string>, incident: set<string>)
    requires |item| <= 1
    ensures EntityAffinity(item, incident) == if item <= incident && item != {} then 1.0 / |incident| as real else 0.0
  {
    if item != {} {
      var e :| e in item;
      SingletonOf(item, e);
      if e in incident {
        assert item + incident == incident && item * incident == {e};
      } else {
        assert item * incident == {};
      }
    } else {
      assert item * incident == {} && item + incident == incident;
    }
  }

  lemma SingletonOf(item: set<string>, e: string)
    requires e in item && |item| <= 1
    ensures item == {e}
  {
    var rest := item - {e};
    assert |rest| == |item| - 1;
  }

  /** The affinity of two sets is the share of their entities that both have, and nothing for two empty sets. */
  lemma AffinityIsJaccard(item: set<string>, incident: set<string>)
    ensures EntityAffinity(item, incident) * |item + incident| as real == |item * incident| as real
    ensures item == {} ==> EntityAffinity(item, incident) == 0.0
    ensures EntityAffinity(item, incident) == 1.0 <==> item == incident != {}
  {
    var both, either := item * incident, item + incident;
    if either == {} {
      assert both == {};
    } else {
      Subset(both, either);
      DivideBack(|both| as real, |either| as real);
      assert EntityAffinity(item, incident) == |both| as real / |either| as real;
      if item == incident {
        assert both == either;
        Quotient(|both| as real, |either| as real, 1.0);
      }
    }
  }

  lemma Subset(both: set<string>, either: set<string>)
    requires both <= either
    ensures |both| <= |either| && (|both| == |either| ==> both == either)
  {
    var rest := either - both;
    assert either == both + rest && |either| == |both| + |rest|;
  }

  /** An item is filtered exactly when it is not active or its stored confidence is below 0.15. */
  lemma FilteredIff(q: Query, c: Candidate, rows: DetailRows)
    ensures
      ScoreOf(q, c, rows).None? <==>
      && c.id in rows
      && (!rows[c.id].active || (rows[c.id].confidence.Some? && rows[c.id].confidence.value < 0.15))
  {
  }

  /** The score of an item with a row is four weighted parts, and without one the two parts left. */
  lemma ScoreParts(q: Query, c: Candidate, rows: DetailRows)
    requires Faithful(q.math) && ScoreOf(q, c, rows).Some?
    ensures c.id !in rows ==> ScoreOf(q, c, rows).value == 0.45 * c.similarity + 0.15
    ensures c.id in rows ==>
      var d := rows[c.id];
      var age := Days(q.now, d);
      ScoreOf(q, c, rows).value ==
        0.45 * c.similarity + 0.30 * (WilsonLb(q.math, d.successes, d.attempts, 1.96) * q.math.exp(-age / 90.0))
        + 0.15 * q.math.exp(-age / 14.0) + 0.10 * SharedPart(q, d)
  {
    if c.id in rows {
      var d := rows[c.id];
      AffinityOfOne(if d.entity.Some? && d.entity.value != "" then {d.entity.value} else {}, q.entities);
      hide WilsonLb, EntityAffinity;
    } else {
      AffinityOfOne({}, q.entities);
      ExpZero(q.math);
      assert WilsonLb(q.math, 0, 0, Z) == 0.0;
      hide WilsonLb, EntityAffinity;
    }
  }

  /** The two items have equal rows, or none. */
  predicate EqualRows(rows: DetailRows, a: nat, b: nat) {
    (a in rows <==> b in rows) && (a in rows ==> rows[a] == rows[b])
  }

  /** Other things equal, the nearer item scores higher by exactly 0.45 times the difference. */
  lemma NearerScoresHigher(q: Query, a: Candidate, b: Candidate, rows: DetailRows)
    requires EqualRows(rows, a.id, b.id) && ScoreOf(q, b, rows).Some?
    ensures ScoreOf(q, a, rows).Some?
    ensures ScoreOf(q, a, rows).value - ScoreOf(q, b, rows).value == 0.45 * (a.similarity - b.similarity)
  {
    hide WilsonLb, EntityAffinity;
  }

  /** `a` and `b` are equally near and both pass; their rows are `x` and `y`. */
  predicate Compared(q: Query, a: Candidate, b: Candidate, rows: DetailRows, x: Details, y: Details) {
    && a.similarity == b.similarity
    && a.id in rows && rows[a.id] == x && b.id in rows && rows[b.id] == y
    && ScoreOf(q, a, rows).Some? && ScoreOf(q, b, rows).Some?
  }

  lemma Factored(f: real, u: real, v: real)
    ensures f * u - f * v == f * (u - v)
    ensures u * f - v * f == (u - v) * f
  {
  }

  /** Other things equal, the better proven item scores higher by 0.30 times the difference of the decayed bounds. */
  lemma BetterProvenScoresHigher(q: Query, a: Candidate, b: Candidate, rows: DetailRows, x: Details, y: Details)
    requires Faithful(q.math) && Compared(q, a, b, rows, x, y)
    requires x == y.(successes := x.successes, attempts := x.attempts, confidence := x.confidence)
    ensures
      ScoreOf(q, a, rows).value - ScoreOf(q, b, rows).value ==
        0.30 * ((WilsonLb(q.math, x.successes, x.attempts, 1.96) - WilsonLb(q.math, y.successes, y.attempts, 1.96))
                * q.math.exp(-Days(q.now, y) / 90.0))
    ensures x.attempts == y.attempts && y.successes < x.successes <= x.attempts ==>
      ScoreOf(q, a, rows).value > ScoreOf(q, b, rows).value
  {
    hide ScoreOf, WilsonLb;
    ScoreParts(q, a, rows);
    ScoreParts(q, b, rows);
    var v, w := WilsonLb(q.math, x.successes, x.attempts, 1.96), WilsonLb(q.math, y.successes, y.attempts, 1.96);
    var e := q.math.exp(-Days(q.now, y) / 90.0);
    assert Days(q.now, x) == Days(q.now, y) && SharedPart(q, x) == SharedPart(q, y);
    assert e > 0.0;
    hide Days, SharedPart, Compared;
    Factored(e, v, w);
    if x.attempts == y.attempts && y.successes < x.successes <= x.attempts {
      WilsonIncreasesInSuccesses(q.math, y.successes, x.successes, x.attempts, 1.96);
      ProductPositive(v - w, e, (v - w) * e);
    }
  }

  lemma YoungerDifference(w: real, e: real, f: real, r: real, s: real, x: real, y: real, near: real, shared: real)
    requires x == near + 0.30 * (w * e) + 0.15 * r + shared && y == near + 0.30 * (w * f) + 0.15 * s + shared
    requires w >= 0.0
    ensures x - y == 0.15 * (r - s) + 0.30 * (w * (e - f))
    ensures e >= f && r > s ==> x > y
  {
    Factored(w, e, f);
    if e >= f && r > s {
      ProductOrder(f, e, w);
      Exceeds(w * e, w * f, r, s, x, y, near + shared);
    }
  }

  lemma Exceeds(u: real, v: real, r: real, s: real, x: real, y: real, rest: real)
    requires x == rest + 0.30 * u + 0.15 * r && y == rest + 0.30 * v + 0.15 * s && u >= v && r > s
    ensures x > y
  {
  }

  lemma ExpGrows(m: Math, young: real, aged: real, tau: real)
    requires Faithful(m) && young < aged && tau > 0.0
    ensures m.exp(-young / tau) > m.exp(-aged / tau)
  {
    var x, y := -aged / tau, -young / tau;
    assert x * tau == -aged && y * tau == -young && (y - x) * tau > 0.0;
    FactorSign(y - x, tau);
  }

  /**
   Other things equal, the younger item scores higher, by 0.15 times the difference of the
   recencies and 0.30 times that of the decayed bounds.
   */
  lemma YoungerScoresHigher(q: Query, a: Candidate, b: Candidate, rows: DetailRows, x: Details, y: Details)
    requires Faithful(q.math) && Compared(q, a, b, rows, x, y) && x == y.(created := x.created)
    ensures
      var i, j := Days(q.now, x), Days(q.now, y);
      var w := WilsonLb(q.math, y.successes, y.attempts, 1.96);
      && ScoreOf(q, a, rows).value - ScoreOf(q, b, rows).value ==
           0.15 * (q.math.exp(-i / 14.0) - q.math.exp(-j / 14.0))
           + 0.30 * (w * (q.math.exp(-i / 90.0) - q.math.exp(-j / 90.0)))
      && (i < j ==> ScoreOf(q, a, rows).value > ScoreOf(q, b, rows).value)
  {
    WilsonNonnegative(q.math, y.successes, y.attempts, 1.96);
    hide ScoreOf, WilsonLb, Faithful;
    ScoreParts(q, a, rows);
    ScoreParts(q, b, rows);
    var w, i, j := WilsonLb(q.math, y.successes, y.attempts, 1.96), Days(q.now, x), Days(q.now, y);
    assert SharedPart(q, x) == SharedPart(q, y);
    hide Days, SharedPart, Compared;
    if i < j {
      ExpGrows(q.math, i, j, 14.0);
      ExpGrows(q.math, i, j, 90.0);
    }
    YoungerDifference(w, q.math.exp(-i / 90.0), q.math.exp(-j / 90.0), q.math.exp(-i / 14.0), q.math.exp(-j / 14.0),
                      ScoreOf(q, a, rows).value, ScoreOf(q, b, rows).value, 0.45 * a.similarity,
                      0.10 * SharedPart(q, x));
  }

  /** Other things equal, the item that shares an entity scores higher by 0.10 over the number of the incident's. */
  lemma SharedEntityScoresHigher(q: Query, a: Candidate, b: Candidate, rows: DetailRows, x: Details, y: Details)
    requires Faithful(q.math) && Compared(q, a, b, rows, x, y) && x == y.(entity := x.entity)
    requires Shares(q, x) && !Shares(q, y)
    ensures ScoreOf(q, a, rows).value - ScoreOf(q, b, rows).value == 0.10 * (1.0 / |q.entities| as real)
    ensures ScoreOf(q, a, rows).value > ScoreOf(q, b, rows).value
  {
    ScoreParts(q, a, rows);
    ScoreParts(q, b, rows);
    hide ScoreOf, WilsonLb;
    assert Days(q.now, x) == Days(q.now, y);
    assert |q.entities| > 0;
  }

  // ----- what is returned

  /** The candidate is among the results, with its score. */
  predicate Returned(q: Query, cs: seq<Candidate>, rows: DetailRows, topK: nat, c: Candidate) {
    var score := ScoreOf(q, c, rows);
    score.Some? && Scored(c.id, score.value) in Recalled(q, cs, rows, topK)
  }

  lemma {:induction false} CandidateIsScored(q: Query, cs: seq<Candidate>, rows: DetailRows, c: Candidate)
    requires c in cs && ScoreOf(q, c, rows).Some?
    ensures Scored(c.id, ScoreOf(q, c, rows).value) in AllScored(q, cs, rows)
  {
    hide ScoreOf;
    var front, last := cs[..|cs| - 1], cs[|cs| - 1];
    if c != last {
      CandidateIsScored(q, front, rows, c);
    }
  }

  /** An item that passes the filter is never left out in favour of one that scores lower. */
  lemma HigherScoreIsNeverLeftOut(q: Query, cs: seq<Candidate>, rows: DetailRows, topK: nat, a: Candidate,
                                  b: Candidate)
    requires a in cs && Returned(q, cs, rows, topK, b) && ScoreOf(q, a, rows).Some?
    requires ScoreOf(q, a, rows).value > ScoreOf(q, b, rows).value
    ensures Returned(q, cs, rows, topK, a)
  {
    var all, best := AllScored(q, cs, rows), Recalled(q, cs, rows, topK);
    var x, y := Scored(a.id, ScoreOf(q, a, rows).value), Scored(b.id, ScoreOf(q, b, rows).value);
    CandidateIsScored(q, cs, rows, a);
    RecallReturnsTheBest(q, cs, rows, topK);
    hide ScoreOf, AllScored, Recalled, Descending;
    var rest :| multiset(best) + multiset(rest) == multiset(all) && NoneBeats(rest, best);
    assert x in multiset(all);
    HigherIsNotInRest(rest, best, x, y);
  }

  lemma HigherIsNotInRest(rest: seq<Scored>, best: seq<Scored>, x: Scored, y: Scored)
    requires NoneBeats(rest, best) && y in best && x.score > y.score
    ensures x !in rest
  {
    var j :| 0 <= j < |best| && best[j] == y;
  }

  /** Other things equal, a nearer item is never left out in favour of the other. */
  lemma NearerIsNeverLeftOut(q: Query, cs: seq<Candidate>, rows: DetailRows, topK: nat, a: Candidate, b: Candidate)
    requires a in cs && Returned(q, cs, rows, topK, b)
    requires EqualRows(rows, a.id, b.id) && a.similarity > b.similarity
    ensures Returned(q, cs, rows, topK, a)
  {
    NearerScoresHigher(q, a, b, rows);
    hide ScoreOf;
    HigherScoreIsNeverLeftOut(q, cs, rows, topK, a, b);
  }

  /** Nor is a younger one, a better proven one, or one that alone shares an entity. */
  lemma BetterIsNeverLeftOut(q: Query, cs: seq<Candidate>, rows: DetailRows, topK: nat, a: Candidate, b: Candidate,
                             x: Details, y: Details)
    requires Faithful(q.math) && a in cs && Returned(q, cs, rows, topK, b) && Compared(q, a, b, rows, x, y)
    requires
      || (x == y.(created := x.created) && Days(q.now, x) < Days(q.now, y))
      || (x == y.(successes := x.successes, confidence := x.confidence) && y.successes < x.successes <= x.attempts)
      || (x == y.(entity := x.entity) && Shares(q, x) && !Shares(q, y))
    ensures Returned(q, cs, rows, topK, a)
  {
    hide ScoreOf, WilsonLb, Returned, SharedPart;
    if x == y.(created := x.created) && Days(q.now, x) < Days(q.now, y) {
      YoungerScoresHigher(q, a, b, rows, x, y);
    } else if x == y.(entity := x.entity) && Shares(q, x) && !Shares(q, y) {
      SharedEntityScoresHigher(q, a, b, rows, x, y);
    } else {
      BetterProvenScoresHigher(q, a, b, rows, x, y);
    }
    ReturnedPasses(q, cs, rows, topK, b);
    HigherScoreIsNeverLeftOut(q, cs, rows, topK, a, b);
  }

  lemma ReturnedPasses(q: Query, cs: seq<Candidate>, rows: DetailRows, topK: nat, c: Candidate)
    requires Returned(q, cs, rows, topK, c)
    ensures ScoreOf(q, c, rows).Some?
  {
  }
}
