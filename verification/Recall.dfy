/**
 Recall (agent/memory/recall.py) over the candidates of `recall_ann` and the rows of
 `get_candidate_details` (agent/memory/db.py): filter, score, sort, cut.
 */
module Recall {
  import opened Prelude
  import opened Scoring

  datatype Candidate = Candidate(id: nat, similarity: real)

  /** A detail row; `confidence` is present for items joined to a procedure only. Times are in days. */
  datatype Details = Details(active: bool, confidence: Option<real>, successes: nat, attempts: nat,
                             created: Option<real>, entity: Option<string>)

  type DetailRows = map<nat, Details>

  datatype Scored = Scored(id: nat, score: real)

  /** What one recall sees besides the candidates. */
  datatype Query = Query(math: Math, now: real, entities: set<string>)

  function AgeDays(now: real, created: Option<real>): real {
    if created.Some? && now - created.value > 0.0 then now - created.value else 0.0
  }

  /** None when the hard filter rejects; an item without a confidence is exempt from the floor. */
  function ScoreOf(q: Query, c: Candidate, rows: DetailRows): Option<real> {
    var d := if c.id in rows then rows[c.id] else Details(true, None, 0, 0, None, None);
    var confidence := if d.confidence.Some? then d.confidence.value else 1.0;
    var entities := if d.entity.Some? && d.entity.value != "" then {d.entity.value} else {};
    Hybrid(q.math, c.similarity, confidence, d.successes, d.attempts, AgeDays(q.now, d.created), d.active, entities,
        q.entities)
  }

  function Keep(q: Query, c: Candidate, rows: DetailRows): seq<Scored> {
    match ScoreOf(q, c, rows)
    case None => []
    case Some(score) => [Scored(c.id, score)]
  }

  /** The candidates that pass the filter, with their scores, in candidate order. */
  function AllScored(q: Query, cs: seq<Candidate>, rows: DetailRows): seq<Scored> {
    if |cs| == 0 then [] else AllScored(q, cs[..|cs| - 1], rows) + Keep(q, cs[|cs| - 1], rows)
  }

  // ----- the sort

  predicate Descending(s: seq<Scored>) {
    forall i, j | 0 <= i < j < |s| :: s[i].score >= s[j].score
  }

  /** Behind everything that scores at least as much. */
  function Insert(s: seq<Scored>, x: Scored): seq<Scored> {
    if |s| == 0 then [x]
    else if s[0].score >= x.score then [s[0]] + Insert(s[1..], x)
    else [x] + s
  }

  /** `sort(key=hybrid_score, reverse=True)`, which keeps equal scores in their order. */
  function SortDescending(s: seq<Scored>): seq<Scored> {
    if |s| == 0 then [] else Insert(SortDescending(s[..|s| - 1]), s[|s| - 1])
  }

  /** The entries of one score, in order. */
  function WithScore(s: seq<Scored>, score: real): seq<Scored> {
    if |s| == 0 then [] else (if s[0].score == score then [s[0]] else []) + WithScore(s[1..], score)
  }

  lemma {:induction false} InsertKeeps(s: seq<Scored>, x: Scored)
    ensures multiset(Insert(s, x)) == multiset(s) + multiset{x} && |Insert(s, x)| == |s| + 1
  {
    if |s| > 0 {
      assert s == [s[0]] + s[1..];
      InsertKeeps(s[1..], x);
    }
  }

  predicate AllAtMost(s: seq<Scored>, score: real) {
    forall i | 0 <= i < |s| :: s[i].score <= score
  }

  lemma {:induction false} InsertAtMost(s: seq<Scored>, x: Scored, score: real)
    requires AllAtMost(s, score) && x.score <= score
    ensures AllAtMost(Insert(s, x), score)
  {
    if |s| > 0 {
      InsertAtMost(s[1..], x, score);
    }
  }

  lemma DescendingCons(x: Scored, s: seq<Scored>)
    requires Descending(s) && AllAtMost(s, x.score)
    ensures Descending([x] + s)
  {
  }

  lemma {:induction false} InsertFacts(s: seq<Scored>, x: Scored)
    requires Descending(s)
    ensures Descending(Insert(s, x)) && |Insert(s, x)| == |s| + 1
    ensures forall i | 0 <= i < |s| :: Insert(s, x)[i].score >= s[i].score
  {
    if |s| > 0 {
      if s[0].score >= x.score {
        InsertFacts(s[1..], x);
        InsertAtMost(s[1..], x, s[0].score);
        DescendingCons(s[0], Insert(s[1..], x));
      } else {
        DescendingCons(x, s);
      }
    }
  }

  lemma {:induction false} InsertIsStable(s: seq<Scored>, x: Scored, score: real)
    requires Descending(s)
    ensures WithScore(Insert(s, x), score) == WithScore(s, score) + if x.score == score then [x] else []
  {
    if |s| > 0 {
      if s[0].score >= x.score {
        InsertIsStable(s[1..], x, score);
        assert ([s[0]] + Insert(s[1..], x))[1..] == Insert(s[1..], x);
      } else {
        assert ([x] + s)[1..] == s;
        if x.score == score {
          NoneWithScore(s, score);
        }
      }
    }
  }

  lemma {:induction false} NoneWithScore(s: seq<Scored>, score: real)
    requires forall i | 0 <= i < |s| :: s[i].score < score
    ensures WithScore(s, score) == []
  {
    if |s| > 0 {
      NoneWithScore(s[1..], score);
    }
  }

  lemma {:induction false} WithScoreSnoc(s: seq<Scored>, x: Scored, score: real)
    ensures WithScore(s + [x], score) == WithScore(s, score) + if x.score == score then [x] else []
  {
    if |s| == 0 {
      assert s + [x] == [x];
    } else {
      assert (s + [x])[1..] == s[1..] + [x];
      WithScoreSnoc(s[1..], x, score);
      var head, tail := if s[0].score == score then [s[0]] else [], if x.score == score then [x] else [];
      var middle := WithScore(s[1..], score);
      hide WithScore;
      assert head + (middle + tail) == (head + middle) + tail;
    }
  }

  /** The sort is a stable descending permutation. */
  lemma {:induction false} SortIsStablePermutation(s: seq<Scored>)
    ensures Descending(SortDescending(s)) && |SortDescending(s)| == |s|
    ensures multiset(SortDescending(s)) == multiset(s)
    ensures forall score :: WithScore(SortDescending(s), score) == WithScore(s, score)
  {
    if |s| > 0 {
      var front, x := s[..|s| - 1], s[|s| - 1];
      assert s == front + [x];
      SortIsStablePermutation(front);
      InsertFacts(SortDescending(front), x);
      InsertKeeps(SortDescending(front), x);
      forall score ensures WithScore(SortDescending(s), score) == WithScore(s, score) {
        InsertIsStable(SortDescending(front), x, score);
        WithScoreSnoc(front, x, score);
      }
    }
  }

  function Take<T>(s: seq<T>, n: nat): seq<T> {
    if |s| <= n then s else s[..n]
  }

  /** `recall`, as a function of the two reads. */
  function Recalled(q: Query, cs: seq<Candidate>, rows: DetailRows, topK: nat): seq<Scored> {
    Take(SortDescending(AllScored(q, cs, rows)), topK)
  }

  method RecallItems(q: Query, cs: seq<Candidate>, rows: DetailRows, topK: nat) returns (out: seq<Scored>)
    ensures out == Recalled(q, cs, rows, topK)
  {
    if |cs| == 0 {
      return [];
    }
    var scored: seq<Scored> := [];
    for i := 0 to |cs|
      invariant scored == AllScored(q, cs[..i], rows)
    {
      assert cs[..i + 1][..i] == cs[..i];
      var score := ScoreOf(q, cs[i], rows);
      if score.Some? {
        scored := scored + [Scored(cs[i].id, score.value)];
      }
    }
    assert cs[..|cs|] == cs;
    out := Take(SortDescending(scored), topK);
  }

  predicate NoneBeats(rest: seq<Scored>, best: seq<Scored>) {
    forall i, j | 0 <= i < |rest| && 0 <= j < |best| :: rest[i].score <= best[j].score
  }

  /** `all` splits into `best` and a rest that beats nothing in `best`. */
  ghost predicate BestOf(best: seq<Scored>, all: seq<Scored>) {
    exists rest :: multiset(best) + multiset(rest) == multiset(all) && NoneBeats(rest, best)
  }

  lemma FrontIsBest(sorted: seq<Scored>, n: nat, all: seq<Scored>)
    requires Descending(sorted) && n <= |sorted| && multiset(sorted) == multiset(all)
    ensures BestOf(sorted[..n], all)
  {
    var rest := sorted[n..];
    assert sorted == sorted[..n] + rest;
    assert multiset(sorted[..n]) + multiset(rest) == multiset(all) && NoneBeats(rest, sorted[..n]);
  }

  /** The result is the best unfiltered candidates, best first: what is left out beats nothing returned. */
  lemma RecallReturnsTheBest(q: Query, cs: seq<Candidate>, rows: DetailRows, topK: nat)
    ensures
      var all, best := AllScored(q, cs, rows), Recalled(q, cs, rows, topK);
      Descending(best) && |best| == (if |all| <= topK then |all| else topK) && BestOf(best, all)
  {
    var all := AllScored(q, cs, rows);
    SortIsStablePermutation(all);
    var sorted := SortDescending(all);
    hide AllScored, SortDescending;
    assert sorted[..|sorted|] == sorted;
    FrontIsBest(sorted, if |all| <= topK then |all| else topK, all);
  }

  lemma {:induction false} ScoredComeFromCandidates(q: Query, cs: seq<Candidate>, rows: DetailRows)
    ensures forall x | x in AllScored(q, cs, rows) :: exists c | c in cs ::
      c.id == x.id && ScoreOf(q, c, rows) == Some(x.score)
  {
    hide ScoreOf;
    if |cs| > 0 {
      var front, last := cs[..|cs| - 1], cs[|cs| - 1];
      ScoredComeFromCandidates(q, front, rows);
      assert cs == front + [last];
      forall x | x in AllScored(q, cs, rows)
        ensures exists c | c in cs :: c.id == x.id && ScoreOf(q, c, rows) == Some(x.score)
      {
        if x in AllScored(q, front, rows) {
          var c :| c in front && c.id == x.id && ScoreOf(q, c, rows) == Some(x.score);
          assert c in cs;
        } else {
          assert last in cs;
        }
      }
    }
  }

  /** Only candidates that pass the hard filter are returned. */
  lemma OnlyPassingAreRecalled(q: Query, cs: seq<Candidate>, rows: DetailRows, topK: nat)
    ensures forall x | x in Recalled(q, cs, rows, topK) ::
      exists c | c in cs :: c.id == x.id && ScoreOf(q, c, rows) == Some(x.score)
  {
    var all := AllScored(q, cs, rows);
    ScoredComeFromCandidates(q, cs, rows);
    SortIsStablePermutation(all);
    hide ScoreOf, AllScored, SortDescending;
    forall x | x in Recalled(q, cs, rows, topK) ensures x in all {
      assert x in multiset(SortDescending(all));
    }
  }

  // ----- retirement

  /** The item satisfies the ANN query's WHERE clause. */
  predicate Active(rows: DetailRows, c: Candidate) {
    c.id in rows && rows[c.id].active
  }

  /** `recall_ann`: the nearest active items, given all items of the scope in distance order. */
  function Nearest(pool: seq<Candidate>, rows: DetailRows, limit: nat): seq<Candidate> {
    if |pool| == 0 || limit == 0 then []
    else if Active(rows, pool[0]) then [pool[0]] + Nearest(pool[1..], rows, limit - 1)
    else Nearest(pool[1..], rows, limit)
  }

  function ActiveCount(pool: seq<Candidate>, rows: DetailRows): nat {
    if |pool| == 0 then 0 else (if Active(rows, pool[0]) then 1 else 0) + ActiveCount(pool[1..], rows)
  }

  /** Some procedure items below the floor were retired; nothing else differs. */
  predicate RetiredBelowFloor(before: DetailRows, after: DetailRows) {
    before.Keys == after.Keys &&
    forall id | id in before ::
      || after[id] == before[id]
      || (&& after[id] == before[id].(active := false)
          && before[id].confidence.Some? && before[id].confidence.value < CONFIDENCE_FLOOR)
  }

  /** The entries found in the pool, scored front to back. */
  function PoolScored(q: Query, pool: seq<Candidate>, rows: DetailRows, limit: nat): seq<Scored> {
    AllScored(q, Nearest(pool, rows, limit), rows)
  }

  lemma {:induction false} AllScoredCons(q: Query, c: Candidate, cs: seq<Candidate>, rows: DetailRows)
    ensures AllScored(q, [c] + cs, rows) == Keep(q, c, rows) + AllScored(q, cs, rows)
  {
    var all := [c] + cs;
    if |cs| == 0 {
      assert all[..0] == [];
    } else {
      assert all[..|all| - 1] == [c] + cs[..|cs| - 1];
      AllScoredCons(q, c, cs[..|cs| - 1], rows);
    }
  }

  predicate Prefix(xs: seq<Scored>, ys: seq<Scored>) {
    |xs| <= |ys| && xs == ys[..|xs|]
  }

  lemma PrefixFacts(a: seq<Scored>, xs: seq<Scored>, ys: seq<Scored>, zs: seq<Scored>)
    ensures Prefix(xs, ys) ==> Prefix(a + xs, a + ys)
    ensures Prefix(xs, ys) && Prefix(ys, zs) ==> Prefix(xs, zs)
  {
  }

  lemma PoolScoredStep(q: Query, pool: seq<Candidate>, rows: DetailRows, limit: nat)
    requires |pool| > 0 && limit > 0
    ensures PoolScored(q, pool, rows, limit) ==
      if Active(rows, pool[0]) then Keep(q, pool[0], rows) + PoolScored(q, pool[1..], rows, limit - 1)
      else PoolScored(q, pool[1..], rows, limit)
  {
    if Active(rows, pool[0]) {
      AllScoredCons(q, pool[0], Nearest(pool[1..], rows, limit - 1), rows);
    }
  }

  lemma PoolScoredEmpty(q: Query, pool: seq<Candidate>, rows: DetailRows, limit: nat)
    requires |pool| == 0 || limit == 0
    ensures PoolScored(q, pool, rows, limit) == []
  {
  }

  /** Nothing scored is lost by looking one candidate further. */
  lemma {:induction false} OneMoreCandidate(q: Query, pool: seq<Candidate>, rows: DetailRows, limit: nat)
    ensures Prefix(PoolScored(q, pool, rows, limit), PoolScored(q, pool, rows, limit + 1))
  {
    hide PoolScored, Keep, Active;
    if |pool| == 0 || limit == 0 {
      PoolScoredEmpty(q, pool, rows, limit);
    } else {
      var rest := pool[1..];
      PoolScoredStep(q, pool, rows, limit);
      PoolScoredStep(q, pool, rows, limit + 1);
      if Active(rows, pool[0]) {
        OneMoreCandidate(q, rest, rows, limit - 1);
        PrefixFacts(Keep(q, pool[0], rows), PoolScored(q, rest, rows, limit - 1), PoolScored(q, rest, rows, limit), []);
      } else {
        OneMoreCandidate(q, rest, rows, limit);
      }
    }
  }

  /** A retired item was already filtered out, and any other keeps its score. */
  lemma RetiredScores(q: Query, c: Candidate, before: DetailRows, after: DetailRows)
    requires RetiredBelowFloor(before, after) && Active(before, c)
    ensures if Active(after, c) then Keep(q, c, after) == Keep(q, c, before) else Keep(q, c, before) == []
  {
  }

  lemma RetiredIsNotActive(c: Candidate, before: DetailRows, after: DetailRows)
    requires RetiredBelowFloor(before, after) && !Active(before, c)
    ensures !Active(after, c)
  {
  }

  /** Retiring only frees places: what was scored is still scored, first, and with the same scores. */
  lemma {:induction false} RetiringKeepsScored(q: Query, pool: seq<Candidate>, before: DetailRows, after: DetailRows,
                                               limit: nat)
    requires RetiredBelowFloor(before, after)
    ensures Prefix(PoolScored(q, pool, before, limit), PoolScored(q, pool, after, limit))
  {
    hide PoolScored, Keep, Active, RetiredBelowFloor;
    if |pool| == 0 || limit == 0 {
      PoolScoredEmpty(q, pool, before, limit);
    } else {
      var c, rest := pool[0], pool[1..];
      PoolScoredStep(q, pool, before, limit);
      PoolScoredStep(q, pool, after, limit);
      if !Active(before, c) {
        RetiredIsNotActive(c, before, after);
        RetiringKeepsScored(q, rest, before, after, limit);
      } else {
        RetiredScores(q, c, before, after);
        RetiringKeepsScored(q, rest, before, after, limit - 1);
        OneMoreCandidate(q, rest, after, limit - 1);
        PrefixFacts(Keep(q, c, before), PoolScored(q, rest, before, limit - 1), PoolScored(q, rest, after, limit - 1),
                    PoolScored(q, rest, after, limit));
      }
    }
  }

  lemma {:induction false} RetiringLosesNothing(q: Query, pool: seq<Candidate>, before: DetailRows,
                                                after: DetailRows, limit: nat)
    requires RetiredBelowFloor(before, after) && ActiveCount(pool, before) <= limit
    ensures PoolScored(q, pool, before, limit) == PoolScored(q, pool, after, limit)
    ensures ActiveCount(pool, after) <= ActiveCount(pool, before)
  {
    hide PoolScored, Keep, Active, RetiredBelowFloor;
    if |pool| == 0 {
      PoolScoredEmpty(q, pool, before, limit);
      PoolScoredEmpty(q, pool, after, limit);
    } else {
      var c, rest := pool[0], pool[1..];
      if !Active(before, c) {
        RetiredIsNotActive(c, before, after);
        RetiringLosesNothing(q, rest, before, after, limit);
      } else {
        RetiredScores(q, c, before, after);
        RetiringLosesNothing(q, rest, before, after, limit - 1);
        if !Active(after, c) {
          SpareScored(q, rest, after, limit - 1);
        }
      }
      if limit > 0 {
        PoolScoredStep(q, pool, before, limit);
        PoolScoredStep(q, pool, after, limit);
      } else {
        PoolScoredEmpty(q, pool, before, limit);
        PoolScoredEmpty(q, pool, after, limit);
      }
    }
  }

  lemma SpareScored(q: Query, pool: seq<Candidate>, rows: DetailRows, limit: nat)
    requires ActiveCount(pool, rows) <= limit
    ensures PoolScored(q, pool, rows, limit) == PoolScored(q, pool, rows, limit + 1)
  {
    SpareLimit(pool, rows, limit);
  }

  lemma {:induction false} SpareLimit(pool: seq<Candidate>, rows: DetailRows, limit: nat)
    requires ActiveCount(pool, rows) <= limit
    ensures Nearest(pool, rows, limit) == Nearest(pool, rows, limit + 1)
  {
    if |pool| > 0 {
      if Active(rows, pool[0]) {
        SpareLimit(pool[1..], rows, limit - 1);
      } else {
        SpareLimit(pool[1..], rows, limit);
        if limit == 0 {
          EmptyNearest(pool[1..], rows);
        }
      }
    }
  }

  lemma EmptyNearest(pool: seq<Candidate>, rows: DetailRows)
    ensures Nearest(pool, rows, 0) == []
  {
  }

  predicate NoWorse(xs: seq<Scored>, ys: seq<Scored>) {
    |xs| <= |ys| && forall i | 0 <= i < |xs| :: xs[i].score <= ys[i].score
  }

  lemma {:induction false} MoreIsNoWorse(xs: seq<Scored>, ys: seq<Scored>)
    requires Prefix(xs, ys)
    ensures NoWorse(SortDescending(xs), SortDescending(ys))
    decreases |ys|
  {
    if |xs| == |ys| {
      assert xs == ys;
    } else {
      var front := ys[..|ys| - 1];
      assert Prefix(xs, front);
      MoreIsNoWorse(xs, front);
      SortIsStablePermutation(front);
      InsertFacts(SortDescending(front), ys[|ys| - 1]);
    }
  }

  /**
   Retirement is transparent to recall: it changes nothing while the ANN limit does not bind,
   and otherwise the results are never fewer and rank by rank never score lower.
   */
  lemma RetirementIsTransparent(q: Query, pool: seq<Candidate>, before: DetailRows, after: DetailRows, limit: nat,
                                topK: nat)
    requires RetiredBelowFloor(before, after)
    ensures
      var first := Recalled(q, Nearest(pool, before, limit), before, topK);
      var later := Recalled(q, Nearest(pool, after, limit), after, topK);
      NoWorse(first, later) && (ActiveCount(pool, before) <= limit ==> first == later)
  {
    RetiringKeepsScored(q, pool, before, after, limit);
    MoreIsNoWorse(PoolScored(q, pool, before, limit), PoolScored(q, pool, after, limit));
    if ActiveCount(pool, before) <= limit {
      RetiringLosesNothing(q, pool, before, after, limit);
    }
  }
}
