/**
 The consolidator (workers/consolidator/handler.py with its statements in
 workers/common/db.py) on one scope: episodes are grouped by what was done, how it ended and
 on which table; a tight group of three or more becomes a procedure. A procedure's id is its
 position. Two runs on one scope do not overlap.
 */
module Consolidator {
  import opened Prelude
  import opened Scoring

  const MIN_CLUSTER: nat := 3

  datatype Key = Key(kind: string, outcome: string, table: string)

  /** An embedded, active episode joined to its action; a missing table reads "unknown". */
  datatype Episode = Episode(id: nat, kind: string, outcome: string, table: Option<string>)

  datatype Status = Draft | Active

  datatype Procedure = Procedure(key: Key, name: string, sources: set<nat>, successes: nat, attempts: nat,
                                 confidence: real, status: Status)

  /** The scope's procedures, and the procedure ids that its memory items of class 'procedure' point at. */
  datatype Scope = Scope(procedures: seq<Procedure>, items: seq<nat>)

  /** What the database answers for one bucket: the neighbours, and whether the two transactions go through. */
  datatype Fortune = Fortune(near: Option<set<nat>>, inserted: bool, promoted: bool)

  function BucketKey(e: Episode): Key {
    Key(e.kind, e.outcome, if e.table.Some? then e.table.value else "unknown")
  }

  /** The name leaves the outcome out. */
  function NameOf(k: Key): string {
    k.kind + ("_" + k.table)
  }

  // ----- grouping

  /** The rows of one bucket, in order. */
  function Having(es: seq<Episode>, k: Key): seq<Episode> {
    if |es| == 0 then []
    else Having(es[..|es| - 1], k) + if BucketKey(es[|es| - 1]) == k then [es[|es| - 1]] else []
  }

  /** The bucket keys, in order of first appearance. */
  function KeysOf(es: seq<Episode>): seq<Key> {
    if |es| == 0 then []
    else
      var front, k := KeysOf(es[..|es| - 1]), BucketKey(es[|es| - 1]);
      if k in front then front else front + [k]
  }

  /** `_group_by_bucket`: one dictionary entry per key, filled in place. */
  method GroupByBucket(es: seq<Episode>) returns (keys: seq<Key>, buckets: map<Key, seq<Episode>>)
    ensures keys == KeysOf(es)
    ensures forall k :: k in buckets <==> k in keys
    ensures forall k | k in buckets :: buckets[k] == Having(es, k)
  {
    keys, buckets := [], map[];
    for i := 0 to |es|
      invariant keys == KeysOf(es[..i])
      invariant forall k :: k in buckets <==> k in keys
      invariant forall k | k in buckets :: buckets[k] == Having(es[..i], k)
    {
      assert es[..i + 1][..i] == es[..i];
      var k := BucketKey(es[i]);
      if k !in buckets {
        NoneHaving(es[..i], k);
        keys := keys + [k];
        buckets := buckets[k := []];
      }
      buckets := buckets[k := buckets[k] + [es[i]]];
    }
    assert es[..|es|] == es;
  }

  lemma {:induction false} NoneHaving(es: seq<Episode>, k: Key)
    requires k !in KeysOf(es)
    ensures Having(es, k) == []
  {
    if |es| > 0 {
      NoneHaving(es[..|es| - 1], k);
    }
  }

  lemma {:induction false} KeysAreDistinct(es: seq<Episode>)
    ensures forall i, j | 0 <= i < j < |KeysOf(es)| :: KeysOf(es)[i] != KeysOf(es)[j]
  {
    if |es| > 0 {
      KeysAreDistinct(es[..|es| - 1]);
    }
  }

  // ----- one bucket

  function Within(rows: seq<Episode>, near: set<nat>): seq<Episode> {
    if |rows| == 0 then []
    else Within(rows[..|rows| - 1], near) + if rows[|rows| - 1].id in near then [rows[|rows| - 1]] else []
  }

  function Ids(rows: seq<Episode>): set<nat> {
    set e | e in rows :: e.id
  }

  function Successes(rows: seq<Episode>): nat {
    if |rows| == 0 then 0 else Successes(rows[..|rows| - 1]) + if rows[|rows| - 1].outcome == "success" then 1 else 0
  }

  predicate NameTaken(s: Scope, name: string) {
    exists i | 0 <= i < |s.procedures| :: s.procedures[i].name == name
  }

  function Induced(m: Math, k: Key, cluster: seq<Episode>): Procedure {
    var successes, attempts := Successes(cluster), |cluster|;
    Procedure(k, NameOf(k), Ids(cluster), successes, attempts, DecayedConfidence(m, successes, attempts, 0.0), Draft)
  }

  /** Whether the bucket holds a cluster to induce from. */
  predicate Tight(rows: seq<Episode>, luck: Fortune) {
    |rows| >= MIN_CLUSTER && luck.near.Some? && |Ids(Within(rows, luck.near.value))| >= MIN_CLUSTER
  }

  /** `promote_procedure_active`: status and memory item in one transaction. */
  function Promoted(s: Scope, id: nat): Scope
    requires id < |s.procedures|
  {
    Scope(s.procedures[id := s.procedures[id].(status := Active)], s.items + [id])
  }

  function AfterBucket(m: Math, s: Scope, k: Key, rows: seq<Episode>, luck: Fortune): Scope {
    if !Tight(rows, luck) || !luck.inserted || NameTaken(s, NameOf(k)) then s
    else
      var id := |s.procedures|;
      var t := s.(procedures := s.procedures + [Induced(m, k, Within(rows, luck.near.value))]);
      if id > 0 && luck.promoted then Promoted(t, id) else t
  }

  function AfterBuckets(m: Math, s: Scope, keys: seq<Key>, es: seq<Episode>, luck: Key -> Fortune): Scope {
    if |keys| == 0 then s
    else
      var k := keys[|keys| - 1];
      AfterBucket(m, AfterBuckets(m, s, keys[..|keys| - 1], es, luck), k, Having(es, k), luck(k))
  }

  /** One run over the candidates of the scope. */
  function AfterRun(m: Math, s: Scope, es: seq<Episode>, luck: Key -> Fortune): Scope {
    AfterBuckets(m, s, KeysOf(es), es, luck)
  }

  /** The bucket raised an error that the handler counted: the neighbours, the insert or the promotion. */
  predicate Fails(s: Scope, k: Key, rows: seq<Episode>, luck: Fortune) {
    && |rows| >= MIN_CLUSTER
    && (|| luck.near.None?
        || (Tight(rows, luck)
            && (!luck.inserted || (!NameTaken(s, NameOf(k)) && |s.procedures| > 0 && !luck.promoted))))
  }

  /** How many buckets of a run fail. */
  function FailedBuckets(m: Math, s: Scope, keys: seq<Key>, es: seq<Episode>, luck: Key -> Fortune): nat {
    if |keys| == 0 then 0
    else
      var front, k := keys[..|keys| - 1], keys[|keys| - 1];
      FailedBuckets(m, s, front, es, luck)
      + if Fails(AfterBuckets(m, s, front, es, luck), k, Having(es, k), luck(k)) then 1 else 0
  }

  class Store {
    var scope: Scope

    constructor ()
      ensures scope == Scope([], [])
    {
      scope := Scope([], []);
    }

    /** `insert_draft_procedure`, with ON CONFLICT (scope_id, name) DO NOTHING. */
    method InsertDraft(p: Procedure) returns (id: Option<nat>)
      modifies this
      ensures id == if NameTaken(old(scope), p.name) then None else Some(|old(scope).procedures|)
      ensures scope == if id.None? then old(scope) else old(scope).(procedures := old(scope).procedures + [p])
    {
      if NameTaken(scope, p.name) {
        return None;
      }
      id := Some(|scope.procedures|);
      scope := scope.(procedures := scope.procedures + [p]);
    }

    /** One bucket: insert a draft, and promote it unless it is the scope's first. */
    method RunBucket(m: Math, k: Key, rows: seq<Episode>, luck: Fortune) returns (id: Option<nat>, promoted: bool,
                     failed: bool)
      modifies this
      ensures scope == AfterBucket(m, old(scope), k, rows, luck)
      ensures id == if |scope.procedures| > |old(scope).procedures| then Some(|old(scope).procedures|) else None
      ensures |scope.procedures| == |old(scope).procedures| + (if id.Some? then 1 else 0)
      ensures |scope.items| == |old(scope).items| + (if promoted then 1 else 0)
      ensures failed <==> Fails(old(scope), k, rows, luck)
    {
      hide Induced;
      id, promoted, failed := None, false, false;
      if |rows| < MIN_CLUSTER {
        return;
      }
      if luck.near.None? {
        failed := true;
        return;
      }
      var cluster := Within(rows, luck.near.value);
      if |Ids(cluster)| < MIN_CLUSTER {
        return;
      }
      if !luck.inserted {
        failed := true;
        return;
      }
      var firstEver := |scope.procedures| == 0;
      InducedName(m, k, cluster);
      id := InsertDraft(Induced(m, k, cluster));
      if id.Some? && !firstEver {
        if luck.promoted {
          scope := Promoted(scope, id.value);
          promoted := true;
        } else {
          failed := true;
        }
      }
    }

    /** The handler's work on one scope, with its counters; None is a listing that raised. */
    method RunScope(m: Math, listed: Option<seq<Episode>>, luck: Key -> Fortune)
      returns (induced: nat, activated: nat, pending: seq<nat>, failed: nat)
      modifies this
      ensures scope == if listed.None? then old(scope) else AfterRun(m, old(scope), listed.value, luck)
      ensures |scope.procedures| == |old(scope).procedures| + induced
      ensures |scope.items| == |old(scope).items| + activated
      ensures pending == if |old(scope).procedures| == 0 && induced > 0 then [0] else []
      ensures failed ==
        if listed.None? then 1 else FailedBuckets(m, old(scope), KeysOf(listed.value), listed.value, luck)
    {
      hide AfterBucket, KeysOf, Having, Fails;
      induced, activated, pending, failed := 0, 0, [], 0;
      if listed.None? {
        failed := 1;
        return;
      }
      var es := listed.value;
      var keys, buckets := GroupByBucket(es);
      ghost var before := scope;
      for i := 0 to |keys|
        invariant scope == AfterBuckets(m, before, keys[..i], es, luck)
        invariant |scope.procedures| == |before.procedures| + induced
        invariant |scope.items| == |before.items| + activated
        invariant pending == if |before.procedures| == 0 && induced > 0 then [0] else []
        invariant failed == FailedBuckets(m, before, keys[..i], es, luck)
      {
        var k := keys[i];
        assert k in buckets;
        AfterBucketsNext(m, before, keys, i, es, luck);
        var id, promoted, fails := RunBucket(m, k, buckets[k], luck(k));
        if id.Some? {
          induced := induced + 1;
          if id.value == 0 {
            pending := pending + [id.value];
          }
        }
        if promoted {
          activated := activated + 1;
        }
        if fails {
          failed := failed + 1;
        }
      }
      assert keys[..|keys|] == keys;
    }
  }

  lemma AfterBucketsNext(m: Math, s: Scope, keys: seq<Key>, i: nat, es: seq<Episode>, luck: Key -> Fortune)
    requires i < |keys|
    ensures AfterBuckets(m, s, keys[..i + 1], es, luck) ==
      AfterBucket(m, AfterBuckets(m, s, keys[..i], es, luck), keys[i], Having(es, keys[i]), luck(keys[i]))
    ensures FailedBuckets(m, s, keys[..i + 1], es, luck) ==
      FailedBuckets(m, s, keys[..i], es, luck)
      + if Fails(AfterBuckets(m, s, keys[..i], es, luck), keys[i], Having(es, keys[i]), luck(keys[i])) then 1 else 0
  {
    hide AfterBucket, Having, Fails;
    assert keys[..i + 1][..i] == keys[..i];
  }

  lemma InducedName(m: Math, k: Key, cluster: seq<Episode>)
    ensures Induced(m, k, cluster).name == NameOf(k)
  {
  }

  // ----- what every run keeps

  /** The Wilson bound of an all-success record. */
  function PerfectScore(attempts: nat): real {
    attempts as real / (attempts as real + Z * Z)
  }

  /** A procedure counts for what its cluster shows and nothing else. */
  ghost predicate ProcedureOk(m: Math, p: Procedure) {
    && p.name == NameOf(p.key)
    && |p.sources| >= MIN_CLUSTER && p.attempts == |p.sources|
    && p.successes == (if p.key.outcome == "success" then p.attempts else 0)
    && p.confidence == (if p.key.outcome == "success" then PerfectScore(p.attempts) else 0.0)
  }

  predicate Apart(p: Procedure, q: Procedure) {
    p.name != q.name && p.sources !! q.sources
  }

  function Claimed(s: Scope): set<nat> {
    set i, e | 0 <= i < |s.procedures| && e in s.procedures[i].sources :: e
  }

  /** Active exactly with one memory item; and the scope's first stays a draft. */
  predicate ItemsOk(s: Scope) {
    && (forall i | 0 <= i < |s.items| :: s.items[i] < |s.procedures|)
    && (forall i, j | 0 <= i < j < |s.items| :: s.items[i] != s.items[j])
    && (forall id | 0 <= id < |s.procedures| :: s.procedures[id].status == Active <==> id in s.items)
    && (|s.procedures| > 0 ==> s.procedures[0].status == Draft)
  }

  ghost predicate Inv(m: Math, s: Scope) {
    && (forall i | 0 <= i < |s.procedures| :: ProcedureOk(m, s.procedures[i]))
    && (forall i, j | 0 <= i < j < |s.procedures| :: Apart(s.procedures[i], s.procedures[j]))
    && ItemsOk(s)
  }

  predicate DistinctIds(es: seq<Episode>) {
    forall i, j | 0 <= i < j < |es| :: es[i].id != es[j].id
  }

  /** `list_unconsolidated_episodes`: distinct rows, none claimed by a procedure yet. */
  predicate Unconsolidated(s: Scope, es: seq<Episode>) {
    DistinctIds(es) && Ids(es) !! Claimed(s)
  }

  lemma DistinctSnoc(xs: seq<Episode>, x: Episode)
    ensures DistinctIds(xs + [x]) <==> DistinctIds(xs) && forall e | e in xs :: e.id != x.id
  {
    var all := xs + [x];
    if DistinctIds(all) {
      assert DistinctIds(xs) by {
        forall i, j | 0 <= i < j < |xs| ensures xs[i].id != xs[j].id {
          assert all[i].id != all[j].id;
        }
      }
      forall e | e in xs ensures e.id != x.id {
        var i :| 0 <= i < |xs| && xs[i] == e;
        assert all[i].id != all[|xs|].id;
      }
    }
  }

  lemma {:induction false} HavingFacts(es: seq<Episode>, k: Key)
    requires DistinctIds(es)
    ensures DistinctIds(Having(es, k)) && forall e | e in Having(es, k) :: e in es && BucketKey(e) == k
  {
    if |es| > 0 {
      var front := es[..|es| - 1];
      assert es == front + [es[|es| - 1]];
      DistinctSnoc(front, es[|es| - 1]);
      HavingFacts(front, k);
      DistinctSnoc(Having(front, k), es[|es| - 1]);
    }
  }

  lemma {:induction false} WithinFacts(rows: seq<Episode>, near: set<nat>)
    requires DistinctIds(rows)
    ensures DistinctIds(Within(rows, near)) && forall e | e in Within(rows, near) :: e in rows
  {
    if |rows| > 0 {
      var front := rows[..|rows| - 1];
      assert rows == front + [rows[|rows| - 1]];
      DistinctSnoc(front, rows[|rows| - 1]);
      WithinFacts(front, near);
      DistinctSnoc(Within(front, near), rows[|rows| - 1]);
    }
  }

  lemma {:induction false} IdsCount(rows: seq<Episode>)
    requires DistinctIds(rows)
    ensures |Ids(rows)| == |rows|
  {
    if |rows| > 0 {
      var front, last := rows[..|rows| - 1], rows[|rows| - 1];
      assert rows == front + [last];
      IdsCount(front);
      assert Ids(rows) == Ids(front) + {last.id};
    }
  }

  lemma {:induction false} SameOutcome(rows: seq<Episode>, outcome: string)
    requires forall e | e in rows :: e.outcome == outcome
    ensures Successes(rows) == if outcome == "success" then |rows| else 0
  {
    if |rows| > 0 {
      SameOutcome(rows[..|rows| - 1], outcome);
    }
  }

  lemma FreshConfidence(m: Math, attempts: nat)
    requires Faithful(m) && attempts > 0
    ensures DecayedConfidence(m, attempts, attempts, 0.0) == PerfectScore(attempts)
    ensures DecayedConfidence(m, 0, attempts, 0.0) == 0.0
  {
    WilsonAtTheEnds(m, attempts, Z);
    ExpZero(m);
    assert -0.0 / 90.0 == 0.0;
    hide WilsonLb;
  }

  lemma InducedOk(m: Math, k: Key, es: seq<Episode>, near: set<nat>)
    requires Faithful(m) && DistinctIds(es) && |Ids(Within(Having(es, k), near))| >= MIN_CLUSTER
    ensures
      var cluster := Within(Having(es, k), near);
      ProcedureOk(m, Induced(m, k, cluster)) && Ids(cluster) <= Ids(es) && forall e | e in cluster :: BucketKey(e) == k
  {
    var cluster := Within(Having(es, k), near);
    HavingFacts(es, k);
    WithinFacts(Having(es, k), near);
    IdsCount(cluster);
    SameOutcome(cluster, k.outcome);
    FreshConfidence(m, |cluster|);
    hide DecayedConfidence, PerfectScore, Having, Within, Successes, DistinctIds;
  }

  predicate Fresh(s: Scope, p: Procedure) {
    forall i | 0 <= i < |s.procedures| :: Apart(s.procedures[i], p)
  }

  lemma AddedOk(m: Math, s: Scope, p: Procedure, promoted: bool)
    requires Inv(m, s) && ProcedureOk(m, p) && p.status == Draft && Fresh(s, p)
    ensures
      var t := s.(procedures := s.procedures + [p]);
      Inv(m, if |s.procedures| > 0 && promoted then Promoted(t, |s.procedures|) else t)
  {
    var t := s.(procedures := s.procedures + [p]);
    var u := if |s.procedures| > 0 && promoted then Promoted(t, |s.procedures|) else t;
    hide ProcedureOk;
    forall i | 0 <= i < |u.procedures| ensures ProcedureOk(m, u.procedures[i]) {
      if i < |s.procedures| {
        assert u.procedures[i] == s.procedures[i];
      } else {
        StatusIsFree(m, p, u.procedures[i].status);
      }
    }
    forall i, j | 0 <= i < j < |u.procedures| ensures Apart(u.procedures[i], u.procedures[j]) {
      assert Apart(t.procedures[i], t.procedures[j]) by {
        if j < |s.procedures| {
          assert Apart(s.procedures[i], s.procedures[j]);
        } else {
          assert Apart(s.procedures[i], p);
        }
      }
    }
    ItemsStay(s, p, promoted);
  }

  lemma StatusIsFree(m: Math, p: Procedure, status: Status)
    requires ProcedureOk(m, p)
    ensures ProcedureOk(m, p.(status := status))
  {
  }

  lemma ItemsStay(s: Scope, p: Procedure, promoted: bool)
    requires ItemsOk(s) && p.status == Draft
    ensures
      var t := s.(procedures := s.procedures + [p]);
      ItemsOk(if |s.procedures| > 0 && promoted then Promoted(t, |s.procedures|) else t)
  {
  }

  lemma ClaimedSnoc(s: Scope, p: Procedure)
    ensures Claimed(s.(procedures := s.procedures + [p])) == Claimed(s) + p.sources
  {
    var t := s.(procedures := s.procedures + [p]);
    forall e | e in Claimed(s) + p.sources ensures e in Claimed(t) {
      if e in Claimed(s) {
        var i :| 0 <= i < |s.procedures| && e in s.procedures[i].sources;
        assert e in t.procedures[i].sources;
      } else {
        assert e in t.procedures[|s.procedures|].sources;
      }
    }
  }

  lemma ClaimedPromoted(s: Scope, id: nat)
    requires id < |s.procedures|
    ensures Claimed(Promoted(s, id)) == Claimed(s)
  {
    var t := Promoted(s, id);
    forall e | e in Claimed(s) ensures e in Claimed(t) {
      var i :| 0 <= i < |s.procedures| && e in s.procedures[i].sources;
      assert e in t.procedures[i].sources;
    }
  }

  lemma FreshFrom(s: Scope, p: Procedure)
    requires !NameTaken(s, p.name) && p.sources !! Claimed(s)
    ensures Fresh(s, p)
  {
    forall i | 0 <= i < |s.procedures| ensures Apart(s.procedures[i], p) {
      forall e | e in s.procedures[i].sources ensures e !in p.sources {
        assert e in Claimed(s);
      }
    }
  }

  /** A later state of the scope: every procedure that was there still is, as it was, and every item too. */
  predicate Later(s: Scope, t: Scope) {
    s.procedures <= t.procedures && s.items <= t.items
  }

  /** The state after a draft went in, promoted or not. */
  function WithProcedure(s: Scope, p: Procedure, promoted: bool): Scope {
    var t := s.(procedures := s.procedures + [p]);
    if |s.procedures| > 0 && promoted then Promoted(t, |s.procedures|) else t
  }

  lemma InsertedOk(m: Math, s: Scope, p: Procedure, promoted: bool)
    requires Inv(m, s) && ProcedureOk(m, p) && p.status == Draft
    requires !NameTaken(s, p.name) && p.sources !! Claimed(s)
    ensures
      var t := WithProcedure(s, p, promoted);
      Inv(m, t) && Later(s, t) && Claimed(t) == Claimed(s) + p.sources
  {
    hide Inv, ProcedureOk, Claimed, NameTaken, Fresh;
    FreshFrom(s, p);
    AddedOk(m, s, p, promoted);
    ClaimedSnoc(s, p);
    if |s.procedures| > 0 && promoted {
      ClaimedPromoted(s.(procedures := s.procedures + [p]), |s.procedures|);
    }
  }

  /** A cluster of a bucket that nothing has claimed claims nothing that is claimed. */
  lemma ClusterIsUnclaimed(s: Scope, k: Key, es: seq<Episode>, near: set<nat>)
    requires DistinctIds(es) && forall e | e in es && e.id in Claimed(s) :: BucketKey(e) != k
    ensures Ids(Within(Having(es, k), near)) !! Claimed(s)
  {
    var rows := Having(es, k);
    HavingFacts(es, k);
    WithinFacts(rows, near);
    hide Claimed, Having, Within;
    forall e | e in Within(rows, near) ensures e.id !in Claimed(s) {
      assert e in es && BucketKey(e) == k;
    }
  }

  lemma BucketOk(m: Math, s: Scope, k: Key, es: seq<Episode>, luck: Fortune)
    requires Faithful(m) && Inv(m, s) && DistinctIds(es)
    requires forall e | e in es && e.id in Claimed(s) :: BucketKey(e) != k
    ensures
      var t := AfterBucket(m, s, k, Having(es, k), luck);
      Inv(m, t) && Later(s, t) && forall e | e in es && e.id in Claimed(t) :: e.id in Claimed(s) || BucketKey(e) == k
  {
    var rows := Having(es, k);
    if Tight(rows, luck) && luck.inserted && !NameTaken(s, NameOf(k)) {
      var near := luck.near.value;
      var p := Induced(m, k, Within(rows, near));
      InducedOk(m, k, es, near);
      IdsHaveBucket(es, rows, near, k);
      ClusterIsUnclaimed(s, k, es, near);
      hide ProcedureOk, Inv, Claimed, Having, Within, Ids, NameTaken, DecayedConfidence;
      InsertedOk(m, s, p, luck.promoted);
    }
  }

  /** Ids are unique, so an id in a cluster belongs to a row of its bucket. */
  lemma IdsHaveBucket(es: seq<Episode>, rows: seq<Episode>, near: set<nat>, k: Key)
    requires DistinctIds(es) && rows == Having(es, k)
    ensures forall e | e in es && e.id in Ids(Within(rows, near)) :: BucketKey(e) == k
  {
    HavingFacts(es, k);
    WithinFacts(rows, near);
    forall e | e in es && e.id in Ids(Within(rows, near)) ensures BucketKey(e) == k {
      var f :| f in Within(rows, near) && f.id == e.id;
      var i :| 0 <= i < |es| && es[i] == e;
      var j :| 0 <= j < |es| && es[j] == f;
      assert i == j;
    }
  }

  lemma {:induction false} BucketsOk(m: Math, s: Scope, keys: seq<Key>, es: seq<Episode>, luck: Key -> Fortune)
    requires Faithful(m) && Inv(m, s) && Unconsolidated(s, es)
    requires forall i, j | 0 <= i < j < |keys| :: keys[i] != keys[j]
    ensures
      var t := AfterBuckets(m, s, keys, es, luck);
      Inv(m, t) && Later(s, t) && forall e | e in es && e.id in Claimed(t) :: BucketKey(e) in keys
  {
    hide Inv, Claimed, AfterBucket;
    if |keys| == 0 {
      forall e | e in es ensures e.id !in Claimed(s) {
        assert e.id in Ids(es);
      }
    } else {
      var front, k := keys[..|keys| - 1], keys[|keys| - 1];
      assert keys == front + [k];
      BucketsOk(m, s, front, es, luck);
      BucketOk(m, AfterBuckets(m, s, front, es, luck), k, es, luck(k));
    }
  }

  /** One run of the consolidator, whatever it finds and whatever fails. */
  datatype Run = Run(es: seq<Episode>, luck: Key -> Fortune)

  /** Runs one after the other; what a run finds already claimed it does not list. */
  function AfterRuns(m: Math, s: Scope, runs: seq<Run>): Scope {
    if |runs| == 0 then s
    else
      var t, r := AfterRuns(m, s, runs[..|runs| - 1]), runs[|runs| - 1];
      if Unconsolidated(t, r.es) then AfterRun(m, t, r.es, r.luck) else t
  }

  /**
   Over all runs, including failed inserts and promotions: names are unique, source sets are
   disjoint and have at least three members, confidence is 0 or n/(n + z^2) for n sources,
   a procedure is active exactly when one memory item points at it, and the first is a draft.
   */
  lemma {:induction false} EveryRunKeepsProcedures(m: Math, s: Scope, runs: seq<Run>)
    requires Faithful(m) && Inv(m, s)
    ensures Inv(m, AfterRuns(m, s, runs)) && Later(s, AfterRuns(m, s, runs))
  {
    hide Inv, AfterBuckets, Unconsolidated;
    if |runs| > 0 {
      var r := runs[|runs| - 1];
      EveryRunKeepsProcedures(m, s, runs[..|runs| - 1]);
      var t := AfterRuns(m, s, runs[..|runs| - 1]);
      if Unconsolidated(t, r.es) {
        KeysAreDistinct(r.es);
        BucketsOk(m, t, KeysOf(r.es), r.es, r.luck);
      }
    }
  }

  lemma EmptyScopeOk(m: Math)
    ensures Inv(m, Scope([], []))
  {
  }

  /** The confidence of a successful induction is at least that of a cluster of three. */
  lemma ConfidenceHasAFloor(m: Math, runs: seq<Run>, i: nat)
    requires Faithful(m) && i < |AfterRuns(m, Scope([], []), runs).procedures|
    ensures
      var p := AfterRuns(m, Scope([], []), runs).procedures[i];
      if p.key.outcome == "success" then p.confidence >= 3.0 / (3.0 + 1.96 * 1.96) else p.confidence == 0.0
  {
    EmptyScopeOk(m);
    EveryRunKeepsProcedures(m, Scope([], []), runs);
    var p := AfterRuns(m, Scope([], []), runs).procedures[i];
    hide AfterRuns, PerfectScore;
    assert ProcedureOk(m, p);
    PerfectScoreGrows(MIN_CLUSTER, p.attempts);
  }

  lemma PerfectScoreGrows(n: nat, o: nat)
    requires 0 < n <= o
    ensures PerfectScore(n) <= PerfectScore(o)
  {
    ShareGrows(n as real, o as real, Z * Z);
  }

  lemma ShareGrows(x: real, y: real, zz: real)
    requires 0.0 < x <= y && zz > 0.0
    ensures x / (x + zz) <= y / (y + zz)
  {
    var a, b := x / (x + zz), y / (y + zz);
    assert a * (x + zz) == x && b * (y + zz) == y;
    var u, v := 1.0 - a, 1.0 - b;
    assert u * (x + zz) == zz && v * (y + zz) == zz;
    Sign(u, x + zz, zz);
    ProductOrder(x + zz, y + zz, u);
    assert (u - v) * (y + zz) >= 0.0;
    FactorSign(u - v, y + zz);
  }

  lemma Sign(u: real, f: real, product: real)
    requires u * f == product && product > 0.0 && f > 0.0
    ensures u > 0.0
  {
    FactorSign(u, f);
  }

  // ----- which episodes a procedure stands for

  /** The episode shows this action with this outcome on this table; without a table it counts as "unknown". */
  predicate Matches(e: Episode, k: Key) {
    && e.kind == k.kind && e.outcome == k.outcome
    && (e.table == Some(k.table) || (e.table == None && k.table == "unknown"))
  }

  /** The ids among the neighbours that match. */
  function Cluster(es: seq<Episode>, k: Key, near: set<nat>): set<nat> {
    set e | e in es && Matches(e, k) && e.id in near :: e.id
  }

  lemma {:induction false} HavingIff(es: seq<Episode>, k: Key)
    ensures forall e :: e in Having(es, k) <==> e in es && Matches(e, k)
  {
    if |es| > 0 {
      HavingIff(es[..|es| - 1], k);
      assert es == es[..|es| - 1] + [es[|es| - 1]];
    }
  }

  lemma {:induction false} WithinIff(rows: seq<Episode>, near: set<nat>)
    ensures forall e :: e in Within(rows, near) <==> e in rows && e.id in near
    ensures |Within(rows, near)| <= |rows|
  {
    if |rows| > 0 {
      WithinIff(rows[..|rows| - 1], near);
      assert rows == rows[..|rows| - 1] + [rows[|rows| - 1]];
    }
  }

  lemma {:induction false} IdsAtMost(rows: seq<Episode>)
    ensures |Ids(rows)| <= |rows|
  {
    if |rows| > 0 {
      var front, last := rows[..|rows| - 1], rows[|rows| - 1];
      assert rows == front + [last];
      IdsAtMost(front);
      assert Ids(rows) == Ids(front) + {last.id};
    }
  }

  lemma TightIff(es: seq<Episode>, k: Key, luck: Fortune)
    ensures Tight(Having(es, k), luck) <==> luck.near.Some? && |Cluster(es, k, luck.near.value)| >= 3
    ensures luck.near.Some? ==> Ids(Within(Having(es, k), luck.near.value)) == Cluster(es, k, luck.near.value)
  {
    HavingIff(es, k);
    if luck.near.Some? {
      var near := luck.near.value;
      WithinIff(Having(es, k), near);
      IdsAtMost(Within(Having(es, k), near));
      hide Having, Within, Matches;
      assert Ids(Within(Having(es, k), near)) == Cluster(es, k, near);
    }
  }

  /**
   The procedure is named for an action and a table, its sources are the matching neighbours,
   and it is active unless it is the scope's first or its promotion failed.
   */
  predicate StandsFor(p: Procedure, i: nat, es: seq<Episode>, luck: Key -> Fortune) {
    && p.name == p.key.kind + ("_" + p.key.table)
    && luck(p.key).near.Some? && p.sources == Cluster(es, p.key, luck(p.key).near.value) && |p.sources| >= 3
    && (p.status == Active <==> i > 0 && luck(p.key).promoted)
  }

  lemma BucketStandsFor(m: Math, s: Scope, k: Key, es: seq<Episode>, luck: Key -> Fortune)
    ensures
      var t := AfterBucket(m, s, k, Having(es, k), luck(k));
      && |s.procedures| <= |t.procedures| <= |s.procedures| + 1
      && (forall i | 0 <= i < |s.procedures| :: t.procedures[i] == s.procedures[i])
      && (|t.procedures| > |s.procedures| ==> StandsFor(t.procedures[|s.procedures|], |s.procedures|, es, luck))
      && (luck(k).near.Some? && |Cluster(es, k, luck(k).near.value)| >= 3 && luck(k).inserted ==>
            NameTaken(t, k.kind + ("_" + k.table)))
  {
    TightIff(es, k, luck(k));
    var t := AfterBucket(m, s, k, Having(es, k), luck(k));
    hide Having, Within, Ids, Cluster, DecayedConfidence, Successes, Tight;
    if |t.procedures| > |s.procedures| {
      assert t.procedures[|s.procedures|].name == NameOf(k);
    }
  }

  /** The run keeps the procedures there were, and every new one stands for its cluster. */
  lemma {:induction false} BucketsStandFor(m: Math, s: Scope, keys: seq<Key>, es: seq<Episode>, luck: Key -> Fortune)
    ensures
      var t := AfterBuckets(m, s, keys, es, luck);
      && |s.procedures| <= |t.procedures|
      && (forall i | 0 <= i < |s.procedures| :: t.procedures[i] == s.procedures[i])
      && (forall i | |s.procedures| <= i < |t.procedures| :: StandsFor(t.procedures[i], i, es, luck))
  {
    hide AfterBucket, StandsFor;
    if |keys| > 0 {
      var front := keys[..|keys| - 1];
      BucketsStandFor(m, s, front, es, luck);
      BucketStandsFor(m, AfterBuckets(m, s, front, es, luck), keys[|keys| - 1], es, luck);
    }
  }

  lemma {:induction false} BucketsNameEvery(m: Math, s: Scope, keys: seq<Key>, es: seq<Episode>, luck: Key -> Fortune,
                                            k: Key)
    requires k in keys && luck(k).near.Some? && |Cluster(es, k, luck(k).near.value)| >= 3 && luck(k).inserted
    ensures NameTaken(AfterBuckets(m, s, keys, es, luck), k.kind + ("_" + k.table))
  {
    hide AfterBucket, StandsFor, Cluster;
    var front, last := keys[..|keys| - 1], keys[|keys| - 1];
    assert keys == front + [last];
    var t := AfterBuckets(m, s, front, es, luck);
    BucketStandsFor(m, t, last, es, luck);
    if k != last {
      BucketsNameEvery(m, s, front, es, luck, k);
      var i :| 0 <= i < |t.procedures| && t.procedures[i].name == k.kind + ("_" + k.table);
      assert AfterBuckets(m, s, keys, es, luck).procedures[i] == t.procedures[i];
    }
  }

  lemma {:induction false} KeysIff(es: seq<Episode>, k: Key)
    ensures k in KeysOf(es) <==> exists e | e in es :: Matches(e, k)
  {
    if |es| > 0 {
      var front, last := es[..|es| - 1], es[|es| - 1];
      KeysIff(front, k);
      assert es == front + [last];
      assert BucketKey(last) == k <==> Matches(last, k);
      hide BucketKey, Matches;
    }
  }

  /**
   What one run adds: every new procedure stands for exactly the neighbours that show its
   action, outcome and table, at least three; and a group of three or more whose insert goes
   through leaves a procedure of its action and table, new or there before.
   */
  lemma RunInducesClusters(m: Math, s: Scope, es: seq<Episode>, luck: Key -> Fortune)
    ensures
      var t := AfterRun(m, s, es, luck);
      && |s.procedures| <= |t.procedures|
      && (forall i | 0 <= i < |s.procedures| :: t.procedures[i] == s.procedures[i])
      && (forall i | |s.procedures| <= i < |t.procedures| :: StandsFor(t.procedures[i], i, es, luck))
      && (forall k: Key | luck(k).near.Some? && |Cluster(es, k, luck(k).near.value)| >= 3 && luck(k).inserted ::
            NameTaken(t, k.kind + ("_" + k.table)))
  {
    BucketsStandFor(m, s, KeysOf(es), es, luck);
    hide AfterBuckets, StandsFor, NameTaken;
    forall k: Key | luck(k).near.Some? && |Cluster(es, k, luck(k).near.value)| >= 3 && luck(k).inserted
      ensures NameTaken(AfterRun(m, s, es, luck), k.kind + ("_" + k.table))
    {
      var cluster := Cluster(es, k, luck(k).near.value);
      KeysIff(es, k);
      assert cluster != {};
      var id :| id in cluster;
      BucketsNameEvery(m, s, KeysOf(es), es, luck, k);
    }
  }

  // ----- where the rules bite

  /**
   The name has no outcome in it: once the scope has a procedure for an action on a table,
   no bucket of that action and table induces anything, whatever its outcome.
   */
  lemma OtherOutcomeIsDropped(m: Math, s: Scope, i: nat, k: Key, rows: seq<Episode>, luck: Fortune)
    requires Inv(m, s) && i < |s.procedures| && s.procedures[i].key.kind == k.kind
    requires s.procedures[i].key.table == k.table
    ensures AfterBucket(m, s, k, rows, luck) == s
  {
    assert ProcedureOk(m, s.procedures[i]);
    assert s.procedures[i].name == NameOf(k);
  }

  /** A draft left behind by a failed promotion, or as the scope's first, is a draft for good. */
  lemma DraftsStayDrafts(m: Math, s: Scope, runs: seq<Run>, i: nat)
    requires Faithful(m) && Inv(m, s) && i < |s.procedures| && s.procedures[i].status == Draft
    ensures
      var t := AfterRuns(m, s, runs);
      i < |t.procedures| && t.procedures[i] == s.procedures[i] && i !in t.items
  {
    EveryRunKeepsProcedures(m, s, runs);
    hide AfterRuns;
  }
}
