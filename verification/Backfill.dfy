/**
 The embedding backfill (workers/embedding_backfill/handler.py with its statements in
 workers/common/db.py): memory items stored without an embedding get theirs, from the cache
 shared with the agent or from the provider, a bounded number of rows per run.
 */
module Backfill {
  import opened Prelude
  import opened EmbeddingCache

  const MODEL: string := "embed-english-v3.0"
  const ROW_LIMIT: nat := 500

  datatype ItemRow = ItemRow(content: string, embedding: Option<Vector>)

  /** Which statements go through: the UPDATE of an item, and the cache INSERT made for it. */
  datatype Faults = Faults(writes: nat -> bool, stores: nat -> bool)

  function NullCount(rows: seq<ItemRow>): nat {
    if |rows| == 0 then 0 else NullCount(rows[..|rows| - 1]) + if rows[|rows| - 1].embedding.None? then 1 else 0
  }

  function Nulls(rows: seq<ItemRow>): set<nat> {
    set i | 0 <= i < |rows| && rows[i].embedding.None?
  }

  /** The count is that of the rows without an embedding. */
  lemma {:induction false} NullCountIs(rows: seq<ItemRow>)
    ensures NullCount(rows) == |Nulls(rows)|
  {
    if |rows| > 0 {
      var last := |rows| - 1;
      var front := rows[..last];
      NullCountIs(front);
      var more := if rows[last].embedding.None? then {last} else {};
      assert forall i | 0 <= i < last :: front[i] == rows[i];
      assert Nulls(rows) == Nulls(front) + more;
    }
  }

  predicate Distinct(ids: seq<nat>) {
    forall i, j | 0 <= i < j < |ids| :: ids[i] != ids[j]
  }

  /** Distinct rows that have no embedding. */
  predicate Open(rows: seq<ItemRow>, ids: seq<nat>) {
    Distinct(ids) && forall k | 0 <= k < |ids| :: ids[k] < |rows| && rows[ids[k]].embedding.None?
  }

  function Smaller(a: nat, b: nat): nat {
    if a <= b then a else b
  }

  /** `SELECT ... WHERE embedding IS NULL LIMIT 500`: some such rows, as many as there are up to the limit. */
  predicate Listed(rows: seq<ItemRow>, ids: seq<nat>) {
    Open(rows, ids) && |ids| == Smaller(NullCount(rows), ROW_LIMIT)
  }

  function Filled(rows: seq<ItemRow>, id: nat, v: Vector): seq<ItemRow>
    requires id < |rows|
  {
    rows[id := rows[id].(embedding := Some(v))]
  }

  ghost predicate OwnEmbedding(e: Embedding, text: string, v: Vector) {
    Embedded(e, MODEL, SearchDocument, text, v)
  }

  /** Only listed rows changed, each from no embedding to its own. */
  ghost predicate Progress(before: seq<ItemRow>, after: seq<ItemRow>, listed: seq<nat>, e: Embedding) {
    && |after| == |before|
    && forall i | 0 <= i < |before| ::
         || after[i] == before[i]
         || (&& i in listed && before[i].embedding.None?
             && after[i].content == before[i].content
             && after[i].embedding.Some? && OwnEmbedding(e, before[i].content, after[i].embedding.value))
  }

  lemma {:induction false} FillCounts(rows: seq<ItemRow>, id: nat, v: Vector)
    requires id < |rows| && rows[id].embedding.None?
    ensures NullCount(Filled(rows, id, v)) == NullCount(rows) - 1
  {
    var last := |rows| - 1;
    if id < last {
      FillCounts(rows[..last], id, v);
      assert Filled(rows, id, v)[..last] == Filled(rows[..last], id, v);
    } else {
      assert Filled(rows, id, v)[..last] == rows[..last];
    }
  }

  lemma FillKeeps(before: seq<ItemRow>, rows: seq<ItemRow>, id: nat, rest: seq<nat>, listed: seq<nat>, v: Vector,
                  e: Embedding)
    requires Progress(before, rows, listed, e) && Open(rows, [id] + rest) && id in listed && id < |rows|
    requires OwnEmbedding(e, rows[id].content, v)
    ensures Progress(before, Filled(rows, id, v), listed, e) && Open(Filled(rows, id, v), rest)
  {
    hide OwnEmbedding;
    var ids := [id] + rest;
    assert ids[0] == id;
    forall k | 0 <= k < |rest| ensures rest[k] == ids[k + 1] && rest[k] != id {
    }
    assert Distinct(rest) by {
      forall i, j | 0 <= i < j < |rest| ensures rest[i] != rest[j] {
        assert ids[i + 1] != ids[j + 1];
      }
    }
  }

  lemma OpenTail(rows: seq<ItemRow>, id: nat, rest: seq<nat>)
    requires Open(rows, [id] + rest)
    ensures id < |rows| && rows[id].embedding.None? && Open(rows, rest)
  {
    var ids := [id] + rest;
    assert ids[0] == id;
    assert Distinct(rest) by {
      forall i, j | 0 <= i < j < |rest| ensures rest[i] != rest[j] {
        assert ids[i + 1] != ids[j + 1];
      }
    }
    forall k | 0 <= k < |rest| ensures rest[k] < |rows| && rows[rest[k]].embedding.None? {
      assert rest[k] == ids[k + 1];
    }
  }

  class ItemTable {
    var rows: seq<ItemRow>

    constructor (rows: seq<ItemRow>)
      ensures this.rows == rows
    {
      this.rows := rows;
    }

    /** `update_memory_item_embedding`; false stands for an exception. */
    method Update(id: nat, v: Vector, faults: Faults) returns (ok: bool)
      requires id < |rows|
      modifies this
      ensures ok <==> faults.writes(id)
      ensures rows == if ok then Filled(old(rows), id, v) else old(rows)
    {
      ok := faults.writes(id);
      if ok {
        rows := Filled(rows, id, v);
      }
    }
  }

  /** What the run has done once `rest` is all that is left of the listed rows. */
  ghost predicate Conserved(before: seq<ItemRow>, rows: seq<ItemRow>, listed: seq<nat>, rest: seq<nat>, filled: nat,
                            failed: nat, e: Embedding) {
    && Progress(before, rows, listed, e) && Open(rows, rest)
    && (forall k | 0 <= k < |rest| :: rest[k] in listed)
    && filled + failed + |rest| == |listed|
    && NullCount(rows) + filled == NullCount(before)
  }

  lemma ConservedFill(before: seq<ItemRow>, rows: seq<ItemRow>, listed: seq<nat>, id: nat, rest: seq<nat>,
                      filled: nat, failed: nat, v: Vector, e: Embedding)
    requires Conserved(before, rows, listed, [id] + rest, filled, failed, e)
    requires id < |rows| && OwnEmbedding(e, rows[id].content, v)
    ensures Conserved(before, Filled(rows, id, v), listed, rest, filled + 1, failed, e)
  {
    var ids := [id] + rest;
    assert ids[0] == id;
    OpenTail(rows, id, rest);
    FillKeeps(before, rows, id, rest, listed, v, e);
    FillCounts(rows, id, v);
    forall k | 0 <= k < |rest| ensures rest[k] in listed {
      assert rest[k] == ids[k + 1];
    }
    hide OwnEmbedding, Progress, Open, NullCount, Filled;
  }

  lemma ConservedFail(before: seq<ItemRow>, rows: seq<ItemRow>, listed: seq<nat>, id: nat, rest: seq<nat>,
                      filled: nat, failed: nat, e: Embedding)
    requires Conserved(before, rows, listed, [id] + rest, filled, failed, e)
    ensures Conserved(before, rows, listed, rest, filled, failed + 1, e)
  {
    var ids := [id] + rest;
    OpenTail(rows, id, rest);
    forall k | 0 <= k < |rest| ensures rest[k] in listed {
      assert rest[k] == ids[k + 1];
    }
    hide Progress, Open, NullCount;
  }

  /** The first of the rows left, by itself. */
  lemma ConservedHead(before: seq<ItemRow>, rows: seq<ItemRow>, listed: seq<nat>, id: nat, rest: seq<nat>,
                      filled: nat, failed: nat, e: Embedding)
    requires Conserved(before, rows, listed, [id] + rest, filled, failed, e)
    ensures id < |rows| && rows[id].embedding.None?
  {
    OpenTail(rows, id, rest);
  }

  /** Nothing fails: every statement goes through, the provider is up and every width is right. */
  ghost predicate Clean(faults: Faults, p: Provider)
    reads {}
  {
    && (forall id :: faults.writes(id) && faults.stores(id))
    && (forall n :: p.up(n))
    && (forall text :: |p.embedding(MODEL, SearchDocument, text)| == DIM)
  }

  lemma ConservedRotate(before: seq<ItemRow>, rows: seq<ItemRow>, listed: seq<nat>, id: nat, rest: seq<nat>,
                        filled: nat, failed: nat, e: Embedding)
    requires Conserved(before, rows, listed, [id] + rest, filled, failed, e)
    ensures Conserved(before, rows, listed, rest + [id], filled, failed, e)
  {
    var ids, turned := [id] + rest, rest + [id];
    assert ids[0] == id;
    forall i, j | 0 <= i < j < |turned| ensures turned[i] != turned[j] {
      assert ids[i + 1] == turned[i];
      if j < |rest| {
        assert ids[j + 1] == turned[j];
      }
    }
    forall k | 0 <= k < |turned|
      ensures turned[k] < |rows| && rows[turned[k]].embedding.None? && turned[k] in listed
    {
      assert turned[k] == if k < |rest| then ids[k + 1] else ids[0];
    }
    hide Progress, NullCount;
  }

  lemma {:induction false} ConservedFailAll(before: seq<ItemRow>, rows: seq<ItemRow>, listed: seq<nat>, at: seq<nat>,
                                            rest: seq<nat>, filled: nat, failed: nat, e: Embedding)
    requires Conserved(before, rows, listed, at + rest, filled, failed, e)
    ensures Conserved(before, rows, listed, rest, filled, failed + |at|, e)
    decreases |at|
  {
    hide Conserved;
    if |at| == 0 {
      assert at + rest == rest;
    } else {
      assert at + rest == [at[0]] + (at[1..] + rest);
      ConservedFail(before, rows, listed, at[0], at[1..] + rest, filled, failed, e);
      ConservedFailAll(before, rows, listed, at[1..], rest, filled, failed + 1, e);
    }
  }

  lemma ConservedStart(rows: seq<ItemRow>, listed: seq<nat>, e: Embedding)
    requires Open(rows, listed)
    ensures Conserved(rows, rows, listed, listed, 0, 0, e)
  {
  }

  lemma ConservedEnd(before: seq<ItemRow>, rows: seq<ItemRow>, listed: seq<nat>, filled: nat, failed: nat, e: Embedding)
    requires Conserved(before, rows, listed, [], filled, failed, e)
    ensures Progress(before, rows, listed, e) && filled + failed == |listed|
    ensures NullCount(rows) + filled == NullCount(before)
  {
  }

  lemma HitIsOwn(rows: Cache, e: Embedding, text: string)
    requires Coherent(rows, e) && Hit(rows, SearchDocument, text, MODEL)
    ensures CacheKey(SearchDocument, text) in rows
    ensures OwnEmbedding(e, text, rows[CacheKey(SearchDocument, text)].embedding)
  {
    HitIsEmbedded(rows, e, SearchDocument, text, MODEL);
  }

  // ----- which rows reach the provider

  /** The text has a row of this model in the cache. */
  predicate IsCached(cache: Cache, text: string) {
    var key := "search_document:" + text;
    key in cache && cache[key].model == MODEL
  }

  /** The listed rows whose text is not cached, in order. */
  function Uncached(cache: Cache, rows: seq<ItemRow>, listed: seq<nat>): seq<nat> {
    if |listed| == 0 then []
    else
      var last := listed[|listed| - 1];
      Uncached(cache, rows, listed[..|listed| - 1])
      + if last < |rows| && IsCached(cache, rows[last].content) then [] else [last]
  }

  lemma {:induction false} UncachedIff(cache: Cache, rows: seq<ItemRow>, listed: seq<nat>)
    ensures forall id :: id in Uncached(cache, rows, listed) <==>
      id in listed && !(id < |rows| && IsCached(cache, rows[id].content))
    ensures |Uncached(cache, rows, listed)| <= |listed|
  {
    if |listed| > 0 {
      UncachedIff(cache, rows, listed[..|listed| - 1]);
      assert listed == listed[..|listed| - 1] + [listed[|listed| - 1]];
    }
  }

  lemma UncachedNext(cache: Cache, rows: seq<ItemRow>, listed: seq<nat>, i: nat)
    requires i < |listed| && listed[i] < |rows|
    ensures Uncached(cache, rows, listed[..i + 1]) ==
      Uncached(cache, rows, listed[..i]) + if IsCached(cache, rows[listed[i]].content) then [] else [listed[i]]
  {
    assert listed[..i + 1][..i] == listed[..i];
  }

  lemma HitIffCached(cache: Cache, text: string)
    ensures Hit(cache, SearchDocument, text, MODEL) <==> IsCached(cache, text)
  {
    CacheKeyIs(text);
  }

  function TextsOf(rows: seq<ItemRow>, at: seq<nat>): seq<string> {
    seq(|at|, k requires 0 <= k < |at| => if at[k] < |rows| then rows[at[k]].content else "")
  }

  lemma ConservedSame(before: seq<ItemRow>, rows: seq<ItemRow>, listed: seq<nat>, rest: seq<nat>, filled: nat,
                      failed: nat, e: Embedding)
    requires Conserved(before, rows, listed, rest, filled, failed, e)
    ensures SameContents(before, rows)
  {
    hide OwnEmbedding, Open, NullCount;
  }

  lemma {:induction false} FlatSnoc<T>(xss: seq<seq<T>>, xs: seq<T>)
    ensures Flat(xss + [xs]) == Flat(xss) + xs
  {
    if |xss| == 0 {
      assert xss + [xs] == [xs] && [xs][1..] == [];
      assert Flat([xs]) == xs + Flat<T>([]);
    } else {
      assert (xss + [xs])[1..] == xss[1..] + [xs];
      FlatSnoc(xss[1..], xs);
    }
  }

  /** Since `was`, the texts `done` were sent in order, in batches of at most 96. */
  predicate SentAs(was: seq<seq<string>>, sent: seq<seq<string>>, done: seq<string>) {
    was <= sent && Flat(sent[|was|..]) == done && forall k | |was| <= k < |sent| :: |sent[k]| <= 96
  }

  /** One more batch has been sent. */
  lemma SentMore(was: seq<seq<string>>, sent: seq<seq<string>>, batch: seq<string>, done: seq<string>)
    requires SentAs(was, sent, done) && |batch| <= 96
    ensures SentAs(was, sent + [batch], done + batch)
  {
    assert (sent + [batch])[|was|..] == sent[|was|..] + [batch];
    FlatSnoc(sent[|was|..], batch);
  }

  /** One row of the first loop: a hit is written, or fails to be; a miss goes to the end of the rest. */
  method CacheOne(items: ItemTable, db: CacheTable, id: nat, faults: Faults, ghost e: Embedding,
                  ghost before: seq<ItemRow>, ghost listed: seq<nat>, ghost rest: seq<nat>, filled0: nat, failed0: nat)
    returns (hit: bool, filled: nat, failed: nat)
    requires Conserved(before, items.rows, listed, [id] + rest, filled0, failed0, e) && Coherent(db.rows, e)
    modifies items
    ensures id < |before| && (hit <==> IsCached(db.rows, before[id].content))
    ensures hit ==> Conserved(before, items.rows, listed, rest, filled, failed, e)
    ensures hit ==> filled + failed == filled0 + failed0 + 1 && (faults.writes(id) ==> failed == failed0)
    ensures !hit ==> Conserved(before, items.rows, listed, rest + [id], filled0, failed0, e)
    ensures !hit ==> filled == filled0 && failed == failed0
  {
    hide Conserved, Coherent, Hit, OwnEmbedding, CacheKey, Filled, IsCached;
    ConservedHead(before, items.rows, listed, id, rest, filled0, failed0, e);
    ConservedSame(before, items.rows, listed, [id] + rest, filled0, failed0, e);
    filled, failed := filled0, failed0;
    var text := items.rows[id].content;
    HitIffCached(db.rows, text);
    hit := Hit(db.rows, SearchDocument, text, MODEL);
    if hit {
      HitIsOwn(db.rows, e, text);
      var v := db.rows[CacheKey(SearchDocument, text)].embedding;
      if faults.writes(id) {
        ConservedFill(before, items.rows, listed, id, rest, filled, failed, v, e);
      } else {
        ConservedFail(before, items.rows, listed, id, rest, filled, failed, e);
      }
      var ok := items.Update(id, v, faults);
      if ok {
        filled := filled + 1;
      } else {
        failed := failed + 1;
      }
    } else {
      ConservedRotate(before, items.rows, listed, id, rest, filled, failed, e);
    }
  }

  /** The first loop: hits are written, the rest is set aside. */
  method FromCache(items: ItemTable, db: CacheTable, listed: seq<nat>, faults: Faults, ghost e: Embedding)
    returns (misses: seq<nat>, filled: nat, failed: nat, hits: nat)
    requires Open(items.rows, listed) && Coherent(db.rows, e)
    modifies items
    ensures Conserved(old(items.rows), items.rows, listed, misses, filled, failed, e)
    ensures hits == filled + failed
    ensures misses == Uncached(db.rows, old(items.rows), listed) && hits + |misses| == |listed|
    ensures (forall id :: faults.writes(id)) ==> failed == 0
  {
    misses, filled, failed, hits := [], 0, 0, 0;
    ghost var before := items.rows;
    ConservedStart(before, listed, e);
    assert listed[0..] + misses == listed;
    hide Conserved, Coherent, Uncached, IsCached, Open;
    UncachedNone(db.rows, before, listed);
    for i := 0 to |listed|
      invariant Conserved(before, items.rows, listed, listed[i..] + misses, filled, failed, e)
      invariant hits == filled + failed
      invariant misses == Uncached(db.rows, before, listed[..i]) && hits + |misses| == i
      invariant (forall id :: faults.writes(id)) ==> failed == 0
    {
      var id := listed[i];
      ghost var rest := listed[i + 1..] + misses;
      Turn(listed, i, misses);
      var hit;
      hit, filled, failed := CacheOne(items, db, id, faults, e, before, listed, rest, filled, failed);
      UncachedNext(db.rows, before, listed, i);
      if hit {
        hits := hits + 1;
      } else {
        misses := misses + [id];
      }
    }
    assert listed[|listed|..] + misses == misses;
    assert listed[..|listed|] == listed;
  }

  lemma Turn(listed: seq<nat>, i: nat, misses: seq<nat>)
    requires i < |listed|
    ensures
      var id, rest := listed[i], listed[i + 1..] + misses;
      listed[i..] + misses == [id] + rest && rest + [id] == listed[i + 1..] + (misses + [id])
  {
  }

  lemma UncachedNone(cache: Cache, rows: seq<ItemRow>, listed: seq<nat>)
    ensures Uncached(cache, rows, listed[..0]) == []
  {
  }

  /** `embed_batch`: raises, and so returns nothing, when the call fails or any width is wrong. */
  method EmbedBatch(p: Provider, texts: seq<string>) returns (r: Option<seq<Vector>>)
    requires p.model == MODEL
    modifies p
    ensures p.sent == old(p.sent) + [texts]
    ensures r.Some? <==>
      && |texts| <= MAX_BATCH && p.up(|old(p.sent)|)
      && forall k | 0 <= k < |texts| :: |p.embedding(MODEL, SearchDocument, texts[k])| == DIM
    ensures r.Some? ==> |r.value| == |texts| && forall k | 0 <= k < |texts| ::
      OwnEmbedding(p.embedding, texts[k], r.value[k])
  {
    r := p.Embed(texts, SearchDocument);
    if r.Some? && exists k | 0 <= k < |r.value| :: |r.value[k]| != DIM {
      r := None;
    }
  }

  /** The vectors of one batch, row by row: into the cache, then into the item. */
  method StoreRows(items: ItemTable, db: CacheTable, at: seq<nat>, vectors: seq<Vector>, faults: Faults,
                   ghost e: Embedding,
                   ghost before: seq<ItemRow>, ghost listed: seq<nat>, ghost rest: seq<nat>, filled0: nat, failed0: nat)
    returns (filled: nat, failed: nat)
    requires Conserved(before, items.rows, listed, at + rest, filled0, failed0, e) && Coherent(db.rows, e)
    requires |vectors| == |at|
    requires forall k | 0 <= k < |at| :: at[k] < |items.rows| && OwnEmbedding(e, items.rows[at[k]].content, vectors[k])
    modifies items, db
    ensures Conserved(before, items.rows, listed, rest, filled, failed, e)
    ensures Coherent(db.rows, e) && Grew(old(db.rows), db.rows, MODEL)
    ensures (forall id :: faults.writes(id) && faults.stores(id)) ==> failed == failed0
  {
    filled, failed := filled0, failed0;
    assert at[0..] + rest == at + rest;
    GrewSelf(db.rows, MODEL);
    hide Conserved, Coherent, Grew, OwnEmbedding, Inserted, CacheKey;
    for k := 0 to |at|
      invariant Conserved(before, items.rows, listed, at[k..] + rest, filled, failed, e)
      invariant Coherent(db.rows, e) && Grew(old(db.rows), db.rows, MODEL)
      invariant SameContents(old(items.rows), items.rows)
      invariant (forall id :: faults.writes(id) && faults.stores(id)) ==> failed == failed0
    {
      var id, v := at[k], vectors[k];
      ghost var left := at[k + 1..] + rest;
      assert at[k..] + rest == [id] + left;
      ConservedHead(before, items.rows, listed, id, left, filled, failed, e);
      assert OwnEmbedding(e, old(items.rows)[id].content, v);
      if faults.stores(id) {
        Cacheable(db.rows, e, items.rows[id].content, v);
        var key := CacheKey(SearchDocument, items.rows[id].content);
        GrewTransitive(old(db.rows), db.rows, Inserted(db.rows, key, v, MODEL), MODEL);
        db.Insert(key, v, MODEL);
      }
      if faults.stores(id) && faults.writes(id) {
        ConservedFill(before, items.rows, listed, id, left, filled, failed, v, e);
        var _ := items.Update(id, v, faults);
        filled := filled + 1;
      } else {
        ConservedFail(before, items.rows, listed, id, left, filled, failed, e);
        failed := failed + 1;
      }
    }
    assert at[|at|..] + rest == rest;
  }

  predicate SameContents(before: seq<ItemRow>, after: seq<ItemRow>) {
    |before| == |after| && forall i | 0 <= i < |before| :: before[i].content == after[i].content
  }

  lemma Cacheable(rows: Cache, e: Embedding, text: string, v: Vector)
    requires Coherent(rows, e) && OwnEmbedding(e, text, v)
    ensures Coherent(Inserted(rows, CacheKey(SearchDocument, text), v, MODEL), e)
    ensures Grew(rows, Inserted(rows, CacheKey(SearchDocument, text), v, MODEL), MODEL)
  {
    InsertedIsCoherent(rows, e, SearchDocument, text, MODEL);
    InsertedGrew(rows, CacheKey(SearchDocument, text), v, MODEL);
  }

  function Contents(rows: seq<ItemRow>, at: seq<nat>): (r: seq<string>)
    requires forall k | 0 <= k < |at| :: at[k] < |rows|
    ensures |r| == |at| && forall k | 0 <= k < |at| :: r[k] == rows[at[k]].content
  {
    seq(|at|, k requires 0 <= k < |at| => rows[at[k]].content)
  }

  /** One batch of the second loop: it fails as a whole, or is stored row by row. */
  method SendBatch(items: ItemTable, db: CacheTable, p: Provider, at: seq<nat>, faults: Faults,
                   ghost before: seq<ItemRow>, ghost listed: seq<nat>, ghost rest: seq<nat>, filled0: nat, failed0: nat)
    returns (filled: nat, failed: nat)
    requires Conserved(before, items.rows, listed, at + rest, filled0, failed0, p.embedding)
    requires Coherent(db.rows, p.embedding) && p.model == MODEL && |at| <= MAX_BATCH
    modifies items, db, p
    ensures Conserved(before, items.rows, listed, rest, filled, failed, p.embedding)
    ensures Coherent(db.rows, p.embedding) && Grew(old(db.rows), db.rows, MODEL)
    ensures p.sent == old(p.sent) + [TextsOf(before, at)]
    ensures Clean(faults, p) ==> failed == failed0
  {
    hide Conserved, Coherent, Grew, OwnEmbedding;
    GrewSelf(db.rows, MODEL);
    ConservedInRange(before, items.rows, listed, at, rest, filled0, failed0, p.embedding);
    ConservedSame(before, items.rows, listed, at + rest, filled0, failed0, p.embedding);
    var texts := Contents(items.rows, at);
    assert texts == TextsOf(before, at);
    var vectors := EmbedBatch(p, texts);
    if vectors.None? {
      ConservedFailAll(before, items.rows, listed, at, rest, filled0, failed0, p.embedding);
      filled, failed := filled0, failed0 + |at|;
    } else {
      filled, failed := StoreRows(items, db, at, vectors.value, faults, p.embedding,
                                  before, listed, rest, filled0, failed0);
    }
  }

  /** The second loop: batches of misses. */
  method FromProvider(items: ItemTable, db: CacheTable, p: Provider, misses: seq<nat>, faults: Faults,
                      ghost before: seq<ItemRow>, ghost listed: seq<nat>, filled0: nat, failed0: nat)
    returns (filled: nat, failed: nat)
    requires Conserved(before, items.rows, listed, misses, filled0, failed0, p.embedding)
    requires Coherent(db.rows, p.embedding)
    requires p.model == MODEL
    modifies items, db, p
    ensures Conserved(before, items.rows, listed, [], filled, failed, p.embedding)
    ensures Coherent(db.rows, p.embedding) && Grew(old(db.rows), db.rows, MODEL)
    ensures SentAs(old(p.sent), p.sent, TextsOf(before, misses))
    ensures Clean(faults, p) ==> failed == failed0
  {
    filled, failed := filled0, failed0;
    var start := 0;
    assert misses[0..] == misses;
    GrewSelf(db.rows, MODEL);
    hide Conserved, Coherent, Grew, SentAs, Clean, ChunkAt, TextsOf;
    NothingSent(p.sent, before, misses);
    while start < |misses|
      invariant start <= |misses|
      invariant Conserved(before, items.rows, listed, misses[start..], filled, failed, p.embedding)
      invariant Coherent(db.rows, p.embedding) && Grew(old(db.rows), db.rows, MODEL)
      invariant SentAs(old(p.sent), p.sent, TextsOf(before, misses[..start]))
      invariant Clean(faults, p) ==> failed == failed0
    {
      var at := ChunkAt(misses, start, MAX_BATCH);
      ChunkIs(misses, start);
      ghost var rest, was := misses[start + |at|..], db.rows;
      TextsOfLength(before, at);
      SentMore(old(p.sent), p.sent, TextsOf(before, at), TextsOf(before, misses[..start]));
      TextsOfMore(before, misses, start, at);
      filled, failed := SendBatch(items, db, p, at, faults, before, listed, rest, filled, failed);
      GrewTransitive(old(db.rows), was, db.rows, MODEL);
      start := start + |at|;
    }
    assert misses[start..] == [] && misses[..start] == misses;
  }

  lemma NothingSent(sent: seq<seq<string>>, rows: seq<ItemRow>, misses: seq<nat>)
    ensures SentAs(sent, sent, TextsOf(rows, misses[..0]))
  {
    assert sent[|sent|..] == [] && TextsOf(rows, misses[..0]) == [];
  }

  lemma ChunkIs(misses: seq<nat>, start: nat)
    requires start < |misses|
    ensures
      var at := ChunkAt(misses, start, MAX_BATCH);
      && 0 < |at| <= 96 && start + |at| <= |misses|
      && at == misses[start..start + |at|] && misses[start..] == at + misses[start + |at|..]
  {
  }

  lemma TextsOfLength(rows: seq<ItemRow>, at: seq<nat>)
    ensures |TextsOf(rows, at)| == |at|
  {
  }

  lemma TextsOfMore(before: seq<ItemRow>, misses: seq<nat>, start: nat, at: seq<nat>)
    requires start + |at| <= |misses| && at == misses[start..start + |at|]
    ensures TextsOf(before, misses[..start]) + TextsOf(before, at) == TextsOf(before, misses[..start + |at|])
  {
    forall k | 0 <= k < |at| ensures misses[start + k] == at[k] {
    }
  }

  lemma ConservedInRange(before: seq<ItemRow>, rows: seq<ItemRow>, listed: seq<nat>, at: seq<nat>, rest: seq<nat>,
                         filled: nat, failed: nat, e: Embedding)
    requires Conserved(before, rows, listed, at + rest, filled, failed, e)
    ensures forall k | 0 <= k < |at| :: at[k] < |rows|
  {
    var ids := at + rest;
    forall k | 0 <= k < |at| ensures at[k] < |rows| {
      assert at[k] == ids[k];
    }
  }

  /**
   The handler. Whatever fails, every candidate is counted once as filled or failed, only
   candidates change, each to its own embedding, the rows without one decrease by exactly
   the number filled, and the shared cache stays coherent; if nothing fails, all are filled.
   */
  method RunBackfill(items: ItemTable, db: CacheTable, p: Provider, listed: seq<nat>, faults: Faults)
    returns (filled: nat, failed: nat, hits: nat)
    requires Listed(items.rows, listed) && Coherent(db.rows, p.embedding) && p.model == MODEL
    modifies items, db, p
    ensures filled + failed == |listed|
    ensures hits + |Uncached(old(db.rows), old(items.rows), listed)| == |listed|
    ensures SentAs(old(p.sent), p.sent, TextsOf(old(items.rows), Uncached(old(db.rows), old(items.rows), listed)))
    ensures Progress(old(items.rows), items.rows, listed, p.embedding)
    ensures NullCount(items.rows) + filled == NullCount(old(items.rows))
    ensures Coherent(db.rows, p.embedding) && Grew(old(db.rows), db.rows, MODEL)
    ensures Clean(faults, p) ==>
      var n := NullCount(old(items.rows));
      failed == 0 && NullCount(items.rows) == if n <= 500 then 0 else n - 500
  {
    ghost var before := items.rows;
    hide Conserved, Coherent, Grew, Progress, NullCount, Uncached;
    var misses;
    misses, filled, failed, hits := FromCache(items, db, listed, faults, p.embedding);
    HitsFit(before, items.rows, listed, misses, filled, failed, p.embedding);
    filled, failed := FromProvider(items, db, p, misses, faults, before, listed, filled, failed);
    ConservedEnd(before, items.rows, listed, filled, failed, p.embedding);
  }

  lemma HitsFit(before: seq<ItemRow>, rows: seq<ItemRow>, listed: seq<nat>, rest: seq<nat>, filled: nat, failed: nat,
                e: Embedding)
    requires Conserved(before, rows, listed, rest, filled, failed, e)
    ensures filled + failed <= |listed|
  {
  }

  // ----- convergence

  function AfterCleanRun(n: nat): nat {
    n - Smaller(n, ROW_LIMIT)
  }

  function AfterCleanRuns(n: nat, runs: nat): nat {
    if runs == 0 then n else AfterCleanRun(AfterCleanRuns(n, runs - 1))
  }

  lemma {:induction false} LeftAfterRuns(n: nat, runs: nat)
    ensures AfterCleanRuns(n, runs) == if n <= ROW_LIMIT * runs then 0 else n - ROW_LIMIT * runs
  {
    if runs > 0 {
      LeftAfterRuns(n, runs - 1);
    }
  }

  /** Runs without failures reach zero after ceil(n / 500) of them, and not before. */
  lemma ConvergesInCeilingRuns(n: nat, runs: nat)
    ensures AfterCleanRuns(n, runs) == 0 <==> runs >= (n + 499) / 500
  {
    LeftAfterRuns(n, runs);
  }

  /** Nothing fails in the first `n` runs. */
  ghost predicate AllClean(faults: nat -> Faults, n: nat, p: Provider)
    reads {}
  {
    forall k: nat | k < n :: Clean(faults(k), p)
  }

  /** Any cursor that lists missing rows up to the limit. */
  ghost predicate IsCursor(list: seq<ItemRow> -> seq<nat>) {
    forall rows: seq<ItemRow> :: Listed(rows, list(rows))
  }

  /**
   The schedule that invokes the handler `runs` times, each run with its own failures. Nothing
   is ever lost or filled wrongly; and if nothing fails, no row is left without its embedding
   exactly after ceil(N / 500) runs.
   */
  method RunScheduled(items: ItemTable, db: CacheTable, p: Provider, list: seq<ItemRow> -> seq<nat>,
                      faults: nat -> Faults, runs: nat)
    returns (filled: nat)
    requires IsCursor(list) && Coherent(db.rows, p.embedding) && p.model == MODEL
    modifies items, db, p
    ensures Filling(old(items.rows), items.rows, p.embedding)
    ensures NullCount(items.rows) + filled == NullCount(old(items.rows))
    ensures Coherent(db.rows, p.embedding) && Grew(old(db.rows), db.rows, MODEL)
    ensures AllClean(faults, runs, p) ==>
      (NullCount(items.rows) == 0 <==> runs >= (NullCount(old(items.rows)) + 499) / 500)
  {
    filled := 0;
    ghost var before := items.rows;
    FillingSelf(before, p.embedding);
    GrewSelf(db.rows, MODEL);
    for k := 0 to runs
      invariant Filling(before, items.rows, p.embedding)
      invariant NullCount(items.rows) + filled == NullCount(before)
      invariant Coherent(db.rows, p.embedding) && Grew(old(db.rows), db.rows, MODEL)
      invariant AllClean(faults, k, p) ==> NullCount(items.rows) == AfterCleanRuns(NullCount(before), k)
    {
      ghost var rows, cache := items.rows, db.rows;
      var listed := list(items.rows);
      assert Listed(items.rows, listed);
      hide Listed, Coherent, Grew, Progress, NullCount, Filling, AfterCleanRun, Clean;
      var more, _, _ := RunBackfill(items, db, p, listed, faults(k));
      FillingOn(before, rows, items.rows, listed, p.embedding);
      GrewTransitive(old(db.rows), cache, db.rows, MODEL);
      filled := filled + more;
    }
    ConvergesInCeilingRuns(NullCount(before), runs);
  }

  /** Rows only ever go from no embedding to their own. */
  ghost predicate Filling(before: seq<ItemRow>, after: seq<ItemRow>, e: Embedding) {
    && |after| == |before|
    && forall i | 0 <= i < |before| ::
         || after[i] == before[i]
         || (&& before[i].embedding.None? && after[i].content == before[i].content
             && after[i].embedding.Some? && OwnEmbedding(e, before[i].content, after[i].embedding.value))
  }

  lemma FillingSelf(rows: seq<ItemRow>, e: Embedding)
    ensures Filling(rows, rows, e)
  {
  }

  lemma FillingOn(before: seq<ItemRow>, rows: seq<ItemRow>, after: seq<ItemRow>, listed: seq<nat>, e: Embedding)
    requires Filling(before, rows, e) && Progress(rows, after, listed, e)
    ensures Filling(before, after, e)
  {
    hide OwnEmbedding;
  }
}
