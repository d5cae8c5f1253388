/**
 The embedding cache and its reader-writer in the agent (agent/memory/embeddings.py, the
 cache statements in agent/memory/db.py): a hit never reaches the provider, misses go out
 in batches, and what is returned is what the provider would have returned text by text.
 */
module EmbeddingCache {
  import opened Prelude

  const DIM: nat := 1024
  const MAX_BATCH: nat := 96

  type Vector = seq<real>

  datatype InputType = SearchDocument | SearchQuery

  /** What a model embeds a text as; nothing is known of the widths. */
  type Embedding = (string, InputType, string) -> Vector

  datatype CacheRow = CacheRow(embedding: Vector, model: string)

  /** Keyed by the hash's preimage: SHA-256 is taken as injective. */
  type Cache = map<string, CacheRow>

  datatype EmbedError = BadDimension | ProviderFailed

  function TypeName(t: InputType): string {
    match t
    case SearchDocument => "search_document"
    case SearchQuery => "search_query"
  }

  /** `f"{input_type}:{text}"` */
  function CacheKey(t: InputType, text: string): string {
    TypeName(t) + (":" + text)
  }

  /** One text under two input types, or two texts, never share a cache key. */
  lemma CacheKeyIsInjective(t: InputType, text: string, u: InputType, other: string)
    ensures CacheKey(t, text) == CacheKey(u, other) <==> t == u && text == other
  {
    var a, b := CacheKey(t, text), CacheKey(u, other);
    assert a[7] == TypeName(t)[7] && b[7] == TypeName(u)[7];
    assert TypeName(SearchDocument)[7] == 'd' && TypeName(SearchQuery)[7] == 'q';
    assert a[|TypeName(t)| + 1..] == text && b[|TypeName(u)| + 1..] == other;
  }

  /** What is hashed: the input type, a colon and the text. */
  lemma CacheKeyIs(text: string)
    ensures CacheKey(SearchDocument, text) == "search_document:" + text
    ensures CacheKey(SearchQuery, text) == "search_query:" + text
  {
    assert "search_document" + ":" == "search_document:" && "search_query" + ":" == "search_query:";
  }

  /** Every row holds what its own model embeds the text as, at the right width. */
  ghost predicate Coherent(rows: Cache, e: Embedding) {
    forall t, text :: CacheKey(t, text) in rows ==> RowIs(rows[CacheKey(t, text)], e, t, text)
  }

  ghost predicate RowIs(row: CacheRow, e: Embedding, t: InputType, text: string) {
    row.embedding == e(row.model, t, text) && |row.embedding| == DIM
  }

  /** No row was lost or overwritten. */
  predicate Kept(before: Cache, after: Cache) {
    forall k | k in before :: k in after && after[k] == before[k]
  }

  /** ON CONFLICT DO NOTHING. */
  function Inserted(rows: Cache, key: string, v: Vector, model: string): Cache {
    if key in rows then rows else rows[key := CacheRow(v, model)]
  }

  lemma InsertedIsCoherent(rows: Cache, e: Embedding, t: InputType, text: string, model: string)
    requires Coherent(rows, e) && |e(model, t, text)| == DIM
    ensures Coherent(Inserted(rows, CacheKey(t, text), e(model, t, text), model), e)
    ensures Kept(rows, Inserted(rows, CacheKey(t, text), e(model, t, text), model))
  {
    var after := Inserted(rows, CacheKey(t, text), e(model, t, text), model);
    forall u, other | CacheKey(u, other) in after ensures RowIs(after[CacheKey(u, other)], e, u, other) {
      CacheKeyIsInjective(t, text, u, other);
      if CacheKey(u, other) in rows {
        assert RowIs(rows[CacheKey(u, other)], e, u, other);
      }
    }
  }

  predicate Hit(rows: Cache, t: InputType, text: string, model: string) {
    CacheKey(t, text) in rows && rows[CacheKey(t, text)].model == model
  }

  /** The positions a call has to send to the provider, in order. */
  function Misses(rows: Cache, texts: seq<string>, t: InputType, model: string): seq<nat> {
    if |texts| == 0 then []
    else
      var last := |texts| - 1;
      Misses(rows, texts[..last], t, model) + if Hit(rows, t, texts[last], model) then [] else [last]
  }

  /** Distinct positions of `n` texts, in ascending order. */
  predicate Positions(at: seq<nat>, n: nat) {
    && (forall k | 0 <= k < |at| :: at[k] < n)
    && (forall j, k | 0 <= j < k < |at| :: at[j] < at[k])
  }

  lemma PositionsSnoc(at: seq<nat>, n: nat)
    requires Positions(at, n)
    ensures Positions(at, n + 1) && Positions(at + [n], n + 1) && n !in at
    ensures forall i: nat | i < n :: i in at + [n] <==> i in at
  {
  }

  /** Hits and misses partition the positions. */
  lemma {:induction false} MissesPartition(rows: Cache, texts: seq<string>, t: InputType, model: string)
    ensures Positions(Misses(rows, texts, t, model), |texts|)
    ensures forall i | 0 <= i < |texts| :: i in Misses(rows, texts, t, model) <==>
      !(CacheKey(t, texts[i]) in rows && rows[CacheKey(t, texts[i])].model == model)
  {
    if |texts| > 0 {
      var last := |texts| - 1;
      var before := texts[..last];
      var front, all := Misses(rows, before, t, model), Misses(rows, texts, t, model);
      MissesPartition(rows, before, t, model);
      PositionsSnoc(front, last);
      assert all == if Hit(rows, t, texts[last], model) then front else front + [last];
      hide Misses, Positions;
      forall i | 0 <= i < |texts| ensures i in all <==> !Hit(rows, t, texts[i], model) {
        if i < last {
          assert before[i] == texts[i];
        }
      }
    }
  }

  function Texts(texts: seq<string>, at: seq<nat>): (r: seq<string>)
    requires Positions(at, |texts|)
    ensures |r| == |at| && forall k | 0 <= k < |at| :: r[k] == texts[at[k]]
  {
    seq(|at|, k requires 0 <= k < |at| => texts[at[k]])
  }

  function Chunks<T>(xs: seq<T>, n: nat): seq<seq<T>>
    requires n > 0
    decreases |xs|
  {
    if |xs| == 0 then [] else if |xs| <= n then [xs] else [xs[..n]] + Chunks(xs[n..], n)
  }

  function Flat<T>(xss: seq<seq<T>>): seq<T> {
    if |xss| == 0 then [] else xss[0] + Flat(xss[1..])
  }

  /** Batching sends everything once, in order, in nonempty batches within the limit. */
  lemma {:induction false} ChunksSendEverythingOnce<T>(xs: seq<T>, n: nat)
    requires n > 0
    ensures Flat(Chunks(xs, n)) == xs
    ensures forall c | c in Chunks(xs, n) :: 0 < |c| <= n
    decreases |xs|
  {
    if |xs| > n {
      ChunksSendEverythingOnce(xs[n..], n);
      assert Chunks(xs, n)[1..] == Chunks(xs[n..], n);
      assert xs[..n] + xs[n..] == xs;
    } else if |xs| > 0 {
      assert [xs][1..] == [];
      assert Flat([xs]) == xs + Flat<T>([]);
    }
  }

  class CacheTable {
    var rows: Cache

    constructor ()
      ensures rows == map[]
    {
      rows := map[];
    }

    method Insert(key: string, v: Vector, model: string)
      modifies this
      ensures rows == Inserted(old(rows), key, v, model)
    {
      if key !in rows {
        rows := rows[key := CacheRow(v, model)];
      }
    }
  }

  /** The provider's API: one model, batches up to the limit, and calls that may fail. */
  class Provider {
    const model: string
    const embedding: Embedding
    const up: nat -> bool
    var sent: seq<seq<string>>

    constructor (model: string, embedding: Embedding, up: nat -> bool)
      ensures this.model == model && this.embedding == embedding && this.up == up && sent == []
    {
      this.model, this.embedding, this.up, sent := model, embedding, up, [];
    }

    /** None stands for the provider's exceptions. */
    method Embed(texts: seq<string>, t: InputType) returns (r: Option<seq<Vector>>)
      modifies this
      ensures sent == old(sent) + [texts]
      ensures r.Some? <==> |texts| <= MAX_BATCH && up(|old(sent)|)
      ensures r.Some? ==> |r.value| == |texts| && forall k | 0 <= k < |texts| ::
        r.value[k] == embedding(model, t, texts[k])
    {
      var ok := |texts| <= MAX_BATCH && up(|sent|);
      sent := sent + [texts];
      if !ok {
        return None;
      }
      r := Some(seq(|texts|, k requires 0 <= k < |texts| => embedding(model, t, texts[k])));
    }
  }

  /** The text's own embedding, of the right width. */
  ghost predicate Embedded(e: Embedding, model: string, t: InputType, text: string, v: Vector) {
    v == e(model, t, text) && |v| == DIM
  }

  /** Every position outside `open` has its vector. */
  ghost predicate FilledBut(results: seq<Option<Vector>>, open: seq<nat>, e: Embedding, model: string, t: InputType,
                            texts: seq<string>) {
    && |results| == |texts|
    && forall i | 0 <= i < |texts| && i !in open ::
         results[i].Some? && Embedded(e, model, t, texts[i], results[i].value)
  }

  lemma FillOne(results: seq<Option<Vector>>, i: nat, open: seq<nat>, e: Embedding, model: string, t: InputType,
                texts: seq<string>)
    requires i < |texts| && FilledBut(results, [i] + open, e, model, t, texts) && |e(model, t, texts[i])| == DIM
    ensures FilledBut(results[i := Some(e(model, t, texts[i]))], open, e, model, t, texts)
  {
    forall j | 0 <= j < |texts| && j !in open && j != i ensures j !in [i] + open {
    }
  }

  /** Rows were only added, and only under this model. */
  predicate Grew(before: Cache, after: Cache, model: string) {
    Kept(before, after) && forall k | k in after && k !in before :: after[k].model == model
  }

  lemma GrewTransitive(a: Cache, b: Cache, c: Cache, model: string)
    requires Grew(a, b, model) && Grew(b, c, model)
    ensures Grew(a, c, model)
  {
  }

  lemma InsertedGrew(rows: Cache, key: string, v: Vector, model: string)
    ensures Grew(rows, Inserted(rows, key, v, model), model) && key in Inserted(rows, key, v, model)
  {
  }

  predicate AllKeyed(rows: Cache, t: InputType, texts: seq<string>) {
    forall i | 0 <= i < |texts| :: CacheKey(t, texts[i]) in rows
  }

  /** One batch of vectors: each is checked, returned at its position and stored; a bad width stops it. */
  method StoreBatch(db: CacheTable, e: Embedding, model: string, t: InputType, texts: seq<string>, at: seq<nat>,
                    vectors: seq<Vector>, before: seq<Option<Vector>>, ghost open: seq<nat>)
    returns (ok: bool, results: seq<Option<Vector>>)
    requires Positions(at, |texts|) && |vectors| == |at| && forall k | 0 <= k < |at| ::
      vectors[k] == e(model, t, texts[at[k]])
    requires Coherent(db.rows, e) && FilledBut(before, at + open, e, model, t, texts)
    modifies db
    ensures Coherent(db.rows, e) && Grew(old(db.rows), db.rows, model)
    ensures ok ==> FilledBut(results, open, e, model, t, texts) && AllKeyed(db.rows, t, Texts(texts, at))
    ensures !ok ==> exists k | 0 <= k < |at| :: |e(model, t, texts[at[k]])| != DIM
  {
    results, ok := before, true;
    for k := 0 to |at|
      invariant Coherent(db.rows, e) && Grew(old(db.rows), db.rows, model)
      invariant FilledBut(results, at[k..] + open, e, model, t, texts)
      invariant forall j | 0 <= j < k :: CacheKey(t, texts[at[j]]) in db.rows
    {
      var i, v := at[k], vectors[k];
      if |v| != DIM {
        ok := false;
        return;
      }
      assert at[k..] + open == [i] + (at[k + 1..] + open);
      FillOne(results, i, at[k + 1..] + open, e, model, t, texts);
      results := results[i := Some(v)];
      InsertedIsCoherent(db.rows, e, t, texts[i], model);
      InsertedGrew(db.rows, CacheKey(t, texts[i]), v, model);
      GrewTransitive(old(db.rows), db.rows, Inserted(db.rows, CacheKey(t, texts[i]), v, model), model);
      hide Coherent, Grew, Inserted, FilledBut;
      db.Insert(CacheKey(t, texts[i]), v, model);
    }
    assert at[|at|..] + open == open;
  }

  /** The chunk of misses that starts at `start`, as `range` slices it. */
  function ChunkAt(misses: seq<nat>, start: nat, batch: nat): seq<nat>
    requires start <= |misses|
  {
    if |misses| - start <= batch then misses[start..] else misses[start..start + batch]
  }

  lemma NextChunk(texts: seq<string>, misses: seq<nat>, start: nat, batch: nat)
    requires Positions(misses, |texts|) && start < |misses| && batch > 0
    ensures
      var at := ChunkAt(misses, start, batch);
      var rest := misses[start + |at|..];
      && Positions(at, |texts|) && Positions(misses[start..], |texts|) && Positions(rest, |texts|)
      && at + rest == misses[start..]
      && Chunks(Texts(texts, misses[start..]), batch) == [Texts(texts, at)] + Chunks(Texts(texts, rest), batch)
  {
    var at := ChunkAt(misses, start, batch);
    var all := Texts(texts, misses[start..]);
    if |misses| - start > batch {
      assert all[..batch] == Texts(texts, at);
      assert all[batch..] == Texts(texts, misses[start + batch..]);
    }
  }

  /** `get_cached_embeddings`, and what it settles: a row of another model is not a hit. */
  method ReadCache(db: CacheTable, ghost e: Embedding, model: string, texts: seq<string>, t: InputType)
    returns (results: seq<Option<Vector>>, misses: seq<nat>)
    requires Coherent(db.rows, e)
    ensures misses == Misses(db.rows, texts, t, model)
    ensures FilledBut(results, misses, e, model, t, texts)
  {
    results, misses := seq(|texts|, i => None), [];
    hide Misses, Embedded, Positions, Hit, Coherent, CacheKey, FilledBelow;
    ReadNothing(db.rows, results, e, model, t, texts);
    for i := 0 to |texts|
      invariant misses == Misses(db.rows, texts[..i], t, model) && Positions(misses, i)
      invariant FilledBelow(results, misses, i, e, model, t, texts)
    {
      MissesNext(db.rows, texts, i, t, model);
      PositionsSnoc(misses, i);
      FilledLength(results, misses, i, e, model, t, texts);
      if Hit(db.rows, t, texts[i], model) {
        HitIsEmbedded(db.rows, e, t, texts[i], model);
        var v := db.rows[CacheKey(t, texts[i])].embedding;
        ReadHit(results, misses, i, v, e, model, t, texts);
        results := results[i := Some(v)];
      } else {
        ReadMiss(results, misses, i, e, model, t, texts);
        misses := misses + [i];
      }
    }
    assert texts[..|texts|] == texts;
    ReadAll(results, misses, e, model, t, texts);
  }

  lemma MissesNext(rows: Cache, texts: seq<string>, i: nat, t: InputType, model: string)
    requires i < |texts|
    ensures Misses(rows, texts[..i + 1], t, model) ==
      Misses(rows, texts[..i], t, model) + if Hit(rows, t, texts[i], model) then [] else [i]
  {
    assert texts[..i + 1][..i] == texts[..i];
  }

  /** Of the first `n` positions, all but the misses have their vector. */
  ghost predicate FilledBelow(results: seq<Option<Vector>>, misses: seq<nat>, n: nat, e: Embedding, model: string,
                              t: InputType, texts: seq<string>) {
    && |results| == |texts|
    && forall j | 0 <= j < n && j < |texts| && j !in misses ::
         results[j].Some? && Embedded(e, model, t, texts[j], results[j].value)
  }

  lemma FilledLength(results: seq<Option<Vector>>, misses: seq<nat>, n: nat, e: Embedding, model: string,
                     t: InputType, texts: seq<string>)
    requires FilledBelow(results, misses, n, e, model, t, texts)
    ensures |results| == |texts|
  {
  }

  lemma ReadNothing(rows: Cache, results: seq<Option<Vector>>, e: Embedding, model: string, t: InputType,
                    texts: seq<string>)
    requires |results| == |texts|
    ensures FilledBelow(results, [], 0, e, model, t, texts) && Misses(rows, texts[..0], t, model) == []
    ensures Positions([], 0)
  {
  }

  lemma ReadHit(results: seq<Option<Vector>>, misses: seq<nat>, i: nat, v: Vector, e: Embedding, model: string,
                t: InputType, texts: seq<string>)
    requires i < |texts| && FilledBelow(results, misses, i, e, model, t, texts) && Embedded(e, model, t, texts[i], v)
    ensures FilledBelow(results[i := Some(v)], misses, i + 1, e, model, t, texts)
  {
    hide Embedded;
  }

  lemma ReadMiss(results: seq<Option<Vector>>, misses: seq<nat>, i: nat, e: Embedding, model: string, t: InputType,
                 texts: seq<string>)
    requires i < |texts| && FilledBelow(results, misses, i, e, model, t, texts)
    ensures FilledBelow(results, misses + [i], i + 1, e, model, t, texts)
  {
    hide Embedded;
    assert i in misses + [i] && forall m | m in misses :: m in misses + [i];
  }

  lemma ReadAll(results: seq<Option<Vector>>, misses: seq<nat>, e: Embedding, model: string, t: InputType,
                texts: seq<string>)
    requires FilledBelow(results, misses, |texts|, e, model, t, texts)
    ensures FilledBut(results, misses, e, model, t, texts)
  {
    hide Embedded;
  }

  lemma HitIsEmbedded(rows: Cache, e: Embedding, t: InputType, text: string, model: string)
    requires Coherent(rows, e) && Hit(rows, t, text, model)
    ensures CacheKey(t, text) in rows && Embedded(e, model, t, text, rows[CacheKey(t, text)].embedding)
  {
    assert RowIs(rows[CacheKey(t, text)], e, t, text);
  }

  lemma GrewSelf(rows: Cache, model: string)
    ensures Grew(rows, rows, model)
  {
  }

  lemma NothingAsked(texts: seq<string>, batch: nat)
    requires batch > 0
    ensures Chunks(Texts(texts, []), batch) == []
  {
  }

  lemma AllFilled(results: seq<Option<Vector>>, e: Embedding, model: string, t: InputType, texts: seq<string>)
    requires FilledBut(results, [], e, model, t, texts)
    ensures |results| == |texts|
    ensures forall i | 0 <= i < |texts| :: results[i].Some? && Embedded(e, model, t, texts[i], results[i].value)
  {
  }

  lemma StoredAll(before: Cache, after: Cache, texts: seq<string>, t: InputType, model: string)
    requires Grew(before, after, model)
    requires KeyedTo(after, t, texts, Misses(before, texts, t, model), |Misses(before, texts, t, model)|)
    ensures AllKeyed(after, t, texts)
  {
    MissesPartition(before, texts, t, model);
    hide Misses, CacheKey;
    forall i | 0 <= i < |texts| ensures CacheKey(t, texts[i]) in after {
      if i !in Misses(before, texts, t, model) {
        assert Hit(before, t, texts[i], model);
      }
    }
  }

  /**
   What a later call over the same texts would send: nothing under this model, unless a row
   of another model holds the key. Such a row is never replaced, so it is a miss for good.
   */
  lemma LaterCallSendsNothingIff(before: Cache, after: Cache, texts: seq<string>, t: InputType, model: string)
    requires Grew(before, after, model) && AllKeyed(after, t, texts)
    ensures Misses(after, texts, t, model) == [] <==>
      forall i | 0 <= i < |texts| :: CacheKey(t, texts[i]) in before ==> before[CacheKey(t, texts[i])].model == model
  {
    MissesPartition(after, texts, t, model);
    hide Misses, CacheKey;
    var misses := Misses(after, texts, t, model);
    forall i | 0 <= i < |texts|
      ensures i in misses <==> CacheKey(t, texts[i]) in before && before[CacheKey(t, texts[i])].model != model
    {
      assert CacheKey(t, texts[i]) in after;
    }
    if misses != [] {
      assert misses[0] in misses && misses[0] < |texts|;
    }
  }

  /** One chunk: ask the provider, check, store. */
  method SendChunk(db: CacheTable, p: Provider, texts: seq<string>, t: InputType, at: seq<nat>,
                   before: seq<Option<Vector>>, ghost open: seq<nat>)
    returns (r: Result<seq<Option<Vector>>, EmbedError>)
    requires Positions(at, |texts|) && Coherent(db.rows, p.embedding)
    requires FilledBut(before, at + open, p.embedding, p.model, t, texts)
    modifies db, p
    ensures Coherent(db.rows, p.embedding) && Grew(old(db.rows), db.rows, p.model)
    ensures p.sent == old(p.sent) + [Texts(texts, at)]
    ensures r.Ok? ==> FilledBut(r.value, open, p.embedding, p.model, t, texts) && AllKeyed(db.rows, t, Texts(texts, at))
    ensures r == Err(BadDimension) ==> exists i | 0 <= i < |texts| :: |p.embedding(p.model, t, texts[i])| != DIM
    ensures r == Err(ProviderFailed) ==> |at| > 96 || !p.up(|old(p.sent)|)
  {
    hide Coherent, Grew, FilledBut, CacheKey;
    GrewSelf(db.rows, p.model);
    var vectors := p.Embed(Texts(texts, at), t);
    if vectors.None? {
      return Err(ProviderFailed);
    }
    var ok, filled := StoreBatch(db, p.embedding, p.model, t, texts, at, vectors.value, before, open);
    r := if ok then Ok(filled) else Err(BadDimension);
  }

  /** The first `n` misses are stored. */
  predicate KeyedTo(rows: Cache, t: InputType, texts: seq<string>, misses: seq<nat>, n: nat) {
    forall k | 0 <= k < n && k < |misses| :: misses[k] < |texts| && CacheKey(t, texts[misses[k]]) in rows
  }

  lemma KeyedNone(rows: Cache, t: InputType, texts: seq<string>, misses: seq<nat>)
    ensures KeyedTo(rows, t, texts, misses, 0)
  {
  }

  lemma KeyedOn(before: Cache, after: Cache, model: string, t: InputType, texts: seq<string>, misses: seq<nat>,
                start: nat, at: seq<nat>)
    requires Grew(before, after, model) && KeyedTo(before, t, texts, misses, start)
    requires Positions(at, |texts|) && start + |at| <= |misses| && at == misses[start..start + |at|]
    requires AllKeyed(after, t, Texts(texts, at))
    ensures KeyedTo(after, t, texts, misses, start + |at|)
  {
    hide CacheKey;
    forall k | 0 <= k < start + |at| ensures misses[k] < |texts| && CacheKey(t, texts[misses[k]]) in after {
      if k >= start {
        assert misses[k] == at[k - start];
        assert Texts(texts, at)[k - start] == texts[misses[k]];
      }
    }
  }

  /** The chunk loop over the misses. */
  method SendMisses(db: CacheTable, p: Provider, texts: seq<string>, t: InputType, batch: nat, misses: seq<nat>,
                    before: seq<Option<Vector>>)
    returns (r: Result<seq<Option<Vector>>, EmbedError>)
    requires batch > 0 && Coherent(db.rows, p.embedding) && Positions(misses, |texts|)
    requires FilledBut(before, misses, p.embedding, p.model, t, texts)
    modifies db, p
    ensures Coherent(db.rows, p.embedding) && Grew(old(db.rows), db.rows, p.model)
    ensures old(p.sent) <= p.sent <= old(p.sent) + Chunks(Texts(texts, misses), batch)
    ensures r.Ok? ==>
      && p.sent == old(p.sent) + Chunks(Texts(texts, misses), batch)
      && FilledBut(r.value, [], p.embedding, p.model, t, texts)
      && KeyedTo(db.rows, t, texts, misses, |misses|)
    ensures r == Err(BadDimension) ==> exists i | 0 <= i < |texts| :: |p.embedding(p.model, t, texts[i])| != DIM
    ensures r == Err(ProviderFailed) ==> batch > 96 || exists n: nat :: !p.up(n)
  {
    hide Coherent, Grew, FilledBut, Chunks, CacheKey, KeyedTo, AllKeyed, Texts, Positions;
    ghost var asked := p.sent + Chunks(Texts(texts, misses), batch);
    var start, results := 0, before;
    assert misses[0..] == misses;
    GrewSelf(db.rows, p.model);
    KeyedNone(db.rows, t, texts, misses);
    while start < |misses|
      invariant start <= |misses| && Positions(misses[start..], |texts|)
      invariant Coherent(db.rows, p.embedding) && Grew(old(db.rows), db.rows, p.model)
      invariant FilledBut(results, misses[start..], p.embedding, p.model, t, texts)
      invariant old(p.sent) <= p.sent && p.sent + Chunks(Texts(texts, misses[start..]), batch) == asked
      invariant KeyedTo(db.rows, t, texts, misses, start)
    {
      NextChunk(texts, misses, start, batch);
      var at := ChunkAt(misses, start, batch);
      ghost var was, rest := db.rows, misses[start + |at|..];
      r := SendChunk(db, p, texts, t, at, results, rest);
      GrewTransitive(old(db.rows), was, db.rows, p.model);
      if r.Err? {
        return;
      }
      results := r.value;
      KeyedOn(was, db.rows, p.model, t, texts, misses, start, at);
      start := start + |at|;
    }
    assert misses[start..] == [];
    NothingAsked(texts, batch);
    r := Ok(results);
  }

  /**
   `embed_and_cache`. On success every position has its text's own embedding, whatever was
   cached; exactly the misses were sent, once each, in order and in batches; every text is
   stored. On any outcome the cache stays coherent and no earlier row changes.
   */
  method EmbedAndCache(db: CacheTable, p: Provider, texts: seq<string>, t: InputType, batch: nat)
    returns (r: Result<seq<Vector>, EmbedError>)
    requires batch > 0 && Coherent(db.rows, p.embedding)
    modifies db, p
    ensures Coherent(db.rows, p.embedding) && Grew(old(db.rows), db.rows, p.model)
    ensures Positions(Misses(old(db.rows), texts, t, p.model), |texts|)
    ensures
      var asked := old(p.sent) + Chunks(Texts(texts, Misses(old(db.rows), texts, t, p.model)), batch);
      old(p.sent) <= p.sent <= asked && (r.Ok? ==> p.sent == asked)
    ensures r.Ok? ==>
      && |r.value| == |texts|
      && (forall i | 0 <= i < |texts| :: r.value[i] == p.embedding(p.model, t, texts[i]) && |r.value[i]| == 1024)
      && (forall i | 0 <= i < |texts| :: CacheKey(t, texts[i]) in db.rows)
    ensures r == Err(BadDimension) ==> exists i | 0 <= i < |texts| :: |p.embedding(p.model, t, texts[i])| != 1024
    ensures r == Err(ProviderFailed) ==> batch > 96 || exists n: nat :: !p.up(n)
  {
    hide Coherent, Grew, FilledBut, Chunks, Misses, CacheKey;
    MissesPartition(db.rows, texts, t, p.model);
    ghost var before := db.rows;
    var results, misses := ReadCache(db, p.embedding, p.model, texts, t);
    var filled := SendMisses(db, p, texts, t, batch, misses, results);
    if filled.Err? {
      return Err(filled.error);
    }
    AllFilled(filled.value, p.embedding, p.model, t, texts);
    StoredAll(before, db.rows, texts, t, p.model);
    assert AllKeyed(db.rows, t, texts);
    r := Ok(seq(|texts|, i requires 0 <= i < |texts| => filled.value[i].value));
  }
}
