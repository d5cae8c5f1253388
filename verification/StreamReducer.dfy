/**
 The dashboard's bounded event window (dashboard/src/lib/useSse.ts): an insertion-ordered
 map that moves a re-sent key to the end and evicts the oldest keys.
 */
module StreamReducer {
  import opened Prelude

  datatype Entry<T> = Entry(key: string, value: T)

  /** The key occurs in the map. */
  predicate Has<T>(m: seq<Entry<T>>, key: string) {
    exists i | 0 <= i < |m| :: m[i].key == key
  }

  /** `Map.delete`. */
  function Delete<T>(m: seq<Entry<T>>, key: string): seq<Entry<T>> {
    if |m| == 0 then []
    else if m[0].key == key then Delete(m[1..], key)
    else [m[0]] + Delete(m[1..], key)
  }

  /** `Map.set`: a known key keeps its place, a new one goes to the end. */
  function Set<T>(m: seq<Entry<T>>, key: string, value: T): seq<Entry<T>> {
    if |m| == 0 then [Entry(key, value)]
    else if m[0].key == key then [Entry(key, value)] + m[1..]
    else [m[0]] + Set(m[1..], key, value)
  }

  function Last<T>(s: seq<T>, n: nat): seq<T> {
    if |s| <= n then s else s[|s| - n..]
  }

  /** The messages that no later message supersedes, in arrival order: a definition with no map in it. */
  function Latest<T>(history: seq<Entry<T>>): seq<Entry<T>> {
    if |history| == 0 then []
    else if Has(history[1..], history[0].key) then Latest(history[1..])
    else [history[0]] + Latest(history[1..])
  }

  /** What the panel should show. */
  function Window<T>(history: seq<Entry<T>>, maxEvents: nat): seq<Entry<T>> {
    Last(Latest(history), maxEvents)
  }

  class Stream<T> {
    const maxEvents: nat
    var byKey: seq<Entry<T>>
    ghost var history: seq<Entry<T>>

    ghost predicate Valid()
      reads this
    {
      byKey == Window(history, maxEvents)
    }

    constructor (maxEvents: nat)
      ensures Valid() && this.maxEvents == maxEvents && history == []
    {
      this.maxEvents := maxEvents;
      byKey := [];
      history := [];
    }

    /** One message; None stands for data that does not parse, which the handler swallows. */
    method OnMessage(parsed: Option<T>, getKey: T -> string)
      requires Valid()
      modifies this
      ensures Valid()
      ensures history == if parsed.Some? then old(history) + [Entry(getKey(parsed.value), parsed.value)]
        else old(history)
    {
      if parsed.None? {
        return;
      }
      var key := getKey(parsed.value);
      ghost var e := Entry(key, parsed.value);
      byKey := Delete(byKey, key);
      byKey := Set(byKey, key, parsed.value);
      ghost var full := byKey;
      while |byKey| > maxEvents
        invariant |full| - |byKey| >= 0 && byKey == full[|full| - |byKey|..]
        invariant |byKey| >= maxEvents || byKey == full
        invariant history == old(history)
      {
        byKey := byKey[1..];
      }
      assert byKey == Absorb(old(byKey), e, maxEvents);
      WindowStep(old(history), e, maxEvents);
      history := history + [e];
    }
  }

  /** The map after one message: delete, set, then evict from the front. */
  function Absorb<T>(m: seq<Entry<T>>, e: Entry<T>, maxEvents: nat): seq<Entry<T>> {
    Last(Set(Delete(m, e.key), e.key, e.value), maxEvents)
  }

  lemma HasCons<T>(x: Entry<T>, m: seq<Entry<T>>, key: string)
    ensures Has([x] + m, key) <==> x.key == key || Has(m, key)
  {
    if x.key == key {
      assert ([x] + m)[0].key == key;
    }
    if Has(m, key) {
      var i :| 0 <= i < |m| && m[i].key == key;
      assert ([x] + m)[i + 1].key == key;
    }
  }

  lemma {:induction false} DeleteFacts<T>(m: seq<Entry<T>>, key: string)
    ensures !Has(Delete(m, key), key)
    ensures !Has(m, key) ==> Delete(m, key) == m
  {
    if |m| > 0 {
      DeleteFacts(m[1..], key);
      assert m == [m[0]] + m[1..];
      HasCons(m[0], m[1..], key);
      HasCons(m[0], Delete(m[1..], key), key);
    }
  }

  lemma {:induction false} SetOfNewKey<T>(m: seq<Entry<T>>, key: string, value: T)
    requires !Has(m, key)
    ensures Set(m, key, value) == m + [Entry(key, value)]
  {
    if |m| > 0 {
      assert m == [m[0]] + m[1..];
      HasCons(m[0], m[1..], key);
      SetOfNewKey(m[1..], key, value);
    }
  }

  lemma HasSnoc<T>(m: seq<Entry<T>>, e: Entry<T>, key: string)
    ensures Has(m + [e], key) <==> Has(m, key) || e.key == key
  {
    if Has(m, key) {
      var i :| 0 <= i < |m| && m[i].key == key;
      assert (m + [e])[i].key == key;
    }
    if e.key == key {
      assert (m + [e])[|m|].key == key;
    }
  }

  /** A message supersedes the one of its key and goes to the end. */
  lemma {:induction false} LatestSnoc<T>(history: seq<Entry<T>>, e: Entry<T>)
    ensures Latest(history + [e]) == Delete(Latest(history), e.key) + [e]
  {
    if |history| == 0 {
      assert history + [e] == [e];
      assert !Has([e][1..], e.key);
    } else {
      var rest := history[1..];
      assert (history + [e])[1..] == rest + [e];
      HasSnoc(rest, e, history[0].key);
      LatestSnoc(rest, e);
    }
  }

  predicate Distinct<T>(m: seq<Entry<T>>) {
    forall i, j | 0 <= i < j < |m| :: m[i].key != m[j].key
  }

  lemma {:induction false} LatestIsDistinct<T>(history: seq<Entry<T>>)
    ensures Distinct(Latest(history))
    ensures forall i | 0 <= i < |Latest(history)| :: Has(history, Latest(history)[i].key)
  {
    if |history| > 0 {
      var rest := history[1..];
      LatestIsDistinct(rest);
      forall i | 0 <= i < |Latest(history)| ensures Has(history, Latest(history)[i].key) {
        if Latest(history)[i] != history[0] {
          var l := Latest(rest);
          var k := if Has(rest, history[0].key) then i else i - 1;
          assert Latest(history)[i] == l[k];
          var j :| 0 <= j < |rest| && rest[j].key == l[k].key;
          assert history[j + 1].key == l[k].key;
        }
      }
    }
  }

  lemma {:induction false} DeleteAppend<T>(a: seq<Entry<T>>, b: seq<Entry<T>>, key: string)
    ensures Delete(a + b, key) == Delete(a, key) + Delete(b, key)
  {
    if |a| == 0 {
      assert a + b == b;
    } else {
      assert (a + b)[1..] == a[1..] + b;
      DeleteAppend(a[1..], b, key);
    }
  }

  lemma {:induction false} DeleteShortens<T>(m: seq<Entry<T>>, key: string)
    ensures |Delete(m, key)| <= |m|
    ensures Distinct(m) ==> |Delete(m, key)| >= |m| - 1
  {
    if |m| > 0 {
      DeleteShortens(m[1..], key);
      if Distinct(m) && m[0].key == key {
        DeleteFacts(m[1..], key);
        assert !Has(m[1..], key);
      }
    }
  }

  /** Evicting before or after a key moves to the end leaves the same last entries. */
  lemma EvictionCommutes<T>(m: seq<Entry<T>>, e: Entry<T>, maxEvents: nat)
    requires Distinct(m)
    ensures Last(Delete(Last(m, maxEvents), e.key) + [e], maxEvents) == Last(Delete(m, e.key) + [e], maxEvents)
  {
    if |m| > maxEvents {
      var cut := |m| - maxEvents;
      var old_, kept := m[..cut], m[cut..];
      assert m == old_ + kept;
      DeleteAppend(old_, kept, e.key);
      DeleteShortens(kept, e.key);
      hide Delete;
      var k := Delete(kept, e.key) + [e];
      assert Delete(m, e.key) + [e] == Delete(old_, e.key) + k;
      LastOfAppend(Delete(old_, e.key), k, maxEvents);
    }
  }

  lemma LastOfAppend<T>(front: seq<T>, back: seq<T>, n: nat)
    requires |back| >= n
    ensures Last(front + back, n) == Last(back, n)
  {
    var all := front + back;
    assert all[|all| - n..] == back[|back| - n..];
  }

  /** One message handled on the bounded map keeps it equal to the window over the whole history. */
  lemma WindowStep<T>(history: seq<Entry<T>>, e: Entry<T>, maxEvents: nat)
    ensures Absorb(Window(history, maxEvents), e, maxEvents) == Window(history + [e], maxEvents)
  {
    var m := Window(history, maxEvents);
    DeleteFacts(m, e.key);
    SetOfNewKey(Delete(m, e.key), e.key, e.value);
    LatestSnoc(history, e);
    LatestIsDistinct(history);
    EvictionCommutes(Latest(history), e, maxEvents);
  }

  function Replay<T>(events: seq<Entry<T>>, maxEvents: nat): seq<Entry<T>> {
    if |events| == 0 then [] else Absorb(Replay(events[..|events| - 1], maxEvents), events[|events| - 1], maxEvents)
  }

  /**
   After any message sequence the incrementally evicted map holds the last `maxEvents`
   distinct keys of the whole history, in order of their last message, each with it.
   */
  lemma {:induction false} ReplayIsWindow<T>(events: seq<Entry<T>>, maxEvents: nat)
    ensures Replay(events, maxEvents) == Window(events, maxEvents)
  {
    if |events| > 0 {
      var before := events[..|events| - 1];
      ReplayIsWindow(before, maxEvents);
      WindowStep(before, events[|events| - 1], maxEvents);
      assert before + [events[|events| - 1]] == events;
    }
  }

  // ----- the window by positions in the history

  /** No later message has the key of message `i`. */
  predicate IsLatest<T>(history: seq<Entry<T>>, i: nat) {
    i < |history| && forall j | i < j < |history| :: history[j].key != history[i].key
  }

  /** The entries of `w` are the messages at the positions `at`, which rise. */
  predicate Picks<T(==)>(history: seq<Entry<T>>, w: seq<Entry<T>>, at: seq<nat>) {
    && |w| == |at|
    && (forall k | 0 <= k < |at| :: IsLatest(history, at[k]) && w[k] == history[at[k]])
    && (forall k, l | 0 <= k < l < |at| :: at[k] < at[l])
  }

  lemma LatestShifts<T>(history: seq<Entry<T>>, i: nat)
    requires |history| > 0
    ensures IsLatest(history, i + 1) <==> IsLatest(history[1..], i)
    ensures IsLatest(history, 0) <==> !Has(history[1..], history[0].key)
  {
    var rest := history[1..];
    assert forall j | 0 <= j < |rest| :: rest[j] == history[j + 1];
    if i + 1 < |history| && IsLatest(rest, i) {
      forall j | i + 1 < j < |history| ensures history[j].key != history[i + 1].key {
        assert rest[j - 1] == history[j];
      }
    }
    if !Has(rest, history[0].key) {
      forall j | 0 < j < |history| ensures history[j].key != history[0].key {
        assert rest[j - 1] == history[j];
      }
    }
  }

  function Shifted(at: seq<nat>): (r: seq<nat>)
    ensures |r| == |at| && forall k | 0 <= k < |at| :: r[k] == at[k] + 1
  {
    seq(|at|, k requires 0 <= k < |at| => at[k] + 1)
  }

  lemma ShiftedPicks<T>(history: seq<Entry<T>>, w: seq<Entry<T>>, at: seq<nat>)
    requires |history| > 0 && Picks(history[1..], w, at)
    ensures Picks(history, w, Shifted(at))
  {
    forall k | 0 <= k < |at| ensures IsLatest(history, at[k] + 1) && w[k] == history[at[k] + 1] {
      LatestShifts(history, at[k]);
    }
  }

  lemma FirstPicked<T>(history: seq<Entry<T>>, w: seq<Entry<T>>, at: seq<nat>)
    requires Picks(history, w, at) && IsLatest(history, 0) && forall k | 0 <= k < |at| :: at[k] > 0
    ensures Picks(history, [history[0]] + w, [0] + at)
  {
    hide IsLatest;
  }

  /** All positions without a later message of their key. */
  ghost predicate Complete<T>(history: seq<Entry<T>>, at: seq<nat>) {
    forall i: nat | IsLatest(history, i) :: i in at
  }

  lemma ShiftedComplete<T>(history: seq<Entry<T>>, at: seq<nat>, i: nat)
    requires |history| > 0 && Complete(history[1..], at) && IsLatest(history, i + 1)
    ensures i + 1 in Shifted(at)
  {
    LatestShifts(history, i);
    hide IsLatest;
    var k :| 0 <= k < |at| && at[k] == i;
    assert Shifted(at)[k] == i + 1;
  }

  lemma {:induction false} LatestPositions<T>(history: seq<Entry<T>>) returns (at: seq<nat>)
    ensures Picks(history, Latest(history), at) && Complete(history, at)
  {
    if |history| == 0 {
      at := [];
    } else {
      var rest := history[1..];
      var later := LatestPositions(rest);
      ShiftedPicks(history, Latest(rest), later);
      LatestShifts(history, 0);
      var moved := Shifted(later);
      hide IsLatest, Picks, Latest, Has;
      if IsLatest(history, 0) {
        FirstPicked(history, Latest(rest), moved);
        at := [0] + moved;
      } else {
        at := moved;
      }
      LatestUnfolds(history);
      forall i: nat | IsLatest(history, i) ensures i in at {
        if i > 0 {
          ShiftedComplete(history, later, i - 1);
        }
      }
    }
  }

  lemma LatestUnfolds<T>(history: seq<Entry<T>>)
    requires |history| > 0
    ensures Latest(history) == (if Has(history[1..], history[0].key) then [] else [history[0]]) + Latest(history[1..])
  {
  }

  lemma LastPicks<T>(history: seq<Entry<T>>, w: seq<Entry<T>>, all: seq<nat>, cut: nat)
    requires Picks(history, w, all) && cut <= |all|
    ensures Picks(history, w[cut..], all[cut..])
  {
    hide IsLatest;
    forall k | 0 <= k < |all| - cut ensures all[cut..][k] == all[cut + k] && w[cut..][k] == w[cut + k] {
    }
  }

  lemma CutIsEarlier<T>(history: seq<Entry<T>>, w: seq<Entry<T>>, all: seq<nat>, cut: nat, i: nat)
    requires Picks(history, w, all) && cut <= |all| && i in all && i !in all[cut..]
    ensures forall k | 0 <= k < |all| - cut :: i < all[cut..][k]
  {
    hide IsLatest;
    var l :| 0 <= l < |all| && all[l] == i;
    forall m | cut <= m < |all| ensures all[m] in all[cut..] {
      assert all[cut..][m - cut] == all[m];
    }
  }

  /**
   The window, whatever arrived: the latest messages of distinct keys, each with its own latest
   value, in the order of their arrival; at most `maxEvents` of them, and a key is left out
   only when that many arrived after it.
   */
  lemma WindowIsTheLatest<T>(history: seq<Entry<T>>, maxEvents: nat) returns (at: seq<nat>)
    ensures Picks(history, Window(history, maxEvents), at) && |at| <= maxEvents
    ensures forall i: nat | IsLatest(history, i) && i !in at ::
      |at| == maxEvents && forall k | 0 <= k < |at| :: i < at[k]
  {
    var all := LatestPositions(history);
    hide IsLatest, Latest;
    PicksLength(history, Latest(history), all);
    if |all| <= maxEvents {
      at := all;
    } else {
      var cut := |all| - maxEvents;
      at := all[cut..];
      LastPicks(history, Latest(history), all, cut);
      forall i: nat | IsLatest(history, i) && i !in at ensures forall k | 0 <= k < |at| :: i < at[k] {
        CutIsEarlier(history, Latest(history), all, cut, i);
      }
    }
  }

  lemma PicksLength<T>(history: seq<Entry<T>>, w: seq<Entry<T>>, at: seq<nat>)
    requires Picks(history, w, at)
    ensures |w| == |at|
  {
  }
}
