/**
 The nightly decayer (workers/decayer/handler.py with its statements in workers/common/db.py):
 each non-retired procedure gets its decayed confidence, and retires with its memory items
 when that falls below the floor. The connection commits every statement by itself.
 */
module Decayer {
  import opened Prelude
  import opened Scoring
  import Recall

  datatype Status = Draft | Active | Retired

  datatype Procedure = Procedure(successes: nat, attempts: nat, updated: real, confidence: real, status: Status)

  /** A memory item of class 'procedure'. */
  datatype Item = Item(procedure: nat, retired: bool)

  type Procedures = map<nat, Procedure>
  type Items = map<nat, Item>

  /** Where the handling of one procedure fails, if it does. */
  datatype Fault = Fine | BeforeUpdate | BeforeItems

  /** One nightly run: when it reaches each procedure, and how that goes. */
  datatype Night = Night(at: nat -> real, fault: nat -> Fault)

  /** `max(0, now - updated_at)`, in days. */
  function Age(now: real, updated: real): real {
    if now > updated then now - updated else 0.0
  }

  function Recomputed(m: Math, p: Procedure, now: real): real {
    DecayedConfidence(m, p.successes, p.attempts, Age(now, p.updated))
  }

  predicate Falls(m: Math, p: Procedure, now: real) {
    Recomputed(m, p, now) < CONFIDENCE_FLOOR
  }

  /** What a run leaves of one procedure; `updated` is never touched. */
  function Decayed(m: Math, p: Procedure, now: real, fault: Fault): Procedure {
    if p.status == Retired || fault == BeforeUpdate then p
    else p.(confidence := Recomputed(m, p, now), status := if Falls(m, p, now) then Retired else p.status)
  }

  /** The run retires the items of this procedure too. */
  predicate TakesItems(m: Math, p: Procedure, now: real, fault: Fault) {
    p.status != Retired && fault == Fine && Falls(m, p, now)
  }

  function ProceduresAfter(m: Math, ps: Procedures, night: Night): Procedures {
    map id | id in ps :: Decayed(m, ps[id], night.at(id), night.fault(id))
  }

  function ItemsAfter(m: Math, ps: Procedures, items: Items, night: Night): Items {
    map i | i in items ::
      var id := items[i].procedure;
      if id in ps && TakesItems(m, ps[id], night.at(id), night.fault(id)) then items[i].(retired := true) else items[i]
  }

  /** The same with only some rows handled yet. */
  function DecayedSoFar(m: Math, ps: Procedures, rows: seq<nat>, night: Night): Procedures {
    map id | id in ps :: if id in rows then Decayed(m, ps[id], night.at(id), night.fault(id)) else ps[id]
  }

  /** The item's procedure is among the rows, and its run takes its items. */
  predicate Taken(m: Math, ps: Procedures, item: Item, rows: seq<nat>, night: Night) {
    var id := item.procedure;
    id in rows && id in ps && TakesItems(m, ps[id], night.at(id), night.fault(id))
  }

  function RetiredSoFar(m: Math, ps: Procedures, items: Items, rows: seq<nat>, night: Night): Items {
    map i | i in items :: if Taken(m, ps, items[i], rows, night) then items[i].(retired := true) else items[i]
  }

  /** `retire_orphaned_memory_items`. */
  function RetireItems(items: Items, id: nat): Items {
    map i | i in items :: if items[i].procedure == id then items[i].(retired := true) else items[i]
  }

  /** The items that still point at a procedure and are not retired. */
  function Dependents(items: Items, id: nat): set<nat> {
    set i | i in items && items[i].procedure == id && !items[i].retired
  }

  function NewlyRetired(before: Items, after: Items): set<nat> {
    set i | i in before && i in after && !before[i].retired && after[i].retired
  }

  /** The rows that fail before their update. */
  function Faulty(rows: seq<nat>, night: Night): set<nat> {
    set id | id in rows && night.fault(id) == BeforeUpdate
  }

  /** The procedures retired in between. */
  function Fallen(before: Procedures, after: Procedures): set<nat> {
    set id | id in before && id in after && before[id].status != Retired && after[id].status == Retired
  }

  /** ... and among them those whose items were not reached. */
  function Halfway(before: Procedures, after: Procedures, night: Night): set<nat> {
    set id | id in Fallen(before, after) && night.fault(id) == BeforeItems
  }

  class Store {
    var procedures: Procedures
    var items: Items

    constructor (procedures: Procedures, items: Items)
      ensures this.procedures == procedures && this.items == items
    {
      this.procedures, this.items := procedures, items;
    }

    /** The statements for one row, each committed as it is executed. */
    method DecayRow(m: Math, id: nat, now: real, fault: Fault) returns (updated: bool, retire: bool, orphaned: nat)
      requires id in procedures && procedures[id].status != Retired
      modifies this
      ensures procedures == old(procedures)[id := Decayed(m, old(procedures)[id], now, fault)]
      ensures items == if TakesItems(m, old(procedures)[id], now, fault) then RetireItems(old(items), id)
        else old(items)
      ensures updated <==> fault != BeforeUpdate
      ensures retire <==> updated && Falls(m, old(procedures)[id], now)
      ensures orphaned == if retire && fault == Fine then |Dependents(old(items), id)| else 0
    {
      hide Recomputed;
      updated, retire, orphaned := false, false, 0;
      if fault == BeforeUpdate {
        return;
      }
      var p := procedures[id];
      retire := Falls(m, p, now);
      procedures := procedures[id :=
          p.(confidence := Recomputed(m, p, now), status := if retire then Retired else p.status)];
      updated := true;
      if retire && fault != BeforeItems {
        orphaned := |Dependents(items, id)|;
        items := RetireItems(items, id);
      }
    }

    /**
     The handler, over the rows of `list_decaying_procedures` in any order: a failure on one
     row is counted and leaves every other row as if it had not happened.
     */
    method RunBatch(m: Math, rows: seq<nat>, night: Night)
      returns (decayed: nat, retired: nat, orphaned: nat, failed: nat)
      requires forall id :: id in rows <==> id in procedures && procedures[id].status != Retired
      requires forall i, j | 0 <= i < j < |rows| :: rows[i] != rows[j]
      modifies this
      ensures procedures == ProceduresAfter(m, old(procedures), night)
      ensures items == ItemsAfter(m, old(procedures), old(items), night)
      ensures decayed + |Faulty(rows, night)| == |rows|
      ensures retired == |Fallen(old(procedures), procedures)|
      ensures failed == |Faulty(rows, night)| + |Halfway(old(procedures), procedures, night)|
      ensures orphaned == |NewlyRetired(old(items), items)|
    {
      hide Falls, Decayed, DecayedSoFar, RetiredSoFar, RetireItems, NewlyRetired, Dependents, Count, Falling,
        FallingFaults, Faulty, Fallen, Halfway;
      decayed, retired, orphaned, failed := 0, 0, 0, 0;
      ghost var ps, is0 := procedures, items;
      NothingYet(m, ps, is0, night);
      CountNone(m, ps, night);
      for k := 0 to |rows|
        invariant procedures == DecayedSoFar(m, ps, rows[..k], night)
        invariant items == RetiredSoFar(m, ps, is0, rows[..k], night)
        invariant decayed + Count(rows[..k], night.fault, BeforeUpdate) == k
        invariant retired == Falling(m, ps, rows[..k], night)
        invariant failed == Count(rows[..k], night.fault, BeforeUpdate) + FallingFaults(m, ps, rows[..k], night)
        invariant orphaned == |NewlyRetired(is0, items)|
      {
        var id := rows[k];
        assert rows[..k + 1] == rows[..k] + [id];
        assert id !in rows[..k];
        NotYetDecayed(m, ps, rows[..k], id, night);
        OneMoreRow(m, ps, is0, rows[..k], id, night);
        CountMore(m, ps, rows[..k], id, night);
        NewlyRetiredMore(m, ps, is0, rows[..k], id, night);
        var updated, retire, orphans := DecayRow(m, id, night.at(id), night.fault(id));
        if !updated {
          failed := failed + 1;
        } else {
          decayed := decayed + 1;
          if retire {
            retired := retired + 1;
            if night.fault(id) == BeforeItems {
              failed := failed + 1;
            } else {
              orphaned := orphaned + orphans;
            }
          }
        }
      }
      assert rows[..|rows|] == rows;
      AllRows(m, ps, is0, rows, night);
      CountersAreSets(m, ps, rows, night);
    }
  }

  lemma CountNone(m: Math, ps: Procedures, night: Night)
    ensures Count([], night.fault, BeforeUpdate) == Falling(m, ps, [], night) == FallingFaults(m, ps, [], night) == 0
  {
  }

  lemma NotYetDecayed(m: Math, ps: Procedures, rows: seq<nat>, id: nat, night: Night)
    requires id !in rows && id in ps
    ensures id in DecayedSoFar(m, ps, rows, night) && DecayedSoFar(m, ps, rows, night)[id] == ps[id]
  {
  }

  lemma NothingYet(m: Math, ps: Procedures, items: Items, night: Night)
    ensures DecayedSoFar(m, ps, [], night) == ps && RetiredSoFar(m, ps, items, [], night) == items
    ensures NewlyRetired(items, items) == {}
  {
  }

  lemma OneMoreRow(m: Math, ps: Procedures, items: Items, rows: seq<nat>, id: nat, night: Night)
    requires id !in rows && id in ps && ps[id].status != Retired
    ensures DecayedSoFar(m, ps, rows + [id], night) ==
      DecayedSoFar(m, ps, rows, night)[id := Decayed(m, ps[id], night.at(id), night.fault(id))]
    ensures RetiredSoFar(m, ps, items, rows + [id], night) ==
      if TakesItems(m, ps[id], night.at(id), night.fault(id))
        then RetireItems(RetiredSoFar(m, ps, items, rows, night), id)
      else RetiredSoFar(m, ps, items, rows, night)
  {
    hide Decayed, Falls;
  }

  lemma CountMore(m: Math, ps: Procedures, rows: seq<nat>, id: nat, night: Night)
    ensures Count(rows + [id], night.fault, BeforeUpdate) ==
      Count(rows, night.fault, BeforeUpdate) + if night.fault(id) == BeforeUpdate then 1 else 0
    ensures Falling(m, ps, rows + [id], night) ==
      Falling(m, ps, rows, night) + if FallsTonight(m, ps, id, night) then 1 else 0
    ensures FallingFaults(m, ps, rows + [id], night) ==
      FallingFaults(m, ps, rows, night)
      + if FallsTonight(m, ps, id, night) && night.fault(id) == BeforeItems then 1 else 0
  {
    hide Falls;
    assert (rows + [id])[..|rows|] == rows;
  }

  lemma NewlyRetiredMore(m: Math, ps: Procedures, items: Items, rows: seq<nat>, id: nat, night: Night)
    requires id !in rows
    ensures
      var before := RetiredSoFar(m, ps, items, rows, night);
      |NewlyRetired(items, RetireItems(before, id))| == |NewlyRetired(items, before)| + |Dependents(before, id)|
  {
    hide Taken;
    MoreRetired(items, RetiredSoFar(m, ps, items, rows, night), id);
  }

  lemma MoreRetired(items: Items, before: Items, id: nat)
    requires before.Keys == items.Keys && forall i | i in items :: items[i].retired ==> before[i].retired
    ensures |NewlyRetired(items, RetireItems(before, id))| == |NewlyRetired(items, before)| + |Dependents(before, id)|
  {
    var old_, more := NewlyRetired(items, before), Dependents(before, id);
    assert NewlyRetired(items, RetireItems(before, id)) == old_ + more;
    assert old_ !! more;
  }

  lemma AllRows(m: Math, ps: Procedures, items: Items, rows: seq<nat>, night: Night)
    requires forall id :: id in rows <==> id in ps && ps[id].status != Retired
    ensures DecayedSoFar(m, ps, rows, night) == ProceduresAfter(m, ps, night)
    ensures RetiredSoFar(m, ps, items, rows, night) == ItemsAfter(m, ps, items, night)
  {
    hide Falls;
  }

  function Count(rows: seq<nat>, fault: nat -> Fault, f: Fault): nat {
    if |rows| == 0 then 0
    else Count(rows[..|rows| - 1], fault, f) + if fault(rows[|rows| - 1]) == f then 1 else 0
  }

  predicate FallsTonight(m: Math, ps: Procedures, id: nat, night: Night) {
    id in ps && night.fault(id) != BeforeUpdate && Falls(m, ps[id], night.at(id))
  }

  function Falling(m: Math, ps: Procedures, rows: seq<nat>, night: Night): nat {
    if |rows| == 0 then 0
    else Falling(m, ps, rows[..|rows| - 1], night) + if FallsTonight(m, ps, rows[|rows| - 1], night) then 1 else 0
  }

  function FallingFaults(m: Math, ps: Procedures, rows: seq<nat>, night: Night): nat {
    if |rows| == 0 then 0
    else
      var last := rows[|rows| - 1];
      FallingFaults(m, ps, rows[..|rows| - 1], night)
      + if FallsTonight(m, ps, last, night) && night.fault(last) == BeforeItems then 1 else 0
  }

  predicate Distinct(rows: seq<nat>) {
    forall i, j | 0 <= i < j < |rows| :: rows[i] != rows[j]
  }

  lemma {:induction false} CountIsCard(rows: seq<nat>, night: Night)
    requires Distinct(rows)
    ensures Count(rows, night.fault, BeforeUpdate) == |Faulty(rows, night)|
  {
    if |rows| > 0 {
      var front, last := rows[..|rows| - 1], rows[|rows| - 1];
      CountIsCard(front, night);
      assert Faulty(rows, night) == Faulty(front, night) + if night.fault(last) == BeforeUpdate then {last} else {};
    }
  }

  function FallingSet(m: Math, ps: Procedures, rows: seq<nat>, night: Night): set<nat> {
    set id | id in rows && FallsTonight(m, ps, id, night)
  }

  function FaultySet(m: Math, ps: Procedures, rows: seq<nat>, night: Night): set<nat> {
    set id | id in FallingSet(m, ps, rows, night) && night.fault(id) == BeforeItems
  }

  lemma {:induction false} FallingIsCard(m: Math, ps: Procedures, rows: seq<nat>, night: Night)
    requires Distinct(rows)
    ensures Falling(m, ps, rows, night) == |FallingSet(m, ps, rows, night)|
  {
    if |rows| > 0 {
      var front, last := rows[..|rows| - 1], rows[|rows| - 1];
      FallingIsCard(m, ps, front, night);
      hide FallsTonight;
      var more := if FallsTonight(m, ps, last, night) then {last} else {};
      assert FallingSet(m, ps, rows, night) == FallingSet(m, ps, front, night) + more;
    }
  }

  lemma {:induction false} FaultyIsCard(m: Math, ps: Procedures, rows: seq<nat>, night: Night)
    requires Distinct(rows)
    ensures FallingFaults(m, ps, rows, night) == |FaultySet(m, ps, rows, night)|
  {
    if |rows| > 0 {
      var front, last := rows[..|rows| - 1], rows[|rows| - 1];
      FaultyIsCard(m, ps, front, night);
      hide FallsTonight;
      var more := if FallsTonight(m, ps, last, night) && night.fault(last) == BeforeItems then {last} else {};
      assert forall id :: id in rows <==> id in front || id == last;
      assert FaultySet(m, ps, rows, night) == FaultySet(m, ps, front, night) + more;
      assert last !in FaultySet(m, ps, front, night);
    }
  }

  lemma CountersAreSets(m: Math, ps: Procedures, rows: seq<nat>, night: Night)
    requires Distinct(rows) && forall id :: id in rows <==> id in ps && ps[id].status != Retired
    ensures
      var after := ProceduresAfter(m, ps, night);
      && Count(rows, night.fault, BeforeUpdate) == |Faulty(rows, night)|
      && Falling(m, ps, rows, night) == |Fallen(ps, after)|
      && FallingFaults(m, ps, rows, night) == |Halfway(ps, after, night)|
  {
    CountIsCard(rows, night);
    FallingIsCard(m, ps, rows, night);
    FaultyIsCard(m, ps, rows, night);
    hide Falls, Faulty;
    assert FallingSet(m, ps, rows, night) == Fallen(ps, ProceduresAfter(m, ps, night));
    assert FaultySet(m, ps, rows, night) == Halfway(ps, ProceduresAfter(m, ps, night), night);
  }

  lemma RecomputedIs(m: Math, p: Procedure, now: real)
    ensures
      var days := if now < p.updated then 0.0 else now - p.updated;
      Recomputed(m, p, now) == WilsonLb(m, p.successes, p.attempts, 1.96) * m.exp(-days / 90.0)
  {
    hide WilsonLb;
    var days := if now < p.updated then 0.0 else now - p.updated;
    assert Age(now, p.updated) == days;
  }

  /**
   What one night does to one procedure: a retired procedure, or one whose run fails at once,
   is left alone; otherwise the confidence is recomputed from the days since the last update,
   and below 0.15 the procedure retires.
   */
  lemma OneNight(m: Math, ps: Procedures, night: Night, id: nat) returns (days: real, confidence: real)
    requires id in ps
    ensures days == if night.at(id) < ps[id].updated then 0.0 else night.at(id) - ps[id].updated
    ensures confidence == WilsonLb(m, ps[id].successes, ps[id].attempts, 1.96) * m.exp(-days / 90.0)
    ensures
      var p, after := ps[id], ProceduresAfter(m, ps, night);
      && after.Keys == ps.Keys
      && (p.status == Retired || night.fault(id) == BeforeUpdate ==> after[id] == p)
      && (p.status != Retired && night.fault(id) != BeforeUpdate ==>
            after[id] == p.(confidence := confidence, status := if confidence < 0.15 then Retired else p.status))
  {
    var p, now := ps[id], night.at(id);
    days := if now < p.updated then 0.0 else now - p.updated;
    RecomputedIs(m, p, now);
    hide WilsonLb, Recomputed;
    confidence := Recomputed(m, p, now);
  }

  /** The items follow a procedure that retires, unless the run fails before them. */
  lemma OneNightOfItems(m: Math, ps: Procedures, items: Items, night: Night, i: nat)
    requires i in items
    ensures
      var after, left := ProceduresAfter(m, ps, night), ItemsAfter(m, ps, items, night);
      && left.Keys == items.Keys && left[i].procedure == items[i].procedure
      && (left[i].retired <==>
          items[i].retired || (items[i].procedure in Fallen(ps, after) && night.fault(items[i].procedure) == Fine))
  {
    hide Falls, Recomputed;
  }

  // ----- confluence

  /** One procedure over several nights, oldest first. */
  function OverNights(m: Math, p: Procedure, nights: seq<(real, Fault)>): Procedure {
    if |nights| == 0 then p
    else
      var last := nights[|nights| - 1];
      Decayed(m, OverNights(m, p, nights[..|nights| - 1]), last.0, last.1)
  }

  predicate Nondecreasing(nights: seq<(real, Fault)>) {
    forall i, j | 0 <= i < j < |nights| :: nights[i].0 <= nights[j].0
  }

  lemma {:induction false} RetiredIsPermanent(m: Math, p: Procedure, nights: seq<(real, Fault)>)
    requires p.status == Retired
    ensures OverNights(m, p, nights) == p
  {
    if |nights| > 0 {
      RetiredIsPermanent(m, p, nights[..|nights| - 1]);
    }
  }

  lemma OlderFallsToo(m: Math, p: Procedure, early: real, late: real)
    requires Faithful(m) && early <= late
    ensures Recomputed(m, p, late) <= Recomputed(m, p, early)
    ensures Falls(m, p, early) ==> Falls(m, p, late)
  {
    DecayIsMonotone(m, p.successes, p.attempts, Age(early, p.updated), Age(late, p.updated));
    hide DecayedConfidence;
  }

  /** What any number of nights, however they fail, may have done by time `now`. */
  predicate Plausible(m: Math, p: Procedure, q: Procedure, now: real) {
    && q == p.(confidence := q.confidence, status := q.status)
    && (q.status == Retired ==> Falls(m, p, now) && Recomputed(m, p, now) <= q.confidence)
    && (q.status != Retired ==> q.status == p.status)
  }

  lemma {:induction false} NightsArePlausible(m: Math, p: Procedure, nights: seq<(real, Fault)>, now: real)
    requires Faithful(m) && p.status != Retired && Nondecreasing(nights)
    requires forall i | 0 <= i < |nights| :: nights[i].0 <= now
    ensures Plausible(m, p, OverNights(m, p, nights), now)
  {
    hide Recomputed, Falls;
    if |nights| > 0 {
      var front, last := nights[..|nights| - 1], nights[|nights| - 1];
      NightsArePlausible(m, p, front, now);
      OlderFallsToo(m, p, last.0, now);
      SameStatistics(m, p, OverNights(m, p, front), last.0);
    }
  }

  /** The recomputation reads the statistics and the clock, not what earlier runs wrote. */
  lemma SameStatistics(m: Math, p: Procedure, q: Procedure, now: real)
    requires q == p.(confidence := q.confidence, status := q.status)
    ensures Recomputed(m, q, now) == Recomputed(m, p, now) && (Falls(m, q, now) <==> Falls(m, p, now))
  {
  }

  /**
   Confluence: whatever nights came before and however they failed, a run that reaches the
   procedure leaves the status that running only then would have left; a survivor is equal
   to that in every column, and a retired one has kept the confidence it retired with.
   */
  lemma DecayIsConfluent(m: Math, p: Procedure, nights: seq<(real, Fault)>)
    requires Faithful(m) && p.status != Retired && Nondecreasing(nights)
    requires |nights| > 0 && nights[|nights| - 1].1 != BeforeUpdate
    ensures
      var many, last := OverNights(m, p, nights), nights[|nights| - 1];
      var once := Decayed(m, p, last.0, last.1);
      && many.status == once.status
      && (many.status != Retired ==> many == once)
      && once.confidence <= many.confidence
  {
    var front, last := nights[..|nights| - 1], nights[|nights| - 1];
    var q := OverNights(m, p, front);
    NightsArePlausible(m, p, front, last.0);
    SameStatistics(m, p, q, last.0);
    hide Recomputed, Falls;
  }

  // ----- orphans

  /** An active memory item whose procedure is retired: the neighbour search still finds it. */
  predicate Orphan(ps: Procedures, items: Items, i: nat) {
    i in items && !items[i].retired && items[i].procedure in ps && ps[items[i].procedure].status == Retired
  }

  /** A run makes an orphan exactly when it fails between the two updates of a falling procedure. */
  lemma OrphanIffFaultBetween(m: Math, ps: Procedures, items: Items, night: Night, i: nat)
    requires !Orphan(ps, items, i)
    ensures
      Orphan(ProceduresAfter(m, ps, night), ItemsAfter(m, ps, items, night), i) <==>
        && i in items && !items[i].retired && items[i].procedure in ps
        && night.fault(items[i].procedure) == BeforeItems
        && Falls(m, ps[items[i].procedure], night.at(items[i].procedure))
  {
    hide Falls;
  }

  /** ... and no later run repairs it, because retired procedures are not listed again. */
  lemma OrphanStays(m: Math, ps: Procedures, items: Items, night: Night, i: nat)
    requires Orphan(ps, items, i)
    ensures Orphan(ProceduresAfter(m, ps, night), ItemsAfter(m, ps, items, night), i)
  {
    hide Falls;
  }

  // ----- many nights on the whole store

  function ProceduresOver(m: Math, ps: Procedures, nights: seq<Night>): Procedures {
    if |nights| == 0 then ps
    else ProceduresAfter(m, ProceduresOver(m, ps, nights[..|nights| - 1]), nights[|nights| - 1])
  }

  function ItemsOver(m: Math, ps: Procedures, items: Items, nights: seq<Night>): Items {
    if |nights| == 0 then items
    else
      var front := nights[..|nights| - 1];
      ItemsAfter(m, ProceduresOver(m, ps, front), ItemsOver(m, ps, items, front), nights[|nights| - 1])
  }

  /** What the nights hold in store for one procedure. */
  function NightsOf(id: nat, nights: seq<Night>): (r: seq<(real, Fault)>)
    ensures |r| == |nights| && forall k | 0 <= k < |nights| :: r[k] == (nights[k].at(id), nights[k].fault(id))
  {
    seq(|nights|, k requires 0 <= k < |nights| => (nights[k].at(id), nights[k].fault(id)))
  }

  /** The batches act on each procedure by itself. */
  lemma {:induction false} NightsActPointwise(m: Math, ps: Procedures, nights: seq<Night>, id: nat)
    requires id in ps
    ensures ProceduresOver(m, ps, nights).Keys == ps.Keys
    ensures ProceduresOver(m, ps, nights)[id] == OverNights(m, ps[id], NightsOf(id, nights))
  {
    hide Decayed;
    if |nights| > 0 {
      var front := nights[..|nights| - 1];
      NightsActPointwise(m, ps, front, id);
      assert NightsOf(id, nights)[..|nights| - 1] == NightsOf(id, front);
    }
  }

  /** On night `k` the procedure falls and the run fails before its items. */
  predicate FallsHalfway(m: Math, ps: Procedures, nights: seq<Night>, k: nat, id: nat) {
    && k < |nights| && id in ps
    && ProceduresOver(m, ps, nights[..k]).Keys == ps.Keys
    && ProceduresOver(m, ps, nights[..k])[id].status != Retired
    && nights[k].fault(id) == BeforeItems
    && Falls(m, ps[id], nights[k].at(id))
  }

  predicate SomeNightFails(m: Math, ps: Procedures, nights: seq<Night>, id: nat) {
    exists k | 0 <= k < |nights| :: FallsHalfway(m, ps, nights, k, id)
  }

  lemma SomeNightOf(m: Math, ps: Procedures, front: seq<Night>, night: Night, id: nat)
    ensures SomeNightFails(m, ps, front + [night], id) <==>
      SomeNightFails(m, ps, front, id) || FallsHalfway(m, ps, front + [night], |front|, id)
  {
    var nights := front + [night];
    forall k | 0 <= k < |front| ensures FallsHalfway(m, ps, nights, k, id) <==> FallsHalfway(m, ps, front, k, id) {
      assert nights[..k] == front[..k];
      hide Falls, ProceduresOver;
    }
    hide FallsHalfway;
  }

  lemma {:induction false} OverNightsKeepsStatistics(m: Math, p: Procedure, nights: seq<(real, Fault)>)
    ensures
      var q := OverNights(m, p, nights);
      q == p.(confidence := q.confidence, status := q.status)
  {
    if |nights| > 0 {
      OverNightsKeepsStatistics(m, p, nights[..|nights| - 1]);
    }
  }

  /** The items keep what they point at, and one that is retired stays so. */
  lemma {:induction false} ItemsKeepTheirProcedure(m: Math, ps: Procedures, items: Items, nights: seq<Night>, i: nat)
    requires i in items
    ensures i in ItemsOver(m, ps, items, nights)
    ensures ItemsOver(m, ps, items, nights)[i].procedure == items[i].procedure
    ensures items[i].retired ==> ItemsOver(m, ps, items, nights)[i].retired
  {
    hide TakesItems, ProceduresOver;
    if |nights| > 0 {
      ItemsKeepTheirProcedure(m, ps, items, nights[..|nights| - 1], i);
    }
  }

  /** One more night, for an item whose retirement so far came with its procedure's. */
  lemma OrphanStep(m: Math, ps: Procedures, items: Items, front: seq<Night>, night: Night, i: nat)
    requires i in items && items[i].procedure in ps
    requires i in ItemsOver(m, ps, items, front) && ItemsOver(m, ps, items, front)[i].procedure == items[i].procedure
    requires ProceduresOver(m, ps, front).Keys == ps.Keys
    requires ItemsOver(m, ps, items, front)[i].retired ==>
      ProceduresOver(m, ps, front)[items[i].procedure].status == Retired
    ensures
      var p, q := ProceduresOver(m, ps, front), ProceduresAfter(m, ProceduresOver(m, ps, front), night);
      var before := ItemsOver(m, ps, items, front);
      var after := ItemsAfter(m, p, before, night);
      && (Orphan(q, after, i) <==>
          Orphan(p, before, i) || FallsHalfway(m, ps, front + [night], |front|, items[i].procedure))
      && (after[i].retired ==> q[items[i].procedure].status == Retired)
  {
    var id := items[i].procedure;
    var p, before := ProceduresOver(m, ps, front), ItemsOver(m, ps, items, front);
    NightsActPointwise(m, ps, front, id);
    OverNightsKeepsStatistics(m, ps[id], NightsOf(id, front));
    SameStatistics(m, ps[id], p[id], night.at(id));
    assert (front + [night])[..|front|] == front;
    hide Falls, ProceduresOver, ItemsOver;
    if Orphan(p, before, i) {
      OrphanStays(m, p, before, night, i);
    } else {
      OrphanIffFaultBetween(m, p, before, night, i);
    }
  }

  /** An item retires only with its procedure. */
  predicate RetiredTogether(ps: Procedures, items: Items, i: nat, id: nat) {
    i in items && id in ps && items[i].procedure == id && (items[i].retired ==> ps[id].status == Retired)
  }

  /**
   Over any nights an item that was not an orphan ends as one exactly when on one of them its
   procedure fell and the run failed before the items; nothing later ever repairs it.
   */
  lemma {:induction false} OrphanIffSomeNightFailed(m: Math, ps: Procedures, items: Items, nights: seq<Night>, i: nat)
    requires i in items && !items[i].retired && items[i].procedure in ps && ps[items[i].procedure].status != Retired
    ensures RetiredTogether(ProceduresOver(m, ps, nights), ItemsOver(m, ps, items, nights), i, items[i].procedure)
    ensures Orphan(ProceduresOver(m, ps, nights), ItemsOver(m, ps, items, nights), i) <==>
      SomeNightFails(m, ps, nights, items[i].procedure)
  {
    var id := items[i].procedure;
    NightsActPointwise(m, ps, nights, id);
    ItemsKeepTheirProcedure(m, ps, items, nights, i);
    if |nights| > 0 {
      var front, night := nights[..|nights| - 1], nights[|nights| - 1];
      assert front + [night] == nights;
      NightsActPointwise(m, ps, front, id);
      OrphanIffSomeNightFailed(m, ps, items, front, i);
      SomeNightOf(m, ps, front, night, id);
      OrphanStep(m, ps, items, front, night, i);
      assert ProceduresOver(m, ps, nights) == ProceduresAfter(m, ProceduresOver(m, ps, front), night);
      assert ItemsOver(m, ps, items, nights) ==
             ItemsAfter(m, ProceduresOver(m, ps, front), ItemsOver(m, ps, items, front), night);
      hide Orphan, FallsHalfway, SomeNightFails, ProceduresOver, ItemsOver, ProceduresAfter, ItemsAfter;
    }
  }

  /** Whatever the nights did, a procedure they retired was stored below the floor in the same statement. */
  lemma {:induction false} RetiredIsBelowFloor(m: Math, p: Procedure, nights: seq<(real, Fault)>)
    requires p.status != Retired
    ensures OverNights(m, p, nights).status == Retired ==> OverNights(m, p, nights).confidence < CONFIDENCE_FLOOR
  {
    hide Recomputed;
    if |nights| > 0 {
      RetiredIsBelowFloor(m, p, nights[..|nights| - 1]);
    }
  }

  /** What recall reads about item `i`: its status, and its procedure's stored confidence. */
  predicate Joined(ps: Procedures, items: Items, i: nat, rows: Recall.DetailRows) {
    && i in items && items[i].procedure in ps && i in rows
    && rows[i].active == !items[i].retired && rows[i].confidence == Some(ps[items[i].procedure].confidence)
  }

  /** An item left behind by the nights, as recall reads it. */
  predicate LeftBehind(m: Math, ps: Procedures, items: Items, nights: seq<Night>, i: nat, rows: Recall.DetailRows) {
    && i in items && items[i].procedure in ps && ps[items[i].procedure].status != Retired
    && Joined(ProceduresOver(m, ps, nights), ItemsOver(m, ps, items, nights), i, rows)
    && Orphan(ProceduresOver(m, ps, nights), ItemsOver(m, ps, items, nights), i)
  }

  lemma LeftBehindIsBelowFloor(m: Math, ps: Procedures, items: Items, nights: seq<Night>, i: nat,
                               rows: Recall.DetailRows)
    ensures LeftBehind(m, ps, items, nights, i, rows) ==>
      i in rows && rows[i].active && rows[i].confidence.Some? && rows[i].confidence.value < CONFIDENCE_FLOOR
  {
    if LeftBehind(m, ps, items, nights, i, rows) {
      var id := items[i].procedure;
      ItemsKeepTheirProcedure(m, ps, items, nights, i);
      NightsActPointwise(m, ps, nights, id);
      RetiredIsBelowFloor(m, ps[id], NightsOf(id, nights));
      hide ProceduresOver, ItemsOver, OverNights;
    }
  }

  /** An orphan is found, scored and rejected: recall never returns it. */
  lemma OrphanIsNeverRecalled(m: Math, ps: Procedures, items: Items, nights: seq<Night>, i: nat,
                              q: Recall.Query, cs: seq<Recall.Candidate>, rows: Recall.DetailRows, topK: nat)
    ensures LeftBehind(m, ps, items, nights, i, rows) ==>
      forall x | x in Recall.Recalled(q, cs, rows, topK) :: x.id != i
  {
    LeftBehindIsBelowFloor(m, ps, items, nights, i, rows);
    Recall.OnlyPassingAreRecalled(q, cs, rows, topK);
    hide LeftBehind, Recall.Recalled;
    forall x | LeftBehind(m, ps, items, nights, i, rows) && x in Recall.Recalled(q, cs, rows, topK) ensures x.id != i {
      var c :| c in cs && c.id == x.id && Recall.ScoreOf(q, c, rows) == Some(x.score);
    }
  }

  /** Only orphans were retired between two readings. */
  ghost predicate OrphansRetired(m: Math, ps: Procedures, items: Items, nights: seq<Night>,
                                 before: Recall.DetailRows, after: Recall.DetailRows) {
    && before.Keys == after.Keys
    && forall i | i in before && after[i] != before[i] ::
         after[i] == before[i].(active := false) && LeftBehind(m, ps, items, nights, i, before)
  }

  /**
   All an orphan costs is its place among the neighbours: retiring the orphans would change no
   result while the limit does not bind, and otherwise never give fewer or lower ones.
   */
  lemma OrphansOnlyTakePlaces(m: Math, ps: Procedures, items: Items, nights: seq<Night>,
                              q: Recall.Query, pool: seq<Recall.Candidate>, before: Recall.DetailRows,
                              after: Recall.DetailRows,
                              limit: nat, topK: nat)
    requires OrphansRetired(m, ps, items, nights, before, after)
    ensures
      var first := Recall.Recalled(q, Recall.Nearest(pool, before, limit), before, topK);
      var later := Recall.Recalled(q, Recall.Nearest(pool, after, limit), after, topK);
      Recall.NoWorse(first, later) && (Recall.ActiveCount(pool, before) <= limit ==> first == later)
  {
    forall i | i in before && after[i] != before[i]
      ensures before[i].confidence.Some? && before[i].confidence.value < CONFIDENCE_FLOOR
    {
      LeftBehindIsBelowFloor(m, ps, items, nights, i, before);
    }
    hide LeftBehind;
    assert Recall.RetiredBelowFloor(before, after);
    Recall.RetirementIsTransparent(q, pool, before, after, limit, topK);
  }
}
