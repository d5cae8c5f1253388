/**
 Task leases with fence tokens: the three statements on `agent_leases` (agent/memory/db.py),
 the handle that renews in the background and the acquire loop (agent/memory/leases.py), and
 all runs of many holders against one table under a clock that never goes back.
 */
module Leases {
  import opened Prelude

  const TTL: real := 60.0

  datatype Row = Row(holder: string, fence: nat, renewed: real, expires: real)

  type Rows = map<nat, Row>

  datatype AcquireResult = Won(fence: nat) | Busy

  predicate Takeable(rows: Rows, task: nat, now: real) {
    task !in rows || rows[task].expires < now
  }

  function AcquireRows(rows: Rows, task: nat, holder: string, now: real): Rows {
    if !Takeable(rows, task, now) then rows
    else if task in rows then rows[task := Row(holder, rows[task].fence + 1, now, now + TTL)]
    else rows[task := Row(holder, 1, now, now + TTL)]
  }

  /** The WHERE clause of a renewal: holder and fence, and nothing about expiry. */
  predicate Matches(rows: Rows, task: nat, holder: string, fence: nat) {
    task in rows && rows[task].holder == holder && rows[task].fence == fence
  }

  function RenewRows(rows: Rows, task: nat, holder: string, fence: nat, now: real): Rows {
    if Matches(rows, task, holder, fence) then rows[task := Row(holder, fence, now, now + TTL)] else rows
  }

  /** The WHERE clause of a release has no fence in it. */
  function ReleaseRows(rows: Rows, task: nat, holder: string): Rows {
    if task in rows && rows[task].holder == holder then rows - {task} else rows
  }

  class LeaseTable {
    var rows: Rows

    constructor ()
      ensures rows == map[]
    {
      rows := map[];
    }

    /** `_acquire_or_takeover`: update an expired row, else insert if there is none. */
    method AcquireOrTakeover(task: nat, holder: string, now: real) returns (r: AcquireResult)
      modifies this
      ensures rows == AcquireRows(old(rows), task, holder, now)
      ensures r.Won? <==> task !in old(rows) || old(rows)[task].expires < now
      ensures r.Won? ==>
        && r.fence == (if task in old(rows) then old(rows)[task].fence + 1 else 1)
        && rows == old(rows)[task := Row(holder, r.fence, now, now + 60.0)]
      ensures r.Busy? ==> rows == old(rows)
    {
      if task in rows && rows[task].expires < now {
        var fence := rows[task].fence + 1;
        rows := rows[task := Row(holder, fence, now, now + TTL)];
        return Won(fence);
      }
      if task !in rows {
        rows := rows[task := Row(holder, 1, now, now + TTL)];
        return Won(1);
      }
      r := Busy;
    }

    /** `renew_lease`; false stands for StaleLeaseError. */
    method Renew(task: nat, holder: string, fence: nat, now: real) returns (ok: bool)
      modifies this
      ensures rows == RenewRows(old(rows), task, holder, fence, now)
      ensures ok <==> task in old(rows) && old(rows)[task].holder == holder && old(rows)[task].fence == fence
      ensures rows == if ok then old(rows)[task := Row(holder, fence, now, now + 60.0)] else old(rows)
    {
      ok := task in rows && rows[task].holder == holder && rows[task].fence == fence;
      if ok {
        rows := rows[task := Row(holder, fence, now, now + TTL)];
      }
    }

    method Release(task: nat, holder: string)
      modifies this
      ensures rows == ReleaseRows(old(rows), task, holder)
      ensures rows.Keys == old(rows).Keys
              - if task in old(rows) && old(rows)[task].holder == holder then {task} else {}
      ensures forall t | t in rows :: rows[t] == old(rows)[t]
    {
      if task in rows && rows[task].holder == holder {
        rows := map t | t in rows && t != task :: rows[t];
      }
    }
  }

  // ----- the handle

  /**
   What happens to one renewal: it reaches the database at `now` and returns at `finished`, or
   raises something else than StaleLeaseError.
   */
  datatype Renewal = Reached(rows: Rows, now: real, finished: real) | Raised

  /** When renewal `k` starts: one interval after the loop began, or after the renewal before it returned. */
  function StartOf(script: nat -> Renewal, begin: real, interval: real, k: nat): real {
    if k == 0 then begin + interval
    else if script(k - 1).Reached? then script(k - 1).finished + interval
    else begin + interval
  }

  class LeaseHandle {
    const table: LeaseTable
    const task: nat
    const holder: string
    const fence: nat
    var lost: bool

    constructor (table: LeaseTable, task: nat, holder: string, fence: nat)
      ensures this.table == table && this.task == task && this.holder == holder && this.fence == fence && !lost
    {
      this.table, this.task, this.holder, this.fence, lost := table, task, holder, fence, false;
    }

    /** Renewal `k` reaches the database and finds the row gone to another holder or fence. */
    predicate Stale(script: nat -> Renewal, k: nat)
      reads {}
    {
      script(k).Reached? && !Matches(script(k).rows, task, holder, fence)
    }

    /**
     `_renew_loop` until it is cancelled after `turns` sleeps, against a table that other
     holders change while it sleeps. The handle ends invalid exactly when some renewal was
     stale and every earlier one succeeded: an error of any other kind ends the loop with
     the handle still claiming to be valid. `started` are the times at which renewals start.
     */
    method RenewLoop(script: nat -> Renewal, turns: nat, begin: real, interval: real)
      returns (attempted: nat, started: seq<real>)
      requires !lost
      modifies this, table
      ensures lost <==>
        exists k: nat :: k < turns && Stale(script, k) && forall j: nat :: j < k ==>
          script(j).Reached? && !Stale(script, j)
      ensures attempted <= turns
      ensures attempted < turns ==> attempted > 0 && (Stale(script, attempted - 1) || script(attempted - 1).Raised?)
      ensures |started| == attempted && forall k | 0 <= k < attempted ::
        if k == 0 then started[k] == begin + interval
        else script(k - 1).Reached? && started[k] == script(k - 1).finished + interval
    {
      attempted, started := 0, [];
      var clock := begin;
      while attempted < turns && !lost
        invariant attempted <= turns
        invariant |started| == attempted
        invariant forall k | 0 <= k < attempted :: started[k] == StartOf(script, begin, interval, k)
        invariant forall k | 0 <= k < attempted - 1 :: script(k).Reached?
        invariant clock == if attempted == 0 then begin else StartOf(script, begin, interval, attempted) - interval
        invariant attempted > 0 ==> script(attempted - 1).Reached?
        invariant lost ==> attempted > 0 && Stale(script, attempted - 1)
        invariant forall j: nat :: j < attempted - (if lost then 1 else 0) ==> script(j).Reached? && !Stale(script, j)
        decreases turns - attempted
      {
        started := started + [clock + interval];
        var event := script(attempted);
        attempted := attempted + 1;
        if event.Raised? {
          return;
        }
        table.rows := event.rows;
        var ok := table.Renew(task, holder, fence, event.now);
        clock := event.finished;
        lost := !ok;
      }
    }

    /** `release`: a handle that knows it is lost deletes nothing. */
    method Release()
      modifies table
      ensures table.rows == if lost then old(table.rows) else ReleaseRows(old(table.rows), task, holder)
    {
      if !lost {
        table.Release(task, holder);
      }
    }
  }

  /** From the time `displaced` on, the row is gone to another holder or fence. */
  ghost predicate GoneFrom(h: LeaseHandle, script: nat -> Renewal, displaced: real) {
    forall k: nat :: script(k).Reached? && script(k).now >= displaced ==> h.Stale(script, k)
  }

  /** The first renewal to start once the handle was displaced. */
  predicate FirstAfter(script: nat -> Renewal, begin: real, interval: real, displaced: real, k: nat) {
    StartOf(script, begin, interval, k) >= displaced && (k > 0 ==> StartOf(script, begin, interval, k - 1) < displaced)
  }

  /**
   If renewals only succeed or find the row gone, a displaced handle is lost at its first
   renewal after the displacement at the latest, and that starts within one interval of the
   displacement or of the return of the renewal under way then.
   */
  lemma DetectedWithinOneInterval(h: LeaseHandle, script: nat -> Renewal, begin: real, interval: real,
                                  displaced: real, k: nat)
    requires begin <= displaced && GoneFrom(h, script, displaced) && FirstAfter(script, begin, interval, displaced, k)
    requires forall j: nat :: j <= k ==> script(j).Reached? && script(j).now >= StartOf(script, begin, interval, j)
    ensures exists j: nat :: j <= k && h.Stale(script, j) && forall i: nat :: i < j ==>
      script(i).Reached? && !h.Stale(script, i)
    ensures
      var under := if k > 0 then script(k - 1).finished else begin;
      StartOf(script, begin, interval, k) <= (if under > displaced then under else displaced) + interval
  {
    FirstStale(h, script, k);
  }

  lemma {:induction false} FirstStale(h: LeaseHandle, script: nat -> Renewal, k: nat)
    requires h.Stale(script, k) && forall j: nat :: j <= k ==> script(j).Reached?
    ensures exists j: nat :: j <= k && h.Stale(script, j) && forall i: nat :: i < j ==>
      script(i).Reached? && !h.Stale(script, i)
  {
    if j: nat :| j < k && h.Stale(script, j) {
      FirstStale(h, script, j);
    }
  }

  /**
   `_acquire_with_retry`: `seen(k)` and `clock(k)` are the table and the time at attempt `k`;
   null is LeaseAcquireTimeoutError.
   */
  method AcquireWithRetry(table: LeaseTable, task: nat, holder: string, maxAttempts: nat, seen: nat -> Rows,
                          clock: nat -> real)
    returns (handle: LeaseHandle?, attempts: nat)
    modifies table
    ensures handle != null <==> exists k: nat :: k < maxAttempts && Takeable(seen(k), task, clock(k))
    ensures attempts <= maxAttempts
    ensures handle != null ==>
      && fresh(handle) && handle.task == task && handle.holder == holder && !handle.lost
      && attempts > 0 && table.rows == AcquireRows(seen(attempts - 1), task, holder, clock(attempts - 1))
      && Matches(table.rows, task, holder, handle.fence)
      && forall k: nat :: k < attempts - 1 ==> !Takeable(seen(k), task, clock(k))
  {
    attempts := 0;
    while attempts < maxAttempts
      invariant attempts <= maxAttempts
      invariant forall k: nat :: k < attempts ==> !Takeable(seen(k), task, clock(k))
    {
      table.rows := seen(attempts);
      var r := table.AcquireOrTakeover(task, holder, clock(attempts));
      attempts := attempts + 1;
      if r.Won? {
        handle := new LeaseHandle(table, task, holder, r.fence);
        return;
      }
    }
    handle := null;
  }

  // ----- runs

  /**
   A handle that was ever issued. `lifetime` counts the insertions of the task's row, and
   `seen` is the time of the handle's grant or last successful renewal.
   */
  datatype Issued = Issued(task: nat, holder: string, fence: nat, lifetime: nat, seen: real, lost: bool)

  datatype Sys = Sys(rows: Rows, now: real, lifetimes: map<nat, nat>, handles: seq<Issued>)

  datatype Step =
    | Tick(amount: real)
    | Acquire(task: nat, holder: string)
    | Renew(h: nat)
    | Release(h: nat)

  const START: Sys := Sys(map[], 0.0, map[], [])

  function Lifetime(s: Sys, task: nat): nat {
    if task in s.lifetimes then s.lifetimes[task] else 0
  }

  /** The handle's renewal would succeed. */
  predicate CanRenew(s: Sys, h: nat) {
    h < |s.handles| && Matches(s.rows, s.handles[h].task, s.handles[h].holder, s.handles[h].fence)
  }

  function Exec(s: Sys, step: Step): Sys {
    match step
    case Tick(amount) => if amount >= 0.0 then s.(now := s.now + amount) else s
    case Acquire(task, holder) =>
      if !Takeable(s.rows, task, s.now) then s
      else
        var rows := AcquireRows(s.rows, task, holder, s.now);
        var life := if task in s.rows then Lifetime(s, task) else Lifetime(s, task) + 1;
        s.(rows := rows, lifetimes := s.lifetimes[task := life],
           handles := s.handles + [Issued(task, holder, rows[task].fence, life, s.now, false)])
    case Renew(h) =>
      if h >= |s.handles| || s.handles[h].lost then s
      else
        var x := s.handles[h];
        if CanRenew(s, h) then
          s.(rows := RenewRows(s.rows, x.task, x.holder, x.fence, s.now), handles := s.handles[h := x.(seen := s.now)])
        else s.(handles := s.handles[h := x.(lost := true)])
    case Release(h) =>
      if h >= |s.handles| || s.handles[h].lost then s
      else s.(rows := ReleaseRows(s.rows, s.handles[h].task, s.handles[h].holder))
  }

  function Run(s: Sys, steps: seq<Step>): Sys
    decreases |steps|
  {
    if |steps| == 0 then s else Run(Exec(s, steps[0]), steps[1..])
  }

  /** In the present lifetime of its task's row. */
  predicate Current(s: Sys, x: Issued) {
    x.task in s.rows && x.lifetime == Lifetime(s, x.task)
  }

  predicate HandleOk(s: Sys, x: Issued) {
    && 1 <= x.lifetime <= Lifetime(s, x.task)
    && 1 <= x.fence
    && x.seen <= s.now
    && (Current(s, x) ==> x.fence <= s.rows[x.task].fence && x.seen <= s.rows[x.task].renewed)
    && (Current(s, x) && x.fence == s.rows[x.task].fence ==> x.holder == s.rows[x.task].holder)
  }

  predicate RowOk(s: Sys, task: nat)
    requires task in s.rows
  {
    s.rows[task].expires == s.rows[task].renewed + TTL && s.rows[task].renewed <= s.now && Lifetime(s, task) >= 1
  }

  predicate Ordered(x: Issued, y: Issued) {
    x.task == y.task && x.lifetime == y.lifetime ==> x.fence < y.fence
  }

  predicate Inv(s: Sys) {
    && (forall h | 0 <= h < |s.handles| :: HandleOk(s, s.handles[h]))
    && (forall task | task in s.rows :: RowOk(s, task))
    && (forall h, g | 0 <= h < g < |s.handles| :: Ordered(s.handles[h], s.handles[g]))
  }

  lemma AcquireOk(s: Sys, task: nat, holder: string)
    requires Inv(s)
    ensures Inv(Exec(s, Acquire(task, holder)))
  {
    var t := Exec(s, Acquire(task, holder));
    forall h | 0 <= h < |t.handles| ensures HandleOk(t, t.handles[h]) {
      if h < |s.handles| {
        assert HandleOk(s, s.handles[h]);
      }
    }
    forall other | other in t.rows ensures RowOk(t, other) {
      assert other != task ==> RowOk(s, other);
    }
    forall h, g | 0 <= h < g < |t.handles| ensures Ordered(t.handles[h], t.handles[g]) {
      assert HandleOk(s, s.handles[h]);
      if g < |s.handles| {
        assert Ordered(s.handles[h], s.handles[g]);
      }
    }
  }

  lemma RenewOk(s: Sys, h: nat)
    requires Inv(s)
    ensures Inv(Exec(s, Renew(h)))
  {
    var t := Exec(s, Renew(h));
    forall g | 0 <= g < |t.handles| ensures HandleOk(t, t.handles[g]) {
      assert HandleOk(s, s.handles[g]);
      if t.handles[g].task in s.rows {
        assert RowOk(s, t.handles[g].task);
      }
    }
    forall task | task in t.rows ensures RowOk(t, task) {
      assert RowOk(s, task);
    }
    forall f, g | 0 <= f < g < |t.handles| ensures Ordered(t.handles[f], t.handles[g]) {
      assert Ordered(s.handles[f], s.handles[g]);
    }
  }

  lemma ReleaseOk(s: Sys, h: nat)
    requires Inv(s)
    ensures Inv(Exec(s, Release(h)))
  {
    var t := Exec(s, Release(h));
    forall g | 0 <= g < |t.handles| ensures HandleOk(t, t.handles[g]) {
      assert HandleOk(s, s.handles[g]);
    }
    forall task | task in t.rows ensures RowOk(t, task) {
      assert RowOk(s, task);
    }
    forall f, g | 0 <= f < g < |t.handles| ensures Ordered(t.handles[f], t.handles[g]) {
      assert Ordered(s.handles[f], s.handles[g]);
    }
  }

  lemma TickOk(s: Sys, amount: real)
    requires Inv(s)
    ensures Inv(Exec(s, Tick(amount)))
  {
    var t := Exec(s, Tick(amount));
    forall g | 0 <= g < |t.handles| ensures HandleOk(t, t.handles[g]) {
      assert HandleOk(s, s.handles[g]);
    }
    forall task | task in t.rows ensures RowOk(t, task) {
      assert RowOk(s, task);
    }
    forall f, g | 0 <= f < g < |t.handles| ensures Ordered(t.handles[f], t.handles[g]) {
      assert Ordered(s.handles[f], s.handles[g]);
    }
  }

  lemma StepOk(s: Sys, step: Step)
    requires Inv(s)
    ensures Inv(Exec(s, step)) && Later(s, Exec(s, step))
  {
    StepIsLater(s, step);
    hide Inv, Later;
    match step
    case Tick(amount) => TickOk(s, amount);
    case Acquire(task, holder) => AcquireOk(s, task, holder);
    case Renew(h) => RenewOk(s, h);
    case Release(h) => ReleaseOk(s, h);
  }

  /** The same handle, later. */
  predicate SameHandle(x: Issued, y: Issued) {
    && x.task == y.task && x.holder == y.holder && x.fence == y.fence && x.lifetime == y.lifetime
    && x.seen <= y.seen && (x.lost ==> y.lost)
  }

  /** Time, lifetimes and handles only move forward, and a row's fence only grows within a lifetime. */
  ghost predicate Later(s: Sys, t: Sys) {
    && s.now <= t.now && |s.handles| <= |t.handles|
    && (forall h | 0 <= h < |s.handles| :: SameHandle(s.handles[h], t.handles[h]))
    && (forall task: nat :: Lifetime(s, task) <= Lifetime(t, task))
    && (forall task | task in t.rows && Lifetime(s, task) == Lifetime(t, task) ::
          task in s.rows && s.rows[task].fence <= t.rows[task].fence)
  }

  lemma StepIsLater(s: Sys, step: Step)
    requires Inv(s)
    ensures Later(s, Exec(s, step))
  {
    forall h | 0 <= h < |s.handles| ensures SameHandle(s.handles[h], Exec(s, step).handles[h]) {
      assert HandleOk(s, s.handles[h]);
    }
  }

  lemma LaterTransitive(s: Sys, t: Sys, u: Sys)
    requires Later(s, t) && Later(t, u)
    ensures Later(s, u)
  {
    forall h | 0 <= h < |s.handles| ensures SameHandle(s.handles[h], u.handles[h]) {
      assert SameHandle(s.handles[h], t.handles[h]) && SameHandle(t.handles[h], u.handles[h]);
    }
    forall task | task in u.rows && Lifetime(s, task) == Lifetime(u, task)
      ensures task in s.rows && s.rows[task].fence <= u.rows[task].fence
    {
      assert Lifetime(s, task) <= Lifetime(t, task) <= Lifetime(u, task);
      assert task in t.rows;
    }
  }

  lemma {:induction false} RunOk(s: Sys, steps: seq<Step>)
    requires Inv(s)
    ensures Inv(Run(s, steps)) && Later(s, Run(s, steps))
    decreases |steps|
  {
    hide Inv, Exec, Later;
    if |steps| == 0 {
      LaterSelf(s);
    } else {
      StepOk(s, steps[0]);
      RunOk(Exec(s, steps[0]), steps[1..]);
      LaterTransitive(s, Exec(s, steps[0]), Run(s, steps));
    }
  }

  lemma LaterSelf(s: Sys)
    ensures Later(s, s)
  {
  }

  // ----- fencing

  /** A takeover keeps the row's lifetime and raises its fence by exactly one; an insertion starts at one. */
  lemma TakeoverRaisesFenceByOne(s: Sys, task: nat, holder: string)
    requires Inv(s) && Takeable(s.rows, task, s.now)
    ensures
      var t := Exec(s, Acquire(task, holder));
      && |t.handles| == |s.handles| + 1
      && CanRenew(t, |s.handles|)
      && (if task in s.rows then t.rows[task].fence == s.rows[task].fence + 1 && Lifetime(t, task) == Lifetime(s, task)
          else t.rows[task].fence == 1 && Lifetime(t, task) == Lifetime(s, task) + 1)
      && forall h | 0 <= h < |s.handles| && Current(t, t.handles[h]) && t.handles[h].task == task :: !CanRenew(t, h)
  {
    var t := Exec(s, Acquire(task, holder));
    forall h | 0 <= h < |s.handles| && Current(t, t.handles[h]) && t.handles[h].task == task ensures !CanRenew(t, h) {
      assert HandleOk(s, s.handles[h]);
    }
  }

  function After(steps: seq<Step>): Sys {
    Run(START, steps)
  }

  lemma Reachable(steps: seq<Step>)
    ensures Inv(After(steps))
  {
    RunOk(START, steps);
  }

  /**
   Of all handles ever issued for a task, two can renew together exactly when they carry the
   same holder and fence; and then they are from different lifetimes of the row.
   */
  lemma AtMostOneRenewsPerLifetime(steps: seq<Step>, h: nat, g: nat)
    requires h < g < |After(steps).handles| && After(steps).handles[h].task == After(steps).handles[g].task
    ensures
      var s := After(steps);
      var x, y := s.handles[h], s.handles[g];
      && (CanRenew(s, h) && CanRenew(s, g) <==> CanRenew(s, h) && x.holder == y.holder && x.fence == y.fence)
      && (CanRenew(s, h) && CanRenew(s, g) ==> x.lifetime != y.lifetime)
  {
    Reachable(steps);
    var s := After(steps);
    hide Run;
    assert Ordered(s.handles[h], s.handles[g]);
  }

  /** A task never sees one holder id in two lifetimes of its row. */
  predicate HoldersAreFresh(s: Sys) {
    forall h, g | 0 <= h < g < |s.handles| ::
      s.handles[h].task == s.handles[g].task && s.handles[h].holder == s.handles[g].holder ==>
        s.handles[h].lifetime == s.handles[g].lifetime
  }

  /** With fresh holder ids the fence excludes every other handle ever issued for the task. */
  lemma FreshHoldersAreFenced(steps: seq<Step>, h: nat, g: nat)
    requires HoldersAreFresh(After(steps)) && h < |After(steps).handles| && g < |After(steps).handles|
    requires After(steps).handles[h].task == After(steps).handles[g].task
    requires CanRenew(After(steps), h) && CanRenew(After(steps), g)
    ensures h == g
  {
    hide Run;
    if h < g {
      AtMostOneRenewsPerLifetime(steps, h, g);
    } else if g < h {
      AtMostOneRenewsPerLifetime(steps, g, h);
    }
  }

  /** Within the lifetime a displaced handle never renews again, and its next attempt tells it so. */
  lemma DisplacedStaysDisplaced(steps: seq<Step>, later: seq<Step>, h: nat)
    requires
      var s := After(steps);
      h < |s.handles| && Current(s, s.handles[h]) && s.handles[h].fence < s.rows[s.handles[h].task].fence
    ensures
      var s, t := After(steps), Run(After(steps), later);
      && h < |t.handles|
      && (Lifetime(t, s.handles[h].task) == Lifetime(s, s.handles[h].task) ==>
            !CanRenew(t, h) && Exec(t, Renew(h)).handles[h].lost)
  {
    Reachable(steps);
    var s := After(steps);
    RunOk(s, later);
    hide Run;
    var t := Run(s, later);
    assert SameHandle(s.handles[h], t.handles[h]);
    if !t.handles[h].lost {
      LostMeansStale(t, h);
    }
  }

  /** A renewal attempt marks a handle lost exactly when the row is no longer its own. */
  lemma LostMeansStale(s: Sys, h: nat)
    requires h < |s.handles| && !s.handles[h].lost
    ensures Exec(s, Renew(h)).handles[h].lost <==> !CanRenew(s, h)
    ensures forall g | 0 <= g < |s.handles| && g != h :: Exec(s, Renew(h)).handles[g] == s.handles[g]
  {
  }

  // ----- timing

  /** A lease is only taken from holders not heard of for more than the TTL. */
  lemma TakeoverMeansSilence(steps: seq<Step>, task: nat, h: nat)
    requires
      var s := After(steps);
      task in s.rows && Takeable(s.rows, task, s.now) && h < |s.handles| && Current(s, s.handles[h])
        && s.handles[h].task == task
    ensures After(steps).handles[h].seen < After(steps).now - 60.0
  {
    Reachable(steps);
    hide Run;
    var s := After(steps);
    assert HandleOk(s, s.handles[h]) && RowOk(s, task);
  }

  /** The step deletes the row that handle `h` holds, under its holder id. */
  predicate ReleasesFrom(s: Sys, step: Step, h: nat)
    requires h < |s.handles|
  {
    && step.Release? && step.h < |s.handles| && !s.handles[step.h].lost
    && s.handles[step.h].task == s.handles[h].task && s.handles[step.h].holder == s.handles[h].holder
  }

  /** Throughout the run the handle's last renewal is at most a TTL ago and nobody releases its row. */
  predicate Punctual(s: Sys, steps: seq<Step>, h: nat)
    decreases |steps|
  {
    && h < |s.handles| && s.now <= s.handles[h].seen + 60.0
    && (|steps| > 0 ==> !ReleasesFrom(s, steps[0], h) && Punctual(Exec(s, steps[0]), steps[1..], h))
  }

  predicate Holds(s: Sys, h: nat) {
    CanRenew(s, h) && Current(s, s.handles[h])
  }

  lemma PunctualStep(s: Sys, step: Step, h: nat)
    requires Inv(s) && Holds(s, h) && s.now <= s.handles[h].seen + TTL && !ReleasesFrom(s, step, h)
    ensures Holds(Exec(s, step), h)
    ensures !s.handles[h].lost ==> !Exec(s, step).handles[h].lost
  {
    assert HandleOk(s, s.handles[h]) && RowOk(s, s.handles[h].task);
  }

  /** Whatever all the others do, a holder that renews in time is never displaced and never told it was. */
  lemma {:induction false} PunctualHolderKeepsLease(s: Sys, steps: seq<Step>, h: nat)
    requires Inv(s) && Holds(s, h) && Punctual(s, steps, h)
    ensures Holds(Run(s, steps), h)
    ensures !s.handles[h].lost ==> !Run(s, steps).handles[h].lost
    decreases |steps|
  {
    hide Inv, Exec, Holds, ReleasesFrom;
    if |steps| > 0 {
      StepOk(s, steps[0]);
      assert h < |s.handles|;
      PunctualStep(s, steps[0], h);
      PunctualHolderKeepsLease(Exec(s, steps[0]), steps[1..], h);
    }
  }

  // ----- where the guarantee ends

  /** Nobody takes the handle's row over or releases it. */
  predicate Untaken(s: Sys, steps: seq<Step>, h: nat)
    decreases |steps|
  {
    && h < |s.handles|
    && (|steps| > 0 ==>
          && !(steps[0].Acquire? && steps[0].task == s.handles[h].task) && !ReleasesFrom(s, steps[0], h)
          && Untaken(Exec(s, steps[0]), steps[1..], h))
  }

  lemma UntakenStep(s: Sys, step: Step, h: nat)
    requires Inv(s) && Holds(s, h) && !s.handles[h].lost && !ReleasesFrom(s, step, h)
    requires !(step.Acquire? && step.task == s.handles[h].task)
    ensures Holds(Exec(s, step), h) && !Exec(s, step).handles[h].lost
  {
    assert HandleOk(s, s.handles[h]);
  }

  /**
   Renewal does not look at expiry: over any run, however long, in which nobody takes the row
   over or releases it, the handle keeps it, and its next renewal makes it valid again.
   */
  lemma {:induction false} UntakenLeaseComesBack(s: Sys, steps: seq<Step>, h: nat)
    requires Inv(s) && Holds(s, h) && !s.handles[h].lost && Untaken(s, steps, h)
    ensures
      var t := Run(s, steps);
      && Holds(t, h)
      && Exec(t, Renew(h)).rows[t.handles[h].task].expires == t.now + 60.0 && !Exec(t, Renew(h)).handles[h].lost
    decreases |steps|
  {
    hide Inv, ReleasesFrom;
    if |steps| > 0 {
      hide Exec, Holds;
      StepOk(s, steps[0]);
      assert h < |s.handles|;
      UntakenStep(s, steps[0], h);
      UntakenLeaseComesBack(Exec(s, steps[0]), steps[1..], h);
    } else {
      LostMeansStale(s, h);
    }
  }

  // ----- why a lease is lost

  lemma {:induction false} RunSnoc(s: Sys, steps: seq<Step>, step: Step)
    ensures Run(s, steps + [step]) == Exec(Run(s, steps), step)
    decreases |steps|
  {
    hide Exec;
    if |steps| == 0 {
      assert steps + [step] == [step] && [step][1..] == [];
      assert Run(Exec(s, step), []) == Exec(s, step);
    } else {
      assert (steps + [step])[1..] == steps[1..] + [step];
      RunSnoc(Exec(s, steps[0]), steps[1..], step);
    }
  }

  /** The step takes the row over after more than the TTL of silence of handle `h`. */
  predicate TakesSilent(s: Sys, step: Step, h: nat)
    requires h < |s.handles|
  {
    step.Acquire? && step.task == s.handles[h].task && s.now > s.handles[h].seen + 60.0
  }

  /** At step `k` handle `h` still held its row, and lost it to its silence or to a release under its holder id. */
  predicate LossAt(steps: seq<Step>, h: nat, k: nat) {
    && k < |steps| && h < |After(steps[..k]).handles| && Holds(After(steps[..k]), h)
    && (TakesSilent(After(steps[..k]), steps[k], h) || ReleasesFrom(After(steps[..k]), steps[k], h))
  }

  predicate WasLost(steps: seq<Step>, h: nat) {
    exists k | 0 <= k < |steps| :: LossAt(steps, h, k)
  }

  lemma WasLostExtends(steps: seq<Step>, step: Step, h: nat)
    requires WasLost(steps, h)
    ensures WasLost(steps + [step], h)
  {
    hide After, Holds, TakesSilent, ReleasesFrom;
    var k :| 0 <= k < |steps| && LossAt(steps, h, k);
    assert (steps + [step])[..k] == steps[..k];
    assert LossAt(steps + [step], h, k);
  }

  lemma HeldUnlessLost(s: Sys, step: Step, h: nat)
    requires Inv(s) && Holds(s, h)
    ensures Holds(Exec(s, step), h) || TakesSilent(s, step, h) || ReleasesFrom(s, step, h)
  {
    assert HandleOk(s, s.handles[h]) && RowOk(s, s.handles[h].task);
  }

  lemma NewHandleHolds(s: Sys, step: Step, h: nat)
    requires Inv(s) && h >= |s.handles| && h < |Exec(s, step).handles|
    ensures step.Acquire? && h == |s.handles| && Holds(Exec(s, step), h) && Exec(s, step).handles[h].task == step.task
    ensures Takeable(s.rows, step.task, s.now)
  {
  }

  /** Every handle ever issued still holds its row, or lost it at some step to silence or to a release. */
  lemma {:induction false} IssuedHeldOrLost(steps: seq<Step>, h: nat)
    requires h < |After(steps).handles|
    ensures Holds(After(steps), h) || WasLost(steps, h)
    decreases |steps|
  {
    if |steps| > 0 {
      var last := |steps| - 1;
      var front, step := steps[..last], steps[last];
      assert steps == front + [step];
      RunSnoc(START, front, step);
      Reachable(front);
      hide Exec, Inv, Holds, TakesSilent, ReleasesFrom, Run, WasLost;
      if h < |After(front).handles| {
        IssuedHeldOrLost(front, h);
        if WasLost(front, h) {
          WasLostExtends(front, step, h);
        } else {
          HeldUnlessLost(After(front), step, h);
          LostNow(steps, h);
        }
      } else {
        NewHandleHolds(After(front), step, h);
      }
    }
  }

  lemma LostNow(steps: seq<Step>, h: nat)
    requires |steps| > 0
    ensures LossAt(steps, h, |steps| - 1) ==> WasLost(steps, h)
  {
    hide LossAt;
  }

  /** Of two handles issued for one task, the earlier one lost the row, and for one of those two reasons. */
  lemma {:induction false} EarlierHandleWasLost(steps: seq<Step>, h: nat, g: nat)
    requires h < g < |After(steps).handles| && After(steps).handles[h].task == After(steps).handles[g].task
    ensures WasLost(steps, h)
    decreases |steps|
  {
    if |steps| > 0 {
      var last := |steps| - 1;
      var front, step := steps[..last], steps[last];
      assert steps == front + [step];
      RunSnoc(START, front, step);
      Reachable(front);
      StepOk(After(front), step);
      assert SameHandle(After(front).handles[h], After(steps).handles[h]) || h >= |After(front).handles|;
      hide Exec, Inv, Run, WasLost, ReleasesFrom;
      if g < |After(front).handles| {
        assert SameHandle(After(front).handles[g], After(steps).handles[g]);
        EarlierHandleWasLost(front, h, g);
        WasLostExtends(front, step, h);
      } else {
        NewHandleHolds(After(front), step, g);
        IssuedHeldOrLost(front, h);
        if WasLost(front, h) {
          WasLostExtends(front, step, h);
        } else {
          TakenFromHolder(After(front), step, h);
          LostNow(steps, h);
        }
      }
    }
  }

  lemma TakenFromHolder(s: Sys, step: Step, h: nat)
    requires Inv(s) && Holds(s, h) && step.Acquire? && step.task == s.handles[h].task
    requires Takeable(s.rows, step.task, s.now)
    ensures TakesSilent(s, step, h)
  {
    assert HandleOk(s, s.handles[h]) && RowOk(s, s.handles[h].task);
  }

  /**
   A release ends another handle's lease exactly when it comes from a handle of the same
   task and holder that does not know it is lost; the fences play no part.
   */
  lemma ReleaseEndsAnotherLeaseIff(s: Sys, h: nat, g: nat)
    requires h < |s.handles| && CanRenew(s, g)
    ensures !CanRenew(Exec(s, Release(h)), g) <==>
      !s.handles[h].lost && s.handles[h].task == s.handles[g].task && s.handles[h].holder == s.handles[g].holder
  {
  }

  /** Holder "a" loses the lease, "b" releases it, "a" comes back: the fence is 1 again. */
  const REBORN: seq<Step> := [Acquire(0, "a"), Tick(61.0), Acquire(0, "b"), Release(1), Acquire(0, "a")]

  lemma RebornState() returns (s: Sys)
    ensures s == After(REBORN)
    ensures s.rows == map[0 := Row("a", 1, 61.0, 121.0)] && s.now == 61.0
    ensures s.handles == [Issued(0, "a", 1, 1, 0.0, false), Issued(0, "b", 2, 1, 61.0, false),
        Issued(0, "a", 1, 2, 61.0, false)]
  {
    var s1 := Exec(START, REBORN[0]);
    var s2 := Exec(s1, REBORN[1]);
    var s3 := Exec(s2, REBORN[2]);
    var s4 := Exec(s3, REBORN[3]);
    s := Exec(s4, REBORN[4]);
    assert s3.rows == map[0 := Row("b", 2, 61.0, 121.0)];
    assert s4.rows == map[];
    assert REBORN == [REBORN[0], REBORN[1], REBORN[2], REBORN[3], REBORN[4]];
    RunFive(START, REBORN[0], REBORN[1], REBORN[2], REBORN[3], REBORN[4]);
  }

  lemma RunFive(s: Sys, a: Step, b: Step, c: Step, d: Step, e: Step)
    ensures Run(s, [a, b, c, d, e]) == Exec(Exec(Exec(Exec(Exec(s, a), b), c), d), e)
  {
    hide Exec;
    var s1 := Exec(s, a);
    var s2 := Exec(s1, b);
    var s3 := Exec(s2, c);
    var s4 := Exec(s3, d);
    assert [a, b, c, d, e][1..] == [b, c, d, e] && [b, c, d, e][1..] == [c, d, e] && [c, d, e][1..] == [d, e];
    assert [d, e][1..] == [e] && [e][1..] == [];
    assert Run(Exec(s4, e), []) == Exec(s4, e);
    assert Run(s4, [e]) == Exec(s4, e);
    assert Run(s3, [d, e]) == Run(s4, [e]);
    assert Run(s2, [c, d, e]) == Run(s3, [d, e]);
    assert Run(s1, [b, c, d, e]) == Run(s2, [c, d, e]);
  }

  /** Across lifetimes the fence does not protect: the displaced handle and the new one both renew. */
  lemma FenceRestartsAcrossLifetimes()
    ensures CanRenew(After(REBORN), 0) && CanRenew(After(REBORN), 2)
  {
    var s := RebornState();
  }

  /** ... and the displaced handle's release gives the task away while the new one still believes it holds it. */
  lemma StaleReleaseGivesTaskAway()
    ensures
      var t := Exec(Exec(After(REBORN), Release(0)), Acquire(0, "c"));
      |t.handles| == 4 && CanRenew(t, 3) && !CanRenew(t, 2) && !t.handles[2].lost
  {
    var s := RebornState();
    var u := Exec(s, Release(0));
    assert u.rows == map[];
  }
}
