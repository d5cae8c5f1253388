/**
 The deliveries over the lease table: a delivery gets its lease only when the table grants it,
 and gives back what it got (agent/main.py, agent/memory/leases.py). Every run of this machine
 is a run of the delivery machine and one of the lease machine, so what is known of both holds.
 */
module LeasedDelivery {
  import opened Prelude
  import opened Tasks
  import opened Delivery
  import Leases

  /** The steps so far of the two machines, and the handle that each delivery was granted. */
  datatype Joint = Joint(work: seq<Step>, leases: seq<Leases.Step>, handle: map<nat, nat>)

  const FRESH: Joint := Joint([], [], map[])

  datatype JointStep =
    | Work(step: Step)
    | Grant(a: nat, holder: string)
    | GiveBack(a: nat, released: bool)
    | Pass(amount: real)
    | Renewal(h: nat)

  function Deliveries(j: Joint): Sys {
    After(j.work)
  }

  function Table(j: Joint): Leases.Sys {
    Leases.After(j.leases)
  }

  predicate GrantsTo(j: Joint, a: nat) {
    var s := Deliveries(j);
    && a < |s.attempts| && s.attempts[a].stage.Marked? && s.attempts[a].task.Some?
    && Leases.Takeable(Table(j).rows, s.attempts[a].task.value, Table(j).now)
  }

  function JointExec(j: Joint, step: JointStep): Joint {
    match step
    case Work(w) => if w.TakeLease? || w.Release? then j else j.(work := j.work + [w])
    case Grant(a, holder) =>
      if GrantsTo(j, a) then
        var task := Deliveries(j).attempts[a].task.value;
        Joint(j.work + [TakeLease(a)], j.leases + [Leases.Acquire(task, holder)], j.handle[a := |Table(j).handles|])
      else j
    case GiveBack(a, released) =>
      if a < |Deliveries(j).attempts| && Deliveries(j).attempts[a].stage.Closing? then
        j.(work := j.work + [Release(a, released)],
           leases := if released && a in j.handle then j.leases + [Leases.Release(j.handle[a])] else j.leases)
      else j
    case Pass(amount) => j.(leases := j.leases + [Leases.Tick(amount)])
    case Renewal(h) => j.(leases := j.leases + [Leases.Renew(h)])
  }

  function JointRun(steps: seq<JointStep>): Joint {
    if |steps| == 0 then FRESH else JointExec(JointRun(steps[..|steps| - 1]), steps[|steps| - 1])
  }

  /** The delivery has its lease and has not come to give it back. */
  predicate HasLease(at: Attempt) {
    && at.task.Some?
    && (at.stage.Leased? || at.stage.InGraph? || at.stage.GraphOver? || at.stage.LeaseLost?
        || at.stage.Excepting? || at.stage.Closing?)
  }

  /** The handle was never given back. */
  predicate Kept(leases: seq<Leases.Step>, h: nat) {
    forall k | 0 <= k < |leases| :: leases[k] != Leases.Release(h)
  }

  /** A delivery with a lease has a handle for its task, which it never gave back. */
  predicate HandleOf(j: Joint, a: nat) {
    var s := Deliveries(j);
    && a < |s.attempts| && s.attempts[a].task.Some?
    && a in j.handle && j.handle[a] < |Table(j).handles|
    && Table(j).handles[j.handle[a]].task == s.attempts[a].task.value
    && Kept(j.leases, j.handle[a])
  }

  predicate Inv(j: Joint) {
    && (forall a | 0 <= a < |Deliveries(j).attempts| && HasLease(Deliveries(j).attempts[a]) :: HandleOf(j, a))
    && (forall a | a in j.handle :: a < |Deliveries(j).attempts| && j.handle[a] < |Table(j).handles|)
    && (forall a, b | a in j.handle && b in j.handle && a != b :: j.handle[a] != j.handle[b])
    && (forall k | 0 <= k < |j.leases| && j.leases[k].Release? :: j.leases[k].h < |Table(j).handles|)
  }

  lemma AfterNext(work: seq<Step>, step: Step)
    ensures After(work + [step]) == Exec(After(work), step)
  {
    hide Exec;
    assert (work + [step])[..|work|] == work;
  }

  lemma TableNext(leases: seq<Leases.Step>, step: Leases.Step)
    ensures Leases.After(leases + [step]) == Leases.Exec(Leases.After(leases), step)
    ensures |Leases.After(leases).handles| <= |Leases.After(leases + [step]).handles|
    ensures forall h | 0 <= h < |Leases.After(leases).handles| ::
      Leases.After(leases + [step]).handles[h].task == Leases.After(leases).handles[h].task
  {
    Leases.RunSnoc(Leases.START, leases, step);
    var s := Leases.After(leases);
    hide Leases.Run;
  }

  /** A delivery's own step, other than taking the lease, gives nobody a lease; tasks are kept. */
  lemma LeaseMoves(s: Sys, step: Step)
    requires !step.TakeLease? && !step.Deliver? && step.a < |s.attempts|
    requires s.attempts[step.a].stage.Probed? ==> s.attempts[step.a].task.None?
    ensures
      var t, a := Exec(s, step), step.a;
      && |t.attempts| == |s.attempts| && t.attempts == s.attempts[a := t.attempts[a]]
      && (HasLease(t.attempts[a]) ==> HasLease(s.attempts[a]) && t.attempts[a].task == s.attempts[a].task)
  {
    assert s.attempts[step.a := s.attempts[step.a]] == s.attempts;
    hide Placed, WithStatus, StatusAllowed, ObservedRow, IncidentRow;
  }

  lemma KeptOn(leases: seq<Leases.Step>, step: Leases.Step, h: nat)
    requires Kept(leases, h) && step != Leases.Release(h)
    ensures Kept(leases + [step], h)
  {
  }

  lemma HandleStays(j: Joint, k: Joint, a: nat)
    requires HandleOf(j, a) && k.leases == j.leases && a in k.handle && k.handle[a] == j.handle[a]
    requires a < |Deliveries(k).attempts| && Deliveries(k).attempts[a].task == Deliveries(j).attempts[a].task
    ensures HandleOf(k, a)
  {
    hide After, Leases.After, Kept;
  }

  lemma DeliverAdds(s: Sys, step: Step)
    requires step.Deliver?
    ensures Exec(s, step).attempts == s.attempts + [Attempt(step.message, None, Probed(step.incident))]
  {
  }

  lemma IdleStep(s: Sys, step: Step)
    requires !step.Deliver? && step.a >= |s.attempts|
    ensures Exec(s, step) == s
  {
  }

  lemma WorkOk(j: Joint, w: Step)
    requires Inv(j)
    ensures Inv(JointExec(j, Work(w)))
  {
    var k, s := JointExec(j, Work(w)), Deliveries(j);
    if !(w.TakeLease? || w.Release?) {
      AfterNext(j.work, w);
      Reachable(j.work);
      var t := Deliveries(k);
      if w.Deliver? {
        DeliverAdds(s, w);
      } else if w.a < |s.attempts| {
        assert AttemptOk(s.tasks, s.ended, s.attempts[w.a]);
        LeaseMoves(s, w);
      } else {
        IdleStep(s, w);
      }
      hide After, Exec, Leases.After, HandleOf, Delivery.Inv, HasLease;
      NoLeaseYet();
      assert |s.attempts| <= |t.attempts|;
      forall a | 0 <= a < |t.attempts| && HasLease(t.attempts[a]) ensures HandleOf(k, a) {
        assert a < |s.attempts| && HasLease(s.attempts[a]) && t.attempts[a].task == s.attempts[a].task;
        HandleIsThere(j, a);
        HandleStays(j, k, a);
      }
    }
  }

  lemma NoLeaseYet()
    ensures forall m, incident :: !HasLease(Attempt(m, None, Probed(incident)))
  {
  }

  lemma HandleIsThere(j: Joint, a: nat)
    requires HandleOf(j, a)
    ensures a in j.handle
  {
  }

  /** The lease table moved, and what it did was not a release of this handle. */
  lemma HandleMoves(j: Joint, k: Joint, step: Leases.Step, a: nat)
    requires HandleOf(j, a) && k.leases == j.leases + [step] && step != Leases.Release(j.handle[a])
    requires a in k.handle && k.handle[a] == j.handle[a]
    requires a < |Deliveries(k).attempts| && Deliveries(k).attempts[a].task == Deliveries(j).attempts[a].task
    ensures HandleOf(k, a)
  {
    TableNext(j.leases, step);
    KeptOn(j.leases, step, j.handle[a]);
    hide After, Leases.After, Kept;
  }

  lemma PassOk(j: Joint, step: Leases.Step)
    requires Inv(j) && !step.Release?
    ensures Inv(j.(leases := j.leases + [step]))
  {
    var k := j.(leases := j.leases + [step]);
    TableNext(j.leases, step);
    hide After, Leases.After, HandleOf, HasLease, Leases.Exec;
    forall a | 0 <= a < |Deliveries(k).attempts| && HasLease(Deliveries(k).attempts[a]) ensures HandleOf(k, a) {
      HandleIsThere(j, a);
      HandleMoves(j, k, step, a);
    }
  }

  lemma TakesLease(s: Sys, a: nat)
    requires a < |s.attempts| && s.attempts[a].stage.Marked?
    ensures Exec(s, TakeLease(a)).attempts == s.attempts[a :=
        s.attempts[a].(stage := Leased(s.attempts[a].stage.resuming))]
  {
  }

  lemma AcquireAdds(s: Leases.Sys, task: nat, holder: string)
    requires Leases.Takeable(s.rows, task, s.now)
    ensures
      var t := Leases.Exec(s, Leases.Acquire(task, holder));
      |t.handles| == |s.handles| + 1 && t.handles[|s.handles|].task == task
  {
  }

  lemma GrantOk(j: Joint, a: nat, holder: string)
    requires Inv(j)
    ensures Inv(JointExec(j, Grant(a, holder)))
  {
    var k, s := JointExec(j, Grant(a, holder)), Deliveries(j);
    if GrantsTo(j, a) {
      var task, h := s.attempts[a].task.value, |Table(j).handles|;
      var step := Leases.Acquire(task, holder);
      AfterNext(j.work, TakeLease(a));
      TakesLease(s, a);
      TableNext(j.leases, step);
      AcquireAdds(Table(j), task, holder);
      assert Kept(k.leases, h);
      assert HandleOf(k, a);
      hide After, Exec, Leases.After, Leases.Exec, HandleOf, HasLease, GrantsTo, Kept;
      var t := Deliveries(k);
      forall b | 0 <= b < |t.attempts| && HasLease(t.attempts[b]) ensures HandleOf(k, b) {
        if b != a {
          HandleIsThere(j, b);
          HandleMoves(j, k, step, b);
        }
      }
    }
  }

  lemma Returns(s: Sys, a: nat, released: bool)
    requires a < |s.attempts| && s.attempts[a].stage.Closing?
    ensures
      var t := Exec(s, Release(a, released));
      t.attempts == s.attempts[a := t.attempts[a]] && !HasLease(t.attempts[a])
  {
  }

  lemma GiveBackOk(j: Joint, a: nat, released: bool)
    requires Inv(j)
    ensures Inv(JointExec(j, GiveBack(a, released)))
  {
    var k, s := JointExec(j, GiveBack(a, released)), Deliveries(j);
    if a < |s.attempts| && s.attempts[a].stage.Closing? {
      AfterNext(j.work, Release(a, released));
      Returns(s, a, released);
      var t := Deliveries(k);
      if released && a in j.handle {
        TableNext(j.leases, Leases.Release(j.handle[a]));
      }
      hide After, Exec, Leases.After, Leases.Exec, HandleOf, HasLease;
      forall b | 0 <= b < |t.attempts| && HasLease(t.attempts[b]) ensures HandleOf(k, b) {
        HandleIsThere(j, b);
        if released && a in j.handle {
          HandleMoves(j, k, Leases.Release(j.handle[a]), b);
        } else {
          HandleStays(j, k, b);
        }
      }
    }
  }

  lemma {:induction false} EveryRunKeepsHandles(steps: seq<JointStep>)
    ensures Inv(JointRun(steps))
  {
    hide Inv, JointExec;
    if |steps| > 0 {
      var j := JointRun(steps[..|steps| - 1]);
      EveryRunKeepsHandles(steps[..|steps| - 1]);
      match steps[|steps| - 1]
      case Work(w) => WorkOk(j, w);
      case Grant(a, holder) => GrantOk(j, a, holder);
      case GiveBack(a, released) => GiveBackOk(j, a, released);
      case Pass(amount) => QuietLeaseStep(j, steps[|steps| - 1], Leases.Tick(amount));
      case Renewal(h) => QuietLeaseStep(j, steps[|steps| - 1], Leases.Renew(h));
    } else {
      FreshOk();
    }
  }

  lemma QuietLeaseStep(j: Joint, step: JointStep, l: Leases.Step)
    requires Inv(j) && ((step.Pass? && l == Leases.Tick(step.amount)) || (step.Renewal? && l == Leases.Renew(step.h)))
    ensures Inv(JointExec(j, step))
  {
    hide Inv;
    PassOk(j, l);
  }

  lemma FreshOk()
    ensures Inv(FRESH)
  {
  }

  // ----- overlaps

  /**
   Handle `h` lost its row at step `k`, to more than the TTL of silence or to another handle's
   release under its holder id.
   */
  predicate LostToOthers(leases: seq<Leases.Step>, h: nat, k: nat) {
    Leases.LossAt(leases, h, k) && leases[k] != Leases.Release(h)
  }

  /**
   Over every joint run: two deliveries of one task have their leases at once only if the one
   whose lease was granted first lost its row, to more than 60 seconds without a renewal
   followed by a takeover, or to another delivery's release under the same holder id.
   */
  lemma OverlapMeansLostLease(steps: seq<JointStep>, a: nat, b: nat)
    requires
      var s := Deliveries(JointRun(steps));
      && a < |s.attempts| && b < |s.attempts| && a != b
      && HasLease(s.attempts[a]) && HasLease(s.attempts[b]) && s.attempts[a].task == s.attempts[b].task
    ensures
      var j := JointRun(steps);
      && a in j.handle && b in j.handle && j.handle[a] != j.handle[b]
      && var first := if j.handle[a] < j.handle[b] then j.handle[a] else j.handle[b];
         exists k: nat :: LostToOthers(j.leases, first, k)
  {
    var j := JointRun(steps);
    EveryRunKeepsHandles(steps);
    assert HandleOf(j, a) && HandleOf(j, b);
    hide JointRun, After, Leases.After, Leases.LossAt;
    var h, g := j.handle[a], j.handle[b];
    Leases.EarlierHandleWasLost(j.leases, if h < g then h else g, if h < g then g else h);
    var k :| 0 <= k < |j.leases| && Leases.LossAt(j.leases, if h < g then h else g, k);
    assert LostToOthers(j.leases, if h < g then h else g, k);
  }
}
