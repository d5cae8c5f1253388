/** What every run of the remediation protocol guarantees, from an empty ledger and any target catalog. */
module ProtocolTheorems {
  import opened Prelude
  import opened RecipeRenderer
  import opened SqlOperator
  import opened Ledger
  import opened Protocol

  function After(c: Catalog, steps: seq<Step>): Sys {
    Run(Init(c), steps)
  }

  lemma Reachable(c: Catalog, steps: seq<Step>)
    ensures Inv(After(c, steps))
  {
    InitOk(c);
    RunOk(Init(c), steps);
  }

  // ----- one of each per key

  /**
   Actions, approvals and gate decisions stay in one-to-one correspondence: a key that
   has passed the gate has exactly one of each, and any other key has none.
   */
  lemma OneOfEachPerKey(c: Catalog, steps: seq<Step>, k: Key)
    ensures
      var t := After(c, steps).db;
      && OneToOne(t)
      && match FindAction(t.actions, k)
         case None => forall p | 0 <= p < |t.approvals| :: t.actions[t.approvals[p].action].key != k
         case Some(i) =>
           && (forall j | 0 <= j < |t.actions| :: t.actions[j].key == k <==> j == i)
           && (forall p | 0 <= p < |t.approvals| :: t.approvals[p].action == i <==> p == i)
           && GateDecisions(t.decisions)[i] == GateDecision(t.actions[i].task, k.proposal)
  {
    Reachable(c, steps);
    hide Run, SqlOf, Settled, GateDecisions;
    var t := After(c, steps).db;
    assert OneToOne(t);
  }

  /** The branch that repairs an action without an approval is never taken. */
  lemma MissingApprovalNeverFound(c: Catalog, steps: seq<Step>, k: Key)
    ensures
      var t := After(c, steps).db;
      FindAction(t.actions, k).Some? ==>
        FindApproval(t.approvals, FindAction(t.actions, k).value) == FindAction(t.actions, k)
  {
    Reachable(c, steps);
    hide Run, SqlOf, Settled, GateDecisions;
    var t := After(c, steps).db;
    assert OneToOne(t);
    var found := FindAction(t.actions, k);
    if found.Some? {
      assert t.approvals[found.value].action == found.value;
    }
  }

  // ----- verdicts

  predicate Leaves(s: Sys, t: Sys, i: nat) {
    i < |s.db.approvals| && i < |t.db.approvals| && s.db.approvals[i].verdict != t.db.approvals[i].verdict
  }

  /** How many steps of a run change the verdict of approval `i`. */
  function Departures(s: Sys, steps: seq<Step>, i: nat): nat
    decreases |steps|
  {
    if |steps| == 0 then 0
    else (if Leaves(s, Exec(s, steps[0]), i) then 1 else 0) + Departures(Exec(s, steps[0]), steps[1..], i)
  }

  predicate PendingAt(s: Sys, i: nat) {
    i < |s.db.approvals| && s.db.approvals[i].verdict == Pending
  }

  predicate DecidedAt(s: Sys, i: nat) {
    i < |s.db.approvals| && s.db.approvals[i].verdict != Pending
  }

  /** What one forward move may do to the verdict of approval `i`. */
  lemma VerdictMoves(s: Sys, t: Sys, i: nat)
    requires Later(s, t)
    ensures DecidedAt(s, i) ==> DecidedAt(t, i) && !Leaves(s, t, i)
    ensures PendingAt(s, i) ==> (Leaves(s, t, i) <==> DecidedAt(t, i)) && (PendingAt(t, i) || DecidedAt(t, i))
    ensures Leaves(s, t, i) ==> PendingAt(s, i)
  {
    if i < |s.db.approvals| {
      assert VerdictLater(s.db.approvals[i], t.db.approvals[i]);
    }
  }

  /** An approval leaves 'pending' at most once, whoever decides it. */
  lemma {:induction false} VerdictGivenOnce(s: Sys, steps: seq<Step>, i: nat)
    requires Inv(s)
    ensures Departures(s, steps, i) <= 1
    ensures PendingAt(s, i) ==> (Departures(s, steps, i) == 1 <==> DecidedAt(Run(s, steps), i))
    ensures DecidedAt(s, i) ==> Departures(s, steps, i) == 0 && DecidedAt(Run(s, steps), i)
    decreases |steps|
  {
    hide Inv, Later, Exec, Leaves, PendingAt, DecidedAt;
    if |steps| > 0 {
      var t := Exec(s, steps[0]);
      StepOk(s, steps[0]);
      VerdictMoves(s, t, i);
      VerdictGivenOnce(t, steps[1..], i);
    } else {
      Exclusive(s, i);
    }
  }

  lemma Exclusive(s: Sys, i: nat)
    ensures !(PendingAt(s, i) && DecidedAt(s, i))
  {
  }

  // ----- who gave a verdict

  /** One of the steps is this decision of this person on approval `i`. */
  predicate DecidedBy(steps: seq<Step>, i: nat, approve: bool, who: string, comment: Option<string>) {
    Decide(i, approve, who, comment) in steps
  }

  /** One of the steps is an attempt's own expiry of what it polls. */
  predicate TimedOut(steps: seq<Step>) {
    exists k | 0 <= k < |steps| :: steps[k].TimeOut?
  }

  /** The row of approval `i` is what some step of the run made it. */
  predicate HasItsStep(row: Approval, i: nat, steps: seq<Step>) {
    match row.verdict
    case Pending => row.decidedBy.None? && row.comment.None?
    case Approved => row.decidedBy.Some? && DecidedBy(steps, i, true, row.decidedBy.value, row.comment)
    case Rejected => row.decidedBy.Some? && DecidedBy(steps, i, false, row.decidedBy.value, row.comment)
    case Expired => row.decidedBy == Some("system:gate_timeout") && row.comment.None? && TimedOut(steps)
  }

  lemma RowAfterStep(s: Sys, step: Step, front: seq<Step>, i: nat)
    requires i < |Exec(s, step).db.approvals|
    requires i < |s.db.approvals| ==> HasItsStep(s.db.approvals[i], i, front)
    ensures HasItsStep(Exec(s, step).db.approvals[i], i, front + [step])
  {
    hide Render, ExecuteSql, SearchForbidden;
    var steps, t := front + [step], Exec(s, step);
    assert steps[|front|] == step;
    assert forall k | 0 <= k < |front| :: steps[k] == front[k];
    if i < |s.db.approvals| && t.db.approvals[i] == s.db.approvals[i] {
      assert TimedOut(front) ==> TimedOut(steps);
    }
  }

  /** Every verdict of a run was given by a step of it: a person's decision, or the expiry of a waiting attempt. */
  lemma {:induction false} VerdictHasItsStep(c: Catalog, steps: seq<Step>, i: nat)
    requires i < |After(c, steps).db.approvals|
    ensures HasItsStep(After(c, steps).db.approvals[i], i, steps)
    decreases |steps|
  {
    if |steps| > 0 {
      var front, last := steps[..|steps| - 1], steps[|steps| - 1];
      assert steps == front + [last];
      hide Exec, HasItsStep;
      RunConcat(Init(c), front, [last]);
      assert [last][1..] == [];
      assert Run(After(c, front), [last]) == Run(Exec(After(c, front), last), []);
      if i < |After(c, front).db.approvals| {
        VerdictHasItsStep(c, front, i);
      }
      RowAfterStep(After(c, front), last, front, i);
    }
  }

  /** Nothing reaches the target that no person of the run approved. */
  lemma NothingRunsUnapproved(c: Catalog, steps: seq<Step>, i: nat)
    requires i in After(c, steps).executed
    ensures exists who, comment :: DecidedBy(steps, i, true, who, comment)
  {
    EffectIsExactlyOnce(c, steps);
    FirstTimesFacts(After(c, steps).executed);
    VerdictHasItsStep(c, steps, i);
    hide Run;
    var row := After(c, steps).db.approvals[i];
    assert DecidedBy(steps, i, true, row.decidedBy.value, row.comment);
  }

  /**
   At any two moments of a run: an action whose approval is ever refused is never applied
   and never reaches the target, and one whose approval is ever approved is never skipped.
   */
  lemma VerdictsBindActions(c: Catalog, earlier: seq<Step>, later: seq<Step>, i: nat)
    requires i < |After(c, earlier).db.actions|
    ensures
      var s, t := After(c, earlier), Run(After(c, earlier), later);
      && i < |s.db.approvals| && i < |t.db.approvals| && i < |t.db.actions|
      && (Refusal(s.db.approvals[i].verdict) ==> t.db.actions[i].status != Applied && i !in t.executed)
      && (Refusal(t.db.approvals[i].verdict) ==> s.db.actions[i].status != Applied && i !in s.executed)
      && (s.db.approvals[i].verdict == Approved ==> t.db.actions[i].status != Skipped)
      && (t.db.approvals[i].verdict == Approved ==> s.db.actions[i].status != Skipped)
  {
    var s, t := After(c, earlier), Run(After(c, earlier), later);
    Reachable(c, earlier);
    RunOk(s, later);
    hide Run, Settled, GateDecisions, SqlOf;
    assert ActionOk(s.db, s.target, i) && RowLater(s.db.actions[i], t.db.actions[i]);
    assert ActionOk(t.db, t.target, i) && VerdictLater(s.db.approvals[i], t.db.approvals[i]);
  }

  /** The verdict an attempt is acting on is the one its approval has in every later state. */
  lemma GateActsOnFinalVerdict(c: Catalog, steps: seq<Step>, later: seq<Step>, a: nat)
    requires a < |After(c, steps).attempts|
    ensures
      var st, rows := After(c, steps).attempts[a].stage, Run(After(c, steps), later).db.approvals;
      && (st.Refused? || st.Closing? ==> st.approval < |rows| && rows[st.approval].verdict == st.verdict != Approved)
      && (st.Granted? || st.Recorded? || st.Changed? ==> st.action < |rows| && rows[st.action].verdict == Approved)
  {
    var s := After(c, steps);
    Reachable(c, steps);
    RunOk(s, later);
    hide Run, Settled, GateDecisions, SqlOf;
    var t := Run(s, later);
    assert AttemptOk(s.db, s.target, s.attempts[a]);
    AttemptStays(s.db, s.target, t.db, t.target, s.attempts[a]);
  }

  /** A human decision that beats the gate's expiry is the one the gate reads back and acts on. */
  lemma LostExpiryHonoursTheHuman(s: Sys, a: nat, approve: bool, who: string, comment: Option<string>)
    requires a < |s.attempts| && s.attempts[a].stage.Polling? && PendingAt(s, s.attempts[a].stage.approval)
    ensures
      var st := s.attempts[a].stage;
      var t := Run(s, [Decide(st.approval, approve, who, comment), TimeOut(a), Poll(a)]);
      && a < |t.attempts| && st.approval < |t.db.approvals|
      && t.db.approvals[st.approval].verdict == (if approve then Approved else Rejected)
      && t.db.approvals[st.approval].decidedBy == Some(who)
      && t.attempts[a].stage == if approve then Granted(st.proposal, st.sql, st.action)
                                else Refused(st.proposal, st.sql, st.action, st.approval, Rejected)
  {
    var st := s.attempts[a].stage;
    var decide, expire, poll := Decide(st.approval, approve, who, comment), TimeOut(a), Poll(a);
    Run3(s, decide, expire, poll);
    var t := Exec(s, decide);
    assert t.attempts == s.attempts;
    assert Exec(t, expire) == t;
  }

  lemma Run3(s: Sys, x: Step, y: Step, z: Step)
    ensures Run(s, [x, y, z]) == Exec(Exec(Exec(s, x), y), z)
  {
    hide Exec;
    assert [x, y, z][1..] == [y, z] && [y, z][1..] == [z] && [z][1..] == [];
    var s1 := Exec(s, x);
    var s2 := Exec(s1, y);
    assert Run(s2, [z]) == Run(Exec(s2, z), []) == Exec(s2, z);
    assert Run(s1, [y, z]) == Run(s2, [z]);
  }

  // ----- the target

  /** The target after running the SQL of each listed action in turn. */
  function ExecuteAll(c: Catalog, actions: seq<Action>, ids: seq<nat>): Catalog {
    if |ids| == 0 then c
    else
      var before := ExecuteAll(c, actions, ids[..|ids| - 1]);
      if ids[|ids| - 1] < |actions| then ExecuteSql(before, actions[ids[|ids| - 1]].sql) else before
  }

  /** Each action once, in the order of its first execution. */
  function FirstTimes(ids: seq<nat>): seq<nat> {
    if |ids| == 0 then []
    else
      var rest, last := FirstTimes(ids[..|ids| - 1]), ids[|ids| - 1];
      if last in rest then rest else rest + [last]
  }

  lemma {:induction false} ExecuteAllStays(c: Catalog, xs: seq<Action>, ys: seq<Action>, ids: seq<nat>)
    requires |xs| <= |ys| && forall i | 0 <= i < |xs| :: RowLater(xs[i], ys[i])
    requires forall k | 0 <= k < |ids| :: ids[k] < |xs|
    ensures ExecuteAll(c, xs, ids) == ExecuteAll(c, ys, ids)
  {
    hide ExecuteSql;
    if |ids| > 0 {
      ExecuteAllStays(c, xs, ys, ids[..|ids| - 1]);
      assert RowLater(xs[ids[|ids| - 1]], ys[ids[|ids| - 1]]);
    }
  }

  /** The target is the starting catalog with the logged executions applied. */
  predicate TargetIs(c: Catalog, s: Sys) {
    s.target == ExecuteAll(c, s.db.actions, s.executed)
  }

  lemma OnlyApplyTouchesTarget(s: Sys, step: Step)
    requires !step.ApplyChange?
    ensures Exec(s, step).target == s.target && Exec(s, step).executed == s.executed
  {
    hide Render, GateTxn, DecideTxn, SkipTxn, ActTxn, OutcomeTxn, EpisodeTxn;
  }

  lemma ApplyTouches(s: Sys, a: nat)
    ensures
      var t := Exec(s, ApplyChange(a));
      && t.db == s.db
      && ((t.target == s.target && t.executed == s.executed)
          || (&& a < |s.attempts| && s.attempts[a].stage.Recorded?
              && t.target == ExecuteSql(s.target, s.attempts[a].stage.sql)
              && t.executed == s.executed + [s.attempts[a].stage.action]))
  {
    hide ExecuteSql, SearchForbidden;
  }

  lemma TargetStep(c: Catalog, s: Sys, step: Step)
    requires Inv(s) && TargetIs(c, s)
    ensures TargetIs(c, Exec(s, step))
  {
    var t := Exec(s, step);
    StepOk(s, step);
    ExecutedInRange(s);
    if step.ApplyChange? {
      ApplyTouches(s, step.a);
      hide Exec, Inv, Later, ExecuteSql;
      if t.executed != s.executed {
        RecordedRow(s, step.a);
        assert t.executed[..|s.executed|] == s.executed;
      }
    } else {
      OnlyApplyTouchesTarget(s, step);
      hide Exec, Inv, ExecuteSql;
      ExecuteAllStays(c, s.db.actions, t.db.actions, s.executed);
    }
  }

  lemma ExecutedInRange(s: Sys)
    requires Inv(s)
    ensures forall k | 0 <= k < |s.executed| :: s.executed[k] < |s.db.actions|
  {
    hide LedgerOk, Settled, AttemptOk;
  }

  lemma RecordedRow(s: Sys, a: nat)
    requires Inv(s) && a < |s.attempts| && s.attempts[a].stage.Recorded?
    ensures
      var st := s.attempts[a].stage;
      st.action < |s.db.actions| && s.db.actions[st.action].sql == st.sql
  {
    hide LedgerOk, Settled;
    assert AttemptOk(s.db, s.target, s.attempts[a]);
  }

  lemma {:induction false} TargetRun(c: Catalog, s: Sys, steps: seq<Step>)
    requires Inv(s) && TargetIs(c, s)
    ensures TargetIs(c, Run(s, steps))
    decreases |steps|
  {
    hide Inv, Later, Exec, TargetIs;
    if |steps| > 0 {
      StepOk(s, steps[0]);
      TargetStep(c, s, steps[0]);
      TargetRun(c, Exec(s, steps[0]), steps[1..]);
    }
  }

  lemma {:induction false} ExecuteAllSettles(c: Catalog, actions: seq<Action>, ids: seq<nat>, i: nat)
    requires i in ids && i < |actions|
    ensures Settled(ExecuteAll(c, actions, ids), actions[i].sql)
  {
    var front, last := ids[..|ids| - 1], ids[|ids| - 1];
    var before := ExecuteAll(c, actions, front);
    hide ExecuteSql, Settled, Extends, ExecuteAll;
    assert ids == front + [last];
    ExecuteAllLast(c, actions, ids);
    if last < |actions| {
      ExecuteSettles(before, actions[last].sql);
    } else {
      ExtendsSelf(before);
    }
    if i != last {
      ExecuteAllSettles(c, actions, front, i);
      SettledStays(before, ExecuteAll(c, actions, ids), actions[i].sql);
    }
  }

  lemma ExecuteAllLast(c: Catalog, actions: seq<Action>, ids: seq<nat>)
    requires |ids| > 0
    ensures
      var before := ExecuteAll(c, actions, ids[..|ids| - 1]);
      ExecuteAll(c, actions, ids) ==
        if ids[|ids| - 1] < |actions| then ExecuteSql(before, actions[ids[|ids| - 1]].sql) else before
  {
  }

  lemma {:induction false} FirstTimesFacts(ids: seq<nat>)
    ensures forall i :: i in FirstTimes(ids) <==> i in ids
    ensures forall j, k | 0 <= j < k < |FirstTimes(ids)| :: FirstTimes(ids)[j] != FirstTimes(ids)[k]
  {
    if |ids| > 0 {
      FirstTimesFacts(ids[..|ids| - 1]);
      assert ids == ids[..|ids| - 1] + [ids[|ids| - 1]];
    }
  }

  /** Running some actions again changes nothing: the effect is that of running each once. */
  lemma {:induction false} RepeatsAreNoOps(c: Catalog, actions: seq<Action>, ids: seq<nat>)
    requires forall k | 0 <= k < |ids| :: ids[k] < |actions|
    ensures ExecuteAll(c, actions, ids) == ExecuteAll(c, actions, FirstTimes(ids))
  {
    if |ids| > 0 {
      var front, last := ids[..|ids| - 1], ids[|ids| - 1];
      RepeatsAreNoOps(c, actions, front);
      FirstTimesFacts(front);
      var firsts := FirstTimes(front);
      hide ExecuteSql, ExecuteAll;
      ExecuteAllLast(c, actions, ids);
      if last in firsts {
        ExecuteAllSettles(c, actions, firsts, last);
      } else {
        assert (firsts + [last])[..|firsts|] == firsts;
        ExecuteAllLast(c, actions, firsts + [last]);
      }
    }
  }

  /**
   Exactly-once effect: over every interleaving, crash and redelivery the target is what
   running each applied change once, in the order of first application, makes of the
   starting catalog; and each of those changes was approved and recorded as applied.
   */
  lemma EffectIsExactlyOnce(c: Catalog, steps: seq<Step>)
    ensures
      var s := After(c, steps);
      var once := FirstTimes(s.executed);
      && (forall j, k | 0 <= j < k < |once| :: once[j] != once[k])
      && (forall i :: i in once <==> i in s.executed)
      && (forall i | i in once ::
            && i < |s.db.actions| && s.db.actions[i].status == Applied
            && i < |s.db.approvals| && s.db.approvals[i].verdict == Approved)
      && s.target == ExecuteAll(c, s.db.actions, once)
  {
    var s := After(c, steps);
    InitOk(c);
    TargetRun(c, Init(c), steps);
    Reachable(c, steps);
    ExecutedInRange(s);
    RepeatsAreNoOps(c, s.db.actions, s.executed);
    FirstTimesFacts(s.executed);
    hide Run, Settled, GateDecisions, SqlOf, ExecuteAll, FirstTimes;
    forall i | i in FirstTimes(s.executed)
      ensures i < |s.db.actions| && s.db.actions[i].status == Applied
      ensures i < |s.db.approvals| && s.db.approvals[i].verdict == Approved
    {
      var k :| 0 <= k < |s.executed| && s.executed[k] == i;
      assert ActionOk(s.db, s.target, i);
    }
  }

  /** Once a key's SQL has run, running it again at any later moment leaves the target as it is. */
  lemma ReapplyChangesNothing(c: Catalog, steps: seq<Step>, later: seq<Step>, i: nat)
    requires i in After(c, steps).executed
    ensures
      var t := Run(After(c, steps), later);
      i < |t.db.actions| && ExecuteSql(t.target, t.db.actions[i].sql) == t.target
  {
    var s := After(c, steps);
    Reachable(c, steps);
    RunOk(s, later);
    var t := Run(s, later);
    hide Run, ExecuteSql, LedgerOk, AttemptOk;
    var k :| 0 <= k < |s.executed| && s.executed[k] == i;
    assert t.executed[k] == i;
  }

  // ----- recovery

  /** The gate finds the existing rows of a key that already passed it. */
  lemma GateReconciles(s: Sys, task: nat, k: Key, sql: string, i: nat)
    requires Inv(s) && i < |s.db.actions| && s.db.actions[i].key == k
    ensures GateTxn(s.db, task, k, sql) == GateRows(s.db, None, i, i)
  {
    hide AttemptOk, ExecutedOk, SqlOf, Settled, GateDecisions;
    assert OneToOne(s.db);
    var found := FindAction(s.db.actions, k);
    assert found == Some(i);
    assert s.db.approvals[i].action == i;
  }

  /** The columns the gate was shown, if any, include those of the proposal. */
  predicate SchemaAllows(p: Proposal, known: Option<set<string>>) {
    var st := StatementOf(p.kind, p.params, SCHEMA);
    st.Some? ==> SchemaAgrees(st.value, known)
  }

  lemma RowRenders(s: Sys, i: nat, p: Proposal, known: Option<set<string>>)
    requires Inv(s) && i < |s.db.actions| && s.db.actions[i].key.proposal == p
    requires SchemaAllows(p, known)
    ensures Render(p.kind, p.params, SCHEMA, known) == Ok(Rendered(s.db.actions[i].sql, known.Some?))
    ensures !SearchForbidden(s.db.actions[i].sql)
  {
    hide AttemptOk, ExecutedOk, Settled, GateDecisions, Render, SearchForbidden, Print;
    assert ActionOk(s.db, s.target, i);
    RenderSucceedsIff(p.kind, p.params, SCHEMA, known);
    CleanStatement(StatementOf(p.kind, p.params, SCHEMA).value);
  }

  /** Two steps take an attempt through the gate of a change that already has its verdict. */
  lemma PassesDecidedGate(s: Sys, i: nat, a: nat, p: Proposal, known: Option<set<string>>)
    requires Inv(s) && i < |s.db.actions| && DecidedAt(s, i)
    requires a < |s.attempts| && s.attempts[a].stage == AtGate(p) && s.db.actions[i].key == KeyOf(s.attempts[a], p)
    requires SchemaAllows(p, known)
    ensures
      var st := if s.db.approvals[i].verdict == Approved then Granted(p, s.db.actions[i].sql, i)
                else Refused(p, s.db.actions[i].sql, i, i, s.db.approvals[i].verdict);
      Exec(Exec(s, OpenGate(a, known)), Poll(a)) == Goto(s, a, st)
  {
    RowRenders(s, i, p, known);
    GateReconciles(s, s.attempts[a].task, KeyOf(s.attempts[a], p), s.db.actions[i].sql, i);
    hide Inv, Render, GateTxn, SchemaAllows, SearchForbidden;
    assert Exec(s, OpenGate(a, known)) == Goto(s, a, Polling(p, s.db.actions[i].sql, i, i));
  }

  /**
   A verdict belongs to the change, not to the incident: an attempt of any task that
   proposes a decided change adds no row and gets the old verdict at its first poll.
   */
  lemma VerdictIsReused(c: Catalog, steps: seq<Step>, i: nat, a: nat, p: Proposal, known: Option<set<string>>)
    requires
      var s := After(c, steps);
      && i < |s.db.actions| && DecidedAt(s, i)
      && a < |s.attempts| && s.attempts[a].stage == AtGate(p) && s.db.actions[i].key == KeyOf(s.attempts[a], p)
      && SchemaAllows(p, known)
    ensures
      var s, t := After(c, steps), Exec(Exec(After(c, steps), OpenGate(a, known)), Poll(a));
      && t.db == s.db && a < |t.attempts|
      && t.attempts[a].stage ==
           if s.db.approvals[i].verdict == Approved then Granted(p, s.db.actions[i].sql, i)
           else Refused(p, s.db.actions[i].sql, i, i, s.db.approvals[i].verdict)
  {
    Reachable(c, steps);
    hide Run, Inv, Exec, SchemaAllows;
    PassesDecidedGate(After(c, steps), i, a, p, known);
  }

  /** The rest of a run once the gate has granted: the three steps of `act_measure`. */
  lemma GrantedRunsToTheEnd(s: Sys, a: nat, before: real, after: real)
    requires a < |s.attempts| && s.attempts[a].stage.Granted? && !SearchForbidden(s.attempts[a].stage.sql)
    ensures
      var st := s.attempts[a].stage;
      var t := Exec(Exec(Exec(s, RecordAct(a, before)), ApplyChange(a)), RecordOutcome(a, after));
      && t.target == ExecuteSql(s.target, st.sql)
      && t.executed == s.executed + [st.action]
      && t.db == OutcomeTxn(ActTxn(s.db, s.attempts[a].task, st.action, before), s.attempts[a].task, st.action,
                            OutcomeOf(before, after), after)
  {
    hide SearchForbidden, ExecuteSql, ActTxn, OutcomeTxn;
    var st := s.attempts[a].stage;
    var s1 := Exec(s, RecordAct(a, before));
    assert s1.attempts[a].stage == Recorded(st.proposal, st.sql, st.action, before);
    var s2 := Exec(s1, ApplyChange(a));
    assert s2.attempts[a].stage == Changed(st.proposal, st.sql, st.action, before);
  }

  function Redelivery(a: nat, task: nat, k: Key, known: Option<set<string>>, before: real, after: real): seq<Step> {
    [Begin(task, k.cluster), Propose(a, k.proposal), OpenGate(a, known), Poll(a),
     RecordAct(a, before), ApplyChange(a), RecordOutcome(a, after)]
  }

  lemma Run4(s: Sys, x: Step, y: Step, z: Step, w: Step)
    ensures Run(s, [x, y, z, w]) == Exec(Exec(Exec(Exec(s, x), y), z), w)
  {
    hide Exec;
    assert [x, y, z, w][1..] == [y, z, w];
    Run3(Exec(s, x), y, z, w);
  }

  lemma BeginAndPropose(s: Sys, task: nat, k: Key)
    requires Inv(s)
    ensures
      var u := Exec(Exec(s, Begin(task, k.cluster)), Propose(|s.attempts|, k.proposal));
      u == s.(attempts := s.attempts + [Attempt(task, k.cluster, 0, AtGate(k.proposal))]) && Inv(u)
  {
    var begin, propose := Begin(task, k.cluster), Propose(|s.attempts|, k.proposal);
    StepOk(s, begin);
    StepOk(Exec(s, begin), propose);
    hide Inv, Later;
  }

  /** A fresh delivery of an approved change walks through the gate without writing. */
  lemma RedeliveryIsGranted(s: Sys, i: nat, task: nat, known: Option<set<string>>)
    requires Inv(s) && i < |s.db.actions| && i < |s.db.approvals| && s.db.approvals[i].verdict == Approved
    requires SchemaAllows(s.db.actions[i].key.proposal, known)
    ensures
      var k, a := s.db.actions[i].key, |s.attempts|;
      var t := Run(s, [Begin(task, k.cluster), Propose(a, k.proposal), OpenGate(a, known), Poll(a)]);
      && t.db == s.db && t.target == s.target && t.executed == s.executed
      && |t.attempts| == a + 1
        && t.attempts[a] == Attempt(task, k.cluster, 0, Granted(k.proposal, s.db.actions[i].sql, i))
      && !SearchForbidden(s.db.actions[i].sql)
  {
    var k, a := s.db.actions[i].key, |s.attempts|;
    var begin, propose := Begin(task, k.cluster), Propose(a, k.proposal);
    Run4(s, begin, propose, OpenGate(a, known), Poll(a));
    BeginAndPropose(s, task, k);
    RowRenders(s, i, k.proposal, known);
    hide Inv, Later, Run, Exec, SearchForbidden, Render, ValidStatement, HasKeyword, StatementOf, Print, SchemaAllows;
    PassesDecidedGate(Exec(Exec(s, begin), propose), i, a, k.proposal, known);
  }

  lemma TwoTxns(t: Tables, task: nat, i: nat, before: real, outcome: Outcome, after: real)
    requires i < |t.actions|
    ensures
      var u := OutcomeTxn(ActTxn(t, task, i, before), task, i, outcome, after);
      && u.approvals == t.approvals && |u.actions| == |t.actions|
      && GateDecisions(u.decisions) == GateDecisions(t.decisions)
      && (forall j | 0 <= j < |t.actions| && j != i :: u.actions[j] == t.actions[j])
      && u.actions[i] ==
           t.actions[i].(status := Applied, before := Some(before), outcome := Some(outcome), after := Some(after))
  {
    var d := t.decisions + [ActDecision(task, i)];
    assert d[..|t.decisions|] == t.decisions;
  }

  /**
   From any reachable state, however many attempts crashed and wherever, one undisturbed
   redelivery that proposes an approved change again, and whose probe still shows the change's
   columns, finishes it: its row is applied with an outcome, its SQL has nothing left to do on
   the target, and no other row of the ledger is touched.
   */
  lemma RedeliveryFinishes(c: Catalog, steps: seq<Step>, i: nat, task: nat, known: Option<set<string>>, before: real,
                           after: real)
    requires
      var s := After(c, steps);
      && i < |s.db.actions| && i < |s.db.approvals| && s.db.approvals[i].verdict == Approved
      && SchemaAllows(s.db.actions[i].key.proposal, known)
    ensures
      var s := After(c, steps);
      var t := Run(s, Redelivery(|s.attempts|, task, s.db.actions[i].key, known, before, after));
      && |t.db.actions| == |s.db.actions| && t.db.approvals == s.db.approvals
      && GateDecisions(t.db.decisions) == GateDecisions(s.db.decisions)
      && (forall j | 0 <= j < |s.db.actions| && j != i :: t.db.actions[j] == s.db.actions[j])
      && t.db.actions[i] == s.db.actions[i].(status := Applied, before := Some(before),
                              outcome := Some(if after < before then Success else Failure), after := Some(after))
      && t.target == ExecuteSql(s.target, s.db.actions[i].sql)
      && Settled(t.target, s.db.actions[i].sql)
      && (i in s.executed ==> t.target == s.target)
  {
    var s := After(c, steps);
    var k, a := s.db.actions[i].key, |s.attempts|;
    Reachable(c, steps);
    RedeliveryIsGranted(s, i, task, known);
    var opening := [Begin(task, k.cluster), Propose(a, k.proposal), OpenGate(a, known), Poll(a)];
    var ending := [RecordAct(a, before), ApplyChange(a), RecordOutcome(a, after)];
    assert Redelivery(a, task, k, known, before, after) == opening + ending;
    RunConcat(s, opening, ending);
    var u := Run(s, opening);
    Run3(u, ending[0], ending[1], ending[2]);
    GrantedRunsToTheEnd(u, a, before, after);
    TwoTxns(s.db, task, i, before, OutcomeOf(before, after), after);
    ExecuteSettles(s.target, s.db.actions[i].sql);
    if i in s.executed {
      ReapplyChangesNothing(c, steps, [], i);
    }
  }
}
