/**
 The two nodes that remediate, as they run: `gate` (agent/nodes/gate.py) and `act_measure`
 (agent/nodes/act_measure.py) issue transactions on a shared database and target while
 other attempts and people act between any two of them. Each method is proved to be a run
 of the protocol, so everything known of runs holds of it.
 */
module Remediator {
  import opened Prelude
  import opened RecipeRenderer
  import opened SqlOperator
  import opened Ledger
  import opened Protocol
  import opened BackupGate

  type Columns = Option<set<string>>

  datatype GateResult =
    | Unrenderable(reason: RejectReason)
    | Approve(action: nat, sql: string)
    | Replan
    | Done(verdict: Verdict)

  datatype ActResult = Blocked | NoQuery | OperatorRejected | Measured(outcome: Outcome, replan: bool)

  /** A step that another attempt, an operator or the dashboard takes. */
  predicate Foreign(step: Step, a: nat) {
    match step
    case Begin(_, _) => true
    case Resume(_) => true
    case Decide(_, _, _, _) => true
    case _ => step.a != a
  }

  predicate AllForeign(steps: seq<Step>, a: nat) {
    forall i | 0 <= i < |steps| :: Foreign(steps[i], a)
  }

  lemma {:induction false} ForeignKeepsAttempt(s: Sys, steps: seq<Step>, a: nat)
    requires a < |s.attempts| && AllForeign(steps, a)
    ensures a < |Run(s, steps).attempts| && Run(s, steps).attempts[a] == s.attempts[a]
    decreases |steps|
  {
    if |steps| > 0 {
      ForeignStep(s, steps[0], a);
      ForeignKeepsAttempt(Exec(s, steps[0]), steps[1..], a);
    }
  }

  lemma ForeignStep(s: Sys, step: Step, a: nat)
    requires a < |s.attempts| && Foreign(step, a)
    ensures a < |Exec(s, step).attempts| && Exec(s, step).attempts[a] == s.attempts[a]
  {
    hide Render, GateTxn, DecideTxn, SkipTxn, ActTxn, OutcomeTxn, EpisodeTxn, ExecuteSql, SearchForbidden;
  }

  lemma RunOne(s: Sys, step: Step)
    ensures Run(s, [step]) == Exec(s, step)
  {
    hide Exec;
    assert [step][1..] == [];
    assert Run(Exec(s, step), []) == Exec(s, step);
  }

  /** The shared state, and where every attempt stands in it. */
  class World {
    const db: Database
    const operator: Operator
    var executed: seq<nat>
    var attempts: seq<Attempt>
    var saved: seq<Attempt>
    /** The system when the current node began, and every step since. */
    ghost var origin: Sys
    ghost var trace: seq<Step>

    constructor (c: Catalog)
      ensures fresh(db) && fresh(operator) && View() == Init(c)
    {
      db := new Database(EMPTY);
      operator := new Operator(c);
      executed, attempts, saved := [], [], [];
    }

    function View(): Sys
      reads this, db, operator
    {
      Sys(db.View(), operator.catalog, executed, attempts, saved)
    }

    /** The steps taken since `origin` explain the present state. */
    ghost predicate Explained()
      reads this, db, operator
    {
      View() == Run(origin, trace)
    }

    ghost predicate At(a: nat, stage: Stage)
      reads this
    {
      a < |attempts| && attempts[a].stage == stage
    }

    /** Other attempts and people act; nothing else of the model depends on how. */
    method Others(steps: seq<Step>, a: nat)
      requires Explained() && a < |attempts| && AllForeign(steps, a)
      modifies this, db, operator
      ensures Explained() && origin == old(origin) && trace == old(trace) + steps
      ensures View() == Run(old(View()), steps)
      ensures a < |attempts| && attempts[a] == old(attempts[a])
    {
      var next := Run(View(), steps);
      ForeignKeepsAttempt(View(), steps, a);
      RunConcat(origin, trace, steps);
      db.actions, db.approvals := next.db.actions, next.db.approvals;
      db.decisions, db.episodes := next.db.decisions, next.db.episodes;
      operator.catalog := next.target;
      executed, attempts, saved := next.executed, next.attempts, next.saved;
      trace := trace + steps;
    }

    /** The attempt's own step has been carried out on the shared state: log it. */
    ghost method Log(step: Step, s: Sys)
      requires s == Run(origin, trace) && View() == Exec(s, step)
      modifies this`trace
      ensures Explained() && trace == old(trace) + [step]
    {
      RunConcat(origin, trace, [step]);
      RunOne(s, step);
      trace := trace + [step];
    }
  }

  /** Everything a node may rely on: the world is a run from a good state. */
  ghost predicate Sound(w: World)
    reads w, w.db, w.operator
  {
    w.Explained() && Inv(w.origin)
  }

  lemma SoundState(w: World)
    requires Sound(w)
    ensures Inv(w.View()) && Later(w.origin, w.View())
  {
    RunOk(w.origin, w.trace);
  }

  /** `poll_approval`, and what the attempt concludes from it. */
  method PollOnce(w: World, a: nat) returns (verdict: Verdict)
    requires Sound(w) && a < |w.attempts| && w.attempts[a].stage.Polling?
    modifies w
    ensures Sound(w) && w.origin == old(w.origin) && w.trace == old(w.trace) + [Poll(a)]
    ensures w.View() == Exec(old(w.View()), Poll(a))
    ensures
      var st := old(w.attempts[a].stage);
      && a < |w.attempts| && st.approval < |w.db.approvals| && verdict == w.db.approvals[st.approval].verdict
      && w.attempts[a] == Concluded(old(w.attempts[a]), verdict)
  {
    SoundState(w);
    var at := w.attempts[a];
    var st := at.stage;
    ghost var before := w.View();
    assert AttemptOk(before.db, before.target, at);
    var row := w.db.PollApproval(st.approval);
    verdict := row.value.verdict;
    if verdict == Approved {
      w.attempts := w.attempts[a := Concluded(at, Approved)];
    } else if verdict != Pending {
      w.attempts := w.attempts[a := Concluded(at, verdict)];
    }
    hide Inv, Run;
    w.Log(Poll(a), before);
  }

  /** A clock read once per turn of the poll loop, after sleeping at least `interval`. */
  ghost predicate Ticks(clock: nat -> real, interval: real) {
    interval > 0.0 && forall k: nat :: clock(k + 1) >= clock(k) + interval
  }

  /** After that many sleeps of at least `interval` the deadline has passed. */
  function PollBudget(timeout: real, interval: real): int
    requires interval > 0.0
  {
    (timeout / interval).Floor + 1
  }

  lemma WithinBudget(k: nat, timeout: real, interval: real)
    requires interval > 0.0 && k as real * interval < timeout
    ensures k < PollBudget(timeout, interval)
  {
    var q := timeout / interval;
    assert q * interval == timeout;
    if q < k as real {
      assert (k as real - q) * interval > 0.0;
    }
  }

  /** `k` sleeps have moved the clock by at least `k` intervals. */
  predicate Elapsed(clock: nat -> real, interval: real, k: nat) {
    clock(k) >= clock(0) + k as real * interval
  }

  lemma ElapsedNext(clock: nat -> real, interval: real, k: nat)
    requires Ticks(clock, interval) && Elapsed(clock, interval, k)
    ensures Elapsed(clock, interval, k + 1)
  {
    assert (k + 1) as real * interval == k as real * interval + interval;
    assert clock(k + 1) >= clock(k) + interval;
  }

  /** Where a poll that read `verdict` leaves an attempt. */
  function Concluded(at: Attempt, verdict: Verdict): Attempt
    requires at.stage.Polling?
  {
    var st := at.stage;
    at.(stage := match verdict
                 case Pending => st
                 case Approved => Granted(st.proposal, st.sql, st.action)
                 case _ => Refused(st.proposal, st.sql, st.action, st.approval, verdict))
  }

  /** The trace grew, and none of what was added is the gate's own expiry. */
  ghost predicate NoTimeOutSince(mark: seq<Step>, trace: seq<Step>, a: nat) {
    |mark| <= |trace| && forall k | |mark| <= k < |trace| :: trace[k] != TimeOut(a)
  }

  /** The gate's own expiry: a compare-and-set it may lose. */
  method ExpireOnce(w: World, a: nat)
    requires Sound(w) && a < |w.attempts| && w.attempts[a].stage.Polling?
    modifies w, w.db
    ensures Sound(w) && w.origin == old(w.origin) && w.trace == old(w.trace) + [TimeOut(a)]
    ensures a < |w.attempts| && w.attempts[a] == old(w.attempts[a])
    ensures
      var p := w.attempts[a].stage.approval;
      p < |w.db.approvals| && w.db.approvals[p].verdict != Pending
  {
    SoundState(w);
    ghost var before := w.View();
    assert AttemptOk(before.db, before.target, w.attempts[a]);
    hide Inv, Run;
    var won := w.db.DecideApproval(w.attempts[a].stage.approval, "system:gate_timeout", Expired, None);
    w.Log(TimeOut(a), before);
  }

  /** Expire, and read back whatever verdict the row has. */
  method ExpireAndRead(w: World, a: nat, env: nat -> seq<Step>, first: nat) returns (verdict: Verdict)
    requires Sound(w) && a < |w.attempts| && w.attempts[a].stage.Polling?
    requires forall e: nat :: AllForeign(env(e), a)
    modifies w, w.db, w.operator
    ensures Sound(w) && w.origin == old(w.origin) && old(w.trace) <= w.trace && TimeOut(a) in w.trace
    ensures verdict != Pending && a < |w.attempts| && w.attempts[a] == Concluded(old(w.attempts[a]), verdict)
  {
    w.Others(env(first), a);
    ExpireOnce(w, a);
    ghost var mark := w.View();
    SoundState(w);
    RunOk(mark, env(first + 1));
    ghost var p := w.attempts[a].stage.approval;
    ghost var trace := w.trace;
    assert trace[|trace| - 1] == TimeOut(a);
    hide Inv, Run, Exec, AllForeign;
    w.Others(env(first + 1), a);
    assert VerdictLater(mark.db.approvals[p], w.db.approvals[p]);
    assert w.trace[|trace| - 1] == TimeOut(a);
    verdict := PollOnce(w, a);
  }

  /**
   `_poll_until_decided`: returns a verdict that is never 'pending'. The gate itself gives
   up only at its deadline, within a bounded number of polls, and even then reports the
   row's verdict rather than its own attempt to expire it.
   */
  method PollUntilDecided(w: World, a: nat, env: nat -> seq<Step>, first: nat, clock: nat -> real, interval: real,
                          timeout: real)
    returns (verdict: Verdict, next: nat, waited: nat, timedOut: bool)
    requires Sound(w) && a < |w.attempts| && w.attempts[a].stage.Polling?
    requires interval > 0.0 && Ticks(clock, interval) && forall e: nat :: AllForeign(env(e), a)
    modifies w, w.db, w.operator
    ensures Sound(w) && w.origin == old(w.origin) && old(w.trace) <= w.trace
    ensures verdict != Pending && a < |w.attempts| && w.attempts[a] == Concluded(old(w.attempts[a]), verdict)
    ensures !timedOut ==> NoTimeOutSince(old(w.trace), w.trace, a)
    ensures timedOut ==> clock(waited) >= clock(0) + timeout && TimeOut(a) in w.trace
    ensures waited > 0 ==> (waited - 1) as real * interval < timeout
  {
    hide Inv, Run, Exec, AllForeign, PollBudget, Elapsed, Ticks;
    var deadline := clock(0) + timeout;
    var at := w.attempts[a];
    ElapsedZero(clock, interval);
    verdict := PollOnce(w, a);
    next, waited, timedOut := first, 0, false;
    while verdict == Pending && clock(waited) < deadline
      invariant Sound(w) && w.origin == old(w.origin) && old(w.trace) <= w.trace && a < |w.attempts|
      invariant NoTimeOutSince(old(w.trace), w.trace, a)
      invariant w.attempts[a] == Concluded(at, verdict)
      invariant Elapsed(clock, interval, waited)
      invariant waited > 0 ==> (waited - 1) as real * interval < timeout
      decreases PollBudget(timeout, interval) - waited
    {
      SleepsLeft(clock, interval, timeout, waited);
      waited := waited + 1;
      w.Others(env(next), a);
      ForeignHasNoTimeOut(env(next), a);
      verdict := PollOnce(w, a);
      next := next + 1;
    }
    if verdict == Pending {
      verdict := ExpireAndRead(w, a, env, next);
      next, timedOut := next + 2, true;
    }
  }

  lemma ElapsedZero(clock: nat -> real, interval: real)
    ensures Elapsed(clock, interval, 0)
  {
  }

  lemma SleepsLeft(clock: nat -> real, interval: real, timeout: real, k: nat)
    requires Ticks(clock, interval) && Elapsed(clock, interval, k) && clock(k) < clock(0) + timeout
    ensures k < PollBudget(timeout, interval) && Elapsed(clock, interval, k + 1)
    ensures k as real * interval < timeout
  {
    WithinBudget(k, timeout, interval);
    ElapsedNext(clock, interval, k);
  }

  lemma ForeignHasNoTimeOut(steps: seq<Step>, a: nat)
    requires AllForeign(steps, a)
    ensures TimeOut(a) !in steps
  {
  }

  /** The rows of the attempt's change, once its verdict is in. */
  ghost predicate Settles(s: Sys, cluster: string, p: Proposal, action: nat, verdict: Verdict) {
    && action < |s.db.actions| && action < |s.db.approvals|
    && s.db.actions[action].key == Key(cluster, p)
    && s.db.approvals[action].verdict == verdict
    && (verdict == Rejected || verdict == Expired ==>
          s.db.actions[action].status == Skipped && s.db.actions[action].outcome == Some(NotDone))
  }

  lemma SettlesStays(s: Sys, t: Sys, cluster: string, p: Proposal, action: nat, verdict: Verdict)
    requires Settles(s, cluster, p, action, verdict) && verdict != Pending && Later(s, t) && Inv(t)
    ensures Settles(t, cluster, p, action, verdict)
  {
    hide Settled, SqlOf, AttemptOk, GateDecisions, ExecutedOk;
    assert RowLater(s.db.actions[action], t.db.actions[action]);
    assert VerdictLater(s.db.approvals[action], t.db.approvals[action]);
    assert ActionOk(t.db, t.target, action);
  }

  lemma SettlesOnRows(s: Sys, t: Sys, cluster: string, p: Proposal, action: nat, verdict: Verdict)
    requires Settles(s, cluster, p, action, verdict)
    requires t.db.actions == s.db.actions && t.db.approvals == s.db.approvals
    ensures Settles(t, cluster, p, action, verdict)
  {
  }

  /** Render and open the gate: one transaction, or none when the renderer refuses. */
  method OpenGateOnce(w: World, a: nat, known: Columns) returns (rendered: Result<Rendered, RejectReason>)
    requires Sound(w) && a < |w.attempts| && w.attempts[a].stage.AtGate?
    modifies w, w.db
    ensures Sound(w) && w.origin == old(w.origin) && w.trace == old(w.trace) + [OpenGate(a, known)]
    ensures w.View() == Exec(old(w.View()), OpenGate(a, known))
    ensures
      var p := old(w.attempts[a].stage.proposal);
      && rendered == Render(p.kind, p.params, SCHEMA, known)
      && a < |w.attempts|
      && (rendered.Err? ==> w.db.View() == old(w.db.View()) && w.attempts[a] == old(w.attempts[a]).(stage := Stopped))
      && (rendered.Ok? ==>
            var g := GateTxn(old(w.db.View()), old(w.attempts[a].task), KeyOf(old(w.attempts[a]), p),
                rendered.value.sql);
            w.attempts[a] == old(w.attempts[a]).(stage := Polling(p, rendered.value.sql, g.action, g.approval)))
  {
    var at := w.attempts[a];
    var p := at.stage.proposal;
    ghost var before := w.View();
    hide Inv, Run, Render, GateTxn;
    rendered := Render(p.kind, p.params, SCHEMA, known);
    if rendered.Err? {
      w.attempts := w.attempts[a := at.(stage := Stopped)];
    } else {
      var _, action, approval := w.db.InsertGateDecision(at.task, KeyOf(at, p), rendered.value.sql);
      w.attempts := w.attempts[a := at.(stage := Polling(p, rendered.value.sql, action, approval))];
    }
    w.Log(OpenGate(a, known), before);
  }

  /** The refusal path: skip the action, then re-plan on a rejection with budget left, or end with an episode. */
  method Refuse(w: World, a: nat, env: nat -> seq<Step>, first: nat) returns (replan: bool)
    requires Sound(w) && a < |w.attempts| && w.attempts[a].stage.Refused?
    requires forall e: nat :: AllForeign(env(e), a)
    modifies w, w.db, w.operator
    ensures Sound(w) && w.origin == old(w.origin) && old(w.trace) <= w.trace && a < |w.attempts|
    ensures
      var at := old(w.attempts[a]);
      && replan == (at.stage.verdict == Rejected && at.replans < MAX_REPLANS)
      && w.attempts[a] == (if replan then Replanned(at) else at.(stage := Finished))
      && Refusal(at.stage.verdict)
      && Settles(w.View(), at.cluster, at.stage.proposal, at.stage.action, at.stage.verdict)
      && (!replan ==> Episode(at.task, at.stage.action) in w.db.episodes)
  {
    var at := w.attempts[a];
    var st := at.stage;
    hide Inv, Run, Exec, AllForeign, Settles, Later;
    w.Others(env(first), a);
    SkipOnce(w, a);
    SoundState(w);
    ghost var mark := w.View();
    RunOk(mark, env(first + 1));
    w.Others(env(first + 1), a);
    SoundState(w);
    ghost var last := w.View();
    SettlesStays(mark, last, at.cluster, st.proposal, st.action, st.verdict);
    replan := CloseOnce(w, a);
    SettlesOnRows(last, w.View(), at.cluster, st.proposal, st.action, st.verdict);
  }

  method SkipOnce(w: World, a: nat)
    requires Sound(w) && a < |w.attempts| && w.attempts[a].stage.Refused?
    modifies w, w.db
    ensures Sound(w) && w.origin == old(w.origin) && w.trace == old(w.trace) + [RecordSkip(a)]
    ensures
      var at := old(w.attempts[a]);
      var st := at.stage;
      && a < |w.attempts|
      && w.attempts[a] == at.(stage := Closing(st.proposal, st.sql, st.action, st.approval, st.verdict))
      && Refusal(st.verdict) && Settles(w.View(), at.cluster, st.proposal, st.action, st.verdict)
  {
    SoundState(w);
    var at := w.attempts[a];
    var st := at.stage;
    ghost var before := w.View();
    assert AttemptOk(before.db, before.target, at);
    hide Inv, Run;
    w.db.MarkSkipped(st.action);
    w.attempts := w.attempts[a := at.(stage := Closing(st.proposal, st.sql, st.action, st.approval, st.verdict))];
    w.Log(RecordSkip(a), before);
  }

  method CloseOnce(w: World, a: nat) returns (replan: bool)
    requires Sound(w) && a < |w.attempts| && w.attempts[a].stage.Closing?
    modifies w, w.db
    ensures Sound(w) && w.origin == old(w.origin) && w.trace == old(w.trace) + [CloseGate(a)]
    ensures w.db.actions == old(w.db.actions) && w.db.approvals == old(w.db.approvals)
    ensures !replan ==>
      w.db.episodes == old(w.db.episodes) + [Episode(old(w.attempts[a].task), old(w.attempts[a].stage.action))]
    ensures
      var at := old(w.attempts[a]);
      && a < |w.attempts| && replan == (at.stage.verdict == Rejected && at.replans < MAX_REPLANS)
      && w.attempts[a] == if replan then Replanned(at) else at.(stage := Finished)
  {
    var at := w.attempts[a];
    ghost var before := w.View();
    hide Inv, Run;
    replan := at.stage.verdict == Rejected && at.replans < MAX_REPLANS;
    if replan {
      w.attempts := w.attempts[a := Replanned(at)];
    } else {
      w.db.InsertEpisode(at.task, at.stage.action);
      w.attempts := w.attempts[a := at.(stage := Finished)];
    }
    w.Log(CloseGate(a), before);
  }

  /** What the gate concludes on an attempt that stood at `at` with the rendered proposal `p`. */
  ghost predicate Concludes(w: World, a: nat, at: Attempt, p: Proposal, result: GateResult)
    reads w, w.db, w.operator
  {
    a < |w.attempts| &&
    match result
    case Unrenderable(_) => false
    case Approve(action, sql) =>
      && w.attempts[a] == at.(stage := Granted(p, sql, action))
      && Settles(w.View(), at.cluster, p, action, Approved) && w.db.actions[action].sql == sql
    case Replan =>
      && at.replans < 2 && w.attempts[a] == at.(replans := at.replans + 1, stage := Planning)
      && exists action :: Settles(w.View(), at.cluster, p, action, Rejected)
    case Done(verdict) =>
      && (verdict == Expired || (verdict == Rejected && at.replans == 2))
      && w.attempts[a] == at.(stage := Finished)
      && exists action ::
           Settles(w.View(), at.cluster, p, action, verdict) && Episode(at.task, action) in w.db.episodes
  }

  /** The wait for a verdict and what follows it. */
  method Await(w: World, a: nat, env: nat -> seq<Step>, clock: nat -> real, interval: real, timeout: real)
    returns (result: GateResult)
    requires Sound(w) && a < |w.attempts| && w.attempts[a].stage.Polling?
    requires interval > 0.0 && Ticks(clock, interval) && forall e: nat :: AllForeign(env(e), a)
    modifies w, w.db, w.operator
    ensures Sound(w) && w.origin == old(w.origin) && old(w.trace) <= w.trace
    ensures Concludes(w, a, old(w.attempts[a]), old(w.attempts[a].stage.proposal), result)
    ensures result.Approve? ==> result.sql == old(w.attempts[a].stage.sql)
  {
    hide Inv, Run, Exec, AllForeign, Ticks, PollBudget, NoTimeOutSince, Settles;
    var at := w.attempts[a];
    var verdict, next, _, _ := PollUntilDecided(w, a, env, 2, clock, interval, timeout);
    var st := w.attempts[a].stage;
    if verdict == Approved {
      GrantedSettles(w, a, at);
      return Approve(st.action, st.sql);
    }
    BudgetBound(w, a);
    var replan := Refuse(w, a, env, next);
    result := if replan then Replan else Done(verdict);
  }

  /**
   `gate`, while anything else happens: a run of the protocol that ends with exactly one
   verdict on the proposal's row. It grants only an approved change, skips only a refused
   one, re-plans only a rejection with budget left, and raises only when nothing renders.
   */
  method Gate(w: World, a: nat, known: Columns, env: nat -> seq<Step>, clock: nat -> real, interval: real,
              timeout: real)
    returns (result: GateResult)
    requires Sound(w) && a < |w.attempts| && w.attempts[a].stage.AtGate?
    requires interval > 0.0 && Ticks(clock, interval) && forall e: nat :: AllForeign(env(e), a)
    modifies w, w.db, w.operator
    ensures Sound(w) && w.origin == old(w.origin) && old(w.trace) <= w.trace && a < |w.attempts|
    ensures
      var at := old(w.attempts[a]);
      var p := at.stage.proposal;
      if result.Unrenderable? then
        Render(p.kind, p.params, SCHEMA, known) == Err(result.reason) && w.attempts[a] == at.(stage := Stopped)
      else Concludes(w, a, at, p, result)
    ensures result.Approve? ==>
      var p := old(w.attempts[a].stage.proposal);
      Render(p.kind, p.params, SCHEMA, known).Ok? && Render(p.kind, p.params, SCHEMA, known).value.sql == result.sql
  {
    hide Inv, Run, Exec, AllForeign, Ticks, Render, GateTxn, Settles;
    w.Others(env(0), a);
    var rendered := OpenGateOnce(w, a, known);
    if rendered.Err? {
      return Unrenderable(rendered.error);
    }
    w.Others(env(1), a);
    result := Await(w, a, env, clock, interval, timeout);
  }

  lemma GrantedSettles(w: World, a: nat, at: Attempt)
    requires Sound(w) && a < |w.attempts| && w.attempts[a].stage.Granted? && w.attempts[a].cluster == at.cluster
    ensures Settles(w.View(), at.cluster, w.attempts[a].stage.proposal, w.attempts[a].stage.action, Approved)
    ensures w.db.actions[w.attempts[a].stage.action].sql == w.attempts[a].stage.sql
  {
    SoundState(w);
    assert AttemptOk(w.db.View(), w.operator.catalog, w.attempts[a]);
  }

  lemma BudgetBound(w: World, a: nat)
    requires Sound(w) && a < |w.attempts|
    ensures w.attempts[a].replans <= MAX_REPLANS
  {
    SoundState(w);
    assert AttemptOk(w.db.View(), w.operator.catalog, w.attempts[a]);
  }

  // ----- act_measure

  method RecordActOnce(w: World, a: nat, before: real)
    requires Sound(w) && a < |w.attempts| && w.attempts[a].stage.Granted?
    modifies w, w.db
    ensures Sound(w) && w.origin == old(w.origin) && w.trace == old(w.trace) + [RecordAct(a, before)]
    ensures
      var at := old(w.attempts[a]);
      && a < |w.attempts|
      && w.attempts[a] == at.(stage := Recorded(at.stage.proposal, at.stage.sql, at.stage.action, before))
    ensures w.operator.catalog == old(w.operator.catalog)
  {
    var at := w.attempts[a];
    var st := at.stage;
    ghost var now := w.View();
    hide Inv, Run;
    w.db.InsertActDecision(at.task, st.action, before);
    w.attempts := w.attempts[a := at.(stage := Recorded(st.proposal, st.sql, st.action, before))];
    w.Log(RecordAct(a, before), now);
  }

  /** The SQL of a recorded action passes the operator's own check. */
  lemma RecordedIsClean(w: World, a: nat)
    requires Sound(w) && a < |w.attempts| && w.attempts[a].stage.Recorded?
    ensures !SearchForbidden(w.attempts[a].stage.sql)
  {
    SoundState(w);
    var t, at := w.db.View(), w.attempts[a];
    assert AttemptOk(t, w.operator.catalog, at);
    hide Inv, Run, SearchForbidden, Settled, Print, GateDecisions;
    assert LedgerOk(t, w.operator.catalog) by { LedgerOfInv(w.View()); }
    assert ActionOk(t, w.operator.catalog, at.stage.action);
    CleanStatement(StatementOf(at.stage.proposal.kind, at.stage.proposal.params, SCHEMA).value);
  }

  lemma LedgerOfInv(s: Sys)
    requires Inv(s)
    ensures LedgerOk(s.db, s.target)
  {
  }

  method ApplyOnce(w: World, a: nat) returns (accepted: bool)
    requires Sound(w) && a < |w.attempts| && w.attempts[a].stage.Recorded?
    modifies w, w.operator
    ensures Sound(w) && w.origin == old(w.origin) && w.trace == old(w.trace) + [ApplyChange(a)]
    ensures accepted && a < |w.attempts|
    ensures
      var st := old(w.attempts[a].stage);
      && w.attempts[a] == old(w.attempts[a]).(stage := Changed(st.proposal, st.sql, st.action, st.before))
      && w.operator.catalog == ExecuteSql(old(w.operator.catalog), st.sql)
      && w.executed == old(w.executed) + [st.action]
  {
    RecordedIsClean(w, a);
    var at := w.attempts[a];
    var st := at.stage;
    ghost var now := w.View();
    hide Inv, Run, SearchForbidden, ExecuteSql;
    accepted := w.operator.Apply(st.sql);
    w.executed := w.executed + [st.action];
    w.attempts := w.attempts[a := at.(stage := Changed(st.proposal, st.sql, st.action, st.before))];
    w.Log(ApplyChange(a), now);
  }

  method RecordOutcomeOnce(w: World, a: nat, after: real) returns (outcome: Outcome, replan: bool)
    requires Sound(w) && a < |w.attempts| && w.attempts[a].stage.Changed?
    modifies w, w.db
    ensures Sound(w) && w.origin == old(w.origin) && w.trace == old(w.trace) + [RecordOutcome(a, after)]
    ensures w.executed == old(w.executed)
    ensures
      var at := old(w.attempts[a]);
      && a < |w.attempts| && IsOutcome(at.stage.before, after, outcome)
      && replan == (!(after < at.stage.before) && at.replans < MAX_REPLANS)
      && w.attempts[a] == (if replan then Replanned(at) else at.(stage := Finished))
      && Remediated(w.View(), at.task, at.cluster, at.stage.proposal, at.stage.sql, at.stage.action, outcome, after)
  {
    SoundState(w);
    var at := w.attempts[a];
    var st := at.stage;
    ghost var now := w.View();
    assert AttemptOk(now.db, now.target, at);
    hide Inv, Run, Settled;
    outcome := OutcomeOf(st.before, after);
    w.db.InsertOutcomeDecision(at.task, st.action, outcome, after);
    replan := outcome == Failure && at.replans < MAX_REPLANS;
    w.attempts := w.attempts[a := if replan then Replanned(at) else at.(stage := Finished)];
    w.Log(RecordOutcome(a, after), now);
  }

  /** A latency that went down is a success, and one that did not is a failure. */
  predicate IsOutcome(before: real, after: real, outcome: Outcome) {
    if after < before then outcome == Success else outcome == Failure
  }

  /** The change is on the target and its row says so, with the measurement, the decision and the episode recorded. */
  ghost predicate Remediated(s: Sys, task: nat, cluster: string, p: Proposal, sql: string, action: nat,
                             outcome: Outcome, after: real) {
    && action < |s.db.actions| && action < |s.db.approvals|
    && s.db.actions[action].key == Key(cluster, p) && s.db.actions[action].sql == sql
    && s.db.actions[action].status == Applied
    && s.db.actions[action].outcome == Some(outcome) && s.db.actions[action].after == Some(after)
    && s.db.approvals[action].verdict == Approved
    && ActDecision(task, action) in s.db.decisions && Episode(task, action) in s.db.episodes
    && Settled(s.target, sql)
  }

  /** The ledger entry, the change and the measurement, in that order. */
  method Apply(w: World, a: nat, before: real, after: real, env: nat -> seq<Step>) returns (result: ActResult)
    requires Sound(w) && a < |w.attempts| && w.attempts[a].stage.Granted?
    requires forall e: nat :: AllForeign(env(e), a)
    modifies w, w.db, w.operator
    ensures Sound(w) && w.origin == old(w.origin) && old(w.trace) <= w.trace
    ensures result.Measured? && Measures(w, a, old(w.attempts[a]), before, after, result.outcome, result.replan)
  {
    hide Inv, Run, Exec, AllForeign, Settled, ExecuteSql, Remediated;
    ghost var at := w.attempts[a];
    w.Others(env(0), a);
    RecordActOnce(w, a, before);
    w.Others(env(1), a);
    var accepted := ApplyOnce(w, a);
    LogKeepsExecuted(w, env(2));
    ghost var log := w.executed;
    assert at.stage.action == log[|log| - 1];
    w.Others(env(2), a);
    var outcome, replan := RecordOutcomeOnce(w, a, after);
    result := Measured(outcome, replan);
  }

  /** What is left after measuring an attempt that stood at `at`. */
  ghost predicate Measures(w: World, a: nat, at: Attempt, before: real, after: real, outcome: Outcome, replan: bool)
    requires at.stage.Granted?
    reads w, w.db, w.operator
  {
    && (outcome == Success <==> after < before) && (outcome == Failure <==> !(after < before))
    && (replan <==> !(after < before) && at.replans < 2)
    && a < |w.attempts|
    && w.attempts[a] ==
         (if replan then at.(replans := at.replans + 1, stage := Planning) else at.(stage := Finished))
    && at.stage.action in w.executed
    && Remediated(w.View(), at.task, at.cluster, at.stage.proposal, at.stage.sql, at.stage.action, outcome, after)
  }

  /**
   `act_measure`, while anything else happens. Nothing is written unless a backup is fresh
   and there is a query to measure; otherwise the row is marked applied before the target
   changes, the operator never refuses, and the outcome lands on the same row: a success
   exactly when the latency went down, so that an equal latency is a failure.
   */
  method ActMeasure(w: World, a: nat, backups: seq<Backup>, parse: string -> Option<real>, now: real, window: real,
                    query: Option<string>, before: real, after: real, env: nat -> seq<Step>)
    returns (result: ActResult)
    requires Sound(w) && a < |w.attempts| && w.attempts[a].stage.Granted?
    requires forall e: nat :: AllForeign(env(e), a)
    modifies w, w.db, w.operator
    ensures Sound(w) && w.origin == old(w.origin) && old(w.trace) <= w.trace && a < |w.attempts|
    ensures result == Blocked <==> !Covered(backups, parse, now, window)
    ensures result == Blocked || result == NoQuery ==> w.View() == old(w.View())
    ensures result == NoQuery <==> result != Blocked && (query.None? || query.value == "")
    ensures result != OperatorRejected
    ensures result.Measured? ==> Measures(w, a, old(w.attempts[a]), before, after, result.outcome, result.replan)
    ensures result.Measured? ==>
      && (result.outcome == Success <==> after < before)
      && (result.replan <==> !(after < before) && old(w.attempts[a].replans) < 2)
      && old(w.attempts[a].stage.action) < |w.db.actions|
      && w.db.actions[old(w.attempts[a].stage.action)].outcome == Some(if after < before then Success else Failure)
  {
    hide Inv, Run, AllForeign, Covered, Remediated;
    var verdict := DecideBackupGate(backups, parse, now, window);
    if verdict != Proceed {
      return Blocked;
    }
    if query.None? || query.value == "" {
      return NoQuery;
    }
    ghost var at := w.attempts[a];
    result := Apply(w, a, before, after, env);
    OutcomeIsStored(w.View(), at, result.outcome, after);
  }

  lemma OutcomeIsStored(s: Sys, at: Attempt, outcome: Outcome, after: real)
    requires at.stage.Granted?
    requires Remediated(s, at.task, at.cluster, at.stage.proposal, at.stage.sql, at.stage.action, outcome, after)
    ensures at.stage.action < |s.db.actions| && s.db.actions[at.stage.action].outcome == Some(outcome)
  {
  }

  lemma LogKeepsExecuted(w: World, steps: seq<Step>)
    requires Sound(w)
    ensures w.executed <= Run(w.View(), steps).executed
  {
    SoundState(w);
    RunOk(w.View(), steps);
  }
}
