/**
 Remediation under crashes and redelivery (agent/nodes/gate.py, agent/nodes/act_measure.py,
 agent/main.py): any number of attempts take the two nodes' transactions one at a time, in
 any interleaving, with human decisions, crashes and resumptions from any checkpoint between
 them. A run is a list of steps; a step that is not enabled changes nothing.
 */
module Protocol {
  import opened Prelude
  import opened RecipeRenderer
  import opened SqlOperator
  import opened Ledger

  const SCHEMA: string := "public"
  const MAX_REPLANS: nat := 2

  /** Where an attempt stands, between two of its transactions. */
  datatype Stage =
    | Planning
    | AtGate(proposal: Proposal)
    | Polling(proposal: Proposal, sql: string, action: nat, approval: nat)
    | Refused(proposal: Proposal, sql: string, action: nat, approval: nat, verdict: Verdict)
    | Closing(proposal: Proposal, sql: string, action: nat, approval: nat, verdict: Verdict)
    | Granted(proposal: Proposal, sql: string, action: nat)
    | Recorded(proposal: Proposal, sql: string, action: nat, before: real)
    | Changed(proposal: Proposal, sql: string, action: nat, before: real)
    | Finished
    | Stopped

  datatype Attempt = Attempt(task: nat, cluster: string, replans: nat, stage: Stage)

  /** `executed` logs the actions whose SQL reached the target; `saved` is every checkpoint ever committed. */
  datatype Sys = Sys(db: Tables, target: Catalog, executed: seq<nat>, attempts: seq<Attempt>, saved: seq<Attempt>)

  datatype Step =
    | Begin(task: nat, cluster: string)
    | Propose(a: nat, proposal: Proposal)
    | OpenGate(a: nat, known: Option<set<string>>)
    | Poll(a: nat)
    | TimeOut(a: nat)
    | RecordSkip(a: nat)
    | CloseGate(a: nat)
    | RecordAct(a: nat, before: real)
    | ApplyChange(a: nat)
    | RecordOutcome(a: nat, after: real)
    | Checkpoint(a: nat)
    | Crash(a: nat)
    | Resume(c: nat)
    | Decide(approval: nat, approve: bool, who: string, comment: Option<string>)

  function Init(c: Catalog): Sys {
    Sys(EMPTY, c, [], [], [])
  }

  function KeyOf(at: Attempt, p: Proposal): Key {
    Key(at.cluster, p)
  }

  /** A node has just returned, so the graph commits a checkpoint. */
  predicate AtNodeEnd(st: Stage) {
    st.Planning? || st.AtGate? || st.Granted? || st.Finished?
  }

  function Put(s: Sys, a: nat, at: Attempt): Sys
    requires a < |s.attempts|
  {
    s.(attempts := s.attempts[a := at])
  }

  function Goto(s: Sys, a: nat, st: Stage): Sys
    requires a < |s.attempts|
  {
    Put(s, a, s.attempts[a].(stage := st))
  }

  function OpenGateBy(s: Sys, a: nat, known: Option<set<string>>): Sys
    requires a < |s.attempts|
  {
    var at := s.attempts[a];
    if !at.stage.AtGate? then s
    else
      var p := at.stage.proposal;
      match Render(p.kind, p.params, SCHEMA, known)
      case Err(_) => Goto(s, a, Stopped)
      case Ok(r) =>
        var g := GateTxn(s.db, at.task, KeyOf(at, p), r.sql);
        Goto(s.(db := g.db), a, Polling(p, r.sql, g.action, g.approval))
  }

  function PollBy(s: Sys, a: nat): Sys
    requires a < |s.attempts|
  {
    var st := s.attempts[a].stage;
    if !st.Polling? || st.approval >= |s.db.approvals| then s
    else match s.db.approvals[st.approval].verdict
      case Pending => s
      case Approved => Goto(s, a, Granted(st.proposal, st.sql, st.action))
      case verdict => Goto(s, a, Refused(st.proposal, st.sql, st.action, st.approval, verdict))
  }

  function TimeOutBy(s: Sys, a: nat): Sys
    requires a < |s.attempts|
  {
    var st := s.attempts[a].stage;
    if st.Polling? then s.(db := DecideTxn(s.db, st.approval, Expired, "system:gate_timeout", None)) else s
  }

  function RecordSkipBy(s: Sys, a: nat): Sys
    requires a < |s.attempts|
  {
    var st := s.attempts[a].stage;
    if !st.Refused? then s
    else Goto(s.(db := SkipTxn(s.db, st.action)), a, Closing(st.proposal, st.sql, st.action, st.approval, st.verdict))
  }

  function Replanned(at: Attempt): Attempt {
    at.(replans := at.replans + 1, stage := Planning)
  }

  /** Only a rejection is re-planned, and only with budget left. */
  function CloseGateBy(s: Sys, a: nat): Sys
    requires a < |s.attempts|
  {
    var at := s.attempts[a];
    if !at.stage.Closing? then s
    else if at.stage.verdict == Rejected && at.replans < MAX_REPLANS then Put(s, a, Replanned(at))
    else Goto(s.(db := EpisodeTxn(s.db, at.task, at.stage.action)), a, Finished)
  }

  function RecordActBy(s: Sys, a: nat, before: real): Sys
    requires a < |s.attempts|
  {
    var at := s.attempts[a];
    var st := at.stage;
    if !st.Granted? then s
    else Goto(s.(db := ActTxn(s.db, at.task, st.action, before)), a, Recorded(st.proposal, st.sql, st.action, before))
  }

  function ApplyChangeBy(s: Sys, a: nat): Sys
    requires a < |s.attempts|
  {
    var st := s.attempts[a].stage;
    if !st.Recorded? then s
    else if SearchForbidden(st.sql) then Goto(s, a, Stopped)
    else Goto(s.(target := ExecuteSql(s.target, st.sql), executed := s.executed + [st.action]), a,
              Changed(st.proposal, st.sql, st.action, st.before))
  }

  function OutcomeOf(before: real, after: real): Outcome {
    if after < before then Success else Failure
  }

  /** A measured regression is re-planned while budget is left. */
  function RecordOutcomeBy(s: Sys, a: nat, after: real): Sys
    requires a < |s.attempts|
  {
    var at := s.attempts[a];
    if !at.stage.Changed? then s
    else
      var outcome := OutcomeOf(at.stage.before, after);
      var t := s.(db := OutcomeTxn(s.db, at.task, at.stage.action, outcome, after));
      if outcome == Failure && at.replans < MAX_REPLANS then Put(t, a, Replanned(at)) else Goto(t, a, Finished)
  }

  function StepAttempt(s: Sys, a: nat, step: Step): Sys
    requires a < |s.attempts|
  {
    match step
    case Propose(_, p) => if s.attempts[a].stage.Planning? then Goto(s, a, AtGate(p)) else s
    case OpenGate(_, known) => OpenGateBy(s, a, known)
    case Poll(_) => PollBy(s, a)
    case TimeOut(_) => TimeOutBy(s, a)
    case RecordSkip(_) => RecordSkipBy(s, a)
    case CloseGate(_) => CloseGateBy(s, a)
    case RecordAct(_, before) => RecordActBy(s, a, before)
    case ApplyChange(_) => ApplyChangeBy(s, a)
    case RecordOutcome(_, after) => RecordOutcomeBy(s, a, after)
    case Checkpoint(_) => if AtNodeEnd(s.attempts[a].stage) then s.(saved := s.saved + [s.attempts[a]]) else s
    case Crash(_) => Goto(s, a, Stopped)
    case _ => s
  }

  function Exec(s: Sys, step: Step): Sys {
    match step
    case Begin(task, cluster) => s.(attempts := s.attempts + [Attempt(task, cluster, 0, Planning)])
    case Resume(c) => if c < |s.saved| then s.(attempts := s.attempts + [s.saved[c]]) else s
    case Decide(approval, approve, who, comment) =>
      s.(db := DecideTxn(s.db, approval, if approve then Approved else Rejected, who, comment))
    case _ => if step.a < |s.attempts| then StepAttempt(s, step.a, step) else s
  }

  function Run(s: Sys, steps: seq<Step>): Sys
    decreases |steps|
  {
    if |steps| == 0 then s else Run(Exec(s, steps[0]), steps[1..])
  }

  lemma {:induction false} RunConcat(s: Sys, xs: seq<Step>, ys: seq<Step>)
    ensures Run(s, xs + ys) == Run(Run(s, xs), ys)
    decreases |xs|
  {
    if |xs| == 0 {
      assert xs + ys == ys;
    } else {
      assert (xs + ys)[1..] == xs[1..] + ys;
      RunConcat(Exec(s, xs[0]), xs[1..], ys);
    }
  }

  // ----- the invariant

  /** The node='gate' rows, in order. */
  function GateDecisions(d: seq<Decision>): seq<Decision> {
    if |d| == 0 then []
    else GateDecisions(d[..|d| - 1]) + if d[|d| - 1].GateDecision? then [d[|d| - 1]] else []
  }

  /** `sql` is what the renderer prints for a key, whatever columns it was shown. */
  predicate SqlOf(k: Key, sql: string) {
    var st := StatementOf(k.proposal.kind, k.proposal.params, SCHEMA);
    st.Some? && ValidStatement(st.value) && !HasKeyword(st.value) && sql == Print(st.value)
  }

  /** Actions, approvals and gate decisions pair off row by row, under keys that never repeat. */
  predicate OneToOne(t: Tables) {
    var gates := GateDecisions(t.decisions);
    && |t.approvals| == |t.actions| == |gates|
    && (forall i | 0 <= i < |t.actions| ::
          && t.approvals[i].action == i
          && t.approvals[i].task == t.actions[i].task
          && gates[i] == GateDecision(t.actions[i].task, t.actions[i].key.proposal))
    && (forall i, j | 0 <= i < j < |t.actions| :: t.actions[i].key != t.actions[j].key)
  }

  predicate Refusal(v: Verdict) {
    v == Rejected || v == Expired
  }

  predicate ActionOk(t: Tables, target: Catalog, i: nat)
    requires i < |t.actions| && |t.approvals| == |t.actions|
  {
    var row, verdict := t.actions[i], t.approvals[i].verdict;
    && SqlOf(row.key, row.sql)
    && (row.status == Applied ==> verdict == Approved)
    && (row.status == Skipped ==> Refusal(verdict))
    && (row.outcome == Some(Success) || row.outcome == Some(Failure) ==>
        row.status == Applied && Settled(target, row.sql))
    && (row.outcome == Some(NotDone) <==> row.status == Skipped)
  }

  predicate LedgerOk(t: Tables, target: Catalog) {
    OneToOne(t) && forall i | 0 <= i < |t.actions| :: ActionOk(t, target, i)
  }

  /** An attempt works on the row of its own key. */
  predicate OnRow(t: Tables, at: Attempt, p: Proposal, sql: string, action: nat) {
    action < |t.actions| && action < |t.approvals| && t.actions[action].key == KeyOf(at, p)
      && t.actions[action].sql == sql
  }

  predicate AttemptOk(t: Tables, target: Catalog, at: Attempt) {
    && at.replans <= MAX_REPLANS
    && match at.stage
       case Polling(p, sql, action, approval) => OnRow(t, at, p, sql, action) && approval == action
       case Refused(p, sql, action, approval, verdict) =>
         OnRow(t, at, p, sql, action) && approval == action && t.approvals[approval].verdict == verdict
           && Refusal(verdict)
       case Closing(p, sql, action, approval, verdict) =>
         OnRow(t, at, p, sql, action) && approval == action && t.approvals[approval].verdict == verdict
           && Refusal(verdict)
       case Granted(p, sql, action) => OnRow(t, at, p, sql, action) && t.approvals[action].verdict == Approved
       case Recorded(p, sql, action, _) =>
         && OnRow(t, at, p, sql, action) && t.approvals[action].verdict == Approved
           && t.actions[action].status == Applied
         && ActDecision(at.task, action) in t.decisions
       case Changed(p, sql, action, _) =>
         && OnRow(t, at, p, sql, action) && t.approvals[action].verdict == Approved
           && t.actions[action].status == Applied
         && ActDecision(at.task, action) in t.decisions
         && Settled(target, sql)
       case _ => true
  }

  /** Every change that reached the target has an applied row behind it. */
  predicate ExecutedOk(t: Tables, target: Catalog, executed: seq<nat>) {
    forall i | 0 <= i < |executed| ::
      executed[i] < |t.actions| && t.actions[executed[i]].status == Applied
        && Settled(target, t.actions[executed[i]].sql)
  }

  predicate Inv(s: Sys) {
    && LedgerOk(s.db, s.target)
    && (forall i | 0 <= i < |s.attempts| :: AttemptOk(s.db, s.target, s.attempts[i]))
    && (forall i | 0 <= i < |s.saved| :: AttemptOk(s.db, s.target, s.saved[i]))
    && ExecutedOk(s.db, s.target, s.executed)
  }

  // ----- what never changes again

  predicate RowLater(x: Action, y: Action) {
    y.task == x.task && y.key == x.key && y.sql == x.sql && (x.status != Proposed ==> y.status == x.status)
  }

  predicate VerdictLater(x: Approval, y: Approval) {
    y.task == x.task && y.action == x.action && (x.verdict != Pending ==> y == x)
  }

  /** `u` keeps every row of `t`, every verdict given and every application recorded. */
  predicate DbLater(t: Tables, u: Tables) {
    && |t.actions| <= |u.actions| && (forall i | 0 <= i < |t.actions| :: RowLater(t.actions[i], u.actions[i]))
    && |t.approvals| <= |u.approvals|
      && (forall i | 0 <= i < |t.approvals| :: VerdictLater(t.approvals[i], u.approvals[i]))
    && t.decisions <= u.decisions
    && t.episodes <= u.episodes
  }

  predicate Later(s: Sys, t: Sys) {
    DbLater(s.db, t.db) && Extends(s.target, t.target) && s.executed <= t.executed
    && s.saved <= t.saved && |s.attempts| <= |t.attempts|
  }

  lemma LaterTransitive(s: Sys, t: Sys, u: Sys)
    requires Later(s, t) && Later(t, u)
    ensures Later(s, u)
  {
    forall i | 0 <= i < |s.db.actions| ensures RowLater(s.db.actions[i], u.db.actions[i]) {
      assert RowLater(s.db.actions[i], t.db.actions[i]) && RowLater(t.db.actions[i], u.db.actions[i]);
    }
    forall i | 0 <= i < |s.db.approvals| ensures VerdictLater(s.db.approvals[i], u.db.approvals[i]) {
      assert VerdictLater(s.db.approvals[i], t.db.approvals[i]) && VerdictLater(t.db.approvals[i], u.db.approvals[i]);
    }
  }

  lemma AttemptStays(t: Tables, c: Catalog, u: Tables, d: Catalog, at: Attempt)
    requires AttemptOk(t, c, at) && DbLater(t, u) && Extends(c, d)
    ensures AttemptOk(u, d, at)
  {
    hide Settled, Extends;
    match at.stage
    case Polling(_, _, action, _) => RowStays(t, u, action);
    case Refused(_, _, action, _, _) => RowStays(t, u, action);
    case Closing(_, _, action, _, _) => RowStays(t, u, action);
    case Granted(_, _, action) => RowStays(t, u, action);
    case Recorded(_, _, action, _) => RowStays(t, u, action);
    case Changed(_, sql, action, _) =>
      RowStays(t, u, action);
      SettledStays(c, d, sql);
    case _ =>
  }

  lemma RowStays(t: Tables, u: Tables, i: nat)
    requires DbLater(t, u) && i < |t.actions| && i < |t.approvals|
    ensures i < |u.actions| && i < |u.approvals|
    ensures RowLater(t.actions[i], u.actions[i]) && VerdictLater(t.approvals[i], u.approvals[i])
  {
  }

  lemma ExecutedStays(t: Tables, c: Catalog, u: Tables, d: Catalog, executed: seq<nat>)
    requires ExecutedOk(t, c, executed) && DbLater(t, u) && Extends(c, d)
    ensures ExecutedOk(u, d, executed)
  {
    hide Settled, Extends;
    forall i | 0 <= i < |executed|
      ensures executed[i] < |u.actions| && u.actions[executed[i]].status == Applied
      ensures Settled(d, u.actions[executed[i]].sql)
    {
      assert RowLater(t.actions[executed[i]], u.actions[executed[i]]);
      SettledStays(c, d, t.actions[executed[i]].sql);
    }
  }

  // ----- each transaction

  lemma GateTxnOk(t: Tables, c: Catalog, task: nat, k: Key, sql: string)
    requires LedgerOk(t, c) && SqlOf(k, sql)
    ensures
      var g := GateTxn(t, task, k, sql);
      && LedgerOk(g.db, c) && DbLater(t, g.db)
      && g.action < |g.db.actions| && g.approval == g.action
      && g.db.actions[g.action].key == k && g.db.actions[g.action].sql == sql
      && (g.decision.Some? <==> forall i | 0 <= i < |t.actions| :: t.actions[i].key != k)
      && (g.decision.None? ==> g.db == t)
      && (g.decision.Some? ==>
            g.db == t.(actions := t.actions + [Action(task, k, sql, Proposed, None, None, None)],
                       approvals := t.approvals + [Approval(task, |t.actions|, Pending, None, None)],
                       decisions := t.decisions + [GateDecision(task, k.proposal)]))
  {
    hide SqlOf, Settled;
    var g := GateTxn(t, task, k, sql);
    if FindAction(t.actions, k).Some? {
      assert t.approvals[g.action].action == g.action;
      assert ActionOk(t, c, g.action);
      SameSql(k, sql, t.actions[g.action].sql);
    } else {
      var d := t.decisions;
      assert g.db.decisions[..|d|] == d;
      assert GateDecisions(g.db.decisions) == GateDecisions(d) + [GateDecision(task, k.proposal)];
      forall i | 0 <= i < |g.db.actions| ensures ActionOk(g.db, c, i) {
        if i < |t.actions| {
          assert ActionOk(t, c, i);
        }
      }
    }
  }

  lemma SameSql(k: Key, sql: string, other: string)
    requires SqlOf(k, sql) && SqlOf(k, other)
    ensures sql == other
  {
  }

  lemma DecideTxnOk(t: Tables, c: Catalog, approval: nat, verdict: Verdict, who: string, comment: Option<string>)
    requires LedgerOk(t, c) && verdict != Pending
    ensures LedgerOk(DecideTxn(t, approval, verdict, who, comment), c)
    ensures DbLater(t, DecideTxn(t, approval, verdict, who, comment))
  {
    hide SqlOf, Settled, GateDecisions;
    var u := DecideTxn(t, approval, verdict, who, comment);
    forall i | 0 <= i < |u.actions| ensures ActionOk(u, c, i) {
      assert ActionOk(t, c, i);
    }
  }

  lemma SkipTxnOk(t: Tables, c: Catalog, action: nat)
    requires LedgerOk(t, c) && action < |t.actions| && Refusal(t.approvals[action].verdict)
    ensures LedgerOk(SkipTxn(t, action), c) && DbLater(t, SkipTxn(t, action))
  {
    hide SqlOf, Settled, GateDecisions;
    var u := SkipTxn(t, action);
    assert ActionOk(t, c, action);
    forall i | 0 <= i < |u.actions| ensures ActionOk(u, c, i) {
      assert ActionOk(t, c, i);
    }
  }

  lemma ActTxnOk(t: Tables, c: Catalog, task: nat, action: nat, before: real)
    requires LedgerOk(t, c) && action < |t.actions| && t.approvals[action].verdict == Approved
    ensures LedgerOk(ActTxn(t, task, action, before), c) && DbLater(t, ActTxn(t, task, action, before))
    ensures ActTxn(t, task, action, before).actions[action].status == Applied
    ensures ActDecision(task, action) in ActTxn(t, task, action, before).decisions
  {
    hide SqlOf, Settled;
    var u := ActTxn(t, task, action, before);
    assert u.decisions[..|t.decisions|] == t.decisions;
    assert GateDecisions(u.decisions) == GateDecisions(t.decisions);
    assert ActionOk(t, c, action);
    forall i | 0 <= i < |u.actions| ensures ActionOk(u, c, i) {
      assert ActionOk(t, c, i);
    }
  }

  lemma OutcomeTxnOk(t: Tables, c: Catalog, task: nat, action: nat, outcome: Outcome, after: real)
    requires LedgerOk(t, c) && action < |t.actions| && outcome != NotDone
    requires t.actions[action].status == Applied && Settled(c, t.actions[action].sql)
    ensures LedgerOk(OutcomeTxn(t, task, action, outcome, after), c)
    ensures DbLater(t, OutcomeTxn(t, task, action, outcome, after))
  {
    hide SqlOf, Settled, GateDecisions;
    var u := OutcomeTxn(t, task, action, outcome, after);
    forall i | 0 <= i < |u.actions| ensures ActionOk(u, c, i) {
      assert ActionOk(t, c, i);
    }
  }

  lemma TargetGrows(t: Tables, c: Catalog, d: Catalog)
    requires LedgerOk(t, c) && Extends(c, d)
    ensures LedgerOk(t, d)
  {
    hide SqlOf, Settled, Extends, GateDecisions;
    forall i | 0 <= i < |t.actions| ensures ActionOk(t, d, i) {
      assert ActionOk(t, c, i);
      if Settled(c, t.actions[i].sql) {
        SettledStays(c, d, t.actions[i].sql);
      }
    }
  }

  lemma RenderedIsSqlOf(at: Attempt, p: Proposal, known: Option<set<string>>, r: Rendered)
    requires Render(p.kind, p.params, SCHEMA, known) == Ok(r)
    ensures SqlOf(KeyOf(at, p), r.sql)
  {
    RenderSucceedsIff(p.kind, p.params, SCHEMA, known);
  }

  // ----- each step

  /** What a step must show: the shared rows move forward and the acting attempt's new stage is right. */
  lemma Reassemble(s: Sys, t: Sys)
    requires Inv(s) && DbLater(s.db, t.db) && Extends(s.target, t.target)
    requires LedgerOk(t.db, t.target) && ExecutedOk(t.db, t.target, t.executed)
    requires forall i | 0 <= i < |t.attempts| ::
      t.attempts[i] in s.attempts || t.attempts[i] in s.saved || AttemptOk(t.db, t.target, t.attempts[i])
    requires forall i | 0 <= i < |t.saved| :: t.saved[i] in s.attempts || t.saved[i] in s.saved
    ensures Inv(t)
  {
    hide LedgerOk, ExecutedOk, DbLater, Extends, AttemptOk;
    forall at | at in s.attempts || at in s.saved ensures AttemptOk(t.db, t.target, at) {
      assert AttemptOk(s.db, s.target, at);
      AttemptStays(s.db, s.target, t.db, t.target, at);
    }
  }

  lemma DbForward(t: Tables)
    ensures DbLater(t, t)
  {
  }

  /** A transaction and a change of stage by attempt `a`, with the target as it was. */
  lemma MoveOk(s: Sys, u: Tables, a: nat, at: Attempt)
    requires Inv(s) && a < |s.attempts|
    requires LedgerOk(u, s.target) && DbLater(s.db, u) && AttemptOk(u, s.target, at)
    ensures Inv(Put(s.(db := u), a, at)) && Later(s, Put(s.(db := u), a, at))
  {
    hide LedgerOk, DbLater, AttemptOk, ExecutedOk, Extends;
    ExtendsSelf(s.target);
    ExecutedStays(s.db, s.target, u, s.target, s.executed);
    Reassemble(s, Put(s.(db := u), a, at));
  }

  lemma OpenGateOk(s: Sys, a: nat, known: Option<set<string>>)
    requires Inv(s) && a < |s.attempts|
    ensures Inv(OpenGateBy(s, a, known)) && Later(s, OpenGateBy(s, a, known))
  {
    var at := s.attempts[a];
    StateOf(s, a);
    hide Inv, Later, GateTxn, LedgerOk, DbLater, SqlOf, Settled, Render;
    if at.stage.AtGate? {
      var p := at.stage.proposal;
      var rendered := Render(p.kind, p.params, SCHEMA, known);
      if rendered.Ok? {
        var g := GateTxn(s.db, at.task, KeyOf(at, p), rendered.value.sql);
        RenderedIsSqlOf(at, p, known, rendered.value);
        GateTxnOk(s.db, s.target, at.task, KeyOf(at, p), rendered.value.sql);
        LedgerLengths(g.db, s.target);
        MoveOk(s, g.db, a, at.(stage := Polling(p, rendered.value.sql, g.action, g.approval)));
      } else {
        MoveOk(s, s.db, a, at.(stage := Stopped));
      }
    } else {
      Unchanged(s);
    }
  }

  lemma StateOf(s: Sys, a: nat)
    requires Inv(s) && a < |s.attempts|
    ensures LedgerOk(s.db, s.target) && AttemptOk(s.db, s.target, s.attempts[a]) && DbLater(s.db, s.db)
  {
    hide LedgerOk, AttemptOk, ExecutedOk;
  }

  lemma LedgerLengths(t: Tables, c: Catalog)
    requires LedgerOk(t, c)
    ensures |t.approvals| == |t.actions|
  {
  }

  lemma PollOk(s: Sys, a: nat)
    requires Inv(s) && a < |s.attempts|
    ensures Inv(PollBy(s, a)) && Later(s, PollBy(s, a))
  {
    var at := s.attempts[a];
    StateOf(s, a);
    hide Inv, Later, LedgerOk, DbLater, Settled;
    Unchanged(s);
    if at.stage.Polling? && at.stage.approval < |s.db.approvals| {
      var st, verdict := at.stage, s.db.approvals[at.stage.approval].verdict;
      if verdict == Approved {
        MoveOk(s, s.db, a, at.(stage := Granted(st.proposal, st.sql, st.action)));
      } else if verdict != Pending {
        MoveOk(s, s.db, a, at.(stage := Refused(st.proposal, st.sql, st.action, st.approval, verdict)));
      }
    }
  }

  lemma DecidedOk(s: Sys, approval: nat, verdict: Verdict, who: string, comment: Option<string>)
    requires Inv(s) && verdict != Pending
    ensures
      var t := s.(db := DecideTxn(s.db, approval, verdict, who, comment));
      Inv(t) && Later(s, t)
  {
    hide LedgerOk, ExecutedOk, DbLater, Settled;
    var t := s.(db := DecideTxn(s.db, approval, verdict, who, comment));
    DecideTxnOk(s.db, s.target, approval, verdict, who, comment);
    ExecutedStays(s.db, s.target, t.db, t.target, s.executed);
    Reassemble(s, t);
  }

  lemma RecordSkipOk(s: Sys, a: nat)
    requires Inv(s) && a < |s.attempts|
    ensures Inv(RecordSkipBy(s, a)) && Later(s, RecordSkipBy(s, a))
  {
    var at := s.attempts[a];
    StateOf(s, a);
    hide Inv, Later, LedgerOk, DbLater, Settled, Extends;
    Unchanged(s);
    if at.stage.Refused? {
      var st, u := at.stage, SkipTxn(s.db, at.stage.action);
      SkipTxnOk(s.db, s.target, st.action);
      ExtendsSelf(s.target);
      AttemptStays(s.db, s.target, u, s.target, at);
      MoveOk(s, u, a, at.(stage := Closing(st.proposal, st.sql, st.action, st.approval, st.verdict)));
    }
  }

  lemma EpisodeOk(t: Tables, c: Catalog, task: nat, action: nat)
    requires LedgerOk(t, c)
    ensures LedgerOk(EpisodeTxn(t, task, action), c) && DbLater(t, EpisodeTxn(t, task, action))
  {
    hide SqlOf, Settled, GateDecisions;
    forall i | 0 <= i < |t.actions| ensures ActionOk(EpisodeTxn(t, task, action), c, i) {
      assert ActionOk(t, c, i);
    }
  }

  lemma CloseGateOk(s: Sys, a: nat)
    requires Inv(s) && a < |s.attempts|
    ensures Inv(CloseGateBy(s, a)) && Later(s, CloseGateBy(s, a))
  {
    var at := s.attempts[a];
    StateOf(s, a);
    hide Inv, Later, LedgerOk, DbLater, Settled;
    Unchanged(s);
    if at.stage.Closing? {
      if at.stage.verdict == Rejected && at.replans < MAX_REPLANS {
        MoveOk(s, s.db, a, Replanned(at));
      } else {
        EpisodeOk(s.db, s.target, at.task, at.stage.action);
        MoveOk(s, EpisodeTxn(s.db, at.task, at.stage.action), a, at.(stage := Finished));
      }
    }
  }

  lemma RecordActOk(s: Sys, a: nat, before: real)
    requires Inv(s) && a < |s.attempts|
    ensures Inv(RecordActBy(s, a, before)) && Later(s, RecordActBy(s, a, before))
  {
    var at := s.attempts[a];
    StateOf(s, a);
    hide Inv, Later, LedgerOk, DbLater, Settled, Extends, ActTxn;
    Unchanged(s);
    if at.stage.Granted? {
      var st, u := at.stage, ActTxn(s.db, at.task, at.stage.action, before);
      ActTxnOk(s.db, s.target, at.task, st.action, before);
      ExtendsSelf(s.target);
      AttemptStays(s.db, s.target, u, s.target, at);
      MoveOk(s, u, a, at.(stage := Recorded(st.proposal, st.sql, st.action, before)));
    }
  }

  lemma ExecutedGrows(t: Tables, c: Catalog, executed: seq<nat>, action: nat)
    requires ExecutedOk(t, c, executed)
    requires action < |t.actions| && t.actions[action].status == Applied && Settled(c, t.actions[action].sql)
    ensures ExecutedOk(t, c, executed + [action])
  {
    hide Settled;
  }

  /** The adapter runs a change whose row is already marked applied. */
  lemma TargetStepOk(s: Sys, d: Catalog, a: nat)
    requires Inv(s) && a < |s.attempts| && s.attempts[a].stage.Recorded?
    requires d == ExecuteSql(s.target, s.attempts[a].stage.sql)
    ensures
      var st := s.attempts[a].stage;
      var t := Goto(s.(target := d, executed := s.executed + [st.action]), a,
          Changed(st.proposal, st.sql, st.action, st.before));
      Inv(t) && Later(s, t)
  {
    var at := s.attempts[a];
    var st := at.stage;
    var t := Goto(s.(target := d, executed := s.executed + [st.action]), a,
        Changed(st.proposal, st.sql, st.action, st.before));
    assert AttemptOk(s.db, s.target, at);
    ExecuteSettles(s.target, st.sql);
    hide LedgerOk, ExecutedOk, DbLater, Settled, ExecuteSql, Extends;
    DbForward(s.db);
    TargetGrows(s.db, s.target, d);
    ExecutedStays(s.db, s.target, s.db, d, s.executed);
    ExecutedGrows(s.db, d, s.executed, st.action);
    Reassemble(s, t);
  }

  lemma ApplyChangeOk(s: Sys, a: nat)
    requires Inv(s) && a < |s.attempts|
    ensures Inv(ApplyChangeBy(s, a)) && Later(s, ApplyChangeBy(s, a))
  {
    var at := s.attempts[a];
    StateOf(s, a);
    hide Inv, Later, LedgerOk, DbLater, ExecuteSql, SearchForbidden, Settled;
    Unchanged(s);
    if at.stage.Recorded? {
      if SearchForbidden(at.stage.sql) {
        MoveOk(s, s.db, a, at.(stage := Stopped));
      } else {
        TargetStepOk(s, ExecuteSql(s.target, at.stage.sql), a);
      }
    }
  }

  lemma ExtendsSelf(c: Catalog)
    ensures Extends(c, c)
  {
  }

  lemma RecordOutcomeOk(s: Sys, a: nat, after: real)
    requires Inv(s) && a < |s.attempts|
    ensures Inv(RecordOutcomeBy(s, a, after)) && Later(s, RecordOutcomeBy(s, a, after))
  {
    var at := s.attempts[a];
    StateOf(s, a);
    hide Inv, Later, LedgerOk, DbLater, Settled, OutcomeTxn;
    Unchanged(s);
    if at.stage.Changed? {
      var outcome := OutcomeOf(at.stage.before, after);
      var u := OutcomeTxn(s.db, at.task, at.stage.action, outcome, after);
      OutcomeTxnOk(s.db, s.target, at.task, at.stage.action, outcome, after);
      if outcome == Failure && at.replans < MAX_REPLANS {
        MoveOk(s, u, a, Replanned(at));
      } else {
        MoveOk(s, u, a, at.(stage := Finished));
      }
    }
  }

  lemma QuietStepOk(s: Sys, step: Step)
    requires Inv(s) && (step.Begin? || step.Propose? || step.Checkpoint? || step.Crash? || step.Resume?)
    ensures Inv(Exec(s, step)) && Later(s, Exec(s, step))
  {
    hide LedgerOk, ExecutedOk, DbLater, Settled;
    hide OpenGateBy, PollBy, RecordSkipBy, CloseGateBy, RecordActBy, ApplyChangeBy, RecordOutcomeBy;
    DbForward(s.db);
    Reassemble(s, Exec(s, step));
  }

  lemma StepOk(s: Sys, step: Step)
    requires Inv(s)
    ensures Inv(Exec(s, step)) && Later(s, Exec(s, step))
  {
    hide Inv, Later, DecideTxn, OpenGateBy, PollBy, RecordSkipBy, CloseGateBy, RecordActBy, ApplyChangeBy,
      RecordOutcomeBy;
    match step
    case Decide(approval, approve, who, comment) =>
      DecidedOk(s, approval, if approve then Approved else Rejected, who, comment);
    case OpenGate(a, known) => if a < |s.attempts| { OpenGateOk(s, a, known); } else { Unchanged(s); }
    case Poll(a) => if a < |s.attempts| { PollOk(s, a); } else { Unchanged(s); }
    case TimeOut(a) =>
      Unchanged(s);
      if a < |s.attempts| && s.attempts[a].stage.Polling? {
        DecidedOk(s, s.attempts[a].stage.approval, Expired, "system:gate_timeout", None);
      }
    case RecordSkip(a) => if a < |s.attempts| { RecordSkipOk(s, a); } else { Unchanged(s); }
    case CloseGate(a) => if a < |s.attempts| { CloseGateOk(s, a); } else { Unchanged(s); }
    case RecordAct(a, before) => if a < |s.attempts| { RecordActOk(s, a, before); } else { Unchanged(s); }
    case ApplyChange(a) => if a < |s.attempts| { ApplyChangeOk(s, a); } else { Unchanged(s); }
    case RecordOutcome(a, after) => if a < |s.attempts| { RecordOutcomeOk(s, a, after); } else { Unchanged(s); }
    case _ => QuietStepOk(s, step);
  }

  lemma Unchanged(s: Sys)
    ensures Later(s, s)
  {
  }

  lemma {:induction false} RunOk(s: Sys, steps: seq<Step>)
    requires Inv(s)
    ensures Inv(Run(s, steps)) && Later(s, Run(s, steps))
    decreases |steps|
  {
    hide Inv, Later, Exec;
    if |steps| == 0 {
      Unchanged(s);
    } else {
      StepOk(s, steps[0]);
      RunOk(Exec(s, steps[0]), steps[1..]);
      LaterTransitive(s, Exec(s, steps[0]), Run(s, steps));
    }
  }

  lemma InitOk(c: Catalog)
    ensures Inv(Init(c))
  {
  }
}
