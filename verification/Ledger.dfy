/**
 The remediation ledger of the memory database (agent/memory/db.py): the tables as
 values, each transaction as a function on them, and the class whose methods run them.
 A row's id is its position; rows are only ever appended or updated.
 */
module Ledger {
  import opened Prelude
  import opened RecipeRenderer

  /** A proposed change; `rest` stands for the parameters that no template prints. */
  datatype Proposal = Proposal(kind: string, params: Parameters, rest: string)

  /** `sha256(cluster | canonical change)`, with the hash taken as injective. There is no task in it. */
  datatype Key = Key(cluster: string, proposal: Proposal)

  datatype ActionStatus = Proposed | Applied | Skipped
  datatype Outcome = Success | Failure | NotDone
  datatype Verdict = Pending | Approved | Rejected | Expired

  datatype Action = Action(task: nat, key: Key, sql: string, status: ActionStatus,
                           outcome: Option<Outcome>, before: Option<real>, after: Option<real>)
  datatype Approval = Approval(task: nat, action: nat, verdict: Verdict, decidedBy: Option<string>,
                               comment: Option<string>)
  datatype Decision = GateDecision(task: nat, proposal: Proposal) | ActDecision(task: nat, action: nat)
  datatype Episode = Episode(task: nat, action: nat)
  datatype Tables = Tables(actions: seq<Action>, approvals: seq<Approval>, decisions: seq<Decision>,
                           episodes: seq<Episode>)

  const EMPTY: Tables := Tables([], [], [], [])

  /** `SELECT action_id ... WHERE idempotency_key = k`: the first such row. */
  function FindAction(actions: seq<Action>, k: Key): (r: Option<nat>)
    ensures r.Some? ==> r.value < |actions| && actions[r.value].key == k
    ensures r.None? ==> forall i | 0 <= i < |actions| :: actions[i].key != k
  {
    if |actions| == 0 then None
    else match FindAction(actions[..|actions| - 1], k)
      case Some(i) => Some(i)
      case None => if actions[|actions| - 1].key == k then Some(|actions| - 1) else None
  }

  /** `SELECT approval_id ... WHERE action_id = a LIMIT 1`. */
  function FindApproval(approvals: seq<Approval>, action: nat): (r: Option<nat>)
    ensures r.Some? ==> r.value < |approvals| && approvals[r.value].action == action
    ensures r.None? ==> forall i | 0 <= i < |approvals| :: approvals[i].action != action
  {
    if |approvals| == 0 then None
    else match FindApproval(approvals[..|approvals| - 1], action)
      case Some(i) => Some(i)
      case None => if approvals[|approvals| - 1].action == action then Some(|approvals| - 1) else None
  }

  function NewApproval(task: nat, action: nat): Approval {
    Approval(task, action, Pending, None, None)
  }

  datatype GateRows = GateRows(db: Tables, decision: Option<nat>, action: nat, approval: nat)

  /** `insert_gate_decision`, one transaction: look the key up first, insert only what is missing. */
  function GateTxn(t: Tables, task: nat, k: Key, sql: string): GateRows {
    match FindAction(t.actions, k)
    case Some(a) =>
      (match FindApproval(t.approvals, a)
       case Some(p) => GateRows(t, None, a, p)
       case None => GateRows(t.(approvals := t.approvals + [NewApproval(task, a)]), None, a, |t.approvals|))
    case None =>
      var a := |t.actions|;
      GateRows(
        t.(actions := t.actions + [Action(task, k, sql, Proposed, None, None, None)],
           approvals := t.approvals + [NewApproval(task, a)],
           decisions := t.decisions + [GateDecision(task, k.proposal)]),
        Some(|t.decisions|), a, |t.approvals|)
  }

  /** `decide_approval`: compare-and-set from 'pending'. */
  function DecideTxn(t: Tables, approval: nat, verdict: Verdict, who: string, comment: Option<string>): Tables {
    if approval < |t.approvals| && t.approvals[approval].verdict == Pending then
      var row := t.approvals[approval];
      t.(approvals := t.approvals[approval := row.(verdict := verdict, decidedBy := Some(who), comment := comment)])
    else t
  }

  /** `update_remediation_status(action, 'skipped', outcome='skipped')`. */
  function SkipTxn(t: Tables, action: nat): Tables {
    if action < |t.actions| then
      t.(actions := t.actions[action := t.actions[action].(status := Skipped, outcome := Some(NotDone))])
    else t
  }

  /** `insert_act_decision`: the ledger says 'applied' before the change runs. */
  function ActTxn(t: Tables, task: nat, action: nat, before: real): Tables {
    var u := t.(decisions := t.decisions + [ActDecision(task, action)]);
    if action < |t.actions| then
      u.(actions := t.actions[action := t.actions[action].(status := Applied, before := Some(before))])
    else u
  }

  /** `insert_outcome_decision`: the measurement and the episode together. */
  function OutcomeTxn(t: Tables, task: nat, action: nat, outcome: Outcome, after: real): Tables {
    var u := EpisodeTxn(t, task, action);
    if action < |t.actions| then
      u.(actions := t.actions[action := t.actions[action].(outcome := Some(outcome), after := Some(after))])
    else u
  }

  function EpisodeTxn(t: Tables, task: nat, action: nat): Tables {
    t.(episodes := t.episodes + [Episode(task, action)])
  }

  class Database {
    var actions: seq<Action>
    var approvals: seq<Approval>
    var decisions: seq<Decision>
    var episodes: seq<Episode>

    function View(): Tables
      reads this
    {
      Tables(actions, approvals, decisions, episodes)
    }

    constructor (t: Tables)
      ensures View() == t
    {
      actions, approvals, decisions, episodes := t.actions, t.approvals, t.decisions, t.episodes;
    }

    method InsertGateDecision(task: nat, k: Key, sql: string) returns (decision: Option<nat>, action: nat,
                              approval: nat)
      modifies this
      ensures GateRows(View(), decision, action, approval) == GateTxn(old(View()), task, k, sql)
    {
      decision := None;
      var existing := FindAction(actions, k);
      if existing.Some? {
        action := existing.value;
        var found := FindApproval(approvals, action);
        if found.Some? {
          approval := found.value;
          return;
        }
        approval := InsertApproval(task, action);
        return;
      }
      decision := Some(|decisions|);
      decisions := decisions + [GateDecision(task, k.proposal)];
      action := |actions|;
      actions := actions + [Action(task, k, sql, Proposed, None, None, None)];
      approval := InsertApproval(task, action);
    }

    method InsertApproval(task: nat, action: nat) returns (approval: nat)
      modifies this`approvals
      ensures approval == |old(approvals)| && approvals == old(approvals) + [NewApproval(task, action)]
    {
      approval := |approvals|;
      approvals := approvals + [NewApproval(task, action)];
    }

    method DecideApproval(approval: nat, who: string, verdict: Verdict, comment: Option<string>) returns (won: bool)
      modifies this
      ensures View() == DecideTxn(old(View()), approval, verdict, who, comment)
      ensures won <==> approval < |old(approvals)| && old(approvals)[approval].verdict == Pending
    {
      won := approval < |approvals| && approvals[approval].verdict == Pending;
      if won {
        var row := approvals[approval];
        approvals := approvals[approval := row.(verdict := verdict, decidedBy := Some(who), comment := comment)];
      }
    }

    method PollApproval(approval: nat) returns (row: Option<Approval>)
      ensures row == if approval < |approvals| then Some(approvals[approval]) else None
    {
      row := if approval < |approvals| then Some(approvals[approval]) else None;
    }

    method MarkSkipped(action: nat)
      modifies this
      ensures View() == SkipTxn(old(View()), action)
    {
      if action < |actions| {
        actions := actions[action := actions[action].(status := Skipped, outcome := Some(NotDone))];
      }
    }

    method InsertEpisode(task: nat, action: nat)
      modifies this
      ensures View() == EpisodeTxn(old(View()), task, action)
    {
      episodes := episodes + [Episode(task, action)];
    }

    method InsertActDecision(task: nat, action: nat, before: real)
      modifies this
      ensures View() == ActTxn(old(View()), task, action, before)
    {
      decisions := decisions + [ActDecision(task, action)];
      if action < |actions| {
        actions := actions[action := actions[action].(status := Applied, before := Some(before))];
      }
    }

    method InsertOutcomeDecision(task: nat, action: nat, outcome: Outcome, after: real)
      modifies this
      ensures View() == OutcomeTxn(old(View()), task, action, outcome, after)
    {
      if action < |actions| {
        actions := actions[action := actions[action].(outcome := Some(outcome), after := Some(after))];
      }
      InsertEpisode(task, action);
    }
  }
}
