/**
 `process_message` and the body of `consume_loop` (agent/main.py) as they run: their own
 effects in their order, with anything other deliveries do between any two of them. Each is
 proved to be a run of the delivery machine, so everything known of runs holds of it.
 */
module Consumer {
  import opened Prelude
  import opened Tasks
  import opened Delivery
  import opened DeliveryTheorems

  /** How the calls of one delivery turn out. */
  datatype Plan = Plan(leased: bool, observes: bool, nodes: nat, graph: GraphFate, first: bool, second: bool,
                       released: bool)

  /**
   The outcome: a known error parks and any other fails, a failing status write fails, and else
   the graph that ended is completed; one that lost its lease is parked unless it was over.
   */
  predicate Concludes(incident: bool, plan: Plan, outcome: Status) {
    match plan.graph
    case Raises(known) => outcome == if known then Parked else Failed
    case Ends => outcome == if incident && !plan.first then Failed else Completed
    case Loses =>
      if !incident then outcome == Completed
      else if !plan.first then outcome == Failed
      else outcome == Parked || outcome == Completed
  }

  /** A step of another delivery. */
  predicate Foreign(step: Step, a: nat) {
    step.Deliver? || step.a != a
  }

  predicate AllForeign(steps: seq<Step>, a: nat) {
    forall k | 0 <= k < |steps| :: Foreign(steps[k], a)
  }

  lemma ForeignStep(s: Sys, step: Step, a: nat)
    requires a < |s.attempts| && Foreign(step, a)
    ensures a < |Exec(s, step).attempts| && Exec(s, step).attempts[a] == s.attempts[a]
  {
    hide Placed, WithStatus, StatusAllowed, ObservedRow;
  }

  lemma {:induction false} ForeignKeepsAttempt(s: Sys, steps: seq<Step>, a: nat)
    requires a < |s.attempts| && AllForeign(steps, a)
    ensures a < |Run(s, steps).attempts| && Run(s, steps).attempts[a] == s.attempts[a]
  {
    hide Exec;
    if |steps| > 0 {
      var front := steps[..|steps| - 1];
      ForeignKeepsAttempt(s, front, a);
      ForeignStep(Run(s, front), steps[|steps| - 1], a);
    }
  }

  lemma RunNext(s: Sys, steps: seq<Step>, step: Step)
    ensures Run(s, steps + [step]) == Exec(Run(s, steps), step)
  {
    hide Exec;
    assert (steps + [step])[..|steps|] == steps;
  }

  class World {
    var tasks: seq<Task>
    var threads: map<string, Checkpoint>
    var attempts: seq<Attempt>
    ghost var ended: set<Input>
    /** Every step since the start, whoever took it. */
    ghost var trace: seq<Step>

    constructor ()
      ensures View() == START && trace == []
    {
      tasks, threads, attempts, ended, trace := [], map[], [], {}, [];
    }

    ghost function View(): Sys
      reads this
    {
      Sys(tasks, threads, attempts, ended)
    }

    ghost predicate Valid()
      reads this
    {
      View() == After(trace)
    }

    ghost predicate At(a: nat, m: Message, task: Option<nat>, stage: Stage)
      reads this
    {
      a < |attempts| && attempts[a] == Attempt(m, task, stage)
    }

    /** Other deliveries act. What they do is given as a step list; the state after it is given too. */
    method Others(steps: seq<Step>, a: nat)
      requires Valid() && a < |attempts| && AllForeign(steps, a)
      modifies this
      ensures Valid() && trace == old(trace) + steps && a < |attempts| && attempts[a] == old(attempts[a])
    {
      ForeignKeepsAttempt(View(), steps, a);
      RunConcat(START, trace, steps);
      var next := Run(Sys(tasks, threads, attempts, {}), steps);
      SameButEnded(View(), {}, steps);
      ended := Run(View(), steps).ended;
      tasks, threads, attempts := next.tasks, next.threads, next.attempts;
      trace := trace + steps;
    }

    /** The delivery's own effect has been carried out: log it. */
    ghost method Log(step: Step, s: Sys)
      requires s == After(trace) && View() == Exec(s, step)
      modifies this`trace
      ensures Valid() && trace == old(trace) + [step]
    {
      RunNext(START, trace, step);
      trace := trace + [step];
    }

    method Receive(m: Message, incident: bool) returns (a: nat)
      requires Valid()
      modifies this
      ensures Valid() && At(a, m, None, Probed(incident)) && a == |old(attempts)|
      ensures trace == old(trace) + [Deliver(m, incident)]
    {
      ghost var s := View();
      a := |attempts|;
      attempts := attempts + [Attempt(m, None, Probed(incident))];
      Log(Deliver(m, incident), s);
    }
  }

  /** What an attempt does never depends on which inputs have ended. */
  lemma {:induction false} SameButEnded(s: Sys, ended: set<Input>, steps: seq<Step>)
    ensures
      var t, u := Run(s, steps), Run(s.(ended := ended), steps);
      t == u.(ended := t.ended)
  {
    hide Exec;
    if |steps| > 0 {
      var front := steps[..|steps| - 1];
      SameButEnded(s, ended, front);
      EndedIsGhost(Run(s, front), Run(s.(ended := ended), front).ended, steps[|steps| - 1]);
    }
  }

  lemma EndedIsGhost(s: Sys, ended: set<Input>, step: Step)
    ensures Exec(s, step) == Exec(s.(ended := ended), step).(ended := Exec(s, step).ended)
  {
    hide Placed, WithStatus, StatusAllowed, Acknowledges;
    match step
    case Observe(a) =>
      if a < |s.attempts| && s.attempts[a].stage.InGraph? {
        SameRowObserved(s, ended, s.attempts[a].stage.input, s.attempts[a].message);
      }
    case _ =>
  }

  // ----- the effects of one delivery

  method InsertTask(w: World, a: nat)
    requires w.Valid() && a < |w.attempts| && w.attempts[a].stage == Probed(true)
    modifies w
    ensures w.Valid() && w.trace == old(w.trace) + [Insert(a)]
    ensures a < |w.attempts| && w.attempts[a].message == old(w.attempts[a].message)
    ensures w.attempts[a].stage == Inserted && w.attempts[a].task.Some?
  {
    ghost var s := w.View();
    var at := w.attempts[a];
    hide Placed, After;
    var placed := Placed(w.tasks, IncidentRow(at.message));
    w.tasks := placed.0;
    w.attempts := w.attempts[a := at.(task := Some(placed.1), stage := Inserted)];
    w.Log(Insert(a), s);
  }

  /** `get_task_status`; the row is there, because rows are never deleted while a delivery holds one. */
  method ReadStatus(w: World, a: nat)
    requires w.Valid() && a < |w.attempts| && w.attempts[a].stage == Inserted && w.attempts[a].task.Some?
    modifies w
    ensures w.Valid() && w.trace == old(w.trace) + [Look(a)] && a < |w.attempts|
    ensures exists running :: w.attempts[a] == old(w.attempts[a]).(stage := Looked(running))
  {
    ghost var s := w.View();
    var at := w.attempts[a];
    RowIsThere(w, a);
    hide After;
    var running := w.tasks[at.task.value].status == Running;
    w.attempts := w.attempts[a := at.(stage := Looked(running))];
    w.Log(Look(a), s);
  }

  lemma RowIsThere(w: World, a: nat)
    requires w.Valid() && a < |w.attempts| && w.attempts[a].task.Some?
    ensures w.attempts[a].task.value < |w.tasks|
  {
    Reachable(w.trace);
    hide After, OnePerKey;
    assert AttemptOk(w.tasks, w.ended, w.attempts[a]);
  }

  method ReadCheckpoint(w: World, a: nat)
    requires w.Valid() && a < |w.attempts| && w.attempts[a].stage.Looked?
    modifies w
    ensures w.Valid() && w.trace == old(w.trace) + [DecideResume(a)] && a < |w.attempts|
    ensures exists resuming :: w.attempts[a] == old(w.attempts[a]).(stage := Decided(resuming))
  {
    ghost var s := w.View();
    var at := w.attempts[a];
    hide After;
    var resuming := at.stage.wasRunning && at.message.fingerprint in w.threads;
    w.attempts := w.attempts[a := at.(stage := Decided(resuming))];
    w.Log(DecideResume(a), s);
  }

  /** The write that is not fenced and comes before the lease; the index may refuse it. */
  method WriteRunning(w: World, a: nat) returns (ok: bool)
    requires w.Valid() && a < |w.attempts| && w.attempts[a].stage.Decided? && w.attempts[a].task.Some?
    modifies w
    ensures w.Valid() && w.trace == old(w.trace) + [MarkRunning(a)] && a < |w.attempts|
    ensures
      var at := old(w.attempts[a]);
      w.attempts[a] == at.(stage := if ok then Marked(at.stage.resuming) else Gone)
  {
    ghost var s := w.View();
    var at := w.attempts[a];
    hide After;
    ok := StatusAllowed(w.tasks, at.task.value, Running);
    w.tasks := WithStatus(w.tasks, at.task.value, Running);
    w.attempts := w.attempts[a := at.(stage := if ok then Marked(at.stage.resuming) else Gone)];
    w.Log(MarkRunning(a), s);
  }

  method AcquireLease(w: World, a: nat, granted: bool)
    requires w.Valid() && a < |w.attempts| && w.attempts[a].stage.Marked?
    modifies w
    ensures w.Valid() && w.trace == old(w.trace) + [if granted then TakeLease(a) else Drop(a)] && a < |w.attempts|
    ensures
      var at := old(w.attempts[a]);
      w.attempts[a] == at.(stage := if granted then Leased(at.stage.resuming) else Gone)
  {
    ghost var s := w.View();
    var at := w.attempts[a];
    hide After;
    w.attempts := w.attempts[a := at.(stage := if granted then Leased(at.stage.resuming) else Gone)];
    w.Log(if granted then TakeLease(a) else Drop(a), s);
  }

  method StartGraph(w: World, a: nat)
    requires w.Valid() && a < |w.attempts|
    requires w.attempts[a].stage == Probed(false) || (w.attempts[a].stage.Leased? && w.attempts[a].task.Some?)
    modifies w
    ensures w.Valid() && w.trace == old(w.trace) + [Invoke(a)] && a < |w.attempts|
    ensures w.attempts[a] == old(w.attempts[a]).(stage := w.attempts[a].stage) && InputAt(w.attempts[a].stage).Some?
  {
    ghost var s := w.View();
    var at := w.attempts[a];
    var fp := at.message.fingerprint;
    hide After;
    if at.stage.Leased? && at.stage.resuming && fp in w.threads {
      var c := w.threads[fp];
      w.attempts := w.attempts[a := at.(stage := if c.finished then GraphOver(c.input) else InGraph(c.input))];
    } else {
      var input := if at.stage.Leased? then OfTask(at.task.value) else OfSweep(a);
      w.threads := w.threads[fp := Checkpoint(input, false)];
      w.attempts := w.attempts[a := at.(stage := InGraph(input))];
    }
    w.Log(Invoke(a), s);
  }

  /** One effect of the graph: a node's checkpoint, the observe node's row, or the end. */
  method GraphEffect(w: World, a: nat, step: Step)
    requires w.Valid() && a < |w.attempts| && w.attempts[a].stage.InGraph?
    requires step == Observe(a) || step == CommitNode(a) || step == EndGraph(a)
    modifies w
    ensures w.Valid() && w.trace == old(w.trace) + [step] && a < |w.attempts|
    ensures
      var at := old(w.attempts[a]);
      w.attempts[a] == if step == EndGraph(a) then at.(stage := GraphOver(at.stage.input)) else at
  {
    ghost var s := w.View();
    var at := w.attempts[a];
    var fp := at.message.fingerprint;
    hide After, Placed, ObservedRow;
    if step == Observe(a) {
      w.tasks := Placed(w.tasks, ObservedRow(Sys(w.tasks, w.threads, w.attempts, {}), at.stage.input, at.message)).0;
      SameRowObserved(s, {}, at.stage.input, at.message);
    } else {
      w.threads := w.threads[fp := Checkpoint(at.stage.input, step == EndGraph(a))];
      if step == EndGraph(a) {
        w.attempts := w.attempts[a := at.(stage := GraphOver(at.stage.input))];
        w.ended := w.ended + {at.stage.input};
      }
    }
    w.Log(step, s);
  }

  lemma SameRowObserved(s: Sys, ended: set<Input>, input: Input, m: Message)
    ensures ObservedRow(s, input, m) == ObservedRow(s.(ended := ended), input, m)
  {
  }

  /** The graph raises, or the lease is found lost while it runs. */
  method Interrupt(w: World, a: nat, step: Step)
    requires w.Valid() && a < |w.attempts|
    requires InputAt(w.attempts[a].stage).Some?
    requires step == Raise(a, true) || step == Raise(a, false) || step == LoseLease(a)
    requires step == LoseLease(a) ==> w.attempts[a].stage.InGraph? && w.attempts[a].task.Some?
    modifies w
    ensures w.Valid() && w.trace == old(w.trace) + [step] && a < |w.attempts|
    ensures
      var at := old(w.attempts[a]);
      w.attempts[a] == at.(stage :=
        if step == LoseLease(a) then LeaseLost
        else
          var outcome := if step.known then Parked else Failed;
          if at.task.Some? then Excepting(outcome) else Returned(outcome, false))
  {
    ghost var s := w.View();
    var at := w.attempts[a];
    hide After;
    if step == LoseLease(a) {
      w.attempts := w.attempts[a := at.(stage := LeaseLost)];
    } else {
      var outcome := if step.known then Parked else Failed;
      w.attempts := w.attempts[a :=
          at.(stage := if at.task.Some? then Excepting(outcome) else Returned(outcome, false))];
    }
    w.Log(step, s);
  }

  /** One final status write, or its failure. */
  method WriteOutcome(w: World, a: nat, written: bool)
    requires w.Valid() && a < |w.attempts| && w.attempts[a].task.Some?
    requires w.attempts[a].stage.GraphOver? || w.attempts[a].stage.LeaseLost? || w.attempts[a].stage.Excepting?
    modifies w
    ensures w.Valid() && w.trace == old(w.trace) + [Record(a, written)] && a < |w.attempts|
    ensures
      var at := old(w.attempts[a]);
      w.attempts[a] == at.(stage :=
        if written then Closing(Intended(at.stage), true)
        else if at.stage.Excepting? then Closing(at.stage.outcome, false)
        else Excepting(Failed))
  {
    ghost var s := w.View();
    var at := w.attempts[a];
    var id := at.task.value;
    hide After, WithStatus, StatusAllowed;
    if written {
      w.tasks := WithStatus(w.tasks, id, Intended(at.stage));
      w.attempts := w.attempts[a := at.(stage := Closing(Intended(at.stage), true))];
    } else if at.stage.Excepting? {
      w.attempts := w.attempts[a := at.(stage := Closing(at.stage.outcome, false))];
    } else {
      w.attempts := w.attempts[a := at.(stage := Excepting(Failed))];
    }
    w.Log(Record(a, written), s);
  }

  /** The status that the final write is for. */
  function Intended(stage: Stage): Status {
    match stage
    case GraphOver(_) => Completed
    case Excepting(outcome) => outcome
    case _ => Parked
  }

  method ReleaseLease(w: World, a: nat, released: bool)
    requires w.Valid() && a < |w.attempts| && w.attempts[a].stage.Closing?
    modifies w
    ensures w.Valid() && w.trace == old(w.trace) + [Release(a, released)] && a < |w.attempts|
    ensures
      var at := old(w.attempts[a]);
      w.attempts[a] == at.(stage := if released then Returned(at.stage.outcome, at.stage.recorded) else Gone)
  {
    ghost var s := w.View();
    var at := w.attempts[a];
    hide After;
    w.attempts := w.attempts[a :=
        at.(stage := if released then Returned(at.stage.outcome, at.stage.recorded) else Gone)];
    w.Log(Release(a, released), s);
  }

  // ----- the message

  /** From the pre-insert to the lease. A refused status write, or lease, is raised out of `process_message`. */
  method OpenTask(w: World, a: nat, plan: Plan, env: nat -> seq<Step>) returns (ok: bool)
    requires w.Valid() && a < |w.attempts| && w.attempts[a].stage == Probed(true)
    requires forall e: nat :: AllForeign(env(e), a)
    modifies w
    ensures w.Valid() && old(w.trace) <= w.trace && a < |w.attempts|
    ensures w.attempts[a].message == old(w.attempts[a].message) && w.attempts[a].task.Some?
    ensures if ok then w.attempts[a].stage.Leased? && plan.leased else w.attempts[a].stage == Gone
  {
    hide After, AllForeign;
    w.Others(env(0), a);
    InsertTask(w, a);
    w.Others(env(1), a);
    ReadStatus(w, a);
    w.Others(env(2), a);
    ReadCheckpoint(w, a);
    w.Others(env(3), a);
    ok := WriteRunning(w, a);
    if ok {
      w.Others(env(4), a);
      AcquireLease(w, a, plan.leased);
      ok := plan.leased;
    }
  }

  /** The nodes of one graph run, the observe node if it is among them, and everything else in between. */
  method RunNodes(w: World, a: nat, observes: bool, nodes: nat, env: nat -> seq<Step>)
    requires w.Valid() && a < |w.attempts| && w.attempts[a].stage.InGraph?
    requires forall e: nat :: AllForeign(env(e), a)
    modifies w
    ensures w.Valid() && old(w.trace) <= w.trace && a < |w.attempts| && w.attempts[a] == old(w.attempts[a])
  {
    hide After, AllForeign;
    if observes {
      GraphEffect(w, a, Observe(a));
    }
    for k := 0 to nodes
      invariant w.Valid() && old(w.trace) <= w.trace && a < |w.attempts| && w.attempts[a] == old(w.attempts[a])
    {
      w.Others(env(k), a);
      GraphEffect(w, a, CommitNode(a));
    }
  }

  /** `ainvoke` against the lease: the graph ends, raises, or is cancelled because the lease is lost. */
  method RunGraph(w: World, a: nat, plan: Plan, env: nat -> seq<Step>)
    requires w.Valid() && a < |w.attempts|
    requires w.attempts[a].stage == Probed(false) || (w.attempts[a].stage.Leased? && w.attempts[a].task.Some?)
    requires forall e: nat :: AllForeign(env(e), a)
    modifies w
    ensures w.Valid() && old(w.trace) <= w.trace && a < |w.attempts|
    ensures w.attempts[a] == old(w.attempts[a]).(stage := w.attempts[a].stage)
    ensures
      var task, stage := w.attempts[a].task, w.attempts[a].stage;
      && (plan.graph.Raises? ==>
            var outcome := if plan.graph.known then Parked else Failed;
            stage == if task.Some? then Excepting(outcome) else Returned(outcome, false))
      && (!plan.graph.Raises? ==> stage.GraphOver? || (plan.graph == Loses && task.Some? && stage == LeaseLost))
  {
    hide After, AllForeign;
    w.Others(env(5), a);
    StartGraph(w, a);
    if w.attempts[a].stage.InGraph? {
      RunNodes(w, a, plan.observes, plan.nodes, env);
      w.Others(env(6), a);
    }
    if plan.graph.Raises? {
      Interrupt(w, a, Raise(a, plan.graph.known));
    } else if w.attempts[a].stage.InGraph? {
      if plan.graph == Loses && w.attempts[a].task.Some? {
        Interrupt(w, a, LoseLease(a));
      } else {
        GraphEffect(w, a, EndGraph(a));
      }
    }
  }

  /** The status writes and the release. The handler suppresses its own failing write. */
  method Finish(w: World, a: nat, plan: Plan, env: nat -> seq<Step>) returns (outcome: Option<Status>)
    requires w.Valid() && a < |w.attempts| && w.attempts[a].task.Some?
    requires w.attempts[a].stage.GraphOver? || w.attempts[a].stage.LeaseLost? || w.attempts[a].stage.Excepting?
    requires forall e: nat :: AllForeign(env(e), a)
    modifies w
    ensures w.Valid() && old(w.trace) <= w.trace && a < |w.attempts|
    ensures
      var stage := old(w.attempts[a].stage);
      var result :=
        if plan.first then Closing(Intended(stage), true)
        else if stage.Excepting? then Closing(stage.outcome, false)
        else Closing(Failed, plan.second);
      && w.attempts[a] == old(w.attempts[a]).(stage :=
          if plan.released then Returned(result.outcome, result.recorded) else Gone)
      && outcome == if plan.released then Some(result.outcome) else None
  {
    hide After, AllForeign;
    w.Others(env(7), a);
    WriteOutcome(w, a, plan.first);
    if w.attempts[a].stage.Excepting? {
      w.Others(env(8), a);
      WriteOutcome(w, a, plan.second);
    }
    outcome := if plan.released then Some(w.attempts[a].stage.outcome) else None;
    w.Others(env(9), a);
    ReleaseLease(w, a, plan.released);
  }

  /**
   `process_message`, while anything else happens: a run of the machine. None stands for an
   exception that leaves it. An incident that it reports completed or parked has had that
   status written, except exactly when a known error was met by a failing suppressed write.
   */
  method ProcessMessage(w: World, a: nat, plan: Plan, env: nat -> seq<Step>) returns (outcome: Option<Status>)
    requires w.Valid() && a < |w.attempts| && w.attempts[a].task.None? && w.attempts[a].stage.Probed?
    requires forall e: nat :: AllForeign(env(e), a)
    modifies w
    ensures w.Valid() && old(w.trace) <= w.trace && a < |w.attempts|
    ensures w.attempts[a].message == old(w.attempts[a].message)
    ensures
      var at, incident := w.attempts[a], old(w.attempts[a].stage.incident);
      match outcome
      case None => incident && at.stage == Gone
      case Some(status) =>
        && at.stage.Returned? && at.stage.outcome == status && (incident <==> at.task.Some?)
        && (incident ==> plan.leased && plan.released)
        && (incident ==> (at.stage.recorded <==> plan.first || (!plan.graph.Raises? && plan.second)))
        && Concludes(incident, plan, status)
  {
    hide After, AllForeign;
    if w.attempts[a].stage.incident {
      var ok := OpenTask(w, a, plan, env);
      if !ok {
        return None;
      }
      RunGraph(w, a, plan, env);
      outcome := Finish(w, a, plan, env);
    } else {
      RunGraph(w, a, plan, env);
      if w.attempts[a].stage.GraphOver? {
        EndSweep(w, a);
      }
      outcome := Some(w.attempts[a].stage.outcome);
    }
  }

  method EndSweep(w: World, a: nat)
    requires w.Valid() && a < |w.attempts| && w.attempts[a].task.None? && w.attempts[a].stage.GraphOver?
    modifies w
    ensures w.Valid() && w.trace == old(w.trace) + [Record(a, true)] && a < |w.attempts|
    ensures w.attempts[a] == old(w.attempts[a]).(stage := Returned(Completed, false))
  {
    ghost var s := w.View();
    hide After;
    w.attempts := w.attempts[a := w.attempts[a].(stage := Returned(Completed, false))];
    w.Log(Record(a, true), s);
  }

  /** One turn of `consume_loop`: the message is deleted exactly on 'completed' and 'parked', if the queue lets it. */
  method ConsumeOne(w: World, m: Message, incident: bool, plan: Plan, env: nat -> seq<Step>, deletable: bool)
    returns (a: nat, outcome: Option<Status>, deleted: bool)
    requires w.Valid() && forall e: nat :: AllForeign(env(e), |w.attempts|)
    modifies w
    ensures w.Valid() && old(w.trace) <= w.trace && a == |old(w.attempts)| && a < |w.attempts|
    ensures w.attempts[a].message == m
    ensures deleted <==> deletable && (outcome == Some(Completed) || outcome == Some(Parked))
    ensures deleted <==> w.attempts[a].stage.Deleted?
    ensures deleted ==> w.attempts[a].stage.outcome == outcome.value
    ensures outcome.Some? ==> Concludes(incident, plan, outcome.value)
    ensures outcome.None? ==> incident
    ensures deleted && incident ==> plan.leased && plan.released
    ensures deleted && incident ==> (w.attempts[a].stage.recorded <==> !(plan.graph == Raises(true) && !plan.first))
  {
    hide After, AllForeign;
    a := w.Receive(m, incident);
    outcome := ProcessMessage(w, a, plan, env);
    deleted := false;
    if outcome.Some? {
      deleted := DeleteMessage(w, a, deletable);
    }
  }

  method DeleteMessage(w: World, a: nat, deletable: bool) returns (deleted: bool)
    requires w.Valid() && a < |w.attempts| && w.attempts[a].stage.Returned?
    modifies w
    ensures w.Valid() && w.trace == old(w.trace) + [Delete(a, deletable)] && a < |w.attempts|
    ensures
      var at := old(w.attempts[a]);
      && deleted == (deletable && Acknowledges(at.stage.outcome))
      && w.attempts[a] == at.(stage := if deleted then Deleted(at.stage.outcome, at.stage.recorded) else Gone)
  {
    ghost var s := w.View();
    var at := w.attempts[a];
    hide After;
    deleted := deletable && Acknowledges(at.stage.outcome);
    w.attempts := w.attempts[a := at.(stage := if deleted then Deleted(at.stage.outcome, at.stage.recorded) else Gone)];
    w.Log(Delete(a, deletable), s);
  }
}
