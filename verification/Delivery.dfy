/**
 The consumer (agent/main.py): `process_message`, its resume decision and the
 acknowledgement rule, as a machine in which any number of deliveries take their steps in any
 interleaving. Checkpoints are kept per query fingerprint, tasks per cluster and fingerprint,
 and the fingerprint stands for the normalized text. A run of the machine is a list of steps;
 a step that is not enabled changes nothing.
 */
module Delivery {
  import opened Prelude
  import opened Tasks

  datatype Message = Message(scope: string, cluster: string, fingerprint: string)

  /** The input a graph works on: that of an incident's task, or of one sweep delivery. */
  datatype Input = OfTask(id: nat) | OfSweep(a: nat)

  /** The last checkpoint committed on a thread. */
  datatype Checkpoint = Checkpoint(input: Input, finished: bool)

  /** Where one delivery stands between two of its effects. */
  datatype Stage =
    | Probed(incident: bool)
    | Inserted
    | Looked(wasRunning: bool)
    | Decided(resuming: bool)
    | Marked(resuming: bool)
    | Leased(resuming: bool)
    | InGraph(input: Input)
    | GraphOver(input: Input)
    | LeaseLost
    | Excepting(outcome: Status)
    | Closing(outcome: Status, recorded: bool)
    | Returned(outcome: Status, recorded: bool)
    | Deleted(outcome: Status, recorded: bool)
    | Gone

  /** `task` is the incident's row once it is known; a sweep has none. */
  datatype Attempt = Attempt(message: Message, task: Option<nat>, stage: Stage)

  /** `ended` are the inputs whose graph has run to its end. */
  datatype Sys = Sys(tasks: seq<Task>, threads: map<string, Checkpoint>, attempts: seq<Attempt>, ended: set<Input>)

  const START: Sys := Sys([], map[], [], {})

  datatype Step =
    | Deliver(message: Message, incident: bool)
    | Insert(a: nat)
    | Look(a: nat)
    | DecideResume(a: nat)
    | MarkRunning(a: nat)
    | TakeLease(a: nat)
    | Invoke(a: nat)
    | Observe(a: nat)
    | CommitNode(a: nat)
    | EndGraph(a: nat)
    | Raise(a: nat, known: bool)
    | LoseLease(a: nat)
    | Record(a: nat, written: bool)
    | Release(a: nat, released: bool)
    | Delete(a: nat, deleted: bool)
    | Drop(a: nat)

  function IncidentRow(m: Message): Task {
    Task(m.scope, Incident, Pending, m.cluster, Some(m.fingerprint))
  }

  function Goto(s: Sys, a: nat, stage: Stage): Sys
    requires a < |s.attempts|
  {
    s.(attempts := s.attempts[a := s.attempts[a].(stage := stage)])
  }

  function Commit(s: Sys, fp: string, c: Checkpoint): Sys {
    s.(threads := s.threads[fp := c])
  }

  /** `insert_task`: the active incident of the key, or a new pending one. */
  function InsertBy(s: Sys, a: nat): Sys
    requires a < |s.attempts|
  {
    var at := s.attempts[a];
    if at.stage != Probed(true) then s
    else
      var (tasks, id) := Placed(s.tasks, IncidentRow(at.message));
      s.(tasks := tasks, attempts := s.attempts[a := at.(task := Some(id), stage := Inserted)])
  }

  /** `get_task_status`. */
  function LookBy(s: Sys, a: nat): Sys
    requires a < |s.attempts|
  {
    var at := s.attempts[a];
    if !at.stage.Inserted? || at.task.None? || at.task.value >= |s.tasks| then s
    else Goto(s, a, Looked(s.tasks[at.task.value].status == Running))
  }

  /** `_should_resume`: the task was running, and its thread has any checkpoint at all. */
  function DecideBy(s: Sys, a: nat): Sys
    requires a < |s.attempts|
  {
    var at := s.attempts[a];
    if !at.stage.Looked? then s else Goto(s, a, Decided(at.stage.wasRunning && at.message.fingerprint in s.threads))
  }

  /** `update_task_status(task, 'running')`; a refusal by the index is raised. */
  function MarkBy(s: Sys, a: nat): Sys
    requires a < |s.attempts|
  {
    var at := s.attempts[a];
    if !at.stage.Decided? || at.task.None? then s
    else if !StatusAllowed(s.tasks, at.task.value, Running) then Goto(s, a, Gone)
    else Goto(s.(tasks := WithStatus(s.tasks, at.task.value, Running)), a, Marked(at.stage.resuming))
  }

  /** `ainvoke`: a resumption takes up whatever its thread holds; any other commits its own input first. */
  function InvokeBy(s: Sys, a: nat): Sys
    requires a < |s.attempts|
  {
    var at := s.attempts[a];
    var fp := at.message.fingerprint;
    if at.stage == Probed(false) then Goto(Commit(s, fp, Checkpoint(OfSweep(a), false)), a, InGraph(OfSweep(a)))
    else if !at.stage.Leased? || at.task.None? then s
    else if at.stage.resuming && fp in s.threads then
      var c := s.threads[fp];
      Goto(s, a, if c.finished then GraphOver(c.input) else InGraph(c.input))
    else Goto(Commit(s, fp, Checkpoint(OfTask(at.task.value), false)), a, InGraph(OfTask(at.task.value)))
  }

  /** The row that the observe node asks for: an incident's again, or a sweep's. */
  function ObservedRow(s: Sys, input: Input, m: Message): Task {
    if input.OfTask? && input.id < |s.tasks| then s.tasks[input.id].(status := Pending)
    else Task(m.scope, Sweep, Pending, m.cluster, None)
  }

  /** The observe node's own front-door insertion. */
  function ObserveBy(s: Sys, a: nat): Sys
    requires a < |s.attempts|
  {
    var at := s.attempts[a];
    if at.stage.InGraph? then s.(tasks := Placed(s.tasks, ObservedRow(s, at.stage.input, at.message)).0) else s
  }

  function CommitBy(s: Sys, a: nat): Sys
    requires a < |s.attempts|
  {
    var at := s.attempts[a];
    if at.stage.InGraph? then Commit(s, at.message.fingerprint, Checkpoint(at.stage.input, false)) else s
  }

  function EndBy(s: Sys, a: nat): Sys
    requires a < |s.attempts|
  {
    var at := s.attempts[a];
    if !at.stage.InGraph? then s
    else
      var t := Commit(s, at.message.fingerprint, Checkpoint(at.stage.input, true));
      Goto(t.(ended := t.ended + {at.stage.input}), a, GraphOver(at.stage.input))
  }

  /** `_classify_exception`: known errors park, any other fails. A sweep returns at once. */
  function RaiseBy(s: Sys, a: nat, known: bool): Sys
    requires a < |s.attempts|
  {
    var at, outcome := s.attempts[a], if known then Parked else Failed;
    if !(at.stage.InGraph? || at.stage.GraphOver?) then s
    else if at.task.Some? then Goto(s, a, Excepting(outcome))
    else Goto(s, a, Returned(outcome, false))
  }

  /** The final status write. One that fails inside the try block is classified; one in the handler is suppressed. */
  function RecordBy(s: Sys, a: nat, written: bool): Sys
    requires a < |s.attempts|
  {
    var at := s.attempts[a];
    if at.task.None? then if at.stage.GraphOver? then Goto(s, a, Returned(Completed, false)) else s
    else
      var id := at.task.value;
      match at.stage
      case GraphOver(_) => if written then Recorded(s, a, id, Completed) else Goto(s, a, Excepting(Failed))
      case LeaseLost => if written then Recorded(s, a, id, Parked) else Goto(s, a, Excepting(Failed))
      case Excepting(outcome) => if written then Recorded(s, a, id, outcome) else Goto(s, a, Closing(outcome, false))
      case _ => s
  }

  function Recorded(s: Sys, a: nat, id: nat, outcome: Status): Sys
    requires a < |s.attempts|
  {
    Goto(s.(tasks := WithStatus(s.tasks, id, outcome)), a, Closing(outcome, true))
  }

  /** `lease.release()` in the finally block: what it raises leaves `process_message`. */
  function ReleaseBy(s: Sys, a: nat, released: bool): Sys
    requires a < |s.attempts|
  {
    var st := s.attempts[a].stage;
    if !st.Closing? then s else Goto(s, a, if released then Returned(st.outcome, st.recorded) else Gone)
  }

  predicate Acknowledges(outcome: Status) {
    outcome == Completed || outcome == Parked
  }

  /** `consume_loop`: a failed outcome, or a failing delete, leaves the message for redelivery. */
  function DeleteBy(s: Sys, a: nat, deleted: bool): Sys
    requires a < |s.attempts|
  {
    var st := s.attempts[a].stage;
    if !st.Returned? then s
    else Goto(s, a, if deleted && Acknowledges(st.outcome) then Deleted(st.outcome, st.recorded) else Gone)
  }

  function StepAttempt(s: Sys, a: nat, step: Step): Sys
    requires a < |s.attempts|
  {
    var stage := s.attempts[a].stage;
    match step
    case Insert(_) => InsertBy(s, a)
    case Look(_) => LookBy(s, a)
    case DecideResume(_) => DecideBy(s, a)
    case MarkRunning(_) => MarkBy(s, a)
    case TakeLease(_) => if stage.Marked? then Goto(s, a, Leased(stage.resuming)) else s
    case Invoke(_) => InvokeBy(s, a)
    case Observe(_) => ObserveBy(s, a)
    case CommitNode(_) => CommitBy(s, a)
    case EndGraph(_) => EndBy(s, a)
    case Raise(_, known) => RaiseBy(s, a, known)
    case LoseLease(_) => if stage.InGraph? && s.attempts[a].task.Some? then Goto(s, a, LeaseLost) else s
    case Record(_, written) => RecordBy(s, a, written)
    case Release(_, released) => ReleaseBy(s, a, released)
    case Delete(_, deleted) => DeleteBy(s, a, deleted)
    case Drop(_) => if stage.Deleted? then s else Goto(s, a, Gone)
    case _ => s
  }

  function Exec(s: Sys, step: Step): Sys {
    match step
    case Deliver(m, incident) => s.(attempts := s.attempts + [Attempt(m, None, Probed(incident))])
    case _ => if step.a < |s.attempts| then StepAttempt(s, step.a, step) else s
  }

  function Run(s: Sys, steps: seq<Step>): Sys {
    if |steps| == 0 then s else Exec(Run(s, steps[..|steps| - 1]), steps[|steps| - 1])
  }

  function After(steps: seq<Step>): Sys {
    Run(START, steps)
  }

  // ----- the invariant

  /** The row belongs to the message's key. */
  predicate RowOf(tasks: seq<Task>, id: nat, m: Message) {
    id < |tasks| && tasks[id].kind == Incident && tasks[id].cluster == m.cluster
      && tasks[id].fingerprint == Some(m.fingerprint)
  }

  /** An input on a thread is a sweep's, or that of a task with the thread's fingerprint. */
  predicate InputOf(tasks: seq<Task>, input: Input, fp: string) {
    input.OfTask? ==> input.id < |tasks| && tasks[input.id].kind == Incident && tasks[input.id].fingerprint == Some(fp)
  }

  predicate NeedsTask(stage: Stage) {
    stage.Inserted? || stage.Looked? || stage.Decided? || stage.Marked? || stage.Leased?
    || stage.LeaseLost? || stage.Excepting? || stage.Closing?
  }

  predicate AttemptOk(tasks: seq<Task>, ended: set<Input>, at: Attempt) {
    && (at.task.Some? ==> RowOf(tasks, at.task.value, at.message))
    && (NeedsTask(at.stage) ==> at.task.Some?)
    && (at.stage.InGraph? || at.stage.GraphOver? ==> InputOf(tasks, at.stage.input, at.message.fingerprint))
    && (at.stage.GraphOver? ==> at.stage.input in ended)
    && (at.stage.Probed? ==> at.task.None?)
    && (at.stage.Excepting? ==> at.stage.outcome == Parked || at.stage.outcome == Failed)
  }

  predicate ThreadOk(tasks: seq<Task>, ended: set<Input>, fp: string, c: Checkpoint) {
    InputOf(tasks, c.input, fp) && (c.finished ==> c.input in ended)
  }

  predicate Inv(s: Sys) {
    && OnePerKey(s.tasks)
    && (forall a | 0 <= a < |s.attempts| :: AttemptOk(s.tasks, s.ended, s.attempts[a]))
    && (forall fp | fp in s.threads :: ThreadOk(s.tasks, s.ended, fp, s.threads[fp]))
    && (forall input | input in s.ended :: EndedOk(s.tasks, input))
  }

  predicate EndedOk(tasks: seq<Task>, input: Input) {
    input.OfTask? ==> input.id < |tasks|
  }

  /** Rows keep their key and only new ones are added; ended inputs stay ended. */
  predicate SameRow(t: Task, u: Task) {
    t == u.(status := t.status)
  }

  predicate Grew(tasks: seq<Task>, after: seq<Task>) {
    |tasks| <= |after| && forall i | 0 <= i < |tasks| :: SameRow(tasks[i], after[i])
  }

  /** The parts of a move that every step is made of: what is new is right, and at most one thread changes. */
  predicate Moved(s: Sys, t: Sys, fp: string) {
    && OnePerKey(t.tasks) && Grew(s.tasks, t.tasks) && s.ended <= t.ended
    && (forall at | at in t.attempts :: at in s.attempts || AttemptOk(t.tasks, t.ended, at))
    && (forall f | f in t.threads :: SameThread(s, t, f) || (f == fp && ThreadOk(t.tasks, t.ended, f, t.threads[f])))
    && (forall input | input in t.ended :: input in s.ended || EndedOk(t.tasks, input))
  }

  predicate SameThread(s: Sys, t: Sys, fp: string) {
    fp in s.threads && fp in t.threads && t.threads[fp] == s.threads[fp]
  }

  lemma MoveOk(s: Sys, t: Sys, fp: string)
    requires Inv(s) && Moved(s, t, fp)
    ensures Inv(t)
  {
    hide OnePerKey;
    forall a | 0 <= a < |t.attempts| ensures AttemptOk(t.tasks, t.ended, t.attempts[a]) {
      if t.attempts[a] in s.attempts {
        AttemptStays(s, t, t.attempts[a]);
      }
    }
    forall f | f in t.threads ensures ThreadOk(t.tasks, t.ended, f, t.threads[f]) {
      if f in s.threads && t.threads[f] == s.threads[f] {
        InputStays(s.tasks, t.tasks, t.threads[f].input, f);
      }
    }
  }

  lemma InputStays(tasks: seq<Task>, after: seq<Task>, input: Input, fp: string)
    requires Grew(tasks, after) && InputOf(tasks, input, fp)
    ensures InputOf(after, input, fp)
  {
    if input.OfTask? {
      assert SameRow(tasks[input.id], after[input.id]);
    }
  }

  lemma RowStays(tasks: seq<Task>, after: seq<Task>, id: nat, m: Message)
    requires Grew(tasks, after) && RowOf(tasks, id, m)
    ensures RowOf(after, id, m)
  {
    assert SameRow(tasks[id], after[id]);
  }

  lemma AttemptStays(s: Sys, t: Sys, at: Attempt)
    requires AttemptOk(s.tasks, s.ended, at) && Grew(s.tasks, t.tasks) && s.ended <= t.ended
    ensures AttemptOk(t.tasks, t.ended, at)
  {
    hide Grew, RowOf, InputOf;
    if at.task.Some? {
      RowStays(s.tasks, t.tasks, at.task.value, at.message);
    }
    if at.stage.InGraph? || at.stage.GraphOver? {
      InputStays(s.tasks, t.tasks, at.stage.input, at.message.fingerprint);
    }
  }

  lemma GrewSelf(tasks: seq<Task>)
    ensures Grew(tasks, tasks)
  {
  }

  lemma PlacedGrew(tasks: seq<Task>, t: Task)
    requires OnePerKey(tasks)
    ensures OnePerKey(Placed(tasks, t).0) && Grew(tasks, Placed(tasks, t).0)
    ensures Placed(tasks, t).1 < |Placed(tasks, t).0|
    ensures t.kind == Incident && IsActive(t.status) && t.fingerprint.Some? ==>
      Indexed(Placed(tasks, t).0[Placed(tasks, t).1], t.cluster, t.fingerprint.value)
  {
    PlacedKeepsKeys(tasks, t);
    hide OnePerKey;
  }

  lemma StatusGrew(tasks: seq<Task>, id: nat, status: Status)
    requires OnePerKey(tasks)
    ensures OnePerKey(WithStatus(tasks, id, status)) && Grew(tasks, WithStatus(tasks, id, status))
  {
    StatusKeepsKeys(tasks, id, status);
    hide OnePerKey;
  }

  lemma InsertOk(s: Sys, a: nat)
    requires Inv(s) && a < |s.attempts|
    ensures Inv(InsertBy(s, a)) && Grew(s.tasks, InsertBy(s, a).tasks)
  {
    var at := s.attempts[a];
    assert AttemptOk(s.tasks, s.ended, at);
    PlacedGrew(s.tasks, IncidentRow(at.message));
    GrewSelf(s.tasks);
    hide OnePerKey, Grew, Placed;
    MoveOk(s, InsertBy(s, a), at.message.fingerprint);
  }

  lemma MarkOk(s: Sys, a: nat)
    requires Inv(s) && a < |s.attempts|
    ensures Inv(MarkBy(s, a)) && Grew(s.tasks, MarkBy(s, a).tasks)
  {
    var at, t := s.attempts[a], MarkBy(s, a);
    assert AttemptOk(s.tasks, s.ended, at);
    GrewSelf(s.tasks);
    if at.task.Some? {
      StatusGrew(s.tasks, at.task.value, Running);
    }
    hide OnePerKey, Grew, WithStatus, StatusAllowed;
    AttemptStays(s, t, at);
    MoveOk(s, t, at.message.fingerprint);
  }

  lemma RecordOk(s: Sys, a: nat, written: bool)
    requires Inv(s) && a < |s.attempts|
    ensures Inv(RecordBy(s, a, written)) && Grew(s.tasks, RecordBy(s, a, written).tasks)
  {
    var at, t := s.attempts[a], RecordBy(s, a, written);
    assert AttemptOk(s.tasks, s.ended, at);
    GrewSelf(s.tasks);
    if at.task.Some? {
      StatusGrew(s.tasks, at.task.value, Completed);
      StatusGrew(s.tasks, at.task.value, Parked);
      if at.stage.Excepting? {
        StatusGrew(s.tasks, at.task.value, at.stage.outcome);
      }
    }
    hide OnePerKey, Grew, WithStatus, RowOf, InputOf;
    AttemptStays(s, t, at);
    assert AttemptOk(t.tasks, t.ended, t.attempts[a]);
    hide AttemptOk, ThreadOk, EndedOk;
    MoveOk(s, t, at.message.fingerprint);
  }

  lemma InvokeOk(s: Sys, a: nat)
    requires Inv(s) && a < |s.attempts|
    ensures Inv(InvokeBy(s, a))
  {
    var at := s.attempts[a];
    assert AttemptOk(s.tasks, s.ended, at);
    GrewSelf(s.tasks);
    hide OnePerKey, Grew;
    if at.message.fingerprint in s.threads {
      assert ThreadOk(s.tasks, s.ended, at.message.fingerprint, s.threads[at.message.fingerprint]);
    }
    MoveOk(s, InvokeBy(s, a), at.message.fingerprint);
  }

  lemma GraphStepOk(s: Sys, a: nat)
    requires Inv(s) && a < |s.attempts|
    ensures Inv(ObserveBy(s, a)) && Inv(CommitBy(s, a)) && Inv(EndBy(s, a))
    ensures Grew(s.tasks, ObserveBy(s, a).tasks)
  {
    var at := s.attempts[a];
    var m := at.message;
    assert AttemptOk(s.tasks, s.ended, at);
    GrewSelf(s.tasks);
    if at.stage.InGraph? {
      PlacedGrew(s.tasks, ObservedRow(s, at.stage.input, m));
    }
    hide OnePerKey, Grew, Placed, ObservedRow;
    MoveOk(s, ObserveBy(s, a), m.fingerprint);
    MoveOk(s, CommitBy(s, a), m.fingerprint);
    MoveOk(s, EndBy(s, a), m.fingerprint);
  }

  /** Steps that only move the attempt. */
  predicate IsQuiet(step: Step) {
    step.Deliver? || step.Look? || step.DecideResume? || step.TakeLease? || step.Raise? || step.LoseLease?
    || step.Release? || step.Delete? || step.Drop?
  }

  /** A quiet step changes its own attempt at most, and leaves it right. */
  lemma QuietAttemptOk(s: Sys, step: Step)
    requires IsQuiet(step) && !step.Deliver? && step.a < |s.attempts|
    requires AttemptOk(s.tasks, s.ended, s.attempts[step.a])
    ensures
      var t, a := Exec(s, step), step.a;
      && |t.attempts| == |s.attempts| && t == s.(attempts := s.attempts[a := t.attempts[a]])
      && AttemptOk(s.tasks, s.ended, t.attempts[a])
  {
    assert s.attempts[step.a := s.attempts[step.a]] == s.attempts;
    hide RowOf, InputOf, InsertBy, MarkBy, InvokeBy, ObserveBy, CommitBy, EndBy, RecordBy;
  }

  lemma QuietStepOk(s: Sys, step: Step)
    requires Inv(s) && IsQuiet(step)
    ensures Inv(Exec(s, step)) && Exec(s, step).tasks == s.tasks
  {
    GrewSelf(s.tasks);
    hide OnePerKey, Grew, RowOf, InputOf, StepAttempt;
    if step.Deliver? || step.a >= |s.attempts| {
      MoveOk(s, Exec(s, step), "");
    } else {
      assert AttemptOk(s.tasks, s.ended, s.attempts[step.a]);
      QuietAttemptOk(s, step);
      hide Exec, AttemptOk, ThreadOk, EndedOk;
      MoveOk(s, Exec(s, step), "");
    }
  }

  lemma StepOk(s: Sys, step: Step)
    requires Inv(s)
    ensures Inv(Exec(s, step)) && Grew(s.tasks, Exec(s, step).tasks)
  {
    GrewSelf(s.tasks);
    hide Inv, Grew, InsertBy, MarkBy, RecordBy, InvokeBy, ObserveBy, CommitBy, EndBy;
    if !step.Deliver? && step.a < |s.attempts| {
      match step
      case Insert(a) => InsertOk(s, a);
      case MarkRunning(a) => MarkOk(s, a);
      case Record(a, written) => RecordOk(s, a, written);
      case Invoke(a) =>
        InvokeOk(s, a);
        InvokeKeepsTasks(s, a);
      case Observe(a) => GraphStepOk(s, a);
      case CommitNode(a) =>
        GraphStepOk(s, a);
        InvokeKeepsTasks(s, a);
      case EndGraph(a) =>
        GraphStepOk(s, a);
        InvokeKeepsTasks(s, a);
      case _ => QuietStepOk(s, step);
    } else if step.Deliver? {
      QuietStepOk(s, step);
    }
  }

  lemma InvokeKeepsTasks(s: Sys, a: nat)
    requires a < |s.attempts|
    ensures InvokeBy(s, a).tasks == CommitBy(s, a).tasks == EndBy(s, a).tasks == s.tasks
  {
  }

  lemma {:induction false} RunOk(s: Sys, steps: seq<Step>)
    requires Inv(s)
    ensures Inv(Run(s, steps)) && Grew(s.tasks, Run(s, steps).tasks)
  {
    hide Inv, Exec, Grew;
    if |steps| == 0 {
      GrewSelf(s.tasks);
    } else {
      var front := steps[..|steps| - 1];
      RunOk(s, front);
      StepOk(Run(s, front), steps[|steps| - 1]);
      GrewTransitive(s.tasks, Run(s, front).tasks, Run(s, steps).tasks);
    }
  }

  lemma GrewTransitive(x: seq<Task>, y: seq<Task>, z: seq<Task>)
    requires Grew(x, y) && Grew(y, z)
    ensures Grew(x, z)
  {
    forall i | 0 <= i < |x| ensures SameRow(x[i], z[i]) {
      assert SameRow(x[i], y[i]) && SameRow(y[i], z[i]);
    }
  }

  lemma Reachable(steps: seq<Step>)
    ensures Inv(After(steps))
  {
    RunOk(START, steps);
  }
}
