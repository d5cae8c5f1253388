/** What every interleaving of deliveries guarantees about checkpoints, work done and acknowledgement. */
module DeliveryTheorems {
  import opened Prelude
  import opened Tasks
  import opened Delivery

  // ----- whose progress a thread holds

  /** The input that a step commits to the thread of `fp`, if it commits any. */
  function WriterOf(s: Sys, step: Step, fp: string): Option<Input> {
    match step
    case Invoke(a) =>
      if a >= |s.attempts| || s.attempts[a].message.fingerprint != fp then None
      else
        var at := s.attempts[a];
        if at.stage == Probed(false) then Some(OfSweep(a))
        else if at.stage.Leased? && at.task.Some? && !(at.stage.resuming && fp in s.threads)
          then Some(OfTask(at.task.value))
        else None
    case CommitNode(a) => WorkedInput(s, a, fp)
    case EndGraph(a) => WorkedInput(s, a, fp)
    case _ => None
  }

  function WorkedInput(s: Sys, a: nat, fp: string): Option<Input> {
    if a < |s.attempts| && s.attempts[a].message.fingerprint == fp && s.attempts[a].stage.InGraph? then
      Some(s.attempts[a].stage.input)
    else None
  }

  /** The last input that a run committed to the thread. */
  function LastWriter(steps: seq<Step>, fp: string): Option<Input> {
    if |steps| == 0 then None
    else
      var front := steps[..|steps| - 1];
      var writer := WriterOf(After(front), steps[|steps| - 1], fp);
      if writer.Some? then writer else LastWriter(front, fp)
  }

  /** Step `k` committed `input` to the thread, and no later step committed anything. */
  predicate CommittedLast(steps: seq<Step>, fp: string, input: Input, k: nat) {
    && k < |steps| && WriterOf(After(steps[..k]), steps[k], fp) == Some(input)
    && forall j | k < j < |steps| :: WriterOf(After(steps[..j]), steps[j], fp).None?
  }

  lemma {:induction false} LastWriterIff(steps: seq<Step>, fp: string, input: Input)
    ensures LastWriter(steps, fp) == Some(input) <==> exists k: nat :: CommittedLast(steps, fp, input, k)
  {
    hide WriterOf, After;
    if |steps| > 0 {
      var front, last := steps[..|steps| - 1], |steps| - 1;
      LastWriterIff(front, fp, input);
      forall k: nat | k < last ensures steps[..k] == front[..k] && steps[k] == front[k] {
      }
      if WriterOf(After(front), steps[last], fp).Some? {
        assert steps[..last] == front;
        assert WriterOf(After(front), steps[last], fp) == Some(input) ==> CommittedLast(steps, fp, input, last);
      } else {
        forall k: nat ensures CommittedLast(steps, fp, input, k) <==> CommittedLast(front, fp, input, k) {
          CommittedLastFront(steps, fp, input, k);
        }
      }
    }
  }

  lemma CommittedLastFront(steps: seq<Step>, fp: string, input: Input, k: nat)
    requires |steps| > 0 && WriterOf(After(steps[..|steps| - 1]), steps[|steps| - 1], fp).None?
    ensures CommittedLast(steps, fp, input, k) <==> CommittedLast(steps[..|steps| - 1], fp, input, k)
  {
    hide WriterOf, After;
    var front, last := steps[..|steps| - 1], |steps| - 1;
    forall j: nat | j < last ensures steps[..j] == front[..j] && steps[j] == front[j] {
    }
    assert steps[..last] == front;
  }

  lemma StepWrites(s: Sys, step: Step, fp: string)
    ensures
      var t, writer := Exec(s, step), WriterOf(s, step, fp);
      if writer.Some? then fp in t.threads && t.threads[fp].input == writer.value
      else (fp in t.threads <==> fp in s.threads) && (fp in s.threads ==> t.threads[fp] == s.threads[fp])
  {
    hide Placed, WithStatus, StatusAllowed;
  }

  /** A thread holds the input committed last, and is there exactly when something was committed. */
  lemma {:induction false} ThreadHoldsLastWriter(steps: seq<Step>, fp: string)
    ensures
      var s := After(steps);
      LastWriter(steps, fp) == if fp in s.threads then Some(s.threads[fp].input) else None
  {
    hide WriterOf, Exec;
    if |steps| > 0 {
      var front := steps[..|steps| - 1];
      ThreadHoldsLastWriter(front, fp);
      StepWrites(After(front), steps[|steps| - 1], fp);
    }
  }

  predicate Resumes(stage: Stage) {
    stage == Decided(true) || stage == Marked(true) || stage == Leased(true)
  }

  lemma ThreadsGrow(s: Sys, step: Step)
    ensures s.threads.Keys <= Exec(s, step).threads.Keys
  {
    hide Placed, WithStatus, StatusAllowed, ObservedRow;
  }

  lemma ActorResumes(s: Sys, step: Step)
    requires !step.Deliver? && step.a < |s.attempts|
    ensures
      var t, a := Exec(s, step), step.a;
      && |t.attempts| == |s.attempts| && t.attempts == s.attempts[a := t.attempts[a]]
      && t.attempts[a].message == s.attempts[a].message
      && (Resumes(t.attempts[a].stage) ==>
          Resumes(s.attempts[a].stage) || s.attempts[a].message.fingerprint in s.threads)
  {
    assert s.attempts[step.a := s.attempts[step.a]] == s.attempts;
    hide Placed, WithStatus, StatusAllowed, ObservedRow, IncidentRow;
  }

  lemma ResumesOnlyAThread(s: Sys, step: Step)
    ensures
      var t := Exec(s, step);
      && |s.attempts| <= |t.attempts|
      && forall a | 0 <= a < |t.attempts| && Resumes(t.attempts[a].stage) ::
           && a < |s.attempts| && t.attempts[a].message == s.attempts[a].message
           && (Resumes(s.attempts[a].stage) || s.attempts[a].message.fingerprint in s.threads)
  {
    hide StepAttempt;
    if !step.Deliver? && step.a < |s.attempts| {
      ActorResumes(s, step);
      hide Exec;
    }
  }

  lemma ResumeStep(s: Sys, step: Step)
    requires forall a | 0 <= a < |s.attempts| && Resumes(s.attempts[a].stage) ::
      s.attempts[a].message.fingerprint in s.threads
    ensures
      var t := Exec(s, step);
      forall a | 0 <= a < |t.attempts| && Resumes(t.attempts[a].stage) :: t.attempts[a].message.fingerprint in t.threads
  {
    ThreadsGrow(s, step);
    ResumesOnlyAThread(s, step);
    hide Exec, Resumes;
  }

  lemma {:induction false} ResumingHasThread(steps: seq<Step>)
    ensures
      var s := After(steps);
      forall a | 0 <= a < |s.attempts| && Resumes(s.attempts[a].stage) :: s.attempts[a].message.fingerprint in s.threads
  {
    hide Exec;
    if |steps| > 0 {
      ResumingHasThread(steps[..|steps| - 1]);
      ResumeStep(After(steps[..|steps| - 1]), steps[|steps| - 1]);
    }
  }

  /** The input on which an invoked attempt works. */
  function InputAt(stage: Stage): Option<Input> {
    match stage
    case InGraph(input) => Some(input)
    case GraphOver(input) => Some(input)
    case _ => None
  }

  /**
   Over every interleaving: a delivery resumes its own task's progress exactly when the last
   checkpoint committed to the query's thread, by anyone, was of that very task.
   */
  lemma ResumesOwnProgressIff(steps: seq<Step>, a: nat)
    requires
      var s := After(steps);
      a < |s.attempts| && s.attempts[a].stage.Leased? && s.attempts[a].task.Some?
    ensures
      var s := After(steps);
      var at := s.attempts[a];
      var own := OfTask(at.task.value);
      var input := InputAt(Exec(s, Invoke(a)).attempts[a].stage);
      && input.Some?
      && (input.value == own <==>
            !at.stage.resuming || exists k: nat :: CommittedLast(steps, at.message.fingerprint, own, k))
  {
    var s := After(steps);
    var at := s.attempts[a];
    ThreadHoldsLastWriter(steps, at.message.fingerprint);
    ResumingHasThread(steps);
    LastWriterIff(steps, at.message.fingerprint, OfTask(at.task.value));
    hide After, CommittedLast, LastWriter;
  }

  // ----- work done

  /** In every interleaving a delivery whose graph is over has had that graph's input run to its end. */
  lemma GraphOverMeansEnded(steps: seq<Step>, a: nat)
    requires a < |After(steps).attempts| && After(steps).attempts[a].stage.GraphOver?
    ensures After(steps).attempts[a].stage.input in After(steps).ended
  {
    Reachable(steps);
    hide After, OnePerKey;
    assert AttemptOk(After(steps).tasks, After(steps).ended, After(steps).attempts[a]);
  }

  // ----- undisturbed deliveries

  lemma {:induction false} RunConcat(s: Sys, xs: seq<Step>, ys: seq<Step>)
    ensures Run(s, xs + ys) == Run(Run(s, xs), ys)
    decreases |ys|
  {
    hide Exec;
    if |ys| == 0 {
      assert xs + ys == xs;
    } else {
      RunConcat(s, xs, ys[..|ys| - 1]);
      assert (xs + ys)[..|xs + ys| - 1] == xs + ys[..|ys| - 1];
    }
  }

  lemma RunTwo(s: Sys, x: Step, y: Step)
    ensures Run(s, [x, y]) == Exec(Exec(s, x), y)
  {
    hide Exec;
    assert [x, y][..1] == [x] && [x][..0] == [];
    assert Run(s, []) == s && Run(s, [x]) == Exec(s, x);
  }

  lemma RunFour(s: Sys, x: Step, y: Step, z: Step, w: Step)
    ensures Run(s, [x, y, z, w]) == Exec(Exec(Exec(Exec(s, x), y), z), w)
  {
    hide Exec;
    assert [x, y, z, w] == [x, y] + [z, w];
    RunConcat(s, [x, y], [z, w]);
    RunTwo(s, x, y);
    RunTwo(Run(s, [x, y]), z, w);
  }

  /** From receipt to the mark 'running', by the attempt whose number is `a`. */
  function Opening(a: nat, m: Message): seq<Step> {
    [Deliver(m, true), Insert(a), Look(a), DecideResume(a)] + [MarkRunning(a)]
  }

  lemma RunOpening(s: Sys, a: nat, m: Message)
    ensures Run(s, Opening(a, m)) ==
      Exec(Exec(Exec(Exec(Exec(s, Deliver(m, true)), Insert(a)), Look(a)), DecideResume(a)), MarkRunning(a))
  {
    hide Exec;
    var four, one := [Deliver(m, true), Insert(a), Look(a), DecideResume(a)], [MarkRunning(a)];
    RunConcat(s, four, one);
    RunFour(s, four[0], four[1], four[2], four[3]);
    assert one[..0] == [] && Run(Run(s, four), []) == Run(s, four);
  }

  /** The row that an undisturbed delivery of `m` works on: the active one, or a new one. */
  function RowFor(s: Sys, m: Message): nat {
    var found := FindIndexed(s.tasks, m.cluster, m.fingerprint);
    if found.Some? then found.value else |s.tasks|
  }

  /** The active row was running and its thread has a checkpoint. */
  predicate WillResume(s: Sys, m: Message) {
    var found := FindIndexed(s.tasks, m.cluster, m.fingerprint);
    found.Some? && s.tasks[found.value].status == Running && m.fingerprint in s.threads
  }

  /** The row of `m` is marked running, and the attempt knows whether it resumes. */
  predicate Opened(s: Sys, t: Sys, m: Message) {
    var a, id := |s.attempts|, RowFor(s, m);
    && OnePerKey(t.tasks) && |t.tasks| == (if id < |s.tasks| then |s.tasks| else |s.tasks| + 1)
    && id < |t.tasks| && Indexed(t.tasks[id], m.cluster, m.fingerprint) && t.tasks[id].status == Running
    && (forall i | 0 <= i < |s.tasks| && i != id :: t.tasks[i] == s.tasks[i])
    && t.threads == s.threads && t.ended == s.ended
    && t.attempts == s.attempts + [Attempt(m, Some(id), Marked(WillResume(s, m)))]
  }

  lemma RunningAllowed(tasks: seq<Task>, id: nat, cluster: string, fp: string)
    requires OnePerKey(tasks) && id < |tasks| && Indexed(tasks[id], cluster, fp)
    ensures StatusAllowed(tasks, id, Running)
    ensures WithStatus(tasks, id, Running) == tasks[id := tasks[id].(status := Running)]
  {
    forall j | 0 <= j < |tasks| && j != id ensures !Indexed(tasks[j], cluster, fp) {
      assert !SameKey(tasks[j], tasks[id]) || !SameKey(tasks[id], tasks[j]);
    }
  }

  lemma Inserts(s: Sys, m: Message)
    ensures
      Exec(Exec(s, Deliver(m, true)), Insert(|s.attempts|)) ==
        s.(tasks := Placed(s.tasks, IncidentRow(m)).0,
           attempts := s.attempts + [Attempt(m, Some(Placed(s.tasks, IncidentRow(m)).1), Inserted)])
  {
    hide Placed;
    var s1 := Exec(s, Deliver(m, true));
    assert s1.attempts[|s.attempts|] == Attempt(m, None, Probed(true));
  }

  lemma Marks(s: Sys, a: nat, m: Message, id: nat)
    requires a < |s.attempts| && s.attempts[a] == Attempt(m, Some(id), Inserted) && OnePerKey(s.tasks)
    requires id < |s.tasks| && Indexed(s.tasks[id], m.cluster, m.fingerprint)
    ensures
      var resuming := s.tasks[id].status == Running && m.fingerprint in s.threads;
      Exec(Exec(Exec(s, Look(a)), DecideResume(a)), MarkRunning(a)) ==
        s.(tasks := s.tasks[id := s.tasks[id].(status := Running)],
           attempts := s.attempts[a := Attempt(m, Some(id), Marked(resuming))])
  {
    RunningAllowed(s.tasks, id, m.cluster, m.fingerprint);
    hide OnePerKey, WithStatus, StatusAllowed, Indexed;
    var running := s.tasks[id].status == Running;
    var s3 := Exec(s, Look(a));
    assert s3 == Goto(s, a, Looked(running));
    var s4 := Exec(s3, DecideResume(a));
    assert s4 == Goto(s3, a, Decided(running && m.fingerprint in s.threads));
  }

  lemma PlacesRow(s: Sys, m: Message)
    requires OnePerKey(s.tasks)
    ensures
      var (placed, id) := Placed(s.tasks, IncidentRow(m));
      && id == RowFor(s, m) && OnePerKey(placed) && |placed| == (if id < |s.tasks| then |s.tasks| else |s.tasks| + 1)
      && id < |placed| && Indexed(placed[id], m.cluster, m.fingerprint)
      && (forall i | 0 <= i < |s.tasks| :: placed[i] == s.tasks[i])
      && (placed[id].status == Running && m.fingerprint in s.threads <==> WillResume(s, m))
  {
    PlacedKeepsKeys(s.tasks, IncidentRow(m));
    hide OnePerKey;
  }

  /** The state after an undisturbed opening, written out. */
  function OpenedState(s: Sys, m: Message): Sys {
    var (placed, id) := Placed(s.tasks, IncidentRow(m));
    if id >= |placed| then s
    else s.(tasks := placed[id := placed[id].(status := Running)],
            attempts := s.attempts + [Attempt(m, Some(id), Marked(WillResume(s, m)))])
  }

  lemma OpeningReaches(s: Sys, m: Message)
    requires OnePerKey(s.tasks)
    ensures Run(s, Opening(|s.attempts|, m)) == OpenedState(s, m)
  {
    hide OnePerKey, Exec, Run, RowFor, WillResume, Placed, Indexed, Opening, IncidentRow;
    var a := |s.attempts|;
    var (placed, id) := Placed(s.tasks, IncidentRow(m));
    RunOpening(s, a, m);
    PlacesRow(s, m);
    Inserts(s, m);
    var was, at := Attempt(m, Some(id), Inserted), Attempt(m, Some(id), Marked(WillResume(s, m)));
    var t := s.(tasks := placed, attempts := s.attempts + [was]);
    assert t.attempts[a] == was;
    Marks(t, a, m, id);
    assert t.attempts[a := at] == s.attempts + [at];
  }

  /** An undisturbed delivery finds or opens its row, marks it running, and touches nothing else. */
  lemma OpensRow(s: Sys, m: Message)
    requires OnePerKey(s.tasks)
    ensures Opened(s, OpenedState(s, m), m)
  {
    var (placed, id) := Placed(s.tasks, IncidentRow(m));
    PlacesRow(s, m);
    StatusKeepsKeys(placed, id, Running);
    RunningAllowed(placed, id, m.cluster, m.fingerprint);
    hide OnePerKey, WithStatus, StatusAllowed, RowFor, WillResume, Placed;
  }

  // ----- how an undisturbed delivery ends

  datatype GraphFate = Ends | Raises(known: bool) | Loses

  /** How one delivery goes: whether its graph runs the observe node, how the graph ends, which writes succeed. */
  datatype Fate = Fate(observes: bool, graph: GraphFate, first: bool, second: bool, released: bool, deleted: bool)

  function GraphSteps(a: nat, graph: GraphFate): (r: seq<Step>)
    ensures |r| == 2
  {
    match graph
    case Ends => [EndGraph(a), EndGraph(a)]
    case Raises(known) => [Raise(a, known), EndGraph(a)]
    case Loses => [LoseLease(a), EndGraph(a)]
  }

  /** From the lease to the queue. A step that does not apply, such as a sweep's lease, changes nothing. */
  function Middle(a: nat, fate: Fate): seq<Step> {
    [TakeLease(a), Invoke(a), if fate.observes then Observe(a) else TakeLease(a)] + GraphSteps(a, fate.graph)
  }

  function Ending(a: nat, fate: Fate): seq<Step> {
    [Record(a, fate.first), Record(a, fate.second), Release(a, fate.released), Delete(a, fate.deleted)]
  }

  function Script(a: nat, m: Message, incident: bool, fate: Fate): seq<Step> {
    (if incident then Opening(a, m) else [Deliver(m, false)]) + (Middle(a, fate) + Ending(a, fate))
  }

  lemma RunFive(s: Sys, v: Step, x: Step, y: Step, z: Step, w: Step)
    ensures Run(s, [v, x, y] + [z, w]) == Exec(Exec(Exec(Exec(Exec(s, v), x), y), z), w)
  {
    hide Exec;
    RunConcat(s, [v, x, y], [z, w]);
    RunTwo(Run(s, [v, x, y]), z, w);
    assert [v, x, y] == [v, x] + [y];
    RunConcat(s, [v, x], [y]);
    RunTwo(s, v, x);
    assert [y][..0] == [] && Run(Run(s, [v, x]), []) == Run(s, [v, x]);
  }

  /** The checkpoint that an invocation takes up or starts with. */
  function TakenUp(s: Sys, a: nat, task: Option<nat>, fp: string, resuming: bool): Checkpoint {
    if task.None? then Checkpoint(OfSweep(a), false)
    else if resuming && fp in s.threads then s.threads[fp]
    else Checkpoint(OfTask(task.value), false)
  }

  /**
   Where the graph's end leaves an attempt; a finished checkpoint cannot lose its lease any more,
   and a sweep has none.
   */
  function StageAfter(task: Option<nat>, c: Checkpoint, graph: GraphFate): Stage {
    match graph
    case Ends => GraphOver(c.input)
    case Loses => if task.None? || c.finished then GraphOver(c.input) else LeaseLost
    case Raises(known) =>
      var outcome := if known then Parked else Failed;
      if task.Some? then Excepting(outcome) else Returned(outcome, false)
  }

  /** The attempt is about to run its graph. */
  predicate Ready(s: Sys, a: nat, resuming: bool) {
    && a < |s.attempts|
    && (if s.attempts[a].task.Some? then s.attempts[a].stage == Marked(resuming)
        else s.attempts[a].stage == Probed(false))
  }

  /** What the middle of an undisturbed delivery leaves. */
  predicate GraphRan(s: Sys, t: Sys, a: nat, resuming: bool, graph: GraphFate)
    requires a < |s.attempts|
  {
    var at := s.attempts[a];
    var fp := at.message.fingerprint;
    var c := TakenUp(s, a, at.task, fp, resuming);
    var stage := StageAfter(at.task, c, graph);
    && s.tasks <= t.tasks && (at.task.None? ==> forall i | |s.tasks| <= i < |t.tasks| :: t.tasks[i].kind == Sweep)
    && t.attempts == s.attempts[a := at.(stage := stage)]
    && fp in t.threads && t.threads[fp].input == c.input
    && (forall f | f in s.threads && f != fp :: f in t.threads && t.threads[f] == s.threads[f])
    && t.ended == (if stage.GraphOver? && !c.finished then s.ended + {c.input} else s.ended)
    && (stage.GraphOver? ==> t.threads[fp].finished)
  }

  /** The graph is invoked, and its observe node run if it is. */
  lemma InvokesGraph(s: Sys, a: nat, resuming: bool, observes: bool)
    requires Ready(s, a, resuming)
    ensures
      var at := s.attempts[a];
      var fp := at.message.fingerprint;
      var c := TakenUp(s, a, at.task, fp, resuming);
      var observe := if observes then Observe(a) else TakeLease(a);
      var t := Exec(Exec(Exec(s, TakeLease(a)), Invoke(a)), observe);
      && s.tasks <= t.tasks && t.ended == s.ended
      && (at.task.None? ==> forall i | |s.tasks| <= i < |t.tasks| :: t.tasks[i].kind == Sweep)
      && t.threads == s.threads[fp := c]
      && t.attempts == s.attempts[a := at.(stage := if c.finished then GraphOver(c.input) else InGraph(c.input))]
  {
    var at := s.attempts[a];
    var fp := at.message.fingerprint;
    var s1 := Exec(s, TakeLease(a));
    assert s1 == if at.task.Some? then Goto(s, a, Leased(resuming)) else s;
    var s2 := Exec(s1, Invoke(a));
    assert s2.tasks == s.tasks && s2.ended == s.ended;
    assert fp in s.threads ==> s.threads == s.threads[fp := s.threads[fp]];
    assert s2.threads == s.threads[fp := TakenUp(s, a, at.task, fp, resuming)];
    hide ObservedRow;
  }

  lemma EndsGraph(s: Sys, a: nat, c: Checkpoint, graph: GraphFate)
    requires a < |s.attempts| && s.attempts[a].message.fingerprint in s.threads
    requires s.threads[s.attempts[a].message.fingerprint] == c
    requires s.attempts[a].stage == if c.finished then GraphOver(c.input) else InGraph(c.input)
    ensures
      var at := s.attempts[a];
      var stage := StageAfter(at.task, c, graph);
      var t := Exec(Exec(s, GraphSteps(a, graph)[0]), GraphSteps(a, graph)[1]);
      && t.tasks == s.tasks && t.attempts == s.attempts[a := at.(stage := stage)]
      && t.threads == s.threads[at.message.fingerprint := Checkpoint(c.input, c.finished || stage.GraphOver?)]
      && t.ended == if stage.GraphOver? && !c.finished then s.ended + {c.input} else s.ended
  {
    var at := s.attempts[a];
    assert s.attempts[a := at] == s.attempts;
    assert s.threads[at.message.fingerprint := c] == s.threads;
    var t := Exec(s, GraphSteps(a, graph)[0]);
    assert t.attempts == s.attempts[a := at.(stage := StageAfter(at.task, c, graph))]
           || (graph == Loses && at.task.None? && t == s);
  }

  lemma RunsGraph(s: Sys, a: nat, resuming: bool, fate: Fate)
    requires a < |s.attempts| && Ready(s, a, resuming)
    ensures GraphRan(s, Run(s, Middle(a, fate)), a, resuming, fate.graph)
  {
    hide Exec, Run, TakenUp, StageAfter, GraphSteps, Ready;
    var at := s.attempts[a];
    var fp := at.message.fingerprint;
    var c := TakenUp(s, a, at.task, fp, resuming);
    var observe := if fate.observes then Observe(a) else TakeLease(a);
    var ends := GraphSteps(a, fate.graph);
    RunFive(s, TakeLease(a), Invoke(a), observe, ends[0], ends[1]);
    assert Middle(a, fate) == [TakeLease(a), Invoke(a), observe] + [ends[0], ends[1]];
    InvokesGraph(s, a, resuming, fate.observes);
    var t := Exec(Exec(Exec(s, TakeLease(a)), Invoke(a)), observe);
    EndsGraph(t, a, c, fate.graph);
    var u := Exec(Exec(t, ends[0]), ends[1]);
    assert u.attempts == s.attempts[a := at.(stage := StageAfter(at.task, c, fate.graph))];
  }

  /** The outcome that an ending reports, and whether its status write landed. */
  function FinalOutcome(stage: Stage, fate: Fate): (Status, bool) {
    match stage
    case GraphOver(_) => if fate.first then (Completed, true) else (Failed, fate.second)
    case LeaseLost => if fate.first then (Parked, true) else (Failed, fate.second)
    case Excepting(outcome) => (outcome, fate.first)
    case _ => (Failed, false)
  }

  function LastStage(outcome: Status, recorded: bool, fate: Fate): Stage {
    if fate.deleted && Acknowledges(outcome) then Deleted(outcome, recorded) else Gone
  }

  lemma RecordsIncident(s: Sys, a: nat, fate: Fate)
    requires a < |s.attempts| && s.attempts[a].task.Some?
    requires s.attempts[a].stage.GraphOver? || s.attempts[a].stage.LeaseLost? || s.attempts[a].stage.Excepting?
    ensures
      var at := s.attempts[a];
      var (outcome, landed) := FinalOutcome(at.stage, fate);
      var t := Exec(Exec(s, Record(a, fate.first)), Record(a, fate.second));
      var tasks := if landed then WithStatus(s.tasks, at.task.value, outcome) else s.tasks;
      t == Goto(s.(tasks := tasks), a, Closing(outcome, landed))
  {
    hide WithStatus, StatusAllowed;
    var t := Exec(s, Record(a, fate.first));
    assert t.attempts[a].stage.Closing? || t.attempts[a].stage.Excepting?;
  }

  lemma ClosesIncident(s: Sys, a: nat, fate: Fate)
    requires a < |s.attempts| && s.attempts[a].stage.Closing?
    ensures
      var st := s.attempts[a].stage;
      Exec(Exec(s, Release(a, fate.released)), Delete(a, fate.deleted)) ==
        Goto(s, a, if fate.released then LastStage(st.outcome, st.recorded, fate) else Gone)
  {
    var t := Exec(s, Release(a, fate.released));
    assert t.attempts[a].stage.Returned? || t.attempts[a].stage.Gone?;
  }

  lemma EndsIncident(s: Sys, a: nat, fate: Fate)
    requires a < |s.attempts| && s.attempts[a].task.Some?
    requires s.attempts[a].stage.GraphOver? || s.attempts[a].stage.LeaseLost? || s.attempts[a].stage.Excepting?
    ensures
      var at := s.attempts[a];
      var (outcome, landed) := FinalOutcome(at.stage, fate);
      Run(s, Ending(a, fate)) ==
        Goto(s.(tasks := if landed then WithStatus(s.tasks, at.task.value, outcome) else s.tasks), a,
             if fate.released then LastStage(outcome, landed, fate) else Gone)
  {
    RunFour(s, Record(a, fate.first), Record(a, fate.second), Release(a, fate.released), Delete(a, fate.deleted));
    RecordsIncident(s, a, fate);
    var t := Exec(Exec(s, Record(a, fate.first)), Record(a, fate.second));
    ClosesIncident(t, a, fate);
    hide Exec, Run, WithStatus, FinalOutcome, LastStage;
  }

  lemma ReturnsSweep(s: Sys, a: nat, first: bool)
    requires a < |s.attempts| && s.attempts[a].task.None?
    requires s.attempts[a].stage.GraphOver? || (s.attempts[a].stage.Returned? && !s.attempts[a].stage.recorded)
    ensures
      var stage := s.attempts[a].stage;
      Exec(s, Record(a, first)) == Goto(s, a, Returned(if stage.GraphOver? then Completed else stage.outcome, false))
  {
    assert s.attempts[a := s.attempts[a]] == s.attempts;
  }

  lemma ReturnedStays(s: Sys, a: nat, second: bool, released: bool)
    requires a < |s.attempts| && s.attempts[a].task.None? && s.attempts[a].stage.Returned?
    ensures Exec(s, Record(a, second)) == s && Exec(s, Release(a, released)) == s
  {
  }

  lemma EndsSweep(s: Sys, a: nat, fate: Fate)
    requires a < |s.attempts| && s.attempts[a].task.None?
    requires s.attempts[a].stage.GraphOver? || (s.attempts[a].stage.Returned? && !s.attempts[a].stage.recorded)
    ensures
      var stage := s.attempts[a].stage;
      Run(s, Ending(a, fate)) == Goto(s, a,
          LastStage(if stage.GraphOver? then Completed else stage.outcome, false, fate))
  {
    hide Run, Exec, LastStage;
    RunFour(s, Record(a, fate.first), Record(a, fate.second), Release(a, fate.released), Delete(a, fate.deleted));
    ReturnsSweep(s, a, fate.first);
    var t := Exec(s, Record(a, fate.first));
    ReturnedStays(t, a, fate.second, fate.released);
    DeletesReturned(t, a, fate);
  }

  lemma DeletesReturned(s: Sys, a: nat, fate: Fate)
    requires a < |s.attempts| && s.attempts[a].stage.Returned?
    ensures
      var st := s.attempts[a].stage;
      Exec(s, Delete(a, fate.deleted)) == Goto(s, a, LastStage(st.outcome, st.recorded, fate))
  {
  }

  // ----- what an undisturbed delivery leaves, from any reachable state

  /** The key still has an active incident. */
  predicate Unsettled(s: Sys, m: Message) {
    FindIndexed(s.tasks, m.cluster, m.fingerprint).Some?
  }

  predicate IsDeleted(s: Sys, a: nat) {
    a < |s.attempts| && s.attempts[a].stage.Deleted?
  }

  /** The middle as seen from the start of the delivery. */
  function MiddleState(s: Sys, m: Message, fate: Fate): Sys {
    Run(OpenedState(s, m), Middle(|s.attempts|, fate))
  }

  lemma MiddleIsReached(s: Sys, m: Message, fate: Fate)
    requires Inv(s)
    ensures Run(s, Script(|s.attempts|, m, true, fate)) == Run(MiddleState(s, m, fate), Ending(|s.attempts|, fate))
    ensures Inv(OpenedState(s, m)) && Inv(MiddleState(s, m, fate))
  {
    var a := |s.attempts|;
    var open := Opening(a, m);
    OpeningReaches(s, m);
    RunConcat(s, open, Middle(a, fate) + Ending(a, fate));
    RunConcat(OpenedState(s, m), Middle(a, fate), Ending(a, fate));
    RunOk(s, open);
    RunOk(OpenedState(s, m), Middle(a, fate));
    hide Run, Inv, Opening, Middle, Ending, OpenedState;
  }

  /** The checkpoint on which the delivery of `m` from `s` works. */
  function CheckpointFor(s: Sys, m: Message): Checkpoint {
    TakenUp(s, |s.attempts|, Some(RowFor(s, m)), m.fingerprint, WillResume(s, m))
  }

  /** What the middle of the delivery of an incident leaves. */
  predicate MiddleOf(s: Sys, t: Sys, m: Message, graph: GraphFate) {
    var a, id, c := |s.attempts|, RowFor(s, m), CheckpointFor(s, m);
    var stage := StageAfter(Some(id), c, graph);
    && OnePerKey(t.tasks) && id < |t.tasks| && Indexed(t.tasks[id], m.cluster, m.fingerprint)
      && t.tasks[id].status == Running
    && t.attempts == s.attempts + [Attempt(m, Some(id), stage)]
    && m.fingerprint in t.threads && t.threads[m.fingerprint].input == c.input
    && t.ended == (if stage.GraphOver? && !c.finished then s.ended + {c.input} else s.ended)
    && (stage.GraphOver? ==> t.threads[m.fingerprint].finished)
    && |s.tasks| <= |t.tasks| && (forall i | 0 <= i < |s.tasks| && i != id :: t.tasks[i] == s.tasks[i])
  }

  lemma MiddleFacts(s: Sys, o: Sys, t: Sys, m: Message, graph: GraphFate)
    requires Opened(s, o, m) && OnePerKey(t.tasks) && |s.attempts| < |o.attempts|
    requires GraphRan(o, t, |s.attempts|, WillResume(s, m), graph)
    ensures MiddleOf(s, t, m, graph)
  {
    var a, id := |s.attempts|, RowFor(s, m);
    assert o.attempts[a] == Attempt(m, Some(id), Marked(WillResume(s, m)));
    assert TakenUp(o, a, Some(id), m.fingerprint, WillResume(s, m)) == CheckpointFor(s, m);
    hide OnePerKey, WillResume, RowFor, Indexed;
    assert o.attempts[a := o.attempts[a].(stage := t.attempts[a].stage)] == s.attempts + [t.attempts[a]];
  }

  lemma IncidentMiddle(s: Sys, m: Message, fate: Fate)
    requires Inv(s)
    ensures MiddleOf(s, MiddleState(s, m, fate), m, fate.graph)
    ensures Run(s, Script(|s.attempts|, m, true, fate)) == Run(MiddleState(s, m, fate), Ending(|s.attempts|, fate))
  {
    MiddleIsReached(s, m, fate);
    assert OnePerKey(s.tasks) && OnePerKey(MiddleState(s, m, fate).tasks);
    OpensRow(s, m);
    RunsGraph(OpenedState(s, m), |s.attempts|, WillResume(s, m), fate);
    hide Run, OnePerKey, Middle, OpenedState, WillResume, MiddleOf, GraphRan;
    MiddleFacts(s, OpenedState(s, m), MiddleState(s, m, fate), m, fate.graph);
  }

  /** The outcome and the landing of the status write, as the fates decide them. */
  function IncidentEnd(s: Sys, m: Message, fate: Fate): (Status, bool) {
    FinalOutcome(StageAfter(Some(RowFor(s, m)), CheckpointFor(s, m), fate.graph), fate)
  }

  /** From the end of the graph on. */
  lemma EndingLeaves(t: Sys, a: nat, m: Message, id: nat, fate: Fate)
    requires a < |t.attempts| && OnePerKey(t.tasks) && id < |t.tasks| && Indexed(t.tasks[id], m.cluster, m.fingerprint)
    requires t.attempts[a].task == Some(id)
    requires t.attempts[a].stage.GraphOver? || t.attempts[a].stage.LeaseLost?
             || t.attempts[a].stage == Excepting(Parked) || t.attempts[a].stage == Excepting(Failed)
    ensures
      var (outcome, landed) := FinalOutcome(t.attempts[a].stage, fate);
      var u := Run(t, Ending(a, fate));
      && (Unsettled(u, m) <==> !landed)
      && (IsDeleted(u, a) <==> fate.released && fate.deleted && Acknowledges(outcome))
      && u.threads == t.threads && u.ended == t.ended
      && |u.tasks| == |t.tasks| && (forall i | 0 <= i < |t.tasks| && i != id :: u.tasks[i] == t.tasks[i])
      && u.tasks[id].status == (if landed then outcome else t.tasks[id].status)
  {
    var (outcome, landed) := FinalOutcome(t.attempts[a].stage, fate);
    OutcomeIsTerminal(t.attempts[a].stage, fate);
    hide Run, OnePerKey, FindIndexed, Ending, FinalOutcome, Indexed, StatusAllowed;
    EndsIncident(t, a, fate);
    FindsTheOne(t.tasks, id, m.cluster, m.fingerprint);
    TerminalFreesSlot(t.tasks, id, outcome, m.cluster, m.fingerprint);
    TerminalIsAllowed(t.tasks, id, outcome);
    hide WithStatus;
  }

  lemma OutcomeIsTerminal(stage: Stage, fate: Fate)
    requires stage.GraphOver? || stage.LeaseLost? || stage == Excepting(Parked) || stage == Excepting(Failed)
    ensures !IsActive(FinalOutcome(stage, fate).0)
  {
  }

  lemma TerminalIsAllowed(tasks: seq<Task>, id: nat, status: Status)
    requires id < |tasks| && !IsActive(status)
    ensures WithStatus(tasks, id, status) == tasks[id := tasks[id].(status := status)]
  {
  }

  lemma StageIsFinal(task: nat, c: Checkpoint, graph: GraphFate)
    ensures
      var stage := StageAfter(Some(task), c, graph);
      stage.GraphOver? || stage.LeaseLost? || stage == Excepting(Parked) || stage == Excepting(Failed)
  {
  }

  /**
   An undisturbed incident delivery settles its key exactly when its status write lands; what is
   deleted is decided after.
   */
  lemma IncidentLeaves(s: Sys, m: Message, fate: Fate)
    requires Inv(s)
    ensures
      var a, t := |s.attempts|, Run(s, Script(|s.attempts|, m, true, fate));
      var (outcome, landed) := IncidentEnd(s, m, fate);
      && (Unsettled(t, m) <==> !landed)
      && (IsDeleted(t, a) <==> fate.released && fate.deleted && Acknowledges(outcome))
  {
    IncidentMiddle(s, m, fate);
    StageIsFinal(RowFor(s, m), CheckpointFor(s, m), fate.graph);
    hide Run, OnePerKey, MiddleState, CheckpointFor, RowFor, FindIndexed, Indexed;
    hide FinalOutcome, StageAfter, IsDeleted, Script, Ending;
    EndingLeaves(MiddleState(s, m, fate), |s.attempts|, m, RowFor(s, m), fate);
  }

  /** The row that a delivery of `m` works on: the live incident of its key, or a new row. */
  predicate WorksOn(s: Sys, m: Message, id: nat) {
    if id < |s.tasks| then Live(s.tasks[id], m.cluster, m.fingerprint)
    else id == |s.tasks| && forall i | 0 <= i < |s.tasks| :: !Live(s.tasks[i], m.cluster, m.fingerprint)
  }

  /** The row was running and its query's thread has a checkpoint. */
  predicate TakesUp(s: Sys, m: Message, id: nat) {
    id < |s.tasks| && s.tasks[id].status == Running && m.fingerprint in s.threads
  }

  /** How a delivery must end, from what becomes of its graph and of its first status write. */
  predicate EndsAs(s: Sys, m: Message, id: nat, fate: Fate, outcome: Status) {
    match fate.graph
    case Raises(known) => outcome == if known then Parked else Failed
    case Ends => outcome == if fate.first then Completed else Failed
    case Loses =>
      var over := TakesUp(s, m, id) && s.threads[m.fingerprint].finished;
      outcome == if !fate.first then Failed else if over then Completed else Parked
  }

  /** A status write lands: the first, or the handler's own after the first one failed. */
  predicate Lands(fate: Fate) {
    fate.first || (!fate.graph.Raises? && fate.second)
  }

  /**
   What any undisturbed delivery of an incident does from any reachable state: on which row it
   works, whose input, with which status it leaves the row, and whether the message goes.
   */
  lemma DeliveryOfIncident(steps: seq<Step>, m: Message, fate: Fate) returns (id: nat, outcome: Status)
    ensures
      var s := After(steps);
      var t := Run(s, Script(|s.attempts|, m, true, fate));
      && WorksOn(s, m, id) && id < |t.tasks| && EndsAs(s, m, id, fate, outcome)
      && t.tasks[id].status == (if Lands(fate) then outcome else Running)
      && (forall i | 0 <= i < |s.tasks| && i != id :: i < |t.tasks| && t.tasks[i] == s.tasks[i])
      && m.fingerprint in t.threads
      && t.threads[m.fingerprint].input ==
           (if TakesUp(s, m, id) then s.threads[m.fingerprint].input else OfTask(id))
      && (IsDeleted(t, |s.attempts|) <==> fate.released && fate.deleted && (outcome == Completed || outcome == Parked))
  {
    var s := After(steps);
    id := RowFor(s, m);
    Reachable(steps);
    IncidentMiddle(s, m, fate);
    RowForWorks(s, m);
    StageIsFinal(id, CheckpointFor(s, m), fate.graph);
    outcome := FinalOutcome(StageAfter(Some(id), CheckpointFor(s, m), fate.graph), fate).0;
    EndIsAsFated(s, m, fate);
    hide Run, After, OnePerKey, MiddleState, CheckpointFor, RowFor, FindIndexed, Indexed, Live, WorksOn, TakesUp;
    hide EndsAs, FinalOutcome, StageAfter, IsDeleted, Script, Ending, Lands;
    EndingLeaves(MiddleState(s, m, fate), |s.attempts|, m, id, fate);
  }

  lemma RowForWorks(s: Sys, m: Message)
    ensures WorksOn(s, m, RowFor(s, m))
    ensures WillResume(s, m) <==> TakesUp(s, m, RowFor(s, m))
  {
    forall i | 0 <= i < |s.tasks|
      ensures Live(s.tasks[i], m.cluster, m.fingerprint) <==> Indexed(s.tasks[i], m.cluster, m.fingerprint)
    {
    }
  }

  lemma EndIsAsFated(s: Sys, m: Message, fate: Fate)
    ensures
      var id, c := RowFor(s, m), CheckpointFor(s, m);
      var (outcome, landed) := FinalOutcome(StageAfter(Some(id), c, fate.graph), fate);
      && EndsAs(s, m, id, fate, outcome) && (landed <==> Lands(fate))
      && (Acknowledges(outcome) <==> outcome == Completed || outcome == Parked)
      && c.input == if TakesUp(s, m, id) then s.threads[m.fingerprint].input else OfTask(id)
  {
    RowForWorks(s, m);
    hide RowFor, WillResume, WorksOn;
  }

  /** A sweep's graph leaves the incidents as they are, and its own checkpoint on the thread. */
  ghost predicate SweptTo(s: Sys, t: Sys, m: Message, graph: GraphFate) {
    var a, c := |s.attempts|, Checkpoint(OfSweep(|s.attempts|), false);
    && s.tasks <= t.tasks && (forall i | |s.tasks| <= i < |t.tasks| :: t.tasks[i].kind == Sweep)
    && t.attempts == s.attempts + [Attempt(m, None, StageAfter(None, c, graph))]
    && m.fingerprint in t.threads && t.threads[m.fingerprint].input == OfSweep(a)
    && (t.attempts[a].stage.GraphOver? ==> t.threads[m.fingerprint].finished)
    && (forall id: nat :: OfTask(id) in t.ended <==> OfTask(id) in s.ended)
  }

  lemma SweepGraph(s: Sys, m: Message, fate: Fate)
    ensures SweptTo(s, Run(Exec(s, Deliver(m, false)), Middle(|s.attempts|, fate)), m, fate.graph)
  {
    var a, o := |s.attempts|, Exec(s, Deliver(m, false));
    RunsGraph(o, a, false, fate);
    hide Run, Middle;
    var t := Run(o, Middle(a, fate));
    assert o.attempts[a] == Attempt(m, None, Probed(false));
    assert t.attempts == o.attempts[a := t.attempts[a]];
  }

  lemma SweepScript(s: Sys, m: Message, fate: Fate)
    ensures
      var a := |s.attempts|;
      Run(s, Script(a, m, false, fate)) == Run(Run(Exec(s, Deliver(m, false)), Middle(a, fate)), Ending(a, fate))
  {
    var a := |s.attempts|;
    var o := Exec(s, Deliver(m, false));
    RunConcat(s, [Deliver(m, false)], Middle(a, fate) + Ending(a, fate));
    assert [Deliver(m, false)][..0] == [] && Run(s, []) == s;
    assert Run(s, [Deliver(m, false)]) == o;
    RunConcat(o, Middle(a, fate), Ending(a, fate));
  }

  lemma SweptKeepsKey(tasks: seq<Task>, after: seq<Task>, cluster: string, fp: string)
    requires tasks <= after && forall i | |tasks| <= i < |after| :: after[i].kind == Sweep
    ensures FindIndexed(after, cluster, fp).Some? <==> FindIndexed(tasks, cluster, fp).Some?
  {
    var found := FindIndexed(tasks, cluster, fp);
    if found.Some? {
      assert after[found.value] == tasks[found.value];
    }
    var kept := FindIndexed(after, cluster, fp);
    if kept.Some? {
      assert after[kept.value] == tasks[kept.value];
    }
  }

  /** The outcome of an undisturbed sweep. */
  function SweepOutcome(graph: GraphFate): Status {
    if graph.Raises? then if graph.known then Parked else Failed else Completed
  }

  /** An undisturbed sweep leaves every incident of its key as it was. */
  lemma SweepLeaves(s: Sys, m: Message, fate: Fate)
    ensures
      var a, t := |s.attempts|, Run(s, Script(|s.attempts|, m, false, fate));
      && (Unsettled(t, m) <==> Unsettled(s, m))
      && (IsDeleted(t, a) <==> fate.deleted && Acknowledges(SweepOutcome(fate.graph)))
      && (forall i | 0 <= i < |s.tasks| :: i < |t.tasks| && t.tasks[i] == s.tasks[i])
      && m.fingerprint in t.threads && t.threads[m.fingerprint].input == OfSweep(a)
      && (!fate.graph.Raises? ==> t.threads[m.fingerprint].finished)
      && (forall id: nat :: OfTask(id) in t.ended <==> OfTask(id) in s.ended)
  {
    hide Run, Middle, Ending, Script, FindIndexed, Exec;
    var a := |s.attempts|;
    var u := Run(Exec(s, Deliver(m, false)), Middle(a, fate));
    SweepGraph(s, m, fate);
    SweepScript(s, m, fate);
    SweptKeepsKey(s.tasks, u.tasks, m.cluster, m.fingerprint);
    assert u.attempts[a] == Attempt(m, None, StageAfter(None, Checkpoint(OfSweep(a), false), fate.graph));
    EndsSweep(u, a, fate);
  }

  /**
   From every reachable state, a message that is deleted after an undisturbed delivery leaves
   an incident of its key active exactly in two cases: it was probed as a sweep while one was
   active, or its graph raised a known error and the suppressed status write failed.
   */
  lemma DeletedLeavesUnsettledIff(steps: seq<Step>, m: Message, incident: bool, fate: Fate)
    ensures
      var s := After(steps);
      var a, t := |s.attempts|, Run(s, Script(|s.attempts|, m, incident, fate));
      IsDeleted(t, a) ==>
        (Unsettled(t, m) <==> if incident then fate.graph == Raises(true) && !fate.first else Unsettled(s, m))
  {
    var s := After(steps);
    Reachable(steps);
    hide Run, After, Inv;
    if incident {
      IncidentLeaves(s, m, fate);
    } else {
      SweepLeaves(s, m, fate);
    }
  }

  /**
   The next delivery of the same message opens a second task exactly when a status write
   landed, for an incident, or when nothing was active, for a sweep: so every failed outcome
   that is recorded, and every failed release or deletion after a recorded one, opens one.
   */
  lemma RedeliveryOpensNewTaskIff(steps: seq<Step>, m: Message, incident: bool, fate: Fate)
    ensures
      var s := After(steps);
      var t := Run(s, Script(|s.attempts|, m, incident, fate));
      RowFor(t, m) == |t.tasks| <==>
        if !incident then !Unsettled(s, m)
        else if fate.graph.Raises? then fate.first
        else fate.first || fate.second
  {
    hide Run, After, Inv, Script, FindIndexed;
    var s := After(steps);
    Reachable(steps);
    if incident {
      IncidentLeaves(s, m, fate);
    } else {
      SweepLeaves(s, m, fate);
    }
    RowForIsNewIff(Run(s, Script(|s.attempts|, m, incident, fate)), m);
    hide Unsettled, RowFor, IsDeleted, StageAfter;
    if incident {
      LandsIff(s, m, fate);
    }
  }

  lemma RowForIsNewIff(s: Sys, m: Message)
    ensures RowFor(s, m) == |s.tasks| <==> !Unsettled(s, m)
  {
  }

  lemma LandsIff(s: Sys, m: Message, fate: Fate)
    ensures IncidentEnd(s, m, fate).1 == if fate.graph.Raises? then fate.first else fate.first || fate.second
  {
    hide CheckpointFor, RowFor;
  }

  // ----- a task completed without work

  /**
   From every reachable state: an undisturbed delivery that completes its task has had the
   graph run to its end for it exactly when that had happened before, or the delivery started
   afresh, or the last checkpoint committed to the thread, by anyone, was the task's own.
   */
  lemma CompletedMeansWorkedIff(steps: seq<Step>, m: Message, fate: Fate)
    requires fate.graph == Ends && fate.first
    ensures
      var s := After(steps);
      var t, id := Run(s, Script(|s.attempts|, m, true, fate)), RowFor(s, m);
      && id < |t.tasks| && t.tasks[id].status == Completed
      && (OfTask(id) in t.ended <==>
            || OfTask(id) in s.ended
            || !WillResume(s, m)
            || exists k: nat :: CommittedLast(steps, m.fingerprint, OfTask(id), k))
  {
    var s := After(steps);
    Reachable(steps);
    CompletionWorks(s, m, fate);
    ThreadHoldsLastWriter(steps, m.fingerprint);
    LastWriterIff(steps, m.fingerprint, OfTask(RowFor(s, m)));
    hide Run, After, Inv, CommittedLast, LastWriter, Script, RowFor;
  }

  lemma CompletionWorks(s: Sys, m: Message, fate: Fate)
    requires Inv(s)
    requires (fate.graph == Ends || (fate.graph == Loses && WillResume(s, m) && s.threads[m.fingerprint].finished))
    requires fate.first
    ensures
      var a, t, id := |s.attempts|, Run(s, Script(|s.attempts|, m, true, fate)), RowFor(s, m);
      && id < |t.tasks| && t.tasks[id].status == Completed
      && (OfTask(id) in t.ended <==>
            OfTask(id) in s.ended || !WillResume(s, m) || s.threads[m.fingerprint].input == OfTask(id))
      && (IsDeleted(t, a) <==> fate.released && fate.deleted)
      && m.fingerprint in t.threads && t.threads[m.fingerprint].finished
      && t.threads[m.fingerprint].input == CheckpointFor(s, m).input
      && (forall j: nat :: OfTask(j) in t.ended <==> OfTask(j) in s.ended || CheckpointFor(s, m).input == OfTask(j))
      && |s.tasks| <= |t.tasks| && (forall i | 0 <= i < |s.tasks| && i != id :: t.tasks[i] == s.tasks[i])
      && !Unsettled(t, m)
  {
    hide Run, OnePerKey, MiddleState, CheckpointFor, RowFor, FindIndexed, Indexed;
    hide StageAfter, IsDeleted, Script, Ending, Inv, WillResume, Unsettled;
    var c, mid, id := CheckpointFor(s, m), MiddleState(s, m, fate), RowFor(s, m);
    IncidentMiddle(s, m, fate);
    CheckpointFacts(s, m);
    OverAtOnce(id, c, fate.graph);
    EndingLeaves(mid, |s.attempts|, m, id, fate);
  }

  lemma CheckpointFacts(s: Sys, m: Message)
    requires Inv(s)
    ensures
      var c, id := CheckpointFor(s, m), RowFor(s, m);
      && (c.finished ==> c.input in s.ended)
      && (WillResume(s, m) ==> m.fingerprint in s.threads && c == s.threads[m.fingerprint])
      && (c.input == OfTask(id) <==> !WillResume(s, m) || s.threads[m.fingerprint].input == OfTask(id))
  {
    if m.fingerprint in s.threads {
      assert ThreadOk(s.tasks, s.ended, m.fingerprint, s.threads[m.fingerprint]);
    }
    hide OnePerKey, FindIndexed;
  }

  lemma OverAtOnce(id: nat, c: Checkpoint, graph: GraphFate)
    requires graph == Ends || (graph == Loses && c.finished)
    ensures StageAfter(Some(id), c, graph) == GraphOver(c.input)
  {
  }

  /** The key's active task is marked running on a thread whose graph, another's, is already over. */
  predicate Tainted(s: Sys, m: Message, id: nat) {
    && FindIndexed(s.tasks, m.cluster, m.fingerprint) == Some(id) && s.tasks[id].status == Running
    && m.fingerprint in s.threads && s.threads[m.fingerprint].finished
    && s.threads[m.fingerprint].input != OfTask(id) && OfTask(id) !in s.ended
  }

  /** From a tainted state the redelivery completes the task, and is deleted, without the graph running for it. */
  lemma TaintedTaskCompletesUnworked(s: Sys, m: Message, id: nat, fate: Fate)
    requires Inv(s) && Tainted(s, m, id)
    requires !fate.graph.Raises? && fate.first && fate.released && fate.deleted
    ensures
      var t := Run(s, Script(|s.attempts|, m, true, fate));
      && id < |t.tasks| && t.tasks[id].status == Completed && OfTask(id) !in t.ended
      && IsDeleted(t, |s.attempts|)
  {
    CompletionWorks(s, m, fate);
    hide Run, Inv, Script, IsDeleted, FindIndexed;
  }

  /** A delivery whose lease is refused, or that dies before its graph. */
  function RefusedSteps(a: nat, m: Message): seq<Step> {
    Opening(a, m) + [Drop(a), Drop(a)]
  }

  /** A delivery that dies in its graph. */
  function DyingSteps(a: nat, m: Message): seq<Step> {
    Opening(a, m) + [TakeLease(a), Invoke(a), Drop(a), Drop(a)]
  }

  /** A new task of the key, and nothing else, was added and is running. */
  predicate AddedRunning(tasks: seq<Task>, after: seq<Task>, m: Message) {
    && |after| == |tasks| + 1 && (forall i | 0 <= i < |tasks| :: after[i] == tasks[i])
    && FindIndexed(after, m.cluster, m.fingerprint) == Some(|tasks|) && after[|tasks|].status == Running
  }

  predicate LeftRunning(s: Sys, t: Sys, m: Message) {
    AddedRunning(s.tasks, t.tasks, m) && t.ended == s.ended && OfTask(|s.tasks|) !in t.ended
  }

  lemma OpenedFresh(s: Sys, m: Message)
    requires Inv(s) && !Unsettled(s, m)
    ensures
      var o := OpenedState(s, m);
      && AddedRunning(s.tasks, o.tasks, m) && OfTask(|s.tasks|) !in s.ended
      && o == s.(tasks := o.tasks, attempts := s.attempts + [Attempt(m, Some(|s.tasks|), Marked(false))])
  {
    var o, id := OpenedState(s, m), |s.tasks|;
    assert OfTask(id) in s.ended ==> EndedOk(s.tasks, OfTask(id));
    assert OnePerKey(s.tasks);
    OpensRow(s, m);
    assert !WillResume(s, m) && RowFor(s, m) == id;
    hide Inv, OpenedState, WillResume, OnePerKey;
    FindsTheOne(o.tasks, id, m.cluster, m.fingerprint);
  }

  lemma StopsMarked(o: Sys, a: nat)
    requires a < |o.attempts| && o.attempts[a].stage == Marked(false)
    ensures Exec(Exec(o, Drop(a)), Drop(a)) == Goto(o, a, Gone)
  {
    assert Exec(o, Drop(a)) == Goto(o, a, Gone);
  }

  lemma StopsInGraph(o: Sys, a: nat, m: Message, id: nat)
    requires a < |o.attempts| && o.attempts[a] == Attempt(m, Some(id), Marked(false))
    ensures Exec(Exec(Exec(Exec(o, TakeLease(a)), Invoke(a)), Drop(a)), Drop(a)) ==
      Goto(Commit(o, m.fingerprint, Checkpoint(OfTask(id), false)), a, Gone)
  {
    var s1 := Exec(o, TakeLease(a));
    assert s1 == Goto(o, a, Leased(false));
    var s2 := Exec(s1, Invoke(a));
    assert s2 == Goto(Commit(s1, m.fingerprint, Checkpoint(OfTask(id), false)), a, InGraph(OfTask(id)));
    assert Exec(s2, Drop(a)) == Goto(s2, a, Gone);
  }

  lemma RefusedLeavesRunning(s: Sys, m: Message)
    requires Inv(s) && !Unsettled(s, m)
    ensures
      var t := Run(s, RefusedSteps(|s.attempts|, m));
      LeftRunning(s, t, m) && t.threads == s.threads
  {
    var a, o := |s.attempts|, OpenedState(s, m);
    assert OnePerKey(s.tasks);
    OpeningReaches(s, m);
    OpenedFresh(s, m);
    RunConcat(s, Opening(a, m), [Drop(a), Drop(a)]);
    RunTwo(o, Drop(a), Drop(a));
    hide Run, Opening, OpenedState, AddedRunning, Inv, Exec;
    StopsMarked(o, a);
  }

  lemma DyingLeavesRunning(s: Sys, m: Message)
    requires Inv(s) && !Unsettled(s, m)
    ensures
      var t := Run(s, DyingSteps(|s.attempts|, m));
      && LeftRunning(s, t, m) && t.threads == s.threads[m.fingerprint := Checkpoint(OfTask(|s.tasks|), false)]
      && t.attempts == s.attempts + [Attempt(m, Some(|s.tasks|), Gone)]
  {
    var a, o := |s.attempts|, OpenedState(s, m);
    assert OnePerKey(s.tasks);
    OpeningReaches(s, m);
    OpenedFresh(s, m);
    RunConcat(s, Opening(a, m), [TakeLease(a), Invoke(a), Drop(a), Drop(a)]);
    RunFour(o, TakeLease(a), Invoke(a), Drop(a), Drop(a));
    hide Run, Opening, OpenedState, AddedRunning, Inv, Exec;
    StopsInGraph(o, a, m, |s.tasks|);
    ReplaceLast(s.attempts, o.attempts[a], Attempt(m, Some(|s.tasks|), Gone));
  }

  lemma ReplaceLast(xs: seq<Attempt>, x: Attempt, y: Attempt)
    ensures (xs + [x])[|xs| := y] == xs + [y]
  {
  }

  /** A delivery that nothing goes wrong with. */
  const SMOOTH: Fate := Fate(true, Ends, true, true, true, true)

  /**
   First way: an incident worked to its end, whose next occurrence is refused the lease once
   or dies before its graph. The next delivery completes the new task on the old checkpoint.
   */
  lemma FinishedIncidentTaintsTheNext(steps: seq<Step>, m: Message)
    ensures
      var s := After(steps);
      var ended := Run(s, Script(|s.attempts|, m, true, SMOOTH));
      var t := Run(ended, RefusedSteps(|ended.attempts|, m));
      Inv(t) && Tainted(t, m, |ended.tasks|)
  {
    var s := After(steps);
    Reachable(steps);
    var ended := Run(s, Script(|s.attempts|, m, true, SMOOTH));
    CompletionWorks(s, m, SMOOTH);
    RunOk(s, Script(|s.attempts|, m, true, SMOOTH));
    assert ThreadOk(ended.tasks, ended.ended, m.fingerprint, ended.threads[m.fingerprint]);
    RunOk(ended, RefusedSteps(|ended.attempts|, m));
    hide Run, After, Inv, Script, FindIndexed;
    RefusedLeavesRunning(ended, m);
  }

  /**
   Second way: the thread is kept by query alone, the task by cluster too. While a delivery
   for one cluster has died in its graph, the same query of another cluster runs to its end.
   */
  lemma OtherClusterTaints(steps: seq<Step>, m: Message, other: Message)
    requires other.fingerprint == m.fingerprint && other.cluster != m.cluster
    requires !Unsettled(After(steps), m) && !Unsettled(After(steps), other)
    ensures
      var s := After(steps);
      var died := Run(s, DyingSteps(|s.attempts|, m));
      var t := Run(died, Script(|died.attempts|, other, true, SMOOTH));
      Inv(t) && Tainted(t, m, |s.tasks|)
  {
    var s := After(steps);
    Reachable(steps);
    DyingLeavesRunning(s, m);
    var died := Run(s, DyingSteps(|s.attempts|, m));
    RunOk(s, DyingSteps(|s.attempts|, m));
    NotFound(s, died, m, other);
    var t := Run(died, Script(|died.attempts|, other, true, SMOOTH));
    RunOk(died, Script(|died.attempts|, other, true, SMOOTH));
    CompletionWorks(died, other, SMOOTH);
    assert OnePerKey(t.tasks);
    hide Run, After, Inv, Script, DyingSteps, OnePerKey;
    assert RowFor(died, other) == |died.tasks|;
    assert Indexed(t.tasks[|s.tasks|], m.cluster, m.fingerprint);
    FindsTheOne(t.tasks, |s.tasks|, m.cluster, m.fingerprint);
  }

  lemma NotFound(s: Sys, t: Sys, m: Message, other: Message)
    requires LeftRunning(s, t, m) && other.cluster != m.cluster && !Unsettled(s, other)
    ensures !Unsettled(t, other)
  {
    forall i | 0 <= i < |t.tasks| ensures !Indexed(t.tasks[i], other.cluster, other.fingerprint) {
      if i < |s.tasks| {
        assert t.tasks[i] == s.tasks[i];
      }
    }
    var found := FindIndexed(t.tasks, other.cluster, other.fingerprint);
  }

  /** Third way: any sweep of the query, healthy or not, that ends while the task is left running. */
  lemma SweepTaints(steps: seq<Step>, m: Message, sweep: Message, fate: Fate)
    requires sweep.fingerprint == m.fingerprint && !Unsettled(After(steps), m) && !fate.graph.Raises?
    ensures
      var s := After(steps);
      var died := Run(s, DyingSteps(|s.attempts|, m));
      var t := Run(died, Script(|died.attempts|, sweep, false, fate));
      Inv(t) && Tainted(t, m, |s.tasks|)
  {
    var s := After(steps);
    Reachable(steps);
    DyingLeavesRunning(s, m);
    var died := Run(s, DyingSteps(|s.attempts|, m));
    RunOk(s, DyingSteps(|s.attempts|, m));
    var t := Run(died, Script(|died.attempts|, sweep, false, fate));
    RunOk(died, Script(|died.attempts|, sweep, false, fate));
    SweepLeaves(died, sweep, fate);
    assert OnePerKey(t.tasks);
    hide Run, After, Inv, Script, DyingSteps, OnePerKey;
    FindsTheOne(t.tasks, |s.tasks|, m.cluster, m.fingerprint);
  }

  // ----- tasks nobody works on

  predicate SameKeyOf(m: Message, cluster: string, fp: string) {
    m.cluster == cluster && m.fingerprint == fp
  }

  /** The attempt holds the task, or may still come to hold one of its key. */
  predicate Involved(at: Attempt, id: nat, cluster: string, fp: string) {
    && !IsOver(at.stage)
    && (at.task == Some(id) || (at.stage == Probed(true) && SameKeyOf(at.message, cluster, fp)))
  }

  /** The active task of a key that no attempt is concerned with. */
  predicate Abandoned(s: Sys, id: nat, cluster: string, fp: string) {
    && FindIndexed(s.tasks, cluster, fp) == Some(id)
    && forall a | 0 <= a < |s.attempts| :: !Involved(s.attempts[a], id, cluster, fp)
  }

  /** Another incident of the key is delivered. */
  predicate Reported(step: Step, cluster: string, fp: string) {
    step.Deliver? && step.incident && SameKeyOf(step.message, cluster, fp)
  }

  predicate IsOver(stage: Stage) {
    stage.Gone? || stage.Deleted?
  }

  /** A step writes no row but its own attempt's, and adds rows behind the others. */
  lemma RowMoves(s: Sys, step: Step, id: nat)
    requires id < |s.tasks|
    requires !step.Deliver? && step.a < |s.attempts| ==>
      s.attempts[step.a].task != Some(id) || IsOver(s.attempts[step.a].stage)
    ensures id < |Exec(s, step).tasks| && Exec(s, step).tasks[id] == s.tasks[id]
  {
    hide StatusAllowed, ObservedRow;
  }

  lemma OtherRowsMove(s: Sys, step: Step, id: nat, cluster: string, fp: string)
    requires Inv(s) && Abandoned(s, id, cluster, fp) && !Reported(step, cluster, fp)
    ensures id < |Exec(s, step).tasks| && Exec(s, step).tasks[id] == s.tasks[id]
  {
    if !step.Deliver? && step.a < |s.attempts| {
      assert !Involved(s.attempts[step.a], id, cluster, fp);
    }
    hide Inv, Exec, FindIndexed;
    RowMoves(s, step, id);
  }

  lemma PlacedElsewhere(tasks: seq<Task>, m: Message, id: nat, cluster: string, fp: string)
    requires OnePerKey(tasks) && FindIndexed(tasks, cluster, fp) == Some(id) && !SameKeyOf(m, cluster, fp)
    ensures Placed(tasks, IncidentRow(m)).1 != id
  {
  }

  /** What a step of attempt `a` may change about it: only an insertion gives it a task, and an end is final. */
  lemma AttemptMoves(s: Sys, step: Step)
    requires !step.Deliver? && step.a < |s.attempts|
    ensures
      var t, a := Exec(s, step), step.a;
      && |t.attempts| == |s.attempts| && t.attempts == s.attempts[a := t.attempts[a]]
      && t.attempts[a].message == s.attempts[a].message
      && (t.attempts[a].stage.Probed? || IsOver(s.attempts[a].stage) ==> t.attempts[a] == s.attempts[a])
      && (step.Insert? && s.attempts[a].stage == Probed(true) ==>
            t.attempts[a].task == Some(Placed(s.tasks, IncidentRow(s.attempts[a].message)).1))
      && (!(step.Insert? && s.attempts[a].stage == Probed(true)) ==> t.attempts[a].task == s.attempts[a].task)
  {
    assert s.attempts[step.a := s.attempts[step.a]] == s.attempts;
    hide Placed, WithStatus, StatusAllowed, ObservedRow, IncidentRow;
  }

  lemma NobodyJoins(s: Sys, step: Step, id: nat, cluster: string, fp: string)
    requires Inv(s) && Abandoned(s, id, cluster, fp) && !Reported(step, cluster, fp)
    ensures
      var t := Exec(s, step);
      forall a | 0 <= a < |t.attempts| :: !Involved(t.attempts[a], id, cluster, fp)
  {
    if !step.Deliver? && step.a < |s.attempts| {
      assert !Involved(s.attempts[step.a], id, cluster, fp);
      var m := s.attempts[step.a].message;
      if !SameKeyOf(m, cluster, fp) {
        PlacedElsewhere(s.tasks, m, id, cluster, fp);
      }
      AttemptMoves(s, step);
      hide Exec, Inv, FindIndexed, Placed;
    } else {
      hide StepAttempt, Inv, FindIndexed;
    }
  }

  lemma AbandonedStep(s: Sys, step: Step, id: nat, cluster: string, fp: string)
    requires Inv(s) && Abandoned(s, id, cluster, fp) && !Reported(step, cluster, fp)
    ensures Abandoned(Exec(s, step), id, cluster, fp) && Exec(s, step).tasks[id] == s.tasks[id]
  {
    StepOk(s, step);
    OtherRowsMove(s, step, id, cluster, fp);
    NobodyJoins(s, step, id, cluster, fp);
    var t := Exec(s, step);
    assert OnePerKey(t.tasks);
    hide Exec, Inv, OnePerKey, Involved, Reported;
    FindsTheOne(t.tasks, id, cluster, fp);
  }

  /**
   Whatever else is delivered and however it is interleaved, an abandoned task stays as it is
   until another message of its key is probed as an incident: sweeps never settle it.
   */
  lemma {:induction false} AbandonedTaskStaysAsItIs(s: Sys, later: seq<Step>, id: nat, cluster: string, fp: string)
    requires Inv(s) && Abandoned(s, id, cluster, fp)
    requires forall k | 0 <= k < |later| :: !Reported(later[k], cluster, fp)
    ensures Abandoned(Run(s, later), id, cluster, fp) && Run(s, later).tasks[id] == s.tasks[id]
  {
    hide Inv, Exec, Abandoned, Reported;
    if |later| > 0 {
      var front := later[..|later| - 1];
      AbandonedTaskStaysAsItIs(s, front, id, cluster, fp);
      RunOk(s, front);
      AbandonedStep(Run(s, front), later[|later| - 1], id, cluster, fp);
    }
  }

  /**
   The stuck task: an incident's delivery dies in its graph, its redelivery probes as a sweep,
   completes and is deleted; from then on the task is running for good, until another message
   of its key probes as an incident.
   */
  lemma SweptRedeliveryLeavesTaskStuck(steps: seq<Step>, m: Message, later: seq<Step>)
    requires
      var s := After(steps);
      !Unsettled(s, m) && forall a | 0 <= a < |s.attempts| ::
        !Involved(s.attempts[a], |s.tasks|, m.cluster, m.fingerprint)
    requires forall k | 0 <= k < |later| :: !Reported(later[k], m.cluster, m.fingerprint)
    ensures
      var s := After(steps);
      var died := Run(s, DyingSteps(|s.attempts|, m));
      var swept := Run(died, Script(|died.attempts|, m, false, SMOOTH));
      var t := Run(swept, later);
      && IsDeleted(swept, |died.attempts|)
      && |s.tasks| < |t.tasks| && t.tasks[|s.tasks|].status == Running
  {
    var s, id := After(steps), |After(steps).tasks|;
    Reachable(steps);
    DyingLeavesRunning(s, m);
    hide Run, After, Inv, DyingSteps, Involved, IsDeleted, AddedRunning;
    var died := Run(s, DyingSteps(|s.attempts|, m));
    RunOk(s, DyingSteps(|s.attempts|, m));
    AbandonedAfterDying(s, died, m);
    assert Abandoned(died, id, m.cluster, m.fingerprint);
    SweepLeaves(died, m, SMOOTH);
    var script := Script(|died.attempts|, m, false, SMOOTH);
    assert forall k | 0 <= k < |script| :: !Reported(script[k], m.cluster, m.fingerprint);
    hide Script, Reported, Abandoned;
    AbandonedTaskStaysAsItIs(died, script, id, m.cluster, m.fingerprint);
    RunOk(died, script);
    AbandonedTaskStaysAsItIs(Run(died, script), later, id, m.cluster, m.fingerprint);
    AbandonedIsThere(Run(Run(died, script), later), id, m.cluster, m.fingerprint);
    AbandonedIsThere(Run(died, script), id, m.cluster, m.fingerprint);
    AddedIsRunning(s.tasks, died.tasks, m);
  }

  lemma AbandonedIsThere(s: Sys, id: nat, cluster: string, fp: string)
    requires Abandoned(s, id, cluster, fp)
    ensures id < |s.tasks|
  {
  }

  lemma AddedIsRunning(tasks: seq<Task>, after: seq<Task>, m: Message)
    requires AddedRunning(tasks, after, m)
    ensures |after| == |tasks| + 1 && after[|tasks|].status == Running
  {
  }

  lemma AbandonedAfterDying(s: Sys, t: Sys, m: Message)
    requires forall a | 0 <= a < |s.attempts| :: !Involved(s.attempts[a], |s.tasks|, m.cluster, m.fingerprint)
    requires AddedRunning(s.tasks, t.tasks, m) && t.attempts == s.attempts + [Attempt(m, Some(|s.tasks|), Gone)]
    ensures Abandoned(t, |s.tasks|, m.cluster, m.fingerprint)
  {
  }
}
