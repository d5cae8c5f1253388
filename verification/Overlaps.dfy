/**
 Two deliveries of one task at work at once (agent/main.py): how that state is reached, what
 the unfenced final status of the one that lost its lease does to the other's task, and who
 wrote a task's status last in any interleaving.
 */
module Overlaps {
  import opened Prelude
  import opened Tasks
  import opened Delivery
  import opened DeliveryTheorems

  // ----- who wrote a status last

  /** The status that a step writes to row `id`, if it writes one. */
  function StatusWrite(s: Sys, step: Step, id: nat): Option<Status> {
    if step.Deliver? || step.a >= |s.attempts| || s.attempts[step.a].task != Some(id) then None
    else
      var stage := s.attempts[step.a].stage;
      var status := match step
        case MarkRunning(_) => if stage.Decided? then Some(Running) else None
        case Record(_, written) => if written then FinalStatus(stage) else None
        case _ => None;
      if id < |s.tasks| && status.Some? && StatusAllowed(s.tasks, id, status.value) then status else None
  }

  /** The status that the final write of an attempt is for. */
  function FinalStatus(stage: Stage): Option<Status> {
    match stage
    case GraphOver(_) => Some(Completed)
    case LeaseLost => Some(Parked)
    case Excepting(outcome) => Some(outcome)
    case _ => None
  }

  lemma StepWritesStatus(s: Sys, step: Step, id: nat)
    ensures
      var t, written := Exec(s, step), StatusWrite(s, step, id);
      && (id < |s.tasks| ==>
            id < |t.tasks| && t.tasks[id].status == if written.Some? then written.value else s.tasks[id].status)
      && (|s.tasks| <= id < |t.tasks| ==> t.tasks[id].status == Pending)
  {
    hide StatusAllowed, FindIndexed;
  }

  /** The last status that a run wrote to row `id`. */
  function LastStatus(steps: seq<Step>, id: nat): Option<Status> {
    if |steps| == 0 then None
    else
      var front := steps[..|steps| - 1];
      var written := StatusWrite(After(front), steps[|steps| - 1], id);
      if written.Some? then written else LastStatus(front, id)
  }

  /** Rows begin as pending, and afterwards have the status written last, by whichever delivery. */
  lemma {:induction false} StatusIsLastWrite(steps: seq<Step>, id: nat)
    requires id < |After(steps).tasks|
    ensures
      var last := LastStatus(steps, id);
      After(steps).tasks[id].status == if last.Some? then last.value else Pending
    ensures LastStatus(steps, id).Some? ==> |steps| > 0
  {
    hide StatusWrite, Exec;
    if |steps| > 0 {
      var front := steps[..|steps| - 1];
      StepWritesStatus(After(front), steps[|steps| - 1], id);
      if id < |After(front).tasks| {
        StatusIsLastWrite(front, id);
      } else {
        NoWriteBefore(front, id);
        NoWriteTo(After(front), steps[|steps| - 1], id);
      }
    }
  }

  lemma NoWriteTo(s: Sys, step: Step, id: nat)
    requires id >= |s.tasks|
    ensures StatusWrite(s, step, id).None?
  {
  }

  lemma {:induction false} NoWriteBefore(steps: seq<Step>, id: nat)
    requires id >= |After(steps).tasks|
    ensures LastStatus(steps, id).None?
  {
    hide StatusWrite, Exec;
    if |steps| > 0 {
      var front := steps[..|steps| - 1];
      Reachable(front);
      StepOk(After(front), steps[|steps| - 1]);
      hide Inv;
      assert |After(front).tasks| <= |After(steps).tasks|;
      NoWriteTo(After(front), steps[|steps| - 1], id);
      NoWriteBefore(front, id);
    }
  }

  /** Between its mark 'running' and its own final write. */
  predicate AtWork(stage: Stage) {
    stage.Marked? || stage.Leased? || stage.InGraph? || stage.GraphOver? || stage.LeaseLost? || stage.Excepting?
  }

  /** What a step may do to whether its attempt is at work: it starts with a mark, and ends for good. */
  lemma WorkMoves(s: Sys, step: Step)
    requires !step.Deliver? && step.a < |s.attempts|
    requires (s.attempts[step.a].stage.Probed? ==> s.attempts[step.a].task.None?)
    ensures
      var t, a := Exec(s, step), step.a;
      && |t.attempts| == |s.attempts| && t.attempts == s.attempts[a := t.attempts[a]]
      && (AtWork(t.attempts[a].stage) && t.attempts[a].task.Some? ==>
            && t.attempts[a].task == s.attempts[a].task
            && (AtWork(s.attempts[a].stage)
                || (step.MarkRunning? && s.attempts[a].stage.Decided?
                    && StatusAllowed(s.tasks, s.attempts[a].task.value, Running))))
  {
    assert s.attempts[step.a := s.attempts[step.a]] == s.attempts;
    hide Placed, WithStatus, StatusAllowed, ObservedRow, IncidentRow;
  }

  /** A delivery at work has marked its task: some status was written to it. */
  lemma {:induction false} WorkIsMarked(steps: seq<Step>, b: nat)
    requires
      var s := After(steps);
      b < |s.attempts| && AtWork(s.attempts[b].stage) && s.attempts[b].task.Some?
    ensures LastStatus(steps, After(steps).attempts[b].task.value).Some?
  {
    if |steps| > 0 {
      var front, step := steps[..|steps| - 1], steps[|steps| - 1];
      var s, t := After(front), After(steps);
      Reachable(front);
      hide StatusWrite, Exec;
      if step.Deliver? {
        assert t == Exec(s, step);
        DeliverAdds(s, step);
        WorkIsMarked(front, b);
      } else if step.a >= |s.attempts| {
        IdleStep(s, step);
        WorkIsMarked(front, b);
      } else {
        assert AttemptOk(s.tasks, s.ended, s.attempts[step.a]);
        WorkMoves(s, step);
        if b != step.a || AtWork(s.attempts[b].stage) {
          WorkIsMarked(front, b);
        } else {
          MarkWrites(s, step);
        }
      }
    }
  }

  lemma DeliverAdds(s: Sys, step: Step)
    requires step.Deliver?
    ensures Exec(s, step).attempts == s.attempts + [Attempt(step.message, None, Probed(step.incident))]
  {
  }

  lemma IdleStep(s: Sys, step: Step)
    requires !step.Deliver? && step.a >= |s.attempts|
    ensures Exec(s, step) == s
  {
  }

  lemma MarkWrites(s: Sys, step: Step)
    requires Inv(s) && step.MarkRunning? && step.a < |s.attempts|
    requires s.attempts[step.a].stage.Decided? && s.attempts[step.a].task.Some?
    requires StatusAllowed(s.tasks, s.attempts[step.a].task.value, Running)
    ensures StatusWrite(s, step, s.attempts[step.a].task.value) == Some(Running)
  {
    assert AttemptOk(s.tasks, s.ended, s.attempts[step.a]);
    hide StatusAllowed, OnePerKey;
  }

  lemma {:induction false} LastStatusIff(steps: seq<Step>, id: nat, status: Status)
    ensures LastStatus(steps, id) == Some(status) <==> exists k: nat :: WroteLast(steps, id, status, k)
  {
    hide StatusWrite, After;
    if |steps| > 0 {
      var front, last := steps[..|steps| - 1], |steps| - 1;
      LastStatusIff(front, id, status);
      assert steps[..last] == front;
      if StatusWrite(After(front), steps[last], id).Some? {
        assert StatusWrite(After(front), steps[last], id) == Some(status) ==> WroteLast(steps, id, status, last);
      } else {
        forall k: nat ensures WroteLast(steps, id, status, k) <==> WroteLast(front, id, status, k) {
          WroteLastFront(steps, id, status, k);
        }
      }
    }
  }

  /** Step `k` wrote `status` to the row, and no later step wrote any. */
  predicate WroteLast(steps: seq<Step>, id: nat, status: Status, k: nat) {
    && k < |steps| && StatusWrite(After(steps[..k]), steps[k], id) == Some(status)
    && forall j | k < j < |steps| :: StatusWrite(After(steps[..j]), steps[j], id).None?
  }

  lemma WroteLastFront(steps: seq<Step>, id: nat, status: Status, k: nat)
    requires |steps| > 0 && StatusWrite(After(steps[..|steps| - 1]), steps[|steps| - 1], id).None?
    ensures WroteLast(steps, id, status, k) <==> WroteLast(steps[..|steps| - 1], id, status, k)
  {
    hide StatusWrite, After;
    var front, last := steps[..|steps| - 1], |steps| - 1;
    forall j: nat | j < last ensures steps[..j] == front[..j] && steps[j] == front[j] {
    }
    assert steps[..last] == front;
  }

  // ----- the task under a running graph

  /** The attempt has made, or given up, its final write. */
  predicate PastWork(stage: Stage) {
    stage.Closing? || stage.Returned? || stage.Deleted? || stage.Gone?
  }

  lemma PastStays(s: Sys, step: Step, a: nat)
    requires a < |s.attempts| && PastWork(s.attempts[a].stage)
    ensures a < |Exec(s, step).attempts| && PastWork(Exec(s, step).attempts[a].stage)
  {
    hide Placed, WithStatus, StatusAllowed, ObservedRow;
  }

  lemma {:induction false} PastStaysOver(s: Sys, steps: seq<Step>, a: nat)
    requires a < |s.attempts| && PastWork(s.attempts[a].stage)
    ensures a < |Run(s, steps).attempts| && PastWork(Run(s, steps).attempts[a].stage)
  {
    hide Exec, PastWork;
    if |steps| > 0 {
      PastStaysOver(s, steps[..|steps| - 1], a);
      PastStays(Run(s, steps[..|steps| - 1]), steps[|steps| - 1], a);
    }
  }

  /** A landed write other than the mark is its delivery's final one. */
  lemma FinalWriteIsLast(s: Sys, step: Step, id: nat)
    requires Inv(s) && StatusWrite(s, step, id).Some?
    ensures !step.Deliver? && step.a < |s.attempts| && s.attempts[step.a].task == Some(id)
    ensures if step.MarkRunning? then StatusWrite(s, step, id) == Some(Running)
            else step.Record? && !IsActive(StatusWrite(s, step, id).value) && step.a < |Exec(s, step).attempts|
                 && PastWork(Exec(s, step).attempts[step.a].stage)
  {
    assert AttemptOk(s.tasks, s.ended, s.attempts[step.a]);
    hide StatusAllowed, OnePerKey, WithStatus;
  }

  /** Step `k` is another delivery's landed final write to the row, and no later step marks or records it. */
  predicate SettledByAnother(steps: seq<Step>, b: nat, id: nat, k: nat) {
    && k < |steps| && steps[k].Record? && steps[k].a != b
    && StatusWrite(After(steps[..k]), steps[k], id).Some?
    && forall j | k < j < |steps| :: StatusWrite(After(steps[..j]), steps[j], id).None?
  }

  /**
   Over every interleaving: the task of a delivery at work is not 'running' exactly when
   another delivery of that task has landed its final status, with no mark of it since.
   */
  lemma TaskUnderWorkIff(steps: seq<Step>, b: nat)
    requires
      var s := After(steps);
      b < |s.attempts| && AtWork(s.attempts[b].stage) && s.attempts[b].task.Some?
    ensures
      var s, id := After(steps), After(steps).attempts[b].task.value;
      && id < |s.tasks|
      && (s.tasks[id].status != Running <==> exists k: nat :: SettledByAnother(steps, b, id, k))
  {
    var s, id := After(steps), After(steps).attempts[b].task.value;
    Reachable(steps);
    assert AttemptOk(s.tasks, s.ended, s.attempts[b]);
    WorkIsMarked(steps, b);
    StatusIsLastWrite(steps, id);
    var status := LastStatus(steps, id).value;
    LastStatusIff(steps, id, status);
    var k: nat :| WroteLast(steps, id, status, k);
    LastWriterIsAnother(steps, b, id, status, k);
    hide After, Inv, StatusWrite, AtWork;
    forall j: nat | SettledByAnother(steps, b, id, j) ensures j == k {
      LastIsOnlyOne(steps, b, id, status, j, k);
    }
  }

  lemma LastIsOnlyOne(steps: seq<Step>, b: nat, id: nat, status: Status, j: nat, k: nat)
    requires SettledByAnother(steps, b, id, j) && WroteLast(steps, id, status, k)
    ensures j == k
  {
    hide StatusWrite, After;
  }

  lemma LastWriterIsAnother(steps: seq<Step>, b: nat, id: nat, status: Status, k: nat)
    requires WroteLast(steps, id, status, k)
    requires b < |After(steps).attempts| && AtWork(After(steps).attempts[b].stage)
    ensures SettledByAnother(steps, b, id, k) <==> status != Running
  {
    var u, step := After(steps[..k]), steps[k];
    Reachable(steps[..k]);
    FinalWriteIsLast(u, step, id);
    SplitAt(steps, k);
    hide StatusWrite, Inv, Exec, After, Run, AtWork, PastWork;
    if step.Record? {
      PastStaysOver(Exec(u, step), steps[k + 1..], step.a);
      NotBoth(After(steps).attempts[step.a].stage);
    }
  }

  lemma NotBoth(stage: Stage)
    ensures !(AtWork(stage) && PastWork(stage))
  {
  }

  lemma SplitAt(steps: seq<Step>, k: nat)
    requires k < |steps|
    ensures After(steps) == Run(Exec(After(steps[..k]), steps[k]), steps[k + 1..])
  {
    hide Exec;
    assert steps == steps[..k + 1] + steps[k + 1..];
    assert steps[..k + 1][..k] == steps[..k];
    RunConcat(START, steps[..k + 1], steps[k + 1..]);
  }

  // ----- the unfenced park

  /**
   Over every interleaving: the 'parked' of a delivery that lost its lease leaves its key with
   no active incident exactly when there was none, or the active one is its own task.
   */
  lemma LostLeaseFreesKeyIff(steps: seq<Step>, a: nat)
    requires
      var s := After(steps);
      a < |s.attempts| && s.attempts[a].stage == LeaseLost
    ensures
      var s, m := After(steps), After(steps).attempts[a].message;
      var found := FindIndexed(s.tasks, m.cluster, m.fingerprint);
      !Unsettled(Exec(s, Record(a, true)), m) <==> found.None? || found == s.attempts[a].task
  {
    var s := After(steps);
    Reachable(steps);
    var at := s.attempts[a];
    var id, m := at.task.value, at.message;
    assert AttemptOk(s.tasks, s.ended, at);
    assert OnePerKey(s.tasks);
    var t := Exec(s, Record(a, true));
    assert t.tasks == WithStatus(s.tasks, id, Parked);
    hide After, Inv, OnePerKey, Exec;
    ParkMovesOneRow(s.tasks, id, m.cluster, m.fingerprint);
  }

  lemma ParkMovesOneRow(tasks: seq<Task>, id: nat, cluster: string, fp: string)
    requires OnePerKey(tasks) && id < |tasks|
    ensures
      var found := FindIndexed(tasks, cluster, fp);
      FindIndexed(WithStatus(tasks, id, Parked), cluster, fp).None? <==> found.None? || found == Some(id)
  {
    var found, after := FindIndexed(tasks, cluster, fp), WithStatus(tasks, id, Parked);
    hide OnePerKey;
    forall i | 0 <= i < |after| && i != id ensures after[i] == tasks[i] {
    }
    assert !Indexed(after[id], cluster, fp);
    var kept := FindIndexed(after, cluster, fp);
    if found == Some(id) {
      TerminalFreesSlot(tasks, id, Parked, cluster, fp);
    }
  }

  /** A delivery up to its running graph. */
  function WorkSteps(a: nat, m: Message): seq<Step> {
    Opening(a, m) + [TakeLease(a), Invoke(a)]
  }

  /** A delivery starts its graph, a second of the same message starts it too, and the first finds its lease lost. */
  function OverlapSteps(a: nat, m: Message): seq<Step> {
    WorkSteps(a, m) + WorkSteps(a + 1, m) + [LoseLease(a), Record(a, true)]
  }

  /**
   The attempt is in its graph on the active, running row of its message, with that graph's
   checkpoint on the thread.
   */
  predicate Working(s: Sys, a: nat, m: Message, id: nat, input: Input) {
    && a < |s.attempts| && s.attempts[a] == Attempt(m, Some(id), InGraph(input))
    && FindIndexed(s.tasks, m.cluster, m.fingerprint) == Some(id) && s.tasks[id].status == Running
    && m.fingerprint in s.threads && s.threads[m.fingerprint] == Checkpoint(input, false)
  }

  lemma LeasesAndInvokes(o: Sys, a: nat, m: Message, id: nat, resuming: bool)
    requires a < |o.attempts| && o.attempts[a] == Attempt(m, Some(id), Marked(resuming))
    requires resuming ==> m.fingerprint in o.threads && !o.threads[m.fingerprint].finished
    ensures
      var input := if resuming then o.threads[m.fingerprint].input else OfTask(id);
      Exec(Exec(o, TakeLease(a)), Invoke(a)) ==
        Goto(Commit(o, m.fingerprint, Checkpoint(input, false)), a, InGraph(input))
  {
    assert resuming ==> o.threads[m.fingerprint := o.threads[m.fingerprint]] == o.threads;
    var s1 := Exec(o, TakeLease(a));
    assert s1 == Goto(o, a, Leased(resuming));
  }

  /** A delivery started from a state in which its thread holds no finished graph gets to work. */
  lemma GetsToWork(s: Sys, m: Message) returns (input: Input)
    requires Inv(s) && (WillResume(s, m) ==> !s.threads[m.fingerprint].finished)
    ensures
      var a := |s.attempts|;
      var t := Run(s, WorkSteps(a, m));
      && Inv(t) && Working(t, a, m, RowFor(s, m), input) && |t.attempts| == a + 1
      && (forall i | 0 <= i < a :: t.attempts[i] == s.attempts[i])
      && (WillResume(s, m) ==> input == s.threads[m.fingerprint].input)
  {
    var a, o, id := |s.attempts|, OpenedState(s, m), RowFor(s, m);
    var resuming := WillResume(s, m);
    input := if resuming then s.threads[m.fingerprint].input else OfTask(id);
    OpeningReaches(s, m);
    OpensRow(s, m);
    RunConcat(s, Opening(a, m), [TakeLease(a), Invoke(a)]);
    RunTwo(o, TakeLease(a), Invoke(a));
    RunOk(s, Opening(a, m) + [TakeLease(a), Invoke(a)]);
    assert o.attempts[a] == Attempt(m, Some(id), Marked(resuming));
    FindsTheOne(o.tasks, id, m.cluster, m.fingerprint);
    hide Run, Opening, OpenedState, Inv, OnePerKey, FindIndexed, RowFor, Exec, WillResume;
    LeasesAndInvokes(o, a, m, id, resuming);
  }

  lemma LosesAndParks(s: Sys, a: nat, m: Message, id: nat, input: Input)
    requires a < |s.attempts| && s.attempts[a] == Attempt(m, Some(id), InGraph(input)) && id < |s.tasks|
    ensures
      var t := Exec(Exec(s, LoseLease(a)), Record(a, true));
      && t.tasks == s.tasks[id := s.tasks[id].(status := Parked)]
      && t.attempts == s.attempts[a := Attempt(m, Some(id), Closing(Parked, true))]
  {
    TerminalIsAllowed(s.tasks, id, Parked);
    hide WithStatus, StatusAllowed;
    var lost := Exec(s, LoseLease(a));
    assert lost == Goto(s, a, LeaseLost);
  }

  /**
   The run: from every reachable state in which the thread of the message holds no finished
   graph to resume, two deliveries get to work on one task, the first loses its lease and
   parks the task under the second's running graph, and the key's next report opens a second
   task beside it.
   */
  lemma LostLeaseParksUnderNewHolder(steps: seq<Step>, m: Message)
    requires WillResume(After(steps), m) ==> !After(steps).threads[m.fingerprint].finished
    ensures
      var s := After(steps);
      var a, id := |s.attempts|, RowFor(s, m);
      var t := Run(s, OverlapSteps(a, m));
      && |t.attempts| == a + 2 && id < |t.tasks|
      && t.attempts[a].stage == Closing(Parked, true) && t.attempts[a].task == Some(id)
      && t.attempts[a + 1].stage.InGraph? && t.attempts[a + 1].task == Some(id)
      && t.tasks[id].status == Parked && RowFor(t, m) == |t.tasks|
  {
    var s := After(steps);
    var a, id := |s.attempts|, RowFor(s, m);
    Reachable(steps);
    hide After, Run, Inv, WorkSteps, RowFor, WillResume, Exec, FindIndexed, WithStatus;
    var input := TwoGetToWork(s, m);
    var both := WorkSteps(a, m) + WorkSteps(a + 1, m);
    var two := Run(s, both);
    RunConcat(s, both, [LoseLease(a), Record(a, true)]);
    RunTwo(two, LoseLease(a), Record(a, true));
    LosesAndParks(two, a, m, id, input);
    ParkMovesOneRow(two.tasks, id, m.cluster, m.fingerprint);
    TerminalIsAllowed(two.tasks, id, Parked);
    RowForIsNewIff(Run(s, OverlapSteps(a, m)), m);
  }

  lemma TwoGetToWork(s: Sys, m: Message) returns (input: Input)
    requires Inv(s) && (WillResume(s, m) ==> !s.threads[m.fingerprint].finished)
    ensures
      var a, id := |s.attempts|, RowFor(s, m);
      var t := Run(s, WorkSteps(a, m) + WorkSteps(a + 1, m));
      && OnePerKey(t.tasks) && id < |t.tasks| && FindIndexed(t.tasks, m.cluster, m.fingerprint) == Some(id)
      && |t.attempts| == a + 2 && t.attempts[a] == Attempt(m, Some(id), InGraph(input))
      && t.attempts[a + 1] == t.attempts[a]
  {
    var a, id := |s.attempts|, RowFor(s, m);
    input := GetsToWork(s, m);
    var one := Run(s, WorkSteps(a, m));
    WorkingResumes(one, a, m, id, input);
    var again := GetsToWork(one, m);
    RunConcat(s, WorkSteps(a, m), WorkSteps(a + 1, m));
    hide Run, WorkSteps, RowFor, WillResume, OnePerKey, FindIndexed;
  }

  lemma WorkingResumes(s: Sys, a: nat, m: Message, id: nat, input: Input)
    requires Working(s, a, m, id, input)
    ensures WillResume(s, m) && RowFor(s, m) == id && s.threads[m.fingerprint] == Checkpoint(input, false)
  {
  }
}
