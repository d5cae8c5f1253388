/**
 The tasks table: its statuses, its partial unique index on active incidents
 (db/migrations/001_engram_schema.sql), and the insert and update statements that the
 index guards (agent/memory/db.py). A row's id is its position.
 */
module Tasks {
  import opened Prelude

  datatype TaskType = Sweep | Incident | Manual
  datatype Status = Pending | Running | AwaitingApproval | Blocked | Completed | Failed | Parked

  datatype Task = Task(scope: string, kind: TaskType, status: Status, cluster: string, fingerprint: Option<string>)

  predicate IsActive(s: Status) {
    s == Pending || s == Running || s == AwaitingApproval || s == Blocked
  }

  /** The row is in `tasks_active_incident_idx` under this key. NULL fingerprints conflict with nothing. */
  predicate Indexed(t: Task, cluster: string, fp: string) {
    t.kind == Incident && IsActive(t.status) && t.cluster == cluster && t.fingerprint == Some(fp)
  }

  function FindIndexed(tasks: seq<Task>, cluster: string, fp: string): (r: Option<nat>)
    ensures r.Some? ==> r.value < |tasks| && Indexed(tasks[r.value], cluster, fp)
    ensures r.None? ==> forall i | 0 <= i < |tasks| :: !Indexed(tasks[i], cluster, fp)
  {
    if |tasks| == 0 then None
    else match FindIndexed(tasks[..|tasks| - 1], cluster, fp)
      case Some(i) => Some(i)
      case None => if Indexed(tasks[|tasks| - 1], cluster, fp) then Some(|tasks| - 1) else None
  }

  /** The index refuses a new row. */
  predicate Refused(tasks: seq<Task>, t: Task) {
    && t.kind == Incident && IsActive(t.status)
    && t.fingerprint.Some? && FindIndexed(tasks, t.cluster, t.fingerprint.value).Some?
  }

  /** The INSERT that the index may refuse, and the SELECT that follows a refusal. */
  function Placed(tasks: seq<Task>, t: Task): (seq<Task>, nat) {
    if Refused(tasks, t) then (tasks, FindIndexed(tasks, t.cluster, t.fingerprint.value).value)
      else (tasks + [t], |tasks|)
  }

  /** The index accepts the row with its new status. */
  predicate StatusAllowed(tasks: seq<Task>, id: nat, status: Status) {
    id < |tasks| && tasks[id].kind == Incident && IsActive(status) && tasks[id].fingerprint.Some? ==>
      forall j | 0 <= j < |tasks| && j != id :: !Indexed(tasks[j], tasks[id].cluster, tasks[id].fingerprint.value)
  }

  function WithStatus(tasks: seq<Task>, id: nat, status: Status): seq<Task> {
    if id < |tasks| && StatusAllowed(tasks, id, status) then tasks[id := tasks[id].(status := status)] else tasks
  }

  // ----- one active incident per key

  predicate SameKey(t: Task, u: Task) {
    t.fingerprint.Some? && Indexed(t, t.cluster, t.fingerprint.value) && Indexed(u, t.cluster, t.fingerprint.value)
  }

  predicate OnePerKey(tasks: seq<Task>) {
    forall i, j | 0 <= i < j < |tasks| :: !SameKey(tasks[i], tasks[j])
  }

  lemma PlacedKeepsKeys(tasks: seq<Task>, t: Task)
    requires OnePerKey(tasks)
    ensures
      var (after, id) := Placed(tasks, t);
      OnePerKey(after) && tasks <= after && id < |after| && after[id].fingerprint == t.fingerprint
  {
    var after := Placed(tasks, t).0;
    forall i, j | 0 <= i < j < |after| ensures !SameKey(after[i], after[j]) {
      if j < |tasks| {
        assert !SameKey(tasks[i], tasks[j]);
      }
    }
  }

  lemma StatusKeepsKeys(tasks: seq<Task>, id: nat, status: Status)
    requires OnePerKey(tasks)
    ensures OnePerKey(WithStatus(tasks, id, status))
  {
    var after := WithStatus(tasks, id, status);
    forall i, j | 0 <= i < j < |after| ensures !SameKey(after[i], after[j]) {
      assert !SameKey(tasks[i], tasks[j]);
    }
  }

  /** The SELECT finds the one active incident of a key. */
  lemma FindsTheOne(tasks: seq<Task>, id: nat, cluster: string, fp: string)
    requires OnePerKey(tasks) && id < |tasks| && Indexed(tasks[id], cluster, fp)
    ensures FindIndexed(tasks, cluster, fp) == Some(id)
  {
    var found := FindIndexed(tasks, cluster, fp).value;
    assert SameKey(tasks[found], tasks[id]) && SameKey(tasks[id], tasks[found]);
  }

  /** A terminal status frees the slot: the next report of the incident opens a new task. */
  lemma TerminalFreesSlot(tasks: seq<Task>, id: nat, status: Status, cluster: string, fp: string)
    requires OnePerKey(tasks) && id < |tasks| && Indexed(tasks[id], cluster, fp)
    requires status in {Completed, Failed, Parked}
    ensures FindIndexed(WithStatus(tasks, id, status), cluster, fp).None?
  {
    var after := WithStatus(tasks, id, status);
    forall i | 0 <= i < |after| ensures !Indexed(after[i], cluster, fp) {
      if i < id {
        assert !SameKey(tasks[i], tasks[id]);
      } else if i > id {
        assert !SameKey(tasks[id], tasks[i]);
      }
    }
    var found := FindIndexed(after, cluster, fp);
  }

  /** An incident of this cluster and query that is neither completed, failed nor parked. */
  predicate Live(t: Task, cluster: string, fp: string) {
    && t.kind == Incident && t.cluster == cluster && t.fingerprint == Some(fp)
    && t.status in {Pending, Running, AwaitingApproval, Blocked}
  }

  /** A new row joins a live incident of its query if there is one, and is inserted otherwise. */
  lemma JoinsIff(tasks: seq<Task>, t: Task)
    requires t.status == Pending
    ensures
      var (after, id) := Placed(tasks, t);
      if t.kind == Incident && t.fingerprint.Some?
         && exists i | 0 <= i < |tasks| :: Live(tasks[i], t.cluster, t.fingerprint.value)
      then after == tasks && id < |tasks| && Live(tasks[id], t.cluster, t.fingerprint.value)
      else after == tasks + [t] && id == |tasks|
  {
    if t.fingerprint.Some? {
      forall i | 0 <= i < |tasks|
        ensures Live(tasks[i], t.cluster, t.fingerprint.value) <==> Indexed(tasks[i], t.cluster, t.fingerprint.value)
      {
      }
    }
  }

  /** A status write reaches its row and no other, unless it would make a second live incident of one query. */
  lemma StatusWrittenIff(tasks: seq<Task>, id: nat, status: Status)
    requires id < |tasks|
    ensures
      var t, after := tasks[id].(status := status), WithStatus(tasks, id, status);
      if t.fingerprint.Some? && Live(t, t.cluster, t.fingerprint.value)
         && exists j | 0 <= j < |tasks| && j != id :: Live(tasks[j], t.cluster, t.fingerprint.value)
      then after == tasks
      else after == tasks[id := t]
  {
    var t := tasks[id];
    if t.fingerprint.Some? {
      forall j | 0 <= j < |tasks|
        ensures Live(tasks[j], t.cluster, t.fingerprint.value) <==> Indexed(tasks[j], t.cluster, t.fingerprint.value)
      {
      }
    }
  }
}
