/**
 The incident front door: the agent's `insert_task` and `insert_incident_observation`
 (agent/memory/db.py) and the webhook's own copy (workers/common/incident.py), over one
 tasks table with its partial unique index on active incidents.
 */
module FrontDoor {
  import opened Prelude
  import opened QueryNormalizer
  import opened QueryRewriting
  import opened Tasks

  /** A row of `observations`; the fingerprint is the normalized text, the hash being injective. */
  datatype Observation = Observation(scope: string, task: nat, fingerprint: Option<string>)

  datatype EntityId = EntityId(scope: string, kind: string, name: string)

  datatype Tables = Tables(tasks: seq<Task>, observations: seq<Observation>, entities: map<EntityId, nat>)

  /** `ON CONFLICT ... DO UPDATE SET version = version + 1`. */
  function Upserted(entities: map<EntityId, nat>, id: EntityId): map<EntityId, nat> {
    entities[id := if id in entities then entities[id] + 1 else 1]
  }

  /** One sighting, by either writer: place the task, attach the observation, upsert the entity. */
  function Sighted(db: Tables, t: Task, entity: EntityId): Tables {
    var (tasks, id) := Placed(db.tasks, t);
    Tables(tasks, db.observations + [Observation(t.scope, id, t.fingerprint)], Upserted(db.entities, entity))
  }

  class Database {
    var tasks: seq<Task>
    var observations: seq<Observation>
    var entities: map<EntityId, nat>

    function View(): Tables
      reads this
    {
      Tables(tasks, observations, entities)
    }

    constructor ()
      ensures View() == Tables([], [], map[])
    {
      tasks, observations, entities := [], [], map[];
    }

    /** INSERT INTO tasks; None is a UniqueViolation, after which nothing is written. */
    method TryInsertTask(t: Task) returns (id: Option<nat>)
      modifies this`tasks
      ensures id.None? <==> Refused(old(tasks), t)
      ensures id.None? ==> tasks == old(tasks)
      ensures id.Some? ==> id.value == |old(tasks)| && tasks == old(tasks) + [t]
    {
      if Refused(tasks, t) {
        return None;
      }
      id := Some(|tasks|);
      tasks := tasks + [t];
    }

    /** `insert_task`. */
    method InsertTask(scope: string, kind: TaskType, cluster: string, fingerprint: Option<string>) returns (id: nat)
      modifies this`tasks
      ensures (tasks, id) == Placed(old(tasks), Task(scope, kind, Pending, cluster, fingerprint))
    {
      var inserted := TryInsertTask(Task(scope, kind, Pending, cluster, fingerprint));
      if inserted.Some? {
        return inserted.value;
      }
      id := FindIndexed(tasks, cluster, fingerprint.value).value;
    }

    method Attach(scope: string, id: nat, fingerprint: Option<string>, entity: EntityId)
      modifies this`observations, this`entities
      ensures observations == old(observations) + [Observation(scope, id, fingerprint)]
      ensures entities == Upserted(old(entities), entity)
    {
      observations := observations + [Observation(scope, id, fingerprint)];
      entities := entities[entity := if entity in entities then entities[entity] + 1 else 1];
    }

    /** The agent's `insert_incident_observation`, for a sweep or an incident. */
    method AgentSighting(scope: string, kind: TaskType, cluster: string, fingerprint: Option<string>, entity: EntityId)
      returns (id: nat)
      modifies this
      ensures View() == Sighted(old(View()), Task(scope, kind, Pending, cluster, fingerprint), entity)
      ensures id == Placed(old(tasks), Task(scope, kind, Pending, cluster, fingerprint)).1
    {
      id := InsertTask(scope, kind, cluster, fingerprint);
      Attach(scope, id, fingerprint, entity);
    }

    /** The webhook's, which also says whether the incident is new. */
    method WebhookSighting(scope: string, cluster: string, fingerprint: string, entity: EntityId)
      returns (id: nat, isNew: bool)
      modifies this
      ensures View() == Sighted(old(View()), Task(scope, Incident, Pending, cluster, Some(fingerprint)), entity)
      ensures id == Placed(old(tasks), Task(scope, Incident, Pending, cluster, Some(fingerprint))).1
      ensures isNew <==> FindIndexed(old(tasks), cluster, fingerprint).None?
    {
      isNew := true;
      var inserted := TryInsertTask(Task(scope, Incident, Pending, cluster, Some(fingerprint)));
      if inserted.Some? {
        id := inserted.value;
      } else {
        id := FindIndexed(tasks, cluster, fingerprint).value;
        isNew := false;
      }
      Attach(scope, id, Some(fingerprint), entity);
    }

    /** `update_task_status`; false stands for the index refusing the row's return to an active status. */
    method UpdateTaskStatus(id: nat, status: Status) returns (ok: bool)
      modifies this`tasks
      ensures (tasks, ok) == (WithStatus(old(tasks), id, status), StatusAllowed(old(tasks), id, status))
    {
      ok := StatusAllowed(tasks, id, status);
      if ok && id < |tasks| {
        tasks := tasks[id := tasks[id].(status := status)];
      }
    }
  }

  // ----- runs

  datatype Step =
    | AgentTask(scope: string, kind: TaskType, cluster: string, fingerprint: Option<string>)
    | AgentSight(scope: string, kind: TaskType, cluster: string, fingerprint: Option<string>, entity: EntityId)
    | WebhookSight(scope: string, cluster: string, fp: string, entity: EntityId)
    | SetStatus(id: nat, status: Status)

  function Exec(db: Tables, step: Step): Tables {
    match step
    case AgentTask(scope, kind, cluster, fp) =>
      db.(tasks := Placed(db.tasks, Task(scope, kind, Pending, cluster, fp)).0)
    case AgentSight(scope, kind, cluster, fp, entity) => Sighted(db, Task(scope, kind, Pending, cluster, fp), entity)
    case WebhookSight(scope, cluster, fp, entity) =>
      Sighted(db, Task(scope, Incident, Pending, cluster, Some(fp)), entity)
    case SetStatus(id, status) => db.(tasks := WithStatus(db.tasks, id, status))
  }

  function Run(db: Tables, steps: seq<Step>): Tables {
    if |steps| == 0 then db else Exec(Run(db, steps[..|steps| - 1]), steps[|steps| - 1])
  }

  /**
   At most one active incident per cluster and fingerprint, and observations that belong to a task
   of their fingerprint.
   */
  predicate Inv(db: Tables) {
    && OnePerKey(db.tasks)
    && (forall o | 0 <= o < |db.observations| ::
          && db.observations[o].task < |db.tasks|
          && db.tasks[db.observations[o].task].fingerprint == db.observations[o].fingerprint)
  }

  lemma PlacedOk(db: Tables, t: Task)
    requires Inv(db)
    ensures
      var (tasks, id) := Placed(db.tasks, t);
      Inv(db.(tasks := tasks)) && db.tasks <= tasks && id < |tasks| && tasks[id].fingerprint == t.fingerprint
  {
    PlacedKeepsKeys(db.tasks, t);
    hide OnePerKey;
  }

  lemma SightedOk(db: Tables, t: Task, entity: EntityId)
    requires Inv(db)
    ensures Inv(Sighted(db, t, entity))
  {
    PlacedOk(db, t);
  }

  lemma WithStatusOk(db: Tables, id: nat, status: Status)
    requires Inv(db)
    ensures Inv(db.(tasks := WithStatus(db.tasks, id, status)))
  {
    StatusKeepsKeys(db.tasks, id, status);
    hide OnePerKey;
  }

  /** Whatever the two writers and the status updates do, one incident is active per cluster and fingerprint. */
  lemma {:induction false} OneActiveIncident(steps: seq<Step>)
    ensures Inv(Run(Tables([], [], map[]), steps))
  {
    hide Inv, Placed, Sighted, WithStatus;
    if |steps| > 0 {
      var before := Run(Tables([], [], map[]), steps[..|steps| - 1]);
      OneActiveIncident(steps[..|steps| - 1]);
      match steps[|steps| - 1]
      case AgentTask(scope, kind, cluster, fp) => PlacedOk(before, Task(scope, kind, Pending, cluster, fp));
      case AgentSight(scope, kind, cluster, fp, entity) =>
        SightedOk(before, Task(scope, kind, Pending, cluster, fp), entity);
      case WebhookSight(scope, cluster, fp, entity) =>
        SightedOk(before, Task(scope, Incident, Pending, cluster, Some(fp)), entity);
      case SetStatus(id, status) => WithStatusOk(before, id, status);
    } else {
      EmptyOk();
    }
  }

  lemma EmptyOk()
    ensures Inv(Tables([], [], map[]))
  {
  }

  /** A step that reports the incident (cluster, fp) on the entity. */
  predicate Reports(step: Step, cluster: string, fp: string, entity: EntityId) {
    match step
    case AgentSight(_, kind, c, f, e) => kind == Incident && c == cluster && f == Some(fp) && e == entity
    case WebhookSight(_, c, f, e) => c == cluster && f == fp && e == entity
    case _ => false
  }

  function Version(db: Tables, entity: EntityId): nat {
    if entity in db.entities then db.entities[entity] else 0
  }

  /**
   However many times the two writers report one incident, in any mix, they share one task:
   it is created once if it was not there, every report adds one observation to it, and the
   entity's version counts the reports.
   */
  lemma {:induction false} ReportsShareOneTask(db: Tables, steps: seq<Step>, cluster: string, fp: string,
                                               entity: EntityId)
    requires |steps| > 0 && forall k | 0 <= k < |steps| :: Reports(steps[k], cluster, fp, entity)
    ensures
      var after := Run(db, steps);
      var found, kept := FindIndexed(db.tasks, cluster, fp), FindIndexed(after.tasks, cluster, fp);
      && kept == Some(if found.Some? then found.value else |db.tasks|)
      && |after.tasks| == |db.tasks| + (if found.Some? then 0 else 1) && db.tasks <= after.tasks
      && |after.observations| == |db.observations| + |steps|
      && db.observations <= after.observations
      && (forall o | |db.observations| <= o < |after.observations| :: after.observations[o].task == kept.value)
      && Version(after, entity) == Version(db, entity) + |steps|
  {
    var front, last := steps[..|steps| - 1], steps[|steps| - 1];
    var before := Run(db, front);
    if |front| > 0 {
      ReportsShareOneTask(db, front, cluster, fp, entity);
    }
    ReportAgain(before, last, cluster, fp, entity);
    hide FindIndexed, Exec;
  }

  lemma ReportAgain(db: Tables, step: Step, cluster: string, fp: string, entity: EntityId)
    requires Reports(step, cluster, fp, entity)
    ensures
      var after := Exec(db, step);
      var found := FindIndexed(db.tasks, cluster, fp);
      && FindIndexed(after.tasks, cluster, fp) == Some(if found.Some? then found.value else |db.tasks|)
      && |after.tasks| == |db.tasks| + (if found.Some? then 0 else 1) && db.tasks <= after.tasks
      && |after.observations| == |db.observations| + 1
      && db.observations <= after.observations
      && after.observations[|db.observations|].task == FindIndexed(after.tasks, cluster, fp).value
      && Version(after, entity) == Version(db, entity) + 1
  {
    var after := Exec(db, step);
    if FindIndexed(db.tasks, cluster, fp).None? {
      assert after.tasks[..|db.tasks|] == db.tasks;
    }
  }

  /** Two texts reported by the two writers, the agent first. */
  function BothReport(db: Tables, scope: string, cluster: string, a: string, b: string, entity: EntityId): Tables {
    var agent := Exec(db, AgentSight(scope, Incident, cluster, Some(Normalize(a)), entity));
    Exec(agent, WebhookSight(scope, cluster, Normalize(b), entity))
  }

  /** The last two observations belong to one task. */
  predicate OnOneTask(before: Tables, after: Tables) {
    var n := |before.observations|;
    |after.observations| == n + 2 && after.observations[n].task == after.observations[n + 1].task
  }

  /**
   The writers normalize pass for pass alike, so whatever the tables hold, a report by the
   agent and one by the webhook belong to one task exactly when their texts normalize alike.
   */
  lemma OneIncidentIff(db: Tables, scope: string, cluster: string, a: string, b: string, entity: EntityId)
    ensures |BothReport(db, scope, cluster, a, b, entity).observations| == |db.observations| + 2
    ensures OnOneTask(db, BothReport(db, scope, cluster, a, b, entity)) <==> Normalize(a) == Normalize(b)
  {
    var first := AgentSight(scope, Incident, cluster, Some(Normalize(a)), entity);
    var second := WebhookSight(scope, cluster, Normalize(b), entity);
    var agent := Exec(db, first);
    ReportAgain(db, first, cluster, Normalize(a), entity);
    ReportAgain(agent, second, cluster, Normalize(b), entity);
    hide Normalize, Exec;
  }

  /** Both texts can be rewritten to one text by the rules of the normalization, in any order. */
  ghost predicate Variants(a: string, b: string) {
    exists u :: Leads(a, u) && Leads(b, u)
  }

  /** Exactly the variants of one query are one incident, whichever writer sees which. */
  lemma VariantsAreOneIncident(db: Tables, scope: string, cluster: string, a: string, b: string, entity: EntityId)
    ensures |BothReport(db, scope, cluster, a, b, entity).observations| == |db.observations| + 2
    ensures OnOneTask(db, BothReport(db, scope, cluster, a, b, entity)) <==> Variants(a, b)
  {
    hide BothReport, Normalize, Leads;
    OneIncidentIff(db, scope, cluster, a, b, entity);
    OneFormIff(a, b);
  }
}
