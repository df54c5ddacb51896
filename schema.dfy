/** The five tables of the task manager's database, as values.
    Ids are abstract naturals standing in for the uuid strings the
    application uses; timestamps, e-mail, full names and password hashes
    are not part of the model. */
module Schema {

  type UserId = nat
  type ProjectId = nat
  type TaskId = nat
  type MemberId = nat
  type OverlayId = nat

  datatype Option<T> = None | Some(value: T) {
    function GetOr(default: T): T {
      match this
      case Some(v) => v
      case None => default
    }
  }

  /** The three task states accepted by the task schemas. */
  datatype Status = Active | Pending | Complete

  /** A row of `projects`; `owner` is set at creation and never changes. */
  datatype Project = Project(name: string, description: Option<string>, owner: UserId)

  /** A row of `project_members`. */
  datatype Membership = Membership(project: ProjectId, user: UserId)

  /** A row of `tasks`; `project` and `createdBy` never change. */
  datatype Task = Task(project: ProjectId, createdBy: UserId, title: string, description: string, status: Status)

  /** A row of `user_task_statuses`: one user's own status on a task.
      The table is keyed by (task, user), its unique constraint; `id` is the
      row's own primary key. */
  datatype Overlay = Overlay(id: OverlayId, status: Status)

  /** The whole database at one instant. */
  datatype Store = Store(
    users: set<UserId>,
    projects: map<ProjectId, Project>,
    members: map<MemberId, Membership>,
    tasks: map<TaskId, Task>,
    overlays: map<(TaskId, UserId), Overlay>)
  {
    /** Some `project_members` row pairs `pid` with `u`. */
    predicate IsMember(pid: ProjectId, u: UserId) {
      Membership(pid, u) in members.Values
    }

    /** A task is common when its creator owns its project, private otherwise.
        A task whose project is missing is neither. */
    predicate IsCommon(t: Task) {
      t.project in projects && t.createdBy == projects[t.project].owner
    }

    predicate IsPrivate(t: Task) {
      t.project in projects && t.createdBy != projects[t.project].owner
    }

    /** Every membership row names an existing project, and never its owner. */
    ghost predicate OwnerNeverMember() {
      forall k :: k in members ==>
        members[k].project in projects && members[k].user != projects[members[k].project].owner
    }

    /** At most one membership row per (project, user) pair. */
    ghost predicate MembershipsUnique() {
      forall k, k' :: k in members && k' in members && members[k] == members[k'] ==> k == k'
    }

    /** Every task belongs to an existing project. */
    ghost predicate TasksInProjects() {
      forall t :: t in tasks ==> tasks[t].project in projects
    }

    /** Overlays exist only on common tasks, and never for the task's creator. */
    ghost predicate OverlaysOnCommonTasks() {
      forall key :: key in overlays && key.0 in tasks ==>
        IsCommon(tasks[key.0]) && key.1 != tasks[key.0].createdBy
    }

    ghost predicate Invariant() {
      && OwnerNeverMember()
      && MembershipsUnique()
      && TasksInProjects()
      && OverlaysOnCommonTasks()
    }
  }

  /** Updating a map grows it by one exactly when the key is new. */
  lemma UpdateCardinality<K, V>(a: map<K, V>, k: K, v: V)
    ensures |a[k := v]| == |a| + (if k in a then 0 else 1)
  {
    if k in a {
      assert a[k := v].Keys == a.Keys;
    } else {
      assert a[k := v].Keys == a.Keys + {k};
    }
  }
}

/** The database as the services see it: tables that the services change
    in place, plus the source of fresh row ids. */
module Db {
  import opened Schema

  class Database {
    var users: set<UserId>
    var projects: map<ProjectId, Project>
    var members: map<MemberId, Membership>
    var tasks: map<TaskId, Task>
    var overlays: map<(TaskId, UserId), Overlay>
    /** Every id handed out so far is below `nextId`; it stands in for uuid4. */
    var nextId: nat

    function Snapshot(): (s: Store)
      reads this
    {
      Store(users, projects, members, tasks, overlays)
    }

    ghost predicate Valid()
      reads this
    {
      && Snapshot().Invariant()
      && (forall p :: p in projects ==> p < nextId)
      && (forall k :: k in members ==> k < nextId)
      && (forall t :: t in tasks ==> t < nextId)
      && (forall key :: key in overlays ==> key.0 < nextId && overlays[key].id < nextId)
    }

    /** A database whose only rows are the registered users. */
    constructor (registered: set<UserId>)
      ensures Valid()
      ensures Snapshot() == Store(registered, map[], map[], map[], map[])
    {
      users, projects, members, tasks, overlays := registered, map[], map[], map[], map[];
      nextId := 0;
    }

    /** A row id never used before in any table. */
    method NewId() returns (id: nat)
      requires Valid()
      modifies this`nextId
      ensures Valid()
      ensures id == old(nextId) && nextId == id + 1
      ensures id !in projects && id !in members && id !in tasks
      ensures forall key :: key in overlays ==> key.0 != id && overlays[key].id != id
    {
      id := nextId;
      nextId := nextId + 1;
    }
  }
}
