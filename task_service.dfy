/** Tasks: creating, reading, listing, updating and deleting them, each
    call routed through the access evaluator, with each member's own
    status kept apart from the shared task on common tasks. */
module TaskService {
  import opened Schema
  import opened Results
  import opened AccessService
  import opened Db

  const NotAllowedToCreateTask: string := "Not allowed to create task in this project"
  const NotAllowedToAccessTask: string := "Not allowed to access this task"
  const NotAllowedToViewTasks: string := "Not allowed to view tasks in this project"
  const NotAllowedToUpdateTask: string := "Not allowed to update this task"
  const MembersOnlyUpdateStatus: string := "Members can only update the status of common tasks"
  const NotAllowedToUpdatePrivateTask: string := "Not allowed to update this private task"
  const NotAllowedToDeleteTask: string := "Not allowed to delete this task"
  const OnlyCreatorCanDelete: string := "Only the creator of a task can delete it"

  /** The fields a caller supplies to create a task. */
  datatype TaskCreate = TaskCreate(project: ProjectId, title: string, description: string, status: Status)

  /** A partial update: `None` leaves the field alone. */
  datatype TaskUpdate = TaskUpdate(title: Option<string>, description: Option<string>, status: Option<Status>)

  /** A task as the services hand it back: the plain task, or, for the
      owner looking at a task of their own, the task together with every
      member's own status on it. */
  datatype TaskView =
    | TaskRow(id: TaskId, task: Task)
    | OwnerTaskRow(id: TaskId, task: Task, memberStatuses: map<UserId, Status>)

  // ---------------------------------------------------------------- create

  /** A missing project or a refused caller writes nothing; otherwise exactly
      one task is added, created by the caller, with the caller's fields. */
  method CreateTask(db: Database, input: TaskCreate, caller: UserId) returns (r: Outcome<Option<TaskView>>)
    requires db.Valid()
    modifies db
    ensures db.Valid()
    ensures ProjectWithAccess(old(db.Snapshot()), input.project, caller).NotFound? ==> r == Returned(None)
    ensures ProjectWithAccess(old(db.Snapshot()), input.project, caller).Denied? ==>
      r == Raised(PermissionError(NotAllowedToCreateTask))
    ensures !ProjectWithAccess(old(db.Snapshot()), input.project, caller).Granted? ==>
      db.Snapshot() == old(db.Snapshot())
    ensures ProjectWithAccess(old(db.Snapshot()), input.project, caller).Granted? ==>
      && r.Returned? && r.value.Some? && r.value.value.TaskRow?
      && r.value.value.task == Task(input.project, caller, input.title, input.description, input.status)
      && r.value.value.id !in old(db.tasks)
      && db.tasks == old(db.tasks)[r.value.value.id := r.value.value.task]
      && db.users == old(db.users) && db.projects == old(db.projects)
      && db.members == old(db.members) && db.overlays == old(db.overlays)
  {
    var access := ProjectWithAccess(db.Snapshot(), input.project, caller);
    if access.NotFound? {
      return Returned(None);
    }
    if access.Denied? {
      return Raised(PermissionError(NotAllowedToCreateTask));
    }
    var id := db.NewId();
    var task := Task(input.project, caller, input.title, input.description, input.status);
    db.tasks := db.tasks[id := task];
    r := Returned(Some(TaskRow(id, task)));
  }

  // ------------------------------------------------------------------ read

  /** One entry per overlay row of the task: who set it, and to what. */
  function MemberStatuses(s: Store, tid: TaskId): (r: map<UserId, Status>)
    ensures forall u :: u in r <==> (tid, u) in s.overlays
    ensures forall u :: u in r ==> r[u] == s.overlays[(tid, u)].status
  {
    map key | key in s.overlays && key.0 == tid :: key.1 := s.overlays[key].status
  }

  /** The status a user sees on a common task: their own overlay if they set
      one, the task's stored status otherwise. */
  function DisplayedStatus(s: Store, tid: TaskId, u: UserId): Status
    requires tid in s.tasks
  {
    if (tid, u) in s.overlays then s.overlays[(tid, u)].status else s.tasks[tid].status
  }

  /** How a readable task is shown to `u`: the owner on their own task gets
      every member's status; anyone else on a common task sees their own
      status in place of the stored one; a private task is shown as stored. */
  function Shape(s: Store, tid: TaskId, u: UserId): (v: TaskView)
    requires tid in s.tasks && s.tasks[tid].project in s.projects
    ensures v.id == tid
    ensures v.OwnerTaskRow? <==> s.projects[s.tasks[tid].project].owner == u && s.tasks[tid].createdBy == u
    ensures v.OwnerTaskRow? ==> v.task == s.tasks[tid] && v.memberStatuses == MemberStatuses(s, tid)
    ensures v.TaskRow? && s.IsCommon(s.tasks[tid]) ==> v.task == s.tasks[tid].(status := DisplayedStatus(s, tid, u))
    ensures v.TaskRow? && s.IsPrivate(s.tasks[tid]) ==> v.task == s.tasks[tid]
  {
    var task := s.tasks[tid];
    var owner := s.projects[task.project].owner;
    if owner == u && task.createdBy == u then OwnerTaskRow(tid, task, MemberStatuses(s, tid))
    else if task.createdBy == owner then TaskRow(tid, task.(status := DisplayedStatus(s, tid, u)))
    else TaskRow(tid, task)
  }

  /** Not found and refused are told apart; a readable task comes back shaped for its reader. */
  function TaskById(s: Store, tid: TaskId, u: UserId): (r: Outcome<Option<TaskView>>)
    ensures r == Returned(None) <==> TaskWithAccess(s, tid, u).NotFound?
    ensures r == Raised(PermissionError(NotAllowedToAccessTask)) <==> TaskWithAccess(s, tid, u).Denied?
    ensures TaskWithAccess(s, tid, u).Granted? ==> r == Returned(Some(Shape(s, tid, u)))
  {
    match TaskWithAccess(s, tid, u)
    case NotFound => Returned(None)
    case Denied => Raised(PermissionError(NotAllowedToAccessTask))
    case Granted(_) => Returned(Some(Shape(s, tid, u)))
  }

  /** The project's task list for `caller`: the owner gets the tasks they
      created, each with the members' statuses; a member gets the common
      tasks, with their own status shown, and their own tasks. The list is
      exactly the project's tasks the evaluator lets the caller read, each
      shown as a read by id would show it. */
  method ProjectTasks(s: Store, pid: ProjectId, caller: UserId) returns (r: Outcome<map<TaskId, TaskView>>)
    ensures ProjectWithAccess(s, pid, caller).NotFound? ==> r == Returned(map[])
    ensures r == Raised(PermissionError(NotAllowedToViewTasks)) <==> ProjectWithAccess(s, pid, caller).Denied?
    ensures r.Returned? <==> !ProjectWithAccess(s, pid, caller).Denied?
    ensures r.Returned? && pid in s.projects && s.projects[pid].owner == caller ==>
      forall t :: t in r.value <==> t in s.tasks && s.tasks[t].project == pid && s.tasks[t].createdBy == caller
    ensures r.Returned? && pid in s.projects && s.projects[pid].owner != caller ==>
      forall t :: t in r.value <==>
        t in s.tasks && s.tasks[t].project == pid
        && (s.tasks[t].createdBy == s.projects[pid].owner || s.tasks[t].createdBy == caller)
    ensures r.Returned? ==>
      forall t :: t in r.value <==> t in s.tasks && s.tasks[t].project == pid && TaskWithAccess(s, t, caller).Granted?
    ensures r.Returned? ==> forall t :: t in r.value ==> TaskById(s, t, caller) == Returned(Some(r.value[t]))
  {
    var access := ProjectWithAccess(s, pid, caller);
    if access.NotFound? {
      return Returned(map[]);
    }
    if access.Denied? {
      return Raised(PermissionError(NotAllowedToViewTasks));
    }
    var owner := access.value.owner;
    var response: map<TaskId, TaskView> := map[];
    if owner == caller {
      var ids := set t | t in s.tasks && s.tasks[t].project == pid && s.tasks[t].createdBy == caller;
      var todo := ids;
      while todo != {}
        invariant todo <= ids
        invariant response.Keys == ids - todo
        invariant forall t :: t in response ==> response[t] == OwnerTaskRow(t, s.tasks[t], MemberStatuses(s, t))
        decreases todo
      {
        var t :| t in todo;
        response := response[t := OwnerTaskRow(t, s.tasks[t], MemberStatuses(s, t))];
        todo := todo - {t};
      }
      assert forall t :: t in response ==> TaskById(s, t, caller) == Returned(Some(response[t]));
    } else {
      var ids := set t | t in s.tasks && s.tasks[t].project == pid
                         && (s.tasks[t].createdBy == owner || s.tasks[t].createdBy == caller);
      var todo := ids;
      while todo != {}
        invariant todo <= ids
        invariant response.Keys == ids - todo
        invariant forall t :: t in response ==> response[t] == Shape(s, t, caller)
        decreases todo
      {
        var t :| t in todo;
        var task := s.tasks[t];
        if task.createdBy == owner && (t, caller) in s.overlays {
          task := task.(status := s.overlays[(t, caller)].status);
        }
        response := response[t := TaskRow(t, task)];
        todo := todo - {t};
      }
    }
    r := Returned(response);
  }

  // ---------------------------------------------------------------- update

  /** The creator's edit: each field given replaces the stored one; the
      task's project and creator never change. */
  function ApplyUpdate(t: Task, patch: TaskUpdate): (r: Task)
    ensures r.project == t.project && r.createdBy == t.createdBy
    ensures patch.title.Some? ==> r.title == patch.title.value
    ensures patch.title.None? ==> r.title == t.title
    ensures patch.description.Some? ==> r.description == patch.description.value
    ensures patch.description.None? ==> r.description == t.description
    ensures patch.status.Some? ==> r.status == patch.status.value
    ensures patch.status.None? ==> r.status == t.status
  {
    Task(t.project, t.createdBy, patch.title.GetOr(t.title), patch.description.GetOr(t.description),
         patch.status.GetOr(t.status))
  }

  /** A creator edits the task itself; a member with a status writes only
      their own overlay row, inserting it or overwriting it; a member
      without a status is refused; a refusal writes nothing. */
  method UpdateTask(db: Database, tid: TaskId, patch: TaskUpdate, caller: UserId) returns (r: Outcome<Option<TaskView>>)
    requires db.Valid()
    modifies db
    ensures db.Valid()
    ensures TaskWithAccess(old(db.Snapshot()), tid, caller).NotFound? ==>
      r == Returned(None) && db.Snapshot() == old(db.Snapshot())
    ensures TaskWithAccess(old(db.Snapshot()), tid, caller).Denied? ==>
      r == Raised(PermissionError(NotAllowedToUpdateTask)) && db.Snapshot() == old(db.Snapshot())
    ensures TaskWithAccess(old(db.Snapshot()), tid, caller).Granted? && old(db.tasks)[tid].createdBy == caller ==>
      && r == Returned(Some(TaskRow(tid, ApplyUpdate(old(db.tasks)[tid], patch))))
      && db.tasks == old(db.tasks)[tid := ApplyUpdate(old(db.tasks)[tid], patch)]
      && db.users == old(db.users) && db.projects == old(db.projects)
      && db.members == old(db.members) && db.overlays == old(db.overlays)
    ensures TaskWithAccess(old(db.Snapshot()), tid, caller).Granted? && old(db.tasks)[tid].createdBy != caller
            && patch.status.Some? ==>
      && r == Returned(Some(TaskRow(tid, old(db.tasks)[tid].(status := patch.status.value))))
      && (tid, caller) in db.overlays
      && db.overlays == old(db.overlays)[(tid, caller) := Overlay(db.overlays[(tid, caller)].id, patch.status.value)]
      && ((tid, caller) in old(db.overlays) ==> db.overlays[(tid, caller)].id == old(db.overlays)[(tid, caller)].id)
      && ((tid, caller) !in old(db.overlays) ==>
            forall key :: key in old(db.overlays) ==> old(db.overlays)[key].id != db.overlays[(tid, caller)].id)
      && db.users == old(db.users) && db.projects == old(db.projects)
      && db.members == old(db.members) && db.tasks == old(db.tasks)
    ensures TaskWithAccess(old(db.Snapshot()), tid, caller).Granted? && old(db.tasks)[tid].createdBy != caller
            && patch.status.None? ==>
      r == Raised(PermissionError(MembersOnlyUpdateStatus)) && db.Snapshot() == old(db.Snapshot())
  {
    var access := TaskWithAccess(db.Snapshot(), tid, caller);
    if access.NotFound? {
      return Returned(None);
    }
    if access.Denied? {
      return Raised(PermissionError(NotAllowedToUpdateTask));
    }
    var task := access.value;
    var project := db.projects[task.project];
    if task.createdBy == caller {
      if patch.title.Some? {
        task := task.(title := patch.title.value);
      }
      if patch.description.Some? {
        task := task.(description := patch.description.value);
      }
      if patch.status.Some? {
        task := task.(status := patch.status.value);
      }
      db.tasks := db.tasks[tid := task];
      r := Returned(Some(TaskRow(tid, task)));
    } else if task.createdBy == project.owner {
      if patch.status.Some? {
        WriteOwnStatus(db, tid, caller, patch.status.value);
        r := Returned(Some(TaskRow(tid, task.(status := patch.status.value))));
      } else {
        r := Raised(PermissionError(MembersOnlyUpdateStatus));
      }
    } else {
      // The evaluator has already refused another user's private task.
      r := Raised(PermissionError(NotAllowedToUpdatePrivateTask));
    }
  }

  /** A member's status write on a common task: the (task, member) overlay
      row is inserted under a fresh id when absent and its status
      overwritten when present; no other row changes. */
  method WriteOwnStatus(db: Database, tid: TaskId, caller: UserId, status: Status)
    requires db.Valid()
    requires tid in db.tasks && db.Snapshot().IsCommon(db.tasks[tid]) && caller != db.tasks[tid].createdBy
    modifies db
    ensures db.Valid()
    ensures (tid, caller) in db.overlays
    ensures db.overlays == old(db.overlays)[(tid, caller) := Overlay(db.overlays[(tid, caller)].id, status)]
    ensures (tid, caller) in old(db.overlays) ==> db.overlays[(tid, caller)].id == old(db.overlays)[(tid, caller)].id
    ensures (tid, caller) !in old(db.overlays) ==>
      forall key :: key in old(db.overlays) ==> old(db.overlays)[key].id != db.overlays[(tid, caller)].id
    ensures db.users == old(db.users) && db.projects == old(db.projects)
    ensures db.members == old(db.members) && db.tasks == old(db.tasks)
  {
    var row;
    if (tid, caller) !in db.overlays {
      var id := db.NewId();
      row := Overlay(id, status);
    } else {
      row := db.overlays[(tid, caller)].(status := status);
    }
    OverlayWriteKeepsInvariant(db.Snapshot(), tid, caller, row);
    db.overlays := db.overlays[(tid, caller) := row];
  }

  /** Writing a non-creator's overlay row on a common task keeps the invariant. */
  lemma OverlayWriteKeepsInvariant(s: Store, tid: TaskId, u: UserId, o: Overlay)
    requires s.Invariant()
    requires tid in s.tasks && s.IsCommon(s.tasks[tid]) && u != s.tasks[tid].createdBy
    ensures s.(overlays := s.overlays[(tid, u) := o]).Invariant()
  {
  }

  // ---------------------------------------------------------------- delete

  /** Only the creator's delete removes the task; a reader who did not
      create it is refused. Overlay rows of the task are left in place. */
  method DeleteTask(db: Database, tid: TaskId, caller: UserId) returns (r: Outcome<bool>)
    requires db.Valid()
    modifies db
    ensures db.Valid()
    ensures TaskWithAccess(old(db.Snapshot()), tid, caller).NotFound? ==> r == Returned(false)
    ensures TaskWithAccess(old(db.Snapshot()), tid, caller).Denied? ==>
      r == Raised(PermissionError(NotAllowedToDeleteTask))
    ensures TaskWithAccess(old(db.Snapshot()), tid, caller).Granted? && old(db.tasks)[tid].createdBy != caller ==>
      r == Raised(PermissionError(OnlyCreatorCanDelete))
    ensures r != Returned(true) ==> db.Snapshot() == old(db.Snapshot())
    ensures r == Returned(true) <==>
      TaskWithAccess(old(db.Snapshot()), tid, caller).Granted? && old(db.tasks)[tid].createdBy == caller
    ensures r == Returned(true) ==>
      && db.tasks == old(db.tasks) - {tid}
      && db.users == old(db.users) && db.projects == old(db.projects)
      && db.members == old(db.members) && db.overlays == old(db.overlays)
      && forall v :: TaskById(db.Snapshot(), tid, v) == Returned(None)
  {
    var access := TaskWithAccess(db.Snapshot(), tid, caller);
    if access.NotFound? {
      return Returned(false);
    }
    if access.Denied? {
      return Raised(PermissionError(NotAllowedToDeleteTask));
    }
    if access.value.createdBy != caller {
      return Raised(PermissionError(OnlyCreatorCanDelete));
    }
    db.tasks := db.tasks - {tid};
    r := Returned(true);
  }

  // ------------------------------------------------- properties across calls

  /** A member's status write is seen by the owner as exactly one more (or
      one overwritten) entry, is seen by that member in place of the stored
      status, leaves the stored task untouched and changes nobody else's view. */
  lemma OverlayWriteIsIndependent(s: Store, tid: TaskId, m: UserId, o: Overlay)
    requires tid in s.tasks && s.IsCommon(s.tasks[tid]) && m != s.tasks[tid].createdBy
    ensures var s' := s.(overlays := s.overlays[(tid, m) := o]);
      && TaskById(s', tid, s.tasks[tid].createdBy)
         == Returned(Some(OwnerTaskRow(tid, s.tasks[tid], MemberStatuses(s, tid)[m := o.status])))
      && (s.IsMember(s.tasks[tid].project, m) ==>
            TaskById(s', tid, m) == Returned(Some(TaskRow(tid, s.tasks[tid].(status := o.status)))))
      && forall v :: v != m && v != s.tasks[tid].createdBy ==> TaskById(s', tid, v) == TaskById(s, tid, v)
  {
    var s' := s.(overlays := s.overlays[(tid, m) := o]);
    MemberStatusesAfterWrite(s, tid, m, o);
    assert TaskWithAccess(s', tid, s.tasks[tid].createdBy).Granted?;
    if s.IsMember(s.tasks[tid].project, m) {
      assert TaskWithAccess(s', tid, m).Granted?;
      assert DisplayedStatus(s', tid, m) == o.status;
    }
    forall v | v != m && v != s.tasks[tid].createdBy
      ensures TaskById(s', tid, v) == TaskById(s, tid, v)
    {
      OverlayWriteLeavesOthers(s, tid, m, o, v);
    }
  }

  /** The view of a third user does not depend on another user's overlay row. */
  lemma OverlayWriteLeavesOthers(s: Store, tid: TaskId, m: UserId, o: Overlay, v: UserId)
    requires tid in s.tasks && s.IsCommon(s.tasks[tid]) && m != s.tasks[tid].createdBy
    requires v != m && v != s.tasks[tid].createdBy
    ensures TaskById(s.(overlays := s.overlays[(tid, m) := o]), tid, v) == TaskById(s, tid, v)
  {
    var s' := s.(overlays := s.overlays[(tid, m) := o]);
    assert TaskWithAccess(s', tid, v) == TaskWithAccess(s, tid, v);
    if TaskWithAccess(s, tid, v).Granted? {
      assert DisplayedStatus(s', tid, v) == DisplayedStatus(s, tid, v);
      assert Shape(s', tid, v) == Shape(s, tid, v);
    }
  }

  /** The owner's member-status list grows by one on a member's first status
      write and keeps its size on every later one. */
  lemma OverlayWriteCount(s: Store, tid: TaskId, m: UserId, o: Overlay)
    ensures |MemberStatuses(s.(overlays := s.overlays[(tid, m) := o]), tid)|
            == |MemberStatuses(s, tid)| + (if (tid, m) in s.overlays then 0 else 1)
  {
    var before := MemberStatuses(s, tid);
    MemberStatusesAfterWrite(s, tid, m, o);
    UpdateCardinality(before, m, o.status);
  }

  lemma MemberStatusesAfterWrite(s: Store, tid: TaskId, m: UserId, o: Overlay)
    ensures MemberStatuses(s.(overlays := s.overlays[(tid, m) := o]), tid) == MemberStatuses(s, tid)[m := o.status]
  {
  }

  /** Applying the same edit twice is applying it once; an empty edit changes nothing. */
  lemma ApplyUpdateIdempotent(t: Task, patch: TaskUpdate)
    ensures ApplyUpdate(ApplyUpdate(t, patch), patch) == ApplyUpdate(t, patch)
    ensures ApplyUpdate(t, TaskUpdate(None, None, None)) == t
  {
  }

  /** A creator's edit never turns a common task private or back. */
  lemma ApplyUpdateKeepsKind(s: Store, tid: TaskId, patch: TaskUpdate)
    requires tid in s.tasks
    ensures s.IsCommon(ApplyUpdate(s.tasks[tid], patch)) == s.IsCommon(s.tasks[tid])
    ensures s.(tasks := s.tasks[tid := ApplyUpdate(s.tasks[tid], patch)]).IsCommon(ApplyUpdate(s.tasks[tid], patch))
            == s.IsCommon(s.tasks[tid])
  {
  }
}
