/** Scenarios from the repository's tests, plus a few further properties of
    the services, checked against the services' contracts alone. Each method
    says where it comes from. */
module Scenarios {
  import opened Schema
  import opened Results
  import opened AccessService
  import opened Db
  import opened ProjectService
  import opened ProjectMemberService
  import opened TaskService

  /** The owner's project with two members added, as the task tests set it up. */
  method TeamProject(manager: UserId, member1: UserId, member2: UserId) returns (db: Database, pid: ProjectId)
    requires manager != member1 && manager != member2 && member1 != member2
    ensures fresh(db) && db.Valid()
    ensures pid in db.projects && db.projects[pid].owner == manager
    ensures db.Snapshot().IsMember(pid, member1) && db.Snapshot().IsMember(pid, member2)
    ensures db.tasks == map[] && db.overlays == map[]
  {
    db := new Database({manager, member1, member2});
    var project;
    pid, project := CreateProject(db, ProjectCreate("Work Project", Some("Team project")), manager);
    var add1 := AddMember(db, pid, member1, manager);
    assert db.Snapshot().IsMember(pid, member1);
    var add2 := AddMember(db, pid, member2, manager);
    assert db.members[add1.value.id] == Membership(pid, member1);
  }

  /** Owner, two members, one task each: the owner lists only the common
      task, each member the common task and their own. From the integration
      test of task visibility. */
  method VisibilityRules(manager: UserId, member1: UserId, member2: UserId)
    requires manager != member1 && manager != member2 && member1 != member2
  {
    var db, pid := TeamProject(manager, member1, member2);
    var c, p1, p2 := OneTaskEach(db, pid, manager, member1, member2);
    Listings(db.Snapshot(), pid, manager, member1, member2, c, p1, p2);
  }

  /** The owner creates a task, then each member creates one. */
  method OneTaskEach(db: Database, pid: ProjectId, manager: UserId, member1: UserId, member2: UserId)
    returns (c: TaskId, p1: TaskId, p2: TaskId)
    requires db.Valid() && db.tasks == map[]
    requires pid in db.projects && db.projects[pid].owner == manager
    requires db.Snapshot().IsMember(pid, member1) && db.Snapshot().IsMember(pid, member2)
    modifies db
    ensures db.projects == old(db.projects) && db.members == old(db.members)
    ensures db.tasks.Keys == {c, p1, p2}
    ensures db.tasks[c].project == pid && db.tasks[p1].project == pid && db.tasks[p2].project == pid
    ensures db.tasks[c].createdBy == manager && db.tasks[p1].createdBy == member1 && db.tasks[p2].createdBy == member2
  {
    assert ProjectWithAccess(db.Snapshot(), pid, manager).Granted?;
    var common := CreateTask(db, TaskCreate(pid, "Common Task", "All members see this", Active), manager);
    c := common.value.value.id;
    assert ProjectWithAccess(db.Snapshot(), pid, member1).Granted?;
    var private1 := CreateTask(db, TaskCreate(pid, "Member1 Private", "Only Member1 and Manager", Active), member1);
    p1 := private1.value.value.id;
    assert ProjectWithAccess(db.Snapshot(), pid, member2).Granted?;
    var private2 := CreateTask(db, TaskCreate(pid, "Member2 Private", "Only Member2", Active), member2);
    p2 := private2.value.value.id;
  }

  /** The three listings of the visibility scenario, on the database it built. */
  method Listings(s: Store, pid: ProjectId, manager: UserId, member1: UserId, member2: UserId, c: TaskId, p1: TaskId, p2: TaskId)
    requires manager != member1 && manager != member2 && member1 != member2
    requires pid in s.projects && s.projects[pid].owner == manager
    requires s.IsMember(pid, member1) && s.IsMember(pid, member2)
    requires s.tasks.Keys == {c, p1, p2}
    requires s.tasks[c].project == pid && s.tasks[p1].project == pid && s.tasks[p2].project == pid
    requires s.tasks[c].createdBy == manager && s.tasks[p1].createdBy == member1 && s.tasks[p2].createdBy == member2
  {
    var managerTasks := ProjectTasks(s, pid, manager);
    assert managerTasks.value.Keys == {c};
    assert |managerTasks.value| == 1;
    MemberListing(s, pid, manager, member1, member2, c, p1, p2);
    MemberListing(s, pid, manager, member2, member1, c, p2, p1);
  }

  /** A member lists the common task and their own private task, not the other member's. */
  method MemberListing(s: Store, pid: ProjectId, manager: UserId, member: UserId, other: UserId,
                       c: TaskId, own: TaskId, theirs: TaskId)
    requires manager != member && manager != other && member != other
    requires pid in s.projects && s.projects[pid].owner == manager
    requires s.IsMember(pid, member)
    requires s.tasks.Keys == {c, own, theirs}
    requires s.tasks[c].project == pid && s.tasks[own].project == pid && s.tasks[theirs].project == pid
    requires s.tasks[c].createdBy == manager && s.tasks[own].createdBy == member && s.tasks[theirs].createdBy == other
  {
    assert ProjectWithAccess(s, pid, member).Granted?;
    var tasks := ProjectTasks(s, pid, member);
    assert tasks.value.Keys == {c, own};
    assert |tasks.value| == 2 && theirs !in tasks.value;
  }

  /** One member's private task is refused to another member by id. From
      the integration test of private-task access. */
  method PrivateTaskRefused(manager: UserId, member1: UserId, member2: UserId)
    requires manager != member1 && manager != member2 && member1 != member2
  {
    var db, pid := TeamProject(manager, member1, member2);
    assert ProjectWithAccess(db.Snapshot(), pid, member1).Granted?;
    var created := CreateTask(db, TaskCreate(pid, "M1 Private", "desc", Active), member1);
    var tid := created.value.value.id;
    var seen := TaskById(db.Snapshot(), tid, member2);
    assert seen == Raised(PermissionError(NotAllowedToAccessTask));
  }

  /** A second member lists nothing while the only task is another member's
      private one, and exactly the common task once the owner adds it. From
      the functional test of private-task isolation. */
  method PrivateIsolation(manager: UserId, member1: UserId, member2: UserId)
    requires manager != member1 && manager != member2 && member1 != member2
  {
    var db, pid := TeamProject(manager, member1, member2);
    assert ProjectWithAccess(db.Snapshot(), pid, member1).Granted?;
    assert ProjectWithAccess(db.Snapshot(), pid, member2).Granted?;
    var secret := CreateTask(db, TaskCreate(pid, "M1 Secret", "top secret", Active), member1);
    var before := ProjectTasks(db.Snapshot(), pid, member2);
    assert db.tasks.Keys == {secret.value.value.id};
    assert before.value == map[];
    var goal := CreateTask(db, TaskCreate(pid, "Team Goal", "desc", Pending), manager);
    var g := goal.value.value.id;
    var after := ProjectTasks(db.Snapshot(), pid, member2);
    assert db.tasks.Keys == {secret.value.value.id, g};
    assert after.value.Keys == {g};
  }

  /** The owner's project with one member and one common task, as the
      status tests set it up. */
  method CommonTaskWithMember(manager: UserId, member1: UserId, title: string, status: Status)
    returns (db: Database, tid: TaskId)
    requires manager != member1
    ensures fresh(db) && db.Valid()
    ensures tid in db.tasks && db.tasks[tid].createdBy == manager
    ensures db.tasks[tid].title == title && db.tasks[tid].status == status
    ensures db.tasks[tid].project in db.projects && db.projects[db.tasks[tid].project].owner == manager
    ensures db.Snapshot().IsMember(db.tasks[tid].project, member1)
    ensures db.overlays == map[]
  {
    db := new Database({manager, member1});
    var pid, _ := CreateProject(db, ProjectCreate("Work Project", Some("Team project")), manager);
    var add := AddMember(db, pid, member1, manager);
    var created := CreateTask(db, TaskCreate(pid, title, "desc", status), manager);
    tid := created.value.value.id;
  }

  /** A member sets COMPLETE on the owner's PENDING task: the owner sees one
      member status, COMPLETE, and the stored task stays PENDING. From the
      integration test of member status tracking. */
  method StatusTracking(manager: UserId, member1: UserId)
    requires manager != member1
  {
    var db, tid := CommonTaskWithMember(manager, member1, "Common Task", Pending);
    var updated := UpdateTask(db, tid, TaskUpdate(None, None, Some(Complete)), member1);
    assert updated.Returned?;
    assert db.overlays == map[(tid, member1) := db.overlays[(tid, member1)]];
    assert db.tasks[tid].status == Pending;

    var seen := TaskById(db.Snapshot(), tid, manager);
    assert seen.value.value.OwnerTaskRow?;
    assert seen.value.value.memberStatuses == map[member1 := Complete];
    assert seen.value.value.task.status == Pending;
  }

  /** A member's title edit on a common task is refused and changes nothing.
      This asserts what the code does; the integration test of the same
      setup expects the unchanged task to be returned instead. */
  method MetadataEditRejected(manager: UserId, member1: UserId)
    requires manager != member1
  {
    var db, tid := CommonTaskWithMember(manager, member1, "Common Task", Pending);
    var updated := UpdateTask(db, tid, TaskUpdate(Some("Revised Title"), None, None), member1);
    assert updated == Raised(PermissionError(MembersOnlyUpdateStatus));
    assert db.tasks[tid].title == "Common Task";
  }

  /** The second add of the same user is answered ALREADY_MEMBER and adds no
      row. No test of the repository does this; it checks the service's
      duplicate guard. */
  method DuplicateAdd(manager: UserId, member1: UserId)
    requires manager != member1
  {
    var db := new Database({manager, member1});
    var pid, _ := CreateProject(db, ProjectCreate("P", None), manager);
    var first := AddMember(db, pid, member1, manager);
    assert first.value.Added?;
    var count := |db.members|;
    var second := AddMember(db, pid, member1, manager);
    assert second == Returned(AlreadyMember);
    assert |db.members| == count;
  }

  /** Two creates by one user on an empty database give that user two
      projects. From the integration test of project listing. */
  method TwoProjects(owner: UserId)
  {
    var db := new Database({owner});
    assert UserProjects(db.Snapshot(), owner) == map[];
    var s0 := db.Snapshot();
    var id1, p1 := CreateProject(db, ProjectCreate("P1", None), owner);
    CreateAddsOneOwnedProject(s0, id1, p1);
    var s1 := db.Snapshot();
    var id2, p2 := CreateProject(db, ProjectCreate("P2", None), owner);
    CreateAddsOneOwnedProject(s1, id2, p2);
    assert |UserProjects(db.Snapshot(), owner)| == 2;
  }
}
