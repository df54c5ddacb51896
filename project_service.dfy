/** Creating projects and reading them back. */
module ProjectService {
  import opened Schema
  import opened Results
  import opened AccessService
  import opened Db

  const NotAllowedToAccessProject: string := "Not allowed to access this project"

  /** The fields a caller supplies to create a project. */
  datatype ProjectCreate = ProjectCreate(name: string, description: Option<string>)

  /** Inserts one project owned by the caller; nothing else changes. */
  method CreateProject(db: Database, input: ProjectCreate, caller: UserId) returns (id: ProjectId, project: Project)
    requires db.Valid()
    modifies db
    ensures db.Valid()
    ensures project == Project(input.name, input.description, caller)
    ensures id !in old(db.projects) && db.projects == old(db.projects)[id := project]
    ensures db.users == old(db.users) && db.members == old(db.members)
    ensures db.tasks == old(db.tasks) && db.overlays == old(db.overlays)
    ensures ProjectById(db.Snapshot(), id, caller) == Returned(Some(project))
  {
    id := db.NewId();
    project := Project(input.name, input.description, caller);
    db.projects := db.projects[id := project];
  }

  /** The projects the caller owns, keyed by id; projects where the caller
      is only a member are not among them. */
  function UserProjects(s: Store, u: UserId): (r: map<ProjectId, Project>)
    ensures forall pid :: pid in r <==> ProjectOwnerAccess(s, pid, u).Granted?
    ensures forall pid :: pid in r ==> pid in s.projects && r[pid] == s.projects[pid]
  {
    map pid | pid in s.projects && s.projects[pid].owner == u :: s.projects[pid]
  }

  /** Missing project: no result; not the owner, members included: the
      permission error; the owner: the project as stored. */
  function ProjectById(s: Store, pid: ProjectId, u: UserId): (r: Outcome<Option<Project>>)
    ensures r == Returned(None) <==> ProjectOwnerAccess(s, pid, u).NotFound?
    ensures r == Raised(PermissionError(NotAllowedToAccessProject)) <==> ProjectOwnerAccess(s, pid, u).Denied?
    ensures ProjectOwnerAccess(s, pid, u).Granted? ==> r == Returned(Some(ProjectOwnerAccess(s, pid, u).value))
  {
    if pid !in s.projects then Returned(None)
    else if s.projects[pid].owner != u then Raised(PermissionError(NotAllowedToAccessProject))
    else Returned(Some(s.projects[pid]))
  }

  /** A creation adds exactly one entry to its caller's project list and
      leaves every other user's list as it was. */
  lemma CreateAddsOneOwnedProject(s: Store, id: ProjectId, p: Project)
    requires id !in s.projects
    ensures UserProjects(s.(projects := s.projects[id := p]), p.owner) == UserProjects(s, p.owner)[id := p]
    ensures |UserProjects(s.(projects := s.projects[id := p]), p.owner)| == |UserProjects(s, p.owner)| + 1
    ensures forall v :: v != p.owner ==> UserProjects(s.(projects := s.projects[id := p]), v) == UserProjects(s, v)
  {
    var s' := s.(projects := s.projects[id := p]);
    var before := UserProjects(s, p.owner);
    assert UserProjects(s', p.owner) == before[id := p];
    UpdateCardinality(before, id, p);
    forall v | v != p.owner
      ensures UserProjects(s', v) == UserProjects(s, v)
    {
      CreateLeavesOthersProjects(s, id, p, v);
    }
  }

  /** Another user's list does not see the new project. */
  lemma CreateLeavesOthersProjects(s: Store, id: ProjectId, p: Project, v: UserId)
    requires id !in s.projects && v != p.owner
    ensures UserProjects(s.(projects := s.projects[id := p]), v) == UserProjects(s, v)
  {
    assert UserProjects(s.(projects := s.projects[id := p]), v).Keys == UserProjects(s, v).Keys;
  }

  /** A member who does not own the project is refused it. */
  lemma MemberCannotGetProject(s: Store, pid: ProjectId, u: UserId)
    requires pid in s.projects && s.IsMember(pid, u) && s.projects[pid].owner != u
    ensures ProjectWithAccess(s, pid, u).Granted?
    ensures ProjectById(s, pid, u) == Raised(PermissionError(NotAllowedToAccessProject))
  {
  }
}
