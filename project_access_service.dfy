/** The stand-alone project access check, an older copy of the evaluator's
    project read rule. */
module ProjectAccessService {
  import opened Schema
  import opened AccessService

  /** Not found when no project has the id; granted to the owner, then to
      any user with a membership row; denied otherwise. */
  function CheckProjectAccess(s: Store, pid: ProjectId, u: UserId): (r: Access<Project>)
    ensures r.NotFound? <==> pid !in s.projects
    ensures pid in s.projects && s.projects[pid].owner == u ==> r == Granted(s.projects[pid])
    ensures pid in s.projects && s.IsMember(pid, u) ==> r == Granted(s.projects[pid])
    ensures r.Denied? <==> pid in s.projects && s.projects[pid].owner != u && !s.IsMember(pid, u)
  {
    if pid !in s.projects then NotFound
    else
      var project := s.projects[pid];
      if project.owner == u then Granted(project)
      else if s.IsMember(pid, u) then Granted(project)
      else Denied
  }

  /** The copy and the evaluator give the same three-way answer everywhere. */
  lemma SameAsProjectWithAccess(s: Store, pid: ProjectId, u: UserId)
    ensures CheckProjectAccess(s, pid, u) == ProjectWithAccess(s, pid, u)
  {
  }
}
