/** The access evaluator: three read-only decisions, each answering
    "not found", "denied" or "granted, here is the row". */
module AccessService {
  import opened Schema

  datatype Access<T> = NotFound | Denied | Granted(value: T)

  /** Project read access: the owner, or any user with a membership row. */
  function ProjectWithAccess(s: Store, pid: ProjectId, u: UserId): (r: Access<Project>)
    ensures r.NotFound? <==> pid !in s.projects
    ensures r.Granted? <==> pid in s.projects && (s.projects[pid].owner == u || s.IsMember(pid, u))
    ensures r.Granted? ==> r.value == s.projects[pid]
  {
    if pid !in s.projects then NotFound
    else if s.projects[pid].owner == u then Granted(s.projects[pid])
    else if s.IsMember(pid, u) then Granted(s.projects[pid])
    else Denied
  }

  /** Owner-only access: a member who is not the owner is denied. */
  function ProjectOwnerAccess(s: Store, pid: ProjectId, u: UserId): (r: Access<Project>)
    ensures r.NotFound? <==> pid !in s.projects
    ensures r.Granted? <==> pid in s.projects && s.projects[pid].owner == u
    ensures r.Granted? ==> r.value == s.projects[pid]
  {
    if pid !in s.projects then NotFound
    else if s.projects[pid].owner == u then Granted(s.projects[pid])
    else Denied
  }

  /** Task access: the creator always; anyone else only on a common task
      and only with a membership row on its project. */
  function TaskWithAccess(s: Store, tid: TaskId, u: UserId): (r: Access<Task>)
    ensures r.NotFound? <==> tid !in s.tasks || s.tasks[tid].project !in s.projects
    ensures r.Granted? <==>
      && tid in s.tasks && s.tasks[tid].project in s.projects
      && (s.tasks[tid].createdBy == u || (s.IsCommon(s.tasks[tid]) && s.IsMember(s.tasks[tid].project, u)))
    ensures r.Granted? ==> r.value == s.tasks[tid]
  {
    if tid !in s.tasks then NotFound
    else
      var task := s.tasks[tid];
      if task.project !in s.projects then NotFound
      else
        var project := s.projects[task.project];
        if task.createdBy == u then Granted(task)
        else if task.createdBy == project.owner && s.IsMember(task.project, u) then Granted(task)
        else Denied
  }

  /** Whoever passes the owner-only check also passes the read check. */
  lemma OwnerAccessImpliesProjectAccess(s: Store, pid: ProjectId, u: UserId)
    requires ProjectOwnerAccess(s, pid, u).Granted?
    ensures ProjectWithAccess(s, pid, u) == ProjectOwnerAccess(s, pid, u)
  {
  }

  /** A private task is denied to everyone but its creator, the project
      owner included, whatever the membership rows say. */
  lemma PrivateTaskDeniedToOthers(s: Store, tid: TaskId, u: UserId)
    requires tid in s.tasks && s.IsPrivate(s.tasks[tid])
    requires u != s.tasks[tid].createdBy
    ensures TaskWithAccess(s, tid, u) == Denied
  {
  }

  /** A membership row on a common task's project grants that task. */
  lemma MemberSeesCommonTask(s: Store, tid: TaskId, u: UserId)
    requires tid in s.tasks && s.IsCommon(s.tasks[tid])
    requires s.IsMember(s.tasks[tid].project, u)
    ensures TaskWithAccess(s, tid, u) == Granted(s.tasks[tid])
  {
  }
}
