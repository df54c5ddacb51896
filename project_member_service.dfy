/** Adding, removing and listing the members of a project. */
module ProjectMemberService {
  import opened Schema
  import opened Results
  import opened AccessService
  import opened Db

  const OnlyOwnerCanAdd: string := "Only owner can add members"
  const OnlyOwnerCanRemove: string := "Only owner can remove members"
  const OwnerAlreadyPart: string := "Owner is already part of the project"

  /** The values an add returns rather than raises. */
  datatype AddReply = ProjectMissing | UserNotFound | AlreadyMember | Added(id: MemberId, membership: Membership)

  /** Every check runs before the one write; each refusal leaves the database as it was. */
  method AddMember(db: Database, pid: ProjectId, uid: UserId, caller: UserId) returns (r: Outcome<AddReply>)
    requires db.Valid()
    modifies db
    ensures db.Valid()
    ensures pid !in old(db.projects) ==> r == Returned(ProjectMissing)
    ensures pid in old(db.projects) && old(db.projects)[pid].owner != caller ==>
      r == Raised(PermissionError(OnlyOwnerCanAdd))
    ensures pid in old(db.projects) && old(db.projects)[pid].owner == caller && uid == caller ==>
      r == Raised(ValueError(OwnerAlreadyPart))
    ensures pid in old(db.projects) && old(db.projects)[pid].owner == caller && uid != caller && uid !in old(db.users) ==>
      r == Returned(UserNotFound)
    ensures (pid in old(db.projects) && old(db.projects)[pid].owner == caller && uid != caller && uid in old(db.users)
             && old(db.Snapshot()).IsMember(pid, uid)) ==>
      r == Returned(AlreadyMember)
    ensures (pid in old(db.projects) && old(db.projects)[pid].owner == caller && uid != caller && uid in old(db.users)
             && !old(db.Snapshot()).IsMember(pid, uid)) ==>
      r.Returned? && r.value.Added?
    ensures r.Returned? && r.value.Added? ==>
      && r.value.membership == Membership(pid, uid)
      && r.value.id !in old(db.members)
      && db.members == old(db.members)[r.value.id := r.value.membership]
      && db.users == old(db.users) && db.projects == old(db.projects)
      && db.tasks == old(db.tasks) && db.overlays == old(db.overlays)
      && ProjectWithAccess(db.Snapshot(), pid, uid) == Granted(db.projects[pid])
    ensures !(r.Returned? && r.value.Added?) ==> db.Snapshot() == old(db.Snapshot())
  {
    if pid !in db.projects {
      return Returned(ProjectMissing);
    }
    var project := db.projects[pid];
    if project.owner != caller {
      return Raised(PermissionError(OnlyOwnerCanAdd));
    }
    if uid == project.owner {
      return Raised(ValueError(OwnerAlreadyPart));
    }
    if uid !in db.users {
      return Returned(UserNotFound);
    }
    if Membership(pid, uid) in db.members.Values {
      return Returned(AlreadyMember);
    }
    var id := db.NewId();
    var membership := Membership(pid, uid);
    InsertKeepsInvariant(db.Snapshot(), id, membership);
    db.members := db.members[id := membership];
    InsertGrantsAccess(old(db.Snapshot()), id, membership);
    r := Returned(Added(id, membership));
  }

  /** A missing row answers false; otherwise exactly that row goes, and with
      it the user's read access to the project. */
  method RemoveMember(db: Database, pid: ProjectId, uid: UserId, caller: UserId) returns (r: Outcome<Option<bool>>)
    requires db.Valid()
    modifies db
    ensures db.Valid()
    ensures pid !in old(db.projects) ==> r == Returned(None)
    ensures pid in old(db.projects) && old(db.projects)[pid].owner != caller ==>
      r == Raised(PermissionError(OnlyOwnerCanRemove))
    ensures pid in old(db.projects) && old(db.projects)[pid].owner == caller ==>
      r == Returned(Some(old(db.Snapshot()).IsMember(pid, uid)))
    ensures r == Returned(Some(true)) ==>
      && (exists k :: k in old(db.members) && old(db.members)[k] == Membership(pid, uid) && db.members == old(db.members) - {k})
      && db.users == old(db.users) && db.projects == old(db.projects)
      && db.tasks == old(db.tasks) && db.overlays == old(db.overlays)
      && ProjectWithAccess(db.Snapshot(), pid, uid) == Denied
    ensures r != Returned(Some(true)) ==> db.Snapshot() == old(db.Snapshot())
  {
    if pid !in db.projects {
      return Returned(None);
    }
    var project := db.projects[pid];
    if project.owner != caller {
      return Raised(PermissionError(OnlyOwnerCanRemove));
    }
    if Membership(pid, uid) !in db.members.Values {
      return Returned(Some(false));
    }
    var k :| k in db.members && db.members[k] == Membership(pid, uid);
    RemoveRevokesAccess(db.Snapshot(), k);
    db.members := db.members - {k};
    r := Returned(Some(true));
  }

  /** Every membership row of the project, with no access check. */
  function ListProjectMembers(s: Store, pid: ProjectId): (r: map<MemberId, Membership>)
    ensures forall k :: k in r <==> k in s.members && s.members[k].project == pid
    ensures forall k :: k in r ==> r[k] == s.members[k]
  {
    map k | k in s.members && s.members[k].project == pid :: s.members[k]
  }

  /** Under the invariant the listed rows are the project's roster: one row
      per member, never the owner, and exactly the users the evaluator lets
      in besides the owner. */
  lemma ListedRowsAreRoster(s: Store, pid: ProjectId, u: UserId)
    requires s.Invariant()
    ensures forall k, k' ::
      (k in ListProjectMembers(s, pid) && k' in ListProjectMembers(s, pid)
       && ListProjectMembers(s, pid)[k].user == ListProjectMembers(s, pid)[k'].user) ==> k == k'
    ensures (exists k :: k in ListProjectMembers(s, pid) && ListProjectMembers(s, pid)[k].user == u)
      <==> (ProjectWithAccess(s, pid, u).Granted? && s.projects[pid].owner != u)
  {
    var r := ListProjectMembers(s, pid);
    if ProjectWithAccess(s, pid, u).Granted? && s.projects[pid].owner != u {
      var k :| k in s.members && s.members[k] == Membership(pid, u);
      assert k in r && r[k].user == u;
    }
  }

  /** Inserting a row for a non-owner that is not yet a member keeps the invariant. */
  lemma InsertKeepsInvariant(s: Store, id: MemberId, m: Membership)
    requires s.Invariant()
    requires id !in s.members
    requires m.project in s.projects && m.user != s.projects[m.project].owner
    requires !s.IsMember(m.project, m.user)
    ensures s.(members := s.members[id := m]).Invariant()
  {
  }

  /** The inserted row is what the evaluator finds for that user. */
  lemma InsertGrantsAccess(s: Store, id: MemberId, m: Membership)
    requires m.project in s.projects
    ensures ProjectWithAccess(s.(members := s.members[id := m]), m.project, m.user).Granted?
  {
    assert s.members[id := m][id] == m;
  }

  /** Under the invariant, deleting a membership row leaves that user no
      row on the project, so the evaluator denies them, and the invariant
      still holds. */
  lemma RemoveRevokesAccess(s: Store, k: MemberId)
    requires s.Invariant()
    requires k in s.members
    ensures s.(members := s.members - {k}).Invariant()
    ensures !s.(members := s.members - {k}).IsMember(s.members[k].project, s.members[k].user)
    ensures ProjectWithAccess(s.(members := s.members - {k}), s.members[k].project, s.members[k].user) == Denied
  {
  }
}
