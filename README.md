# Task manager access rules in Dafny

This project models the access-control and task-visibility core of a
FastAPI/SQLAlchemy task-manager backend. Users own projects and add other
users to them as members. Tasks live in projects. A task created by the
project's owner is *common*: every member sees it and keeps their own
status on it in a per-(task, user) status row, the *overlay*. A task
created by anyone else is *private* to its creator. This holds for the
owner too: the owner never sees a member's private task.

The database is five tables: users, projects, project members, tasks and
user task statuses. `Schema.Store` holds them as a value. Tables are maps
keyed by row id. The overlay table is keyed by its unique (task, user)
pair, so one pair can never hold two rows. `Db.Database` is the same five
tables as mutable fields of a class. It also has a counter that hands out
fresh row ids in place of uuid4.

- `AccessService` is the access evaluator. It gives three-way answers
  (`NotFound | Denied | Granted(row)`) for project read access, owner-only
  access and task access. These are pure functions over a `Store`, so they
  write nothing.
- `ProjectAccessService` is the stand-alone copy of the project read rule.
  A lemma proves that it gives the same answer as the evaluator everywhere.
- `ProjectService` creates projects (a method on `Database`). It also
  lists the caller's projects and reads one project by id (functions).
- `ProjectMemberService` adds and removes members (methods on
  `Database`) and lists a project's membership rows (a function).
- `TaskService` creates, updates and deletes tasks (methods on
  `Database`). Reading one task is a function. Listing a project's tasks
  is a method with the source's two loops over a `Store`.
- `Results` holds the return-or-raise outcome of a service call. The
  source's exceptions become `Raised(PermissionError(msg))` and
  `Raised(ValueError(msg))`, with the source's messages as constants.

Every method that writes starts from `Valid()` and keeps it. `Valid()` is
the store invariant plus "every id in use is below the counter". The
invariant says:

- every membership row names an existing project and never its owner;
- there is at most one membership row per (project, user);
- every task belongs to an existing project;
- overlays exist only on common tasks and never for the task's creator.

The `Scenarios` module checks, against the services' contracts alone,
scenarios taken from the repository's tests together with a few further
properties of the services:

- visibility of common and private tasks (integration test
  tests/integration/test_task_service.py:54-98);
- a member refused another member's private task (integration test,
  lines 100-110 of the same file);
- private-task isolation in listings (functional test
  tests/functional/test_tasks_api.py:5-39);
- a member's status tracked separately from the stored task (integration
  test, tests/integration/test_task_service.py:129-146);
- a refused title edit: this asserts what the code does, which
  contradicts the integration test at
  tests/integration/test_task_service.py:113-127 (see below);
- a duplicate add, which comes from no test: it checks the service's
  ALREADY_MEMBER answer;
- two projects for one owner (integration test
  tests/integration/test_project_service.py:40-51).

The model follows the code in these places, where a reader might expect
otherwise:

- Adding the project owner as a member raises a `ValueError`.
- `get_user_projects` returns only the projects the caller owns. Projects
  where the caller is a member are not included.
- `get_project_by_id` is owner-only, so a member of the project is
  refused. The comment at tests/integration/test_project_service.py:64-65
  describes the evaluator's read rule, which would let members in.
- `list_project_members` performs no access check.
- A non-creator's update of a common task that carries no status raises
  "Members can only update the status of common tasks". The integration
  test at tests/integration/test_task_service.py:113-127 expects the call
  to return the unchanged task instead.

## Model

| member | source | states |
|---|---|---|
| AccessService.ProjectWithAccess | app/services/access_service.py:12-39 | Not found exactly when no project has the id. Granted exactly when the user is the owner or has a membership row on it, with the stored project. Denied otherwise. |
| AccessService.ProjectOwnerAccess | app/services/access_service.py:42-57 | Not found exactly when the project is missing. Granted exactly to the owner, with the stored project. A member who is not the owner is denied. |
| AccessService.TaskWithAccess | app/services/access_service.py:60-93 | Not found when the task or its project is missing. Granted exactly to the creator, or to a member on a common task, with the stored task. Denied otherwise. |
| AccessService.OwnerAccessImpliesProjectAccess | app/services/access_service.py:24-57 | Whenever owner-only access is granted, project read access is granted with the same project. |
| AccessService.PrivateTaskDeniedToOthers | app/services/access_service.py:77-93 | A private task is denied to everyone but its creator, the project owner included. |
| AccessService.MemberSeesCommonTask | app/services/access_service.py:81-91 | A membership row on a common task's project grants that task. |
| ProjectAccessService.CheckProjectAccess | app/services/project_access_service.py:7-38 | Not found exactly when the project is missing. The owner and any member are granted the project. Denied exactly when the project exists and the user is neither. |
| ProjectAccessService.SameAsProjectWithAccess | app/services/project_access_service.py:7-38 | The stand-alone check and the evaluator's project rule (access_service.py lines 12-39) give the same three-way answer for every store, project and user. |
| ProjectService.CreateProject | app/services/project_service.py:7-22 | Exactly one project is added under a fresh id. It is owned by the caller and has the given name and description. No other table changes. The owner can then read it by id. |
| ProjectService.UserProjects | app/services/project_service.py:25-33 | A project is listed exactly when the caller owns it (owner-only access granted), with its stored row. Projects where the caller is only a member are not listed. |
| ProjectService.ProjectById | app/services/project_service.py:36-53 | No result exactly when the project is missing. Raises "Not allowed to access this project" exactly for a caller who is not the owner. Returns the stored project to the owner. |
| ProjectService.CreateAddsOneOwnedProject | tests/integration/test_project_service.py:41-51 | A creation adds exactly the new project to its owner's list, so the list grows by one. Every other user's list is unchanged. |
| ProjectService.CreateLeavesOthersProjects | app/services/project_service.py:25-33 | A new project never appears in the list of a user who does not own it. |
| ProjectService.MemberCannotGetProject | app/services/project_service.py:50-51 | A member who does not own the project passes the evaluator's read check but is refused by `get_project_by_id`. |
| ProjectMemberService.AddMember | app/services/project_member_service.py:9-57 | The checks run in order: missing project returns None; a non-owner caller gets "Only owner can add members"; adding the owner raises a ValueError; an unknown user returns USER_NOT_FOUND; an existing row returns ALREADY_MEMBER. None of these writes anything. Otherwise exactly one row (project, user) is inserted under a fresh id, the user gains read access, and the invariant holds. |
| ProjectMemberService.RemoveMember | app/services/project_member_service.py:72-102 | Missing project returns None. A non-owner caller gets "Only owner can remove members". The owner gets whether a row existed. When one did, exactly that row is deleted and the user loses read access. Otherwise nothing changes. |
| ProjectMemberService.ListProjectMembers | app/services/project_member_service.py:60-69 | Exactly the membership rows whose project matches, unchanged, with no access check. |
| ProjectMemberService.ListedRowsAreRoster | app/services/project_member_service.py:60-69 | Under the invariant the list has one row per user. A user is listed exactly when the evaluator grants them the project and they are not its owner. |
| ProjectMemberService.InsertKeepsInvariant | app/services/project_member_service.py:24-57 | Inserting a row for an existing project, for a non-owner who is not yet a member, keeps every invariant. This covers the owner never being a member and memberships being unique per pair. |
| ProjectMemberService.InsertGrantsAccess | app/services/project_member_service.py:46-57 | After the insert the evaluator grants the new member read access. |
| ProjectMemberService.RemoveRevokesAccess | app/services/project_member_service.py:96-102 | Deleting a membership row keeps the invariant. Under the invariant it leaves that user no row on the project, so the evaluator denies them. |
| TaskService.CreateTask | app/services/task_service.py:17-39 | A missing project returns None and a refused caller gets "Not allowed to create task in this project". Neither writes anything. Otherwise exactly one task is added under a fresh id, in the given project, created by the caller, with the given fields. |
| TaskService.MemberStatuses | app/services/task_service.py:54-71 | One entry per overlay row of the task, keyed by the member, with that row's status, and no other entries. |
| TaskService.Shape | app/services/task_service.py:51-83 | The owner on their own task gets the stored task plus every member's status. Anyone else on a common task sees their own overlay status, or the stored status when they have none. A private task is shown as stored. |
| TaskService.TaskById | app/services/task_service.py:42-83 | None exactly when the evaluator finds nothing. "Not allowed to access this task" exactly when it denies. Otherwise the task shaped for the reader. |
| TaskService.ProjectTasks | app/services/task_service.py:86-146 | A missing project gives the empty list; a refused caller gets "Not allowed to view tasks in this project". The owner's list is exactly the project's tasks the owner created. A member's list is exactly the project's tasks created by the owner or by that member. Either list is exactly the project's tasks the evaluator grants, each shown as a read by id shows it. |
| TaskService.ApplyUpdate | app/services/task_service.py:167-174 | Each field given in the edit replaces the stored one. Fields left out keep their value. Project and creator never change. |
| TaskService.UpdateTask | app/services/task_service.py:149-210 | The evaluator's none/denied answers write nothing. The creator's edit rewrites only that task and touches no overlay. A member's status edit on a common task writes only their own overlay row: it inserts one under a fresh id or overwrites the existing row's status and keeps its id. The task is returned with that status and the stored task is untouched. A member's edit without a status raises "Members can only update the status of common tasks" and writes nothing. The invariant holds throughout. |
| TaskService.WriteOwnStatus | app/services/task_service.py:184-201 | The (task, member) overlay row ends up holding the new status. It is inserted under an id no other overlay row uses when absent. When present it is overwritten in place and keeps its id. No other row of any table changes, and the invariant holds. |
| TaskService.OverlayWriteKeepsInvariant | app/services/task_service.py:182-201 | Writing the overlay row of a non-creator on a common task keeps every invariant, including overlays only on common tasks and never for the creator. |
| TaskService.DeleteTask | app/services/task_service.py:213-229 | A missing task returns false. An unreadable task raises "Not allowed to delete this task". A reader who is not the creator gets "Only the creator of a task can delete it". Only the creator's delete removes the task, returns true, and leaves the task unreadable by anyone. |
| TaskService.OverlayWriteIsIndependent | app/services/task_service.py:182-204 | After a member's status write, the owner sees that member's entry set to the new status and the stored task unchanged. The member sees the new status. Every other user's view is unchanged. |
| TaskService.OverlayWriteLeavesOthers | app/services/task_service.py:74-83 | One member's overlay write leaves the view of every user other than that member and the creator exactly as it was. |
| TaskService.MemberStatusesAfterWrite | app/services/task_service.py:54-71 | After a write of a member's overlay row, the owner's member-status list is the old list with that member's entry set to the new status. |
| TaskService.OverlayWriteCount | tests/integration/test_task_service.py:130-146 | A member's first status write adds one entry to the owner's member-status list. Later writes keep its size. |
| TaskService.ApplyUpdateIdempotent | app/services/task_service.py:167-174 | Applying the same edit twice equals applying it once. An empty edit changes nothing. |
| TaskService.ApplyUpdateKeepsKind | app/services/task_service.py:167-179 | A creator's edit never turns a common task private or a private task common. |
| Db.Database.NewId | app/services/task_service.py:26-27 | The id handed out is used by no project, membership, task or overlay row, and the invariant is kept. |
| Scenarios.TeamProject | tests/integration/test_task_service.py:43-52 | The owner creates a project and adds two members, leaving a valid database where both are members and there are no tasks or overlay rows. |
| Scenarios.CommonTaskWithMember | tests/integration/test_task_service.py:130-134 | The owner's project with one member and one common task with the given title and status, and no overlay rows. |
| Scenarios.OneTaskEach | tests/integration/test_task_service.py:56-69 | The owner and two members each create one task, leaving exactly three tasks in the project with the expected creators. |

## Left out

- Registration, login, password hashing and JWT tokens are not modelled; the set of registered users is given to the `Database` constructor.
- HTTP routing, request validation and the endpoint layer are not modelled; each service call is one atomic method or function on the store.
- Sessions, commits, refreshes, eager loading and async/await are not modelled. This includes the services calling the asynchronous evaluator without awaiting it: the model uses the evaluator's answer as the services' code reads it.
- Row ids are naturals from a counter instead of uuid4 strings.
- Timestamps (`created_at`, `updated_at`, `joined_at`) are not modelled, because they come from the clock.
- User e-mail and full names, including the full name joined into each member status entry, are not modelled.
- A query that finds two rows where it expects at most one is not modelled. The invariant proves that such duplicates cannot arise through these services.
- Two concurrent first status writes by one member racing on the unique (task, user) constraint are not modelled, because they need concurrency.
- Project update and delete, and listing the projects a user is a member of, are not modelled; the service code has no such operations.
- Overlay rows of a deleted task are not modelled as removed. Their foreign key declares a cascade, but the SQLite engine does not enforce foreign keys by default, and the task model has no relationship that would delete them.
- TaskService.ProjectTasks, ProjectService.UserProjects, ProjectMemberService.ListProjectMembers and TaskService.MemberStatuses return maps keyed by id, not ordered lists, because their queries have no ORDER BY.
- TaskService.Shape, TaskService.ProjectTasks and TaskService.UpdateTask: the status shown to a member on a common task is part of the returned value only. The source assigns it to the loaded task row (app/services/task_service.py lines 81, 141 and 203) without committing afterwards. The model assumes each service call has its own session, so that assignment is never written back. Where one session serves several calls, as in the test fixtures at tests/conftest.py:41-72, a later commit in that session would persist it; the model does not capture that.
