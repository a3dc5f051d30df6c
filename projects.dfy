/**
  The project handlers. Every lookup goes through the ownership guard, which
  answers the same 404 for a project that does not exist and for one that
  belongs to someone else.
 */
module Projects {
  import opened Wrappers
  import opened Http
  import opened Models
  import opened Store
  import opened Dependencies
  import opened Schemas

  const ProjectNotFound := HttpError(NotFound, "Project not found")

  /** The ownership guard: the project with that id if the user owns it, else a 404. */
  function GetProjectOr404(projects: map<int, Project>, projectId: int, userId: int): (r: Result<Project>)
    ensures r.Ok? <==> projectId in projects && projects[projectId].ownerId == userId
    ensures r.Ok? ==> r.value == projects[projectId] && r.value.ownerId == userId
    ensures r.Err? ==> r.error == ProjectNotFound
  {
    if projectId in projects && projects[projectId].ownerId == userId then Ok(projects[projectId])
    else Err(ProjectNotFound)
  }

  /**
    A project owned by someone else gets exactly the answer it would get if
    it did not exist: the guard leaks nothing about other users' projects.
   */
  lemma ForeignProjectLooksMissing(projects: map<int, Project>, projectId: int, userId: int)
    requires projectId in projects && projects[projectId].ownerId != userId
    ensures GetProjectOr404(projects, projectId, userId) == GetProjectOr404(projects - {projectId}, projectId, userId)
  {
  }

  /** The current user's projects, keyed by id. */
  function ListProjects(projects: map<int, Project>, currentUser: User): (r: map<int, Project>)
    ensures forall k :: k in r <==> k in projects && projects[k].ownerId == currentUser.id
    ensures forall k :: k in r ==> r[k] == projects[k]
  {
    map k | k in projects && projects[k].ownerId == currentUser.id :: projects[k]
  }

  /** Listing and the guard agree: a project is listed exactly when the guard lets it through. */
  lemma ListedIffGettable(projects: map<int, Project>, currentUser: User, projectId: int)
    ensures projectId in ListProjects(projects, currentUser) <==>
      GetProjectOr404(projects, projectId, currentUser.id).Ok?
    ensures projectId in ListProjects(projects, currentUser) ==>
      GetProjectOr404(projects, projectId, currentUser.id).value == ListProjects(projects, currentUser)[projectId]
  {
  }

  /** `GET /projects/{id}`: the owned project together with exactly its tasks. */
  function GetProject(projects: map<int, Project>, tasks: map<int, Task>, currentUser: User, projectId: int)
    : (r: Result<ProjectWithTasks>)
    ensures r.Err? <==> GetProjectOr404(projects, projectId, currentUser.id).Err?
    ensures r.Err? ==> r.error == ProjectNotFound
    ensures r.Ok? ==> r.value.project == projects[projectId] && r.value.project.ownerId == currentUser.id
    ensures r.Ok? ==> forall k :: k in r.value.tasks <==> k in tasks && tasks[k].projectId == projectId
    ensures r.Ok? ==> forall k :: k in r.value.tasks ==> r.value.tasks[k] == tasks[k]
  {
    match GetProjectOr404(projects, projectId, currentUser.id)
    case Err(e) => Err(e)
    case Ok(project) => Ok(ProjectWithTasks(project, TasksOf(tasks, projectId)))
  }

  /**
    User isolation end to end: whoever a bearer token resolves to, a project
    owned by another user is a 404 for them, never the project.
   */
  lemma OtherUsersProjectIsNotFound(
    users: map<int, User>, projects: map<int, Project>, tasks: map<int, Task>, t: Jwt, now: int, projectId: int)
    requires ValidUsers(users)
    requires GetCurrentUser(users, t, now).Ok?
    requires projectId in projects && projects[projectId].ownerId != GetCurrentUser(users, t, now).value.id
    ensures GetProject(projects, tasks, GetCurrentUser(users, t, now).value, projectId) == Err(ProjectNotFound)
  {
  }

  /**
    `POST /projects`: one new project, owned by the current user whatever
    the payload says; nothing else changes.
   */
  method CreateProject(db: Database, currentUser: User, payload: ProjectCreate) returns (project: Project)
    requires db.Valid() && currentUser.id in db.users
    modifies db
    ensures db.Valid()
    ensures project == Project(old(db.nextProjectId), payload.title, payload.description, currentUser.id)
    ensures project.id !in old(db.projects)
    ensures db.projects == old(db.projects)[project.id := project]
    ensures ListProjects(db.projects, currentUser) == ListProjects(old(db.projects), currentUser)[project.id := project]
    ensures db.users == old(db.users) && db.tasks == old(db.tasks)
  {
    project := Project(db.nextProjectId, payload.title, payload.description, currentUser.id);
    db.projects := db.projects[project.id := project];
    db.nextProjectId := db.nextProjectId + 1;
  }

  /** A project row as the session holds it while `setattr` runs: the title may be null. */
  datatype ProjectRow = ProjectRow(id: int, title: Option<string>, description: Option<string>, ownerId: int)

  function LoadedProject(p: Project): ProjectRow
  {
    ProjectRow(p.id, Some(p.title), p.description, p.ownerId)
  }

  /** `setattr(project, field, value)` for one field of the payload. */
  function SetProjectField(row: ProjectRow, f: ProjectField): ProjectRow
  {
    match f
    case ProjectTitleSet(v) => row.(title := v)
    case ProjectDescriptionSet(v) => row.(description := v)
  }

  /** The `setattr` loop over the payload's fields, in order. */
  function ApplyProjectFields(row: ProjectRow, fields: seq<ProjectField>): ProjectRow
  {
    if fields == [] then row
    else SetProjectField(ApplyProjectFields(row, fields[..|fields| - 1]), fields[|fields| - 1])
  }

  lemma {:induction false} ApplyProjectFieldsAppend(row: ProjectRow, a: seq<ProjectField>, b: seq<ProjectField>)
    ensures ApplyProjectFields(row, a + b) == ApplyProjectFields(ApplyProjectFields(row, a), b)
  {
    if b == [] {
      assert a + b == a;
    } else {
      ApplyProjectFieldsAppend(row, a, b[..|b| - 1]);
      assert (a + b)[..|a + b| - 1] == a + b[..|b| - 1];
    }
  }

  /** No sequence of update fields reaches the id or the owner. */
  lemma {:induction false} ApplyProjectFieldsKeepsOwner(row: ProjectRow, fields: seq<ProjectField>)
    ensures ApplyProjectFields(row, fields).id == row.id
    ensures ApplyProjectFields(row, fields).ownerId == row.ownerId
  {
    if fields != [] {
      ApplyProjectFieldsKeepsOwner(row, fields[..|fields| - 1]);
    }
  }

  /** The commit: refused when the NOT NULL title column holds null. */
  function FlushProject(row: ProjectRow): (r: Option<Project>)
    ensures r.Some? <==> row.title.Some?
    ensures r.Some? ==> LoadedProject(r.value) == row
  {
    if row.title.None? then None
    else Some(Project(row.id, row.title.value, row.description, row.ownerId))
  }

  /** An update that would null the title, which the database refuses. */
  predicate NullsProjectTitle(u: ProjectUpdate)
  {
    u.title == Present(None)
  }

  /**
    What a partial update means, field by field: a field the request gave
    takes the given value, every other field keeps its value.
   */
  function PatchProject(p: Project, u: ProjectUpdate): Project
    requires !NullsProjectTitle(u)
  {
    Project(
      p.id,
      if u.title.Present? then u.title.value.value else p.title,
      if u.description.Present? then u.description.value else p.description,
      p.ownerId)
  }

  /**
    The `setattr` loop followed by the commit is the field-by-field patch,
    or a refused commit exactly when the request nulls the title.
   */
  lemma ProjectUpdateLoopIsPatch(p: Project, u: ProjectUpdate)
    ensures FlushProject(ApplyProjectFields(LoadedProject(p), ProjectUpdateData(u))) ==
      if NullsProjectTitle(u) then None else Some(PatchProject(p, u))
  {
    var t: seq<ProjectField> := if u.title.Present? then [ProjectTitleSet(u.title.value)] else [];
    var d: seq<ProjectField> := if u.description.Present? then [ProjectDescriptionSet(u.description.value)] else [];
    assert ProjectUpdateData(u) == t + d;
    ApplyProjectFieldsAppend(LoadedProject(p), t, d);
    if t != [] {
      assert t[..0] == [];
    }
    if d != [] {
      assert d[..0] == [];
    }
  }

  /** The `setattr` loop of `update_project`, run over the dumped payload. */
  method SetProjectAttributes(project: ProjectRow, fields: seq<ProjectField>) returns (row: ProjectRow)
    ensures row == ApplyProjectFields(project, fields)
  {
    row := project;
    for i := 0 to |fields|
      invariant row == ApplyProjectFields(project, fields[..i])
    {
      assert fields[..i + 1][..i] == fields[..i];
      row := SetProjectField(row, fields[i]);
    }
    assert fields[..|fields|] == fields;
  }

  /**
    `PUT /projects/{id}`: for a project the user does not own, a 404 and no
    change. Otherwise the fields given are set one by one; if that nulls the
    title the commit fails and nothing changes, else the project becomes its
    patch and no other row changes.
   */
  method UpdateProject(db: Database, currentUser: User, projectId: int, payload: ProjectUpdate)
    returns (r: Result<Project>)
    requires db.Valid()
    modifies db
    ensures db.Valid()
    ensures GetProjectOr404(old(db.projects), projectId, currentUser.id).Err? ==> r == Err(ProjectNotFound)
    ensures (GetProjectOr404(old(db.projects), projectId, currentUser.id).Ok? && NullsProjectTitle(payload)) ==>
      r == Err(DatabaseError)
    ensures r.Ok? <==>
      GetProjectOr404(old(db.projects), projectId, currentUser.id).Ok? && !NullsProjectTitle(payload)
    ensures r.Err? ==> unchanged(db)
    ensures r.Ok? ==>
      && GetProjectOr404(old(db.projects), projectId, currentUser.id).Ok?
      && !NullsProjectTitle(payload)
      && r.value == PatchProject(old(db.projects)[projectId], payload)
      && db.projects == old(db.projects)[projectId := r.value]
    ensures db.users == old(db.users) && db.tasks == old(db.tasks)
  {
    var found := GetProjectOr404(db.projects, projectId, currentUser.id);
    if found.Err? {
      return Err(found.error);
    }
    var row := SetProjectAttributes(LoadedProject(found.value), ProjectUpdateData(payload));
    ProjectUpdateLoopIsPatch(found.value, payload);
    var committed := FlushProject(row);
    if committed.None? {
      return Err(DatabaseError);
    }
    db.projects := db.projects[projectId := committed.value];
    r := Ok(committed.value);
  }

  /**
    `DELETE /projects/{id}`: for a project the user does not own, a 404 and
    no change. Otherwise the project goes and, by the cascade, every task of
    it; other projects and their tasks stay as they were.
   */
  method DeleteProject(db: Database, currentUser: User, projectId: int) returns (r: Result<()>)
    requires db.Valid()
    modifies db
    ensures db.Valid()
    ensures r.Err? <==> GetProjectOr404(old(db.projects), projectId, currentUser.id).Err?
    ensures r.Err? ==> r.error == ProjectNotFound && unchanged(db)
    ensures r.Ok? ==>
      && db.projects == old(db.projects) - {projectId}
      && TasksOf(db.tasks, projectId) == map[]
      && (forall q :: q != projectId ==> TasksOf(db.tasks, q) == TasksOf(old(db.tasks), q))
      && (forall k :: k in db.tasks <==> k in old(db.tasks) && old(db.tasks)[k].projectId != projectId)
      && (forall k :: k in db.tasks ==> db.tasks[k] == old(db.tasks)[k])
    ensures db.users == old(db.users)
  {
    var found := GetProjectOr404(db.projects, projectId, currentUser.id);
    if found.Err? {
      return Err(found.error);
    }
    db.tasks := map k | k in db.tasks && db.tasks[k].projectId != projectId :: db.tasks[k];
    db.projects := db.projects - {projectId};
    r := Ok(());
  }
}
