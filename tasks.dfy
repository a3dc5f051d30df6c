/**
  The task handlers under `/projects/{project_id}/tasks`. Each one passes
  the ownership guard on the project first; a task is found only under the
  project it belongs to.
 */
module Tasks {
  import opened Wrappers
  import opened Http
  import opened Models
  import opened Store
  import opened Schemas
  import opened Projects

  const TaskNotFound := HttpError(NotFound, "Task not found")

  /** The task with that id if it belongs to that project, else a 404. */
  function GetTaskOr404(tasks: map<int, Task>, taskId: int, projectId: int): (r: Result<Task>)
    ensures r.Ok? <==> taskId in tasks && tasks[taskId].projectId == projectId
    ensures r.Ok? ==> r.value == tasks[taskId] && r.value.projectId == projectId
    ensures r.Err? ==> r.error == TaskNotFound
  {
    if taskId in tasks && tasks[taskId].projectId == projectId then Ok(tasks[taskId])
    else Err(TaskNotFound)
  }

  /** `GET .../tasks`: the tasks of an owned project, keyed by id. */
  function ListTasks(projects: map<int, Project>, tasks: map<int, Task>, currentUser: User, projectId: int)
    : (r: Result<map<int, Task>>)
    ensures r.Err? <==> GetProjectOr404(projects, projectId, currentUser.id).Err?
    ensures r.Err? ==> r.error == ProjectNotFound
    ensures r.Ok? ==> forall k :: k in r.value <==> k in tasks && tasks[k].projectId == projectId
    ensures r.Ok? ==> forall k :: k in r.value ==> r.value[k] == tasks[k]
  {
    match GetProjectOr404(projects, projectId, currentUser.id)
    case Err(e) => Err(e)
    case Ok(_) => Ok(TasksOf(tasks, projectId))
  }

  /**
    Whatever project a user names, every task listed to them, and every task
    the task guard then finds, lies in a project they own.
   */
  lemma ListedTasksAreOwned(
    projects: map<int, Project>, tasks: map<int, Task>, currentUser: User, projectId: int, taskId: int)
    requires ListTasks(projects, tasks, currentUser, projectId).Ok?
    ensures forall k :: k in ListTasks(projects, tasks, currentUser, projectId).value ==>
      projects[tasks[k].projectId].ownerId == currentUser.id
    ensures taskId in ListTasks(projects, tasks, currentUser, projectId).value <==>
      GetTaskOr404(tasks, taskId, projectId).Ok?
  {
  }

  /**
    `POST .../tasks`: for a project the user does not own, a 404 and no
    change; otherwise one new task in that project, with status `todo`.
   */
  method CreateTask(db: Database, currentUser: User, projectId: int, payload: TaskCreate)
    returns (r: Result<Task>)
    requires db.Valid()
    modifies db
    ensures db.Valid()
    ensures db.users == old(db.users) && db.projects == old(db.projects)
    ensures r.Err? <==> GetProjectOr404(old(db.projects), projectId, currentUser.id).Err?
    ensures r.Err? ==> r.error == ProjectNotFound && unchanged(db)
    ensures r.Ok? ==>
      && r.value == Task(old(db.nextTaskId), payload.title, payload.description, DefaultStatus, projectId)
      && r.value.id !in old(db.tasks)
      && db.tasks == old(db.tasks)[r.value.id := r.value]
      && ListTasks(db.projects, db.tasks, currentUser, projectId) ==
         Ok(ListTasks(old(db.projects), old(db.tasks), currentUser, projectId).value[r.value.id := r.value])
  {
    var found := GetProjectOr404(db.projects, projectId, currentUser.id);
    if found.Err? {
      return Err(found.error);
    }
    var task := Task(db.nextTaskId, payload.title, payload.description, DefaultStatus, projectId);
    ghost var listedBefore := TasksOf(db.tasks, projectId);
    db.tasks := db.tasks[task.id := task];
    db.nextTaskId := db.nextTaskId + 1;
    assert TasksOf(db.tasks, projectId) == listedBefore[task.id := task];
    r := Ok(task);
  }

  /** A task row as the session holds it while `setattr` runs: title and status may be null. */
  datatype TaskRow = TaskRow(
    id: int, title: Option<string>, description: Option<string>, status: Option<TaskStatus>, projectId: int)

  function LoadedTask(t: Task): TaskRow
  {
    TaskRow(t.id, Some(t.title), t.description, Some(t.status), t.projectId)
  }

  /** `setattr(task, field, value)` for one field of the payload. */
  function SetTaskField(row: TaskRow, f: TaskField): TaskRow
  {
    match f
    case TitleSet(v) => row.(title := v)
    case DescriptionSet(v) => row.(description := v)
    case StatusSet(v) => row.(status := v)
  }

  /** The `setattr` loop over the payload's fields, in order. */
  function ApplyTaskFields(row: TaskRow, fields: seq<TaskField>): TaskRow
  {
    if fields == [] then row
    else SetTaskField(ApplyTaskFields(row, fields[..|fields| - 1]), fields[|fields| - 1])
  }

  lemma {:induction false} ApplyTaskFieldsAppend(row: TaskRow, a: seq<TaskField>, b: seq<TaskField>)
    ensures ApplyTaskFields(row, a + b) == ApplyTaskFields(ApplyTaskFields(row, a), b)
  {
    if b == [] {
      assert a + b == a;
    } else {
      ApplyTaskFieldsAppend(row, a, b[..|b| - 1]);
      assert (a + b)[..|a + b| - 1] == a + b[..|b| - 1];
    }
  }

  /** No sequence of update fields reaches the id or the project. */
  lemma {:induction false} ApplyTaskFieldsKeepsProject(row: TaskRow, fields: seq<TaskField>)
    ensures ApplyTaskFields(row, fields).id == row.id
    ensures ApplyTaskFields(row, fields).projectId == row.projectId
  {
    if fields != [] {
      ApplyTaskFieldsKeepsProject(row, fields[..|fields| - 1]);
    }
  }

  /** The commit: refused when the NOT NULL title or status column holds null. */
  function FlushTask(row: TaskRow): (r: Option<Task>)
    ensures r.Some? <==> row.title.Some? && row.status.Some?
    ensures r.Some? ==> LoadedTask(r.value) == row
  {
    if row.title.None? || row.status.None? then None
    else Some(Task(row.id, row.title.value, row.description, row.status.value, row.projectId))
  }

  /** An update that would null the title or the status, which the database refuses. */
  predicate NullsTaskColumn(u: TaskUpdate)
  {
    u.title == Present(None) || u.status == Present(None)
  }

  /**
    What a partial update means, field by field: a field the request gave
    takes the given value, every other field keeps its value.
   */
  function PatchTask(t: Task, u: TaskUpdate): Task
    requires !NullsTaskColumn(u)
  {
    Task(
      t.id,
      if u.title.Present? then u.title.value.value else t.title,
      if u.description.Present? then u.description.value else t.description,
      if u.status.Present? then u.status.value.value else t.status,
      t.projectId)
  }

  lemma ApplyOneTaskField(row: TaskRow, f: TaskField)
    ensures ApplyTaskFields(row, [f]) == SetTaskField(row, f)
  {
    assert [f][..0] == [];
  }

  /** The row the `setattr` loop leaves behind, before the commit. */
  lemma TaskUpdateLoopRow(t: Task, u: TaskUpdate)
    ensures ApplyTaskFields(LoadedTask(t), TaskUpdateData(u)) ==
      TaskRow(
        t.id,
        if u.title.Present? then u.title.value else Some(t.title),
        if u.description.Present? then u.description.value else t.description,
        if u.status.Present? then u.status.value else Some(t.status),
        t.projectId)
  {
    var ti: seq<TaskField> := if u.title.Present? then [TitleSet(u.title.value)] else [];
    var de: seq<TaskField> := if u.description.Present? then [DescriptionSet(u.description.value)] else [];
    var st: seq<TaskField> := if u.status.Present? then [StatusSet(u.status.value)] else [];
    assert TaskUpdateData(u) == ti + de + st;
    ApplyTaskFieldsAppend(LoadedTask(t), ti + de, st);
    ApplyTaskFieldsAppend(LoadedTask(t), ti, de);
    var r1 := ApplyTaskFields(LoadedTask(t), ti);
    if u.title.Present? { ApplyOneTaskField(LoadedTask(t), ti[0]); }
    var r2 := ApplyTaskFields(r1, de);
    if u.description.Present? { ApplyOneTaskField(r1, de[0]); }
    if u.status.Present? { ApplyOneTaskField(r2, st[0]); }
  }

  /**
    The `setattr` loop followed by the commit is the field-by-field patch,
    or a refused commit exactly when the request nulls the title or the
    status.
   */
  lemma TaskUpdateLoopIsPatch(t: Task, u: TaskUpdate)
    ensures FlushTask(ApplyTaskFields(LoadedTask(t), TaskUpdateData(u))) ==
      if NullsTaskColumn(u) then None else Some(PatchTask(t, u))
  {
    TaskUpdateLoopRow(t, u);
  }

  /** The `setattr` loop of `update_task`, run over the dumped payload. */
  method SetTaskAttributes(task: TaskRow, fields: seq<TaskField>) returns (row: TaskRow)
    ensures row == ApplyTaskFields(task, fields)
  {
    row := task;
    for i := 0 to |fields|
      invariant row == ApplyTaskFields(task, fields[..i])
    {
      assert fields[..i + 1][..i] == fields[..i];
      row := SetTaskField(row, fields[i]);
    }
    assert fields[..|fields|] == fields;
  }

  /**
    `PUT .../tasks/{task_id}`: the project guard, then the task guard, each a
    404 with no change. Then the fields given are set one by one; if that
    nulls the title or status the commit fails and nothing changes, else the
    task becomes its patch, keeping its project, and no other row changes.
   */
  method UpdateTask(db: Database, currentUser: User, projectId: int, taskId: int, payload: TaskUpdate)
    returns (r: Result<Task>)
    requires db.Valid()
    modifies db
    ensures db.Valid()
    ensures GetProjectOr404(old(db.projects), projectId, currentUser.id).Err? ==> r == Err(ProjectNotFound)
    ensures (GetProjectOr404(old(db.projects), projectId, currentUser.id).Ok? &&
             GetTaskOr404(old(db.tasks), taskId, projectId).Err?) ==> r == Err(TaskNotFound)
    ensures (GetProjectOr404(old(db.projects), projectId, currentUser.id).Ok? &&
             GetTaskOr404(old(db.tasks), taskId, projectId).Ok? && NullsTaskColumn(payload)) ==> r == Err(DatabaseError)
    ensures r.Ok? <==>
      GetProjectOr404(old(db.projects), projectId, currentUser.id).Ok? &&
      GetTaskOr404(old(db.tasks), taskId, projectId).Ok? && !NullsTaskColumn(payload)
    ensures r.Err? ==> unchanged(db)
    ensures r.Ok? ==>
      && GetProjectOr404(old(db.projects), projectId, currentUser.id).Ok?
      && GetTaskOr404(old(db.tasks), taskId, projectId).Ok?
      && !NullsTaskColumn(payload)
      && r.value == PatchTask(old(db.tasks)[taskId], payload)
      && r.value.projectId == projectId
      && db.tasks == old(db.tasks)[taskId := r.value]
    ensures db.users == old(db.users) && db.projects == old(db.projects)
  {
    var project := GetProjectOr404(db.projects, projectId, currentUser.id);
    if project.Err? {
      return Err(project.error);
    }
    var found := GetTaskOr404(db.tasks, taskId, projectId);
    if found.Err? {
      return Err(found.error);
    }
    var row := SetTaskAttributes(LoadedTask(found.value), TaskUpdateData(payload));
    TaskUpdateLoopIsPatch(found.value, payload);
    var committed := FlushTask(row);
    if committed.None? {
      return Err(DatabaseError);
    }
    db.tasks := db.tasks[taskId := committed.value];
    r := Ok(committed.value);
  }

  /**
    `DELETE .../tasks/{task_id}`: the two guards as above; otherwise exactly
    that task goes and nothing else changes.
   */
  method DeleteTask(db: Database, currentUser: User, projectId: int, taskId: int) returns (r: Result<()>)
    requires db.Valid()
    modifies db
    ensures db.Valid()
    ensures GetProjectOr404(old(db.projects), projectId, currentUser.id).Err? ==> r == Err(ProjectNotFound)
    ensures (GetProjectOr404(old(db.projects), projectId, currentUser.id).Ok? &&
             GetTaskOr404(old(db.tasks), taskId, projectId).Err?) ==> r == Err(TaskNotFound)
    ensures r.Ok? <==>
      GetProjectOr404(old(db.projects), projectId, currentUser.id).Ok? &&
      GetTaskOr404(old(db.tasks), taskId, projectId).Ok?
    ensures r.Err? ==> unchanged(db)
    ensures r.Ok? ==>
      && GetProjectOr404(old(db.projects), projectId, currentUser.id).Ok?
      && GetTaskOr404(old(db.tasks), taskId, projectId).Ok?
      && db.tasks == old(db.tasks) - {taskId}
    ensures db.users == old(db.users) && db.projects == old(db.projects)
  {
    var project := GetProjectOr404(db.projects, projectId, currentUser.id);
    if project.Err? {
      return Err(project.error);
    }
    var found := GetTaskOr404(db.tasks, taskId, projectId);
    if found.Err? {
      return Err(found.error);
    }
    db.tasks := db.tasks - {taskId};
    r := Ok(());
  }
}
