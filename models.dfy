/**
  The three tables of the record store (users, projects, tasks), the task
  status enum, the column defaults and the uniqueness rules on users.
  Timestamps are not modelled.
 */
module Models {
  import opened Wrappers

  /** The `TaskStatus` string enum: exactly three values. */
  datatype TaskStatus = Todo | InProgress | Done

  /** The string each enum member stands for. */
  function StatusValue(s: TaskStatus): string
  {
    match s
    case Todo => "todo"
    case InProgress => "in_progress"
    case Done => "done"
  }

  /** Reading a status back from its string, as the enum column and the request schemas do. */
  function ParseStatus(v: string): (r: Option<TaskStatus>)
    ensures r.Some? ==> StatusValue(r.value) == v
    ensures r.None? <==> forall s :: StatusValue(s) != v
  {
    if v == "todo" then Some(Todo)
    else if v == "in_progress" then Some(InProgress)
    else if v == "done" then Some(Done)
    else
      assert forall s :: StatusValue(s) != v by {
        forall s ensures StatusValue(s) != v { }
      }
      None
  }

  lemma StatusRoundTrip(s: TaskStatus)
    ensures ParseStatus(StatusValue(s)) == Some(s)
  {
    match s
    case Todo =>
    case InProgress =>
    case Done =>
  }

  datatype User = User(id: int, username: string, email: string, hashedPassword: string, isActive: bool)

  datatype Project = Project(id: int, title: string, description: Option<string>, ownerId: int)

  datatype Task = Task(id: int, title: string, description: Option<string>, status: TaskStatus, projectId: int)

  /** A new user is not active until the email is verified. */
  const DefaultIsActive := false

  /** A new task starts in the `todo` state. */
  const DefaultStatus := Todo

  /**
    The `Project.tasks` relationship: the tasks whose `project_id` is the
    project, keyed by task id.
   */
  function TasksOf(tasks: map<int, Task>, projectId: int): (r: map<int, Task>)
    ensures forall k :: k in r <==> k in tasks && tasks[k].projectId == projectId
    ensures forall k :: k in r ==> r[k] == tasks[k]
  {
    map k | k in tasks && tasks[k].projectId == projectId :: tasks[k]
  }

  /** Every record sits under its own primary key. */
  ghost predicate UsersKeyedById(users: map<int, User>)
  {
    forall k :: k in users ==> users[k].id == k
  }

  ghost predicate UniqueUsernames(users: map<int, User>)
  {
    forall a, b :: a in users && b in users && users[a].username == users[b].username ==> a == b
  }

  ghost predicate UniqueEmails(users: map<int, User>)
  {
    forall a, b :: a in users && b in users && users[a].email == users[b].email ==> a == b
  }

  /** What the users table guarantees: primary keys and the two unique columns. */
  ghost predicate ValidUsers(users: map<int, User>)
  {
    UsersKeyedById(users) && UniqueUsernames(users) && UniqueEmails(users)
  }
}
