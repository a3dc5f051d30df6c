/**
  The request and response shapes. They fix which fields a request may set:
  a create payload cannot name an owner, a project or a status, and an
  update payload can only reach the columns listed in it.
 */
module Schemas {
  import opened Wrappers
  import opened Models
  import Dependencies

  datatype UserRegister = UserRegister(username: string, email: string, password: string)

  datatype UserLogin = UserLogin(username: string, password: string)

  /** What `/auth/me` shows of a user: never the password hash. */
  datatype UserResponse = UserResponse(id: int, username: string, email: string, isActive: bool)

  datatype TokenResponse = TokenResponse(accessToken: Dependencies.Jwt, tokenType: string)

  /**
    A field of an update payload: left out of the request, or given, where
    the given value may be null.
   */
  datatype Patch<+T> = Absent | Present(value: T)

  datatype TaskCreate = TaskCreate(title: string, description: Option<string>)

  datatype TaskUpdate = TaskUpdate(
    title: Patch<Option<string>>,
    description: Patch<Option<string>>,
    status: Patch<Option<TaskStatus>>)

  /** One assignment of an update: the only task columns a request can write. */
  datatype TaskField =
    | TitleSet(title: Option<string>)
    | DescriptionSet(description: Option<string>)
    | StatusSet(status: Option<TaskStatus>)

  datatype ProjectCreate = ProjectCreate(title: string, description: Option<string>)

  datatype ProjectUpdate = ProjectUpdate(title: Patch<Option<string>>, description: Patch<Option<string>>)

  /** One assignment of a project update: title and description only, never the owner. */
  datatype ProjectField =
    | ProjectTitleSet(title: Option<string>)
    | ProjectDescriptionSet(description: Option<string>)

  /** A project together with its tasks, keyed by task id. */
  datatype ProjectWithTasks = ProjectWithTasks(project: Project, tasks: map<int, Task>)


  /** The position of each task field in the schema's declaration order. */
  function TaskFieldRank(f: TaskField): nat
  {
    match f
    case TitleSet(_) => 0
    case DescriptionSet(_) => 1
    case StatusSet(_) => 2
  }

  /** The position of each project field in the schema's declaration order. */
  function ProjectFieldRank(f: ProjectField): nat
  {
    match f
    case ProjectTitleSet(_) => 0
    case ProjectDescriptionSet(_) => 1
  }

  /**
    `model_dump(exclude_unset=True)`: the fields the request gave, each once,
    in declaration order (title, description, status).
   */
  function TaskUpdateData(p: TaskUpdate): (fields: seq<TaskField>)
    ensures forall f :: f in fields <==>
      (f.TitleSet? && p.title == Present(f.title)) ||
      (f.DescriptionSet? && p.description == Present(f.description)) ||
      (f.StatusSet? && p.status == Present(f.status))
    ensures forall i, j :: 0 <= i < j < |fields| ==> TaskFieldRank(fields[i]) < TaskFieldRank(fields[j])
  {
    (if p.title.Present? then [TitleSet(p.title.value)] else []) +
    (if p.description.Present? then [DescriptionSet(p.description.value)] else []) +
    (if p.status.Present? then [StatusSet(p.status.value)] else [])
  }

  /** `model_dump(exclude_unset=True)` of a project update: each given field once, title first. */
  function ProjectUpdateData(p: ProjectUpdate): (fields: seq<ProjectField>)
    ensures forall f :: f in fields <==>
      (f.ProjectTitleSet? && p.title == Present(f.title)) ||
      (f.ProjectDescriptionSet? && p.description == Present(f.description))
    ensures forall i, j :: 0 <= i < j < |fields| ==> ProjectFieldRank(fields[i]) < ProjectFieldRank(fields[j])
  {
    (if p.title.Present? then [ProjectTitleSet(p.title.value)] else []) +
    (if p.description.Present? then [ProjectDescriptionSet(p.description.value)] else [])
  }

  /** The response model read from a user row's attributes. */
  function ToUserResponse(u: User): (r: UserResponse)
    ensures r.id == u.id && r.username == u.username && r.email == u.email && r.isActive == u.isActive
  {
    UserResponse(u.id, u.username, u.email, u.isActive)
  }

  /** The response does not depend on the password hash at all. */
  lemma UserResponseHidesPassword(u: User, otherHash: string)
    ensures ToUserResponse(u.(hashedPassword := otherHash)) == ToUserResponse(u)
  {
  }
}
