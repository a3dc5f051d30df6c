# Task tracker: accounts, tokens and ownership

A Dafny model of the account and ownership rules of a small FastAPI task
tracker. Users register, verify their email, log in and then manage their
projects and the tasks inside them.

- **Record store** (`store.dfy`, module `Store`). A `Database` object holds three
  tables: users, projects and tasks. Each table is a map from primary key to row,
  and each has a counter that hands out fresh keys. `Database.Valid()` states
  the table constraints:
  - every row sits under its own key;
  - usernames and emails are unique;
  - every project's `owner_id` names an existing user;
  - every task's `project_id` names an existing project.

  Every handler below is one atomic transition that keeps `Valid()`.
  `DeleteUser` models the cascade declared on `User.projects`, which continues
  along `Project.tasks`. No route deletes users.
- **Tokens** (`dependencies.dfy`, module `Dependencies`). A token is a claims
  record (`sub`, `type`, `exp`) plus one abstract flag that says whether the
  signature checks out under the secret. The clock `now` is whole seconds. A
  token counts as expired when `exp < now`. This is the expiry check of
  python-jose, which the source uses to decode.
  - Access tokens carry the caller's claims and expire after
    `ACCESS_TOKEN_EXPIRE_MINUTES` (default 30).
  - Verification tokens carry `sub = email` and `type = "email_verification"`,
    and they live 24 hours.
  - `GetCurrentUser` is the identity resolver.
- **Account life cycle** (`auth.dfy`, module `Auth`).
  - `Register` and `VerifyEmail` change the store.
  - `Login` and `GetMe` are read-only functions of the users table.
  - Password hashing is a pair of abstract functions (`Crypto`).
  - The verification mail is returned as data: recipient, username and token.
- **Ownership-scoped handlers** (`projects.dfy`, `tasks.dfy`).
  - `GetProjectOr404` is the ownership guard. The two routers define it
    identically, so it is modelled once.
  - The read-only handlers are functions of the tables.
  - Create, update and delete are methods on the `Database`.
  - The partial updates follow the source's loop. The payload's given fields
    (`model_dump(exclude_unset=True)`) become a sequence of assignments. The
    loop applies them one by one to the row as the session holds it. The
    commit then refuses a NOT NULL column set to null, which surfaces as a 500.
    `TaskUpdateLoopIsPatch` and `ProjectUpdateLoopIsPatch` prove that this
    equals a field-by-field patch.
- **Schemas** (`schemas.dfy`). The payload shapes fix which columns a request
  can reach:
  - a create payload names no owner, project or status;
  - an update field can only be a title, description or status.

  `UserResponse` has no password hash.
- `scenario.dfy` is a client that runs an end-to-end session. It uses only the
  contracts.

Points a reader might not expect from the code:
- A duplicate username or email is a 400, not a distinct conflict status.
- The identity resolver never looks at `is_active`. A valid access token for
  an inactive user still resolves.
- Access tokens carry no `type` claim at all. The resolver only refuses the
  type `"email_verification"`.

## Model

| member | source | states |
|---|---|---|
| Models.ParseStatus | app/models.py:17-20 | a string is a status exactly when one of the three members has that value, and then it reads back as that member |
| Models.StatusRoundTrip | app/models.py:17-20 | each of todo, in_progress, done reads back from its string value |
| Models.TasksOf | app/models.py:48 | the `Project.tasks` relationship is exactly the tasks whose project_id is the project, unchanged |
| Store.UserIdByUsername | app/models.py:27 | the lookup by username finds a user with that name iff one exists, and by uniqueness it is the only one |
| Store.UserIdByEmail | app/models.py:28 | the lookup by email finds a user with that email iff one exists, and it is the only one |
| Store.DeleteUser | app/models.py:33-35 | deleting a user removes exactly that user, every project it owns and every task of those projects; all other rows are unchanged and the constraints still hold |
| Dependencies.Decode | app/dependencies.py:51 | decoding succeeds exactly for a validly signed, unexpired token and yields its claims |
| Dependencies.Encode | app/dependencies.py:40 | a signed token decodes to its own claims until its exp and fails after |
| Dependencies.CreateAccessToken | app/dependencies.py:36-40 | keeps the caller's sub and type, sets exp to now plus the configured minutes, and decodes exactly up to that moment |
| Dependencies.DecodeVerificationToken | app/dependencies.py:49-65 | succeeds iff the token is signed, unexpired, of type email_verification and has a sub, returning the sub; every failure is a 400, expired or malformed first, then wrong type |
| Dependencies.CreateVerificationToken | app/dependencies.py:43-46 | claims are sub = email, type = email_verification, exp = now + 24h; it decodes back to the email up to exp and is refused as expired after |
| Dependencies.GetCurrentUser | app/dependencies.py:68-94 | every failure is a 401; succeeds iff the token decodes, is not a verification token, has a sub and some user has that username, and then returns that stored user |
| Dependencies.AccessTokenIsNoVerificationToken | app/dependencies.py:53-54 | a token without a type, as every access token is, is always refused as a verification token |
| Dependencies.VerificationTokenIsNoSessionToken | app/dependencies.py:76-77 | a verification token is refused by the resolver with a 401 even when unexpired |
| Dependencies.AccessTokenResolvesToUser | app/dependencies.py:88-94 | an unexpired access token for any stored user, active or not, resolves to that user |
| Schemas.TaskUpdateData | app/schemas.py:38-41 | the dumped update holds an assignment exactly for each field the request gave, with its value, each at most once and in declaration order (title, description, status) |
| Schemas.ProjectUpdateData | app/schemas.py:61-63 | the dumped project update holds an assignment exactly for each of title and description the request gave, each at most once, title first |
| Schemas.ToUserResponse | app/schemas.py:18-25 | the response carries the user's id, username, email and is_active |
| Schemas.UserResponseHidesPassword | app/schemas.py:18-25 | the response is the same whatever the password hash is |
| Auth.Register | app/routers/auth.py:23-45 | taken username first, then taken email, are 400s that change nothing; otherwise exactly one inactive user with the password's hash is added and the mail carries a verification token for the email |
| Auth.VerifyEmail | app/routers/auth.py:49-62 | a bad token gives its 400 and an unknown email a 404, changing nothing; an active user is left unchanged with "already verified"; otherwise only that user's is_active becomes true |
| Auth.Login | app/routers/auth.py:66-84 | 401 iff no user has that username and password; 403 iff the credentials match an inactive user; otherwise a bearer access token with sub = username |
| Auth.GetMe | app/routers/auth.py:88-89 | fails exactly when the resolver fails, with a 401, and otherwise shows the resolved user |
| Auth.LoginTokenResolves | app/routers/auth.py:83-84 | the token a login hands out resolves to the user who logged in until it expires |
| Auth.VerificationUnlocksLogin | app/routers/auth.py:77-81 | right credentials on an inactive user give a 403, and the same request after is_active is set gives a token |
| Projects.GetProjectOr404 | app/routers/projects.py:12-20 | returns the project iff it exists and its owner is the user, otherwise the same 404 |
| Projects.ForeignProjectLooksMissing | app/routers/projects.py:12-20 | a project owned by someone else gets exactly the answer a missing project gets |
| Projects.ListProjects | app/routers/projects.py:24-31 | lists exactly the projects whose owner is the current user |
| Projects.ListedIffGettable | app/routers/projects.py:24-31 | a project is listed iff the guard lets the user get it, and then both give the same project |
| Projects.GetProject | app/routers/projects.py:50-55 | the owned project together with exactly its tasks, else the guard's 404 |
| Projects.OtherUsersProjectIsNotFound | app/routers/projects.py:50-55 | whoever a token resolves to, another user's project is a 404 for them |
| Projects.CreateProject | app/routers/projects.py:37-46 | adds exactly one project, with a fresh id and owned by the current user, which then appears in that user's list |
| Projects.ApplyProjectFieldsAppend | app/routers/projects.py:68-69 | applying assignments in two batches equals applying them in one |
| Projects.ApplyProjectFieldsKeepsOwner | app/routers/projects.py:68-69 | no sequence of update assignments changes a project's id or owner |
| Projects.SetProjectAttributes | app/routers/projects.py:68-69 | the loop leaves the row with the payload's assignments applied in order, as `ApplyProjectFields` describes |
| Projects.FlushProject | app/models.py:42 | the commit succeeds iff the title is non-null, and stores the row as held |
| Projects.ProjectUpdateLoopIsPatch | app/routers/projects.py:65-73 | the setattr loop plus commit gives the field-by-field patch, or a refused commit exactly when the title is set to null |
| Projects.UpdateProject | app/routers/projects.py:59-73 | a 404 for a project not owned and a 500 for a null title, both changing nothing; succeeds exactly when the project is owned and the title is not nulled, and then only that project changes, to its patch |
| Projects.DeleteProject | app/routers/projects.py:77-84 | a 404 for a project not owned changes nothing; otherwise the project and exactly its tasks go, and other projects' tasks are unchanged |
| Tasks.GetTaskOr404 | app/routers/tasks.py:23-31 | returns the task iff it exists and belongs to the named project, otherwise a 404 |
| Tasks.ListTasks | app/routers/tasks.py:35-41 | the guard's 404 for a project not owned, else exactly the tasks of that project |
| Tasks.ListedTasksAreOwned | app/routers/tasks.py:35-41 | every listed task lies in a project the user owns, and a task is listed iff the task guard finds it |
| Tasks.CreateTask | app/routers/tasks.py:47-58 | a 404 for a project not owned changes nothing; otherwise exactly one task with status todo in the path's project is added and joins that project's list |
| Tasks.ApplyTaskFieldsAppend | app/routers/tasks.py:73-74 | applying assignments in two batches equals applying them in one |
| Tasks.ApplyTaskFieldsKeepsProject | app/routers/tasks.py:73-74 | no sequence of update assignments changes a task's id or project |
| Tasks.SetTaskAttributes | app/routers/tasks.py:73-74 | the loop leaves the row with the payload's assignments applied in order, as `ApplyTaskFields` describes |
| Tasks.FlushTask | app/models.py:55-57 | the commit succeeds iff title and status are non-null, and stores the row as held |
| Tasks.TaskUpdateLoopRow | app/routers/tasks.py:72-74 | after the setattr loop each given field holds its given value and every other field its old one |
| Tasks.TaskUpdateLoopIsPatch | app/routers/tasks.py:72-78 | the setattr loop plus commit gives the field-by-field patch, or a refused commit exactly when title or status is set to null |
| Tasks.UpdateTask | app/routers/tasks.py:62-78 | project guard, then task guard (404s), then a 500 for a null title or status, all changing nothing; succeeds exactly when both guards pass and no required column is nulled, and then only that task changes, to its patch, keeping its project |
| Tasks.DeleteTask | app/routers/tasks.py:82-91 | project guard then task guard, 404s changing nothing; succeeds exactly when both guards pass, and then exactly that task is removed and nothing else changes |

## Left out

- Password hashing and checking (bcrypt via passlib) are the two abstract functions of `Crypto`. Nothing is proved about them.
- Password salting is not modelled. bcrypt draws a fresh salt on every call, but `Crypto.hash` is one fixed function. Nothing in the model compares two hashes.
- JWT encoding, the signing algorithm and the secret are reduced to one "signature valid" flag. The check that the secret is set at start-up is not modelled.
- Only the claims `sub`, `type` and `exp` are modelled. A `sub` that is not a string, which python-jose also refuses, is not modelled.
- Time is whole seconds. The sub-second part of `datetime.now` is not modelled.
- Reading `ACCESS_TOKEN_EXPIRE_MINUTES` from the environment is not modelled. The value is the `Config` field, and its default is 30.
- The verification mail is not sent. `Register` returns what would be sent. The link `BASE_URL + "/auth/verify?token=" + token` and the SMTP transport (app/email_utils.py) are I/O.
- A failed send after the user row is committed is I/O, so it is not modelled either. In that case the user stays registered and unverified.
- Timestamps (`created_at`, `updated_at`) are not modelled. `UserResponse` therefore omits `created_at`.
- Column length limits (`String(50)`, `String(100)`) are not modelled. Whether they are enforced depends on the database engine, and app/database.py is not part of this model.
- Fresh primary keys come from one counter per table. Which keys the real engine hands out is its own affair. The model relies only on their being unused.
- Request parsing is done by FastAPI and Pydantic. This covers the Bearer header (a missing header is answered before any handler runs), `EmailStr` validation, and rejecting an unknown status string. Payloads and tokens arrive already parsed.
- Application wiring (app/main.py, CORS) is not modelled.
- Concurrency is not modelled. Two racing registrations are settled by the database's unique constraints.
- Tasks.ListTasks: returns the tasks keyed by id. The order of the returned list is not modelled.
- Projects.ListProjects: returns the projects keyed by id. The order of the returned list is not modelled.
- Projects.GetProject: returns the project's tasks keyed by id. Their order is not modelled.
