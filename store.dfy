/**
  The in-memory record store standing in for the database session: one map
  per table from primary key to row, and a counter per table from which new
  primary keys are drawn. Every handler is one atomic transition on it.
 */
module Store {
  import opened Wrappers
  import opened Models

  class Database {
    var users: map<int, User>
    var projects: map<int, Project>
    var tasks: map<int, Task>
    var nextUserId: int
    var nextProjectId: int
    var nextTaskId: int

    /**
      The table constraints: primary keys, the unique username and email
      columns, and the two non-null foreign keys (every project has an
      existing owner, every task an existing project).
     */
    ghost predicate Valid()
      reads this
    {
      && ValidUsers(users)
      && 1 <= nextUserId && 1 <= nextProjectId && 1 <= nextTaskId
      && (forall k :: k in users ==> 1 <= k < nextUserId)
      && (forall k :: k in projects ==> projects[k].id == k && 1 <= k < nextProjectId)
      && (forall k :: k in projects ==> projects[k].ownerId in users)
      && (forall k :: k in tasks ==> tasks[k].id == k && 1 <= k < nextTaskId)
      && (forall k :: k in tasks ==> tasks[k].projectId in projects)
    }

    constructor ()
      ensures Valid()
      ensures users == map[] && projects == map[] && tasks == map[]
    {
      users, projects, tasks := map[], map[], map[];
      nextUserId, nextProjectId, nextTaskId := 1, 1, 1;
    }
  }

  /**
    The user whose username is `name` (the query
    `filter(User.username == name).first()`); the unique-username rule makes it
    the only one.
   */
  function UserIdByUsername(users: map<int, User>, name: string): (r: Option<int>)
    requires UniqueUsernames(users)
    ensures r.Some? ==> r.value in users && users[r.value].username == name
    ensures r.None? <==> forall k :: k in users ==> users[k].username != name
    ensures forall k :: k in users && users[k].username == name ==> r == Some(k)
  {
    if exists k :: k in users && users[k].username == name then
      var k :| k in users && users[k].username == name; Some(k)
    else
      None
  }

  /** The user whose email is `email`, unique by the unique-email rule. */
  function UserIdByEmail(users: map<int, User>, email: string): (r: Option<int>)
    requires UniqueEmails(users)
    ensures r.Some? ==> r.value in users && users[r.value].email == email
    ensures r.None? <==> forall k :: k in users ==> users[k].email != email
    ensures forall k :: k in users && users[k].email == email ==> r == Some(k)
  {
    if exists k :: k in users && users[k].email == email then
      var k :| k in users && users[k].email == email; Some(k)
    else
      None
  }

  /**
    Deleting a user row. No route does this; it is the cascade declared on
    `User.projects`, which in turn cascades along `Project.tasks`: the user's
    projects go, and so do the tasks of those projects. Nothing else changes.
   */
  method DeleteUser(db: Database, userId: int)
    requires db.Valid() && userId in db.users
    modifies db
    ensures db.Valid()
    ensures db.users == old(db.users) - {userId}
    ensures forall k :: k in db.projects <==> k in old(db.projects) && old(db.projects)[k].ownerId != userId
    ensures forall k :: k in db.projects ==> db.projects[k] == old(db.projects)[k]
    ensures forall k :: k in db.tasks <==>
      k in old(db.tasks) && old(db.projects)[old(db.tasks)[k].projectId].ownerId != userId
    ensures forall k :: k in db.tasks ==> db.tasks[k] == old(db.tasks)[k]
    ensures db.nextUserId == old(db.nextUserId) && db.nextProjectId == old(db.nextProjectId)
    ensures db.nextTaskId == old(db.nextTaskId)
  {
    var projects := db.projects;
    db.tasks := map k | k in db.tasks && projects[db.tasks[k].projectId].ownerId != userId :: db.tasks[k];
    db.projects := map k | k in projects && projects[k].ownerId != userId :: projects[k];
    db.users := db.users - {userId};
  }
}
