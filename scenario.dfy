/**
  A client of the handlers, in the manner of an end-to-end test: what the
  contracts alone let a caller conclude about one session of two users.
 */
module Scenario {
  import opened Wrappers
  import opened Http
  import opened Models
  import opened Store
  import opened Dependencies
  import opened Schemas
  import opened Auth
  import opened Projects

  /**
    alice registers, cannot log in before verifying (403), verifies, logs in
    and is resolved from her token; verifying a second time changes nothing.
   */
  method RegisterVerifyLogin(crypto: Crypto, now: int)
    requires forall pw :: crypto.verify(pw, crypto.hash(pw))
  {
    var db := new Database();
    ghost var id := db.nextUserId;

    var registered, mail := Register(db, UserRegister("alice", "a@x.com", "pw1"), crypto, now);
    assert registered == Ok(RegisteredMessage);
    assert db.users == map[id := User(id, "alice", "a@x.com", crypto.hash("pw1"), false)];
    var login := Login(db.users, UserLogin("alice", "pw1"), crypto, now, DefaultConfig);
    assert login == Err(EmailNotVerified);

    var verified := VerifyEmail(db, mail.value.token, now);
    assert verified == Ok(VerifiedMessage);
    assert db.users == map[id := User(id, "alice", "a@x.com", crypto.hash("pw1"), true)];
    login := Login(db.users, UserLogin("alice", "pw1"), crypto, now, DefaultConfig);
    assert login.Ok?;
    var alice := GetCurrentUser(db.users, login.value.accessToken, now);
    assert alice == Ok(db.users[id]);

    var again := VerifyEmail(db, mail.value.token, now);
    assert again == Ok(AlreadyVerifiedMessage);
  }

  /**
    alice creates a project; bob, another user, gets a 404 for it while
    alice gets it with its (empty) task list.
   */
  method OtherUserSeesNotFound(db: Database, alice: User, bob: User)
    requires db.Valid() && alice.id in db.users && bob.id in db.users && alice.id != bob.id
    modifies db
  {
    var project := CreateProject(db, alice, ProjectCreate("P1", None));
    assert project.ownerId == alice.id;
    var seenByBob := GetProject(db.projects, db.tasks, bob, project.id);
    assert seenByBob == Err(ProjectNotFound);
    var seenByAlice := GetProject(db.projects, db.tasks, alice, project.id);
    assert seenByAlice.Ok? && seenByAlice.value.project == project;
  }
}
