/**
  The account life cycle over `is_active`: register (inactive, a
  verification mail goes out), verify (becomes active, once), login (only
  active accounts get an access token), and `/auth/me`.
 */
module Auth {
  import opened Wrappers
  import opened Http
  import opened Models
  import opened Store
  import opened Dependencies
  import opened Schemas

  const UsernameTaken := HttpError(BadRequest, "Username already taken")
  const EmailTaken := HttpError(BadRequest, "Email already registered")
  const UserNotFound := HttpError(NotFound, "User not found")
  const InvalidCredentials := HttpError(Unauthorized, "Invalid username or password")
  const EmailNotVerified := HttpError(Forbidden, "Email not verified. Please check your inbox.")

  const RegisteredMessage := "Registration successful. Please check your email to verify your account."
  const AlreadyVerifiedMessage := "Email already verified. You can log in."
  const VerifiedMessage := "Email verified successfully. You can now log in."

  /** The arguments of the verification mail; sending it is not modelled. */
  datatype VerificationMail = VerificationMail(to: string, username: string, token: Jwt)

  /**
    Registration. A taken username is reported first, then a taken email;
    either way nothing changes and no mail goes out. Otherwise exactly one
    user is added, inactive and with the hash of the password, and the mail
    carries a verification token minted for the email address.
   */
  method Register(db: Database, payload: UserRegister, crypto: Crypto, now: int)
    returns (r: Result<string>, mail: Option<VerificationMail>)
    requires db.Valid()
    modifies db
    ensures db.Valid()
    ensures UserIdByUsername(old(db.users), payload.username).Some? ==> r == Err(UsernameTaken)
    ensures (UserIdByUsername(old(db.users), payload.username).None? &&
             UserIdByEmail(old(db.users), payload.email).Some?) ==> r == Err(EmailTaken)
    ensures r.Ok? <==>
      UserIdByUsername(old(db.users), payload.username).None? && UserIdByEmail(old(db.users), payload.email).None?
    ensures r.Err? ==> unchanged(db) && mail == None
    ensures r.Ok? ==>
      && r.value == RegisteredMessage
      && old(db.nextUserId) !in old(db.users)
      && db.users == old(db.users)[old(db.nextUserId) :=
           User(old(db.nextUserId), payload.username, payload.email, crypto.hash(payload.password), DefaultIsActive)]
      && db.projects == old(db.projects) && db.tasks == old(db.tasks)
      && mail == Some(VerificationMail(payload.email, payload.username, CreateVerificationToken(payload.email, now)))
  {
    if UserIdByUsername(db.users, payload.username).Some? {
      return Err(UsernameTaken), None;
    }
    if UserIdByEmail(db.users, payload.email).Some? {
      return Err(EmailTaken), None;
    }
    var user := User(db.nextUserId, payload.username, payload.email, crypto.hash(payload.password), DefaultIsActive);
    db.users := db.users[user.id := user];
    db.nextUserId := db.nextUserId + 1;
    var token := CreateVerificationToken(user.email, now);
    mail := Some(VerificationMail(user.email, user.username, token));
    r := Ok(RegisteredMessage);
  }

  /**
    Email verification. A token that does not decode as a verification token
    gives its 400, an email that belongs to no user a 404, and nothing
    changes. An active user is left as is ("already verified"); otherwise
    only that user's `is_active` becomes true.
   */
  method VerifyEmail(db: Database, token: Jwt, now: int) returns (r: Result<string>)
    requires db.Valid()
    modifies db
    ensures db.Valid()
    ensures DecodeVerificationToken(token, now).Err? ==> r == Err(DecodeVerificationToken(token, now).error)
    ensures (DecodeVerificationToken(token, now).Ok? &&
             UserIdByEmail(old(db.users), DecodeVerificationToken(token, now).value).None?) ==> r == Err(UserNotFound)
    ensures r.Ok? <==>
      DecodeVerificationToken(token, now).Ok? &&
      UserIdByEmail(old(db.users), DecodeVerificationToken(token, now).value).Some?
    ensures r.Err? ==> unchanged(db)
    ensures r == Ok(AlreadyVerifiedMessage) ==> unchanged(db)
    ensures r.Ok? ==>
      var email := DecodeVerificationToken(token, now).value;
      && UserIdByEmail(old(db.users), email).Some?
      && var k := UserIdByEmail(old(db.users), email).value;
      && (old(db.users)[k].isActive ==> r == Ok(AlreadyVerifiedMessage))
      && (!old(db.users)[k].isActive ==> r == Ok(VerifiedMessage))
      && db.users == old(db.users)[k := old(db.users)[k].(isActive := true)]
    ensures db.projects == old(db.projects) && db.tasks == old(db.tasks)
  {
    var decoded := DecodeVerificationToken(token, now);
    if decoded.Err? {
      return Err(decoded.error);
    }
    var found := UserIdByEmail(db.users, decoded.value);
    if found.None? {
      return Err(UserNotFound);
    }
    var k := found.value;
    if db.users[k].isActive {
      assert db.users[k := db.users[k].(isActive := true)] == db.users;
      return Ok(AlreadyVerifiedMessage);
    }
    db.users := db.users[k := db.users[k].(isActive := true)];
    r := Ok(VerifiedMessage);
  }

  /** The user named in a login request whose password checks out. */
  ghost predicate CredentialsMatch(users: map<int, User>, payload: UserLogin, crypto: Crypto)
  {
    exists k :: k in users && users[k].username == payload.username &&
      crypto.verify(payload.password, users[k].hashedPassword)
  }

  /**
    Login. A wrong username or password is a 401, checked before activation;
    right credentials on an inactive account are a 403 and issue no token;
    otherwise a bearer access token whose subject is the username.
   */
  function Login(users: map<int, User>, payload: UserLogin, crypto: Crypto, now: int, config: Config)
    : (r: Result<TokenResponse>)
    requires ValidUsers(users)
    ensures r == Err(InvalidCredentials) <==> !CredentialsMatch(users, payload, crypto)
    ensures r == Err(EmailNotVerified) <==>
      CredentialsMatch(users, payload, crypto) && !users[UserIdByUsername(users, payload.username).value].isActive
    ensures r.Ok? <==>
      CredentialsMatch(users, payload, crypto) && users[UserIdByUsername(users, payload.username).value].isActive
    ensures r.Ok? ==> r.value == TokenResponse(CreateAccessToken(Claims(Some(payload.username), None, None), now, config), "bearer")
  {
    match UserIdByUsername(users, payload.username)
    case None => Err(InvalidCredentials)
    case Some(k) =>
      if !crypto.verify(payload.password, users[k].hashedPassword) then Err(InvalidCredentials)
      else if !users[k].isActive then Err(EmailNotVerified)
      else Ok(TokenResponse(CreateAccessToken(Claims(Some(users[k].username), None, None), now, config), "bearer"))
  }

  /**
    `/auth/me`: the current user resolved from the bearer token, shown as a
    `UserResponse`. It fails exactly as the resolver does.
   */
  function GetMe(users: map<int, User>, t: Jwt, now: int): (r: Result<UserResponse>)
    requires ValidUsers(users)
    ensures r.Err? <==> GetCurrentUser(users, t, now).Err?
    ensures r.Err? ==> r.error.status == Unauthorized
    ensures r.Ok? ==> exists k :: k in users && r.value == ToUserResponse(users[k]) && users[k].username == t.claims.sub.value
  {
    match GetCurrentUser(users, t, now)
    case Err(e) => Err(e)
    case Ok(user) => Ok(ToUserResponse(user))
  }

  /**
    The access token a login hands out resolves, until it expires, to the
    user who logged in.
   */
  lemma LoginTokenResolves(users: map<int, User>, payload: UserLogin, crypto: Crypto, now: int, later: int, config: Config)
    requires ValidUsers(users)
    requires Login(users, payload, crypto, now, config).Ok?
    requires later <= now + config.accessTokenExpireMinutes * 60
    ensures var k := UserIdByUsername(users, payload.username).value;
      GetCurrentUser(users, Login(users, payload, crypto, now, config).value.accessToken, later) == Ok(users[k])
  {
  }

  /**
    Verification is what separates the 403 from a token: with the right
    password an inactive account gets a 403, and the same account once its
    `is_active` is set (what `VerifyEmail` does) gets a token.
   */
  lemma VerificationUnlocksLogin(users: map<int, User>, k: int, payload: UserLogin, crypto: Crypto, now: int, config: Config)
    requires ValidUsers(users) && k in users && !users[k].isActive
    requires users[k].username == payload.username && crypto.verify(payload.password, users[k].hashedPassword)
    ensures Login(users, payload, crypto, now, config) == Err(EmailNotVerified)
    ensures ValidUsers(users[k := users[k].(isActive := true)])
    ensures Login(users[k := users[k].(isActive := true)], payload, crypto, now, config).Ok?
  {
  }
}
