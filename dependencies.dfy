/**
  Token minting and checking, and the identity resolver that turns a bearer
  token into the current user. A token is a claims record plus one abstract
  flag saying whether its signature checks out under the process secret;
  `now` is the clock in whole seconds.
 */
module Dependencies {
  import opened Wrappers
  import opened Http
  import opened Models
  import opened Store

  /** Password hashing and checking (bcrypt), left abstract. */
  datatype Crypto = Crypto(hash: string -> string, verify: (string, string) -> bool)

  /** The part of the configuration the tokens use. */
  datatype Config = Config(accessTokenExpireMinutes: int)

  const DefaultAccessTokenExpireMinutes := 30

  /** The configuration when ACCESS_TOKEN_EXPIRE_MINUTES is not set. */
  const DefaultConfig := Config(DefaultAccessTokenExpireMinutes)

  /** A verification token lives 24 hours. */
  const VerificationTokenLifetime := 24 * 60 * 60

  const EmailVerificationType := "email_verification"

  /** The claims the application reads: `sub`, `type` and `exp`. */
  datatype Claims = Claims(sub: Option<string>, typ: Option<string>, exp: Option<int>)

  /** A presented token: its claims, and whether it is well formed and signed with the secret. */
  datatype Jwt = Jwt(validSignature: bool, claims: Claims)

  const InvalidToken := HttpError(Unauthorized, "Invalid token")
  const UserNotFoundForToken := HttpError(Unauthorized, "User not found")
  const InvalidTokenType := HttpError(BadRequest, "Invalid token type")
  const InvalidVerificationToken := HttpError(BadRequest, "Invalid token")
  const ExpiredVerificationToken := HttpError(BadRequest, "Invalid or expired verification token")

  /** A token whose `exp` lies before `now`; a token without `exp` never expires. */
  predicate Expired(c: Claims, now: int)
  {
    c.exp.Some? && c.exp.value < now
  }

  /** Decoding with the secret: fails (JWTError) on a bad signature or an expired token. */
  function Decode(t: Jwt, now: int): (r: Option<Claims>)
    ensures r.Some? <==> t.validSignature && !Expired(t.claims, now)
    ensures r.Some? ==> r.value == t.claims
  {
    if t.validSignature && !Expired(t.claims, now) then Some(t.claims) else None
  }

  /** Signing claims with the secret. */
  function Encode(c: Claims): (t: Jwt)
    ensures forall now :: !Expired(c, now) ==> Decode(t, now) == Some(c)
    ensures forall now :: Expired(c, now) ==> Decode(t, now) == None
  {
    Jwt(true, c)
  }

  /**
    An access token: the caller's claims with `exp` replaced by the moment
    the configured number of minutes from now. It decodes to those claims up
    to that moment and not after.
   */
  function CreateAccessToken(data: Claims, now: int, config: Config): (t: Jwt)
    ensures t.claims.sub == data.sub && t.claims.typ == data.typ
    ensures t.claims.exp == Some(now + config.accessTokenExpireMinutes * 60)
    ensures forall later :: Decode(t, later).Some? <==> later <= now + config.accessTokenExpireMinutes * 60
  {
    Encode(data.(exp := Some(now + config.accessTokenExpireMinutes * 60)))
  }

  /**
    The `sub` of a verification token, or a 400. Succeeds exactly on a
    validly signed, unexpired token of type "email_verification" that has a
    subject; the checks run in that order.
   */
  function DecodeVerificationToken(t: Jwt, now: int): (r: Result<string>)
    ensures r.Ok? <==>
      t.validSignature && !Expired(t.claims, now) &&
      t.claims.typ == Some(EmailVerificationType) && t.claims.sub.Some?
    ensures r.Ok? ==> r.value == t.claims.sub.value
    ensures r.Err? ==> r.error.status == BadRequest
    ensures Decode(t, now).None? ==> r == Err(ExpiredVerificationToken)
    ensures Decode(t, now).Some? && t.claims.typ != Some(EmailVerificationType) ==> r == Err(InvalidTokenType)
  {
    match Decode(t, now)
    case None => Err(ExpiredVerificationToken)
    case Some(payload) =>
      if payload.typ != Some(EmailVerificationType) then Err(InvalidTokenType)
      else if payload.sub.None? then Err(InvalidVerificationToken)
      else Ok(payload.sub.value)
  }

  /**
    A verification token for `email`: subject the email, type
    "email_verification", and it decodes back to the email for 24 hours and
    is refused as expired after that.
   */
  function CreateVerificationToken(email: string, now: int): (t: Jwt)
    ensures t.claims == Claims(Some(email), Some(EmailVerificationType), Some(now + VerificationTokenLifetime))
    ensures forall later :: later <= now + VerificationTokenLifetime ==> DecodeVerificationToken(t, later) == Ok(email)
    ensures forall later :: later > now + VerificationTokenLifetime ==>
      DecodeVerificationToken(t, later) == Err(ExpiredVerificationToken)
  {
    Encode(Claims(Some(email), Some(EmailVerificationType), Some(now + VerificationTokenLifetime)))
  }

  /**
    The identity resolver. Every failure is a 401: a token that does not
    decode, one of type "email_verification", one without a subject, or one
    whose subject is no user's username. Otherwise the one user with that
    username; whether the account is active is not looked at.
   */
  function GetCurrentUser(users: map<int, User>, t: Jwt, now: int): (r: Result<User>)
    requires ValidUsers(users)
    ensures r.Err? ==> r.error.status == Unauthorized
    ensures r.Ok? <==>
      && t.validSignature && !Expired(t.claims, now)
      && t.claims.typ != Some(EmailVerificationType) && t.claims.sub.Some?
      && exists k :: k in users && users[k].username == t.claims.sub.value
    ensures r.Ok? ==> r.value.id in users && users[r.value.id] == r.value
    ensures r.Ok? ==> r.value.username == t.claims.sub.value
  {
    match Decode(t, now)
    case None => Err(InvalidToken)
    case Some(payload) =>
      if payload.typ == Some(EmailVerificationType) then Err(InvalidToken)
      else if payload.sub.None? then Err(InvalidToken)
      else match UserIdByUsername(users, payload.sub.value)
        case None => Err(UserNotFoundForToken)
        case Some(k) => Ok(users[k])
  }

  /** An access token (it has no `type`) is never accepted as a verification token. */
  lemma AccessTokenIsNoVerificationToken(data: Claims, issued: int, config: Config, now: int)
    requires data.typ.None?
    ensures DecodeVerificationToken(CreateAccessToken(data, issued, config), now).Err?
  {
  }

  /** A verification token is never accepted as a session token, even unexpired. */
  lemma VerificationTokenIsNoSessionToken(users: map<int, User>, email: string, issued: int, now: int)
    requires ValidUsers(users)
    ensures GetCurrentUser(users, CreateVerificationToken(email, issued), now) == Err(InvalidToken)
  {
  }

  /**
    An unexpired access token for a username resolves to that user, whether
    or not the account is active.
   */
  lemma AccessTokenResolvesToUser(users: map<int, User>, k: int, issued: int, config: Config, now: int)
    requires ValidUsers(users) && k in users
    requires now <= issued + config.accessTokenExpireMinutes * 60
    ensures GetCurrentUser(users, CreateAccessToken(Claims(Some(users[k].username), None, None), issued, config), now)
      == Ok(users[k])
  {
  }
}
