/**
 * The session endpoints: logging in with e-mail and password, and reading
 * the session a bearer token belongs to.
 */
module SessionController {
  import opened Wrappers
  import opened Bits
  import opened Orm
  import opened AppErrors
  import opened Authentication
  import opened SnowflakeGenerator
  import opened SecretGenerator
  import opened Users
  import opened Sessions
  import opened Routes

  const CREATED := 201
  const OK := 200

  /** What the checks of `create` conclude before anything is written. */
  datatype LoginDecision = Rejected(error: ApiError) | Accepted(user: User)

  /**
   * The checks of `create`, in their order: the parameters are validated,
   * the user is looked up by e-mail, the e-mail must be verified, and only
   * then is the password compared with the stored hash.
   */
  function Decide(params: CreateSessionParams, valid: bool, found: Option<User>,
                  verifyPassword: (string, string) -> bool): (d: LoginDecision)
    ensures d.Accepted? ==> found == Some(d.user) && d.user.emailVerifiedAt.Some? &&
                            verifyPassword(params.password, d.user.password)
    ensures d.Rejected? ==> d.error in {ValidationFailed, InvalidEmailOrPassword, EmailNotVerified}
  {
    if !valid then Rejected(ValidationFailed)
    else if found.None? then Rejected(InvalidEmailOrPassword)
    else if found.value.emailVerifiedAt.None? then Rejected(EmailNotVerified)
    else if !verifyPassword(params.password, found.value.password) then Rejected(InvalidEmailOrPassword)
    else Accepted(found.value)
  }

  /** Invalid parameters are rejected whatever the lookup would have found. */
  lemma ValidationComesFirst(params: CreateSessionParams, found: Option<User>, verifyPassword: (string, string) -> bool)
    ensures Decide(params, false, found, verifyPassword) == Rejected(ValidationFailed)
  {
  }

  /** An unknown e-mail is reported like a wrong password. */
  lemma UnknownEmailRejected(params: CreateSessionParams, verifyPassword: (string, string) -> bool)
    ensures Decide(params, true, None, verifyPassword) == Rejected(InvalidEmailOrPassword)
  {
  }

  /** An unverified user is told so whatever password was sent. */
  lemma UnverifiedWhateverPassword(params: CreateSessionParams, other: CreateSessionParams, user: User,
                                   verifyPassword: (string, string) -> bool, verifyOther: (string, string) -> bool)
    requires user.emailVerifiedAt.None?
    ensures Decide(params, true, Some(user), verifyPassword) == Rejected(EmailNotVerified)
    ensures Decide(params, true, Some(user), verifyPassword) == Decide(other, true, Some(user), verifyOther)
  {
  }

  /** A verified user with a wrong password gets the same error as an unknown e-mail. */
  lemma WrongPasswordRejected(params: CreateSessionParams, user: User, verifyPassword: (string, string) -> bool)
    requires user.emailVerifiedAt.Some? && !verifyPassword(params.password, user.password)
    ensures Decide(params, true, Some(user), verifyPassword) == Decide(params, true, None, verifyPassword)
  {
  }

  /** Valid parameters, a verified user and a matching password are accepted for that user. */
  lemma AcceptedExactlyWhenAllPass(params: CreateSessionParams, valid: bool, found: Option<User>,
                                   verifyPassword: (string, string) -> bool)
    ensures Decide(params, valid, found, verifyPassword).Accepted? <==>
              valid && found.Some? && found.value.emailVerifiedAt.Some? &&
              verifyPassword(params.password, found.value.password)
  {
  }

  /**
   * `create`: run the checks, then insert a session for the accepted user
   * and answer 201 with it.  Parameter validation (e-mail format and
   * password length) is supplied as `validate`, the argon2 check as
   * `verifyPassword`.
   */
  method Create(users: UserTable, sessions: SessionTable, params: CreateSessionParams,
                validate: CreateSessionParams -> bool, verifyPassword: (string, string) -> bool,
                nextId: Result<I64, GeneratorError>, secrets: SecretGeneratorInner, random: Block32,
                sha256: seq<Byte> -> Block32, now: Instant)
    returns (r: Result<(int, Session, User), ApiError>)
    requires sessions.Valid()
    modifies sessions
    ensures sessions.Valid() && sessions.usedJobs == old(sessions.usedJobs)
    ensures Decide(params, validate(params), users.FindByEmail(params.email), verifyPassword).Rejected? ==>
              r == Err(Decide(params, validate(params), users.FindByEmail(params.email), verifyPassword).error) &&
              sessions.rows == old(sessions.rows)
    ensures r.Ok? ==>
              Decide(params, validate(params), users.FindByEmail(params.email), verifyPassword) == Accepted(r.value.2) &&
              r.value.0 == CREATED && r.value.1.userId == r.value.2.id && r.value.1.lastAccessedAt.None? &&
              nextId == Ok(r.value.1.id) && sessions.rows == old(sessions.rows) + [r.value.1]
    ensures nextId.Err? && Decide(params, validate(params), users.FindByEmail(params.email), verifyPassword).Accepted? ==>
              r == Err(NEXT_ID_FAILED)
    ensures Decide(params, validate(params), users.FindByEmail(params.email), verifyPassword).Accepted? &&
            nextId.Ok? && (forall i :: 0 <= i < |old(sessions.rows)| ==> old(sessions.rows)[i].id != nextId.value) ==>
              var user := Decide(params, validate(params), users.FindByEmail(params.email), verifyPassword).user;
              r == Ok((CREATED, Session(nextId.value, user.id, FullToken(secrets.handler.GetInstanceId(), random, sha256),
                                        params.name, params.userAgent, None, now, now), user))
    ensures r.Err? ==> sessions.rows == old(sessions.rows)
  {
    var decision := Decide(params, validate(params), users.FindByEmail(params.email), verifyPassword);
    if decision.Rejected? {
      return Err(decision.error);
    }
    var user := decision.user;
    var session := sessions.CreateSession(nextId, secrets, random, sha256, user, params, now);
    if session.Err? {
      return Err(session.error);
    }
    r := Ok((CREATED, session.value, user));
  }

  /** `current`: the authenticated session together with the user owning it. */
  function Current(users: UserTable, session: Session): (r: Result<(int, Session, User), ApiError>)
    reads users
    ensures r.Ok? ==> r.value.0 == OK && r.value.1 == session && r.value.2.id == session.userId &&
                      r.value.2 in users.rows
    ensures r.Err? <==> forall i :: 0 <= i < |users.rows| ==> users.rows[i].id != session.userId
    ensures r.Err? ==> r.error == EntityNotFound
  {
    match users.FindById(session.userId)
    case Ok(user) => Ok((OK, session, user))
    case Err(e) => Err(e)
  }

  /**
   * A `GET /sessions/current` request: the bearer token is resolved first,
   * then its owner.  `enqueue` is the outcome of queueing the "session used" job.
   */
  method HandleCurrent(users: UserTable, sessions: SessionTable, headers: HeaderMap, enqueue: Result<(), LocoError>)
    returns (r: Result<(int, Session, User), ApiError>)
    modifies sessions
    ensures sessions.rows == old(sessions.rows)
    ensures ExtractApiKey(headers).Err? ==> r == Err(ExtractApiKey(headers).error)
    ensures ExtractApiKey(headers).Ok? && old(sessions.FindByToken(ExtractApiKey(headers).value)).None? ==>
              r == Err(InvalidBearerToken)
    ensures ExtractApiKey(headers).Ok? && old(sessions.FindByToken(ExtractApiKey(headers).value)).Some? && enqueue.Err? ==>
              r == Err(App(FromLocoError(enqueue.error)))
    ensures ExtractApiKey(headers).Ok? && old(sessions.FindByToken(ExtractApiKey(headers).value)).Some? && enqueue.Ok? ==>
              r == Current(users, old(sessions.FindByToken(ExtractApiKey(headers).value)).value)
    ensures ExtractApiKey(headers).Ok? && old(sessions.FindByToken(ExtractApiKey(headers).value)).Some? && enqueue.Ok? ==>
              sessions.usedJobs == old(sessions.usedJobs) + [old(sessions.FindByToken(ExtractApiKey(headers).value)).value.id]
    ensures ExtractApiKey(headers).Err? || old(sessions.FindByToken(ExtractApiKey(headers).value)).None? || enqueue.Err? ==>
              sessions.usedJobs == old(sessions.usedJobs)
  {
    var session := sessions.Authenticate(headers, enqueue);
    if session.Err? {
      return Err(session.error);
    }
    r := Current(users, session.value);
  }

  /** `routes`: login under `/sessions/`, the current session under `/sessions/current`. */
  const ROUTES := RouteGroup(Some("/sessions"), [Handler(Post, "/"), Handler(Get, "/current")])
}
