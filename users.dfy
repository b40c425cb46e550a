/**
 * User accounts: registration with a hashed password, the e-mail
 * verification and password-reset tokens, and the e-mail lookups.  Password
 * hashing is supplied by the caller and may fail.
 */
module Users {
  import opened Wrappers
  import opened Bits
  import opened Orm
  import opened AppErrors
  import opened SnowflakeGenerator
  import opened SecretGenerator

  /** The account flags, a bit set stored as an i32. */
  const ADMIN_FLAG := 1
  const USER_FLAG := 2
  /** The flags a new account gets: `User`. */
  const DEFAULT_FLAGS := USER_FLAG

  /** The length of the verification and reset tokens. */
  const EMAIL_VERIFICATION_TOKEN_LENGTH: nat := 8

  /**
   * A failed `hash_password` in `create_with_password`: the framework's hash
   * error passes through `From<LocoError>`, which maps it to the general
   * internal error with the unknown-error details.
   */
  const CREATE_HASH_FAILED := App(FromLocoError(Other("Hash")))
  const RESET_TOKEN_LENGTH: nat := 8

  datatype User = User(
    id: I64,
    email: string,
    name: string,
    flags: int,
    password: string,
    resetToken: Option<string>,
    resetSentAt: Option<Instant>,
    emailVerificationToken: Option<string>,
    emailVerificationSentAt: Option<Instant>,
    emailVerifiedAt: Option<Instant>,
    createdAt: Instant,
    updatedAt: Instant)

  datatype RegisterParams = RegisterParams(email: string, password: string, name: string)

  /** The columns no lifecycle step touches. */
  predicate SameAccount(u: User, v: User) {
    v.id == u.id && v.email == u.email && v.name == u.name && v.flags == u.flags && v.createdAt == u.createdAt
  }

  /**
   * `before_save` on an insert of an active model that sets neither
   * timestamp: both become `now`.  On an update of a loaded user
   * `updated_at` is unchanged, hence not set, and becomes `now`.
   */
  function NewUser(id: I64, params: RegisterParams, passwordHash: string, now: Instant): (u: User)
    ensures u.id == id && u.email == params.email && u.name == params.name && u.password == passwordHash
    ensures u.flags == DEFAULT_FLAGS
    ensures u.resetToken.None? && u.resetSentAt.None?
    ensures u.emailVerificationToken.None? && u.emailVerificationSentAt.None? && u.emailVerifiedAt.None?
    ensures u.createdAt == now && u.updatedAt == now
  {
    User(id, params.email, params.name, DEFAULT_FLAGS, passwordHash, None, None, None, None, None, now, now)
  }

  /** The row after `set_email_verification_sent`. */
  function EmailVerificationSent(u: User, now: Instant, token: string): (v: User)
    ensures SameAccount(u, v)
    ensures v.emailVerificationSentAt == Some(now) && v.emailVerificationToken == Some(token) && v.updatedAt == now
    ensures v.password == u.password && v.resetToken == u.resetToken && v.resetSentAt == u.resetSentAt
    ensures v.emailVerifiedAt == u.emailVerifiedAt
  {
    u.(emailVerificationSentAt := Some(now), emailVerificationToken := Some(token), updatedAt := now)
  }

  /** The row after `set_forgot_password_sent`. */
  function ForgotPasswordSent(u: User, now: Instant, token: string): (v: User)
    ensures SameAccount(u, v)
    ensures v.resetSentAt == Some(now) && v.resetToken == Some(token) && v.updatedAt == now
    ensures v.password == u.password && v.emailVerificationToken == u.emailVerificationToken
    ensures v.emailVerificationSentAt == u.emailVerificationSentAt && v.emailVerifiedAt == u.emailVerifiedAt
  {
    u.(resetSentAt := Some(now), resetToken := Some(token), updatedAt := now)
  }

  /** The row after `verified`. */
  function Verified(u: User, now: Instant): (v: User)
    ensures SameAccount(u, v)
    ensures v.emailVerifiedAt == Some(now) && v.emailVerificationToken.None? && v.updatedAt == now
    ensures v.emailVerificationSentAt == u.emailVerificationSentAt
    ensures v.password == u.password && v.resetToken == u.resetToken && v.resetSentAt == u.resetSentAt
  {
    u.(emailVerifiedAt := Some(now), emailVerificationToken := None, updatedAt := now)
  }

  /** The row after `reset_password` with the new hash. */
  function PasswordReset(u: User, passwordHash: string, now: Instant): (v: User)
    ensures SameAccount(u, v)
    ensures v.password == passwordHash && v.resetToken.None? && v.resetSentAt.None? && v.updatedAt == now
    ensures v.emailVerificationToken == u.emailVerificationToken
    ensures v.emailVerificationSentAt == u.emailVerificationSentAt && v.emailVerifiedAt == u.emailVerifiedAt
  {
    u.(password := passwordHash, resetToken := None, resetSentAt := None, updatedAt := now)
  }

  /** Verifying after the verification mail clears the token and keeps when it was sent. */
  lemma VerifyAfterSent(u: User, sentAt: Instant, token: string, now: Instant)
    ensures Verified(EmailVerificationSent(u, sentAt, token), now)
            == u.(emailVerificationSentAt := Some(sentAt), emailVerificationToken := None,
                  emailVerifiedAt := Some(now), updatedAt := now)
  {
  }

  /** A reset after the forgot-password mail restores the reset columns of an account that had none. */
  lemma ResetAfterForgot(u: User, sentAt: Instant, token: string, hash: string, now: Instant)
    requires u.resetToken.None? && u.resetSentAt.None?
    ensures PasswordReset(ForgotPasswordSent(u, sentAt, token), hash, now) == u.(password := hash, updatedAt := now)
  {
  }

  /** The rows of the `users` table: id and e-mail are both unique. */
  ghost predicate UniqueUsers(rows: seq<User>) {
    forall i, j :: 0 <= i < j < |rows| ==> rows[i].id != rows[j].id && rows[i].email != rows[j].email
  }

  /** The number of rows with an e-mail, as the `count` query returns it. */
  function CountEmail(rows: seq<User>, email: string): (n: nat)
    ensures n <= |rows|
  {
    if rows == [] then 0 else (if rows[0].email == email then 1 else 0) + CountEmail(rows[1..], email)
  }

  lemma {:induction false} CountEmailZero(rows: seq<User>, email: string)
    ensures CountEmail(rows, email) == 0 <==> forall i :: 0 <= i < |rows| ==> rows[i].email != email
  {
    if rows != [] {
      CountEmailZero(rows[1..], email);
      assert forall i :: 1 <= i < |rows| ==> rows[i] == rows[1..][i - 1];
    }
  }

  class UserTable {
    var rows: seq<User>

    ghost predicate Valid()
      reads this
    {
      UniqueUsers(rows)
    }

    constructor ()
      ensures rows == [] && Valid()
    {
      rows := [];
    }

    /** `find_by_email`. */
    function FindByEmail(email: string): (r: Option<User>)
      reads this
      ensures r.Some? ==> r.value in rows && r.value.email == email
      ensures r.None? <==> forall i :: 0 <= i < |rows| ==> rows[i].email != email
    {
      match FirstWhere(rows, (u: User) => u.email == email)
      case Some(i) => Some(rows[i])
      case None => None
    }

    /** `find_by_id`: the user or `EntityNotFound`. */
    function FindById(id: I64): (r: Result<User, ApiError>)
      reads this
      ensures r.Ok? ==> r.value in rows && r.value.id == id
      ensures r.Err? <==> forall i :: 0 <= i < |rows| ==> rows[i].id != id
      ensures r.Err? ==> r.error == EntityNotFound
    {
      match FirstWhere(rows, (u: User) => u.id == id)
      case Some(i) => Ok(rows[i])
      case None => Err(EntityNotFound)
    }

    /** `is_email_unique`: whether counting the rows with that e-mail gives zero. */
    function IsEmailUnique(email: string): (unique: bool)
      reads this
      ensures unique <==> forall i :: 0 <= i < |rows| ==> rows[i].email != email
    {
      CountEmailZero(rows, email);
      CountEmail(rows, email) == 0
    }

    /**
     * `create_with_password`: hash the password, take the next id, insert.
     * The insert fails on a taken id or e-mail (the unique columns).
     */
    method CreateWithPassword(params: RegisterParams, hashPassword: string -> Option<string>,
                              nextId: Result<I64, GeneratorError>, now: Instant)
      returns (r: Result<User, ApiError>)
      requires Valid()
      modifies this
      ensures Valid()
      ensures hashPassword(params.password).None? ==> r == Err(CREATE_HASH_FAILED) && rows == old(rows)
      ensures hashPassword(params.password).None? ==>
                r.error.error == AppError(500, GENERAL_INTERNAL_SERVER_ERROR, UNKNOWN_ERROR_DETAILS)
      ensures hashPassword(params.password).Some? && nextId.Err? ==> r == Err(IdGenerationFailed) && rows == old(rows)
      ensures r.Ok? <==> hashPassword(params.password).Some? && nextId.Ok? &&
                         (forall i :: 0 <= i < |old(rows)| ==>
                            old(rows)[i].id != nextId.value && old(rows)[i].email != params.email)
      ensures r.Ok? ==> r.value == NewUser(nextId.value, params, hashPassword(params.password).value, now) &&
                        rows == old(rows) + [r.value]
      ensures r.Err? ==> rows == old(rows)
    {
      var hash := hashPassword(params.password);
      if hash.None? {
        return Err(CREATE_HASH_FAILED);
      }
      if nextId.Err? {
        return Err(IdGenerationFailed);
      }
      var id := nextId.value;
      var taken := FirstWhere(rows, (u: User) => u.id == id || u.email == params.email);
      if taken.Some? {
        return Err(DatabaseError);
      }
      var user := NewUser(id, params, hash.value, now);
      rows := rows + [user];
      r := Ok(user);
    }

    /** Write a changed row for `user`'s key, or fail with the ORM's "record not updated". */
    method UpdateRow(id: I64, change: User -> User) returns (r: Result<User, ApiError>)
      requires Valid()
      requires forall u :: SameAccount(u, change(u))
      modifies this
      ensures Valid()
      ensures old(FindById(id)).Err? ==> r == Err(DatabaseError) && rows == old(rows)
      ensures old(FindById(id)).Ok? ==>
                exists i :: 0 <= i < |old(rows)| && old(rows)[i].id == id &&
                  r == Ok(change(old(rows)[i])) && rows == old(rows)[i := change(old(rows)[i])]
    {
      var at := FirstWhere(rows, (u: User) => u.id == id);
      if at.None? {
        return Err(DatabaseError);
      }
      var i := at.value;
      assert rows[i].id == id;
      var row := change(rows[i]);
      assert SameAccount(rows[i], row);
      rows := rows[i := row];
      r := Ok(row);
    }

    /** `set_email_verification_sent`: record the time and an 8-character token. */
    method SetEmailVerificationSent(user: User, secrets: SecretGeneratorInner, random: Block32,
                                    sha256: seq<Byte> -> Block32, now: Instant)
      returns (r: Result<User, ApiError>)
      requires Valid()
      modifies this
      ensures Valid()
      ensures old(FindById(user.id)).Err? ==> r == Err(DatabaseError) && rows == old(rows)
      ensures old(FindById(user.id)).Ok? ==> r.Ok?
      ensures r.Ok? ==> r.value.emailVerificationToken.Some? && |r.value.emailVerificationToken.value| == 8 &&
                        r.value.emailVerificationToken.value ==
                          Take(FullToken(secrets.handler.GetInstanceId(), random, sha256), EMAIL_VERIFICATION_TOKEN_LENGTH) &&
                        exists i :: 0 <= i < |old(rows)| && old(rows)[i].id == user.id &&
                          r.value == EmailVerificationSent(old(rows)[i], now, r.value.emailVerificationToken.value) &&
                          rows == old(rows)[i := r.value]
    {
      var token := secrets.GenerateTokenWithLength(EMAIL_VERIFICATION_TOKEN_LENGTH, random, sha256);
      r := UpdateRow(user.id, u => EmailVerificationSent(u, now, token));
    }

    /** `set_forgot_password_sent`: record the time and an 8-character reset token. */
    method SetForgotPasswordSent(user: User, secrets: SecretGeneratorInner, random: Block32,
                                 sha256: seq<Byte> -> Block32, now: Instant)
      returns (r: Result<User, ApiError>)
      requires Valid()
      modifies this
      ensures Valid()
      ensures old(FindById(user.id)).Err? ==> r == Err(DatabaseError) && rows == old(rows)
      ensures old(FindById(user.id)).Ok? ==> r.Ok?
      ensures r.Ok? ==> r.value.resetToken.Some? && |r.value.resetToken.value| == 8 &&
                        r.value.resetToken.value ==
                          Take(FullToken(secrets.handler.GetInstanceId(), random, sha256), RESET_TOKEN_LENGTH) &&
                        exists i :: 0 <= i < |old(rows)| && old(rows)[i].id == user.id &&
                          r.value == ForgotPasswordSent(old(rows)[i], now, r.value.resetToken.value) &&
                          rows == old(rows)[i := r.value]
    {
      var token := secrets.GenerateTokenWithLength(RESET_TOKEN_LENGTH, random, sha256);
      r := UpdateRow(user.id, u => ForgotPasswordSent(u, now, token));
    }

    /** `verified`: record the verification and drop the token. */
    method MarkVerified(user: User, now: Instant) returns (r: Result<User, ApiError>)
      requires Valid()
      modifies this
      ensures Valid()
      ensures old(FindById(user.id)).Err? ==> r == Err(DatabaseError) && rows == old(rows)
      ensures old(FindById(user.id)).Ok? ==>
                exists i :: 0 <= i < |old(rows)| && old(rows)[i].id == user.id &&
                  r == Ok(Verified(old(rows)[i], now)) && rows == old(rows)[i := Verified(old(rows)[i], now)]
    {
      r := UpdateRow(user.id, u => Verified(u, now));
    }

    /** `reset_password`: store the new hash and drop the reset token; a failed hash writes nothing. */
    method ResetPassword(user: User, password: string, hashPassword: string -> Option<string>, now: Instant)
      returns (r: Result<User, ApiError>)
      requires Valid()
      modifies this
      ensures Valid()
      ensures hashPassword(password).None? ==> r == Err(HashFailed) && rows == old(rows)
      ensures hashPassword(password).Some? && old(FindById(user.id)).Err? ==> r == Err(DatabaseError) && rows == old(rows)
      ensures hashPassword(password).Some? && old(FindById(user.id)).Ok? ==>
                exists i :: 0 <= i < |old(rows)| && old(rows)[i].id == user.id &&
                  r == Ok(PasswordReset(old(rows)[i], hashPassword(password).value, now)) &&
                  rows == old(rows)[i := PasswordReset(old(rows)[i], hashPassword(password).value, now)]
    {
      var hash := hashPassword(password);
      if hash.None? {
        return Err(HashFailed);
      }
      r := UpdateRow(user.id, u => PasswordReset(u, hash.value, now));
    }
  }
}
