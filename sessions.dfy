/**
 * Sessions: each holds the api key a client authenticates with.  Looking a
 * session up by its key enqueues a "session used" job, whose handler clamps
 * `last_accessed_at` to the current time.
 */
module Sessions {
  import opened Wrappers
  import opened Bits
  import opened Orm
  import opened AppErrors
  import opened Authentication
  import opened SnowflakeGenerator
  import opened SecretGenerator
  import opened Users

  datatype Session = Session(
    id: I64,
    userId: I64,
    apiKey: string,
    name: Option<string>,
    userAgent: Option<string>,
    lastAccessedAt: Option<Instant>,
    createdAt: Instant,
    updatedAt: Instant)

  datatype CreateSessionParams = CreateSessionParams(
    email: string, password: string, name: Option<string>, userAgent: Option<string>)

  /** `before_save` on `updated_at`: an update of an unchanged column stamps it with `now`. */
  function TouchUpdatedAt(updatedAt: ActiveValue<Instant>, insert: bool, now: Instant): (r: ActiveValue<Instant>)
    ensures !insert && updatedAt.IsUnchanged() ==> r == Set(now)
    ensures insert || !updatedAt.IsUnchanged() ==> r == updatedAt
  {
    if !insert && updatedAt.IsUnchanged() then Set(now) else updatedAt
  }

  /**
   * The `last_accessed_at` column after `update_last_accessed_at`: a time
   * later than `now` is clamped to `now`, any other time is kept, and an
   * absent one becomes `now`.
   */
  function ClampLastAccessed(v: ActiveValue<Option<Instant>>, now: Instant): (r: ActiveValue<Option<Instant>>)
    ensures (v.Set? || v.Unchanged?) && v.value.Some? && v.value.value > now ==> r == Set(Some(now))
    ensures (v.Set? || v.Unchanged?) && v.value.Some? && v.value.value <= now ==> r == v
    ensures v.NotSet? || ((v.Set? || v.Unchanged?) && v.value.None?) ==> r == Set(Some(now))
  {
    match v
    case Set(Some(t)) => if t > now then Set(Some(now)) else v
    case Unchanged(Some(t)) => if t > now then Set(Some(now)) else v
    case _ => Set(Some(now))
  }

  /** After the update the stored time is present and not later than `now`. */
  lemma ClampedNotLater(v: ActiveValue<Option<Instant>>, stored: Option<Instant>, now: Instant)
    requires v.Unchanged? ==> v.value == stored
    ensures Written(ClampLastAccessed(v, now), stored).Some?
    ensures Written(ClampLastAccessed(v, now), stored).value <= now
  {
  }

  /** A time that is not later is never moved forward (nor back). */
  lemma ClampKeepsEarlier(v: ActiveValue<Option<Instant>>, t: Instant, now: Instant)
    requires v == Unchanged(Some(t)) && t <= now
    ensures Written(ClampLastAccessed(v, now), Some(t)) == Some(t)
  {
  }

  ghost predicate UniqueIds(rows: seq<Session>) {
    forall i, j :: 0 <= i < j < |rows| ==> rows[i].id != rows[j].id
  }

  class SessionTable {
    var rows: seq<Session>
    /** The "session used" jobs enqueued, by session id. */
    var usedJobs: seq<I64>

    ghost predicate Valid()
      reads this
    {
      UniqueIds(rows)
    }

    constructor ()
      ensures rows == [] && usedJobs == [] && Valid()
    {
      rows, usedJobs := [], [];
    }

    /** `find_by_token`: the first session with that api key. */
    function FindByToken(apiKey: string): (r: Option<Session>)
      reads this
      ensures r.Some? ==> r.value in rows && r.value.apiKey == apiKey
      ensures r.None? <==> forall i :: 0 <= i < |rows| ==> rows[i].apiKey != apiKey
    {
      match FirstWhere(rows, (s: Session) => s.apiKey == apiKey)
      case Some(i) => Some(rows[i])
      case None => None
    }

    /** `find_by_id`: the session with that id, if any. */
    function FindById(id: I64): (r: Option<Session>)
      reads this
      ensures r.Some? ==> r.value in rows && r.value.id == id
      ensures r.None? <==> forall i :: 0 <= i < |rows| ==> rows[i].id != id
    {
      match FirstWhere(rows, (s: Session) => s.id == id)
      case Some(i) => Some(rows[i])
      case None => None
    }

    /**
     * `find_by_api_key`: an unknown key is an invalid bearer token; a known
     * one is marked as used.  `enqueue` is the outcome of queueing the
     * "session used" job, whose error `?` turns into an `AppError`.
     */
    method FindByApiKey(apiKey: string, enqueue: Result<(), LocoError>) returns (r: Result<Session, ApiError>)
      modifies this
      ensures rows == old(rows)
      ensures old(FindByToken(apiKey)).None? ==> r == Err(InvalidBearerToken) && usedJobs == old(usedJobs)
      ensures old(FindByToken(apiKey)).Some? && enqueue.Err? ==>
                r == Err(App(FromLocoError(enqueue.error))) && usedJobs == old(usedJobs)
      ensures old(FindByToken(apiKey)).Some? && enqueue.Ok? ==>
                r == Ok(old(FindByToken(apiKey)).value) && usedJobs == old(usedJobs) + [r.value.id]
    {
      var found := FindByToken(apiKey);
      if found.None? {
        return Err(InvalidBearerToken);
      }
      if enqueue.Err? {
        return Err(App(FromLocoError(enqueue.error)));
      }
      usedJobs := usedJobs + [found.value.id];
      r := Ok(found.value);
    }

    /** `Authenticated::from_request_parts` for sessions: extract the key, then look it up. */
    method Authenticate(headers: HeaderMap, enqueue: Result<(), LocoError>) returns (r: Result<Session, ApiError>)
      modifies this
      ensures rows == old(rows)
      ensures ExtractApiKey(headers).Err? ==>
                r == Err(ExtractApiKey(headers).error) && usedJobs == old(usedJobs)
      ensures ExtractApiKey(headers).Ok? && old(FindByToken(ExtractApiKey(headers).value)).None? ==>
                r == Err(InvalidBearerToken) && usedJobs == old(usedJobs)
      ensures ExtractApiKey(headers).Ok? && old(FindByToken(ExtractApiKey(headers).value)).Some? && enqueue.Err? ==>
                r == Err(App(FromLocoError(enqueue.error))) && usedJobs == old(usedJobs)
      ensures ExtractApiKey(headers).Ok? && old(FindByToken(ExtractApiKey(headers).value)).Some? && enqueue.Ok? ==>
                r == Ok(old(FindByToken(ExtractApiKey(headers).value)).value) &&
                usedJobs == old(usedJobs) + [r.value.id]
    {
      var key := ExtractApiKey(headers);
      if key.Err? {
        return Err(key.error);
      }
      r := FindByApiKey(key.value, enqueue);
    }

    /**
     * `create_session`: a new session for `user` with the next snowflake id
     * and a freshly generated api key, never accessed yet.  The insert fails
     * on a taken id.
     */
    method CreateSession(nextId: Result<I64, GeneratorError>, secrets: SecretGeneratorInner, random: Block32,
                         sha256: seq<Byte> -> Block32, user: User, params: CreateSessionParams, now: Instant)
      returns (r: Result<Session, ApiError>)
      requires Valid()
      modifies this
      ensures Valid() && usedJobs == old(usedJobs)
      ensures nextId.Err? ==> r == Err(NEXT_ID_FAILED)
      ensures nextId.Err? ==> r.error.error == AppError(500, GENERAL_INTERNAL_SERVER_ERROR, UNKNOWN_ERROR_DETAILS)
      ensures r.Ok? <==> nextId.Ok? && forall i :: 0 <= i < |old(rows)| ==> old(rows)[i].id != nextId.value
      ensures r.Ok? ==> r.value == Session(nextId.value, user.id, FullToken(secrets.handler.GetInstanceId(), random, sha256),
                                           params.name, params.userAgent, None, now, now)
      ensures r.Ok? ==> |r.value.apiKey| == 44 && rows == old(rows) + [r.value]
      ensures r.Err? ==> rows == old(rows)
    {
      if nextId.Err? {
        return Err(NEXT_ID_FAILED);
      }
      var id := nextId.value;
      var apiKey := secrets.GenerateToken(random, sha256);
      var taken := FirstWhere(rows, (s: Session) => s.id == id);
      if taken.Some? {
        return Err(DatabaseError);
      }
      var session := Session(id, user.id, apiKey, params.name, params.userAgent, None, now, now);
      rows := rows + [session];
      r := Ok(session);
    }

    /**
     * `update_last_accessed_at` on the active model of the session with key
     * `id`, whose other columns are unchanged: the clamped time is written
     * if it was set, and `updated_at` is stamped by `before_save`.
     */
    method UpdateLastAccessedAt(id: I64, lastAccessed: ActiveValue<Option<Instant>>, now: Instant)
      returns (r: Result<Session, ApiError>)
      requires Valid()
      modifies this
      ensures Valid() && usedJobs == old(usedJobs)
      ensures (forall i :: 0 <= i < |old(rows)| ==> old(rows)[i].id != id) ==> r == Err(DatabaseError) && rows == old(rows)
      ensures r.Ok? ==>
                exists i :: 0 <= i < |old(rows)| && old(rows)[i].id == id &&
                  r.value == old(rows)[i].(lastAccessedAt := Written(ClampLastAccessed(lastAccessed, now),
                                                                      old(rows)[i].lastAccessedAt),
                                           updatedAt := now) &&
                  rows == old(rows)[i := r.value]
      ensures (exists i :: 0 <= i < |old(rows)| && old(rows)[i].id == id) ==> r.Ok?
    {
      var at := FirstWhere(rows, (s: Session) => s.id == id);
      if at.None? {
        return Err(DatabaseError);
      }
      var i := at.value;
      var stamped := TouchUpdatedAt(Unchanged(rows[i].updatedAt), false, now);
      var row := rows[i].(lastAccessedAt := Written(ClampLastAccessed(lastAccessed, now), rows[i].lastAccessedAt),
                          updatedAt := Written(stamped, rows[i].updatedAt));
      rows := rows[i := row];
      r := Ok(row);
    }

    /**
     * The "session used" job: a session that still exists gets its access
     * time set to `now` when absent, clamped down to `now` when later, and
     * otherwise kept; a deleted one is skipped.
     */
    method PerformSessionUsed(sessionId: I64, now: Instant) returns (updated: Option<Session>)
      requires Valid()
      modifies this
      ensures Valid() && usedJobs == old(usedJobs)
      ensures old(FindById(sessionId)).None? ==> updated.None? && rows == old(rows)
      ensures old(FindById(sessionId)).Some? ==> updated.Some? && updated.value.id == sessionId
      ensures updated.Some? ==>
                exists i :: 0 <= i < |old(rows)| && old(rows)[i].id == sessionId &&
                  rows == old(rows)[i := updated.value] &&
                  updated.value == old(rows)[i].(lastAccessedAt := updated.value.lastAccessedAt, updatedAt := now)
      ensures updated.Some? ==> updated.value.lastAccessedAt.Some? && updated.value.lastAccessedAt.value <= now
      ensures updated.Some? && (old(FindById(sessionId)).value.lastAccessedAt.None? ||
                                old(FindById(sessionId)).value.lastAccessedAt.value > now) ==>
                updated.value.lastAccessedAt == Some(now)
      ensures updated.Some? && old(FindById(sessionId)).value.lastAccessedAt.Some? &&
              old(FindById(sessionId)).value.lastAccessedAt.value <= now ==>
                updated.value.lastAccessedAt == old(FindById(sessionId)).value.lastAccessedAt
    {
      var found := FindById(sessionId);
      if found.None? {
        return None;
      }
      var session := found.value;
      ghost var k :| 0 <= k < |rows| && rows[k] == session;
      ClampedNotLater(Unchanged(session.lastAccessedAt), session.lastAccessedAt, now);
      var r := UpdateLastAccessedAt(sessionId, Unchanged(session.lastAccessedAt), now);
      if r.Err? {
        assert false;
        return None;
      }
      updated := Some(r.value);
    }
  }
}
