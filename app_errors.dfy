/**
 * The API error record and the mapping from framework (loco) errors to it.
 * Error codes carry a number and a fixed message; the HTTP status is kept
 * beside them and is not part of the serialised body.
 */
module AppErrors {

  datatype ErrorCode = ErrorCode(code: int, message: string)

  const GENERAL_INTERNAL_SERVER_ERROR := ErrorCode(1000, "A general internal server error occurred.")
  const QUEUE_PROVIDER_MISSING := ErrorCode(3001, "No provider is configured for the queue.")
  const TASK_NOT_FOUND := ErrorCode(4001, "Task not found.")

  const INTERNAL_SERVER_ERROR := 500
  const NOT_FOUND := 404

  const QUEUE_PROVIDER_MISSING_DETAILS := "No provider is configured for the queue."
  const UNKNOWN_ERROR_DETAILS := "An unknown error occurred."

  datatype AppError = AppError(statusCode: int, errorCode: ErrorCode, details: string)

  function GeneralInternalServerError(msg: string): (e: AppError)
    ensures e.statusCode == 500 && e.errorCode.code == 1000 && e.details == msg
  {
    AppError(INTERNAL_SERVER_ERROR, GENERAL_INTERNAL_SERVER_ERROR, msg)
  }

  function QueueProviderMissing(): (e: AppError)
    ensures e.statusCode == 500 && e.errorCode.code == 3001
    ensures e.details == e.errorCode.message
  {
    AppError(INTERNAL_SERVER_ERROR, QUEUE_PROVIDER_MISSING, QUEUE_PROVIDER_MISSING_DETAILS)
  }

  function TaskNotFound(msg: string): (e: AppError)
    ensures e.statusCode == 404 && e.errorCode.code == 4001 && e.details == msg
  {
    AppError(NOT_FOUND, TASK_NOT_FOUND, msg)
  }

  /**
   * The framework's error. `Other` stands for every variant the mapping does
   * not name (database, IO, JSON, validation, ...), identified by its name.
   */
  datatype LocoError =
    | WithBacktrace(inner: LocoError)
    | Message(msg: string)
    | QueueProviderMissingError
    | TaskNotFoundError(task: string)
    | Other(variant: string)

  /** The error under all backtrace wrappers. */
  function Root(e: LocoError): (r: LocoError)
    ensures !r.WithBacktrace?
  {
    match e
    case WithBacktrace(inner) => Root(inner)
    case _ => e
  }

  /** `From<LocoError> for AppError`. */
  function FromLocoError(e: LocoError): (r: AppError)
    ensures r.statusCode == 500 || r.statusCode == 404
  {
    match e
    case WithBacktrace(inner) => FromLocoError(inner)
    case Message(msg) => GeneralInternalServerError(msg)
    case QueueProviderMissingError => QueueProviderMissing()
    case TaskNotFoundError(msg) => TaskNotFound(msg)
    case Other(_) => GeneralInternalServerError(UNKNOWN_ERROR_DETAILS)
  }

  /** Wrapping in backtraces does not change the mapped error. */
  lemma {:induction false} MappingSeesThroughBacktraces(e: LocoError)
    ensures FromLocoError(e) == FromLocoError(Root(e))
  {
    match e
    case WithBacktrace(inner) => MappingSeesThroughBacktraces(inner);
    case _ =>
  }

  /** What each unwrapped variant maps to. */
  lemma {:induction false} MappingByVariant(e: LocoError)
    ensures Root(e).Message? ==>
      FromLocoError(e) == AppError(500, GENERAL_INTERNAL_SERVER_ERROR, Root(e).msg)
    ensures Root(e).QueueProviderMissingError? ==>
      FromLocoError(e) == AppError(500, QUEUE_PROVIDER_MISSING, "No provider is configured for the queue.")
    ensures Root(e).TaskNotFoundError? ==>
      FromLocoError(e) == AppError(404, TASK_NOT_FOUND, Root(e).task)
    ensures Root(e).Other? ==>
      FromLocoError(e) == AppError(500, GENERAL_INTERNAL_SERVER_ERROR, "An unknown error occurred.")
  {
    MappingSeesThroughBacktraces(e);
  }

  /** Status 404 comes from a missing task and from nothing else. */
  lemma NotFoundOnlyForTasks(e: LocoError)
    ensures FromLocoError(e).statusCode == 404 <==> Root(e).TaskNotFoundError?
    ensures FromLocoError(e).errorCode.code in {1000, 3001, 4001}
  {
    MappingByVariant(e);
  }

  /**
   * The errors the authentication, session and user code returns.  `App` is
   * an error already converted to an `AppError`.  The others are the
   * database errors, the `ModelError`s of the user model and the rejections
   * of the authentication and login code, whose conversion into a response
   * is not part of this model, so only which error it is (and its message)
   * is modelled.
   */
  datatype ApiError =
    | App(error: AppError)
    | AuthHeaderMissing
    | InvalidHeaderValue(msg: string)
    | InvalidBearerToken
    | InvalidEmailOrPassword
    | EmailNotVerified
    | ValidationFailed
    /** The model error `create_with_password` wraps a failed id in. */
    | IdGenerationFailed
    | EntityNotFound
    | DatabaseError
    /** The model error `reset_password` wraps a failed password hash in. */
    | HashFailed

  /**
   * A failed `next_id()?` in a function returning `AppResult`: the
   * generator's `Error::Any` is a framework error the mapping does not
   * name, so `From<LocoError>` turns it into the general internal error
   * with the unknown-error details.
   */
  const NEXT_ID_FAILED := App(FromLocoError(Other("Any")))

  /** A failed id answers 500 with code 1000 and the unknown-error details. */
  lemma NextIdFailedIsUnknownError()
    ensures NEXT_ID_FAILED.error == AppError(500, GENERAL_INTERNAL_SERVER_ERROR, UNKNOWN_ERROR_DETAILS)
  {
    MappingByVariant(Other("Any"));
  }
}
