/**
 * The controller advice: one exhaustive translation from the failure an
 * endpoint raised to the HTTP status and the JSON error body it is answered with.
 */
module ExceptionHandling {
  import opened Wrappers
  import opened Dto
  import Text

  /** The HTTP statuses the service answers with. */
  datatype HttpStatus = OK | Created | NoContent | BadRequest | NotFound | InternalServerError
  {
    function Code(): int
    {
      match this
      case OK => 200
      case Created => 201
      case NoContent => 204
      case BadRequest => 400
      case NotFound => 404
      case InternalServerError => 500
    }

    function ReasonPhrase(): string
    {
      match this
      case OK => "OK"
      case Created => "Created"
      case NoContent => "No Content"
      case BadRequest => "Bad Request"
      case NotFound => "Not Found"
      case InternalServerError => "Internal Server Error"
    }
  }

  /** The failure kinds the advice has a handler for, most specific first. */
  datatype Exception =
    | MethodArgumentNotValid(errors: seq<ObjectError>)
      /** TaskNotFoundException, with its message */
    | TaskNotFound(message: string)
      /** DataAccessException, with the message of its most specific cause (possibly null) */
    | DataAccess(causeMessage: Option<string>)
      /** any other exception, with its message (possibly null) */
    | Other(exceptionMessage: Option<string>)

  /** LocalDateTime.now() as read by the handler; the model only carries it through. */
  type Timestamp = int

  datatype ErrorResponse = ErrorResponse(
    timestamp: Timestamp,
    status: int,
    error: string,
    message: string,
    path: string,
    fieldErrors: Option<seq<string>>)

  /** ResponseEntity<ErrorResponse>: a body and the status it is sent with. */
  datatype ErrorEntity = ErrorEntity(body: ErrorResponse, status: HttpStatus)

  const ValidationFailedMessage := "Validation failed"
  const DatabaseErrorPrefix := "A database error occurred: "
  const UnexpectedErrorPrefix := "An unexpected error occurred: "

  /** Java string concatenation renders a null reference as "null". */
  function JavaString(s: Option<string>): string
  {
    if s.Some? then s.value else "null"
  }

  /** One field-error entry: the field (or, for an object-level error, the object name), ": ", the message. */
  function Describe(e: ObjectError): string
  {
    match e
    case FieldError(field, message) => field + ": " + message
    case GlobalError(objectName, message) => objectName + ": " + message
  }

  function DescribeAll(errors: seq<ObjectError>): seq<string>
  {
    seq(|errors|, i requires 0 <= i < |errors| => Describe(errors[i]))
  }

  /** request.getDescription(false).replace("uri=", ""). */
  function PathOf(description: string): string
  {
    Text.RemoveAll(description, "uri=")
  }

  /** Translates a failure; only a validation failure carries a field-error list. */
  function Handle(ex: Exception, description: string, now: Timestamp): (e: ErrorEntity)
    ensures e.body.status == e.status.Code()
    ensures e.body.error == e.status.ReasonPhrase()
    ensures e.body.timestamp == now && e.body.path == PathOf(description)
    ensures e.status == BadRequest <==> ex.MethodArgumentNotValid?
    ensures e.status == NotFound <==> ex.TaskNotFound?
    ensures e.status == InternalServerError <==> ex.DataAccess? || ex.Other?
    ensures e.body.fieldErrors.Some? <==> ex.MethodArgumentNotValid?
    ensures ex.MethodArgumentNotValid? ==>
              && e.body.message == ValidationFailedMessage
              && |e.body.fieldErrors.value| == |ex.errors|
              && forall i :: 0 <= i < |ex.errors| ==> e.body.fieldErrors.value[i] == Describe(ex.errors[i])
    ensures ex.TaskNotFound? ==> e.body.message == ex.message
    ensures ex.DataAccess? ==> e.body.message == DatabaseErrorPrefix + JavaString(ex.causeMessage)
    ensures ex.Other? ==> e.body.message == UnexpectedErrorPrefix + JavaString(ex.exceptionMessage)
  {
    var path := PathOf(description);
    match ex
    case MethodArgumentNotValid(errors) =>
      ErrorEntity(
        ErrorResponse(now, BadRequest.Code(), BadRequest.ReasonPhrase(), ValidationFailedMessage, path,
                      Some(DescribeAll(errors))),
        BadRequest)
    case TaskNotFound(message) =>
      ErrorEntity(ErrorResponse(now, NotFound.Code(), NotFound.ReasonPhrase(), message, path, None), NotFound)
    case DataAccess(cause) =>
      ErrorEntity(
        ErrorResponse(now, InternalServerError.Code(), InternalServerError.ReasonPhrase(),
                      DatabaseErrorPrefix + JavaString(cause), path, None),
        InternalServerError)
    case Other(message) =>
      ErrorEntity(
        ErrorResponse(now, InternalServerError.Code(), InternalServerError.ReasonPhrase(),
                      UnexpectedErrorPrefix + JavaString(message), path, None),
        InternalServerError)
  }

  /** The request description "uri=<path>" yields <path>, for any path that does not itself hold "uri=". */
  lemma PathOfRequestDescription(path: string)
    requires !Text.Contains(path, "uri=")
    ensures PathOf("uri=" + path) == path
  {
    Text.RemoveAllPrefix("uri=", path);
    Text.RemoveAllAbsent(path, "uri=");
  }

  predicate NoColon(s: string)
  {
    forall i :: 0 <= i < |s| ==> s[i] != ':'
  }

  /** The first ':' of `s` is at index `n`. */
  ghost predicate FirstColonAt(s: string, n: int)
  {
    0 <= n < |s| && s[n] == ':' && NoColon(s[..n])
  }

  /**
   * For labels without ':', an entry names its label and its message: the
   * first ':' of "<label>: <message>" is the one after the label.
   */
  lemma EntryIsUnambiguous(la: string, ma: string, lb: string, mb: string)
    requires NoColon(la) && NoColon(lb)
    ensures la + ": " + ma == lb + ": " + mb <==> la == lb && ma == mb
  {
    var sa, sb := la + ": " + ma, lb + ": " + mb;
    if sa == sb {
      assert sa[..|la|] == la && sb[..|lb|] == lb;
      assert FirstColonAt(sa, |la|) && FirstColonAt(sb, |lb|);
      assert |la| == |lb|;
      assert ma == sa[|la| + 2..] && mb == sb[|lb| + 2..];
    }
  }
}
