/**
 * The handlers of core/exception_handlers.py and the dispatch `setup_exception_handlers`
 * registers: every exception that leaves a route is answered with a status and a standard
 * error body built by `create_error_response`.
 */
module ExceptionHandlers {
  import opened Wrappers
  import opened Text
  import opened PyValue
  import opened StoreExceptions

  /** A `JSONResponse`: its status and its body. */
  datatype Response = Response(status: int, body: map<string, Value>)

  /** One entry of a validation error's `errors()`: its location, each part already passed
      through `str`, and its message. */
  datatype FieldError = FieldError(loc: seq<string>, msg: string)

  /** The exceptions that reach the handlers, grouped by the handler that answers them.
      Starlette picks the handler of the nearest class in the exception's MRO: every
      Feature Store exception is answered by its own handler before `HTTPException`'s, and
      `NoCredentialsError` and `EndpointConnectionError` are not `ClientError`s. */
  datatype Raised =
    | StoreRaised(kind: ErrorKind)                                       // FeatureStoreException and subclasses
    | Http(status: int, detail: string)                                  // FastAPI / Starlette HTTPException
    | RequestValidation(errors: seq<FieldError>)                         // RequestValidationError, pydantic ValidationError
    | Client(code: Option<string>, message: Option<string>, text: string) // botocore ClientError: Error.Code, Error.Message, str(exc)
    | Boto3(text: string)                                                // boto3 Boto3Error
    | NoCredentials(text: string)                                        // botocore NoCredentialsError
    | EndpointConnection(text: string)                                   // botocore EndpointConnectionError
    | Unhandled(typeName: string, text: string)                          // anything else

  /** The body every handler returns: `create_error_response` without a field or timestamp. */
  function ErrorBody(status: int, detail: string, errorCode: Option<string>, now: string): (r: map<string, Value>)
    ensures ReadErrorResponse(r) == Some(StoreException(status, detail, if errorCode == Some("") then None else errorCode))
  {
    var kept := if errorCode == Some("") then None else errorCode;
    ErrorResponseRoundTrip(StoreException(status, detail, kept), None, None, now);
    assert CreateErrorResponse(status, detail, errorCode, None, None, now) == CreateErrorResponse(status, detail, kept, None, None, now);
    CreateErrorResponse(status, detail, errorCode, None, None, now)
  }

  /** `feature_store_exception_handler`. The `field` of a `ValidationException` is not passed
      on, so it never reaches the body. */
  function FeatureStoreHandler(x: StoreException, now: string): (r: Response)
    requires x.errorCode != Some("")
    ensures r.status == x.statusCode && ReadErrorResponse(r.body) == Some(x)
  {
    Response(x.statusCode, ErrorBody(x.statusCode, x.detail, x.errorCode, now))
  }

  /** `http_exception_handler`: the exception's own status and detail, no error code. */
  function HttpHandler(status: int, detail: string, now: string): (r: Response)
    ensures r.status == status && ReadErrorResponse(r.body) == Some(StoreException(status, detail, None))
  {
    Response(status, ErrorBody(status, detail, None, now))
  }

  /** Each validation error rendered as `"<loc joined by '.'>: <msg>"`. */
  function RenderErrors(errors: seq<FieldError>): (r: seq<string>)
    ensures |r| == |errors|
    ensures forall i :: 0 <= i < |errors| ==> r[i] == Join(errors[i].loc, ".") + ": " + errors[i].msg
  {
    if errors == [] then [] else [Join(errors[0].loc, ".") + ": " + errors[0].msg] + RenderErrors(errors[1..])
  }

  /** `validation_exception_handler`: 422 with every error listed, separated by `"; "`. */
  function ValidationHandler(errors: seq<FieldError>, now: string): (r: Response)
    ensures r.status == 422
    ensures ReadErrorResponse(r.body) == Some(StoreException(422, "Validation error: " + Join(RenderErrors(errors), "; "), Some("VALIDATION_ERROR")))
  {
    Response(422, ErrorBody(422, "Validation error: " + Join(RenderErrors(errors), "; "), Some("VALIDATION_ERROR"), now))
  }

  /** The status `dynamodb_exception_handler` gives each DynamoDB error code. */
  function DynamoStatus(code: string): int
  {
    if code == "ResourceNotFoundException" then 404
    else if code == "ValidationException" then 400
    else if code == "ConditionalCheckFailedException" then 409
    else if code == "ProvisionedThroughputExceededException" then 429
    else 500
  }

  /** The detail `dynamodb_exception_handler` gives each DynamoDB error code. */
  function DynamoDetail(code: string, message: string): string
  {
    if code == "ResourceNotFoundException" then "DynamoDB table not found"
    else if code == "ValidationException" then "DynamoDB validation error: " + message
    else if code == "ConditionalCheckFailedException" then "DynamoDB conditional check failed"
    else if code == "ProvisionedThroughputExceededException" then "DynamoDB provisioned throughput exceeded"
    else "DynamoDB error: " + message
  }

  /** `dynamodb_exception_handler`: the code defaults to `"Unknown"` and the message to the
      exception's text when the error response lacks them. */
  function DynamoHandler(code: Option<string>, message: Option<string>, text: string, now: string): (r: Response)
    ensures 400 <= r.status <= 500
    ensures ReadErrorResponse(r.body).Some? && ReadErrorResponse(r.body).value.statusCode == r.status
    ensures ReadErrorResponse(r.body).value.errorCode == Some("DYNAMODB_ERROR")
  {
    var c := if code.Some? then code.value else "Unknown";
    var m := if message.Some? then message.value else text;
    var status := DynamoStatus(c);
    Response(status, ErrorBody(status, DynamoDetail(c, m), Some("DYNAMODB_ERROR"), now))
  }

  /** The four named codes are the client's fault; any other code, `"Unknown"` included, is a
      500. Only a validation error or an unrecognised code shows the DynamoDB message. */
  lemma DynamoErrorsClassified(code: string, m1: string, m2: string)
    ensures DynamoStatus(code) < 500 <==>
      code in {"ResourceNotFoundException", "ValidationException", "ConditionalCheckFailedException",
               "ProvisionedThroughputExceededException"}
    ensures 400 <= DynamoStatus(code) <= 500
    ensures DynamoStatus(code) != 500 && code != "ValidationException" ==> DynamoDetail(code, m1) == DynamoDetail(code, m2)
    ensures DynamoStatus("Unknown") == 500
  {
  }

  /** `global_exception_handler`: the exception's text is shown only in development. */
  function GlobalHandler(text: string, development: bool, now: string): (r: Response)
    ensures r.status == 500
    ensures ReadErrorResponse(r.body).Some? && ReadErrorResponse(r.body).value.statusCode == 500
    ensures ReadErrorResponse(r.body).value.errorCode == Some("INTERNAL_SERVER_ERROR")
    ensures !development ==> ReadErrorResponse(r.body).value.detail == "Internal server error"
  {
    var detail := if development then "Internal server error: " + text else "Internal server error";
    Response(500, ErrorBody(500, detail, Some("INTERNAL_SERVER_ERROR"), now))
  }

  /** The handler `setup_exception_handlers` registers for each kind of exception. Every
      answer carries a standard error body that reads back with the answer's own status;
      Feature Store exceptions read back exactly as raised, HTTP exceptions with their status
      and detail and no code, and everything else with a 4xx/5xx status and an error code. */
  function Handle(x: Raised, development: bool, now: string): (r: Response)
    ensures ReadErrorResponse(r.body).Some? && ReadErrorResponse(r.body).value.statusCode == r.status
    ensures x.StoreRaised? ==> ReadErrorResponse(r.body) == Some(Raise(x.kind))
    ensures x.Http? ==> ReadErrorResponse(r.body) == Some(StoreException(x.status, x.detail, None))
    ensures !x.Http? ==> 400 <= r.status <= 599 && ReadErrorResponse(r.body).value.errorCode.Some?
    ensures x.Unhandled? || x.Boto3? || x.NoCredentials? ==> r.status == 500
    ensures x.EndpointConnection? ==> r.status == 503
    ensures x.RequestValidation? ==> r.status == 422
  {
    match x
    case StoreRaised(kind) => FeatureStoreHandler(Raise(kind), now)
    case Http(status, detail) => HttpHandler(status, detail, now)
    case RequestValidation(errors) => ValidationHandler(errors, now)
    case Client(code, message, text) => DynamoHandler(code, message, text, now)
    case Boto3(_) => Response(500, ErrorBody(500, "AWS service error", Some("AWS_ERROR"), now))
    case NoCredentials(_) => Response(500, ErrorBody(500, "AWS credentials not configured", Some("AWS_CREDENTIALS_ERROR"), now))
    case EndpointConnection(_) => Response(503, ErrorBody(503, "AWS service unavailable", Some("AWS_CONNECTION_ERROR"), now))
    case Unhandled(_, text) => GlobalHandler(text, development, now)
  }

  /** Outside development an unhandled exception's answer is the same whatever the
      exception: nothing about it leaks to the client. */
  lemma UnhandledDetailsHidden(t1: string, x1: string, t2: string, x2: string, now: string)
    ensures Handle(Unhandled(t1, x1), false, now) == Handle(Unhandled(t2, x2), false, now)
  {
  }

  /** The AWS handlers never show the exception's text, in development or not. */
  lemma AwsDetailsHidden(x1: string, x2: string, now: string)
    ensures Handle(Boto3(x1), true, now) == Handle(Boto3(x2), false, now)
    ensures Handle(NoCredentials(x1), true, now) == Handle(NoCredentials(x2), false, now)
    ensures Handle(EndpointConnection(x1), true, now) == Handle(EndpointConnection(x2), false, now)
  {
  }

  /** A single validation error reads `"Validation error: <loc>: <msg>"`; an empty error list
      leaves just the prefix. */
  lemma ValidationDetail(loc: seq<string>, msg: string, now: string)
    ensures ReadErrorResponse(Handle(RequestValidation([FieldError(loc, msg)]), false, now).body).value.detail
            == "Validation error: " + Join(loc, ".") + ": " + msg
    ensures ReadErrorResponse(Handle(RequestValidation([]), false, now).body).value.detail == "Validation error: "
  {
  }

  /** How an exception the core raises reaches the handlers when nothing catches it on the
      way. Python's `str(KeyError(k))` quotes the key; a store failure is a `ClientError`
      whose code is known and whose message is not, so its text stands in for both. */
  function Escaped(e: Exc): (r: Raised)
    ensures !r.StoreRaised? && !r.RequestValidation?
    ensures r.Unhandled? <==> !e.StoreError? && !e.HttpException?
    ensures e.StoreError? ==> r.Client? && r.code == Some(e.code)
    ensures e.HttpException? ==> r == Http(e.status, e.detail)
  {
    match e
    case ValueError(msg) => Unhandled("ValueError", msg)
    case KeyError(key) => Unhandled("KeyError", "'" + key + "'")
    case TypeError(what) => Unhandled("TypeError", what)
    case AttributeError(what) => Unhandled("AttributeError", what)
    case ZeroDivisionError => Unhandled("ZeroDivisionError", "division by zero")
    case StoreError(code) => Client(Some(code), None, code)
    case HttpException(status, detail) => Http(status, detail)
  }
}
