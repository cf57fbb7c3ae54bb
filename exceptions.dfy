/**
 * The exception classes of core/exceptions.py and the standard error body they are turned
 * into. Every Feature Store exception is an `HTTPException` carrying a status code, a detail
 * message and a machine-readable error code; each subclass fixes the code and the status.
 */
module StoreExceptions {
  import opened Wrappers
  import opened Text
  import opened PyValue

  /** What a raised Feature Store exception carries: `status_code`, `detail`, `error_code`. */
  datatype StoreException = StoreException(statusCode: int, detail: string, errorCode: Option<string>)

  /** The eleven subclasses, each with the constructor arguments it is raised with. Python's
      default arguments (`table_type="bright_uid"`, `field="body"`, `window="minute"`,
      `retry_after=60`, ...) are filled in by whoever builds the value. */
  datatype ErrorKind =
    | ItemNotFound(identifier: string, category: string, tableType: string)
    | InvalidTableType(tableType: string)
    | Validation(detail: string, field: Option<string>)
    | EmptyRequest(part: string)
    | DynamoDB(operation: string, reason: string)
    | Metrics(detail: string)
    | Configuration(detail: string)
    | RateLimit(limit: int, window: string)
    | Authentication(detail: string)
    | Authorization(detail: string)
    | ServiceUnavailable(service: string, retryAfter: int)

  /** The kinds that report a failure of the service rather than of the request. */
  predicate ServerFault(k: ErrorKind)
  {
    k.DynamoDB? || k.Metrics? || k.Configuration? || k.ServiceUnavailable?
  }

  /** The exception each subclass's `__init__` builds. Every one carries a non-empty error
      code and a status in the 4xx/5xx range, 5xx exactly for the server faults. */
  function Raise(k: ErrorKind): (e: StoreException)
    ensures 400 <= e.statusCode <= 599
    ensures e.statusCode >= 500 <==> ServerFault(k)
    ensures e.errorCode.Some? && e.errorCode.value != ""
  {
    match k
    case ItemNotFound(identifier, category, tableType) =>
      StoreException(404, "Item not found: " + identifier + "/" + category + " in table '" + tableType + "'", Some("ITEM_NOT_FOUND"))
    case InvalidTableType(tableType) =>
      StoreException(400, "Invalid table_type: '" + tableType + "'. Must be 'bright_uid' or 'account_id'", Some("INVALID_TABLE_TYPE"))
    case Validation(detail, _) =>
      StoreException(422, detail, Some("VALIDATION_ERROR"))
    case EmptyRequest(part) =>
      StoreException(400, "Request " + part + " cannot be empty", Some("EMPTY_REQUEST"))
    case DynamoDB(operation, reason) =>
      StoreException(500, "DynamoDB " + operation + " failed: " + reason, Some("DYNAMODB_ERROR"))
    case Metrics(detail) =>
      StoreException(500, "Metrics collection failed: " + detail, Some("METRICS_ERROR"))
    case Configuration(detail) =>
      StoreException(500, "Configuration error: " + detail, Some("CONFIGURATION_ERROR"))
    case RateLimit(limit, window) =>
      StoreException(429, "Rate limit exceeded: " + IntToString(limit) + " requests per " + window, Some("RATE_LIMIT_EXCEEDED"))
    case Authentication(detail) =>
      StoreException(401, detail, Some("AUTHENTICATION_FAILED"))
    case Authorization(detail) =>
      StoreException(403, detail, Some("AUTHORIZATION_FAILED"))
    case ServiceUnavailable(service, retryAfter) =>
      StoreException(503, "Service '" + service + "' is temporarily unavailable. Retry after " + IntToString(retryAfter) + " seconds",
                     Some("SERVICE_UNAVAILABLE"))
  }

  /** The error code alone tells a client which status it came with, and whether the service
      or the request was at fault. */
  lemma ErrorCodeDeterminesStatus(k1: ErrorKind, k2: ErrorKind)
    requires Raise(k1).errorCode == Raise(k2).errorCode
    ensures Raise(k1).statusCode == Raise(k2).statusCode
    ensures ServerFault(k1) <==> ServerFault(k2)
  {
    StatusOfRaisedCode(k1);
    StatusOfRaisedCode(k2);
  }

  /** The status that goes with each error code. */
  function CodeStatus(code: string): int
  {
    if code == "ITEM_NOT_FOUND" then 404
    else if code == "INVALID_TABLE_TYPE" || code == "EMPTY_REQUEST" then 400
    else if code == "VALIDATION_ERROR" then 422
    else if code == "RATE_LIMIT_EXCEEDED" then 429
    else if code == "AUTHENTICATION_FAILED" then 401
    else if code == "AUTHORIZATION_FAILED" then 403
    else if code == "SERVICE_UNAVAILABLE" then 503
    else 500
  }

  lemma StatusOfRaisedCode(k: ErrorKind)
    ensures Raise(k).statusCode == CodeStatus(Raise(k).errorCode.value)
  {
  }

  /** `EmptyRequestException()` with its default field says what the write flow's own
      `ValueError` for an empty body says. */
  lemma EmptyBodyMessage()
    ensures Raise(EmptyRequest("body")) == StoreException(400, "Request body cannot be empty", Some("EMPTY_REQUEST"))
  {
  }

  /** Python's `x or y` on an optional string. */
  function OrElse(x: Option<string>, y: string): string
  {
    if x.Some? && x.value != "" then x.value else y
  }

  /** `FeatureStoreErrorResponse.create_error_response`: `{"error": {...}}` with the status,
      the detail, the given timestamp or else `now`, and the error code and field only when
      they are truthy. */
  function CreateErrorResponse(statusCode: int, detail: string, errorCode: Option<string>, field: Option<string>,
                               timestamp: Option<string>, now: string): (r: map<string, Value>)
    ensures r.Keys == {"error"} && r["error"].VDict?
    ensures var e := r["error"].m;
      && {"status_code", "detail", "timestamp"} <= e.Keys <= {"status_code", "detail", "timestamp", "error_code", "field"}
      && e["status_code"] == VInt(statusCode) && e["detail"] == VStr(detail)
      && e["timestamp"] == VStr(if timestamp.Some? && timestamp.value != "" then timestamp.value else now)
      && ("error_code" in e <==> errorCode.Some? && errorCode.value != "")
      && ("error_code" in e ==> e["error_code"] == VStr(errorCode.value))
      && ("field" in e <==> field.Some? && field.value != "")
      && ("field" in e ==> e["field"] == VStr(field.value))
  {
    var base := map["status_code" := VInt(statusCode), "detail" := VStr(detail), "timestamp" := VStr(OrElse(timestamp, now))];
    var withCode := if errorCode.Some? && errorCode.value != "" then base["error_code" := VStr(errorCode.value)] else base;
    var withField := if field.Some? && field.value != "" then withCode["field" := VStr(field.value)] else withCode;
    map["error" := VDict(withField)]
  }

  /** What a client reads back from an error body: status, detail and error code, if the
      body has the standard shape. */
  function ReadErrorResponse(body: map<string, Value>): Option<StoreException>
  {
    if "error" in body && body["error"].VDict? then
      var e := body["error"].m;
      if "status_code" in e && e["status_code"].VInt? && "detail" in e && e["detail"].VStr? then
        Some(StoreException(e["status_code"].i, e["detail"].s,
                            if "error_code" in e && e["error_code"].VStr? then Some(e["error_code"].s) else None))
      else None
    else None
  }

  /** An error body gives back the exception it was built from, whatever the field and
      timestamp, as long as the code is not the empty string (which `create_error_response`
      drops as falsy). */
  lemma ErrorResponseRoundTrip(x: StoreException, field: Option<string>, timestamp: Option<string>, now: string)
    requires x.errorCode != Some("")
    ensures ReadErrorResponse(CreateErrorResponse(x.statusCode, x.detail, x.errorCode, field, timestamp, now)) == Some(x)
  {
  }
}
