/**
 * The versioned routes of api/v1/routes.py. Each feature route calls the controller and
 * turns a `ValueError` into an `HTTPException` with a status of its own choosing; any other
 * exception goes through unchanged to the handlers. The controller's outcome is an input
 * here: the route adds no state of its own.
 */
module ApiRoutes {
  import opened Wrappers
  import opened Text
  import opened PyValue
  import opened StoreExceptions
  import opened ExceptionHandlers
  import FeatureSchemas
  import FeatureController
  import FeatureFlows

  /** The three feature routes: `GET /get/item/...`, `POST /get/items` and `POST /items`. */
  datatype Route = SingleRead | BatchRead | Write

  /** What a route raises for an exception the controller lets out: a `ValueError` becomes an
      `HTTPException` carrying its message, anything else is re-raised as it is. */
  function Reraised(route: Route, e: Exc): (x: Raised)
    ensures e.ValueError? ==> x.Http? && x.detail == e.msg
    ensures !e.ValueError? ==> x == Escaped(e)
  {
    match e
    case ValueError(msg) =>
      (match route
       case SingleRead => Http(404, msg)
       case BatchRead => Http(if Contains(Lower(msg), "not found") then 404 else 400, msg)
       case Write => Http(400, msg))
    case _ => Escaped(e)
  }

  /** A route's answer for the controller's outcome: the controller's value when it returns,
      the handlers' response to what the route raises when it fails. */
  function Answer<T>(route: Route, outcome: Result<T, Exc>, development: bool, now: string): (r: Result<T, Response>)
    ensures r.Success? <==> outcome.Success?
    ensures r.Success? ==> r.value == outcome.value
    ensures r.Failure? ==> ReadErrorResponse(r.error.body).Some? && ReadErrorResponse(r.error.body).value.statusCode == r.error.status
  {
    match outcome
    case Success(v) => Success(v)
    case Failure(e) => Failure(Handle(Reraised(route, e), development, now))
  }

  /** A `ValueError` is answered with its message as detail: 404 on the single read, 400 on
      the write, and on the batch read 404 exactly when its lower-cased message contains
      `"not found"`, 400 otherwise. */
  lemma ValueErrorStatus(route: Route, msg: string, development: bool, now: string)
    ensures var r := Answer<map<string, Value>>(route, Failure(ValueError(msg)), development, now);
      && r.Failure?
      && ReadErrorResponse(r.error.body) == Some(StoreException(r.error.status, msg, None))
      && (route == SingleRead ==> r.error.status == 404)
      && (route == Write ==> r.error.status == 400)
      && (route == BatchRead ==> (r.error.status == 404 <==> Contains(Lower(msg), "not found"))
                                 && (r.error.status == 404 || r.error.status == 400))
  {
  }

  /** Every other exception is answered by the route-independent handlers: Python errors
      with a 500 that hides their text outside development, store failures with the status
      of their DynamoDB code, HTTP exceptions with their own status. */
  lemma OtherErrorsFallThrough(route: Route, e: Exc, development: bool, now: string)
    requires !e.ValueError?
    ensures var r := Answer<map<string, Value>>(route, Failure(e), development, now);
      && r.Failure?
      && r.error == Answer<map<string, Value>>(SingleRead, Failure(e), development, now).error
      && (e.KeyError? || e.TypeError? || e.AttributeError? || e.ZeroDivisionError? ==>
            && r.error.status == 500
            && (!development ==> ReadErrorResponse(r.error.body).value.detail == "Internal server error"))
      && (e.StoreError? ==> r.error.status == DynamoStatus(e.code))
      && (e.HttpException? ==> r.error.status == e.status)
  {
  }

  /** The single-category flow's "Item not found: id/category" is answered with a 404 that
      carries the message as its detail. */
  lemma FlowItemNotFoundIs404(identifier: string, category: string, development: bool, now: string)
    ensures var msg := "Item not found: " + identifier + "/" + category;
      var r := Answer<map<string, Value>>(SingleRead, Failure(ValueError(msg)), development, now);
      && r.Failure? && r.error.status == 404
      && ReadErrorResponse(r.error.body) == Some(StoreException(404, msg, None))
  {
  }

  /** The batch flow's own "No items found for identifier '...' with provided mapping" does
      not say "not found": the batch route answers it with 400, and with 404 only when the
      identifier itself contains "not found" once lower-cased. */
  lemma BatchNoItemsStatus(identifier: string, development: bool, now: string)
    ensures var r := Answer<map<string, Value>>(BatchRead, Failure(FeatureFlows.NoItems(identifier)), development, now);
      && r.Failure?
      && r.error.status == (if Contains(Lower(identifier), "not found") then 404 else 400)
  {
    NoItemsSaysNotFound(identifier);
  }

  /** The lower-cased message of `NoItems` contains "not found" exactly when the lower-cased
      identifier does: the fixed text around the identifier does not contain it, and a match
      cannot reach across the quotes around the identifier. */
  lemma NoItemsSaysNotFound(identifier: string)
    ensures Contains(Lower(FeatureFlows.NoItems(identifier).msg), "not found") <==> Contains(Lower(identifier), "not found")
  {
    var before := "No items found for identifier ";
    var after := " with provided mapping";
    NoItemsQuotes(identifier, before, after);
    LowerContainsAround(before, '\'', identifier, '\'', after, "not found");
    BeforeSaysNothing(before);
    AfterSaysNothing(after);
  }

  /** The message of `NoItems` is the identifier in quotes between two fixed texts. */
  lemma NoItemsQuotes(identifier: string, before: string, after: string)
    requires before == "No items found for identifier " && after == " with provided mapping"
    ensures FeatureFlows.NoItems(identifier).msg == before + ['\''] + identifier + ['\''] + after
  {
  }

  /** The text after the identifier has no `u`, so it does not contain "not found" once
      lower-cased. */
  lemma AfterSaysNothing(after: string)
    requires after == " with provided mapping"
    ensures !Contains(Lower(after), "not found")
  {
    WithoutUSaysNothing(after);
  }

  /** The text before the identifier does not contain "not found" once lower-cased: cut at
      its `s` and `r`, neither of which the phrase holds, it falls into a part too short for
      the phrase, a part of the phrase's length that starts with a space, and a part with
      no `u`. */
  lemma BeforeSaysNothing(before: string)
    requires before == "No items found for identifier "
    ensures !Contains(Lower(before), "not found")
  {
    var head := "No item";
    var word := " found fo";
    var rest := " identifier ";
    assert before == head + ['s'] + word + ['r'] + rest;
    LowerContainsAround(head, 's', word, 'r', rest, "not found");
    PartsSayNothing(head, word, rest);
  }

  /** The three parts of the text before the identifier do not contain "not found" once
      lower-cased. */
  lemma PartsSayNothing(head: string, word: string, rest: string)
    requires |head| < 9 && |word| == 9 && word[0] == ' ' && 'u' !in rest && 'U' !in rest
    ensures !Contains(Lower(head), "not found") && !Contains(Lower(word), "not found")
            && !Contains(Lower(rest), "not found")
  {
    NotContainsShort(Lower(head), "not found");
    NotContainsSameLength(Lower(word), "not found");
    WithoutUSaysNothing(rest);
  }

  /** A text with no `u` in either case does not contain "not found" once lower-cased. */
  lemma WithoutUSaysNothing(s: string)
    requires 'u' !in s && 'U' !in s
    ensures !Contains(Lower(s), "not found")
  {
    LowerMissing(s, 'u');
    NotContainsMissing(Lower(s), "not found", 6);
  }

  /** A write request that passes the schema but carries no `entity_type` (the schema asks
      for `identifier` instead) is answered with a 500, not a client error. */
  lemma SchemaValidWriteIsServerError(metadata: Value, data: map<string, Value>, development: bool, now: string)
    requires FeatureSchemas.ValidateWriteData(data).Success?
    requires "entity_type" !in data
    ensures var fields := FeatureController.RequestFields(VDict(map["metadata" := metadata, "data" := VDict(data)]));
      && fields.Failure?
      && var r := Answer<map<string, Value>>(Write, Failure(fields.error), development, now);
         r.Failure? && r.error.status == 500
  {
    FeatureController.SchemaValidRequestLacksEntityType(metadata, data);
  }

  /** The body of `GET /health`. */
  datatype HealthResponse = HealthResponse(status: string, dynamodbConnection: bool, tablesAvailable: seq<string>,
                                           timestamp: string)

  /** `health_check_endpoint`, given what `health_check()` and `get_all_tables()` return or
      raise, the table names in order, and the current timestamp. It never fails: any
      exception gives the unhealthy answer with no tables. */
  function HealthCheckEndpoint(isHealthy: Result<bool, Exc>, tables: Result<seq<string>, Exc>, now: string): (r: HealthResponse)
    ensures r.status == "healthy" || r.status == "unhealthy"
    ensures r.status == "healthy" <==> r.dynamodbConnection
    ensures r.status == "healthy" <==> isHealthy == Success(true) && tables.Success?
    ensures isHealthy.Success? && tables.Success? ==> r.tablesAvailable == tables.value
    ensures isHealthy.Failure? || tables.Failure? ==> r == HealthResponse("unhealthy", false, [], now)
    ensures r.timestamp == now
  {
    match isHealthy
    case Failure(_) => HealthResponse("unhealthy", false, [], now)
    case Success(healthy) =>
      match tables
      case Failure(_) => HealthResponse("unhealthy", false, [], now)
      case Success(names) => HealthResponse(if healthy then "healthy" else "unhealthy", healthy, names, now)
  }
}
