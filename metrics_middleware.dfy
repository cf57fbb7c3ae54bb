/**
 * The pure helpers of `MetricsMiddleware` in middlewares/metrics_middleware.py and the
 * metrics `_track_metrics` emits for one request. The metrics client itself is not modelled:
 * `TrackMetrics` returns what would be sent, in order.
 */
module MetricsMiddleware {
  import opened Wrappers
  import opened Text
  import StoreExceptions
  import ExceptionHandlers

  /** `_get_status_category`: the class of a status, `"unknown"` outside 200..599. */
  function StatusCategory(status: int): (r: string)
    ensures r == "unknown" <==> !(200 <= status < 600)
    ensures r != "unknown" ==> r == [DigitChar(status / 100)] + "xx"
  {
    if 200 <= status < 300 then "2xx"
    else if 300 <= status < 400 then "3xx"
    else if 400 <= status < 500 then "4xx"
    else if 500 <= status < 600 then "5xx"
    else "unknown"
  }

  /** The statuses `_get_error_type` has a name for. */
  const NamedErrorStatuses: set<int> := {400, 401, 403, 404, 422, 429, 500, 502, 503}

  /** `_get_error_type`: a fixed name for each of the statuses above, `"unknown_error"` for
      any other. */
  function ErrorType(status: int): (r: string)
    ensures r == "unknown_error" <==> status !in NamedErrorStatuses
  {
    if status == 400 then "bad_request"
    else if status == 401 then "unauthorized"
    else if status == 403 then "forbidden"
    else if status == 404 then "not_found"
    else if status == 422 then "validation_error"
    else if status == 429 then "rate_limit"
    else if status == 500 then "internal_error"
    else if status == 502 then "bad_gateway"
    else if status == 503 then "service_unavailable"
    else "unknown_error"
  }

  /** Each named status has a name of its own: the error type identifies the status. */
  lemma ErrorTypeNamesDistinct(s1: int, s2: int)
    requires ErrorType(s1) == ErrorType(s2) != "unknown_error"
    ensures s1 == s2
  {
  }

  /** Every Feature Store exception is counted under a named error type and the status class
      that matches who was at fault; a DynamoDB conditional-check failure (409) is the one
      handled status the middleware has no name for. */
  lemma HandledStatusesClassified(k: StoreExceptions.ErrorKind)
    ensures var status := StoreExceptions.Raise(k).statusCode;
      && ErrorType(status) != "unknown_error"
      && StatusCategory(status) == if StoreExceptions.ServerFault(k) then "5xx" else "4xx"
    ensures ErrorType(ExceptionHandlers.DynamoStatus("ConditionalCheckFailedException")) == "unknown_error"
  {
  }

  /** The path with the `/api/vN/` prefix cut off: `split("/", 3)[-1]`, when the path starts
      with `/api/v` and has more than three `/`-pieces. */
  function DropVersionPrefix(path: string): (r: string)
    ensures |r| <= |path| && r == path[|path| - |r|..]
    ensures !StartsWith(path, "/api/v") ==> r == path
  {
    if StartsWith(path, "/api/v") && |Split(path, '/')| > 3 then
      var rest := AfterNthSplit(path, '/', 3);
      assert rest == path[|path| - |rest|..];
      rest
    else
      assert path == path[0..];
      path
  }

  /** The endpoint name of a path without its prefix: its first two `/`-segments joined by
      `_`, or its only segment. `split` always yields a piece, so the source's `"root"`
      fallback never applies. */
  function SegmentName(path: string): (r: string)
    ensures '/' !in r
    ensures '/' !in path ==> r == path
  {
    var parts := Split(StripChar(path, '/'), '/');
    if |parts| >= 2 then parts[0] + "_" + parts[1] else parts[0]
  }

  /** `_get_endpoint_name`: the name is a tag value, never a path; a path without any `/`
      names itself. */
  function EndpointName(path: string): (r: string)
    ensures '/' !in r
    ensures '/' !in path ==> r == path
  {
    SegmentName(DropVersionPrefix(path))
  }

  /** How a versioned path splits on `/`: an empty piece, `api`, the version, then the rest. */
  lemma VersionedPathPieces(v: string, rest: string)
    requires '/' !in v
    ensures var path := "/api/v" + v + "/" + rest;
      && StartsWith(path, "/api/v")
      && AtLeastSeparators(path, '/', 3)
      && NthPiece(path, '/', 2) == "v" + v
      && AfterNthSplit(path, '/', 3) == rest
  {
    var path := "/api/v" + v + "/" + rest;
    var version := "v" + v;
    var third := version + ['/'] + rest;
    var second := "api" + ['/'] + third;
    assert path == [] + ['/'] + second;
    assert path[..6] == "/api/v";
    SplitOnceAt([], '/', second);
    SplitOnceAt("api", '/', third);
    SplitOnceAt(version, '/', rest);
  }

  /** A versioned path is named after what follows the version segment. */
  lemma EndpointOfVersionedPath(v: string, rest: string)
    requires '/' !in v
    ensures EndpointName("/api/v" + v + "/" + rest) == SegmentName(rest)
  {
    VersionedPathPieces(v, rest);
    PiecesOfSplit("/api/v" + v + "/" + rest, '/', 3);
  }

  /** The root path has the empty endpoint name, for which no endpoint metrics are sent. */
  lemma RootHasNoEndpoint()
    ensures EndpointName("/") == ""
  {
    assert StripChar("/", '/') == "";
    assert Split("", '/') == [""];
  }

  /** `_get_api_version`: the third `/`-piece of a path starting with `/api/v`, which is
      always there (the `IndexError` branch cannot happen) and always starts with `v`;
      `None` for any other path. */
  function ApiVersion(path: string): (r: Option<string>)
    ensures r.Some? <==> StartsWith(path, "/api/v")
    ensures r.Some? ==> r.value != "" && r.value[0] == 'v' && '/' !in r.value
  {
    if StartsWith(path, "/api/v") then
      VersionPiece(path);
      Some(Split(path, '/')[2])
    else None
  }

  /** A path under `/api/v` has a third `/`-piece, and it starts with `v`. */
  lemma VersionPiece(path: string)
    requires StartsWith(path, "/api/v")
    ensures var pieces := Split(path, '/');
      |pieces| > 2 && pieces[2] != "" && pieces[2][0] == 'v' && '/' !in pieces[2]
  {
    var third := path[5..];
    var second := "api" + ['/'] + third;
    assert path == [] + ['/'] + second by {
      assert path[..6] == "/api/v";
      forall i | 0 <= i < |path|
        ensures path[i] == ([] + ['/'] + second)[i]
      {
        if i < 5 {
          assert path[i] == path[..6][i];
        }
      }
    }
    assert third != [] && third[0] == 'v' by {
      assert path[5] == path[..6][5];
    }
    SplitOnceAt([], '/', second);
    SplitOnceAt("api", '/', third);
    assert AtLeastSeparators(path, '/', 2);
    PieceOfSplit(path, '/', 2);
    assert NthPiece(path, '/', 2) == NthPiece(third, '/', 0);
    FirstPiece(third);
  }

  /** The first `/`-piece of a string that does not start with `/` starts as the string does. */
  lemma FirstPiece(s: string)
    requires s != [] && s[0] != '/'
    ensures var p := NthPiece(s, '/', 0);
      p != "" && p[0] == s[0] && '/' !in p
  {
    if '/' in s {
      var (head, tail) := SplitOnce(s, '/');
      assert s == head + ['/'] + tail;
      assert head != [] by {
        assert s[0] == (head + ['/'] + tail)[0];
      }
      assert s[0] == head[0];
    }
  }

  /** The version of a versioned path is its version segment. */
  lemma ApiVersionOf(v: string, rest: string)
    requires '/' !in v
    ensures ApiVersion("/api/v" + v + "/" + rest) == Some("v" + v)
  {
    VersionedPathPieces(v, rest);
    PieceOfSplit("/api/v" + v + "/" + rest, '/', 2);
  }

  /** How a metric is sent: `increment_counter`, `timing` or `gauge`. */
  datatype MetricKind = Counter | Timing | Gauge

  /** One metric sent: its kind, its name and its tags. */
  datatype Emission = Emission(kind: MetricKind, name: string, tags: map<string, string>)

  /** The tags every metric of a request carries. The path is the one `_normalize_path`
      produced. */
  function BaseTags(httpMethod: string, normalizedPath: string, status: int, clientIp: string): map<string, string>
  {
    map["method" := httpMethod, "path" := normalizedPath, "status_code" := IntToString(status),
        "client_ip" := clientIp, "status_category" := StatusCategory(status)]
  }

  /** The names of the metrics the middleware sends. */
  const MetricNames: set<string> :=
    {"http.request.count", "http.request.duration", "http.response.size", "http.error.count", "http.success.count",
     "http.slow_request.count", "http.endpoint.count", "http.endpoint.duration", "http.api_version.count"}

  /** The metrics a condition guards: all of them when it holds, none otherwise. */
  function When(condition: bool, es: seq<Emission>): seq<Emission>
  {
    if condition then es else []
  }

  /** `_track_metrics`: request count and duration always; the response size when the
      response has a non-empty body; the error counter for a status from 400 up and the
      success counter below it; the slow-request counter above 1000 ms; endpoint metrics
      when the endpoint name is non-empty; the version counter for versioned paths. */
  function TrackMetrics(httpMethod: string, path: string, normalizedPath: string, clientIp: string, status: int,
                        duration: real, hasBody: bool, error: Option<string>): (r: seq<Emission>)
    ensures |r| >= 2 && r[0] == Emission(Counter, "http.request.count", BaseTags(httpMethod, normalizedPath, status, clientIp))
    ensures AllExtend(r, BaseTags(httpMethod, normalizedPath, status, clientIp))
    ensures forall i :: 0 <= i < |r| && r[i].name == "http.error.count" ==>
      "error_message" in r[i].tags && 0 < |r[i].tags["error_message"]| <= 100
  {
    var errorMessage := if error.Some? && error.value != "" then Take(error.value, 100) else "unknown";
    EmittedTags(httpMethod, normalizedPath, clientIp, status, duration, hasBody, errorMessage, EndpointName(path), ApiVersion(path));
    ErrorMessageTag(BaseTags(httpMethod, normalizedPath, status, clientIp), status, duration, hasBody, errorMessage,
                    EndpointName(path), ApiVersion(path));
    Emitted(BaseTags(httpMethod, normalizedPath, status, clientIp), status, duration, hasBody, errorMessage,
            EndpointName(path), ApiVersion(path))
  }

  /** The metrics sent, once the base tags, the error message, the endpoint name and the
      version are known. */
  function Emitted(base: map<string, string>, status: int, duration: real, hasBody: bool, errorMessage: string,
                   endpoint: string, version: Option<string>): (r: seq<Emission>)
    ensures 2 <= |r| <= 8
    ensures r[0] == Emission(Counter, "http.request.count", base) && r[1] == Emission(Timing, "http.request.duration", base)
    ensures forall e :: e in r ==> e.name in MetricNames
  {
    [Emission(Counter, "http.request.count", base), Emission(Timing, "http.request.duration", base)]
    + When(hasBody, [Emission(Gauge, "http.response.size", base)])
    + When(status >= 400,
           [Emission(Counter, "http.error.count", base["error_type" := ErrorType(status)]["error_message" := errorMessage])])
    + When(status < 400, [Emission(Counter, "http.success.count", base)])
    + When(duration > 1000 as real,
           [Emission(Counter, "http.slow_request.count", base["duration_ms" := IntToString(duration.Floor)])])
    + When(endpoint != "",
           [Emission(Counter, "http.endpoint.count", base["endpoint" := endpoint]),
            Emission(Timing, "http.endpoint.duration", base["endpoint" := endpoint])])
    + VersionGroup(base, version)
  }

  /** The version counter, tagged with the version, for a path that has one. */
  function VersionGroup(base: map<string, string>, version: Option<string>): seq<Emission>
  {
    match version
    case Some(v) => [Emission(Counter, "http.api_version.count", base["api_version" := v])]
    case None => []
  }

  /** The metrics sent, group by group. */
  lemma EmittedIsGroups(base: map<string, string>, status: int, duration: real, hasBody: bool,
                        errorMessage: string, endpoint: string, version: Option<string>)
    ensures Emitted(base, status, duration, hasBody, errorMessage, endpoint, version) ==
      When(true, [Emission(Counter, "http.request.count", base), Emission(Timing, "http.request.duration", base)])
      + When(hasBody, [Emission(Gauge, "http.response.size", base)])
      + When(status >= 400,
             [Emission(Counter, "http.error.count", base["error_type" := ErrorType(status)]["error_message" := errorMessage])])
      + When(status < 400, [Emission(Counter, "http.success.count", base)])
      + When(duration > 1000 as real,
             [Emission(Counter, "http.slow_request.count", base["duration_ms" := IntToString(duration.Floor)])])
      + When(endpoint != "",
             [Emission(Counter, "http.endpoint.count", base["endpoint" := endpoint]),
              Emission(Timing, "http.endpoint.duration", base["endpoint" := endpoint])])
      + VersionGroup(base, version)
  {
  }

  /** How many of the metrics sent are named `name`. */
  function Occurrences(es: seq<Emission>, name: string): nat
  {
    if es == [] then 0 else (if es[0].name == name then 1 else 0) + Occurrences(es[1..], name)
  }

  lemma {:induction false} OccurrencesAppend(a: seq<Emission>, b: seq<Emission>, name: string)
    ensures Occurrences(a + b, name) == Occurrences(a, name) + Occurrences(b, name)
  {
    if a == [] {
      assert a + b == b;
    } else {
      assert (a + b)[0] == a[0];
      assert (a + b)[1..] == a[1..] + b;
      OccurrencesAppend(a[1..], b, name);
    }
  }

  /** Occurrences in a guarded group of one metric. */
  lemma OccurrencesOne(condition: bool, e: Emission, name: string)
    ensures Occurrences(When(condition, [e]), name) == if condition && e.name == name then 1 else 0
  {
    if condition {
      assert [e][1..] == [];
    }
  }

  /** Occurrences in a group of two metrics. */
  lemma OccurrencesTwo(condition: bool, e1: Emission, e2: Emission, name: string)
    ensures Occurrences(When(condition, [e1, e2]), name) ==
      if condition then (if e1.name == name then 1 else 0) + (if e2.name == name then 1 else 0) else 0
  {
    if condition {
      assert [e1, e2] == [e1] + [e2];
      OccurrencesAppend([e1], [e2], name);
      OccurrencesOne(true, e1, name);
      OccurrencesOne(true, e2, name);
    }
  }

  /** Which metrics are sent, each at most once: the request count and duration always;
      exactly one of the error and success counters, the error one for statuses from 400;
      the response size exactly with a body; the slow counter exactly above one second; the
      endpoint pair exactly when there is an endpoint name; the version counter exactly
      when there is a version. */
  lemma {:induction false} EmittedCounts(base: map<string, string>, status: int, duration: real, hasBody: bool,
                                         errorMessage: string, endpoint: string, version: Option<string>, name: string)
    ensures Occurrences(Emitted(base, status, duration, hasBody, errorMessage, endpoint, version), name) ==
      if name == "http.request.count" || name == "http.request.duration" then 1
      else if name == "http.response.size" then (if hasBody then 1 else 0)
      else if name == "http.error.count" then (if status >= 400 then 1 else 0)
      else if name == "http.success.count" then (if status < 400 then 1 else 0)
      else if name == "http.slow_request.count" then (if duration > 1000 as real then 1 else 0)
      else if name == "http.endpoint.count" || name == "http.endpoint.duration" then (if endpoint != "" then 1 else 0)
      else if name == "http.api_version.count" then (if version.Some? then 1 else 0)
      else 0
  {
    var e0 := Emission(Counter, "http.request.count", base);
    var e1 := Emission(Timing, "http.request.duration", base);
    var eSize := Emission(Gauge, "http.response.size", base);
    var eError := Emission(Counter, "http.error.count", base["error_type" := ErrorType(status)]["error_message" := errorMessage]);
    var eSuccess := Emission(Counter, "http.success.count", base);
    var eSlow := Emission(Counter, "http.slow_request.count", base["duration_ms" := IntToString(duration.Floor)]);
    var eCount := Emission(Counter, "http.endpoint.count", base["endpoint" := endpoint]);
    var eTime := Emission(Timing, "http.endpoint.duration", base["endpoint" := endpoint]);
    var g6 := VersionGroup(base, version);
    EmittedGroups(base, status, duration, hasBody, errorMessage, endpoint, version, name);
    OccurrencesTwo(true, e0, e1, name);
    OccurrencesOne(hasBody, eSize, name);
    OccurrencesOne(status >= 400, eError, name);
    OccurrencesOne(status < 400, eSuccess, name);
    OccurrencesOne(duration > 1000 as real, eSlow, name);
    OccurrencesTwo(endpoint != "", eCount, eTime, name);
    match version {
      case Some(v) =>
        var eVersion := Emission(Counter, "http.api_version.count", base["api_version" := v]);
        assert g6 == When(true, [eVersion]);
        OccurrencesOne(true, eVersion, name);
      case None =>
        assert g6 == [];
    }
  }

  /** The metrics sent counted group by group. */
  lemma EmittedGroups(base: map<string, string>, status: int, duration: real, hasBody: bool,
                      errorMessage: string, endpoint: string, version: Option<string>, name: string)
    ensures Occurrences(Emitted(base, status, duration, hasBody, errorMessage, endpoint, version), name) ==
      Occurrences(When(true, [Emission(Counter, "http.request.count", base), Emission(Timing, "http.request.duration", base)]), name)
      + Occurrences(When(hasBody, [Emission(Gauge, "http.response.size", base)]), name)
      + Occurrences(When(status >= 400,
           [Emission(Counter, "http.error.count", base["error_type" := ErrorType(status)]["error_message" := errorMessage])]), name)
      + Occurrences(When(status < 400, [Emission(Counter, "http.success.count", base)]), name)
      + Occurrences(When(duration > 1000 as real,
           [Emission(Counter, "http.slow_request.count", base["duration_ms" := IntToString(duration.Floor)])]), name)
      + Occurrences(When(endpoint != "",
           [Emission(Counter, "http.endpoint.count", base["endpoint" := endpoint]),
            Emission(Timing, "http.endpoint.duration", base["endpoint" := endpoint])]), name)
      + Occurrences(VersionGroup(base, version), name)
  {
    var g0 := When(true, [Emission(Counter, "http.request.count", base), Emission(Timing, "http.request.duration", base)]);
    var g1 := When(hasBody, [Emission(Gauge, "http.response.size", base)]);
    var g2 := When(status >= 400,
           [Emission(Counter, "http.error.count", base["error_type" := ErrorType(status)]["error_message" := errorMessage])]);
    var g3 := When(status < 400, [Emission(Counter, "http.success.count", base)]);
    var g4 := When(duration > 1000 as real,
           [Emission(Counter, "http.slow_request.count", base["duration_ms" := IntToString(duration.Floor)])]);
    var g5 := When(endpoint != "",
           [Emission(Counter, "http.endpoint.count", base["endpoint" := endpoint]),
            Emission(Timing, "http.endpoint.duration", base["endpoint" := endpoint])]);
    var g6 := VersionGroup(base, version);
    EmittedIsGroups(base, status, duration, hasBody, errorMessage, endpoint, version);
    OccurrencesAppend(g0, g1, name);
    OccurrencesAppend(g0 + g1, g2, name);
    OccurrencesAppend(g0 + g1 + g2, g3, name);
    OccurrencesAppend(g0 + g1 + g2 + g3, g4, name);
    OccurrencesAppend(g0 + g1 + g2 + g3 + g4, g5, name);
    OccurrencesAppend(g0 + g1 + g2 + g3 + g4 + g5, g6, name);
  }

  /** For a request: exactly one of the error and success counters, the error one from
      status 400; the slow counter exactly above one second; endpoint metrics exactly when
      the endpoint name is non-empty; the version counter exactly for paths under `/api/v`. */
  lemma TrackMetricsCounts(httpMethod: string, path: string, normalizedPath: string, clientIp: string,
                           status: int, duration: real, hasBody: bool, error: Option<string>)
    ensures var r := TrackMetrics(httpMethod, path, normalizedPath, clientIp, status, duration, hasBody, error);
      && Occurrences(r, "http.request.count") == 1
      && Occurrences(r, "http.error.count") + Occurrences(r, "http.success.count") == 1
      && (Occurrences(r, "http.error.count") == 1 <==> status >= 400)
      && (Occurrences(r, "http.slow_request.count") == 1 <==> duration > 1000 as real)
      && (Occurrences(r, "http.endpoint.count") == 1 <==> EndpointName(path) != "")
      && (Occurrences(r, "http.api_version.count") == 1 <==> StartsWith(path, "/api/v"))
  {
    var errorMessage := if error.Some? && error.value != "" then Take(error.value, 100) else "unknown";
    var base := BaseTags(httpMethod, normalizedPath, status, clientIp);
    var endpoint := EndpointName(path);
    var version := ApiVersion(path);
    EmittedCounts(base, status, duration, hasBody, errorMessage, endpoint, version, "http.request.count");
    EmittedCounts(base, status, duration, hasBody, errorMessage, endpoint, version, "http.error.count");
    EmittedCounts(base, status, duration, hasBody, errorMessage, endpoint, version, "http.success.count");
    EmittedCounts(base, status, duration, hasBody, errorMessage, endpoint, version, "http.slow_request.count");
    EmittedCounts(base, status, duration, hasBody, errorMessage, endpoint, version, "http.endpoint.count");
    EmittedCounts(base, status, duration, hasBody, errorMessage, endpoint, version, "http.api_version.count");
  }

  /** `tags` holds every tag of `base` with its value. */
  predicate Extends(tags: map<string, string>, base: map<string, string>)
  {
    base.Keys <= tags.Keys && forall t :: t in base ==> tags[t] == base[t]
  }

  predicate AllExtend(es: seq<Emission>, base: map<string, string>)
  {
    forall i :: 0 <= i < |es| ==> Extends(es[i].tags, base)
  }

  lemma AllExtendAppend(a: seq<Emission>, b: seq<Emission>, base: map<string, string>)
    requires AllExtend(a, base) && AllExtend(b, base)
    ensures AllExtend(a + b, base)
  {
    forall i | 0 <= i < |a + b|
      ensures Extends((a + b)[i].tags, base)
    {
      if i < |a| {
        assert (a + b)[i] == a[i];
      } else {
        assert (a + b)[i] == b[i - |a|];
      }
    }
  }

  /** A tag added under a name the base does not use keeps the base. */
  lemma AddedTagExtends(base: map<string, string>, t: string, value: string)
    requires t !in base
    ensures Extends(base[t := value], base)
  {
  }

  /** Every metric sent carries the base tags unchanged; the tags a group adds
      (`error_type`, `error_message`, `duration_ms`, `endpoint`, `api_version`) are not base
      tags, so they never overwrite one. */
  lemma EmittedTags(httpMethod: string, normalizedPath: string, clientIp: string, status: int, duration: real,
                    hasBody: bool, errorMessage: string, endpoint: string, version: Option<string>)
    ensures var base := BaseTags(httpMethod, normalizedPath, status, clientIp);
      AllExtend(Emitted(base, status, duration, hasBody, errorMessage, endpoint, version), base)
  {
    var base := BaseTags(httpMethod, normalizedPath, status, clientIp);
    EmittedIsGroups(base, status, duration, hasBody, errorMessage, endpoint, version);
    GroupsExtend(httpMethod, normalizedPath, clientIp, status, duration, hasBody, errorMessage, endpoint, version);
  }

  /** Group by group, the metrics of `EmittedIsGroups` carry the base tags unchanged. */
  lemma GroupsExtend(httpMethod: string, normalizedPath: string, clientIp: string, status: int, duration: real,
                     hasBody: bool, errorMessage: string, endpoint: string, version: Option<string>)
    ensures var base := BaseTags(httpMethod, normalizedPath, status, clientIp);
      AllExtend(
        When(true, [Emission(Counter, "http.request.count", base), Emission(Timing, "http.request.duration", base)])
        + When(hasBody, [Emission(Gauge, "http.response.size", base)])
        + When(status >= 400,
               [Emission(Counter, "http.error.count", base["error_type" := ErrorType(status)]["error_message" := errorMessage])])
        + When(status < 400, [Emission(Counter, "http.success.count", base)])
        + When(duration > 1000 as real,
               [Emission(Counter, "http.slow_request.count", base["duration_ms" := IntToString(duration.Floor)])])
        + When(endpoint != "",
               [Emission(Counter, "http.endpoint.count", base["endpoint" := endpoint]),
                Emission(Timing, "http.endpoint.duration", base["endpoint" := endpoint])])
        + VersionGroup(base, version), base)
  {
    var base := BaseTags(httpMethod, normalizedPath, status, clientIp);
    var errorTags := base["error_type" := ErrorType(status)]["error_message" := errorMessage];
    var g0 := When(true, [Emission(Counter, "http.request.count", base), Emission(Timing, "http.request.duration", base)]);
    var g1 := When(hasBody, [Emission(Gauge, "http.response.size", base)]);
    var g2 := When(status >= 400, [Emission(Counter, "http.error.count", errorTags)]);
    var g3 := When(status < 400, [Emission(Counter, "http.success.count", base)]);
    var g4 := When(duration > 1000 as real,
                   [Emission(Counter, "http.slow_request.count", base["duration_ms" := IntToString(duration.Floor)])]);
    var g5 := When(endpoint != "",
                   [Emission(Counter, "http.endpoint.count", base["endpoint" := endpoint]),
                    Emission(Timing, "http.endpoint.duration", base["endpoint" := endpoint])]);
    var g6 := VersionGroup(base, version);
    assert Extends(base, base);
    AddedTagExtends(base, "error_type", ErrorType(status));
    AddedTagExtends(base["error_type" := ErrorType(status)], "error_message", errorMessage);
    AddedTagExtends(base, "duration_ms", IntToString(duration.Floor));
    AddedTagExtends(base, "endpoint", endpoint);
    assert AllExtend(g0, base) && AllExtend(g1, base) && AllExtend(g2, base) && AllExtend(g3, base);
    assert AllExtend(g4, base) && AllExtend(g5, base);
    match version {
      case Some(v) => AddedTagExtends(base, "api_version", v);
      case None =>
    }
    AllExtendAppend(g0, g1, base);
    AllExtendAppend(g0 + g1, g2, base);
    AllExtendAppend(g0 + g1 + g2, g3, base);
    AllExtendAppend(g0 + g1 + g2 + g3, g4, base);
    AllExtendAppend(g0 + g1 + g2 + g3 + g4, g5, base);
    AllExtendAppend(g0 + g1 + g2 + g3 + g4 + g5, g6, base);
  }

  /** From status 400 the error counter is sent right after the request metrics, tagged
      with the error type of the status and the error message. */
  lemma ErrorCounterTags(base: map<string, string>, status: int, duration: real, hasBody: bool, errorMessage: string,
                         endpoint: string, version: Option<string>)
    requires status >= 400
    ensures var r := Emitted(base, status, duration, hasBody, errorMessage, endpoint, version);
      exists i :: 0 <= i < |r| && r[i].name == "http.error.count"
                  && "error_type" in r[i].tags && r[i].tags["error_type"] == ErrorType(status)
                  && "error_message" in r[i].tags && r[i].tags["error_message"] == errorMessage
  {
    var r := Emitted(base, status, duration, hasBody, errorMessage, endpoint, version);
    var i := if hasBody then 3 else 2;
    assert r[i].name == "http.error.count";
  }

  /** The error counter's `error_message` tag is the message it was given. */
  lemma ErrorMessageTag(base: map<string, string>, status: int, duration: real, hasBody: bool, errorMessage: string,
                        endpoint: string, version: Option<string>)
    ensures var r := Emitted(base, status, duration, hasBody, errorMessage, endpoint, version);
      forall i :: 0 <= i < |r| && r[i].name == "http.error.count" ==>
        "error_message" in r[i].tags && r[i].tags["error_message"] == errorMessage
  {
    EmittedIsGroups(base, status, duration, hasBody, errorMessage, endpoint, version);
  }
}
