/**
  The scheduling REST client: how an HTTP outcome is classified into a decoded
  payload or a client error, how list and single-resource payloads are
  unwrapped, the memo of the current user's URI, and the query each endpoint
  sends.

  The transport is not modelled: a `Network` oracle maps each request to what
  the HTTP library reported (a response, a timeout, a connection failure, or
  another request failure). A response carries its status and its body, which
  is empty, decodes to JSON, or fails to decode.
 */
module CalendlyApi {
  import opened Wrappers
  import opened Text
  import opened JsonData
  import opened ApiErrors

  const ApiBase := "https://api.calendly.com"
  const DefaultTimeout := 10

  const MissingToken := "Calendly API token not provided"
  const InvalidToken := "Invalid or expired API token"
  const ResourceNotFound := "Resource not found"
  const RateLimited := "Rate limit exceeded"
  const TimedOutMessage := "Request timed out - Calendly may be slow or unavailable"
  const ConnectionMessage := "Connection failed - check internet connection"
  const UserUriMissing := "User URI not found in response"

  /**
    The client's state. `userUriCache` starts as `None` (`JNull`) and afterwards
    holds whatever the user resource's `uri` field was.
   */
  datatype Client = Client(token: string, timeout: int, userUriCache: Json)

  /**
    The constructor: the explicit token if it is non-empty, otherwise the
    `CALENDLY_API_TOKEN` environment value (passed in); no usable token is an
    authentication error.
   */
  function NewClient(apiToken: Option<string>, envToken: Option<string>, timeout: int): (r: Result<Client, ApiError>)
    ensures r.Err? <==> (apiToken.None? || apiToken.value == "") && (envToken.None? || envToken.value == "")
    ensures r.Err? ==> r.error == ApiError(Auth, MissingToken)
    ensures r.Ok? ==> r.value.token != "" && r.value.timeout == timeout && r.value.userUriCache == JNull
    ensures r.Ok? && apiToken.Some? && apiToken.value != "" ==> r.value.token == apiToken.value
    ensures r.Ok? && (apiToken.None? || apiToken.value == "") ==> r.value.token == envToken.value
  {
    var token := if apiToken.Some? && apiToken.value != "" then apiToken else envToken;
    if token.None? || token.value == "" then Err(ApiError(Auth, MissingToken))
    else Ok(Client(token.value, timeout, JNull))
  }

  // ---------------------------------------------------------------------------
  // Responses and transport failures

  /** The body of an HTTP response: no content, content that decodes as JSON, or content that does not. */
  datatype Body = NoContent | JsonBody(json: Json) | Undecodable(reason: string)

  datatype Response = Response(status: int, body: Body)

  /** What the HTTP library reported for one request. */
  datatype Transport = Delivered(response: Response) | TimedOut | ConnectFailed | RequestFailed(reason: string)

  /** The detail appended to `"API error {code}"` when the error body decodes. */
  function ErrorDetail(body: Body): (r: Result<string, Failure>)
    ensures body.JsonBody? && body.json.JObj? ==> r.Ok? && r.value != ""
    ensures body.JsonBody? && !body.json.JObj? ==> r.Err? && r.error.Unexpected?
    ensures !body.JsonBody? ==> r == Ok("")
  {
    match body
    case JsonBody(j) =>
      (match Get(j, "message", JStr("Unknown error"))
       case Ok(m) => Ok(": " + Display(m))
       case Err(e) => Err(Unexpected(e)))
    case _ => Ok("")
  }

  /**
    `_handle_response`: 401, 404 and 429 become their own error classes, any
    other status from 400 up the base class with the status code, and a
    successful response its decoded body (`{}` when empty).
   */
  function HandleResponse(resp: Response): (r: Result<Json, Failure>)
  {
    if resp.status == 401 then Err(Api(ApiError(Auth, InvalidToken)))
    else if resp.status == 404 then Err(Api(ApiError(NotFound, ResourceNotFound)))
    else if resp.status == 429 then Err(Api(ApiError(RateLimit, RateLimited)))
    else if resp.status >= 400 then
      match ErrorDetail(resp.body)
      case Ok(detail) => Err(Api(ApiError(Generic, "API error " + IntToString(resp.status) + detail)))
      case Err(f) => Err(f)
    else
      match resp.body
      case NoContent => Ok(JObj(map[]))
      case JsonBody(j) => Ok(j)
      case Undecodable(reason) => Err(Api(ApiError(Generic, "Invalid JSON response: " + reason)))
  }

  /** The error class a status maps to, for the statuses that are errors. */
  function StatusKind(status: int): (k: Option<ErrorKind>)
    ensures k.None? <==> status < 400
  {
    if status == 401 then Some(Auth)
    else if status == 404 then Some(NotFound)
    else if status == 429 then Some(RateLimit)
    else if status >= 400 then Some(Generic)
    else None
  }

  /**
    The status mapping: an error status raises an error of the class
    `StatusKind` names, or (only when a non-dictionary JSON error body is
    inspected) an unexpected failure; any other status returns the body.
   */
  lemma HandleResponseClassifies(resp: Response)
    ensures StatusKind(resp.status).Some? && HandleResponse(resp).Err? && HandleResponse(resp).error.Api?
      ==> HandleResponse(resp).error.err.kind == StatusKind(resp.status).value
    ensures StatusKind(resp.status).Some? ==> HandleResponse(resp).Err?
    ensures HandleResponse(resp).Err? && HandleResponse(resp).error.Unexpected?
      ==> resp.status >= 400 && resp.status !in {401, 404, 429} && resp.body.JsonBody? && !resp.body.json.JObj?
    ensures StatusKind(resp.status).None? ==>
      HandleResponse(resp) == match resp.body
        case NoContent => Ok(JObj(map[]))
        case JsonBody(j) => Ok(j)
        case Undecodable(reason) => Err(Api(ApiError(Generic, "Invalid JSON response: " + reason)))
  {
  }

  /** An error status other than the three special ones reports its code, and the body's message when there is one. */
  lemma GenericErrorMessage(status: int, fields: map<string, Json>)
    requires status >= 400 && status !in {401, 404, 429}
    ensures HandleResponse(Response(status, NoContent)) == Err(Api(ApiError(Generic, "API error " + IntToString(status))))
    ensures "message" in fields ==>
      HandleResponse(Response(status, JsonBody(JObj(fields))))
        == Err(Api(ApiError(Generic, "API error " + IntToString(status) + (": " + Display(fields["message"])))))
    ensures "message" !in fields ==>
      HandleResponse(Response(status, JsonBody(JObj(fields))))
        == Err(Api(ApiError(Generic, "API error " + IntToString(status) + ": Unknown error")))
  {
    var prefix := "API error " + IntToString(status);
    GenericStatus(status, NoContent);
    assert prefix + "" == prefix;
    GenericStatus(status, JsonBody(JObj(fields)));
    ObjectErrorDetail(fields);
  }

  /** An error status other than the three special ones raises the base class with the code and the body's detail. */
  lemma GenericStatus(status: int, body: Body)
    requires status >= 400 && status != 401 && status != 404 && status != 429
    ensures ErrorDetail(body).Ok? ==>
      HandleResponse(Response(status, body)) == Err(Api(ApiError(Generic, "API error " + IntToString(status) + ErrorDetail(body).value)))
  {
  }

  /** The detail of a dictionary error body is its message, or "Unknown error" without one. */
  lemma ObjectErrorDetail(fields: map<string, Json>)
    ensures "message" in fields ==> ErrorDetail(JsonBody(JObj(fields))) == Ok(": " + Display(fields["message"]))
    ensures "message" !in fields ==> ErrorDetail(JsonBody(JObj(fields))) == Ok(": Unknown error")
  {
    assert ": " + "Unknown error" == ": Unknown error";
  }

  /**
    `_make_request` after the request is sent: transport failures are mapped
    to their client error classes (a timeout is matched first), a delivered
    response is classified by `HandleResponse`.
   */
  function Outcome(t: Transport): (r: Result<Json, Failure>)
    ensures t.TimedOut? ==> r == Err(Api(ApiError(Timeout, TimedOutMessage)))
    ensures t.ConnectFailed? ==> r == Err(Api(ApiError(Connection, ConnectionMessage)))
    ensures t.RequestFailed? ==> r == Err(Api(ApiError(Generic, "Request failed: " + t.reason)))
    ensures t.Delivered? ==> r == HandleResponse(t.response)
  {
    match t
    case TimedOut => Err(Api(ApiError(Timeout, TimedOutMessage)))
    case ConnectFailed => Err(Api(ApiError(Connection, ConnectionMessage)))
    case RequestFailed(reason) => Err(Api(ApiError(Generic, "Request failed: " + reason)))
    case Delivered(resp) => HandleResponse(resp)
  }

  /** Every raised failure of a request is a client error except a non-dictionary error body. */
  lemma OutcomeFailuresAreClientErrors(t: Transport)
    requires Outcome(t).Err? && !(t.Delivered? && t.response.body.JsonBody? && !t.response.body.json.JObj?)
    ensures Outcome(t).error.Api?
  {
  }

  // ---------------------------------------------------------------------------
  // Requests and payload extraction

  /** One HTTP request: method, endpoint path below `ApiBase`, query parameters, JSON body. */
  datatype Request = Request(verb: string, endpoint: string, params: map<string, Json>, payload: Option<Json>)

  /** The transport oracle. */
  type Network = Request -> Transport

  /** The result of a client method, the client state afterwards, and the requests sent in order. */
  datatype Exchange<T> = Exchange(result: Result<T, Failure>, client: Client, sent: seq<Request>)

  /** `_make_request`: sends exactly the one request. */
  function MakeRequest(c: Client, net: Network, req: Request): (x: Exchange<Json>)
    ensures x.sent == [req] && x.client == c
    ensures x.result == Outcome(net(req))
  {
    Exchange(Outcome(net(req)), c, [req])
  }

  /** `data.get(key, default)` on a decoded payload; a payload that is not a dictionary fails unexpectedly. */
  function Field(data: Json, key: string, default: Json): (r: Result<Json, Failure>)
    ensures data.JObj? && key in data.fields ==> r == Ok(data.fields[key])
    ensures data.JObj? && key !in data.fields ==> r == Ok(default)
    ensures !data.JObj? ==> r.Err? && r.error.Unexpected?
  {
    match Get(data, key, default)
    case Ok(v) => Ok(v)
    case Err(e) => Err(Unexpected(e))
  }

  /** A list endpoint's answer: the `collection` field, or `[]`. */
  function Collection(data: Json): Result<Json, Failure> {
    Field(data, "collection", JArr([]))
  }

  /** A single-resource endpoint's answer: the `resource` field, or `{}`. */
  function Resource(data: Json): Result<Json, Failure> {
    Field(data, "resource", JObj(map[]))
  }

  /**
    `data.get(key, default)` applied to a request's outcome `o`: a raised error
    passes through, a dictionary answers its `key` entry or `default`, and any
    other payload fails unexpectedly.
   */
  predicate Unwraps(o: Result<Json, Failure>, r: Result<Json, Failure>, key: string, default: Json) {
    && (o.Err? ==> r == o)
    && (o.Ok? && o.value.JObj? ==> r == Ok(if key in o.value.fields then o.value.fields[key] else default))
    && (o.Ok? && !o.value.JObj? ==> r.Err? && r.error.Unexpected?)
  }

  /** A list endpoint's answer to the outcome `o`: its `collection`, or `[]`. */
  predicate ListAnswer(o: Result<Json, Failure>, r: Result<Json, Failure>) {
    Unwraps(o, r, "collection", JArr([]))
  }

  /** A single-resource endpoint's answer to the outcome `o`: its `resource`, or `{}`. */
  predicate ResourceAnswer(o: Result<Json, Failure>, r: Result<Json, Failure>) {
    Unwraps(o, r, "resource", JObj(map[]))
  }

  /** Applies an extraction to a request's result, keeping the state and the trace. */
  function Extract(x: Exchange<Json>, f: Json -> Result<Json, Failure>): (y: Exchange<Json>)
    ensures y.client == x.client && y.sent == x.sent
    ensures x.result.Err? ==> y.result == x.result
    ensures x.result.Ok? ==> y.result == f(x.result.value)
  {
    match x.result
    case Ok(data) => Exchange(f(data), x.client, x.sent)
    case Err(e) => Exchange(Err(e), x.client, x.sent)
  }

  /** `get_current_user`. */
  function GetCurrentUser(c: Client, net: Network): (x: Exchange<Json>)
    ensures x.client == c && x.sent == [Request("GET", "/users/me", map[], None)]
    ensures ResourceAnswer(Outcome(net(Request("GET", "/users/me", map[], None))), x.result)
  {
    Extract(MakeRequest(c, net, Request("GET", "/users/me", map[], None)), Resource)
  }

  /**
    `get_user_uri`: a truthy memo answers without a request. Otherwise the
    current user is fetched and the memo set to its `uri` field (`""` when
    absent) before that value is checked.
   */
  function GetUserUri(c: Client, net: Network): (x: Exchange<Json>)
    ensures Truthy(c.userUriCache) ==> x == Exchange(Ok(c.userUriCache), c, [])
    ensures !Truthy(c.userUriCache) ==> |x.sent| == 1
    ensures x.result.Ok? ==> Truthy(x.result.value) && x.client.userUriCache == x.result.value
    ensures x.result.Err? ==> !Truthy(x.client.userUriCache)
    ensures x.client.token == c.token && x.client.timeout == c.timeout
  {
    if Truthy(c.userUriCache) then Exchange(Ok(c.userUriCache), c, [])
    else
      var user := GetCurrentUser(c, net);
      match user.result
      case Err(e) => Exchange(Err(e), c, user.sent)
      case Ok(data) =>
        match Field(data, "uri", JStr(""))
        case Err(e) => Exchange(Err(e), c, user.sent)
        case Ok(uri) =>
          var c' := c.(userUriCache := uri);
          if !Truthy(uri) then Exchange(Err(Api(ApiError(Generic, UserUriMissing))), c', user.sent)
          else Exchange(Ok(uri), c', user.sent)
  }

  /** Once the memo holds a URI, every later lookup answers from it, whatever the network does. */
  lemma UserUriMemoIsStable(c: Client, net1: Network, net2: Network)
    requires GetUserUri(c, net1).result.Ok?
    ensures var c1 := GetUserUri(c, net1).client;
      GetUserUri(c1, net2) == Exchange(Ok(GetUserUri(c, net1).result.value), c1, [])
  {
  }

  /** A user resource without a usable `uri` raises, and the next lookup asks the network again. */
  lemma UserUriMissingRefetches(c: Client, net1: Network, net2: Network)
    requires !Truthy(c.userUriCache)
    requires Outcome(net1(Request("GET", "/users/me", map[], None))) == Ok(JObj(map["resource" := JObj(map[])]))
    ensures GetUserUri(c, net1).result == Err(Api(ApiError(Generic, UserUriMissing)))
    ensures GetUserUri(c, net1).client.userUriCache == JStr("")
    ensures GetUserUri(GetUserUri(c, net1).client, net2).sent == [Request("GET", "/users/me", map[], None)]
  {
  }

  /** An explicit user URI is used as given; otherwise the memoised one is looked up first. */
  function ResolveUser(c: Client, net: Network, userUri: Json): (x: Exchange<Json>)
    ensures Truthy(userUri) ==> x == Exchange(Ok(userUri), c, [])
    ensures !Truthy(userUri) ==> x == GetUserUri(c, net)
  {
    if Truthy(userUri) then Exchange(Ok(userUri), c, []) else GetUserUri(c, net)
  }

  /** Runs one request after a preceding exchange, unless that one raised. */
  function Then(x: Exchange<Json>, net: Network, req: Json -> Request, f: Json -> Result<Json, Failure>): (y: Exchange<Json>)
    ensures x.result.Err? ==> y == x
    ensures x.result.Ok? ==> y.client == x.client && y.sent == x.sent + [req(x.result.value)]
    ensures x.result.Ok? ==> y.result == (match Outcome(net(req(x.result.value)))
      case Ok(data) => f(data)
      case Err(e) => Err(e))
  {
    match x.result
    case Err(_) => x
    case Ok(v) =>
      var y := Extract(MakeRequest(x.client, net, req(v)), f);
      Exchange(y.result, y.client, x.sent + y.sent)
  }

  /** The query `get_event_types` sends. */
  function EventTypesQuery(user: Json, active: bool): map<string, Json> {
    map["user" := user, "active" := JStr(if active then "true" else "false")]
  }

  /** `get_event_types`. */
  function GetEventTypes(c: Client, net: Network, userUri: Json, active: bool): (x: Exchange<Json>)
    ensures Truthy(userUri) ==> x.client == c && x.sent == [Request("GET", "/event_types", EventTypesQuery(userUri, active), None)]
    ensures !Truthy(userUri) && x.result.Ok? ==>
      Truthy(x.client.userUriCache) && |x.sent| >= 1 && x.sent[|x.sent| - 1] == Request("GET", "/event_types", EventTypesQuery(x.client.userUriCache, active), None)
    ensures !Truthy(userUri) && GetUserUri(c, net).result.Err? ==> x == GetUserUri(c, net)
    ensures Truthy(userUri) || GetUserUri(c, net).result.Ok? ==>
      |x.sent| >= 1 && ListAnswer(Outcome(net(x.sent[|x.sent| - 1])), x.result)
  {
    Then(ResolveUser(c, net, userUri), net, u => Request("GET", "/event_types", EventTypesQuery(u, active), None), Collection)
  }

  /** `get_available_times`. */
  function GetAvailableTimes(c: Client, net: Network, eventType: Json, start: Json, end: Json): (x: Exchange<Json>)
    ensures x.client == c
    ensures x.sent == [Request("GET", "/event_type_available_times",
      map["event_type" := eventType, "start_time" := start, "end_time" := end], None)]
    ensures |x.sent| == 1 && ListAnswer(Outcome(net(x.sent[0])), x.result)
  {
    Extract(MakeRequest(c, net, Request("GET", "/event_type_available_times",
      map["event_type" := eventType, "start_time" := start, "end_time" := end], None)), Collection)
  }

  /** The body `create_invitee` posts. */
  function InviteePayload(eventType: Json, start: Json, email: Json, name: Json): Json {
    JObj(map["event_type_uri" := eventType, "start_time" := start,
             "invitee" := JObj(map["email" := email, "name" := name])])
  }

  /** `create_invitee`. */
  function CreateInvitee(c: Client, net: Network, eventType: Json, start: Json, email: Json, name: Json): (x: Exchange<Json>)
    ensures x.client == c
    ensures x.sent == [Request("POST", "/scheduling/invitees", map[], Some(InviteePayload(eventType, start, email, name)))]
    ensures |x.sent| == 1 && ResourceAnswer(Outcome(net(x.sent[0])), x.result)
  {
    Extract(MakeRequest(c, net, Request("POST", "/scheduling/invitees", map[], Some(InviteePayload(eventType, start, email, name)))), Resource)
  }

  /** The query `get_scheduled_events` sends. */
  function ScheduledEventsQuery(user: Json, status: Json, minStart: Json, count: Json): (q: map<string, Json>)
    ensures q.Keys == if Truthy(minStart) then {"user", "status", "count", "min_start_time"} else {"user", "status", "count"}
    ensures q["user"] == user && q["status"] == status && q["count"] == count
    ensures Truthy(minStart) ==> q["min_start_time"] == minStart
  {
    var q := map["user" := user, "status" := status, "count" := count];
    if Truthy(minStart) then q["min_start_time" := minStart] else q
  }

  /** The defaults of `get_scheduled_events`. */
  const DefaultStatus := JStr("active")
  const DefaultCount := JNum(100)

  /** `get_scheduled_events`. */
  function GetScheduledEvents(c: Client, net: Network, userUri: Json, status: Json, minStart: Json, count: Json): (x: Exchange<Json>)
    ensures Truthy(userUri) ==> x.client == c && x.sent == [Request("GET", "/scheduled_events", ScheduledEventsQuery(userUri, status, minStart, count), None)]
    ensures !Truthy(userUri) && x.result.Ok? ==>
      Truthy(x.client.userUriCache) && |x.sent| >= 1 && x.sent[|x.sent| - 1] == Request("GET", "/scheduled_events", ScheduledEventsQuery(x.client.userUriCache, status, minStart, count), None)
    ensures !Truthy(userUri) && GetUserUri(c, net).result.Err? ==> x == GetUserUri(c, net)
    ensures Truthy(userUri) || GetUserUri(c, net).result.Ok? ==>
      |x.sent| >= 1 && ListAnswer(Outcome(net(x.sent[|x.sent| - 1])), x.result)
  {
    Then(ResolveUser(c, net, userUri), net, u => Request("GET", "/scheduled_events", ScheduledEventsQuery(u, status, minStart, count), None), Collection)
  }

  /** `get_event_invitees`. */
  function GetEventInvitees(c: Client, net: Network, uuid: string): (x: Exchange<Json>)
    ensures x.client == c && x.sent == [Request("GET", "/scheduled_events/" + uuid + "/invitees", map[], None)]
    ensures |x.sent| == 1 && ListAnswer(Outcome(net(x.sent[0])), x.result)
  {
    Extract(MakeRequest(c, net, Request("GET", "/scheduled_events/" + uuid + "/invitees", map[], None)), Collection)
  }

  const DefaultCancelReason := "Cancelled by patient"

  /** `cancel_event`: the decoded answer is returned as is. */
  function CancelEvent(c: Client, net: Network, uuid: string, reason: string): (x: Exchange<Json>)
    ensures x.client == c
    ensures x.sent == [Request("POST", "/scheduled_events/" + uuid + "/cancellation", map[], Some(JObj(map["reason" := JStr(reason)])))]
    ensures x.result == Outcome(net(x.sent[0]))
  {
    MakeRequest(c, net, Request("POST", "/scheduled_events/" + uuid + "/cancellation", map[], Some(JObj(map["reason" := JStr(reason)]))))
  }

  /** The invitee listing answers a dictionary payload's `collection`, or `[]` when the payload has none. */
  lemma ListEndpointsUnwrapCollection(c: Client, net: Network, uuid: string, fields: map<string, Json>)
    requires Outcome(net(Request("GET", "/scheduled_events/" + uuid + "/invitees", map[], None))) == Ok(JObj(fields))
    ensures GetEventInvitees(c, net, uuid).result == Ok(if "collection" in fields then fields["collection"] else JArr([]))
  {
  }

  /** Booking an invitee answers a dictionary payload's `resource`, or `{}` when the payload has none. */
  lemma ResourceEndpointsUnwrapResource(c: Client, net: Network, eventType: Json, start: Json, email: Json, name: Json, fields: map<string, Json>)
    requires Outcome(net(Request("POST", "/scheduling/invitees", map[], Some(InviteePayload(eventType, start, email, name))))) == Ok(JObj(fields))
    ensures CreateInvitee(c, net, eventType, start, email, name).result
      == Ok(if "resource" in fields then fields["resource"] else JObj(map[]))
  {
  }
}
