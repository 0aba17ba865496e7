/** The typed client for the Triggers API: the records it exchanges, how each
    call's request is built, and how a reply becomes a value or an `APIError`.
    The transport itself (`fetch`) is outside the model: a call's reply is an
    input. */
module Api {
  import opened Wrappers
  import opened Numbers
  import opened Json
  import opened Text

  /** An event as the inbox returns it. `timestamp` is in milliseconds. */
  datatype EventItem = EventItem(
    id: string,
    timestamp: int,
    payload: Json,
    source: Option<string>,
    status: string)

  datatype InboxResponse = InboxResponse(events: seq<EventItem>, total: int, limit: int, offset: int)

  datatype StatsResponse = StatsResponse(pending: int, acknowledged: int, total: int)

  datatype AcknowledgeResponse = AcknowledgeResponse(eventId: string, status: string, message: string)

  datatype EventRequest = EventRequest(
    payload: Json,
    source: Option<string>,
    tags: Option<seq<string>>,
    metadata: Option<Json>)

  /** The error a non-2xx reply raises: its status, its body and the body's message. */
  datatype ApiError = ApiError(status: int, error: Json, message: string)

  /** Why a call rejected: the backend answered with an error status, the
      request never got an answer, or the answer could not be read. */
  datatype ApiFailure =
    | HttpError(err: ApiError)
    | NetworkError
    | InvalidBody

  datatype Method = Get | Post

  datatype RequestOptions = RequestOptions(
    verb: Option<Method>,
    headers: map<string, string>,
    body: Option<string>)

  datatype Request = Request(
    verb: Method,
    url: string,
    headers: map<string, string>,
    body: Option<string>)

  /** What came back from `fetch`: the status and the body, `None` when the
      body is not JSON. */
  datatype Reply = Reply(status: int, body: Option<Json>)

  const DefaultBaseUrl: string := "http://localhost:8000"
  const ContentType: string := "Content-Type"
  const JsonMediaType: string := "application/json"
  const EventsPath: string := "/v1/events"
  const InboxBasePath: string := "/v1/events/inbox"
  const StatsPath: string := "/v1/events/stats"
  const HealthPath: string := "/health"
  const AckPrefix: string := "/v1/events/"
  const AckSuffix: string := "/ack"

  /** The status of an event still waiting in the inbox. */
  const PendingStatus: string := "pending"

  /** `process.env.NEXT_PUBLIC_API_URL || 'http://localhost:8000'`. */
  function BaseUrl(env: Option<string>): (r: string)
    ensures env.Some? && env.value != "" ==> r == env.value
    ensures env.None? || env.value == "" ==> r == DefaultBaseUrl
    ensures |r| > 0
  {
    if env.Some? && env.value != "" then env.value else DefaultBaseUrl
  }

  /** The request `fetchAPI` hands to `fetch`: the URL is base plus endpoint,
      the options are passed through, and the headers are the JSON content
      type overridden by whatever the caller supplied. */
  function PrepareRequest(base: string, endpoint: string, options: Option<RequestOptions>): (r: Request)
    ensures |r.url| == |base| + |endpoint|
    ensures r.url[..|base|] == base && r.url[|base|..] == endpoint
    ensures r.headers.Keys == {ContentType} + (if options.Some? then options.value.headers.Keys else {})
    ensures options.Some? ==> forall h :: h in options.value.headers ==> r.headers[h] == options.value.headers[h]
    ensures (options.None? || ContentType !in options.value.headers) ==> r.headers[ContentType] == JsonMediaType
    ensures r.verb == Post <==> options.Some? && options.value.verb == Some(Post)
    ensures options.None? ==> r.body.None?
    ensures options.Some? ==> r.body == options.value.body
  {
    var given := if options.Some? then options.value.headers else map[];
    Request(
      if options.Some? && options.value.verb.Some? then options.value.verb.value else Get,
      base + endpoint,
      map[ContentType := JsonMediaType] + given,
      if options.Some? then options.value.body else None)
  }

  /** A 2xx status (`response.ok`). */
  predicate IsOk(status: int) {
    200 <= status <= 299
  }

  /** The message an `APIError` carries: `String(body.message)`, empty when
      the body has no `message` member. */
  function MessageOf(body: Json): string {
    match Member(body, "message")
    case Some(m) => ToJsString(m)
    case None => ""
  }

  /** `fetchAPI`'s handling of the reply: the parsed body of a 2xx reply is
      returned as it is; any other status raises an `APIError` built from the
      body. `None` stands for a `fetch` that rejected. */
  function Complete(reply: Option<Reply>): (r: Result<Json, ApiFailure>)
    ensures r.Ok? <==> reply.Some? && IsOk(reply.value.status) && reply.value.body.Some?
    ensures r.Ok? ==> r.value == reply.value.body.value
    ensures r.Err? && r.error.HttpError? ==>
              && reply.Some? && !IsOk(reply.value.status)
              && r.error.err.status == reply.value.status
              && reply.value.body == Some(r.error.err.error)
    ensures reply.Some? && !IsOk(reply.value.status) && reply.value.body.Some? ==>
              match Member(reply.value.body.value, "message")
              case Some(JString(m)) => r == Err(HttpError(ApiError(reply.value.status, reply.value.body.value, m)))
              case None => && r.Err?
                           && (r.error.HttpError? <==> !reply.value.body.value.JNull?)
                           && (r.error.HttpError? ==> r.error.err.message == "")
              case _ => r.Err? && r.error.HttpError?
    ensures reply.None? ==> r == Err(NetworkError)
  {
    match reply
    case None => Err(NetworkError)
    case Some(Reply(status, body)) =>
      match body
      case None => Err(InvalidBody)
      case Some(data) =>
        if IsOk(status) then Ok(data)
        // reading `.message` of a `null` body throws a TypeError, not an APIError
        else if data.JNull? then Err(InvalidBody)
        else Err(HttpError(ApiError(status, data, MessageOf(data))))
  }

  /** The text a view shows for a failed call: the `APIError`'s message, or
      the view's own wording for any other failure. */
  function FailureText(f: ApiFailure, otherwise: string): (r: string)
    ensures f.HttpError? ==> r == f.err.message
    ensures !f.HttpError? ==> r == otherwise
  {
    match f
    case HttpError(e) => e.message
    case _ => otherwise
  }

  // ---------------------------------------------------------------------------
  // The inbox query string

  datatype InboxParams = InboxParams(
    limit: Option<int>,
    offset: Option<int>,
    source: Option<string>,
    since: Option<string>)

  /** The four search parameters of `getInbox`, in the order it sets them. */
  datatype Param = Limit | Offset | Source | Since

  /** The name a parameter is written under. */
  function ParamName(k: Param): (r: string)
    ensures '=' !in r && '&' !in r
  {
    match k
    case Limit => "limit"
    case Offset => "offset"
    case Source => "source"
    case Since => "since"
  }

  /** The position of a parameter in the order `getInbox` sets them. */
  function ParamRank(k: Param): int {
    match k
    case Limit => 0
    case Offset => 1
    case Source => 2
    case Since => 3
  }

  /** A number parameter: set when present and truthy (non-zero). */
  function NumberParam(k: Param, v: Option<int>): (r: seq<(Param, string)>)
    ensures |r| <= 1
    ensures |r| == 1 <==> v.Some? && v.value != 0
    ensures |r| == 1 ==> r[0] == (k, IntToString(v.value))
  {
    if v.Some? && v.value != 0 then [(k, IntToString(v.value))] else []
  }

  /** A string parameter: set when present and truthy (non-empty). */
  function StringParam(k: Param, v: Option<string>): (r: seq<(Param, string)>)
    ensures |r| <= 1
    ensures |r| == 1 <==> v.Some? && v.value != ""
    ensures |r| == 1 ==> r[0] == (k, v.value)
  {
    if v.Some? && v.value != "" then [(k, v.value)] else []
  }

  /** The search parameters `getInbox` sets, in the order it sets them. */
  function InboxQuery(params: Option<InboxParams>): (q: seq<(Param, string)>)
    ensures |q| <= 4
    ensures forall v :: (Limit, v) in q <==>
              params.Some? && params.value.limit.Some? && params.value.limit.value != 0
              && v == IntToString(params.value.limit.value)
    ensures forall v :: (Offset, v) in q <==>
              params.Some? && params.value.offset.Some? && params.value.offset.value != 0
              && v == IntToString(params.value.offset.value)
    ensures forall v :: (Source, v) in q <==>
              params.Some? && params.value.source.Some? && params.value.source.value != ""
              && v == params.value.source.value
    ensures forall v :: (Since, v) in q <==>
              params.Some? && params.value.since.Some? && params.value.since.value != ""
              && v == params.value.since.value
  {
    match params
    case None => []
    case Some(p) =>
      NumberParam(Limit, p.limit) + NumberParam(Offset, p.offset)
      + StringParam(Source, p.source) + StringParam(Since, p.since)
  }

  /** `getInbox` sets limit, offset, source and since in that order, each at
      most once. */
  lemma InboxQueryOrdered(params: Option<InboxParams>)
    ensures var q := InboxQuery(params);
            forall i, j :: 0 <= i < j < |q| ==> ParamRank(q[i].0) < ParamRank(q[j].0)
  {
    if params.Some? {
      var p := params.value;
      var a := NumberParam(Limit, p.limit);
      var b := NumberParam(Offset, p.offset);
      var c := StringParam(Source, p.source);
      var d := StringParam(Since, p.since);
      PiecesInRankOrder(a, b, c, d);
    }
  }

  /** At most one parameter of each rank, laid out rank by rank, gives
      strictly increasing ranks. */
  lemma PiecesInRankOrder(a: seq<(Param, string)>, b: seq<(Param, string)>,
                          c: seq<(Param, string)>, d: seq<(Param, string)>)
    requires |a| <= 1 && |b| <= 1 && |c| <= 1 && |d| <= 1
    requires forall i :: 0 <= i < |a| ==> ParamRank(a[i].0) == 0
    requires forall i :: 0 <= i < |b| ==> ParamRank(b[i].0) == 1
    requires forall i :: 0 <= i < |c| ==> ParamRank(c[i].0) == 2
    requires forall i :: 0 <= i < |d| ==> ParamRank(d[i].0) == 3
    ensures var q := a + b + c + d;
            forall i, j :: 0 <= i < j < |q| ==> ParamRank(q[i].0) < ParamRank(q[j].0)
  {
    var q := a + b + c + d;
    forall i | 0 <= i < |q|
      ensures ParamRank(q[i].0) == if i < |a| then 0 else if i < |a| + |b| then 1
                                   else if i < |a| + |b| + |c| then 2 else 3
    {
    }
  }

  /** Whether any parameter is truthy. */
  predicate AnyParamSet(params: Option<InboxParams>) {
    && params.Some?
    && (|| (params.value.limit.Some? && params.value.limit.value != 0)
        || (params.value.offset.Some? && params.value.offset.value != 0)
        || (params.value.source.Some? && params.value.source.value != "")
        || (params.value.since.Some? && params.value.since.value != ""))
  }

  /** The parameters as (name, value) pairs. */
  function Named(q: seq<(Param, string)>): (r: seq<(string, string)>)
    ensures |r| == |q|
    ensures forall i :: 0 <= i < |q| ==> r[i] == (ParamName(q[i].0), q[i].1)
  {
    seq(|q|, i requires 0 <= i < |q| => (ParamName(q[i].0), q[i].1))
  }

  /** `name=value` pairs joined by `&`, as `URLSearchParams.toString` lays
      them out (values are written as given; see README). */
  function QueryString(q: seq<(string, string)>): string {
    Join(seq(|q|, i requires 0 <= i < |q| => q[i].0 + "=" + q[i].1), "&")
  }

  /** The endpoint `getInbox` calls: the inbox path, followed by `?` and the
      query only when some parameter is set. */
  function InboxPath(params: Option<InboxParams>): (r: string)
    ensures r == InboxBasePath <==> !AnyParamSet(params)
    ensures AnyParamSet(params) ==> r == InboxBasePath + "?" + QueryString(Named(InboxQuery(params)))
  {
    var q := InboxQuery(params);
    assert |q| == 0 <==> !AnyParamSet(params) by {
      if AnyParamSet(params) {
        var p := params.value;
        if p.limit.Some? && p.limit.value != 0 {
          assert (Limit, IntToString(p.limit.value)) in q;
        } else if p.offset.Some? && p.offset.value != 0 {
          assert (Offset, IntToString(p.offset.value)) in q;
        } else if p.source.Some? && p.source.value != "" {
          assert (Source, p.source.value) in q;
        } else {
          assert (Since, p.since.value) in q;
        }
      }
    }
    if |q| == 0 then InboxBasePath else InboxBasePath + "?" + QueryString(Named(q))
  }

  /** Reads a query string back into `name=value` pairs. */
  function ParseQuery(qs: string): seq<(string, string)> {
    if qs == "" then []
    else
      var parts := Split(qs, '&');
      seq(|parts|, i requires 0 <= i < |parts| => (Before(parts[i], '='), After(parts[i], '=')))
  }

  /** Reads the parameters back out of an inbox path. */
  function ParseInboxPath(path: string): seq<(string, string)> {
    if '?' in path then ParseQuery(After(path, '?')) else []
  }

  /** A number written with `String` holds neither separator. */
  lemma IntToStringPlain(n: int)
    ensures '&' !in IntToString(n) && '=' !in IntToString(n)
  {
    var ds := NatToString(if n < 0 then -n else n);
    assert forall i :: 0 <= i < |ds| ==> IsDigit(ds[i]);
  }

  /** A query string reads back into its pairs when no name holds `=` and
      nothing holds `&`. */
  lemma ParseQueryString(q: seq<(string, string)>)
    requires |q| > 0
    requires forall i :: 0 <= i < |q| ==> '=' !in q[i].0 && '&' !in q[i].0 && '&' !in q[i].1
    ensures ParseQuery(QueryString(q)) == q
  {
    var pairs := seq(|q|, i requires 0 <= i < |q| => q[i].0 + "=" + q[i].1);
    forall i | 0 <= i < |q|
      ensures '&' !in pairs[i]
      ensures Before(pairs[i], '=') == q[i].0 && After(pairs[i], '=') == q[i].1
    {
      assert pairs[i] == q[i].0 + ['='] + q[i].1;
      BeforeAfter(q[i].0, '=', q[i].1);
    }
    SplitJoin(pairs, '&');
    assert |pairs[0]| > 0;
    assert QueryString(q) != "" by {
      if |q| > 1 {
        assert QueryString(q) == pairs[0] + "&" + Join(pairs[1..], "&");
      }
    }
  }

  /** No value `getInbox` sets holds `&` when the source and since filters
      do not. */
  lemma InboxQueryPlain(params: Option<InboxParams>)
    requires params.Some? && params.value.source.Some? ==> '&' !in params.value.source.value
    requires params.Some? && params.value.since.Some? ==> '&' !in params.value.since.value
    ensures forall i :: 0 <= i < |InboxQuery(params)| ==> '&' !in InboxQuery(params)[i].1
  {
    var q := InboxQuery(params);
    if params.Some? {
      var p := params.value;
      if p.limit.Some? { IntToStringPlain(p.limit.value); }
      if p.offset.Some? { IntToStringPlain(p.offset.value); }
    }
    forall i | 0 <= i < |q|
      ensures '&' !in q[i].1
    {
      assert (q[i].0, q[i].1) in q;
    }
  }

  /** The inbox path lists exactly the parameters set, in order: reading it
      back gives `InboxQuery` under the parameters' names. Values are written
      unencoded in this model, so the source and since filters must not
      contain `&`. */
  lemma InboxPathRoundTrip(params: Option<InboxParams>)
    requires params.Some? && params.value.source.Some? ==> '&' !in params.value.source.value
    requires params.Some? && params.value.since.Some? ==> '&' !in params.value.since.value
    ensures ParseInboxPath(InboxPath(params)) == Named(InboxQuery(params))
  {
    var q := InboxQuery(params);
    var named := Named(q);
    assert '?' !in InboxBasePath;
    if |q| > 0 {
      InboxQueryPlain(params);
      ParseQueryString(named);
      assert InboxPath(params) == InboxBasePath + ['?'] + QueryString(named);
      BeforeAfter(InboxBasePath, '?', QueryString(named));
    }
  }

  /** The endpoint `acknowledgeEvent` posts to. */
  function AckPath(eventId: string): (r: string)
    ensures |r| == |AckPrefix| + |eventId| + |AckSuffix|
    ensures r[..|AckPrefix|] == AckPrefix
    ensures r[|r| - |AckSuffix|..] == AckSuffix
    ensures r[|AckPrefix|..|r| - |AckSuffix|] == eventId
  {
    AckPrefix + eventId + AckSuffix
  }

  /** A list of strings as a JSON array, element by element in order. */
  function StringArray(ts: seq<string>): (r: Json)
    ensures r.JArray? && |r.items| == |ts|
    ensures forall i :: 0 <= i < |ts| ==> r.items[i] == JString(ts[i])
  {
    JArray(seq(|ts|, i requires 0 <= i < |ts| => JString(ts[i])))
  }

  /** The body of `createEvent`: `JSON.stringify` leaves out the members
      that are `undefined`. */
  function EventRequestJson(ev: EventRequest): (j: Json)
    ensures Member(j, "payload") == Some(ev.payload)
    ensures Member(j, "source").Some? <==> ev.source.Some?
    ensures ev.source.Some? ==> Member(j, "source") == Some(JString(ev.source.value))
    ensures Member(j, "tags").Some? <==> ev.tags.Some?
    ensures ev.tags.Some? ==> Member(j, "tags") == Some(StringArray(ev.tags.value))
    ensures Member(j, "metadata") == ev.metadata
  {
    var tags := if ev.tags.Some? then [("tags", StringArray(ev.tags.value))] else [];
    var source := if ev.source.Some? then [("source", JString(ev.source.value))] else [];
    var metadata := if ev.metadata.Some? then [("metadata", ev.metadata.value)] else [];
    LastMemberAppend([("payload", ev.payload)] + source + tags, metadata, "payload");
    LastMemberAppend([("payload", ev.payload)] + source, tags, "payload");
    LastMemberAppend([("payload", ev.payload)], source, "payload");
    LastMemberAppend([("payload", ev.payload)] + source + tags, metadata, "source");
    LastMemberAppend([("payload", ev.payload)] + source, tags, "source");
    LastMemberAppend([("payload", ev.payload)], source, "source");
    LastMemberAppend([("payload", ev.payload)] + source + tags, metadata, "tags");
    LastMemberAppend([("payload", ev.payload)] + source, tags, "tags");
    LastMemberAppend([("payload", ev.payload)] + source + tags, metadata, "metadata");
    JObject([("payload", ev.payload)] + source + tags + metadata)
  }

  // ---------------------------------------------------------------------------
  // The five calls

  /** Without headers of the caller's own, only the JSON content type is sent. */
  lemma PlainHeaders(base: string, endpoint: string, options: Option<RequestOptions>)
    requires options.Some? ==> options.value.headers == map[]
    ensures PrepareRequest(base, endpoint, options).headers == map[ContentType := JsonMediaType]
  {
  }

  /** `createEvent`: a POST of the serialised event to the events endpoint. */
  function CreateEventRequest(base: string, ev: EventRequest): (r: Request)
    ensures r.verb == Post
    ensures r.url == base + EventsPath
    ensures r.headers == map[ContentType := JsonMediaType]
    ensures r.body == Some(Serialize(EventRequestJson(ev)))
  {
    var options := Some(RequestOptions(Some(Post), map[], Some(Serialize(EventRequestJson(ev)))));
    PlainHeaders(base, EventsPath, options);
    PrepareRequest(base, EventsPath, options)
  }

  /** `getInbox`: a GET of the inbox path with its query, without a body. */
  function GetInboxRequest(base: string, params: Option<InboxParams>): (r: Request)
    ensures r.verb == Get
    ensures r.url == base + InboxPath(params)
    ensures r.headers == map[ContentType := JsonMediaType]
    ensures r.body.None?
  {
    PlainHeaders(base, InboxPath(params), None);
    PrepareRequest(base, InboxPath(params), None)
  }

  /** `acknowledgeEvent`: a POST without a body to the event's ack path. */
  function AcknowledgeRequest(base: string, eventId: string): (r: Request)
    ensures r.verb == Post
    ensures r.url == base + "/v1/events/" + eventId + "/ack"
    ensures r.headers == map[ContentType := JsonMediaType]
    ensures r.body.None?
  {
    PlainHeaders(base, AckPath(eventId), Some(RequestOptions(Some(Post), map[], None)));
    PrepareRequest(base, AckPath(eventId), Some(RequestOptions(Some(Post), map[], None)))
  }

  /** `getStats`: a GET of the stats endpoint. */
  function GetStatsRequest(base: string): (r: Request)
    ensures r.verb == Get
    ensures r.url == base + "/v1/events/stats"
    ensures r.headers == map[ContentType := JsonMediaType]
    ensures r.body.None?
  {
    PlainHeaders(base, StatsPath, None);
    PrepareRequest(base, StatsPath, None)
  }

  /** `healthCheck`: a GET of the health endpoint. */
  function HealthCheckRequest(base: string): (r: Request)
    ensures r.verb == Get
    ensures r.url == base + "/health"
    ensures r.headers == map[ContentType := JsonMediaType]
    ensures r.body.None?
  {
    PlainHeaders(base, HealthPath, None);
    PrepareRequest(base, HealthPath, None)
  }

  /** The inbox request for one parameter, `limit`, asks for
      `/v1/events/inbox?limit=<n>`. */
  lemma LimitOnlyRequest(base: string, n: int)
    requires n != 0
    ensures GetInboxRequest(base, Some(InboxParams(Some(n), None, None, None))).url
         == base + "/v1/events/inbox?limit=" + IntToString(n)
  {
    var params := Some(InboxParams(Some(n), None, None, None));
    var q := NumberParam(Limit, Some(n)) + NumberParam(Offset, None)
             + StringParam(Source, None) + StringParam(Since, None);
    assert q == [(Limit, IntToString(n))];
    assert InboxQuery(params) == q;
    assert Named(q) == [("limit", IntToString(n))];
    assert QueryString(Named(q)) == "limit=" + IntToString(n);
    assert InboxPath(params) == InboxBasePath + "?" + QueryString(Named(q));
  }
}
