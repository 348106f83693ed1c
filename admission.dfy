/**
 * What the handler decides before any upstream call: deny by origin,
 * answer the preflight, refuse other methods, require `Text`, require the
 * configuration, and otherwise build the upstream request.
 */
module Admission {
  import opened Wrappers
  import opened JsValues
  import opened AccessGuard
  import opened Framing

  const AccessDenied: string := "Access denied: Unauthorized domain"
  const MethodNotAllowed: string := "Method not allowed"
  const TextRequired: string := "Text is required"
  const ConfigurationError: string := "Service configuration error"
  const UpstreamFailed: string := "Failed to get response from AI service"
  const DefaultApiUrl: string := "https://api-enterprise.personal.ai/v1/message/stream"
  const DefaultUserName: string := "anonymous@user.com"
  const DefaultSourceName: string := "WebChat"

  /**
   * The deployment: the allowed domains and the three environment values
   * (`None` when the variable is unset).
   */
  datatype Config = Config(
    allowedDomains: seq<string>,
    apiKey: Option<string>,
    domainName: Option<string>,
    apiUrl: Option<string>)

  /** The inbound request: its HTTP method (`verb`), the three headers consulted, and the parsed JSON body. */
  datatype Request = Request(
    verb: string,
    origin: Option<string>,
    referer: Option<string>,
    referrer: Option<string>,
    body: map<string, JsValue>)

  /** A response body: none, a JSON `{error}` object, or a stream of frames as `text/plain`. */
  datatype ReplyBody = NoContent | ErrorJson(error: string) | EventStream(frames: seq<Frame>)

  /**
   * A response: its status, the `Access-Control-Allow-Origin` value when the
   * CORS headers were set (the three other CORS headers are set with it),
   * and its body.
   */
  datatype Reply = Reply(status: int, allowOrigin: Option<string>, body: ReplyBody)

  /** The JSON body sent upstream; `context` is `None` when the key is left out. */
  datatype UpstreamRequest = UpstreamRequest(
    text: JsValue,
    userName: JsValue,
    sourceName: JsValue,
    sessionId: JsValue,
    domainName: string,
    isDraft: JsValue,
    context: Option<JsValue>)

  /** Either a reply sent at once, or the upstream call to make with the CORS origin already chosen. */
  datatype Decision =
    | Respond(reply: Reply)
    | Forward(allowOrigin: string, url: string, apiKey: string, request: UpstreamRequest)

  /** An environment value or header is usable when set and non-empty (JavaScript truthiness). */
  predicate Present(v: Option<string>)
  {
    v.Some? && v.value != ""
  }

  /** `h || ""`. */
  function OrEmpty(h: Option<string>): (r: string)
    ensures r == "" <==> !Present(h)
    ensures r != "" ==> h == Some(r)
  {
    if Present(h) then h.value else ""
  }

  function OriginOf(req: Request): string
  {
    OrEmpty(req.origin)
  }

  /** `referer || referrer || ""`. */
  function RefererOf(req: Request): (r: string)
    ensures r == "" <==> !Present(req.referer) && !Present(req.referrer)
    ensures r != "" ==> req.referer == Some(r) || req.referrer == Some(r)
    ensures Present(req.referer) ==> r == req.referer.value
  {
    if Present(req.referer) then req.referer.value else OrEmpty(req.referrer)
  }

  /** A body property; `undefined` when absent. */
  function Field(body: map<string, JsValue>, key: string): JsValue
  {
    if key in body then body[key] else Undefined
  }

  /** `!Text && Text !== ""`. */
  predicate TextMissing(text: JsValue)
  {
    !Truthy(text) && text != Str("")
  }

  function ApiUrl(config: Config): string
  {
    if Present(config.apiUrl) then config.apiUrl.value else DefaultApiUrl
  }

  /** The upstream body, with defaults for the optional fields; `now` is `Date.now()`. */
  function UpstreamBodyOf(body: map<string, JsValue>, domainName: string, now: nat): UpstreamRequest
  {
    var context := Field(body, "Context");
    UpstreamRequest(
      Field(body, "Text"),
      Or(Field(body, "UserName"), Str(DefaultUserName)),
      Or(Field(body, "SourceName"), Str(DefaultSourceName)),
      Or(Field(body, "SessionId"), Str("session_" + Decimal(now))),
      domainName,
      Or(Field(body, "is_draft"), Bool(false)),
      if Truthy(context) then Some(context) else None)
  }

  /** The checks in the handler's order; the first that fails decides the reply. */
  function Dispatch(config: Config, req: Request, now: nat): Decision
  {
    var origin, referer := OriginOf(req), RefererOf(req);
    if !Authorized(config.allowedDomains, origin, referer) then
      Respond(Reply(403, None, ErrorJson(AccessDenied)))
    else
      var cors := CorsOrigin(config.allowedDomains, origin, referer);
      if req.verb == "OPTIONS" then
        Respond(Reply(200, Some(cors), NoContent))
      else if req.verb != "POST" then
        Respond(Reply(405, Some(cors), ErrorJson(MethodNotAllowed)))
      else if TextMissing(Field(req.body, "Text")) then
        Respond(Reply(400, Some(cors), ErrorJson(TextRequired)))
      else if !Present(config.apiKey) then
        Respond(Reply(500, Some(cors), ErrorJson(ConfigurationError)))
      else if !Present(config.domainName) then
        Respond(Reply(500, Some(cors), ErrorJson(ConfigurationError)))
      else
        Forward(cors, ApiUrl(config), config.apiKey.value,
          UpstreamBodyOf(req.body, config.domainName.value, now))
  }

  /** Whether the request passes the origin policy. */
  predicate RequestAuthorized(config: Config, req: Request)
  {
    Authorized(config.allowedDomains, OriginOf(req), RefererOf(req))
  }

  /**
   * A request is denied with 403 and no CORS header exactly when it fails
   * the origin policy; every other decision carries a CORS origin.
   */
  lemma DeniedIffUnauthorized(config: Config, req: Request, now: nat)
    ensures Dispatch(config, req, now) == Respond(Reply(403, None, ErrorJson(AccessDenied)))
      <==> !RequestAuthorized(config, req)
    ensures RequestAuthorized(config, req) && Dispatch(config, req, now).Respond? ==>
      var cors := CorsOrigin(config.allowedDomains, OriginOf(req), RefererOf(req));
      Dispatch(config, req, now).reply.allowOrigin == Some(cors)
  {
  }

  /**
   * After authorisation the method, the body and the configuration are
   * checked in that order, and the first failure decides the reply.
   */
  lemma DispatchOrder(config: Config, req: Request, now: nat)
    requires RequestAuthorized(config, req)
    ensures var cors := Some(CorsOrigin(config.allowedDomains, OriginOf(req), RefererOf(req)));
      var d := Dispatch(config, req, now);
      && (req.verb == "OPTIONS" ==> d == Respond(Reply(200, cors, NoContent)))
      && (req.verb != "OPTIONS" && req.verb != "POST" ==>
            d == Respond(Reply(405, cors, ErrorJson(MethodNotAllowed))))
      && (req.verb == "POST" && TextMissing(Field(req.body, "Text")) ==>
            d == Respond(Reply(400, cors, ErrorJson(TextRequired))))
      && (req.verb == "POST" && !TextMissing(Field(req.body, "Text")) &&
          (!Present(config.apiKey) || !Present(config.domainName)) ==>
            d == Respond(Reply(500, cors, ErrorJson(ConfigurationError))))
  {
  }

  /**
   * `Text` is rejected exactly when it is absent or one of the falsy values
   * other than the empty string; `""` is accepted.
   */
  lemma TextMissingIff(text: JsValue)
    ensures TextMissing(text) <==>
      text == Undefined || text == Null || text == Bool(false) || text == Num(0.0)
  {
  }

  /**
   * The upstream call is made exactly when every check passes, and it uses
   * the configured key, domain name and URL (the default URL when unset).
   */
  lemma ForwardIff(config: Config, req: Request, now: nat)
    ensures Dispatch(config, req, now).Forward? <==>
      && RequestAuthorized(config, req)
      && req.verb == "POST"
      && !TextMissing(Field(req.body, "Text"))
      && Present(config.apiKey)
      && Present(config.domainName)
    ensures Dispatch(config, req, now).Forward? ==>
      var d := Dispatch(config, req, now);
      && d.apiKey == config.apiKey.value && d.apiKey != ""
      && d.request.domainName == config.domainName.value && d.request.domainName != ""
      && d.url == (if Present(config.apiUrl) then config.apiUrl.value else DefaultApiUrl)
      && d.request.text == Field(req.body, "Text")
      && d.allowOrigin == CorsOrigin(config.allowedDomains, OriginOf(req), RefererOf(req))
  {
  }

  /** Every immediate reply has one of the handler's status codes. */
  lemma ReplyStatuses(config: Config, req: Request, now: nat)
    ensures Dispatch(config, req, now).Respond? ==>
      Dispatch(config, req, now).reply.status in {200, 403, 405, 400, 500}
  {
  }

  /**
   * The optional fields never go upstream falsy: a truthy value is kept,
   * anything else is replaced by the default; `Context` is sent only when
   * truthy.
   */
  lemma UpstreamDefaults(body: map<string, JsValue>, domainName: string, now: nat)
    ensures var r := UpstreamBodyOf(body, domainName, now);
      && Truthy(r.userName) && Truthy(r.sourceName) && Truthy(r.sessionId)
      && (r.isDraft == Bool(false) || Truthy(r.isDraft))
      && (Truthy(Field(body, "UserName")) ==> r.userName == Field(body, "UserName"))
      && (Truthy(Field(body, "SourceName")) ==> r.sourceName == Field(body, "SourceName"))
      && (Truthy(Field(body, "SessionId")) ==> r.sessionId == Field(body, "SessionId"))
      && (Truthy(Field(body, "is_draft")) ==> r.isDraft == Field(body, "is_draft"))
      && (!Truthy(Field(body, "UserName")) ==> r.userName == Str(DefaultUserName))
      && (!Truthy(Field(body, "SourceName")) ==> r.sourceName == Str(DefaultSourceName))
      && (!Truthy(Field(body, "SessionId")) ==> r.sessionId == Str("session_" + Decimal(now)))
      && (!Truthy(Field(body, "is_draft")) ==> r.isDraft == Bool(false))
      && r.text == Field(body, "Text") && r.domainName == domainName
      && (r.context.Some? <==> Truthy(Field(body, "Context")))
      && (r.context.Some? ==> r.context.value == Field(body, "Context"))
  {
  }

  /** The fields of an upstream body, as a request body with the same keys. */
  function AsBody(r: UpstreamRequest): map<string, JsValue>
  {
    var base := map[
      "Text" := r.text, "UserName" := r.userName, "SourceName" := r.sourceName,
      "SessionId" := r.sessionId, "is_draft" := r.isDraft];
    if r.context.Some? then base["Context" := r.context.value] else base
  }

  /** Defaulting is idempotent: a defaulted body passes through defaulting unchanged. */
  lemma DefaultsIdempotent(body: map<string, JsValue>, domainName: string, now: nat, later: nat)
    ensures var r := UpstreamBodyOf(body, domainName, now);
      UpstreamBodyOf(AsBody(r), domainName, later) == r
  {
    var r := UpstreamBodyOf(body, domainName, now);
    UpstreamDefaults(body, domainName, now);
    var b := AsBody(r);
    assert Field(b, "UserName") == r.userName;
    assert Field(b, "SourceName") == r.sourceName;
    assert Field(b, "SessionId") == r.sessionId;
    assert Field(b, "is_draft") == r.isDraft;
    assert Field(b, "Text") == r.text;
    if r.context.Some? {
      assert Field(b, "Context") == r.context.value;
    } else {
      assert Field(b, "Context") == Undefined;
    }
  }

  /** Requests without a `SessionId` made at different times get different session ids. */
  lemma FreshSessionsDiffer(body: map<string, JsValue>, domainName: string, t1: nat, t2: nat)
    requires !Truthy(Field(body, "SessionId"))
    requires t1 != t2
    ensures UpstreamBodyOf(body, domainName, t1).sessionId != UpstreamBodyOf(body, domainName, t2).sessionId
  {
    if Decimal(t1) == Decimal(t2) {
      DecimalInjective(t1, t2);
    }
    var p := "session_";
    assert (p + Decimal(t1))[|p|..] == Decimal(t1);
    assert (p + Decimal(t2))[|p|..] == Decimal(t2);
  }

  /**
   * As shipped (no configured domain), only local requests are served and
   * each is answered with its own origin as the CORS origin.
   */
  lemma ShippedConfigServesOnlyLocal(config: Config, req: Request, now: nat)
    requires config.allowedDomains == ShippedDomains
    ensures RequestAuthorized(config, req) <==> IsFromLocalhost(OriginOf(req), RefererOf(req))
    ensures RequestAuthorized(config, req) && Dispatch(config, req, now).Forward? ==>
      Dispatch(config, req, now).allowOrigin == OriginOf(req)
  {
    NoDomainsOnlyLocalhost(OriginOf(req), RefererOf(req));
  }
}
