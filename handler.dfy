/**
 * The whole handler: the dispatch decision, the one upstream call it may
 * make, and the reply built from what the upstream service answered.
 */
module Handler {
  import opened Wrappers
  import opened Framing
  import opened StreamRelay
  import opened Admission
  import opened AccessGuard

  /**
   * What the upstream call produced: it threw (network failure, or an ok answer with no body
   * to read), or it answered with a status and, on success, a body.
   */
  datatype Upstream = Threw | Answered(status: int, body: UpstreamBody)

  /** The upstream call the handler makes: the URL, the `x-api-key` header and the JSON body. */
  datatype UpstreamCall = UpstreamCall(url: string, apiKey: string, request: UpstreamRequest)

  /** `response.ok`. */
  predicate Ok(status: int)
  {
    200 <= status <= 299
  }

  /** The reply to a forwarded request, given the upstream's answer. */
  function ForwardedReply(cors: string, upstream: Upstream, isJson: string -> bool): Reply
  {
    match upstream
    case Threw => Reply(200, Some(cors), EventStream([Wrapped(HandlerErrorMessage)]))
    case Answered(status, body) =>
      if Ok(status) then Reply(200, Some(cors), EventStream(RelayedFrames(body, isJson)))
      else Reply(status, Some(cors), ErrorJson(UpstreamFailed))
  }

  /** The reply to a request, when the upstream service would answer with `upstream`. */
  function Outcome(config: Config, req: Request, now: nat, upstream: Upstream, isJson: string -> bool): Reply
  {
    match Dispatch(config, req, now)
    case Respond(reply) => reply
    case Forward(cors, _, _, _) => ForwardedReply(cors, upstream, isJson)
  }

  /**
   * Handles one request. The upstream call is returned rather than made; it
   * is made exactly when the dispatch forwards, and the reply streams the
   * upstream body through a relay.
   */
  method Handle(config: Config, req: Request, now: nat, upstream: Upstream, isJson: string -> bool)
    returns (reply: Reply, call: Option<UpstreamCall>)
    ensures call.Some? <==> Dispatch(config, req, now).Forward?
    ensures call.Some? ==>
      var d := Dispatch(config, req, now);
      call.value == UpstreamCall(d.url, d.apiKey, d.request)
    ensures reply == Outcome(config, req, now, upstream, isJson)
  {
    var decision := Dispatch(config, req, now);
    match decision {
      case Respond(r) =>
        reply, call := r, None;
      case Forward(cors, url, apiKey, request) =>
        call := Some(UpstreamCall(url, apiKey, request));
        match upstream {
          case Threw =>
            reply := Reply(200, Some(cors), EventStream([Wrapped(HandlerErrorMessage)]));
          case Answered(status, body) =>
            if !Ok(status) {
              reply := Reply(status, Some(cors), ErrorJson(UpstreamFailed));
            } else {
              var frames := Pump(body, isJson);
              reply := Reply(200, Some(cors), EventStream(frames));
            }
        }
    }
  }

  /**
   * A streamed reply is only ever sent to an authorised POST with a `Text`
   * and a complete configuration; it has status 200 and the chosen CORS
   * origin.
   */
  lemma StreamOnlyAfterChecks(config: Config, req: Request, now: nat, upstream: Upstream, isJson: string -> bool)
    ensures Outcome(config, req, now, upstream, isJson).body.EventStream? ==>
      && RequestAuthorized(config, req)
      && req.verb == "POST"
      && !TextMissing(Field(req.body, "Text"))
      && Present(config.apiKey) && Present(config.domainName)
      && Outcome(config, req, now, upstream, isJson).status == 200
      && Outcome(config, req, now, upstream, isJson).allowOrigin
           == Some(CorsOrigin(config.allowedDomains, OriginOf(req), RefererOf(req)))
  {
    ForwardIff(config, req, now);
  }

  /**
   * Once forwarded, an upstream failure status is passed through with the
   * fixed error body, and a thrown call becomes a 200 stream holding only the
   * handler's apology.
   */
  lemma UpstreamFailures(config: Config, req: Request, now: nat, upstream: Upstream, isJson: string -> bool)
    requires Dispatch(config, req, now).Forward?
    ensures upstream.Answered? && !Ok(upstream.status) ==>
      var r := Outcome(config, req, now, upstream, isJson);
      r.status == upstream.status && r.body == ErrorJson(UpstreamFailed)
    ensures upstream.Threw? ==>
      var r := Outcome(config, req, now, upstream, isJson);
      r.status == 200 && r.body == EventStream([Wrapped(HandlerErrorMessage)])
  {
  }

  /**
   * Every reply carries a CORS origin except the denial, and its status is
   * one the handler sets or the upstream's own failure status.
   */
  lemma ReplyShape(config: Config, req: Request, now: nat, upstream: Upstream, isJson: string -> bool)
    ensures var r := Outcome(config, req, now, upstream, isJson);
      && (r.allowOrigin.None? <==> !RequestAuthorized(config, req))
      && (r.status in {200, 400, 403, 405, 500} ||
          (upstream.Answered? && !Ok(upstream.status) && r.status == upstream.status))
  {
    DeniedIffUnauthorized(config, req, now);
    ReplyStatuses(config, req, now);
  }

  /**
   * A stream cut off by an upstream read error ends with exactly one
   * apology frame after the frames of the lines completed before the error.
   */
  lemma BrokenStreamApologises(config: Config, req: Request, now: nat, chunks: seq<string>, isJson: string -> bool)
    ensures Dispatch(config, req, now).Forward? ==>
      var r := Outcome(config, req, now, Answered(200, UpstreamBody(chunks, Fail)), isJson);
      && r.body.EventStream?
      && |r.body.frames| >= 1
      && r.body.frames[|r.body.frames| - 1] == Wrapped(StreamErrorMessage)
  {
    FailEndsWithOneApology(chunks, isJson);
  }
}
