/** How one request is answered. */
module Gateway {
  import opened Common
  import Text
  import Edge
  import Templates
  import Hosts
  import opened LocalMirror
  import opened MirrorLayout
  import opened HostResolution
  import opened Cors
  import opened Headers
  import Rules = StaticRules

  datatype HttpMethod = GET | HEAD | OPTIONS | Other(name: string)

  /** Headers by lower-case name, one textual value each. */
  datatype RenderRequest = RenderRequest(
    verb: HttpMethod,
    host: string,
    path: string,
    query: Option<string>,
    scheme: string,
    clientIp: Option<string>,
    headers: HeaderMap)

  datatype RenderResponse = RenderResponse(status: nat, headers: HeaderMap, body: Bytes)

  /** JSON text. */
  type Json = string

  datatype EdgeHookRequest = EdgeHookRequest(
    bucket: string,
    ip: Option<string>,
    origin: string,
    edgeContext: Option<Json>,
    url: string,
    path: string,
    querystring: string,
    queryparams: map<string, string>,
    verb: HttpMethod,
    headers: HeaderMap)

  datatype EdgeHookPayload = EdgeHookPayload(headers: HeaderMap, body: Option<string>, filePath: Option<string>, params: Option<Json>)

  datatype HookAnswer = Answered(status: nat, payload: EdgeHookPayload) | TimedOut | CallFailed

  /** What a request reads: the published stores, the hooks as they answer, and the text functions used.
      `read` is the local mirror of an origin, which may fail. */
  datatype RenderGateway = RenderGateway(
    resolver: HostResolver,
    cors: CorsPolicy,
    parseOrigin: string -> Option<string>,
    edgeConfigs: map<string, Edge.EdgeConfigEntry>,
    registries: map<string, Templates.Registry>,
    render: (Templates.Template, Json) -> Option<string>,
    read: (string, string) -> Result<Option<LocalObject>, string>,
    call: (Edge.EdgeHookConfig, EdgeHookRequest) -> HookAnswer,
    buckets: map<string, string>,
    edgeContexts: map<string, Json>,
    parseQuery: string -> map<string, string>,
    utf8: string -> Bytes)

  type Reply = Result<RenderResponse, string>

  const OK := 200
  const NO_CONTENT := 204
  const FOUND := 302
  const NOT_FOUND := 404
  const METHOD_NOT_ALLOWED := 405
  const UNSUPPORTED_MEDIA_TYPE := 415
  const MISDIRECTED_REQUEST := 421
  const INTERNAL_SERVER_ERROR := 500
  const BAD_GATEWAY := 502
  const GATEWAY_TIMEOUT := 504

  const SCHEME_SEPARATOR := "://"

  const LOCATION := "location"
  const VARY := "vary"
  const ALLOW_ORIGIN := "access-control-allow-origin"
  const ALLOW_METHODS := "access-control-allow-methods"
  const ALLOW_HEADERS := "access-control-allow-headers"
  const CONTENT_TYPE := "content-type"
  const CACHE_CONTROL := "cache-control"
  const ETAG := "etag"
  const LAST_MODIFIED := "last-modified"

  function Empty(status: nat): RenderResponse {
    RenderResponse(status, map[], [])
  }

  predicate IsStatus(status: nat) {
    100 <= status < 1000
  }

  /** `finalize_response`: a HEAD request gets no body. */
  function Finalized(response: RenderResponse, verb: HttpMethod): RenderResponse {
    if verb.HEAD? then response.(body := []) else response
  }

  function FinalizedReply(reply: Reply, verb: HttpMethod): Reply {
    if reply.Ok? then Ok(Finalized(reply.value, verb)) else reply
  }

  function CorsHeaders(g: RenderGateway, origin: string, request: RenderRequest): HeaderMap {
    if "origin" !in request.headers then map[]
    else match AllowedOriginFor(g.cors, g.parseOrigin, origin, request.headers["origin"])
      case None => map[]
      case Some(allowed) => map[ALLOW_ORIGIN := allowed, VARY := "Origin"]
  }

  function WithOptional(headers: HeaderMap, name: string, value: Option<string>): HeaderMap {
    if value.Some? then headers[name := value.value] else headers
  }

  function HeadersFromMetadata(m: ObjectMetadata): HeaderMap {
    WithOptional(WithOptional(WithOptional(WithOptional(map[], CONTENT_TYPE, m.contentType), CACHE_CONTROL, m.cacheControl),
      ETAG, m.etag), LAST_MODIFIED, m.lastModified)
  }

  predicate IsReservedPath(path: string) {
    var p := Text.TrimStartOf(path, '/');
    p == ".rendermesh" || ".rendermesh/" <= p || p == "_rendermesh" || "_rendermesh/" <= p
  }

  datatype Rendered = Page(text: string) | NotHtml | RenderFailed

  function RenderTemplate(g: RenderGateway, origin: string, path: string, params: Json): Rendered {
    match NormalizeObjectPath(path)
    case Err(_) => NotHtml
    case Ok(key) =>
      if origin !in g.registries || key !in g.registries[origin] then NotHtml
      else match g.render(g.registries[origin][key], params)
        case None => RenderFailed
        case Some(text) => Page(text)
  }

  function ReadObject(g: RenderGateway, origin: string, path: string, internal: bool): Result<Option<LocalObject>, string> {
    if !internal && IsReservedPath(path) then Ok(None) else g.read(origin, path)
  }

  /** The response for an object: its own body, or the page rendered from it. */
  function Respond(g: RenderGateway, obj: LocalObject, status: nat, rendered: Option<Rendered>, headers: HeaderMap): RenderResponse {
    var all := Applied(HeadersFromMetadata(obj.metadata), headers);
    match rendered
    case None => RenderResponse(status, all, obj.body)
    case Some(Page(text)) => RenderResponse(status, all, g.utf8(text))
    case Some(NotHtml) => RenderResponse(UNSUPPORTED_MEDIA_TYPE, all, [])
    case Some(RenderFailed) => RenderResponse(BAD_GATEWAY, all, [])
  }

  function ServeObject(g: RenderGateway, origin: string, path: string, status: nat, params: Option<Json>, headers: HeaderMap, internal: bool)
    : Result<Option<RenderResponse>, string>
  {
    match ReadObject(g, origin, path, internal)
    case Err(e) => Err(e)
    case Ok(None) => Ok(None)
    case Ok(Some(obj)) =>
      var rendered := if params.Some? then Some(RenderTemplate(g, origin, path, params.value)) else None;
      Ok(Some(Respond(g, obj, status, rendered, headers)))
  }

  function ServeStaticPath(g: RenderGateway, origin: string, config: Edge.EdgeConfig, path: string, status: nat, params: Option<Json>,
                           headers: HeaderMap, internal: bool): Result<Option<RenderResponse>, string>
  {
    match ServeObject(g, origin, path, status, params, headers, internal)
    case Err(e) => Err(e)
    case Ok(Some(response)) => Ok(Some(response))
    case Ok(None) =>
      if config.edge.autoRewriteIndex then ServeObject(g, origin, Rules.AutoIndexCandidate(path), status, params, headers, internal)
      else Ok(None)
  }

  function NotFoundText(g: RenderGateway, headers: HeaderMap): RenderResponse {
    RenderResponse(NOT_FOUND, Applied(map[], headers), g.utf8("not found"))
  }

  function HandleMissing(g: RenderGateway, origin: string, config: Edge.EdgeConfig, headers: HeaderMap): Result<Option<RenderResponse>, string> {
    match config.missing.action
    case NotFound =>
      if config.missing.page.None? then Ok(Some(NotFoundText(g, headers)))
      else (match ServeObject(g, origin, config.missing.page.value, NOT_FOUND, None, headers, false)
            case Err(e) => Err(e)
            case Ok(Some(response)) => Ok(Some(response.(status := NOT_FOUND)))
            case Ok(None) => Ok(Some(NotFoundText(g, headers))))
    case Serve =>
      if config.missing.path.None? then Ok(Some(NotFoundText(g, headers)))
      else ServeObject(g, origin, config.missing.path.value, OK, None, headers, false)
    case Redirect =>
      if config.missing.status.Some? && !IsStatus(config.missing.status.value) then Err("status")
      else
        var status := if config.missing.status.Some? then config.missing.status.value else FOUND;
        Ok(Some(RenderResponse(status, Applied(WithOptional(map[], LOCATION, config.missing.to), headers), [])))
  }

  function MissingOrText(g: RenderGateway, origin: string, config: Edge.EdgeConfig, headers: HeaderMap): Reply {
    match HandleMissing(g, origin, config, headers)
    case Err(e) => Err(e)
    case Ok(Some(response)) => Ok(response)
    case Ok(None) => Ok(NotFoundText(g, headers))
  }

  function ResolveRequestTarget(config: Edge.EdgeConfig, path: string): string {
    Rules.ResolveRootObject(config, Rules.ResolveRewrite(config, path))
  }

  // ----- the hook chain

  datatype PayloadOutcome =
    | Continue
    | RespondDirect(status: nat, body: string)
    | ServeFile(status: nat, filePath: string, optionalParams: Option<Json>)
    | RenderTarget(status: nat, params: Json)

  predicate IsEdgeFilePath(path: string) {
    path != "" && path[0] == '/' && (forall c :: c in path ==> !Text.IsControl(c))
    && forall i :: 0 <= i < |path| - 1 ==> !(path[i] == '.' && path[i + 1] == '.')
  }

  /** What a payload asks for; `None` when its file path is not acceptable. A body beats a file, a file beats parameters. */
  function OutcomeOf(status: nat, payload: EdgeHookPayload): Option<PayloadOutcome> {
    if payload.body.Some? then Some(RespondDirect(status, payload.body.value))
    else if payload.filePath.Some? then
      if IsEdgeFilePath(payload.filePath.value) then Some(ServeFile(status, payload.filePath.value, payload.params)) else None
    else if payload.params.Some? then Some(RenderTarget(status, payload.params.value))
    else Some(Continue)
  }

  /** The headers the hooks of one request have set so far. */
  class EdgeChainState {
    var headers: HeaderMap

    constructor ()
      ensures headers == map[]
    {
      headers := map[];
    }

    method ApplyEdgePayload(status: nat, payload: EdgeHookPayload) returns (outcome: Option<PayloadOutcome>)
      modifies this
      ensures outcome == OutcomeOf(status, payload)
      ensures headers == if outcome.Some? then old(headers) + payload.headers else old(headers)
    {
      outcome := OutcomeOf(status, payload);
      if outcome.Some? {
        headers := headers + payload.headers;
      }
    }
  }

  function FullRequestUrl(request: RenderRequest): string {
    var url := request.scheme + SCHEME_SEPARATOR + request.host + request.path;
    if request.query.Some? && request.query.value != "" then url + "?" + request.query.value else url
  }

  function HookRequest(g: RenderGateway, request: RenderRequest, origin: string): EdgeHookRequest {
    EdgeHookRequest(
      if origin in g.buckets then g.buckets[origin] else origin,
      request.clientIp,
      origin,
      if origin in g.edgeContexts then Some(g.edgeContexts[origin]) else None,
      FullRequestUrl(request),
      request.path,
      if request.query.Some? then request.query.value else "",
      g.parseQuery(if request.query.Some? then request.query.value else ""),
      request.verb,
      request.headers)
  }

  function WithEdgeHeaders(response: RenderResponse, edge: HeaderMap, cors: HeaderMap): RenderResponse {
    response.(headers := Applied(Applied(response.headers, Filtered(edge)), cors))
  }

  /** What a hook that ends the chain makes the response, before its body is dropped for HEAD. */
  function Terminal(g: RenderGateway, request: RenderRequest, origin: string, config: Edge.EdgeConfig, cors: HeaderMap, edge: HeaderMap,
                    outcome: PayloadOutcome): Reply
    requires !outcome.Continue?
  {
    match outcome
    case RespondDirect(status, body) => Ok(RenderResponse(status, Applied(Applied(map[], Filtered(edge)), cors), g.utf8(body)))
    case ServeFile(status, filePath, params) =>
      (match ServeStaticPath(g, origin, config, filePath, status, params, cors, true)
       case Err(e) => Err(e)
       case Ok(Some(response)) => Ok(WithEdgeHeaders(response, edge, cors))
       case Ok(None) => MissingOrText(g, origin, config, Applied(Filtered(edge), cors)))
    case RenderTarget(status, params) =>
      (match ServeStaticPath(g, origin, config, ResolveRequestTarget(config, request.path), status, Some(params), cors, false)
       case Err(e) => Err(e)
       case Ok(Some(response)) => Ok(WithEdgeHeaders(response, edge, cors))
       case Ok(None) => Ok(NotFoundText(g, cors)))
  }

  datatype ChainEnd = Ended(reply: Reply) | PassedOn(edge: HeaderMap)

  function Failure(status: nat, cors: HeaderMap): Reply {
    Ok(RenderResponse(status, Applied(map[], cors), []))
  }

  /** The hooks in order: each sees the request, adds headers, and may end the chain. */
  function Chain(g: RenderGateway, request: RenderRequest, origin: string, config: Edge.EdgeConfig, cors: HeaderMap,
                 hooks: seq<Edge.EdgeHookConfig>, edge: HeaderMap): ChainEnd
  {
    if hooks == [] then PassedOn(Filtered(edge))
    else match g.call(hooks[0], HookRequest(g, request, origin))
      case TimedOut => Ended(FinalizedReply(Failure(GATEWAY_TIMEOUT, cors), request.verb))
      case CallFailed => Ended(FinalizedReply(Failure(BAD_GATEWAY, cors), request.verb))
      case Answered(status, payload) =>
        match OutcomeOf(status, payload)
        case None => Ended(FinalizedReply(Failure(BAD_GATEWAY, cors), request.verb))
        case Some(outcome) =>
          var headers := edge + payload.headers;
          if outcome.Continue? then Chain(g, request, origin, config, cors, hooks[1..], headers)
          else Ended(FinalizedReply(Terminal(g, request, origin, config, cors, headers, outcome), request.verb))
  }

  method HandleEdgeChain(g: RenderGateway, request: RenderRequest, origin: string, config: Edge.EdgeConfig, cors: HeaderMap)
    returns (result: ChainEnd)
    ensures result == Chain(g, request, origin, config, cors, config.edges, map[])
  {
    var state := new EdgeChainState();
    for i := 0 to |config.edges|
      invariant Chain(g, request, origin, config, cors, config.edges, map[])
             == Chain(g, request, origin, config, cors, config.edges[i..], state.headers)
    {
      var hook := config.edges[i];
      assert config.edges[i..][0] == hook && config.edges[i..][1..] == config.edges[i + 1..];
      match g.call(hook, HookRequest(g, request, origin)) {
        case TimedOut =>
          return Ended(FinalizedReply(Failure(GATEWAY_TIMEOUT, cors), request.verb));
        case CallFailed =>
          return Ended(FinalizedReply(Failure(BAD_GATEWAY, cors), request.verb));
        case Answered(status, payload) =>
          var outcome := state.ApplyEdgePayload(status, payload);
          if outcome.None? {
            return Ended(FinalizedReply(Failure(BAD_GATEWAY, cors), request.verb));
          }
          if !outcome.value.Continue? {
            return Ended(FinalizedReply(Terminal(g, request, origin, config, cors, state.headers, outcome.value), request.verb));
          }
      }
    }
    return PassedOn(Filtered(state.headers));
  }

  // ----- the whole request

  function Preflight(request: RenderRequest, cors: HeaderMap): RenderResponse {
    var headers := Inserted(Applied(map[], cors), ALLOW_METHODS, "GET, HEAD, OPTIONS");
    var asked := "access-control-request-headers";
    RenderResponse(NO_CONTENT, if asked in request.headers then Inserted(headers, ALLOW_HEADERS, request.headers[asked]) else headers, [])
  }

  /** After the hooks: redirect, file, or the configured way to miss. */
  function Static(g: RenderGateway, request: RenderRequest, origin: string, config: Edge.EdgeConfig, headers: HeaderMap): Reply {
    match Rules.FindRedirect(config, request.path, request.query)
    case Some(redirect) =>
      if !IsStatus(redirect.status) then Err("status")
      else Ok(RenderResponse(redirect.status, Applied(map[LOCATION := redirect.location], headers), []))
    case None =>
      match ServeStaticPath(g, origin, config, ResolveRequestTarget(config, request.path), OK, None, headers, false)
      case Err(e) => Err(e)
      case Ok(Some(response)) => Ok(response)
      case Ok(None) => MissingOrText(g, origin, config, headers)
  }

  /** What a request gets once its host is resolved to an origin. */
  function HandleResolved(g: RenderGateway, request: RenderRequest, origin: string): Reply {
    var cors := CorsHeaders(g, origin, request);
    if request.verb.OPTIONS? then Ok(Preflight(request, cors))
    else if !request.verb.GET? && !request.verb.HEAD? then Failure(METHOD_NOT_ALLOWED, cors)
    else if origin !in g.edgeConfigs || g.edgeConfigs[origin].Invalid? then Failure(INTERNAL_SERVER_ERROR, cors)
    else
      var config := g.edgeConfigs[origin].config;
      match Chain(g, request, origin, config, cors, config.edges, map[])
      case Ended(reply) => reply
      case PassedOn(edge) => FinalizedReply(Static(g, request, origin, config, Applied(edge, cors)), request.verb)
  }

  function Handle(g: RenderGateway, request: RenderRequest): Reply {
    match Resolve(g.resolver, request.host)
    case None => Ok(Empty(MISDIRECTED_REQUEST))
    case Some(resolved) => HandleResolved(g, request, resolved.originId)
  }

  method HandleInner(g: RenderGateway, request: RenderRequest) returns (reply: Reply)
    ensures reply == Handle(g, request)
  {
    var resolved := Resolve(g.resolver, request.host);
    if resolved.None? {
      return Ok(Empty(MISDIRECTED_REQUEST));
    }
    var origin := resolved.value.originId;
    var cors := CorsHeaders(g, origin, request);
    if request.verb.OPTIONS? {
      return Ok(Preflight(request, cors));
    }
    if !request.verb.GET? && !request.verb.HEAD? {
      return Failure(METHOD_NOT_ALLOWED, cors);
    }
    if origin !in g.edgeConfigs || g.edgeConfigs[origin].Invalid? {
      return Failure(INTERNAL_SERVER_ERROR, cors);
    }
    var config := g.edgeConfigs[origin].config;
    var chain := HandleEdgeChain(g, request, origin, config, cors);
    if chain.Ended? {
      return chain.reply;
    }
    return FinalizedReply(Static(g, request, origin, config, Applied(chain.edge, cors)), request.verb);
  }
}
