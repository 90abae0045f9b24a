/** What holds of every response: HEAD against GET, CORS headers, unsafe headers. */
module GatewayTheorems {
  import opened Common
  import Text
  import Edge
  import Templates
  import opened LocalMirror
  import opened Headers
  import opened Gateway
  import HostResolution
  import opened Cors
  import Rules = StaticRules

  // ----- HEAD is GET without the body

  /** The hooks answer the same whatever the method of the request they are shown. */
  ghost predicate HooksIgnoreMethod(g: RenderGateway) {
    forall hook, r: EdgeHookRequest, v :: g.call(hook, r.(verb := v)) == g.call(hook, r)
  }

  function Erased(reply: Reply): Reply {
    if reply.Ok? then Ok(reply.value.(body := [])) else reply
  }

  function ErasedEnd(end: ChainEnd): ChainEnd {
    if end.Ended? then Ended(Erased(end.reply)) else end
  }

  lemma {:induction false} ChainOfHead(g: RenderGateway, get: RenderRequest, head: RenderRequest, origin: string, config: Edge.EdgeConfig,
                                       cors: HeaderMap, hooks: seq<Edge.EdgeHookConfig>, edge: HeaderMap)
    requires HooksIgnoreMethod(g) && get.verb.GET? && head == get.(verb := HEAD)
    ensures Chain(g, head, origin, config, cors, hooks, edge) == ErasedEnd(Chain(g, get, origin, config, cors, hooks, edge))
  {
    if hooks != [] {
      assert HookRequest(g, head, origin) == HookRequest(g, get, origin).(verb := HEAD);
      var answer := g.call(hooks[0], HookRequest(g, get, origin));
      assert g.call(hooks[0], HookRequest(g, head, origin)) == answer;
      if answer.Answered? {
        var outcome := OutcomeOf(answer.status, answer.payload);
        if outcome.Some? {
          if outcome.value.Continue? {
            ChainOfHead(g, get, head, origin, config, cors, hooks[1..], edge + answer.payload.headers);
          } else {
            TerminalIgnoresMethod(g, get, head, origin, config, cors, edge + answer.payload.headers, outcome.value);
          }
        }
      }
    }
  }

  lemma TerminalIgnoresMethod(g: RenderGateway, get: RenderRequest, head: RenderRequest, origin: string, config: Edge.EdgeConfig,
                              cors: HeaderMap, edge: HeaderMap, outcome: PayloadOutcome)
    requires get.path == head.path && !outcome.Continue?
    ensures Terminal(g, head, origin, config, cors, edge, outcome) == Terminal(g, get, origin, config, cors, edge, outcome)
  {
  }

  /** For every configuration, mirror and chain of hooks that ignore the method, HEAD gets the status
      and headers GET gets, and no body (section 9.3.2 of RFC 9110); it fails exactly when GET fails. */
  lemma HeadIsGetWithoutBody(g: RenderGateway, get: RenderRequest)
    requires HooksIgnoreMethod(g) && get.verb.GET?
    ensures Handle(g, get.(verb := HEAD)) == Erased(Handle(g, get))
  {
    var head := get.(verb := HEAD);
    var resolved := HostResolution.Resolve(g.resolver, get.host);
    if resolved.Some? {
      var origin := resolved.value.originId;
      var cors := CorsHeaders(g, origin, get);
      assert CorsHeaders(g, origin, head) == cors;
      if origin in g.edgeConfigs && g.edgeConfigs[origin].Valid? {
        var config := g.edgeConfigs[origin].config;
        ChainOfHead(g, get, head, origin, config, cors, config.edges, map[]);
        StaticIgnoresMethod(g, get, head, origin, config);
      }
    }
  }

  lemma StaticIgnoresMethod(g: RenderGateway, get: RenderRequest, head: RenderRequest, origin: string, config: Edge.EdgeConfig)
    requires get.path == head.path && get.query == head.query
    ensures forall headers :: Static(g, head, origin, config, headers) == Static(g, get, origin, config, headers)
  {
  }

  // ----- header names

  lemma LowerFixed(s: string)
    requires forall c :: c in s ==> Text.LowerChar(c) == c
    ensures Text.ToAsciiLower(s) == s
  {
    var lower := Text.ToAsciiLower(s);
    forall i | 0 <= i < |s| ensures lower[i] == s[i] { assert s[i] in s; }
  }

  /** Unsafe names by first letter and length. */
  lemma UnsafeShape(name: string)
    requires name in UNSAFE_NAMES
    ensures name != "" && name[0] in "chkptu"
    ensures name[0] == 'c' ==> |name| == 10 || |name| == 14 || |name| == 16
  {
  }

  predicate GoodName(name: string) {
    Text.ToAsciiLower(name) == name && !IsUnsafe(name)
  }

  lemma GoodByShape(name: string)
    requires name != "" && (forall c :: c in name ==> Text.LowerChar(c) == c)
    requires name[0] !in "chkptu" || (name[0] == 'c' && |name| != 10 && |name| != 14 && |name| != 16)
    ensures GoodName(name)
  {
    LowerFixed(name);
    if name in UNSAFE_NAMES {
      UnsafeShape(name);
    }
  }

  lemma LocationIsGood()
    ensures GoodName(LOCATION)
  {
    GoodByShape(LOCATION);
  }

  lemma VaryIsGood()
    ensures GoodName(VARY)
  {
    GoodByShape(VARY);
  }

  lemma EtagIsGood()
    ensures GoodName(ETAG)
  {
    GoodByShape(ETAG);
  }

  lemma LastModifiedIsGood()
    ensures GoodName(LAST_MODIFIED)
  {
    GoodByShape(LAST_MODIFIED);
  }

  lemma ContentTypeIsGood()
    ensures GoodName(CONTENT_TYPE)
  {
    GoodByShape(CONTENT_TYPE);
  }

  lemma CacheControlIsGood()
    ensures GoodName(CACHE_CONTROL)
  {
    GoodByShape(CACHE_CONTROL);
  }

  lemma AllowOriginIsGood()
    ensures GoodName(ALLOW_ORIGIN)
  {
    GoodByShape(ALLOW_ORIGIN);
  }

  lemma AllowMethodsIsGood()
    ensures GoodName(ALLOW_METHODS)
  {
    GoodByShape(ALLOW_METHODS);
  }

  lemma AllowHeadersIsGood()
    ensures GoodName(ALLOW_HEADERS)
  {
    GoodByShape(ALLOW_HEADERS);
  }

  // ----- the headers of every response

  ghost predicate GoodNames(headers: HeaderMap) {
    forall n {:trigger n in headers} :: n in headers ==> GoodName(n)
  }

  /** Every derived header is there with its value. */
  ghost predicate Keeps(headers: HeaderMap, derived: HeaderMap) {
    forall n {:trigger n in derived} {:trigger n in headers} :: n in derived ==> n in headers && headers[n] == derived[n]
  }

  ghost predicate Fine(response: RenderResponse, derived: HeaderMap) {
    GoodNames(response.headers) && Keeps(response.headers, derived)
  }

  lemma AppliedGood(target: HeaderMap, headers: HeaderMap)
    requires GoodNames(target) && GoodNames(headers)
    ensures GoodNames(Applied(target, headers)) && Keeps(Applied(target, headers), headers)
  {
    assert LowerNames(headers);
    AppliedIsOverride(target, headers);
  }

  lemma AppliedKeeps(target: HeaderMap, headers: HeaderMap, derived: HeaderMap)
    requires GoodNames(target) && GoodNames(headers) && Keeps(headers, derived)
    ensures GoodNames(Applied(target, headers)) && Keeps(Applied(target, headers), derived)
  {
    AppliedGood(target, headers);
    forall n | n in derived ensures n in Applied(target, headers) && Applied(target, headers)[n] == derived[n] {
      assert n in headers;
    }
  }

  lemma FilteredGood(edge: HeaderMap)
    ensures GoodNames(Filtered(edge))
  {
    FilteredIsSafe(edge);
    forall n | n in Filtered(edge) ensures GoodName(n) {
    }
  }

  lemma EdgeThenCors(target: HeaderMap, edge: HeaderMap, cors: HeaderMap)
    requires GoodNames(target) && GoodNames(cors)
    ensures var all := Applied(Applied(target, Filtered(edge)), cors); GoodNames(all) && Keeps(all, cors)
  {
    FilteredGood(edge);
    AppliedGood(target, Filtered(edge));
    AppliedGood(Applied(target, Filtered(edge)), cors);
  }

  lemma CorsHeadersShape(g: RenderGateway, origin: string, request: RenderRequest) returns (allowed: string)
    ensures CorsHeaders(g, origin, request) == map[]
         || CorsHeaders(g, origin, request) == map[ALLOW_ORIGIN := allowed, VARY := "Origin"]
  {
    allowed := "";
    if "origin" in request.headers {
      var answer := AllowedOriginFor(g.cors, g.parseOrigin, origin, request.headers["origin"]);
      if answer.Some? { allowed := answer.value; }
    }
  }

  predicate IsCors(headers: HeaderMap) {
    headers.Keys <= {ALLOW_ORIGIN, VARY}
  }

  lemma TwoNamesGood(headers: HeaderMap, a: string, b: string)
    requires headers.Keys <= {a, b} && GoodName(a) && GoodName(b)
    ensures GoodNames(headers)
  {
    forall n | n in headers ensures GoodName(n) {
      assert n in headers.Keys;
    }
  }

  lemma IsCorsGood(headers: HeaderMap)
    requires IsCors(headers)
    ensures GoodNames(headers)
  {
    AllowOriginIsGood();
    VaryIsGood();
    TwoNamesGood(headers, ALLOW_ORIGIN, VARY);
  }

  lemma CorsHeadersGood(g: RenderGateway, origin: string, request: RenderRequest)
    ensures IsCors(CorsHeaders(g, origin, request)) && GoodNames(CorsHeaders(g, origin, request))
  {
    var allowed := CorsHeadersShape(g, origin, request);
    var headers := CorsHeaders(g, origin, request);
    IsCorsGood(headers);
  }

  lemma OptionalGood(headers: HeaderMap, name: string, value: Option<string>)
    requires GoodNames(headers) && GoodName(name)
    ensures GoodNames(WithOptional(headers, name, value))
  {
  }

  lemma MetadataGood(m: ObjectMetadata)
    ensures GoodNames(HeadersFromMetadata(m))
  {
    ContentTypeIsGood();
    CacheControlIsGood();
    EtagIsGood();
    LastModifiedIsGood();
    var a := WithOptional(map[], CONTENT_TYPE, m.contentType);
    var b := WithOptional(a, CACHE_CONTROL, m.cacheControl);
    var c := WithOptional(b, ETAG, m.etag);
    OptionalGood(map[], CONTENT_TYPE, m.contentType);
    OptionalGood(a, CACHE_CONTROL, m.cacheControl);
    OptionalGood(b, ETAG, m.etag);
    OptionalGood(c, LAST_MODIFIED, m.lastModified);
  }

  lemma RespondHeaders(g: RenderGateway, obj: LocalObject, status: nat, rendered: Option<Rendered>, headers: HeaderMap)
    ensures Respond(g, obj, status, rendered, headers).headers == Applied(HeadersFromMetadata(obj.metadata), headers)
  {
  }

  lemma RespondFine(g: RenderGateway, obj: LocalObject, status: nat, rendered: Option<Rendered>, headers: HeaderMap, derived: HeaderMap)
    requires GoodNames(headers) && Keeps(headers, derived)
    ensures Fine(Respond(g, obj, status, rendered, headers), derived)
  {
    MetadataGood(obj.metadata);
    RespondHeaders(g, obj, status, rendered, headers);
    AppliedFine(HeadersFromMetadata(obj.metadata), headers, derived, Respond(g, obj, status, rendered, headers));
  }

  lemma AppliedFine(target: HeaderMap, headers: HeaderMap, derived: HeaderMap, response: RenderResponse)
    requires GoodNames(target) && GoodNames(headers) && Keeps(headers, derived) && response.headers == Applied(target, headers)
    ensures Fine(response, derived)
  {
    AppliedKeeps(target, headers, derived);
  }

  lemma ServedIsRespond(g: RenderGateway, origin: string, path: string, status: nat, params: Option<Json>, headers: HeaderMap, internal: bool)
    returns (obj: LocalObject, rendered: Option<Rendered>)
    ensures var r := ServeObject(g, origin, path, status, params, headers, internal);
      r.Ok? && r.value.Some? ==> r.value.value == Respond(g, obj, status, rendered, headers)
  {
    obj := LocalObject([], ObjectMetadata(None, None, None, None));
    rendered := None;
    var read := ReadObject(g, origin, path, internal);
    if read.Ok? && read.value.Some? {
      obj := read.value.value;
      rendered := if params.Some? then Some(RenderTemplate(g, origin, path, params.value)) else None;
    }
  }

  lemma ObjectFine(g: RenderGateway, origin: string, path: string, status: nat, params: Option<Json>, headers: HeaderMap, internal: bool, derived: HeaderMap)
    requires GoodNames(headers) && Keeps(headers, derived)
    ensures var r := ServeObject(g, origin, path, status, params, headers, internal); r.Ok? && r.value.Some? ==> Fine(r.value.value, derived)
  {
    var obj, rendered := ServedIsRespond(g, origin, path, status, params, headers, internal);
    RespondFine(g, obj, status, rendered, headers, derived);
  }

  lemma StaticPathFine(g: RenderGateway, origin: string, config: Edge.EdgeConfig, path: string, status: nat, params: Option<Json>,
                       headers: HeaderMap, internal: bool, derived: HeaderMap)
    requires GoodNames(headers) && Keeps(headers, derived)
    ensures var r := ServeStaticPath(g, origin, config, path, status, params, headers, internal); r.Ok? && r.value.Some? ==> Fine(r.value.value, derived)
  {
    ObjectFine(g, origin, path, status, params, headers, internal, derived);
    ObjectFine(g, origin, Rules.AutoIndexCandidate(path), status, params, headers, internal, derived);
  }

  lemma NotFoundTextFine(g: RenderGateway, headers: HeaderMap, derived: HeaderMap)
    requires GoodNames(headers) && Keeps(headers, derived)
    ensures Fine(NotFoundText(g, headers), derived)
  {
    AppliedKeeps(map[], headers, derived);
  }

  lemma MissingFine(g: RenderGateway, origin: string, config: Edge.EdgeConfig, headers: HeaderMap, derived: HeaderMap)
    requires GoodNames(headers) && Keeps(headers, derived)
    ensures var r := MissingOrText(g, origin, config, headers); r.Ok? ==> Fine(r.value, derived)
  {
    NotFoundTextFine(g, headers, derived);
    match config.missing.action {
      case NotFound =>
        if config.missing.page.Some? {
          ObjectFine(g, origin, config.missing.page.value, NOT_FOUND, None, headers, false, derived);
        }
      case Serve =>
        if config.missing.path.Some? {
          ObjectFine(g, origin, config.missing.path.value, OK, None, headers, false, derived);
        }
      case Redirect =>
        LocationIsGood();
        OptionalGood(map[], LOCATION, config.missing.to);
        AppliedKeeps(WithOptional(map[], LOCATION, config.missing.to), headers, derived);
    }
  }

  lemma WithEdgeFine(response: RenderResponse, edge: HeaderMap, cors: HeaderMap)
    requires GoodNames(response.headers) && GoodNames(cors)
    ensures Fine(WithEdgeHeaders(response, edge, cors), cors)
  {
    EdgeThenCors(response.headers, edge, cors);
  }

  lemma ServeFileFine(g: RenderGateway, request: RenderRequest, origin: string, config: Edge.EdgeConfig, cors: HeaderMap, edge: HeaderMap,
                      status: nat, filePath: string, params: Option<Json>)
    requires GoodNames(cors)
    ensures var r := Terminal(g, request, origin, config, cors, edge, ServeFile(status, filePath, params)); r.Ok? ==> Fine(r.value, cors)
  {
    StaticPathFine(g, origin, config, filePath, status, params, cors, true, cors);
    var r := ServeStaticPath(g, origin, config, filePath, status, params, cors, true);
    if r.Ok? && r.value.Some? {
      WithEdgeFine(r.value.value, edge, cors);
    } else if r.Ok? {
      FilteredGood(edge);
      AppliedGood(Filtered(edge), cors);
      MissingFine(g, origin, config, Applied(Filtered(edge), cors), cors);
    }
  }

  lemma RenderTargetFine(g: RenderGateway, request: RenderRequest, origin: string, config: Edge.EdgeConfig, cors: HeaderMap, edge: HeaderMap,
                         status: nat, params: Json)
    requires GoodNames(cors)
    ensures var r := Terminal(g, request, origin, config, cors, edge, RenderTarget(status, params)); r.Ok? ==> Fine(r.value, cors)
  {
    var target := ResolveRequestTarget(config, request.path);
    StaticPathFine(g, origin, config, target, status, Some(params), cors, false, cors);
    var r := ServeStaticPath(g, origin, config, target, status, Some(params), cors, false);
    if r.Ok? && r.value.Some? {
      WithEdgeFine(r.value.value, edge, cors);
    } else {
      NotFoundTextFine(g, cors, cors);
    }
  }

  lemma TerminalFine(g: RenderGateway, request: RenderRequest, origin: string, config: Edge.EdgeConfig, cors: HeaderMap, edge: HeaderMap, outcome: PayloadOutcome)
    requires GoodNames(cors) && !outcome.Continue?
    ensures var r := Terminal(g, request, origin, config, cors, edge, outcome); r.Ok? ==> Fine(r.value, cors)
  {
    match outcome {
      case RespondDirect(_, _) =>
        EdgeThenCors(map[], edge, cors);
      case ServeFile(status, filePath, params) =>
        ServeFileFine(g, request, origin, config, cors, edge, status, filePath, params);
      case RenderTarget(status, params) =>
        RenderTargetFine(g, request, origin, config, cors, edge, status, params);
    }
  }

  lemma FailureFine(status: nat, cors: HeaderMap)
    requires GoodNames(cors)
    ensures Failure(status, cors).Ok? && Fine(Failure(status, cors).value, cors)
  {
    AppliedGood(map[], cors);
  }

  lemma {:induction false} ChainFine(g: RenderGateway, request: RenderRequest, origin: string, config: Edge.EdgeConfig, cors: HeaderMap,
                                     hooks: seq<Edge.EdgeHookConfig>, edge: HeaderMap)
    requires GoodNames(cors)
    ensures var end := Chain(g, request, origin, config, cors, hooks, edge);
      && (end.Ended? && end.reply.Ok? ==> Fine(end.reply.value, cors))
      && (end.PassedOn? ==> GoodNames(end.edge))
  {
    FailureFine(GATEWAY_TIMEOUT, cors);
    FailureFine(BAD_GATEWAY, cors);
    if hooks == [] {
      FilteredGood(edge);
    } else {
      var answer := g.call(hooks[0], HookRequest(g, request, origin));
      if answer.Answered? {
        var outcome := OutcomeOf(answer.status, answer.payload);
        if outcome.Some? {
          if outcome.value.Continue? {
            ChainFine(g, request, origin, config, cors, hooks[1..], edge + answer.payload.headers);
          } else {
            TerminalFine(g, request, origin, config, cors, edge + answer.payload.headers, outcome.value);
          }
        }
      }
    }
  }

  lemma StaticFine(g: RenderGateway, request: RenderRequest, origin: string, config: Edge.EdgeConfig, headers: HeaderMap, derived: HeaderMap)
    requires GoodNames(headers) && Keeps(headers, derived)
    ensures var r := Static(g, request, origin, config, headers); r.Ok? ==> Fine(r.value, derived)
  {
    var redirect := Rules.FindRedirect(config, request.path, request.query);
    if redirect.Some? {
      LocationIsGood();
      AppliedKeeps(map[LOCATION := redirect.value.location], headers, derived);
    } else {
      StaticPathFine(g, origin, config, ResolveRequestTarget(config, request.path), OK, None, headers, false, derived);
      MissingFine(g, origin, config, headers, derived);
    }
  }

  lemma InsertedKeeps(headers: HeaderMap, name: string, value: string, derived: HeaderMap)
    requires GoodNames(headers) && Keeps(headers, derived) && GoodName(name) && name !in derived
    ensures GoodNames(Inserted(headers, name, value)) && Keeps(Inserted(headers, name, value), derived)
  {
  }

  lemma NotCors(headers: HeaderMap)
    requires IsCors(headers)
    ensures ALLOW_METHODS !in headers && ALLOW_HEADERS !in headers
  {
    assert |ALLOW_METHODS| == 28 && |ALLOW_HEADERS| == 28 && |ALLOW_ORIGIN| == 27 && |VARY| == 4;
    assert ALLOW_METHODS !in headers.Keys && ALLOW_HEADERS !in headers.Keys;
  }

  lemma PreflightFine(request: RenderRequest, cors: HeaderMap)
    requires GoodNames(cors) && IsCors(cors)
    ensures Fine(Preflight(request, cors), cors)
  {
    NotCors(cors);
    AllowMethodsIsGood();
    AllowHeadersIsGood();
    AppliedGood(map[], cors);
    var first := Applied(map[], cors);
    var second := Inserted(first, ALLOW_METHODS, "GET, HEAD, OPTIONS");
    InsertedKeeps(first, ALLOW_METHODS, "GET, HEAD, OPTIONS", cors);
    forall value ensures GoodNames(Inserted(second, ALLOW_HEADERS, value)) && Keeps(Inserted(second, ALLOW_HEADERS, value), cors) {
      InsertedKeeps(second, ALLOW_HEADERS, value, cors);
    }
  }

  ghost predicate FineReply(reply: Reply, cors: HeaderMap) {
    reply.Ok? ==> Fine(reply.value, cors)
  }

  lemma ConfiguredFine(g: RenderGateway, request: RenderRequest, origin: string, config: Edge.EdgeConfig, cors: HeaderMap)
    requires GoodNames(cors)
    ensures var end := Chain(g, request, origin, config, cors, config.edges, map[]);
      && (end.Ended? && end.reply.Ok? ==> Fine(end.reply.value, cors))
      && (end.PassedOn? ==> FineReply(Static(g, request, origin, config, Applied(end.edge, cors)), cors))
  {
    ChainFine(g, request, origin, config, cors, config.edges, map[]);
    var end := Chain(g, request, origin, config, cors, config.edges, map[]);
    if end.PassedOn? {
      AppliedGood(end.edge, cors);
      StaticFine(g, request, origin, config, Applied(end.edge, cors), cors);
    }
  }

  lemma FinalizedFine(reply: Reply, verb: HttpMethod, cors: HeaderMap)
    requires reply.Ok? ==> Fine(reply.value, cors)
    ensures FinalizedReply(reply, verb).Ok? ==> Fine(FinalizedReply(reply, verb).value, cors)
  {
  }

  lemma ResolvedFine(g: RenderGateway, request: RenderRequest, origin: string)
    ensures var r := HandleResolved(g, request, origin); r.Ok? ==> Fine(r.value, CorsHeaders(g, origin, request))
  {
    var cors := CorsHeaders(g, origin, request);
    CorsHeadersGood(g, origin, request);
    if request.verb.OPTIONS? {
      PreflightFine(request, cors);
    } else if !request.verb.GET? && !request.verb.HEAD? {
      FailureFine(METHOD_NOT_ALLOWED, cors);
    } else if origin !in g.edgeConfigs || g.edgeConfigs[origin].Invalid? {
      FailureFine(INTERNAL_SERVER_ERROR, cors);
    } else {
      var config := g.edgeConfigs[origin].config;
      ConfiguredFine(g, request, origin, config, cors);
      var end := Chain(g, request, origin, config, cors, config.edges, map[]);
      if end.PassedOn? {
        FinalizedFine(Static(g, request, origin, config, Applied(end.edge, cors)), request.verb, cors);
      }
    }
  }

  /** Every response to a resolved host carries the CORS headers derived for it, whatever files, hooks
      and rules contribute, and no response at all carries a header from the unsafe list. */
  lemma HeadersOfEveryResponse(g: RenderGateway, request: RenderRequest)
    requires Handle(g, request).Ok?
    ensures SafeNames(Handle(g, request).value.headers)
    ensures var resolved := HostResolution.Resolve(g.resolver, request.host);
      resolved.Some? ==> Keeps(Handle(g, request).value.headers, CorsHeaders(g, resolved.value.originId, request))
  {
    var resolved := HostResolution.Resolve(g.resolver, request.host);
    if resolved.Some? {
      ResolvedFine(g, request, resolved.value.originId);
      var response := Handle(g, request).value;
      assert GoodNames(response.headers);
    }
  }
}
