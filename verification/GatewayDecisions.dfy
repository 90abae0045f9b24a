/** Which of redirect, file, index and missing page answers a request, and what the hooks contribute. */
module GatewayDecisions {
  import opened Common
  import Edge
  import opened LocalMirror
  import opened Headers
  import opened Gateway
  import opened GatewayTheorems
  import Hosts
  import HostResolution
  import opened Cors
  import Rules = StaticRules
  import Text

  // ----- the hook chain

  datatype Step = Passes(headers: HeaderMap) | Stops

  /** What one hook does to the request: pass it on with more headers, or end the chain. */
  function StepOf(g: RenderGateway, request: RenderRequest, origin: string, hook: Edge.EdgeHookConfig): Step {
    match g.call(hook, HookRequest(g, request, origin))
    case Answered(status, payload) =>
      if payload.body.None? && payload.filePath.None? && payload.params.None? then Passes(payload.headers) else Stops
    case _ => Stops
  }

  ghost predicate AllPass(g: RenderGateway, request: RenderRequest, origin: string, hooks: seq<Edge.EdgeHookConfig>) {
    forall i :: 0 <= i < |hooks| ==> StepOf(g, request, origin, hooks[i]).Passes?
  }

  /** The headers of hooks that pass, a later one overriding an earlier one. */
  function HeadersOf(g: RenderGateway, request: RenderRequest, origin: string, hooks: seq<Edge.EdgeHookConfig>, edge: HeaderMap): HeaderMap {
    if hooks == [] then edge
    else
      var step := StepOf(g, request, origin, hooks[0]);
      HeadersOf(g, request, origin, hooks[1..], if step.Passes? then edge + step.headers else edge)
  }

  lemma AllPassFrom(g: RenderGateway, request: RenderRequest, origin: string, hooks: seq<Edge.EdgeHookConfig>)
    requires hooks != []
    ensures AllPass(g, request, origin, hooks) <==> StepOf(g, request, origin, hooks[0]).Passes? && AllPass(g, request, origin, hooks[1..])
  {
    assert forall i :: 1 <= i < |hooks| ==> hooks[i] == hooks[1..][i - 1];
    assert forall i :: 0 <= i < |hooks[1..]| ==> hooks[1..][i] == hooks[i + 1];
  }

  lemma ChainStep(g: RenderGateway, request: RenderRequest, origin: string, config: Edge.EdgeConfig, cors: HeaderMap,
                  hooks: seq<Edge.EdgeHookConfig>, edge: HeaderMap)
    requires hooks != []
    ensures match StepOf(g, request, origin, hooks[0])
      case Passes(headers) =>
        Chain(g, request, origin, config, cors, hooks, edge) == Chain(g, request, origin, config, cors, hooks[1..], edge + headers)
      case Stops => Chain(g, request, origin, config, cors, hooks, edge).Ended?
  {
  }

  /** A chain passes the request on exactly when every hook answers with headers alone, and then with
      all of them; every hook sees the request as it came. */
  lemma {:induction false} ChainPassesOnExactly(g: RenderGateway, request: RenderRequest, origin: string, config: Edge.EdgeConfig, cors: HeaderMap,
                                                hooks: seq<Edge.EdgeHookConfig>, edge: HeaderMap)
    ensures Chain(g, request, origin, config, cors, hooks, edge).PassedOn? <==> AllPass(g, request, origin, hooks)
    ensures AllPass(g, request, origin, hooks) ==>
      Chain(g, request, origin, config, cors, hooks, edge) == PassedOn(Filtered(HeadersOf(g, request, origin, hooks, edge)))
  {
    if hooks != [] {
      ChainStep(g, request, origin, config, cors, hooks, edge);
      AllPassFrom(g, request, origin, hooks);
      var step := StepOf(g, request, origin, hooks[0]);
      if step.Passes? {
        ChainPassesOnExactly(g, request, origin, config, cors, hooks[1..], edge + step.headers);
      }
    }
  }

  /** The first hook that does not pass decides: the hooks after it are never asked. */
  lemma {:induction false} LaterHooksDoNotMatter(g: RenderGateway, request: RenderRequest, origin: string, config: Edge.EdgeConfig, cors: HeaderMap,
                                                 hooks: seq<Edge.EdgeHookConfig>, later: seq<Edge.EdgeHookConfig>, edge: HeaderMap)
    requires !AllPass(g, request, origin, hooks)
    ensures Chain(g, request, origin, config, cors, hooks + later, edge) == Chain(g, request, origin, config, cors, hooks, edge)
  {
    var step := StepOf(g, request, origin, hooks[0]);
    AllPassFrom(g, request, origin, hooks);
    assert (hooks + later)[0] == hooks[0] && (hooks + later)[1..] == hooks[1..] + later;
    if step.Passes? {
      ChainStep(g, request, origin, config, cors, hooks, edge);
      ChainStep(g, request, origin, config, cors, hooks + later, edge);
      LaterHooksDoNotMatter(g, request, origin, config, cors, hooks[1..], later, edge + step.headers);
    }
  }

  // ----- a request that the hooks pass on

  /** A file that may answer, and the status it is served with. */
  datatype Choice = Choice(path: string, status: nat)

  /** The rewritten path, the index below it, and the file configured for a miss. */
  function Choices(config: Edge.EdgeConfig, path: string): seq<Choice> {
    var target := ResolveRequestTarget(config, path);
    [Choice(target, OK)]
    + ((if config.edge.autoRewriteIndex then [Choice(Rules.AutoIndexCandidate(target), OK)] else []) + MissChoices(config))
  }

  function MissChoices(config: Edge.EdgeConfig): seq<Choice> {
    match config.missing.action
    case NotFound => if config.missing.page.Some? then [Choice(config.missing.page.value, NOT_FOUND)] else []
    case Serve => if config.missing.path.Some? then [Choice(config.missing.path.value, OK)] else []
    case Redirect => []
  }

  datatype Found = Found(file: LocalObject, status: nat)

  /** The first of them that is there; a failing read before it is an error. */
  function FirstPresent(g: RenderGateway, origin: string, choices: seq<Choice>): Result<Option<Found>, string> {
    if choices == [] then Ok(None)
    else match ReadObject(g, origin, choices[0].path, false)
      case Err(e) => Err(e)
      case Ok(Some(file)) => Ok(Some(Found(file, choices[0].status)))
      case Ok(None) => FirstPresent(g, origin, choices[1..])
  }

  /** With none there: the configured redirect, 302 unless told otherwise, or a plain text. */
  function Nothing(g: RenderGateway, config: Edge.EdgeConfig, headers: HeaderMap): Reply {
    var missing := config.missing;
    if !missing.action.Redirect? then Ok(RenderResponse(NOT_FOUND, headers, g.utf8("not found")))
    else if missing.status.None? then Ok(RenderResponse(FOUND, WithOptional(map[], LOCATION, missing.to) + headers, []))
    else if IsStatus(missing.status.value) then Ok(RenderResponse(missing.status.value, WithOptional(map[], LOCATION, missing.to) + headers, []))
    else Err("status")
  }

  function FoundReply(found: Result<Option<Found>, string>, headers: HeaderMap, otherwise: Reply): Reply {
    match found
    case Err(e) => Err(e)
    case Ok(Some(f)) => Ok(RenderResponse(f.status, HeadersFromMetadata(f.file.metadata) + headers, f.file.body))
    case Ok(None) => otherwise
  }

  /** What a GET gets that every hook passes on, in one list of choices: a matching redirect, else the
      first file present with its own body and metadata, else the configured miss. Later headers override
      earlier ones: metadata or location, then the hooks' safe ones, then the derived CORS headers. */
  function Answer(g: RenderGateway, request: RenderRequest, config: Edge.EdgeConfig, origin: string, headers: HeaderMap): Reply {
    match Rules.FindRedirect(config, request.path, request.query)
    case Some(redirect) =>
      if IsStatus(redirect.status) then Ok(RenderResponse(redirect.status, map[LOCATION := redirect.location] + headers, [])) else Err("status")
    case None =>
      FoundReply(FirstPresent(g, origin, Choices(config, request.path)), headers, Nothing(g, config, headers))
  }

  lemma ServedPlainly(g: RenderGateway, origin: string, path: string, status: nat, headers: HeaderMap)
    requires LowerNames(headers)
    ensures ServeObject(g, origin, path, status, None, headers, false) == match ReadObject(g, origin, path, false)
      case Err(e) => Err(e)
      case Ok(None) => Ok(None)
      case Ok(Some(file)) => Ok(Some(RenderResponse(status, HeadersFromMetadata(file.metadata) + headers, file.body)))
  {
    var read := ReadObject(g, origin, path, false);
    if read.Ok? && read.value.Some? {
      AppliedIsOverride(HeadersFromMetadata(read.value.value.metadata), headers);
    }
  }

  lemma MissAnswers(g: RenderGateway, origin: string, config: Edge.EdgeConfig, headers: HeaderMap)
    requires LowerNames(headers)
    ensures MissingOrText(g, origin, config, headers)
      == FoundReply(FirstPresent(g, origin, MissChoices(config)), headers, Nothing(g, config, headers))
  {
    match config.missing.action
    case NotFound => NotFoundAnswers(g, origin, config, headers);
    case Serve => ServeAnswers(g, origin, config, headers);
    case Redirect => AppliedIsOverride(WithOptional(map[], LOCATION, config.missing.to), headers);
  }

  lemma PlainText(g: RenderGateway, headers: HeaderMap)
    requires LowerNames(headers)
    ensures NotFoundText(g, headers) == RenderResponse(NOT_FOUND, headers, g.utf8("not found"))
  {
    AppliedIsOverride(map[], headers);
    assert map[] + headers == headers;
  }

  lemma NotFoundAnswers(g: RenderGateway, origin: string, config: Edge.EdgeConfig, headers: HeaderMap)
    requires LowerNames(headers) && config.missing.action.NotFound?
    ensures MissingOrText(g, origin, config, headers)
      == FoundReply(FirstPresent(g, origin, MissChoices(config)), headers, Nothing(g, config, headers))
  {
    PlainText(g, headers);
    if config.missing.page.Some? {
      ServedPlainly(g, origin, config.missing.page.value, NOT_FOUND, headers);
      PresentFrom(g, origin, Choice(config.missing.page.value, NOT_FOUND), []);
      assert MissChoices(config) == [Choice(config.missing.page.value, NOT_FOUND)] + [];
    }
  }

  lemma ServeAnswers(g: RenderGateway, origin: string, config: Edge.EdgeConfig, headers: HeaderMap)
    requires LowerNames(headers) && config.missing.action.Serve?
    ensures MissingOrText(g, origin, config, headers)
      == FoundReply(FirstPresent(g, origin, MissChoices(config)), headers, Nothing(g, config, headers))
  {
    PlainText(g, headers);
    if config.missing.path.Some? {
      ServedPlainly(g, origin, config.missing.path.value, OK, headers);
      PresentFrom(g, origin, Choice(config.missing.path.value, OK), []);
      assert MissChoices(config) == [Choice(config.missing.path.value, OK)] + [];
    }
  }

  lemma PresentFrom(g: RenderGateway, origin: string, choice: Choice, rest: seq<Choice>)
    ensures FirstPresent(g, origin, [choice] + rest) == match ReadObject(g, origin, choice.path, false)
      case Err(e) => Err(e)
      case Ok(Some(file)) => Ok(Some(Found(file, choice.status)))
      case Ok(None) => FirstPresent(g, origin, rest)
  {
    assert ([choice] + rest)[1..] == rest;
  }

  lemma StaticAnswers(g: RenderGateway, request: RenderRequest, origin: string, config: Edge.EdgeConfig, headers: HeaderMap)
    requires LowerNames(headers)
    ensures Static(g, request, origin, config, headers) == Answer(g, request, config, origin, headers)
  {
    var redirect := Rules.FindRedirect(config, request.path, request.query);
    if redirect.Some? {
      AppliedIsOverride(map[LOCATION := redirect.value.location], headers);
    } else {
      var target := ResolveRequestTarget(config, request.path);
      var index := Rules.AutoIndexCandidate(target);
      var miss := MissChoices(config);
      ServedPlainly(g, origin, target, OK, headers);
      MissAnswers(g, origin, config, headers);
      if config.edge.autoRewriteIndex {
        ServedPlainly(g, origin, index, OK, headers);
        PresentFrom(g, origin, Choice(index, OK), miss);
        PresentFrom(g, origin, Choice(target, OK), [Choice(index, OK)] + miss);
      } else {
        assert [] + miss == miss;
        PresentFrom(g, origin, Choice(target, OK), miss);
      }
    }
  }

  /** The whole way of a GET for a served origin whose hooks all answer with headers alone. */
  lemma PassedRequestAnswered(g: RenderGateway, request: RenderRequest, resolved: HostResolution.ResolvedHost)
    requires HostResolution.Resolve(g.resolver, request.host) == Some(resolved) && request.verb.GET?
    requires resolved.originId in g.edgeConfigs && g.edgeConfigs[resolved.originId].Valid?
    requires AllPass(g, request, resolved.originId, g.edgeConfigs[resolved.originId].config.edges)
    ensures var origin, config := resolved.originId, g.edgeConfigs[resolved.originId].config;
      var headers := Filtered(HeadersOf(g, request, origin, config.edges, map[])) + CorsHeaders(g, origin, request);
      Handle(g, request) == Answer(g, request, config, origin, headers)
  {
    var origin, config := resolved.originId, g.edgeConfigs[resolved.originId].config;
    var cors, edge := CorsHeaders(g, origin, request), Filtered(HeadersOf(g, request, origin, config.edges, map[]));
    ChainPassesOnExactly(g, request, origin, config, cors, config.edges, map[]);
    FilteredIsSafe(HeadersOf(g, request, origin, config.edges, map[]));
    CorsNamesAreLower(g, origin, request);
    AppliedIsOverride(edge, cors);
    StaticAnswers(g, request, origin, config, edge + cors);
  }

  lemma CorsNamesAreLower(g: RenderGateway, origin: string, request: RenderRequest)
    ensures LowerNames(CorsHeaders(g, origin, request))
  {
    CorsHeadersGood(g, origin, request);
  }

  // ----- headers of a file and of an accepted cross-origin request

  predicate ShownAs(headers: HeaderMap, name: string, value: Option<string>) {
    (name in headers <==> value.Some?) && (value.Some? ==> headers[name] == value.value)
  }

  lemma OptionalShown(headers: HeaderMap, name: string, value: Option<string>)
    requires name !in headers
    ensures ShownAs(WithOptional(headers, name, value), name, value)
    ensures forall other {:trigger other in headers} :: other != name ==>
      (other in WithOptional(headers, name, value) <==> other in headers)
      && (other in headers ==> WithOptional(headers, name, value)[other] == headers[other])
  {
  }

  lemma OwnNamesDiffer()
    ensures CONTENT_TYPE != CACHE_CONTROL && CONTENT_TYPE != ETAG && CONTENT_TYPE != LAST_MODIFIED
    ensures CACHE_CONTROL != ETAG && CACHE_CONTROL != LAST_MODIFIED && ETAG != LAST_MODIFIED
  {
    assert CONTENT_TYPE[1] == 'o' && CACHE_CONTROL[1] == 'a' && ETAG[0] == 'e' && LAST_MODIFIED[0] == 'l';
  }

  /** A file shows each piece of its mirrored metadata under its own header, and nothing else. */
  lemma MetadataShown(m: ObjectMetadata)
    ensures var h := HeadersFromMetadata(m);
      && ShownAs(h, CONTENT_TYPE, m.contentType) && ShownAs(h, CACHE_CONTROL, m.cacheControl)
      && ShownAs(h, ETAG, m.etag) && ShownAs(h, LAST_MODIFIED, m.lastModified)
      && h.Keys <= {CONTENT_TYPE, CACHE_CONTROL, ETAG, LAST_MODIFIED}
  {
    OwnNamesDiffer();
    var a := WithOptional(map[], CONTENT_TYPE, m.contentType);
    var b := WithOptional(a, CACHE_CONTROL, m.cacheControl);
    var c := WithOptional(b, ETAG, m.etag);
    OptionalShown(map[], CONTENT_TYPE, m.contentType);
    OptionalShown(a, CACHE_CONTROL, m.cacheControl);
    OptionalShown(b, ETAG, m.etag);
    OptionalShown(c, LAST_MODIFIED, m.lastModified);
  }

  /** A request gets CORS headers exactly when it names an origin whose host some entry of the served
      origin other than `*` covers; they then allow the origin it named and no other. */
  lemma CorsHeadersExactly(g: RenderGateway, rules: seq<HostResolution.Rule>, origin: string, request: RenderRequest)
    requires g.cors == CorsPolicy(RulesByOrigin(rules))
    ensures var h := CorsHeaders(g, origin, request);
      && (h != map[] <==> "origin" in request.headers && Covered(g, rules, origin, request.headers["origin"]))
      && (h != map[] ==> h == map[ALLOW_ORIGIN := request.headers["origin"], VARY := "Origin"])
  {
    if "origin" in request.headers {
      var raw := g.parseOrigin(request.headers["origin"]);
      assert ALLOW_ORIGIN in map[ALLOW_ORIGIN := request.headers["origin"], VARY := "Origin"];
      if raw.Some? && Hosts.NormalizeHost(raw.value).Some? {
        AllowedExactly(rules, origin, Hosts.NormalizeHost(raw.value).value);
      }
    }
  }

  ghost predicate Covered(g: RenderGateway, rules: seq<HostResolution.Rule>, origin: string, requestOrigin: string) {
    var raw := g.parseOrigin(requestOrigin);
    && raw.Some? && Hosts.NormalizeHost(raw.value).Some?
    && exists what: HostResolution.HostRule ::
      (what.Exact? || what.Wild?) && HostResolution.RuleMatches(what, Hosts.NormalizeHost(raw.value).value) && HostResolution.Rule(what, origin) in rules
  }

  /** A redirect keeps the query of the request unless its target has one of its own. */
  lemma RedirectKeepsQuery(config: Edge.EdgeConfig, path: string, query: string)
    requires query != ""
    ensures var plain, asked := Rules.FindRedirect(config, path, None), Rules.FindRedirect(config, path, Some(query));
      && (plain.Some? <==> asked.Some?)
      && (plain.Some? ==> asked.value.status == plain.value.status)
      && (plain.Some? ==>
            asked.value.location == if '?' in plain.value.location then plain.value.location else plain.value.location + "?" + query)
  {
  }

  // ----- what no hook is asked about, and what a hook is asked

  const ASKED_HEADERS := "access-control-request-headers"

  /** What a preflight allows besides the derived CORS headers. */
  function PreflightHeaders(request: RenderRequest, cors: HeaderMap): HeaderMap {
    var headers := cors[ALLOW_METHODS := "GET, HEAD, OPTIONS"];
    if ASKED_HEADERS in request.headers then headers[ALLOW_HEADERS := request.headers[ASKED_HEADERS]] else headers
  }

  lemma PreflightAllows(request: RenderRequest, cors: HeaderMap)
    requires LowerNames(cors)
    ensures Preflight(request, cors) == RenderResponse(204, PreflightHeaders(request, cors), [])
  {
    AllowMethodsIsGood();
    AllowHeadersIsGood();
    AppliedIsOverride(map[], cors);
    NothingUnder(cors);
  }

  lemma NothingUnder(headers: HeaderMap)
    ensures map[] + headers == headers
  {
  }

  lemma FailureAnswers(status: nat, cors: HeaderMap)
    requires LowerNames(cors)
    ensures Failure(status, cors) == Ok(RenderResponse(status, cors, []))
  {
    AppliedIsOverride(map[], cors);
    NothingUnder(cors);
  }

  /** A request for no origin, a preflight, a wrong method and an unusable configuration never reach a hook. */
  lemma UnaskedRequestAnswered(g: RenderGateway, request: RenderRequest)
    ensures HostResolution.Resolve(g.resolver, request.host).None? ==> Handle(g, request) == Ok(RenderResponse(421, map[], []))
    ensures HostResolution.Resolve(g.resolver, request.host).Some? ==>
      IsUnasked(g, request, HostResolution.Resolve(g.resolver, request.host).value.originId, Handle(g, request))
  {
    var resolved := HostResolution.Resolve(g.resolver, request.host);
    if resolved.Some? {
      UnaskedAtOrigin(g, request, resolved.value.originId);
    }
  }

  ghost predicate IsUnasked(g: RenderGateway, request: RenderRequest, origin: string, reply: Reply) {
    var cors := CorsHeaders(g, origin, request);
    match request.verb
    case OPTIONS => reply == Ok(RenderResponse(204, PreflightHeaders(request, cors), []))
    case Other(_) => reply == Ok(RenderResponse(405, cors, []))
    case _ => (origin !in g.edgeConfigs || g.edgeConfigs[origin].Invalid?) ==> reply == Ok(RenderResponse(500, cors, []))
  }

  lemma UnaskedAtOrigin(g: RenderGateway, request: RenderRequest, origin: string)
    ensures IsUnasked(g, request, origin, HandleResolved(g, request, origin))
  {
    var cors := CorsHeaders(g, origin, request);
    CorsNamesAreLower(g, origin, request);
    PreflightAllows(request, cors);
    FailureAnswers(METHOD_NOT_ALLOWED, cors);
    FailureAnswers(INTERNAL_SERVER_ERROR, cors);
  }

  /** Every hook is asked about the request as it came; its address is put together from its parts. */
  lemma HookSees(g: RenderGateway, request: RenderRequest, origin: string)
    ensures var r := HookRequest(g, request, origin);
      && r.url == request.scheme + SCHEME_SEPARATOR + request.host + r.path + (if r.querystring == "" then "" else "?" + r.querystring)
      && r.path == request.path && (request.query == Some(r.querystring) || (request.query.None? && r.querystring == ""))
      && r.queryparams == g.parseQuery(r.querystring)
      && r.verb == request.verb && r.headers == request.headers && r.ip == request.clientIp && r.origin == origin
      && (origin in g.buckets ==> r.bucket == g.buckets[origin]) && (origin !in g.buckets ==> r.bucket == origin)
      && (origin in g.edgeContexts ==> r.edgeContext == Some(g.edgeContexts[origin])) && (origin !in g.edgeContexts ==> r.edgeContext.None?)
  {
    var url := request.scheme + SCHEME_SEPARATOR + request.host + request.path;
    assert url + "" == url;
    if request.query.Some? {
      assert url + "?" + request.query.value == url + ("?" + request.query.value);
    }
  }

  /** `.rendermesh` or `_rendermesh` or something below them, after any slashes. */
  ghost predicate IsPrivate(path: string) {
    exists stem, rest :: Text.IsUnrun(stem, path, '/') && IsBelowPrivate(stem, rest)
  }

  ghost predicate IsBelowPrivate(stem: string, rest: string) {
    (stem == ".rendermesh" + rest || stem == "_rendermesh" + rest) && (rest == "" || rest[0] == '/')
  }

  lemma ReservedExactly(path: string)
    ensures IsReservedPath(path) <==> IsPrivate(path)
  {
    var p := Text.TrimStartOf(path, '/');
    Text.TrimStartOfIsUnrun(path, '/');
    if IsReservedPath(path) {
      assert p == p[..11] + p[11..];
      assert IsBelowPrivate(p, p[11..]);
    }
    if stem, rest :| Text.IsUnrun(stem, path, '/') && IsBelowPrivate(stem, rest) {
      Text.UnrunIsUnique(stem, p, path, '/');
      assert rest != "" ==> rest == ['/'] + rest[1..];
    }
  }

  /** The file a path stands for: rewritten first, and then the root object instead of its last slashes. */
  lemma TargetExactly(config: Edge.EdgeConfig, path: string, stem: string) returns (i: nat, rewritten: string)
    ensures var from := (r: Edge.RewriteRule) => r.from;
      if forall j :: 0 <= j < |config.rewrites| ==> !Rules.MatchesPath(config.rewrites[j].from, path) then rewritten == path
      else Rules.Decides(config.rewrites, from, path, i) && Rules.IsSplatted(config.rewrites[i].from, config.rewrites[i].to, path, rewritten)
    ensures Text.IsStem(stem, rewritten, '/') ==>
      ResolveRequestTarget(config, path) == if stem == rewritten then rewritten else stem + config.edge.rootObject
  {
    i := Rules.RewriteExactly(config, path);
    rewritten := Rules.ResolveRewrite(config, path);
    if Text.IsStem(stem, rewritten, '/') {
      Rules.RootObjectExactly(config, rewritten, stem);
    }
  }

  /** An object is served with the body and the four pieces of metadata it was fetched with. */
  lemma FetchedIsShown(obj: RemoteObject)
    ensures Stored(obj).body == obj.body
    ensures var h := HeadersFromMetadata(Stored(obj).metadata);
      && ShownAs(h, "content-type", obj.contentType) && ShownAs(h, "cache-control", obj.cacheControl)
      && ShownAs(h, "etag", obj.etag) && ShownAs(h, "last-modified", obj.lastModified)
      && h.Keys <= {"content-type", "cache-control", "etag", "last-modified"}
  {
    MetadataShown(Stored(obj).metadata);
  }

  lemma DefaultTarget(path: string, stem: string)
    requires Text.IsStem(stem, path, '/')
    ensures ResolveRequestTarget(Edge.DEFAULT_EDGE_CONFIG, path) == if stem == path then path else stem + "/index.html"
  {
    var i, rewritten := TargetExactly(Edge.DEFAULT_EDGE_CONFIG, path, stem);
  }

  lemma IndexBelow(path: string, stem: string, target: string)
    requires Text.IsStem(stem, path, '/') && target == if stem == path then path else stem + "/index.html"
    ensures Rules.AutoIndexCandidate(target) == target + "/index.html"
  {
    assert stem != path ==> target[|target| - 1] == 'l';
    Rules.RootObjectExactly(Edge.DEFAULT_EDGE_CONFIG, target, target);
  }

  lemma DefaultRedirectsNothing(path: string, query: Option<string>)
    ensures Rules.FindRedirect(Edge.DEFAULT_EDGE_CONFIG, path, query).None?
  {
    var i, location := Rules.RedirectExactly(Edge.DEFAULT_EDGE_CONFIG, path, query);
  }

  /** Without a configuration nothing is redirected; a GET is answered from the file, or the index below it, or with 404 from the root index. */
  lemma DefaultChoices(path: string, query: Option<string>, stem: string)
    requires Text.IsStem(stem, path, '/')
    ensures var config, target := Edge.DEFAULT_EDGE_CONFIG, if stem == path then path else stem + "/index.html";
      && Rules.FindRedirect(config, path, query).None?
      && ResolveRequestTarget(config, path) == target
      && Choices(config, path) == [Choice(target, 200), Choice(target + "/index.html", 200), Choice("/index.html", 404)]
  {
    DefaultTarget(path, stem);
    IndexBelow(path, stem, if stem == path then path else stem + "/index.html");
    DefaultRedirectsNothing(path, query);
  }
}
