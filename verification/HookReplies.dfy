/** What a GET gets when a hook ends its chain, in plain words. */
module HookReplies {
  import opened Common
  import Edge
  import opened LocalMirror
  import opened MirrorLayout
  import opened Headers
  import opened Gateway
  import opened GatewayTheorems
  import opened GatewayDecisions
  import HostResolution
  import Rules = StaticRules
  import Text

  /** A hook may name a file below the root: no control character and no two dots in a row. */
  ghost predicate MayName(path: string) {
    && path != "" && path[0] == '/'
    && (forall c :: c in path ==> !Text.IsControl(c))
    && !exists before, after: string :: path == before + ".." + after
  }

  lemma MayNameExactly(path: string)
    ensures IsEdgeFilePath(path) <==> MayName(path)
  {
    if before, after: string :| path == before + ".." + after {
      assert path[|before|] == '.' && path[|before| + 1] == '.';
    }
    if i :| 0 <= i < |path| - 1 && path[i] == '.' && path[i + 1] == '.' {
      assert path == path[..i] + ".." + path[i + 2..];
    }
  }

  /** A body with the status it is sent with. */
  datatype Sent = Sent(status: nat, body: Bytes)

  /** A file as it is, or the page that the published template of its key makes of the parameters: 415
      when it has none, 502 when rendering fails. */
  function SentFor(g: RenderGateway, origin: string, path: string, file: LocalObject, status: nat, params: Option<Json>): Sent {
    if params.None? then Sent(status, file.body)
    else
      var key := NormalizeObjectPath(path);
      if key.Err? || origin !in g.registries || key.value !in g.registries[origin] then Sent(415, [])
      else
        var text := g.render(g.registries[origin][key.value], params.value);
        if text.Some? then Sent(status, g.utf8(text.value)) else Sent(502, [])
  }

  function FileSent(g: RenderGateway, origin: string, path: string, file: LocalObject, status: nat, params: Option<Json>, headers: HeaderMap): RenderResponse {
    var sent := SentFor(g, origin, path, file, status, params);
    RenderResponse(sent.status, HeadersFromMetadata(file.metadata) + headers, sent.body)
  }

  /** The first present of `paths`; hooks may also read reserved paths. */
  function FirstSent(g: RenderGateway, origin: string, paths: seq<string>, status: nat, params: Option<Json>, internal: bool, headers: HeaderMap)
    : Result<Option<RenderResponse>, string>
  {
    if paths == [] then Ok(None)
    else if !internal && IsReservedPath(paths[0]) then FirstSent(g, origin, paths[1..], status, params, internal, headers)
    else match g.read(origin, paths[0])
      case Err(e) => Err(e)
      case Ok(None) => FirstSent(g, origin, paths[1..], status, params, internal, headers)
      case Ok(Some(file)) =>
        Ok(Some(FileSent(g, origin, paths[0], file, status, params, headers)))
  }

  function WithIndex(config: Edge.EdgeConfig, path: string): seq<string> {
    if config.edge.autoRewriteIndex then [path, Rules.AutoIndexCandidate(path)] else [path]
  }

  /** A hook that fails or answers unacceptably, or else body before file before parameters; all with the
      headers of the hooks so far, overridden by the derived CORS headers, except where nothing is sent of the hook's. */
  function StoppedReply(g: RenderGateway, request: RenderRequest, origin: string, config: Edge.EdgeConfig, cors: HeaderMap,
                        earlier: HeaderMap, answer: HookAnswer, named: bool): Reply
  {
    match answer
    case TimedOut => Ok(RenderResponse(504, cors, []))
    case CallFailed => Ok(RenderResponse(502, cors, []))
    case Answered(status, payload) =>
      var headers := Filtered(earlier + payload.headers) + cors;
      if payload.body.Some? then Ok(RenderResponse(status, headers, g.utf8(payload.body.value)))
      else if payload.filePath.Some? then
        if !named then Ok(RenderResponse(502, cors, []))
        else (match FirstSent(g, origin, WithIndex(config, payload.filePath.value), status, payload.params, true, headers)
              case Err(e) => Err(e)
              case Ok(Some(response)) => Ok(response)
              case Ok(None) => FoundReply(FirstPresent(g, origin, MissChoices(config)), headers, Nothing(g, config, headers)))
      else
        (match FirstSent(g, origin, WithIndex(config, ResolveRequestTarget(config, request.path)), status, payload.params, false, headers)
         case Err(e) => Err(e)
         case Ok(Some(response)) => Ok(response)
         case Ok(None) => Ok(RenderResponse(404, cors, g.utf8("not found"))))
  }

  function Rendering(g: RenderGateway, origin: string, path: string, params: Option<Json>): Option<Rendered> {
    if params.Some? then Some(RenderTemplate(g, origin, path, params.value)) else None
  }

  lemma RespondSent(g: RenderGateway, origin: string, path: string, file: LocalObject, status: nat, params: Option<Json>, headers: HeaderMap)
    requires LowerNames(headers)
    ensures var sent := SentFor(g, origin, path, file, status, params);
      Respond(g, file, status, Rendering(g, origin, path, params), headers)
        == RenderResponse(sent.status, HeadersFromMetadata(file.metadata) + headers, sent.body)
  {
    AppliedIsOverride(HeadersFromMetadata(file.metadata), headers);
  }

  lemma ObjectSent(g: RenderGateway, origin: string, path: string, status: nat, params: Option<Json>, headers: HeaderMap, internal: bool)
    requires LowerNames(headers)
    ensures ServeObject(g, origin, path, status, params, headers, internal) == match ReadObject(g, origin, path, internal)
      case Err(e) => Err(e)
      case Ok(None) => Ok(None)
      case Ok(Some(file)) => Ok(Some(FileSent(g, origin, path, file, status, params, headers)))
  {
    var read := ReadObject(g, origin, path, internal);
    if read.Ok? && read.value.Some? {
      RespondSent(g, origin, path, read.value.value, status, params, headers);
    }
  }

  /** `serve_static_path` sends the first present of the path and its index. */
  lemma StaticPathSent(g: RenderGateway, origin: string, config: Edge.EdgeConfig, path: string, status: nat, params: Option<Json>,
                       cors: HeaderMap, internal: bool)
    requires LowerNames(cors)
    ensures ServeStaticPath(g, origin, config, path, status, params, cors, internal)
      == FirstSent(g, origin, WithIndex(config, path), status, params, internal, cors)
  {
    var index := Rules.AutoIndexCandidate(path);
    ObjectSent(g, origin, path, status, params, cors, internal);
    ObjectSent(g, origin, index, status, params, cors, internal);
    assert [path, index][1..] == [index] && [index][1..] == [] && [path][1..] == [];
    SentFrom(g, origin, index, [], status, params, cors, internal);
    if config.edge.autoRewriteIndex {
      SentFrom(g, origin, path, [index], status, params, cors, internal);
    } else {
      SentFrom(g, origin, path, [], status, params, cors, internal);
    }
  }

  lemma SentFrom(g: RenderGateway, origin: string, path: string, rest: seq<string>, status: nat, params: Option<Json>, headers: HeaderMap, internal: bool)
    ensures var sent := FirstSent(g, origin, [path] + rest, status, params, internal, headers);
      sent == match ReadObject(g, origin, path, internal)
        case Err(e) => Err(e)
        case Ok(None) => FirstSent(g, origin, rest, status, params, internal, headers)
        case Ok(Some(file)) => Ok(Some(FileSent(g, origin, path, file, status, params, headers)))
  {
    assert ([path] + rest)[1..] == rest;
  }

  lemma FilteredLower(edge: HeaderMap)
    ensures LowerNames(Filtered(edge))
  {
    FilteredIsSafe(edge);
  }

  lemma AppliedTwice(target: HeaderMap, safe: HeaderMap, cors: HeaderMap)
    requires LowerNames(safe) && LowerNames(cors)
    ensures Applied(Applied(target, safe), cors) == target + safe + cors
  {
    AppliedIsOverride(target, safe);
    AppliedIsOverride(target + safe, cors);
  }

  lemma OverriddenAgain(meta: HeaderMap, safe: HeaderMap, cors: HeaderMap)
    ensures meta + cors + safe + cors == meta + (safe + cors)
  {
  }

  lemma WithHookHeaders(meta: HeaderMap, edge: HeaderMap, cors: HeaderMap, response: RenderResponse)
    requires LowerNames(cors) && response.headers == meta + cors
    ensures WithEdgeHeaders(response, edge, cors) == response.(headers := meta + (Filtered(edge) + cors))
  {
    FilteredLower(edge);
    AppliedTwice(meta + cors, Filtered(edge), cors);
    OverriddenAgain(meta, Filtered(edge), cors);
  }

  lemma FileWithHookHeaders(g: RenderGateway, origin: string, path: string, file: LocalObject, status: nat, params: Option<Json>, edge: HeaderMap, cors: HeaderMap)
    requires LowerNames(cors)
    ensures WithEdgeHeaders(FileSent(g, origin, path, file, status, params, cors), edge, cors)
      == FileSent(g, origin, path, file, status, params, Filtered(edge) + cors)
  {
    WithHookHeaders(HeadersFromMetadata(file.metadata), edge, cors, FileSent(g, origin, path, file, status, params, cors));
  }

  function WithHook(sent: Result<Option<RenderResponse>, string>, edge: HeaderMap, cors: HeaderMap): Result<Option<RenderResponse>, string> {
    if sent.Ok? && sent.value.Some? then Ok(Some(WithEdgeHeaders(sent.value.value, edge, cors))) else sent
  }

  /** The hooks' headers are added to whatever file is sent. */
  lemma {:induction false} SentWithHookHeaders(g: RenderGateway, origin: string, paths: seq<string>, status: nat, params: Option<Json>, internal: bool,
                                               edge: HeaderMap, cors: HeaderMap)
    requires LowerNames(cors)
    ensures FirstSent(g, origin, paths, status, params, internal, Filtered(edge) + cors)
      == WithHook(FirstSent(g, origin, paths, status, params, internal, cors), edge, cors)
  {
    if paths != [] {
      var path, rest := paths[0], paths[1..];
      assert paths == [path] + rest;
      SentWithHookHeaders(g, origin, rest, status, params, internal, edge, cors);
      SentFrom(g, origin, path, rest, status, params, cors, internal);
      SentFrom(g, origin, path, rest, status, params, Filtered(edge) + cors, internal);
      var read := ReadObject(g, origin, path, internal);
      if read.Ok? && read.value.Some? {
        FileWithHookHeaders(g, origin, path, read.value.value, status, params, edge, cors);
      }
    }
  }

  lemma DirectReply(g: RenderGateway, request: RenderRequest, origin: string, config: Edge.EdgeConfig, cors: HeaderMap, edge: HeaderMap, status: nat, body: string)
    requires LowerNames(cors)
    ensures Terminal(g, request, origin, config, cors, edge, RespondDirect(status, body))
      == Ok(RenderResponse(status, Filtered(edge) + cors, g.utf8(body)))
  {
    FilteredLower(edge);
    AppliedTwice(map[], Filtered(edge), cors);
    NothingBefore(Filtered(edge));
  }

  lemma NothingBefore(headers: HeaderMap)
    ensures map[] + headers == headers
  {
  }

  lemma FileReply(g: RenderGateway, request: RenderRequest, origin: string, config: Edge.EdgeConfig, cors: HeaderMap, edge: HeaderMap,
                  status: nat, path: string, params: Option<Json>)
    requires LowerNames(cors)
    ensures var headers := Filtered(edge) + cors;
      Terminal(g, request, origin, config, cors, edge, ServeFile(status, path, params))
        == match FirstSent(g, origin, WithIndex(config, path), status, params, true, headers)
          case Err(e) => Err(e)
          case Ok(Some(response)) => Ok(response)
          case Ok(None) => FoundReply(FirstPresent(g, origin, MissChoices(config)), headers, Nothing(g, config, headers))
  {
    StaticPathSent(g, origin, config, path, status, params, cors, true);
    SentWithHookHeaders(g, origin, WithIndex(config, path), status, params, true, edge, cors);
    FilteredLower(edge);
    AppliedIsOverride(Filtered(edge), cors);
    MissAnswers(g, origin, config, Filtered(edge) + cors);
  }

  lemma RenderReply(g: RenderGateway, request: RenderRequest, origin: string, config: Edge.EdgeConfig, cors: HeaderMap, edge: HeaderMap,
                    status: nat, params: Json)
    requires LowerNames(cors)
    ensures var headers := Filtered(edge) + cors;
      Terminal(g, request, origin, config, cors, edge, RenderTarget(status, params))
        == match FirstSent(g, origin, WithIndex(config, ResolveRequestTarget(config, request.path)), status, Some(params), false, headers)
          case Err(e) => Err(e)
          case Ok(Some(response)) => Ok(response)
          case Ok(None) => Ok(RenderResponse(404, cors, g.utf8("not found")))
  {
    var target := ResolveRequestTarget(config, request.path);
    StaticPathSent(g, origin, config, target, status, Some(params), cors, false);
    SentWithHookHeaders(g, origin, WithIndex(config, target), status, Some(params), false, edge, cors);
    PlainText(g, cors);
  }

  /** The chain as the first stopping hook ends it. */
  lemma HookEnds(g: RenderGateway, request: RenderRequest, origin: string, config: Edge.EdgeConfig, cors: HeaderMap,
                 hooks: seq<Edge.EdgeHookConfig>, edge: HeaderMap)
    requires LowerNames(cors) && request.verb.GET? && hooks != [] && StepOf(g, request, origin, hooks[0]).Stops?
    ensures var answer := g.call(hooks[0], HookRequest(g, request, origin));
      Chain(g, request, origin, config, cors, hooks, edge)
        == Ended(StoppedReply(g, request, origin, config, cors, edge, answer, NamesWell(answer)))
  {
    var answer := g.call(hooks[0], HookRequest(g, request, origin));
    FailureReply(cors);
    if answer.Answered? {
      PayloadEnds(g, request, origin, config, cors, edge, answer.status, answer.payload);
    }
    ChainAsks(g, request, origin, config, cors, hooks, edge, answer);
  }

  lemma FailureReply(cors: HeaderMap)
    requires LowerNames(cors)
    ensures Failure(GATEWAY_TIMEOUT, cors) == Ok(RenderResponse(504, cors, [])) && Failure(BAD_GATEWAY, cors) == Ok(RenderResponse(502, cors, []))
  {
    AppliedIsOverride(map[], cors);
    NothingBefore(cors);
  }

  /** A chain that its first hook ends, for a GET. */
  lemma ChainAsks(g: RenderGateway, request: RenderRequest, origin: string, config: Edge.EdgeConfig, cors: HeaderMap,
                  hooks: seq<Edge.EdgeHookConfig>, edge: HeaderMap, answer: HookAnswer)
    requires request.verb.GET? && hooks != [] && answer == g.call(hooks[0], HookRequest(g, request, origin))
    requires answer.Answered? ==> OutcomeOf(answer.status, answer.payload) != Some(Continue)
    ensures Chain(g, request, origin, config, cors, hooks, edge) == Ended(match answer
      case TimedOut => Failure(GATEWAY_TIMEOUT, cors)
      case CallFailed => Failure(BAD_GATEWAY, cors)
      case Answered(status, payload) =>
        var outcome := OutcomeOf(status, payload);
        if outcome.None? then Failure(BAD_GATEWAY, cors)
        else Terminal(g, request, origin, config, cors, edge + payload.headers, outcome.value))
  {
  }

  lemma PayloadEnds(g: RenderGateway, request: RenderRequest, origin: string, config: Edge.EdgeConfig, cors: HeaderMap, edge: HeaderMap,
                    status: nat, payload: EdgeHookPayload)
    requires LowerNames(cors) && (payload.body.Some? || payload.filePath.Some? || payload.params.Some?)
    ensures var outcome, answer := OutcomeOf(status, payload), Answered(status, payload);
      var reply := StoppedReply(g, request, origin, config, cors, edge, answer, NamesWell(answer));
      if outcome.None? then reply == Ok(RenderResponse(502, cors, []))
      else !outcome.value.Continue? && reply == Terminal(g, request, origin, config, cors, edge + payload.headers, outcome.value)
  {
    var all := edge + payload.headers;
    if payload.body.Some? {
      DirectReply(g, request, origin, config, cors, all, status, payload.body.value);
    } else if payload.filePath.Some? {
      MayNameExactly(payload.filePath.value);
      FileReply(g, request, origin, config, cors, all, status, payload.filePath.value, payload.params);
    } else {
      RenderReply(g, request, origin, config, cors, all, status, payload.params.value);
    }
  }

  ghost predicate NamesWell(answer: HookAnswer) {
    answer.Answered? && answer.payload.filePath.Some? && MayName(answer.payload.filePath.value)
  }

  lemma {:induction false} FirstStopEnds(g: RenderGateway, request: RenderRequest, origin: string, config: Edge.EdgeConfig, cors: HeaderMap,
                                         hooks: seq<Edge.EdgeHookConfig>, i: nat, edge: HeaderMap)
    requires LowerNames(cors) && request.verb.GET? && i < |hooks|
    requires AllPass(g, request, origin, hooks[..i]) && StepOf(g, request, origin, hooks[i]).Stops?
    ensures var answer := g.call(hooks[i], HookRequest(g, request, origin));
      Chain(g, request, origin, config, cors, hooks, edge)
        == Ended(StoppedReply(g, request, origin, config, cors, HeadersOf(g, request, origin, hooks[..i], edge), answer, NamesWell(answer)))
  {
    if i == 0 {
      assert hooks[..0] == [];
      HookEnds(g, request, origin, config, cors, hooks, edge);
    } else {
      var before := hooks[..i];
      AllPassFrom(g, request, origin, before);
      assert before[0] == hooks[0] && before[1..] == hooks[1..][..i - 1] && hooks[1..][i - 1] == hooks[i];
      ChainStep(g, request, origin, config, cors, hooks, edge);
      var step := StepOf(g, request, origin, hooks[0]);
      FirstStopEnds(g, request, origin, config, cors, hooks[1..], i - 1, edge + step.headers);
    }
  }

  /** The whole way of a GET for a served origin whose `i`-th hook is the first not to answer with headers alone. */
  lemma StoppedRequestAnswered(g: RenderGateway, request: RenderRequest, resolved: HostResolution.ResolvedHost, i: nat)
    requires HostResolution.Resolve(g.resolver, request.host) == Some(resolved) && request.verb.GET?
    requires resolved.originId in g.edgeConfigs && g.edgeConfigs[resolved.originId].Valid?
    requires i < |g.edgeConfigs[resolved.originId].config.edges|
    requires var hooks := g.edgeConfigs[resolved.originId].config.edges;
      AllPass(g, request, resolved.originId, hooks[..i]) && StepOf(g, request, resolved.originId, hooks[i]).Stops?
    ensures var origin, config := resolved.originId, g.edgeConfigs[resolved.originId].config;
      var answer := g.call(config.edges[i], HookRequest(g, request, origin));
      Handle(g, request) == StoppedReply(g, request, origin, config, CorsHeaders(g, origin, request),
                                         HeadersOf(g, request, origin, config.edges[..i], map[]), answer, NamesWell(answer))
  {
    var origin, config := resolved.originId, g.edgeConfigs[resolved.originId].config;
    CorsNamesAreLower(g, origin, request);
    FirstStopEnds(g, request, origin, config, CorsHeaders(g, origin, request), config.edges, i, map[]);
  }
}
