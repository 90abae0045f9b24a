/** Edge configuration: the values, where an origin keeps them, and the published store. */
module Edge {
  import opened Common
  import opened LocalMirror

  datatype EdgeDefaults = EdgeDefaults(rootObject: string, autoRewriteIndex: bool)

  datatype MissingAction = NotFound | Serve | Redirect

  datatype MissingConfig = MissingConfig(
    action: MissingAction,
    page: Option<string>,
    path: Option<string>,
    to: Option<string>,
    status: Option<nat>)

  datatype RedirectRule = RedirectRule(from: string, to: string, status: nat)

  datatype RewriteRule = RewriteRule(from: string, to: string)

  datatype EdgeHookConfig = EdgeHookConfig(name: string, url: string, timeoutMs: nat)

  datatype EdgeConfig = EdgeConfig(
    version: nat,
    edge: EdgeDefaults,
    missing: MissingConfig,
    redirects: seq<RedirectRule>,
    rewrites: seq<RewriteRule>,
    edges: seq<EdgeHookConfig>)

  const DEFAULT_EDGE_CONFIG := EdgeConfig(
    1,
    EdgeDefaults("/index.html", true),
    MissingConfig(NotFound, Some("/index.html"), None, None, None),
    [], [], [])

  /** UTF-8 decoding, YAML or JSON parsing and template compilation, deterministic in the bytes. */
  datatype Engine = Engine(
    decode: Bytes -> Option<string>,
    parseConfig: string -> Option<EdgeConfig>,
    compiles: string -> bool)

  const BARRIER_KEY := ".rendermesh/edge.yaml"

  const EDGE_CONFIG_KEYS := [
    BARRIER_KEY, ".rendermesh/edge.yml", ".rendermesh/edge.json",
    "_rendermesh/edge.yaml", "_rendermesh/edge.yml", "_rendermesh/edge.json"]

  function ParsedConfig(engine: Engine, body: Bytes): Option<EdgeConfig> {
    match engine.decode(body)
    case None => None
    case Some(content) => engine.parseConfig(content)
  }

  /** The first candidate present decides, even when it does not parse. */
  function ConfigAmong(engine: Engine, mirror: Mirror, candidates: seq<string>): Option<EdgeConfig> {
    if candidates == [] then Some(DEFAULT_EDGE_CONFIG)
    else if candidates[0] in mirror then ParsedConfig(engine, mirror[candidates[0]].body)
    else ConfigAmong(engine, mirror, candidates[1..])
  }

  function LoadedConfig(engine: Engine, mirror: Mirror): Option<EdgeConfig> {
    ConfigAmong(engine, mirror, EDGE_CONFIG_KEYS)
  }

  /** A mirror that holds the barrier file is accepted only if that very file parses. */
  lemma BarrierDecides(engine: Engine, mirror: Mirror)
    requires BARRIER_KEY in mirror
    ensures LoadedConfig(engine, mirror) == ParsedConfig(engine, mirror[BARRIER_KEY].body)
  {
    assert EDGE_CONFIG_KEYS[0] == BARRIER_KEY;
  }

  datatype EdgeConfigEntry = Valid(config: EdgeConfig) | Invalid(message: string)

  datatype EdgeConfigStoreError = Missing | InvalidConfig(message: string)

  class EdgeConfigStore {
    var inner: map<string, EdgeConfigEntry>

    constructor ()
      ensures inner == map[]
    {
      inner := map[];
    }

    function Get(originId: string): (r: Result<EdgeConfig, EdgeConfigStoreError>)
      reads this
      ensures r.Ok? <==> originId in inner && inner[originId].Valid?
      ensures r.Ok? ==> inner[originId] == Valid(r.value)
      ensures r == Err(Missing) <==> originId !in inner
    {
      if originId !in inner then Err(Missing)
      else match inner[originId]
        case Valid(config) => Ok(config)
        case Invalid(message) => Err(InvalidConfig(message))
    }

    method SetValid(originId: string, config: EdgeConfig)
      modifies this
      ensures inner == old(inner)[originId := Valid(config)]
    {
      inner := inner[originId := Valid(config)];
    }
  }

  /** The first of six files present is the configuration; with none of them the default is. */
  lemma SixPlaces(engine: Engine, mirror: Mirror)
    ensures LoadedConfig(engine, mirror) ==
      if ".rendermesh/edge.yaml" in mirror then ParsedConfig(engine, mirror[".rendermesh/edge.yaml"].body)
      else if ".rendermesh/edge.yml" in mirror then ParsedConfig(engine, mirror[".rendermesh/edge.yml"].body)
      else if ".rendermesh/edge.json" in mirror then ParsedConfig(engine, mirror[".rendermesh/edge.json"].body)
      else if "_rendermesh/edge.yaml" in mirror then ParsedConfig(engine, mirror["_rendermesh/edge.yaml"].body)
      else if "_rendermesh/edge.yml" in mirror then ParsedConfig(engine, mirror["_rendermesh/edge.yml"].body)
      else if "_rendermesh/edge.json" in mirror then ParsedConfig(engine, mirror["_rendermesh/edge.json"].body)
      else Some(DEFAULT_EDGE_CONFIG)
  {
    Unfold(engine, mirror, 0);
    Unfold(engine, mirror, 1);
    Unfold(engine, mirror, 2);
    Unfold(engine, mirror, 3);
    Unfold(engine, mirror, 4);
    Unfold(engine, mirror, 5);
  }

  lemma Unfold(engine: Engine, mirror: Mirror, i: nat)
    requires i < 6
    ensures ConfigAmong(engine, mirror, EDGE_CONFIG_KEYS[i..]) ==
      (if EDGE_CONFIG_KEYS[i] in mirror then ParsedConfig(engine, mirror[EDGE_CONFIG_KEYS[i]].body)
       else ConfigAmong(engine, mirror, EDGE_CONFIG_KEYS[i + 1..]))
    ensures EDGE_CONFIG_KEYS[0..] == EDGE_CONFIG_KEYS && EDGE_CONFIG_KEYS[6..] == []
  {
    assert EDGE_CONFIG_KEYS[i..][1..] == EDGE_CONFIG_KEYS[i + 1..];
  }

  /** A file is a configuration exactly when its bytes decode and the text parses. */
  lemma ParsedExactly(engine: Engine, body: Bytes, config: EdgeConfig)
    ensures ParsedConfig(engine, body) == Some(config) <==>
      exists content :: engine.decode(body) == Some(content) && engine.parseConfig(content) == Some(config)
  {
    if ParsedConfig(engine, body) == Some(config) {
      assert engine.decode(body) == Some(engine.decode(body).value);
    }
  }
}
