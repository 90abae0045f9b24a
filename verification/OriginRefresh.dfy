/** One refresh as the service runs it: stage on disk, check, swap, publish to the four stores, purge. */
module OriginRefresh {
  import opened Common
  import opened Text
  import opened Freshness
  import opened CdnRefresh
  import opened LocalMirror
  import opened Edge
  import opened Templates
  import Store = TemplateStore
  import opened FileTree
  import opened TreeCopy
  import opened MirrorLayout
  import opened MirrorRead
  import opened MirrorSync
  import opened MirrorPlaces
  import opened MirrorSwap
  import opened MirrorStaging
  import opened OriginRuntime
  import Protocol = RefreshProtocol
  import Locks = RefreshSystem

  // ----- the edge config of a staged mirror

  lemma ConfigKeyCanonical(dir: string, name: string)
    requires dir != "" && name != "" && '/' !in dir && '/' !in name
    requires dir != "." && dir != ".." && name != "." && name != ".." && dir != METADATA_DIR_NAME
    requires |dir| < |METADATA_DIR_NAME| && METADATA_DIR_NAME[|dir|] != '/' && dir[0] != '/'
    requires forall c :: c in dir + "/" + name ==> !IsControl(c) && !IsWhitespace(c)
    ensures Canonical(dir + "/" + name)
  {
    var key := dir + "/" + name;
    SplitPrefixed(dir, name, '/');
    SplitWithout(name, '/');
    assert Split(key, '/') == [dir, name];
    assert key[|dir|] == '/';
    assert key[0] == dir[0] && key[|key| - 1] == name[|name| - 1];
    assert key[0] in key && key[|key| - 1] in key;
    assert Trim(key) == key && TrimStartOf(key, '/') == key;
  }

  const CONFIG_DIRS := [".rendermesh", "_rendermesh"]
  const CONFIG_NAMES := ["edge.yaml", "edge.yml", "edge.json"]

  lemma ConfigDirOk(i: nat)
    requires i < 2
    ensures var dir := CONFIG_DIRS[i];
      && dir != "" && '/' !in dir && dir != "." && dir != ".." && dir != METADATA_DIR_NAME && dir[0] != '/'
      && |dir| < |METADATA_DIR_NAME| && METADATA_DIR_NAME[|dir|] != '/'
      && forall c :: c in dir ==> !IsControl(c) && !IsWhitespace(c)
  {
    var dir := CONFIG_DIRS[i];
    assert |dir| == 11 && |METADATA_DIR_NAME| == 16 && METADATA_DIR_NAME[11] == '-';
  }

  lemma ConfigNameOk(i: nat)
    requires i < 3
    ensures var name := CONFIG_NAMES[i];
      && name != "" && '/' !in name && name != "." && name != ".."
      && forall c :: c in name ==> !IsControl(c) && !IsWhitespace(c)
  {
    var name := CONFIG_NAMES[i];
    assert |name| >= 8;
  }

  lemma ConfigKeyParts(i: nat)
    requires i < 6
    ensures EDGE_CONFIG_KEYS[i] == CONFIG_DIRS[i / 3] + "/" + CONFIG_NAMES[i % 3]
  {
  }

  lemma ConfigKeysCanonical(i: nat)
    requires i < |EDGE_CONFIG_KEYS|
    ensures Canonical(EDGE_CONFIG_KEYS[i])
  {
    var dir, name := CONFIG_DIRS[i / 3], CONFIG_NAMES[i % 3];
    ConfigDirOk(i / 3);
    ConfigNameOk(i % 3);
    ConfigKeyParts(i);
    ConfigKeyCanonical(dir, name);
  }

  /** The candidates are read in order, up to the first that is present; `free` are the others that can be read. */
  ghost predicate ConfigReachable(free: set<string>, mirror: Mirror, candidates: seq<string>) {
    candidates == [] || candidates[0] in mirror || (candidates[0] in free && ConfigReachable(free, mirror, candidates[1..]))
  }

  ghost function ReadablePlaces(t: Tree, root: Path): set<string> {
    set c | c in EDGE_CONFIG_KEYS && Fits(t, root, c)
  }

  /** On a working disk the config is loaded exactly when the first candidate present parses, or none is
      there, and no candidate before it has a directory at its place or a file on the way. */
  method LoadOriginEdgeConfig(engine: Engine, fs: FileSystem, root: Path, hash: string -> Digest, ghost mirror: Mirror)
    returns (r: Result<EdgeConfig, RefreshError>)
    requires Holds(fs.tree, root, hash, mirror)
    modifies fs`schedule
    ensures r.Ok? ==> LoadedConfig(engine, mirror) == Some(r.value)
    ensures old(fs.schedule) == [] ==>
      && fs.schedule == []
      && (r.Ok? <==> ConfigReachable(ReadablePlaces(fs.tree, root), mirror, EDGE_CONFIG_KEYS) && LoadedConfig(engine, mirror).Some?)
  {
    ghost var free := ReadablePlaces(fs.tree, root);
    for i := 0 to |EDGE_CONFIG_KEYS|
      invariant fs.tree == old(fs.tree) && (old(fs.schedule) == [] ==> fs.schedule == [])
      invariant LoadedConfig(engine, mirror) == ConfigAmong(engine, mirror, EDGE_CONFIG_KEYS[i..])
      invariant old(fs.schedule) == [] ==>
        (ConfigReachable(free, mirror, EDGE_CONFIG_KEYS) <==> ConfigReachable(free, mirror, EDGE_CONFIG_KEYS[i..]))
    {
      ConfigKeysCanonical(i);
      assert EDGE_CONFIG_KEYS[i..][1..] == EDGE_CONFIG_KEYS[i + 1..];
      assert EDGE_CONFIG_KEYS[i] in EDGE_CONFIG_KEYS;
      var obj := ReadObject(fs, root, hash, EDGE_CONFIG_KEYS[i], mirror);
      if obj.Err? {
        return Err(obj.error);
      }
      if obj.value.Some? {
        var config := ParsedConfig(engine, obj.value.value.body);
        return if config.Some? then Ok(config.value) else Err(ConfigRejected);
      }
    }
    return Ok(DEFAULT_EDGE_CONFIG);
  }

  // ----- staging and its checks

  datatype PreparedRefresh = PreparedRefresh(sync: StagedSync, config: EdgeConfig, registry: Registry)

  const NOT_PREPARED := PreparedRefresh(
    StagedSync(OriginFreshnessIndex("", 0, map[]), OriginFreshnessDiff({}, {}, {}, {}), 0), DEFAULT_EDGE_CONFIG, map[])

  /** The fixed surroundings of an origin on this service. */
  datatype OriginSetup = OriginSetup(originId: string, barrier: Option<string>, engine: Engine, hash: string -> Digest)

  function SiteOf(setup: OriginSetup): Protocol.Site {
    Protocol.Site(setup.originId, setup.barrier, setup.engine, false)
  }

  function WorkOf(previous: Option<OriginFreshnessIndex>, sync: StagedSync, staged: Mirror): Protocol.Work {
    Protocol.Work(previous, staged, sync.index, sync.diff, 0, 0)
  }

  /** Barrier, config and templates accept the staged mirror, in the protocol's own terms. */
  ghost predicate Accepted(setup: OriginSetup, active: Registry, previous: Option<OriginFreshnessIndex>, staged: Mirror, p: PreparedRefresh, number: nat) {
    var work := WorkOf(previous, p.sync, staged);
    Protocol.Prepared(SiteOf(setup), active, work, number) == Ok(Protocol.Candidate(work, p.config, p.registry, number))
  }

  /** On a working disk a staged mirror passes exactly when the config candidates can be read and the
      protocol's checks pass. */
  method CheckStaged(setup: OriginSetup, fs: FileSystem, templates: Store.TemplateStore, staging: Path, previous: Option<OriginFreshnessIndex>,
                     sync: StagedSync, ghost staged: Mirror, ghost number: nat)
    returns (r: Result<PreparedRefresh, RefreshError>)
    requires Holds(fs.tree, staging, setup.hash, staged) && CanonicalKeys(sync.diff.Changed())
    modifies fs`schedule
    ensures r.Ok? ==> r.value.sync == sync && Accepted(setup, templates.Active(setup.originId), previous, staged, r.value, number)
    ensures old(fs.schedule) == [] && sync.diff.Changed() <= staged.Keys ==>
      && (r.Ok? ==> fs.schedule == [])
      && (r.Ok? <==> ConfigReachable(ReadablePlaces(fs.tree, staging), staged, EDGE_CONFIG_KEYS)
                     && Protocol.Prepared(SiteOf(setup), templates.Active(setup.originId), WorkOf(previous, sync, staged), number).Ok?)
  {
    var barrier := Protocol.ValidateActivationBarrier(previous, sync.index, sync.diff, setup.barrier);
    if barrier.Err? {
      return Err(barrier.error);
    }
    var config := LoadOriginEdgeConfig(setup.engine, fs, staging, setup.hash, staged);
    if config.Err? {
      return Err(config.error);
    }
    var registry := templates.CompileTemplateUpdate(setup.engine, setup.originId, fs, staging, setup.hash, sync.diff, staged);
    if registry.Err? {
      return Err(registry.error);
    }
    return Ok(PreparedRefresh(sync, config.value, registry.value));
  }

  lemma BesideKeeps(t: Tree, u: Tree, staging: Path, other: Path)
    requires SameBeside(t, u, staging) && Apart(staging, other)
    ensures Subtree(u, other) == Subtree(t, other) && (other in u <==> other in t) && (other in t ==> u[other] == t[other])
  {
    forall r ensures (other + r in u <==> other + r in t) && (other + r in u ==> u[other + r] == t[other + r]) {
      ApartBelow(staging, other, r);
      assert other <= other + r;
    }
    assert other + [] == other;
    SameContents(t, other, u, other);
  }

  lemma SyncKeysCanonical(originId: string, remote: Remote, previous: Option<OriginFreshnessIndex>, at: nat, sync: StagedSync)
    requires ListsCanonicalKeys(remote) && StagedFromRemote(originId, remote, previous, at, sync)
    ensures CanonicalKeys(sync.diff.Changed())
  {
    ListedKeysCanonical(remote, at);
    DiffCovers(previous, sync.index);
  }

  // ----- whether a refresh succeeds, told before it starts

  ghost function FreePlaces(t: Tree, changed: set<string>, staged: Mirror): set<string> {
    set c | c in EDGE_CONFIG_KEYS && PlaceFree(t, changed, staged, c)
  }

  lemma ReadableAreFree(t: Tree, u: Tree, staging: Path, hash: string -> Digest, staged: Mirror, changed: set<string>)
    requires WellFormed(u) && IsDir(u, staging) && Holds(u, staging, hash, staged) && DirsMade(t, u, staging, changed)
    ensures ReadablePlaces(u, staging) == FreePlaces(t, changed, staged)
  {
    forall c | c in EDGE_CONFIG_KEYS ensures Fits(u, staging, c) <==> PlaceFree(t, changed, staged, c) {
      var i :| 0 <= i < |EDGE_CONFIG_KEYS| && EDGE_CONFIG_KEYS[i] == c;
      ConfigKeysCanonical(i);
      FitsExactly(t, u, staging, hash, staged, changed, c);
    }
  }

  /** The listing can be staged over the live contents `t`, the config candidates can be read back, and
      barrier, config and templates accept what is staged. */
  ghost predicate CanRefresh(setup: OriginSetup, t: Tree, active: Registry, remote: Remote, previous: Option<OriginFreshnessIndex>, at: nat,
                             live: Mirror, number: nat)
  {
    && CanStage(t, [], setup.originId, remote, previous, at)
    && Passes(setup, t, active, previous, SyncOf(setup.originId, remote, previous, at),
              StagedMirror(live, remote, SyncOf(setup.originId, remote, previous, at)), number)
  }

  ghost predicate Passes(setup: OriginSetup, t: Tree, active: Registry, previous: Option<OriginFreshnessIndex>, sync: StagedSync, staged: Mirror, number: nat) {
    && ConfigReachable(FreePlaces(t, sync.diff.Changed(), staged), staged, EDGE_CONFIG_KEYS)
    && Protocol.Prepared(SiteOf(setup), active, WorkOf(previous, sync, staged), number).Ok?
  }

  lemma ChangedAreStaged(originId: string, remote: Remote, previous: Option<OriginFreshnessIndex>, at: nat, sync: StagedSync, base: Mirror)
    requires StagedFromRemote(originId, remote, previous, at, sync)
    ensures sync.diff.Changed() <= StagedMirror(base, remote, sync).Keys
  {
    FetchedKeys(remote, sync.index.files, sync.diff.Changed());
    DiffCovers(previous, sync.index);
  }

  /** Stages and checks; a refresh refused here has touched nothing but its own staging directory. */
  method StageAndCheck(setup: OriginSetup, fs: FileSystem, templates: Store.TemplateStore, origin: Path, staging: Path, remote: Remote,
                       previous: Option<OriginFreshnessIndex>, at: nat, ghost live: Mirror, ghost number: nat)
    returns (r: Result<PreparedRefresh, RefreshError>, ghost base: Mirror)
    requires WellFormed(fs.tree) && staging != [] && Apart(staging, origin) && MirrorOnDisk(fs.tree, origin, setup.hash, live)
    requires InjectiveOn(setup.hash, live.Keys + ListedKeys(remote)) && ListsCanonicalKeys(remote)
    modifies fs
    ensures WellFormed(fs.tree) && SameBeside(old(fs.tree), fs.tree, staging)
    ensures base == live || (base == map[] && old(fs.schedule) != [])
    ensures r.Ok? ==> Mirrored(fs.tree, staging, setup, remote, previous, at, r.value.sync, base)
    ensures r.Ok? ==> Accepted(setup, templates.Active(setup.originId), previous, StagedMirror(base, remote, r.value.sync), r.value, number)
    ensures r.Ok? && MetadataShaped(LiveTree(old(fs.tree), origin), []) ==> MetadataShaped(fs.tree, staging)
    ensures old(fs.schedule) == [] && Undisturbed(old(fs.tree), origin, staging, setup.originId, remote, previous, at) ==>
      && (r.Ok? <==> CanRefresh(setup, LiveTree(old(fs.tree), origin), templates.Active(setup.originId), remote, previous, at, live, number))
      && (r.Ok? ==> fs.schedule == [])
  {
    ghost var t := fs.tree;
    var staged;
    staged, base := StageOriginSync(fs, origin, staging, setup.hash, setup.originId, remote, previous, at, live);
    if staged.Err? {
      return Err(staged.error), base;
    }
    ghost var u, mirror := fs.tree, StagedMirror(base, remote, staged.value);
    SyncKeysCanonical(setup.originId, remote, previous, at, staged.value);
    ChangedAreStaged(setup.originId, remote, previous, at, staged.value, base);
    if old(fs.schedule) == [] {
      ReadableAreFree(LiveTree(t, origin), u, staging, setup.hash, mirror, staged.value.diff.Changed());
    }
    r := CheckOrDiscard(setup, fs, templates, origin, staging, previous, staged.value, mirror, number);
    BesideTransitive(t, u, fs.tree, staging, staging);
  }

  method CheckOrDiscard(setup: OriginSetup, fs: FileSystem, templates: Store.TemplateStore, origin: Path, staging: Path,
                        previous: Option<OriginFreshnessIndex>, sync: StagedSync, ghost staged: Mirror, ghost number: nat)
    returns (r: Result<PreparedRefresh, RefreshError>)
    requires WellFormed(fs.tree) && staging != [] && Apart(staging, origin)
    requires Holds(fs.tree, staging, setup.hash, staged) && CanonicalKeys(sync.diff.Changed()) && sync.diff.Changed() <= staged.Keys
    modifies fs
    ensures WellFormed(fs.tree) && SameBeside(old(fs.tree), fs.tree, staging) && (r.Ok? ==> fs.tree == old(fs.tree))
    ensures r.Ok? ==> r.value.sync == sync && Accepted(setup, templates.Active(setup.originId), previous, staged, r.value, number)
    ensures old(fs.schedule) == [] ==>
      && (r.Ok? ==> fs.schedule == [])
      && (r.Ok? <==> ConfigReachable(ReadablePlaces(old(fs.tree), staging), staged, EDGE_CONFIG_KEYS)
                     && Protocol.Prepared(SiteOf(setup), templates.Active(setup.originId), WorkOf(previous, sync, staged), number).Ok?)
  {
    SameBesideItself(fs.tree, staging);
    r := CheckStaged(setup, fs, templates, staging, previous, sync, staged, number);
    if r.Err? {
      var discarded := ClearDir(fs, staging, origin);
    }
  }

  class FreshnessIndexes {
    var indexes: map<string, OriginFreshnessIndex>

    constructor ()
      ensures indexes == map[]
    {
      indexes := map[];
    }

    function Get(originId: string): Option<OriginFreshnessIndex>
      reads this
    {
      if originId in indexes then Some(indexes[originId]) else None
    }

    method Insert(originId: string, index: OriginFreshnessIndex)
      modifies this
      ensures indexes == old(indexes)[originId := index]
    {
      indexes := indexes[originId := index];
    }
  }

  datatype RefreshOutcome = UnknownOrigin | AlreadyRunning | Failed(error: RefreshError) | Refreshed(snapshot: OriginSnapshot)

  /** Where one refresh works; the stamp makes the temporary directories its own. */
  datatype Workplace = Workplace(origin: Path, staging: Path, backup: Path)

  ghost predicate Ready(t: Tree, w: Workplace) {
    && w.origin != [] && w.staging != [] && w.backup != [] && Parent(w.backup) == Parent(w.origin)
    && Apart(w.origin, w.staging) && Apart(w.origin, w.backup) && Apart(w.staging, w.backup) && w.backup !in t
  }

  /** `Undisturbed`, and no file is in the way of the mirror itself. */
  ghost predicate Clear(t: Tree, w: Workplace, originId: string, remote: Remote, previous: Option<OriginFreshnessIndex>, at: nat) {
    w.origin != [] && !Conflict(t, Parent(w.origin)) && Undisturbed(t, w.origin, w.staging, originId, remote, previous, at)
  }

  lemma ParentStaysFree(t: Tree, u: Tree, staging: Path, origin: Path)
    requires WellFormed(u) && SameBeside(t, u, staging) && IsDir(u, staging) && Apart(origin, staging)
    requires origin != [] && !Conflict(t, Parent(origin))
    ensures !Conflict(u, Parent(origin))
  {
    ConflictAt(u, Parent(origin));
    ConflictAt(t, Parent(origin));
    forall q | q in u && q <= Parent(origin) ensures u[q].Dir? {
      assert q <= origin && !(staging <= q);
      if q !in t { AncestorExists(u, staging, q); }
    }
  }

  /** Where the swap leaves the mirror: as it was, aside in the backup, or replaced by the staged one. */
  ghost predicate MirrorEnds(before: Tree, after: Tree, w: Workplace, setup: OriginSetup, remote: Remote, previous: Option<OriginFreshnessIndex>,
                             at: nat, base: Mirror, end: SwapEnd, p: PreparedRefresh)
  {
    match end
    case OldLive => (w.origin in after <==> w.origin in before) && Subtree(after, w.origin) == Subtree(before, w.origin)
    case OldInBackup =>
      && w.origin in before && w.origin !in after && IsDir(after, w.backup) && Subtree(after, w.backup) == Subtree(before, w.origin)
      && StagedFromRemote(setup.originId, remote, previous, at, p.sync)
    case NewLive =>
      && Mirrored(after, w.origin, setup, remote, previous, at, p.sync, base)
      && (MetadataShaped(LiveTree(before, w.origin), []) ==> MetadataShaped(LiveTree(after, w.origin), []))
  }

  /** What the disk work has done: the mirror it leaves and, once the swap has begun, what was accepted. */
  ghost predicate DiskDone(before: Tree, after: Tree, w: Workplace, setup: OriginSetup, remote: Remote, known: Known, at: nat,
                           base: Mirror, end: SwapEnd, p: PreparedRefresh)
  {
    && MirrorEnds(before, after, w, setup, remote, known.previous, at, base, end, p)
    && (!end.OldLive? ==> Accepted(setup, known.active, known.previous, StagedMirror(base, remote, p.sync), p, known.number))
  }

  /** What the stores say of an origin when its refresh begins, and the generation to come. */
  datatype Known = Known(previous: Option<OriginFreshnessIndex>, active: Registry, number: nat)

  /** Over clear ground a working disk succeeds exactly when the refresh can. */
  ghost predicate Foretold(before: Tree, w: Workplace, setup: OriginSetup, remote: Remote, known: Known, at: nat, live: Mirror, success: bool) {
    Clear(before, w, setup.originId, remote, known.previous, at) ==>
      (success <==> CanRefresh(setup, LiveTree(before, w.origin), known.active, remote, known.previous, at, live, known.number))
  }

  /** Everything a refresh does on disk: stage, check, swap. */
  method UpdateMirror(setup: OriginSetup, fs: FileSystem, templates: Store.TemplateStore, w: Workplace, remote: Remote,
                      previous: Option<OriginFreshnessIndex>, at: nat, ghost live: Mirror, ghost number: nat)
    returns (r: Result<PreparedRefresh, RefreshError>, ghost end: SwapEnd, ghost base: Mirror, ghost p: PreparedRefresh)
    requires WellFormed(fs.tree) && Ready(fs.tree, w) && MirrorOnDisk(fs.tree, w.origin, setup.hash, live)
    requires InjectiveOn(setup.hash, live.Keys + ListedKeys(remote)) && ListsCanonicalKeys(remote)
    modifies fs
    ensures WellFormed(fs.tree)
    ensures base == live || (base == map[] && old(fs.schedule) != [])
    ensures DiskDone(old(fs.tree), fs.tree, w, setup, remote, Known(previous, templates.Active(setup.originId), number), at, base, end, p)
    ensures Ends(r, end, p)
    ensures old(fs.schedule) == [] ==>
      Foretold(old(fs.tree), w, setup, remote, Known(previous, templates.Active(setup.originId), number), at, live, r.Ok?)
  {
    end, p := OldLive, NOT_PREPARED;
    ghost var t := fs.tree;
    r, base := StageAndCheck(setup, fs, templates, w.origin, w.staging, remote, previous, at, live, number);
    ghost var u := fs.tree;
    BesideKeeps(t, u, w.staging, w.origin);
    BesideKeeps(t, u, w.staging, w.backup);
    if r.Err? {
      return;
    }
    p := r.value;
    if !Conflict(t, Parent(w.origin)) {
      ParentStaysFree(t, u, w.staging, w.origin);
    }
    var activated;
    activated, end := ActivateStagedOrigin(fs, w.origin, w.staging, w.backup);
    if end.NewLive? {
      ActivatedMirror(t, u, fs.tree, w, setup, remote, previous, at, p.sync, base);
    }
    if activated.Err? {
      r := Err(activated.error);
    }
  }

  /** Success means the new mirror is live; each broken end has its own error. */
  predicate Ends(r: Result<PreparedRefresh, RefreshError>, end: SwapEnd, p: PreparedRefresh) {
    match end
    case OldLive => r.Err?
    case OldInBackup => r == Err(RestoreFailed)
    case NewLive => r == Ok(p) || r == Err(BackupNotRemoved)
  }

  // ----- the service

  /** The contents of the four stores. */
  datatype Stores = Stores(
    edge: map<string, EdgeConfigEntry>,
    templates: map<string, Registry>,
    indexes: map<string, OriginFreshnessIndex>,
    snapshots: map<string, OriginSnapshot>)
  {
    function Index(originId: string): Option<OriginFreshnessIndex> {
      if originId in indexes then Some(indexes[originId]) else None
    }

    function Registry(originId: string): Registry {
      if originId in templates then templates[originId] else map[]
    }

    function Snapshot(originId: string): Option<OriginSnapshot> {
      if originId in snapshots then Some(snapshots[originId]) else None
    }

    function KnownOf(originId: string): Known {
      Known(Index(originId), Registry(originId), GenerationOf(Snapshot(originId)) + 1)
    }
  }

  /** The CDN of an origin: what it is told to purge, and what it answers to that. */
  datatype CdnRefresher = CdnRefresher(strategy: CdnRefreshStrategy, urlPrefixes: seq<string>, purge: (nat, CdnRefreshMode) -> PurgeOutcome)

  /** `refresh_after_activation`: the CDN is asked for its plan, if there is a CDN and a plan. */
  function PurgedAs(cdn: Option<CdnRefresher>, generation: nat, diff: OriginFreshnessDiff): PurgeOutcome {
    if cdn.None? then NothingToPurge
    else match BuildCdnRefreshPlan(cdn.value.strategy, diff, cdn.value.urlPrefixes)
      case None => NothingToPurge
      case Some(plan) => cdn.value.purge(generation, plan.mode)
  }

  /** One origin's entry replaced in each store, and no other. */
  function PublishedWith(s: Stores, setup: OriginSetup, p: PreparedRefresh, answer: PurgeOutcome, at: nat): Stores {
    var id := setup.originId;
    Stores(s.edge[id := Valid(p.config)], s.templates[id := p.registry], s.indexes[id := p.sync.index],
           s.snapshots[id := AfterPurge(AfterSnapshot(s.Snapshot(id), SnapshotOf(setup, p, s.Snapshot(id), at)), answer, at)])
  }

  function Published(s: Stores, setup: OriginSetup, p: PreparedRefresh, cdn: Option<CdnRefresher>, at: nat): Stores {
    PublishedWith(s, setup, p, PurgedAs(cdn, GenerationOf(s.Snapshot(setup.originId)) + 1, p.sync.diff), at)
  }

  // ----- what the runtime snapshot shows after a refresh, field by field

  /** The CDN status after an answer: a submission replaces it, a failure leaves its message and, when
      some requests went through, a partial result; no answer leaves it as it was. */
  predicate Reflects(answer: PurgeOutcome, before: CdnStatus, after: CdnStatus, at: nat) {
    match answer
    case NothingToPurge => after == before
    case Submitted(provider, status, ids, items) => ShowsResult(after, provider, status, ids, items, at) && after.error.None?
    case PurgeFailed(provider, ids, items, message) =>
      && after.error == Some(message)
      && (ids != [] ==> ShowsResult(after, provider, "partial_failure", ids, items, at))
      && (ids == [] ==>
            && after.provider == before.provider && after.status == before.status && after.requestId == before.requestId
            && after.requestIds == before.requestIds && after.refreshedAt == before.refreshedAt && after.submittedItems == before.submittedItems)
  }

  predicate ShowsResult(cdn: CdnStatus, provider: string, status: string, ids: seq<string>, items: nat, at: nat) {
    && cdn.provider == Some(provider) && cdn.status == Some(status) && cdn.requestIds == ids
    && cdn.refreshedAt == Some(at) && cdn.submittedItems == Some(items)
    && (ids == [] ==> cdn.requestId.None?) && (ids != [] ==> cdn.requestId == Some(ids[0]))
  }

  /** With a CDN and changes there is a plan, and its answer shows; otherwise nothing was asked and nothing shows. */
  ghost predicate PurgeShown(cdn: Option<CdnRefresher>, generation: nat, diff: OriginFreshnessDiff, before: CdnStatus, after: CdnStatus, at: nat) {
    var plan := if cdn.Some? then BuildCdnRefreshPlan(cdn.value.strategy, diff, cdn.value.urlPrefixes) else None;
    && (plan.Some? <==> cdn.Some? && (diff.added != {} || diff.modified != {} || diff.removed != {}))
    && (plan.Some? ==> Reflects(cdn.value.purge(generation, plan.value.mode), before, after, at))
    && (plan.None? ==> after == before)
  }

  /** Generation, counts and times of this refresh, no error, the domain status kept. */
  ghost predicate ActivationShown(originId: string, at: nat, p: PreparedRefresh, before: Option<OriginSnapshot>, after: OriginSnapshot) {
    && after.originId == originId && after.lastError.None?
    && after.generation == (if before.Some? then before.value.generation else 0) + 1
    && after.activation.activatedAt == Some(at)
    && after.activation.capturedAt == Some(p.sync.index.capturedAt)
    && after.activation.knownFiles == |p.sync.index.files|
    && after.activation.addedFiles == |p.sync.diff.added|
    && after.activation.modifiedFiles == |p.sync.diff.modified|
    && after.activation.removedFiles == |p.sync.diff.removed|
    && after.activation.unmodifiedFiles == |p.sync.diff.unmodified|
    && after.activation.downloadedFiles == |p.sync.diff.added| + |p.sync.diff.modified|
    && after.domain == (if before.Some? then before.value.domain else DomainStatus(None, None, None, None, None, None, None, None))
  }

  /** And the CDN status as answered. */
  ghost predicate SnapshotShown(originId: string, cdn: Option<CdnRefresher>, at: nat, p: PreparedRefresh,
                                before: Option<OriginSnapshot>, after: Option<OriginSnapshot>)
  {
    && after.Some? && ActivationShown(originId, at, p, before, after.value)
    && PurgeShown(cdn, after.value.generation, p.sync.diff,
                  if before.Some? then before.value.cdn else CdnStatus(None, None, None, [], None, None, None), after.value.cdn, at)
  }

  /** Whatever the CDN answers, it changes nothing else of the snapshot. */
  lemma AnswerKeepsActivation(s: Stores, setup: OriginSetup, p: PreparedRefresh, answer: PurgeOutcome, at: nat)
    requires p.sync.downloaded == |p.sync.diff.added| + |p.sync.diff.modified|
    ensures ActivationShown(setup.originId, at, p, s.Snapshot(setup.originId), PublishedWith(s, setup, p, answer, at).snapshots[setup.originId])
  {
  }

  lemma HistoryKept(setup: OriginSetup, p: PreparedRefresh, previous: Option<OriginSnapshot>, at: nat)
    ensures var kept := AfterSnapshot(previous, SnapshotOf(setup, p, previous, at));
      && kept.cdn == (if previous.Some? then previous.value.cdn else CdnStatus(None, None, None, [], None, None, None))
      && kept.generation == GenerationOf(previous) + 1
  {
  }

  lemma PublishedIsShown(s: Stores, setup: OriginSetup, p: PreparedRefresh, cdn: Option<CdnRefresher>, at: nat)
    requires p.sync.downloaded == |p.sync.diff.added| + |p.sync.diff.modified|
    ensures SnapshotShown(setup.originId, cdn, at, p, s.Snapshot(setup.originId), Published(s, setup, p, cdn, at).Snapshot(setup.originId))
  {
    var previous := s.Snapshot(setup.originId);
    var generation, kept := GenerationOf(previous) + 1, AfterSnapshot(previous, SnapshotOf(setup, p, previous, at));
    var answer := PurgedAs(cdn, generation, p.sync.diff);
    AnswerKeepsActivation(s, setup, p, answer, at);
    HistoryKept(setup, p, previous, at);
    PurgedIsShown(cdn, generation, p.sync.diff, kept, at);
    assert Published(s, setup, p, cdn, at).Snapshot(setup.originId) == Some(AfterPurge(kept, answer, at));
  }

  lemma PurgedIsShown(cdn: Option<CdnRefresher>, generation: nat, diff: OriginFreshnessDiff, before: OriginSnapshot, at: nat)
    ensures var after := AfterPurge(before, PurgedAs(cdn, generation, diff), at);
      after == before.(cdn := after.cdn) && PurgeShown(cdn, generation, diff, before.cdn, after.cdn, at)
  {
    if cdn.Some? {
      NoPlanMeansNoChanges(cdn.value.strategy, diff, cdn.value.urlPrefixes);
    }
  }

  function WithError(s: Stores, originId: string, error: RefreshError): Stores {
    s.(snapshots := s.snapshots[originId := AfterError(s.Snapshot(originId), originId, error)])
  }

  /** What the refresh of a known origin that nobody else refreshes has done by the time it returns. */
  ghost predicate Completed(setup: OriginSetup, remote: Remote, cdn: Option<CdnRefresher>, w: Workplace, at: nat, before: Tree, s: Stores,
                            after: Tree, s': Stores, outcome: RefreshOutcome, end: SwapEnd, base: Mirror, p: PreparedRefresh)
  {
    && DiskDone(before, after, w, setup, remote, s.KnownOf(setup.originId), at, base, end, p)
    && (match outcome
        case Refreshed(snapshot) =>
          end.NewLive? && s' == Published(s, setup, p, cdn, at) && snapshot == SnapshotOf(setup, p, s.Snapshot(setup.originId), at)
        case Failed(error) =>
          && s' == WithError(s, setup.originId, error)
          && (end.NewLive? ==> error == BackupNotRemoved) && (end.OldInBackup? ==> error == RestoreFailed)
        case _ => false)
  }

  lemma CompletedIsShown(setup: OriginSetup, remote: Remote, cdn: Option<CdnRefresher>, w: Workplace, at: nat, before: Tree, s: Stores,
                         after: Tree, s': Stores, outcome: RefreshOutcome, end: SwapEnd, base: Mirror, p: PreparedRefresh)
    requires Completed(setup, remote, cdn, w, at, before, s, after, s', outcome, end, base, p) && outcome.Refreshed?
    ensures SnapshotShown(setup.originId, cdn, at, p, s.Snapshot(setup.originId), s'.Snapshot(setup.originId))
  {
    PublishedIsShown(s, setup, p, cdn, at);
  }

  class OriginRefreshService {
    const fs: FileSystem
    const edgeConfigs: EdgeConfigStore
    const templateStore: Store.TemplateStore
    const freshnessIndexes: FreshnessIndexes
    const originRuntime: OriginRuntimeStore
    const locks: Locks.OriginRefreshLocks

    constructor (fs: FileSystem, edgeConfigs: EdgeConfigStore, templateStore: Store.TemplateStore, freshnessIndexes: FreshnessIndexes,
                 originRuntime: OriginRuntimeStore, locks: Locks.OriginRefreshLocks)
      ensures this.fs == fs && this.edgeConfigs == edgeConfigs && this.templateStore == templateStore
      ensures this.freshnessIndexes == freshnessIndexes && this.originRuntime == originRuntime && this.locks == locks
    {
      this.fs := fs;
      this.edgeConfigs := edgeConfigs;
      this.templateStore := templateStore;
      this.freshnessIndexes := freshnessIndexes;
      this.originRuntime := originRuntime;
      this.locks := locks;
    }

    function Contents(): Stores
      reads edgeConfigs, templateStore, freshnessIndexes, originRuntime
    {
      Stores(edgeConfigs.inner, templateStore.origins, freshnessIndexes.indexes, originRuntime.snapshots)
    }

    /** The four stores, one after the other. */
    method Publish(originId: string, p: PreparedRefresh, snapshot: OriginSnapshot)
      requires snapshot.originId == originId
      modifies edgeConfigs, templateStore, freshnessIndexes, originRuntime
      ensures edgeConfigs.inner == old(edgeConfigs.inner)[originId := Valid(p.config)]
      ensures templateStore.origins == old(templateStore.origins)[originId := p.registry]
      ensures freshnessIndexes.indexes == old(freshnessIndexes.indexes)[originId := p.sync.index]
      ensures originRuntime.snapshots == old(originRuntime.snapshots)[originId := AfterSnapshot(old(originRuntime.Get(originId)), snapshot)]
    {
      edgeConfigs.SetValid(originId, p.config);
      templateStore.SetOriginRegistry(originId, p.registry);
      freshnessIndexes.Insert(originId, p.sync.index);
      originRuntime.SetSnapshot(snapshot);
    }

    /** The purge and what the runtime snapshot remembers of it. */
    method RecordPurge(originId: string, outcome: PurgeOutcome, at: nat)
      requires originId in originRuntime.snapshots
      modifies originRuntime
      ensures originRuntime.snapshots == old(originRuntime.snapshots)[originId := AfterPurge(old(originRuntime.snapshots)[originId], outcome, at)]
    {
      match outcome {
        case NothingToPurge =>
          assert originRuntime.snapshots == originRuntime.snapshots[originId := originRuntime.snapshots[originId]];
        case Submitted(provider, status, ids, items) =>
          originRuntime.SetCdnResult(originId, provider, status, ids, items, at);
        case PurgeFailed(provider, ids, items, message) =>
          if ids != [] {
            originRuntime.SetCdnResult(originId, provider, "partial_failure", ids, items, at);
          }
          originRuntime.SetCdnError(originId, message);
      }
    }

    method PublishAnswered(setup: OriginSetup, p: PreparedRefresh, answer: PurgeOutcome, at: nat) returns (snapshot: OriginSnapshot)
      modifies edgeConfigs, templateStore, freshnessIndexes, originRuntime
      ensures snapshot == SnapshotOf(setup, p, old(originRuntime.Get(setup.originId)), at)
      ensures Contents() == PublishedWith(old(Contents()), setup, p, answer, at)
    {
      snapshot := SnapshotOf(setup, p, originRuntime.Get(setup.originId), at);
      Publish(setup.originId, p, snapshot);
      RecordPurge(setup.originId, answer, at);
    }

    method PublishRefresh(setup: OriginSetup, p: PreparedRefresh, cdn: Option<CdnRefresher>, at: nat) returns (snapshot: OriginSnapshot)
      modifies edgeConfigs, templateStore, freshnessIndexes, originRuntime
      ensures snapshot == SnapshotOf(setup, p, old(originRuntime.Get(setup.originId)), at)
      ensures Contents() == Published(old(Contents()), setup, p, cdn, at)
    {
      var answer := PurgedAs(cdn, GenerationOf(originRuntime.Get(setup.originId)) + 1, p.sync.diff);
      assert Contents().Snapshot(setup.originId) == originRuntime.Get(setup.originId);
      assert Published(Contents(), setup, p, cdn, at) == PublishedWith(Contents(), setup, p, answer, at);
      snapshot := PublishAnswered(setup, p, answer, at);
    }

    /** One refresh of one origin. An error leaves the four stores as they were, and the mirror too
        unless the swap broke half-way; success leaves on disk, and publishes, exactly what the
        protocol prepares from the staged mirror. A working disk succeeds exactly when `CanRefresh`. */
    method RefreshOriginSnapshot(setup: OriginSetup, remote: Remote, cdn: Option<CdnRefresher>, w: Workplace, at: nat, ghost live: Mirror, ghost s: Stores)
      returns (r: Result<OriginSnapshot, RefreshError>, ghost end: SwapEnd, ghost base: Mirror, ghost p: PreparedRefresh)
      requires WellFormed(fs.tree) && Ready(fs.tree, w) && MirrorOnDisk(fs.tree, w.origin, setup.hash, live)
      requires s == Contents()
      requires InjectiveOn(setup.hash, live.Keys + ListedKeys(remote)) && ListsCanonicalKeys(remote)
      modifies fs, edgeConfigs, templateStore, freshnessIndexes, originRuntime
      ensures WellFormed(fs.tree)
      ensures base == live || (base == map[] && old(fs.schedule) != [])
      ensures DiskDone(old(fs.tree), fs.tree, w, setup, remote, s.KnownOf(setup.originId), at, base, end, p)
      ensures r.Ok? ==> end.NewLive? && r.value == SnapshotOf(setup, p, s.Snapshot(setup.originId), at)
      ensures r.Err? && end.NewLive? ==> r.error == BackupNotRemoved
      ensures r.Err? && end.OldInBackup? ==> r.error == RestoreFailed
      ensures Contents() == if r.Ok? then Published(s, setup, p, cdn, at) else s
      ensures old(fs.schedule) == [] ==>
        Foretold(old(fs.tree), w, setup, remote, s.KnownOf(setup.originId), at, live, r.Ok?)
    {
      var previous := freshnessIndexes.Get(setup.originId);
      var number := GenerationOf(originRuntime.Get(setup.originId)) + 1;
      assert s.KnownOf(setup.originId) == Known(previous, templateStore.Active(setup.originId), number);
      var prepared;
      prepared, end, base, p := UpdateMirror(setup, fs, templateStore, w, remote, previous, at, live, number);
      assert Contents() == s;
      if prepared.Ok? {
        var snapshot := PublishRefresh(setup, prepared.value, cdn, at);
        r := Ok(snapshot);
      } else {
        r := Err(prepared.error);
      }
    }

    /** The refresh of an origin whose lock is held, with a failure recorded as its last error. */
    method RefreshLocked(setup: OriginSetup, remote: Remote, cdn: Option<CdnRefresher>, w: Workplace, at: nat, ghost live: Mirror, ghost s: Stores)
      returns (outcome: RefreshOutcome, ghost end: SwapEnd, ghost base: Mirror, ghost p: PreparedRefresh)
      requires WellFormed(fs.tree) && Ready(fs.tree, w) && MirrorOnDisk(fs.tree, w.origin, setup.hash, live)
      requires s == Contents()
      requires InjectiveOn(setup.hash, live.Keys + ListedKeys(remote)) && ListsCanonicalKeys(remote)
      modifies fs, edgeConfigs, templateStore, freshnessIndexes, originRuntime
      ensures WellFormed(fs.tree)
      ensures base == live || (base == map[] && old(fs.schedule) != [])
      ensures Completed(setup, remote, cdn, w, at, old(fs.tree), s, fs.tree, Contents(), outcome, end, base, p)
      ensures old(fs.schedule) == [] ==>
        Foretold(old(fs.tree), w, setup, remote, s.KnownOf(setup.originId), at, live, outcome.Refreshed?)
    {
      var result;
      result, end, base, p := RefreshOriginSnapshot(setup, remote, cdn, w, at, live, s);
      if result.Ok? {
        outcome := Refreshed(result.value);
      } else {
        originRuntime.SetError(setup.originId, result.error);
        outcome := Failed(result.error);
      }
    }

    /** Refuses an unknown origin and one already being refreshed, without effect; otherwise refreshes
        under the lock and gives it back. A failure is recorded in the runtime snapshot and nowhere else. */
    method RefreshOrigin(setups: map<string, OriginSetup>, originId: string, remote: Remote, cdn: Option<CdnRefresher>, w: Workplace, at: nat, ghost live: Mirror)
      returns (outcome: RefreshOutcome, ghost end: SwapEnd, ghost base: Mirror, ghost p: PreparedRefresh)
      requires WellFormed(fs.tree) && ListsCanonicalKeys(remote)
      requires originId in setups ==>
        && setups[originId].originId == originId && InjectiveOn(setups[originId].hash, live.Keys + ListedKeys(remote))
        && Ready(fs.tree, w) && MirrorOnDisk(fs.tree, w.origin, setups[originId].hash, live)
      modifies fs, edgeConfigs, templateStore, freshnessIndexes, originRuntime, locks
      ensures WellFormed(fs.tree) && locks.active == old(locks.active)
      ensures outcome == UnknownOrigin <==> originId !in setups
      ensures outcome == AlreadyRunning <==> originId in setups && originId in old(locks.active)
      ensures outcome.UnknownOrigin? || outcome.AlreadyRunning? ==> unchanged(fs) && Contents() == old(Contents())
      ensures base == live || (base == map[] && old(fs.schedule) != [])
      ensures outcome.Failed? || outcome.Refreshed? ==>
        Completed(setups[originId], remote, cdn, w, at, old(fs.tree), old(Contents()), fs.tree, Contents(), outcome, end, base, p)
      ensures (outcome.Failed? || outcome.Refreshed?) && old(fs.schedule) == [] ==>
        Foretold(old(fs.tree), w, setups[originId], remote, old(Contents()).KnownOf(originId), at, live, outcome.Refreshed?)
    {
      end, base, p := OldLive, live, NOT_PREPARED;
      if originId !in setups {
        return UnknownOrigin, end, base, p;
      }
      var guard := locks.TryAcquire(originId);
      if guard.None? {
        return AlreadyRunning, end, base, p;
      }
      outcome, end, base, p := RefreshLocked(setups[originId], remote, cdn, w, at, live, Contents());
      locks.Drop(guard.value);
    }
  }

  function SnapshotOf(setup: OriginSetup, p: PreparedRefresh, previous: Option<OriginSnapshot>, at: nat): OriginSnapshot {
    var d := p.sync.diff;
    OriginSnapshot(
      setup.originId, GenerationOf(previous) + 1,
      Activation(Some(at), Some(p.sync.index.capturedAt), |p.sync.index.files|, |d.added|, |d.modified|, |d.removed|, |d.unmodified|, p.sync.downloaded),
      None, NO_CDN, NO_DOMAIN)
  }

  /** The mirror on disk is the staged one of this listing; with every unmodified key held before, exactly it. */
  ghost predicate Mirrored(t: Tree, origin: Path, setup: OriginSetup, remote: Remote, previous: Option<OriginFreshnessIndex>, at: nat,
                           sync: StagedSync, base: Mirror)
  {
    && IsDir(t, origin) && StagedFromRemote(setup.originId, remote, previous, at, sync)
    && Holds(t, origin, setup.hash, StagedMirror(base, remote, sync))
    && (sync.diff.unmodified <= base.Keys ==> Image(t, origin, setup.hash, StagedMirror(base, remote, sync)))
  }

  lemma ActivatedMirror(before: Tree, u: Tree, t: Tree, w: Workplace, setup: OriginSetup, remote: Remote, previous: Option<OriginFreshnessIndex>,
                        at: nat, sync: StagedSync, base: Mirror)
    requires IsDir(t, w.origin) && Subtree(t, w.origin) == Subtree(u, w.staging)
    requires Mirrored(u, w.staging, setup, remote, previous, at, sync, base)
    requires MetadataShaped(LiveTree(before, w.origin), []) ==> MetadataShaped(u, w.staging)
    ensures Mirrored(t, w.origin, setup, remote, previous, at, sync, base)
    ensures MetadataShaped(LiveTree(before, w.origin), []) ==> MetadataShaped(LiveTree(t, w.origin), [])
  {
    HoldsMoves(u, w.staging, t, w.origin, setup.hash, StagedMirror(base, remote, sync));
    if sync.diff.unmodified <= base.Keys {
      ImageMoves(u, w.staging, t, w.origin, setup.hash, StagedMirror(base, remote, sync));
    }
    if MetadataShaped(u, w.staging) {
      ShapeBelow(u, w.staging);
    }
  }
}
