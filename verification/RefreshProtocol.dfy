/** The refresh of one origin as a state machine.

    A run is a sequence of events: steps of the refresh, faults, and arbitrary writes to the
    remote in between. The state keeps the whole history of the remote and of the activated
    generations, so that what a run reaches can be compared with what was there before. */
module RefreshProtocol {
  import opened Common
  import opened Freshness
  import opened LocalMirror
  import opened Edge
  import opened Templates
  import opened OriginRuntime

  /** The fixed surroundings of one origin. `listsEtags`: its listings carry an entity tag for every key. */
  datatype Site = Site(originId: string, barrier: Option<string>, engine: Engine, listsEtags: bool)

  /** What one activation published, and the span of remote history its listing was read from. */
  datatype Generation = Generation(
    mirror: Mirror,
    config: EdgeConfig,
    registry: Registry,
    index: OriginFreshnessIndex,
    from: nat,
    upto: nat)

  datatype Work = Work(
    previous: Option<OriginFreshnessIndex>,
    staged: Mirror,
    next: OriginFreshnessIndex,
    diff: OriginFreshnessDiff,
    from: nat,
    upto: nat)

  datatype Candidate = Candidate(work: Work, config: EdgeConfig, registry: Registry, number: nat)

  datatype Task =
    | Idle
    | Started(previous: Option<OriginFreshnessIndex>)
    | Copied(previous: Option<OriginFreshnessIndex>, staged: Mirror)
    | Listing(previous: Option<OriginFreshnessIndex>, staged: Mirror, from: nat)
    | Downloading(work: Work, todo: set<string>)
    | Staged(work: Work)
    | Ready(candidate: Candidate)
    | OldMoved(candidate: Candidate)
    | NewLive(candidate: Candidate)
    | Activated(candidate: Candidate)
    | EdgeSet(candidate: Candidate)
    | TemplatesSet(candidate: Candidate)
    | IndexSet(candidate: Candidate)
    | SnapshotSet(candidate: Candidate)
    | Failing(error: RefreshError)

  /** The generation each store was last written by; 0 before the first. */
  datatype Tags = Tags(mirror: nat, edge: nat, templates: nat, index: nat, runtime: nat)

  datatype OriginState = OriginState(
    hist: seq<Bucket>,
    live: Option<Mirror>,
    backup: Option<Mirror>,
    edge: Option<EdgeConfig>,
    templates: Option<Registry>,
    index: Option<OriginFreshnessIndex>,
    runtime: Option<OriginSnapshot>,
    task: Task,
    gens: seq<Generation>,
    tags: Tags)

  datatype Event =
    | RemoteWrite(bucket: Bucket)
    | Stage(staging: StagingEvent)
    | Swap(swap: SwapEvent)
    | Publish(publication: PublicationEvent)

  /** Everything before the swap; `Fault` is any failing operation there, the first rename included,
      with the error it ends in.
      `CopyMissed`: the look at the live mirror fails, which the code takes for an absent mirror. */
  datatype StagingEvent =
    | Begin
    | CopyLive
    | CopyMissed
    | ListBegin
    | ListEnd(summaries: seq<RemoteObjectSummary>, at: nat)
    | Get(key: string)
    | Prune
    | Prepare
    | Fault(error: RefreshError)

  /** `MoveNewFault`: the second rename fails, and the old mirror is moved back or that fails too.
      `CleanupFault`: the new mirror is live but the backup cannot be removed. */
  datatype SwapEvent =
    | MoveOld
    | MoveNew
    | CleanBackup
    | MoveNewFault(restored: bool)
    | CleanupFault

  datatype PublicationEvent =
    | SetEdge
    | SetTemplates
    | SetIndex
    | SetSnapshot(at: nat)
    | Purge(outcome: PurgeOutcome, at: nat)
    | Report

  /** The two faults after which the code's own bookkeeping no longer matches the disk. */
  predicate IsSwapBreak(e: Event) {
    e.Swap? && (e.swap.CleanupFault? || (e.swap.MoveNewFault? && !e.swap.restored))
  }

  function ValidateActivationBarrier(previous: Option<OriginFreshnessIndex>, next: OriginFreshnessIndex,
                                     diff: OriginFreshnessDiff, barrier: Option<string>): Result<(), RefreshError>
  {
    if barrier.None? || !diff.HasChanges() then Ok(())
    else
      var path := barrier.value;
      var previousHasBarrier := previous.Some? && path in previous.value.files;
      var barrierChanged := path in diff.added || path in diff.modified;
      if path !in next.files then Err(BarrierMissing)
      else if previousHasBarrier && !barrierChanged then Err(BarrierUnchanged)
      else Ok(())
  }

  /** The listing entry set and the remote at one instant say the same about `key`. */
  predicate SameAt(bucket: Bucket, key: string, files: Files) {
    && (key in files <==> key in bucket)
    && (key in files && key in bucket ==> Matches(files[key], Stored(bucket[key])))
  }

  ghost predicate Observed(hist: seq<Bucket>, from: nat, upto: nat, key: string, files: Files) {
    exists t :: from <= t < upto && t < |hist| && SameAt(hist[t], key, files)
  }

  /** A listing is not atomic: it reports each key as it was at some instant between its start and
      its end. When an activation barrier is configured it was looked at before any other key. */
  ghost predicate ListingSound(barrier: Option<string>, hist: seq<Bucket>, from: nat, upto: nat, files: Files) {
    exists first :: BarrierFirst(barrier, hist, from, upto, files, first)
  }

  ghost predicate BarrierFirst(barrier: Option<string>, hist: seq<Bucket>, from: nat, upto: nat, files: Files, first: nat) {
    && from <= first < upto && first < |hist|
    && (barrier.Some? ==> SameAt(hist[first], barrier.value, files))
    && forall k :: Observed(hist, first, upto, k, files)
  }

  predicate CarriesEtags(files: Files) {
    forall k :: k in files ==> files[k].etag.Some?
  }

  function SnapshotOf(site: Site, c: Candidate, now: nat): OriginSnapshot {
    var w := c.work;
    OriginSnapshot(
      site.originId, c.number,
      Activation(Some(now), Some(w.next.capturedAt), |w.next.files|, |w.diff.added|, |w.diff.modified|,
                 |w.diff.removed|, |w.diff.unmodified|, |w.diff.added| + |w.diff.modified|),
      None, NO_CDN, NO_DOMAIN)
  }

  function GenerationFrom(c: Candidate): Generation {
    Generation(c.work.staged, c.config, c.registry, c.work.next, c.work.from, c.work.upto)
  }

  function Failed(s: OriginState, error: RefreshError): OriginState {
    s.(task := Failing(error))
  }

  function AfterGet(s: OriginState, key: string): OriginState
    requires s.hist != [] && s.task.Downloading? && key in s.task.todo && key in s.task.work.next.files
  {
    var bucket, work := s.hist[|s.hist| - 1], s.task.work;
    if key !in bucket then Failed(s, DownloadFailed(key))
    else if ValidateDownloadedObject(key, work.next.files[key], bucket[key]).Err? then Failed(s, DownloadFailed(key))
    else s.(task := Downloading(work.(staged := work.staged[key := Stored(bucket[key])]), s.task.todo - {key}))
  }

  function ActiveRegistry(s: OriginState): Registry {
    if s.templates.Some? then s.templates.value else map[]
  }

  /** Barrier, edge config and templates of the staged mirror, in the source's order. */
  function Prepared(site: Site, active: Registry, work: Work, number: nat): Result<Candidate, RefreshError> {
    var barrier := ValidateActivationBarrier(work.previous, work.next, work.diff, site.barrier);
    if barrier.Err? then Err(barrier.error)
    else match LoadedConfig(site.engine, work.staged)
      case None => Err(ConfigRejected)
      case Some(config) =>
        match UpdatedRegistry(site.engine, active, work.staged, work.diff)
        case None => Err(TemplateRejected)
        case Some(registry) => Ok(Candidate(work, config, registry, number))
  }

  function AfterPrepare(site: Site, s: OriginState): OriginState
    requires s.task.Staged?
  {
    match Prepared(site, ActiveRegistry(s), s.task.work, GenerationOf(s.runtime) + 1)
    case Err(error) => Failed(s, error)
    case Ok(candidate) => s.(task := Ready(candidate))
  }

  function AfterMoveNew(s: OriginState, c: Candidate): OriginState {
    s.(live := Some(c.work.staged), task := NewLive(c), gens := s.gens + [GenerationFrom(c)],
       tags := s.tags.(mirror := |s.gens| + 1))
  }

  ghost function StagingStep(site: Site, s: OriginState, e: StagingEvent): Option<OriginState>
    requires s.hist != []
  {
    match e
    case Begin => if s.task.Idle? then Some(s.(task := Started(s.index))) else None
    case CopyLive =>
      if s.task.Started? then Some(s.(task := Copied(s.task.previous, if s.live.Some? then s.live.value else map[]))) else None
    case CopyMissed => if s.task.Started? then Some(s.(task := Copied(s.task.previous, map[]))) else None
    case ListBegin =>
      if s.task.Copied? then Some(s.(task := Listing(s.task.previous, s.task.staged, |s.hist| - 1))) else None
    case ListEnd(summaries, at) =>
      if !s.task.Listing? then None
      else (match BuiltIndex(site.originId, summaries, at)
            case Err(key) => Some(Failed(s, InvalidListing(key)))
            case Ok(next) =>
              if ListingSound(site.barrier, s.hist, s.task.from, |s.hist|, next.files) && (site.listsEtags ==> CarriesEtags(next.files)) then
                var diff := DiffOf(s.task.previous, next);
                Some(s.(task := Downloading(Work(s.task.previous, s.task.staged, next, diff, s.task.from, |s.hist|), diff.Changed())))
              else None)
    case Get(key) =>
      if s.task.Downloading? && key in s.task.todo && key in s.task.work.next.files then Some(AfterGet(s, key)) else None
    case Prune =>
      if s.task.Downloading? && s.task.todo == {} then
        Some(s.(task := Staged(s.task.work.(staged := Restrict(s.task.work.staged, s.task.work.next.files.Keys)))))
      else None
    case Prepare => if s.task.Staged? then Some(AfterPrepare(site, s)) else None
    case Fault(error) =>
      if s.task.Started? || s.task.Copied? || s.task.Listing? || s.task.Downloading? || s.task.Staged? || s.task.Ready?
      then Some(Failed(s, error)) else None
  }

  function SwapStep(s: OriginState, e: SwapEvent): Option<OriginState> {
    match e
    case MoveOld =>
      if s.task.Ready? && s.live.Some? then Some(s.(live := None, backup := s.live, task := OldMoved(s.task.candidate))) else None
    case MoveNew =>
      if s.task.OldMoved? || (s.task.Ready? && s.live.None?) then Some(AfterMoveNew(s, s.task.candidate)) else None
    case CleanBackup => if s.task.NewLive? then Some(s.(backup := None, task := Activated(s.task.candidate))) else None
    case MoveNewFault(restored) =>
      if s.task.Ready? && s.live.None? && restored then Some(Failed(s, ActivateFailed))
      else if s.task.OldMoved? then
        if restored then Some(Failed(s.(live := s.backup, backup := None), ActivateFailed)) else Some(Failed(s, RestoreFailed))
      else None
    case CleanupFault => if s.task.NewLive? then Some(Failed(s, BackupNotRemoved)) else None
  }

  function PublicationStep(site: Site, s: OriginState, e: PublicationEvent): Option<OriginState> {
    match e
    case SetEdge =>
      if s.task.Activated? then
        Some(s.(edge := Some(s.task.candidate.config), task := EdgeSet(s.task.candidate), tags := s.tags.(edge := |s.gens|)))
      else None
    case SetTemplates =>
      if s.task.EdgeSet? then
        Some(s.(templates := Some(s.task.candidate.registry), task := TemplatesSet(s.task.candidate), tags := s.tags.(templates := |s.gens|)))
      else None
    case SetIndex =>
      if s.task.TemplatesSet? then
        Some(s.(index := Some(s.task.candidate.work.next), task := IndexSet(s.task.candidate), tags := s.tags.(index := |s.gens|)))
      else None
    case SetSnapshot(at) =>
      if s.task.IndexSet? then
        Some(s.(runtime := Some(AfterSnapshot(s.runtime, SnapshotOf(site, s.task.candidate, at))),
                task := SnapshotSet(s.task.candidate), tags := s.tags.(runtime := |s.gens|)))
      else None
    case Purge(outcome, at) =>
      if s.task.SnapshotSet? && s.runtime.Some? && (outcome.NothingToPurge? || s.task.candidate.work.diff.HasChanges()) then
        Some(s.(runtime := Some(AfterPurge(s.runtime.value, outcome, at)), task := Idle))
      else None
    case Report =>
      if s.task.Failing? then Some(s.(runtime := Some(AfterError(s.runtime, site.originId, s.task.error)), task := Idle)) else None
  }

  /** One event; `None` when it cannot happen in this state. */
  ghost function Apply(site: Site, s: OriginState, e: Event): Option<OriginState>
    requires s.hist != []
  {
    match e
    case RemoteWrite(bucket) => Some(s.(hist := s.hist + [bucket]))
    case Stage(staging) => StagingStep(site, s, staging)
    case Swap(swap) => SwapStep(s, swap)
    case Publish(publication) => PublicationStep(site, s, publication)
  }

  lemma HistoryStays(site: Site, s: OriginState, e: Event)
    requires s.hist != [] && Apply(site, s, e).Some?
    ensures s.hist <= Apply(site, s, e).value.hist
  {
  }

  ghost function Exec(site: Site, s: OriginState, events: seq<Event>): (r: Option<OriginState>)
    requires s.hist != []
    ensures r.Some? ==> r.value.hist != []
    decreases |events|
  {
    if events == [] then Some(s)
    else match Exec(site, s, events[..|events| - 1])
      case None => None
      case Some(mid) =>
        var e := events[|events| - 1];
        if Apply(site, mid, e).None? then None else HistoryStays(site, mid, e); Apply(site, mid, e)
  }

  /** A fresh process: nothing published, though a mirror from an earlier process may lie on disk. */
  predicate Initial(s: OriginState) {
    && |s.hist| == 1
    && s.backup.None? && s.edge.None? && s.templates.None? && s.index.None? && s.runtime.None?
    && s.task.Idle? && s.gens == [] && s.tags == Tags(0, 0, 0, 0, 0)
  }

  /** No swap breaks half-way. */
  ghost predicate SwapsHold(events: seq<Event>) {
    forall i :: 0 <= i < |events| ==> !IsSwapBreak(events[i])
  }

  /** Nor does a refresh miss the mirror it starts from. */
  ghost predicate Quiet(events: seq<Event>) {
    SwapsHold(events) && forall i :: 0 <= i < |events| ==> events[i] != Stage(CopyMissed)
  }
}
