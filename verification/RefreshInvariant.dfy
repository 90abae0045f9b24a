/** What every state of every run of `RefreshProtocol` keeps. */
module RefreshInvariant {
  import opened Common
  import opened Freshness
  import opened LocalMirror
  import opened Edge
  import opened Templates
  import opened OriginRuntime
  import opened RefreshProtocol

  /** The object was stored from what the remote held under its key at some instant. */
  ghost predicate Sourced(hist: seq<Bucket>, key: string, obj: LocalObject) {
    exists t :: 0 <= t < |hist| && key in hist[t] && obj == Stored(hist[t][key])
  }

  /** The object was fetched after the listing ended and passed the check against its entry. */
  ghost predicate Fetched(hist: seq<Bucket>, upto: nat, key: string, entry: OriginFileState, obj: LocalObject) {
    exists t :: upto - 1 <= t < |hist| && 0 <= t && key in hist[t] && obj == Stored(hist[t][key]) && Matches(entry, obj)
  }

  ghost predicate ListingOk(site: Site, hist: seq<Bucket>, from: nat, upto: nat, files: Files) {
    && from < upto <= |hist|
    && ListingSound(site.barrier, hist, from, upto, files)
    && (site.listsEtags ==> CarriesEtags(files))
  }

  ghost predicate GenOk(site: Site, hist: seq<Bucket>, g: Generation) {
    && ListingOk(site, hist, g.from, g.upto, g.index.files)
    && Agrees(g.index.files, g.mirror)
    && (forall k :: k in g.mirror ==> Sourced(hist, k, g.mirror[k]))
    && FullRegistry(site.engine, g.mirror) == Some(g.registry)
    && LoadedConfig(site.engine, g.mirror) == Some(g.config)
  }

  ghost predicate GensOk(site: Site, hist: seq<Bucket>, gens: seq<Generation>) {
    forall i {:trigger GenOk(site, hist, gens[i])} :: 0 <= i < |gens| ==> GenOk(site, hist, gens[i])
  }

  function IndexBefore(gens: seq<Generation>): Option<OriginFreshnessIndex> {
    if gens == [] then None else Some(gens[|gens| - 1].index)
  }

  function MirrorBefore(gens: seq<Generation>): Mirror {
    if gens == [] then map[] else gens[|gens| - 1].mirror
  }

  /** Work begun from the objects of `base`: of the unmodified keys it holds what `base` does, and
      the changed ones not left `todo` were fetched. */
  ghost predicate BegunFrom(site: Site, hist: seq<Bucket>, previous: Option<OriginFreshnessIndex>, base: Mirror, w: Work, todo: set<string>) {
    && w.previous == previous
    && w.diff == DiffOf(w.previous, w.next)
    && ListingOk(site, hist, w.from, w.upto, w.next.files)
    && (forall k :: k in w.diff.unmodified ==> (k in w.staged <==> k in base) && (k in base ==> w.staged[k] == base[k]))
    && (forall k :: k in w.diff.Changed() && k !in todo ==> k in w.staged && Fetched(hist, w.upto, k, w.next.files[k], w.staged[k]))
  }

  ghost predicate WorkOk(site: Site, hist: seq<Bucket>, gens: seq<Generation>, w: Work, todo: set<string>) {
    && BegunFrom(site, hist, IndexBefore(gens), MirrorBefore(gens), w, todo)
    && w.diff.unmodified <= MirrorBefore(gens).Keys
  }

  ghost predicate StagedOk(site: Site, hist: seq<Bucket>, gens: seq<Generation>, w: Work) {
    && WorkOk(site, hist, gens, w, {})
    && w.staged.Keys == w.next.files.Keys
  }

  ghost predicate CandidateOk(site: Site, hist: seq<Bucket>, gens: seq<Generation>, c: Candidate) {
    && StagedOk(site, hist, gens, c.work)
    && ValidateActivationBarrier(c.work.previous, c.work.next, c.work.diff, site.barrier).Ok?
    && LoadedConfig(site.engine, c.work.staged) == Some(c.config)
    && FullRegistry(site.engine, c.work.staged) == Some(c.registry)
  }

  /** How many of the stores the publication in flight has written after the mirror. */
  function Published(task: Task): nat {
    match task
    case NewLive(_) => 0
    case Activated(_) => 0
    case EdgeSet(_) => 1
    case TemplatesSet(_) => 2
    case IndexSet(_) => 3
    case _ => 4
  }

  function TagsAt(n: nat, published: nat): Tags
    requires n >= 1 || published == 4
  {
    Tags(n, if published < 1 then n - 1 else n, if published < 2 then n - 1 else n,
         if published < 3 then n - 1 else n, if published < 4 then n - 1 else n)
  }

  /** Every store holds exactly what the generation it is tagged with published. */
  ghost predicate Held(s: OriginState) {
    && s.tags.mirror == |s.gens| && s.tags.edge <= |s.gens| && s.tags.templates <= |s.gens| && s.tags.index <= |s.gens|
    && s.edge == (if s.tags.edge == 0 then None else Some(s.gens[s.tags.edge - 1].config))
    && s.templates == (if s.tags.templates == 0 then None else Some(s.gens[s.tags.templates - 1].registry))
    && s.index == (if s.tags.index == 0 then None else Some(s.gens[s.tags.index - 1].index))
    && GenerationOf(s.runtime) == s.tags.runtime
    && (s.runtime.None? ==> s.tags.runtime == 0)
    && (s.gens != [] ==> (if s.task.OldMoved? then s.backup else s.live) == Some(MirrorBefore(s.gens)))
  }

  ghost predicate TaskOk(site: Site, s: OriginState) {
    match s.task
    case Idle => true
    case Started(previous) => previous == IndexBefore(s.gens)
    case Copied(previous, staged) => previous == IndexBefore(s.gens) && (s.gens != [] ==> staged == MirrorBefore(s.gens))
    case Listing(previous, staged, from) =>
      previous == IndexBefore(s.gens) && from < |s.hist| && (s.gens != [] ==> staged == MirrorBefore(s.gens))
    case Downloading(w, todo) => todo <= w.diff.Changed() && WorkOk(site, s.hist, s.gens, w, todo)
    case Staged(w) => StagedOk(site, s.hist, s.gens, w)
    case Ready(c) => CandidateOk(site, s.hist, s.gens, c)
    case OldMoved(c) => CandidateOk(site, s.hist, s.gens, c)
    case _ => true
  }

  /** After the swap the last generation is the one being published. */
  ghost predicate InFlight(s: OriginState) {
    s.task.NewLive? || s.task.Activated? || s.task.EdgeSet? || s.task.TemplatesSet? || s.task.IndexSet? || s.task.SnapshotSet? ==>
      s.gens != [] && s.gens[|s.gens| - 1] == GenerationFrom(s.task.candidate) && s.task.candidate.number == |s.gens|
  }

  ghost predicate StoresOk(s: OriginState) {
    && (Published(s.task) < 4 ==> s.gens != [])
    && s.tags == TagsAt(|s.gens|, Published(s.task))
    && Held(s)
    && (s.task.SnapshotSet? ==> s.runtime.Some?)
  }

  /** What keeps the generations in order, whatever the mirrors contain. */
  ghost predicate OrderOk(s: OriginState) {
    && s.hist != []
    && StoresOk(s)
    && InFlight(s)
    && (s.task.Ready? || s.task.OldMoved? ==> s.task.candidate.number == |s.gens| + 1)
    && (s.task.OldMoved? ==> s.live.None? && s.backup.Some?)
  }

  ghost predicate Inv(site: Site, s: OriginState) {
    && OrderOk(s)
    && GensOk(site, s.hist, s.gens)
    && TaskOk(site, s)
  }

  // ----- a longer history keeps what was true of a shorter one

  lemma GrownListing(barrier: Option<string>, hist: seq<Bucket>, b: Bucket, from: nat, upto: nat, files: Files)
    requires ListingSound(barrier, hist, from, upto, files)
    ensures ListingSound(barrier, hist + [b], from, upto, files)
  {
    var grown := hist + [b];
    var first: nat :| BarrierFirst(barrier, hist, from, upto, files, first);
    forall k ensures Observed(grown, first, upto, k, files) {
      assert Observed(hist, first, upto, k, files);
      var t :| first <= t < upto && t < |hist| && SameAt(hist[t], k, files);
      assert SameAt(grown[t], k, files);
    }
    assert grown[first] == hist[first];
    assert BarrierFirst(barrier, grown, from, upto, files, first);
  }

  lemma GrownSourced(hist: seq<Bucket>, b: Bucket, key: string, obj: LocalObject)
    requires Sourced(hist, key, obj)
    ensures Sourced(hist + [b], key, obj)
  {
    var t :| 0 <= t < |hist| && key in hist[t] && obj == Stored(hist[t][key]);
    assert (hist + [b])[t] == hist[t];
  }

  lemma GrownFetched(hist: seq<Bucket>, b: Bucket, upto: nat, key: string, entry: OriginFileState, obj: LocalObject)
    requires Fetched(hist, upto, key, entry, obj)
    ensures Fetched(hist + [b], upto, key, entry, obj)
  {
    var t :| upto - 1 <= t < |hist| && 0 <= t && key in hist[t] && obj == Stored(hist[t][key]) && Matches(entry, obj);
    assert (hist + [b])[t] == hist[t];
  }

  lemma FetchedIsSourced(hist: seq<Bucket>, upto: nat, key: string, entry: OriginFileState, obj: LocalObject)
    requires Fetched(hist, upto, key, entry, obj)
    ensures Sourced(hist, key, obj) && Matches(entry, obj)
  {
  }

  lemma GrownGens(site: Site, hist: seq<Bucket>, b: Bucket, gens: seq<Generation>)
    requires GensOk(site, hist, gens)
    ensures GensOk(site, hist + [b], gens)
  {
    forall i | 0 <= i < |gens| ensures GenOk(site, hist + [b], gens[i]) {
      var g := gens[i];
      assert GenOk(site, hist, g);
      GrownListing(site.barrier, hist, b, g.from, g.upto, g.index.files);
      forall k | k in g.mirror ensures Sourced(hist + [b], k, g.mirror[k]) {
        GrownSourced(hist, b, k, g.mirror[k]);
      }
    }
  }

  lemma GrownWork(site: Site, hist: seq<Bucket>, b: Bucket, previous: Option<OriginFreshnessIndex>, base: Mirror, w: Work, todo: set<string>)
    requires BegunFrom(site, hist, previous, base, w, todo)
    ensures BegunFrom(site, hist + [b], previous, base, w, todo)
  {
    GrownListing(site.barrier, hist, b, w.from, w.upto, w.next.files);
    forall k | k in w.diff.Changed() && k !in todo ensures Fetched(hist + [b], w.upto, k, w.next.files[k], w.staged[k]) {
      GrownFetched(hist, b, w.upto, k, w.next.files[k], w.staged[k]);
    }
  }

  lemma RemoteWriteKeeps(site: Site, s: OriginState, b: Bucket)
    requires Inv(site, s)
    ensures var after := s.(hist := s.hist + [b]); GensOk(site, after.hist, after.gens) && TaskOk(site, after)
  {
    var previous, base := IndexBefore(s.gens), MirrorBefore(s.gens);
    GrownGens(site, s.hist, b, s.gens);
    match s.task
    case Downloading(w, todo) => GrownWork(site, s.hist, b, previous, base, w, todo);
    case Staged(w) => GrownWork(site, s.hist, b, previous, base, w, {});
    case Ready(c) => GrownWork(site, s.hist, b, previous, base, c.work, {});
    case OldMoved(c) => GrownWork(site, s.hist, b, previous, base, c.work, {});
    case _ =>
  }

  // ----- each step of the refresh keeps the invariant

  /** The previous index, if any, describes the active mirror exactly. */
  lemma PreviousAgrees(site: Site, hist: seq<Bucket>, gens: seq<Generation>)
    requires GensOk(site, hist, gens)
    ensures Agrees(KnownFiles(IndexBefore(gens)), MirrorBefore(gens))
    ensures forall k :: k in MirrorBefore(gens) ==> Sourced(hist, k, MirrorBefore(gens)[k])
  {
    if gens != [] {
      assert GenOk(site, hist, gens[|gens| - 1]);
    }
  }

  lemma PreviousRegistry(site: Site, hist: seq<Bucket>, gens: seq<Generation>)
    requires GensOk(site, hist, gens)
    ensures FullRegistry(site.engine, MirrorBefore(gens)) == Some(if gens == [] then map[] else gens[|gens| - 1].registry)
  {
    if gens != [] {
      assert GenOk(site, hist, gens[|gens| - 1]);
    } else {
      assert Pages(Judge(site.engine, map[]), {}) == map[];
    }
  }

  lemma ListEndBegins(site: Site, hist: seq<Bucket>, previous: Option<OriginFreshnessIndex>, staged: Mirror, next: OriginFreshnessIndex, from: nat)
    requires ListingOk(site, hist, from, |hist|, next.files)
    ensures var diff := DiffOf(previous, next); BegunFrom(site, hist, previous, staged, Work(previous, staged, next, diff, from, |hist|), diff.Changed())
  {
  }

  lemma ListEndKeeps(site: Site, hist: seq<Bucket>, gens: seq<Generation>, staged: Mirror, next: OriginFreshnessIndex, from: nat)
    requires GensOk(site, hist, gens) && (gens != [] ==> staged == MirrorBefore(gens))
    requires ListingOk(site, hist, from, |hist|, next.files)
    ensures var diff := DiffOf(IndexBefore(gens), next);
      WorkOk(site, hist, gens, Work(IndexBefore(gens), staged, next, diff, from, |hist|), diff.Changed())
  {
    PreviousAgrees(site, hist, gens);
    ListEndBegins(site, hist, IndexBefore(gens), staged, next, from);
    var known := KnownFiles(IndexBefore(gens));
    forall k | k in known ensures k in MirrorBefore(gens) {
      assert k in known.Keys;
    }
  }

  lemma GetKeeps(site: Site, hist: seq<Bucket>, previous: Option<OriginFreshnessIndex>, base: Mirror, w: Work, todo: set<string>, key: string, obj: RemoteObject)
    requires BegunFrom(site, hist, previous, base, w, todo) && hist != []
    requires key in w.diff.Changed() && key in w.next.files
    requires key in hist[|hist| - 1] && obj == hist[|hist| - 1][key] && Matches(w.next.files[key], Stored(obj))
    ensures BegunFrom(site, hist, previous, base, w.(staged := w.staged[key := Stored(obj)]), todo - {key})
  {
    var staged := w.staged[key := Stored(obj)];
    assert Fetched(hist, w.upto, key, w.next.files[key], staged[key]) by {
      var last := |hist| - 1;
      assert w.upto - 1 <= last < |hist| && key in hist[last] && staged[key] == Stored(hist[last][key]);
    }
    assert key !in w.diff.unmodified;
  }

  /** What the prune leaves: every changed key fetched, every unmodified one that `base` had, no other. */
  lemma PruneKeeps(site: Site, hist: seq<Bucket>, previous: Option<OriginFreshnessIndex>, base: Mirror, w: Work)
    requires BegunFrom(site, hist, previous, base, w, {})
    ensures var pruned := w.(staged := Restrict(w.staged, w.next.files.Keys));
      BegunFrom(site, hist, previous, base, pruned, {}) && pruned.staged.Keys == w.diff.Changed() + (w.diff.unmodified * base.Keys)
  {
    var staged := Restrict(w.staged, w.next.files.Keys);
    forall k ensures k in staged <==> k in w.diff.Changed() || (k in w.diff.unmodified && k in base) {
      assert k in w.next.files <==> k in w.diff.Changed() || k in w.diff.unmodified;
    }
  }

  lemma NothingMissing(site: Site, hist: seq<Bucket>, gens: seq<Generation>, w: Work)
    requires WorkOk(site, hist, gens, w, {}) && w.staged.Keys == w.diff.Changed() + (w.diff.unmodified * MirrorBefore(gens).Keys)
    ensures w.staged.Keys == w.next.files.Keys
  {
    forall k ensures k in w.next.files.Keys <==> k in w.diff.Changed() || k in w.diff.unmodified {}
  }

  lemma CarriedByDiff(known: Files, before: Mirror, next: OriginFreshnessIndex, staged: Mirror, diff: OriginFreshnessDiff)
    requires diff == DiffAmong(known, next.files, next.files.Keys, known.Keys)
    requires before.Keys == known.Keys && staged.Keys == next.files.Keys
    requires forall k :: k in diff.unmodified ==> k in staged && k in before && staged[k] == before[k]
    ensures Carries(before, staged, diff)
  {
    forall k | k in known ensures k in diff.unmodified || k in diff.modified || k in diff.removed {}
    forall k | k in next.files ensures k in diff.unmodified || k in diff.Changed() {}
  }

  lemma StagedAgrees(site: Site, hist: seq<Bucket>, gens: seq<Generation>, w: Work)
    requires GensOk(site, hist, gens) && StagedOk(site, hist, gens, w)
    ensures Agrees(w.next.files, w.staged)
    ensures forall k :: k in w.staged ==> Sourced(hist, k, w.staged[k])
  {
    PreviousAgrees(site, hist, gens);
    forall k | k in w.next.files ensures k in w.staged && Sourced(hist, k, w.staged[k]) && Matches(w.next.files[k], w.staged[k]) {
      assert k in w.staged.Keys;
      if k in w.diff.Changed() {
        FetchedIsSourced(hist, w.upto, k, w.next.files[k], w.staged[k]);
      } else {
        SameStateMatchesSame(KnownFiles(w.previous)[k], w.next.files[k], w.staged[k]);
      }
    }
  }

  /** The incremental compile of the staged mirror is a full rebuild of it, in success and in failure. */
  lemma StagedCompileIsFull(site: Site, hist: seq<Bucket>, gens: seq<Generation>, w: Work)
    requires GensOk(site, hist, gens) && StagedOk(site, hist, gens, w)
    ensures var active := if gens == [] then map[] else gens[|gens| - 1].registry;
      UpdatedRegistry(site.engine, active, w.staged, w.diff) == FullRegistry(site.engine, w.staged)
  {
    var active: Registry := if gens == [] then map[] else gens[|gens| - 1].registry;
    PreviousAgrees(site, hist, gens);
    PreviousRegistry(site, hist, gens);
    CarriedByDiff(KnownFiles(w.previous), MirrorBefore(gens), w.next, w.staged, w.diff);
    IncrementalIsFullRebuild(site.engine, MirrorBefore(gens), active, w.staged, w.diff);
  }

  /** Before the swap only the task moves. */
  lemma TaskMoves(s: OriginState, task: Task)
    requires StoresOk(s) && Published(s.task) == 4 && !s.task.OldMoved?
    requires Published(task) == 4 && !task.OldMoved? && !task.SnapshotSet?
    ensures StoresOk(s.(task := task))
  {
  }

  lemma PreparedMeaning(site: Site, active: Registry, w: Work, number: nat)
    ensures var r := Prepared(site, active, w, number);
      r.Ok? ==>
        && r.value.work == w && r.value.number == number
        && ValidateActivationBarrier(w.previous, w.next, w.diff, site.barrier).Ok?
        && LoadedConfig(site.engine, w.staged) == Some(r.value.config)
        && UpdatedRegistry(site.engine, active, w.staged, w.diff) == Some(r.value.registry)
  {
  }

  lemma CandidateFromParts(site: Site, hist: seq<Bucket>, gens: seq<Generation>, c: Candidate, active: Registry)
    requires GensOk(site, hist, gens) && StagedOk(site, hist, gens, c.work)
    requires active == if gens == [] then map[] else gens[|gens| - 1].registry
    requires ValidateActivationBarrier(c.work.previous, c.work.next, c.work.diff, site.barrier).Ok?
    requires LoadedConfig(site.engine, c.work.staged) == Some(c.config)
    requires UpdatedRegistry(site.engine, active, c.work.staged, c.work.diff) == Some(c.registry)
    ensures CandidateOk(site, hist, gens, c)
  {
    StagedCompileIsFull(site, hist, gens, c.work);
  }

  lemma PreparedOk(site: Site, hist: seq<Bucket>, gens: seq<Generation>, w: Work, active: Registry, number: nat)
    requires GensOk(site, hist, gens) && StagedOk(site, hist, gens, w)
    requires active == if gens == [] then map[] else gens[|gens| - 1].registry
    ensures var r := Prepared(site, active, w, number);
      r.Ok? ==> CandidateOk(site, hist, gens, r.value) && r.value.number == number
  {
    PreparedMeaning(site, active, w, number);
    var r := Prepared(site, active, w, number);
    if r.Ok? {
      CandidateFromParts(site, hist, gens, r.value, active);
    }
  }

  lemma PrepareKeeps(site: Site, s: OriginState)
    requires Inv(site, s) && s.task.Staged?
    ensures TaskOk(site, AfterPrepare(site, s))
  {
    var number := GenerationOf(s.runtime) + 1;
    assert ActiveRegistry(s) == if s.gens == [] then map[] else s.gens[|s.gens| - 1].registry;
    PreparedOk(site, s.hist, s.gens, s.task.work, ActiveRegistry(s), number);
  }

  lemma NewGenerationOk(site: Site, hist: seq<Bucket>, gens: seq<Generation>, c: Candidate)
    requires GensOk(site, hist, gens) && CandidateOk(site, hist, gens, c)
    ensures GensOk(site, hist, gens + [GenerationFrom(c)])
  {
    StagedAgrees(site, hist, gens, c.work);
    assert GenOk(site, hist, GenerationFrom(c));
  }

  lemma MoveNewStores(s: OriginState, c: Candidate)
    requires StoresOk(s) && (s.task == OldMoved(c) || (s.task == Ready(c) && s.live.None?))
    ensures StoresOk(AfterMoveNew(s, c))
  {
    var after := AfterMoveNew(s, c);
    assert after.gens[..|s.gens|] == s.gens;
  }

  lemma StagingKeeps(site: Site, s: OriginState, e: StagingEvent)
    requires Inv(site, s) && !e.CopyMissed? && StagingStep(site, s, e).Some?
    ensures TaskOk(site, StagingStep(site, s, e).value)
  {
    if e.ListEnd? {
      var built := BuiltIndex(site.originId, e.summaries, e.at);
      if built.Ok? { ListEndKeeps(site, s.hist, s.gens, s.task.staged, built.value, s.task.from); }
    } else if e.Get? {
      GetStepKeeps(site, s, e.key);
    } else if e.Prune? {
      PruneStepKeeps(site, s);
    } else if e.Prepare? {
      PrepareKeeps(site, s);
    }
  }

  lemma GetStepKeeps(site: Site, s: OriginState, key: string)
    requires Inv(site, s) && s.task.Downloading? && key in s.task.todo && key in s.task.work.next.files
    ensures TaskOk(site, AfterGet(s, key))
  {
    if AfterGet(s, key).task.Downloading? {
      var bucket := s.hist[|s.hist| - 1];
      ValidatedMatches(key, s.task.work.next.files[key], bucket[key]);
      GetKeeps(site, s.hist, IndexBefore(s.gens), MirrorBefore(s.gens), s.task.work, s.task.todo, key, bucket[key]);
    }
  }

  lemma PruneStepKeeps(site: Site, s: OriginState)
    requires Inv(site, s) && s.task.Downloading? && s.task.todo == {}
    ensures StagedOk(site, s.hist, s.gens, s.task.work.(staged := Restrict(s.task.work.staged, s.task.work.next.files.Keys)))
  {
    PruneKeeps(site, s.hist, IndexBefore(s.gens), MirrorBefore(s.gens), s.task.work);
    NothingMissing(site, s.hist, s.gens, s.task.work.(staged := Restrict(s.task.work.staged, s.task.work.next.files.Keys)));
  }

  lemma StagingFrame(site: Site, s: OriginState, e: StagingEvent)
    requires s.hist != [] && StagingStep(site, s, e).Some?
    ensures var after := StagingStep(site, s, e).value;
      after == s.(task := after.task) && Published(s.task) == 4 && !s.task.OldMoved? && Published(after.task) == 4
      && !after.task.OldMoved? && !after.task.SnapshotSet? && (after.task.Ready? ==> after.task.candidate.number == GenerationOf(s.runtime) + 1)
  {
  }

  lemma SwapFrame(site: Site, s: OriginState, e: SwapEvent)
    requires Inv(site, s) && !IsSwapBreak(Swap(e)) && SwapStep(s, e).Some?
    ensures var after := SwapStep(s, e).value; GensOk(site, after.hist, after.gens) && TaskOk(site, after)
  {
    if e.MoveNew? {
      NewGenerationOk(site, s.hist, s.gens, s.task.candidate);
    }
  }

  lemma SwapStores(s: OriginState, e: SwapEvent)
    requires StoresOk(s) && SwapStep(s, e).Some? && !e.MoveNew? && !IsSwapBreak(Swap(e))
    requires s.task.OldMoved? ==> s.live.None? && s.backup.Some?
    ensures StoresOk(SwapStep(s, e).value)
  {
  }

  lemma EdgeStep(site: Site, s: OriginState)
    requires StoresOk(s) && InFlight(s) && PublicationStep(site, s, SetEdge).Some?
    ensures StoresOk(PublicationStep(site, s, SetEdge).value)
  {
  }

  lemma TemplatesStep(site: Site, s: OriginState)
    requires StoresOk(s) && InFlight(s) && PublicationStep(site, s, SetTemplates).Some?
    ensures StoresOk(PublicationStep(site, s, SetTemplates).value)
  {
  }

  lemma IndexStep(site: Site, s: OriginState)
    requires StoresOk(s) && InFlight(s) && PublicationStep(site, s, SetIndex).Some?
    ensures StoresOk(PublicationStep(site, s, SetIndex).value)
  {
  }

  lemma RuntimeStep(site: Site, s: OriginState, e: PublicationEvent)
    requires StoresOk(s) && InFlight(s) && PublicationStep(site, s, e).Some?
    requires e.SetSnapshot? || e.Purge? || e.Report?
    ensures StoresOk(PublicationStep(site, s, e).value)
  {
    var before, after := s.runtime, PublicationStep(site, s, e).value.runtime;
    assert after.Some? && GenerationOf(after) == if e.SetSnapshot? then |s.gens| else GenerationOf(before);
  }

  lemma SwapOrder(s: OriginState, e: SwapEvent)
    requires OrderOk(s) && !IsSwapBreak(Swap(e)) && SwapStep(s, e).Some?
    ensures OrderOk(SwapStep(s, e).value)
  {
    if e.MoveNew? {
      MoveNewStores(s, s.task.candidate);
    } else {
      SwapStores(s, e);
    }
  }

  lemma PublicationOrderOk(site: Site, s: OriginState, e: PublicationEvent)
    requires OrderOk(s) && PublicationStep(site, s, e).Some?
    ensures OrderOk(PublicationStep(site, s, e).value)
  {
    if e.SetEdge? {
      EdgeStep(site, s);
    } else if e.SetTemplates? {
      TemplatesStep(site, s);
    } else if e.SetIndex? {
      IndexStep(site, s);
    } else {
      RuntimeStep(site, s, e);
    }
  }

  /** Every step but a broken swap keeps the generations in order, a missed copy included. */
  lemma OrderStep(site: Site, s: OriginState, e: Event)
    requires OrderOk(s) && !IsSwapBreak(e) && Apply(site, s, e).Some?
    ensures OrderOk(Apply(site, s, e).value)
  {
    match e
    case RemoteWrite(_) =>
    case Stage(staging) =>
      StagingFrame(site, s, staging);
      TaskMoves(s, StagingStep(site, s, staging).value.task);
    case Swap(swap) => SwapOrder(s, swap);
    case Publish(publication) => PublicationOrderOk(site, s, publication);
  }

  lemma {:induction false} RunKeepsOrder(site: Site, s0: OriginState, events: seq<Event>)
    requires Initial(s0) && SwapsHold(events) && Exec(site, s0, events).Some?
    ensures OrderOk(Exec(site, s0, events).value)
  {
    if events != [] {
      var init := events[..|events| - 1];
      assert forall i :: 0 <= i < |init| ==> init[i] == events[i];
      RunKeepsOrder(site, s0, init);
      OrderStep(site, Exec(site, s0, init).value, events[|events| - 1]);
    }
  }

  lemma PublicationFrame(site: Site, s: OriginState, e: PublicationEvent)
    requires s.hist != [] && PublicationStep(site, s, e).Some?
    ensures var after := PublicationStep(site, s, e).value; after.hist == s.hist && after.gens == s.gens && TaskOk(site, after)
  {
  }

  lemma StepKeeps(site: Site, s: OriginState, e: Event)
    requires Inv(site, s) && !IsSwapBreak(e) && e != Stage(CopyMissed) && Apply(site, s, e).Some?
    ensures Inv(site, Apply(site, s, e).value)
  {
    OrderStep(site, s, e);
    match e
    case RemoteWrite(bucket) => RemoteWriteKeeps(site, s, bucket);
    case Stage(staging) =>
      StagingKeeps(site, s, staging);
      StagingFrame(site, s, staging);
    case Swap(swap) => SwapFrame(site, s, swap);
    case Publish(publication) => PublicationFrame(site, s, publication);
  }

  lemma {:induction false} RunKeeps(site: Site, s0: OriginState, events: seq<Event>)
    requires Initial(s0) && Quiet(events) && Exec(site, s0, events).Some?
    ensures Inv(site, Exec(site, s0, events).value)
  {
    if events != [] {
      var init := events[..|events| - 1];
      assert forall i :: 0 <= i < |init| ==> init[i] == events[i];
      RunKeeps(site, s0, init);
      StepKeeps(site, Exec(site, s0, init).value, events[|events| - 1]);
    }
  }
}
