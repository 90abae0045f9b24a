/** What a refresh makes of a mirror that its index does not describe: after a look at the live mirror
    that failed, and after a swap that broke half-way. */
module RefreshFaults {
  import opened Common
  import opened Freshness
  import opened LocalMirror
  import opened Edge
  import opened Templates
  import opened OriginRuntime
  import opened RefreshProtocol
  import opened RefreshInvariant

  /** What staging makes of the live mirror: the changed keys fetched, the others copied, the rest pruned. */
  ghost predicate StagedFrom(live: Mirror, previous: Option<OriginFreshnessIndex>, next: OriginFreshnessIndex, staged: Mirror) {
    var diff := DiffOf(previous, next);
    && staged.Keys == diff.Changed() + (diff.unmodified * live.Keys)
    && (forall k :: k in diff.Changed() ==> Matches(next.files[k], staged[k]))
    && (forall k :: k in diff.unmodified && k in live ==> staged[k] == live[k])
  }

  /** A staged mirror agrees with its listing exactly when the mirror it began from agreed with the
      previous index on every key that the index let it skip. */
  lemma AgreementDependsOnSkippedKeys(live: Mirror, previous: Option<OriginFreshnessIndex>,
                                      next: OriginFreshnessIndex, staged: Mirror)
    requires StagedFrom(live, previous, next, staged)
    ensures Agrees(next.files, staged) <==>
      forall k :: k in DiffOf(previous, next).unmodified ==> k in live && Matches(KnownFiles(previous)[k], live[k])
  {
    var diff, known := DiffOf(previous, next), KnownFiles(previous);
    forall k | k in diff.unmodified ensures k in known && k in next.files && forall o :: Matches(known[k], o) <==> Matches(next.files[k], o) {
      forall o { SameStateMatchesSame(known[k], next.files[k], o); }
    }
    if Agrees(next.files, staged) {
      forall k | k in diff.unmodified ensures k in live && Matches(known[k], live[k]) {
        assert k in next.files.Keys && k in staged.Keys;
      }
    }
    if forall k :: k in diff.unmodified ==> k in live && Matches(known[k], live[k]) {
      forall k | k in next.files ensures k in staged && Matches(next.files[k], staged[k]) {
        assert k in diff.Changed() || k in diff.unmodified;
        assert k in diff.Changed() || k in diff.unmodified * live.Keys;
        assert k in staged.Keys;
      }
      forall k | k in staged ensures k in next.files { assert k in staged.Keys; }
    }
  }

  // ----- one refresh, from any state in which none is under way

  /** One refresh up to its activation, with remote writes and failing operations in between. */
  ghost predicate Activates(site: Site, before: OriginState, refresh: seq<Event>) {
    && before.hist != [] && before.task.Idle?
    && |refresh| > 0 && refresh[0] == Stage(Begin) && (forall i :: 1 <= i < |refresh| ==> refresh[i] != Stage(Begin))
    && refresh[|refresh| - 1] == Swap(MoveNew)
    && Exec(site, before, refresh).Some?
  }

  /** The objects a refresh begins from: those of the live mirror, unless it missed them. */
  ghost function BaseOf(before: OriginState, refresh: seq<Event>): Mirror {
    if Stage(CopyMissed) in refresh || before.live.None? then map[] else before.live.value
  }

  ghost predicate StagedWith(site: Site, hist: seq<Bucket>, previous: Option<OriginFreshnessIndex>, base: Mirror, w: Work) {
    BegunFrom(site, hist, previous, base, w, {}) && w.staged.Keys == w.diff.Changed() + (w.diff.unmodified * base.Keys)
  }

  ghost predicate AcceptedWith(site: Site, hist: seq<Bucket>, previous: Option<OriginFreshnessIndex>, active: Registry, base: Mirror, c: Candidate) {
    && StagedWith(site, hist, previous, base, c.work)
    && ValidateActivationBarrier(c.work.previous, c.work.next, c.work.diff, site.barrier).Ok?
    && LoadedConfig(site.engine, c.work.staged) == Some(c.config)
    && UpdatedRegistry(site.engine, active, c.work.staged, c.work.diff) == Some(c.registry)
  }

  ghost predicate UnderWay(site: Site, before: OriginState, base: Mirror, now: OriginState) {
    && now.hist != []
    && (match now.task
        case Started(previous) => previous == before.index && now.live == before.live && base == BaseOf(before, [])
        case Copied(previous, staged) => previous == before.index && staged == base
        case Listing(previous, staged, from) => previous == before.index && staged == base && from < |now.hist|
        case Downloading(w, todo) => todo <= w.diff.Changed() && BegunFrom(site, now.hist, before.index, base, w, todo)
        case Staged(w) => StagedWith(site, now.hist, before.index, base, w)
        case Ready(c) => AcceptedWith(site, now.hist, before.index, ActiveRegistry(before), base, c)
        case OldMoved(c) => AcceptedWith(site, now.hist, before.index, ActiveRegistry(before), base, c)
        case _ => true)
    && (Staging(now.task) ==> now.templates == before.templates)
  }

  predicate Staging(task: Task) {
    task.Started? || task.Copied? || task.Listing? || task.Downloading? || task.Staged?
  }

  lemma WriteUnderWay(site: Site, before: OriginState, base: Mirror, now: OriginState, b: Bucket)
    requires UnderWay(site, before, base, now)
    ensures UnderWay(site, before, base, now.(hist := now.hist + [b]))
  {
    match now.task
    case Downloading(w, todo) => GrownWork(site, now.hist, b, before.index, base, w, todo);
    case Staged(w) => GrownWork(site, now.hist, b, before.index, base, w, {});
    case Ready(c) => GrownWork(site, now.hist, b, before.index, base, c.work, {});
    case OldMoved(c) => GrownWork(site, now.hist, b, before.index, base, c.work, {});
    case _ =>
  }

  lemma GetUnderWay(site: Site, before: OriginState, base: Mirror, now: OriginState, key: string)
    requires UnderWay(site, before, base, now) && now.task.Downloading? && key in now.task.todo && key in now.task.work.next.files
    ensures UnderWay(site, before, base, AfterGet(now, key))
  {
    if AfterGet(now, key).task.Downloading? {
      var bucket := now.hist[|now.hist| - 1];
      ValidatedMatches(key, now.task.work.next.files[key], bucket[key]);
      GetKeeps(site, now.hist, before.index, base, now.task.work, now.task.todo, key, bucket[key]);
    }
  }

  lemma PrepareUnderWay(site: Site, before: OriginState, base: Mirror, now: OriginState)
    requires UnderWay(site, before, base, now) && now.task.Staged?
    ensures UnderWay(site, before, base, AfterPrepare(site, now))
  {
    PreparedMeaning(site, ActiveRegistry(now), now.task.work, GenerationOf(now.runtime) + 1);
  }

  lemma StageUnderWay(site: Site, before: OriginState, base: Mirror, now: OriginState, e: StagingEvent)
    requires UnderWay(site, before, base, now) && !e.Begin? && StagingStep(site, now, e).Some?
    ensures UnderWay(site, before, if e.CopyMissed? then map[] else base, StagingStep(site, now, e).value)
  {
    if e.ListEnd? {
      var built := BuiltIndex(site.originId, e.summaries, e.at);
      if built.Ok? { ListEndBegins(site, now.hist, before.index, base, built.value, now.task.from); }
    } else if e.Get? {
      GetUnderWay(site, before, base, now, e.key);
    } else if e.Prune? {
      PruneKeeps(site, now.hist, before.index, base, now.task.work);
    } else if e.Prepare? {
      PrepareUnderWay(site, before, base, now);
    }
  }

  lemma StepUnderWay(site: Site, before: OriginState, base: Mirror, now: OriginState, e: Event)
    requires UnderWay(site, before, base, now) && e != Stage(Begin) && Apply(site, now, e).Some?
    ensures UnderWay(site, before, if e == Stage(CopyMissed) then map[] else base, Apply(site, now, e).value)
  {
    match e
    case RemoteWrite(bucket) => WriteUnderWay(site, before, base, now, bucket);
    case Stage(staging) => StageUnderWay(site, before, base, now, staging);
    case Swap(swap) => SwapUnderWay(site, before, base, now, swap);
    case Publish(publication) => PublicationUnderWay(site, before, base, now, publication);
  }

  lemma SwapUnderWay(site: Site, before: OriginState, base: Mirror, now: OriginState, e: SwapEvent)
    requires UnderWay(site, before, base, now) && SwapStep(now, e).Some?
    ensures UnderWay(site, before, base, SwapStep(now, e).value)
  {
  }

  lemma PublicationUnderWay(site: Site, before: OriginState, base: Mirror, now: OriginState, e: PublicationEvent)
    requires UnderWay(site, before, base, now) && PublicationStep(site, now, e).Some?
    ensures UnderWay(site, before, base, PublicationStep(site, now, e).value)
  {
  }

  lemma {:induction false} RefreshUnderWay(site: Site, before: OriginState, refresh: seq<Event>)
    requires before.hist != [] && before.task.Idle? && Exec(site, before, refresh).Some?
    requires |refresh| > 0 && refresh[0] == Stage(Begin) && (forall i :: 1 <= i < |refresh| ==> refresh[i] != Stage(Begin))
    ensures UnderWay(site, before, BaseOf(before, refresh), Exec(site, before, refresh).value)
  {
    var init, last := refresh[..|refresh| - 1], refresh[|refresh| - 1];
    assert refresh == init + [last];
    if |refresh| == 1 {
      assert Exec(site, before, init) == Some(before);
      assert refresh == [Stage(Begin)];
    } else {
      assert forall i :: 0 <= i < |init| ==> init[i] == refresh[i];
      RefreshUnderWay(site, before, init);
      StepUnderWay(site, before, BaseOf(before, init), Exec(site, before, init).value, last);
      assert Stage(CopyMissed) in refresh <==> Stage(CopyMissed) in init || last == Stage(CopyMissed);
    }
  }

  /** The generation that a refresh activates. */
  lemma ActivatedCandidate(site: Site, before: OriginState, refresh: seq<Event>) returns (c: Candidate)
    requires Activates(site, before, refresh)
    ensures var s := Exec(site, before, refresh).value;
      && s.gens != [] && s.gens[|s.gens| - 1] == GenerationFrom(c)
      && AcceptedWith(site, s.hist, before.index, ActiveRegistry(before), BaseOf(before, refresh), c)
  {
    var init := refresh[..|refresh| - 1];
    assert refresh == init + [Swap(MoveNew)];
    assert refresh[0] == Stage(Begin) && |refresh| != 1;
    assert forall i :: 0 <= i < |init| ==> init[i] == refresh[i];
    RefreshUnderWay(site, before, init);
    assert Stage(CopyMissed) in refresh <==> Stage(CopyMissed) in init;
    c := Exec(site, before, init).value.task.candidate;
  }

  lemma GenerationAdded(site: Site, before: OriginState, refresh: seq<Event>)
    requires Activates(site, before, refresh)
    ensures Exec(site, before, refresh).value.gens != []
  {
    var c := ActivatedCandidate(site, before, refresh);
  }

  ghost function ActivatedBy(site: Site, before: OriginState, refresh: seq<Event>): Generation
    requires Activates(site, before, refresh)
  {
    GenerationAdded(site, before, refresh);
    var s := Exec(site, before, refresh).value;
    s.gens[|s.gens| - 1]
  }

  lemma ActivatedGeneration(site: Site, before: OriginState, refresh: seq<Event>) returns (c: Candidate, hist: seq<Bucket>)
    requires Activates(site, before, refresh)
    ensures ActivatedBy(site, before, refresh) == GenerationFrom(c)
    ensures AcceptedWith(site, hist, before.index, ActiveRegistry(before), BaseOf(before, refresh), c)
  {
    c := ActivatedCandidate(site, before, refresh);
    hist := Exec(site, before, refresh).value.hist;
  }

  // ----- agreement with the listing

  /** Whatever happened before, a refresh activates a mirror that agrees with its listing exactly when
      the mirror it began from agreed with the previous index on every key that the index let it skip. */
  lemma ActivationAgreesExactly(site: Site, before: OriginState, refresh: seq<Event>)
    requires Activates(site, before, refresh)
    ensures var g, base := ActivatedBy(site, before, refresh), BaseOf(before, refresh);
      Agrees(g.index.files, g.mirror) <==>
        forall k :: k in DiffOf(before.index, g.index).unmodified ==> k in base && Matches(KnownFiles(before.index)[k], base[k])
  {
    var c, hist := ActivatedGeneration(site, before, refresh);
    StagedAgreesExactly(site, hist, before.index, BaseOf(before, refresh), c.work);
  }

  lemma StagedAgreesExactly(site: Site, hist: seq<Bucket>, previous: Option<OriginFreshnessIndex>, base: Mirror, w: Work)
    requires StagedWith(site, hist, previous, base, w)
    ensures Agrees(w.next.files, w.staged) <==>
      forall k :: k in DiffOf(previous, w.next).unmodified ==> k in base && Matches(KnownFiles(previous)[k], base[k])
  {
    forall k | k in w.diff.Changed() ensures Matches(w.next.files[k], w.staged[k]) {
      assert k in w.staged.Keys;
    }
    AgreementDependsOnSkippedKeys(base, previous, w.next, w.staged);
  }

  /** After a missed copy the mirror agrees with its listing exactly when no key was skipped. */
  lemma MissedCopyAgreesExactly(site: Site, before: OriginState, refresh: seq<Event>)
    requires Activates(site, before, refresh) && Stage(CopyMissed) in refresh
    ensures var g := ActivatedBy(site, before, refresh);
      Agrees(g.index.files, g.mirror) <==> DiffOf(before.index, g.index).unmodified == {}
  {
    ActivationAgreesExactly(site, before, refresh);
  }

  lemma CleanupFaultThenReport(site: Site, s: OriginState)
    requires s.task.NewLive?
    ensures var failed := SwapStep(s, CleanupFault);
      && failed.Some?
      && PublicationStep(site, failed.value, Report) ==
           Some(s.(task := Idle, runtime := Some(AfterError(s.runtime, site.originId, BackupNotRemoved))))
  {
  }

  /** When the backup cannot be removed the refresh reports an error with its mirror live and its
      index dropped (`CleanupFaultThenReport`): a key it changed in entity tag is then described
      wrongly by the index kept, so a later listing that shows the old entry again skips it. */
  lemma CleanupFaultLeavesStaleIndex(site: Site, s: OriginState, c: Candidate, known: Files, key: string)
    requires StoresOk(s) && InFlight(s) && s.task == NewLive(c) && GenOk(site, s.hist, s.gens[|s.gens| - 1])
    requires s.index.Some? && s.index.value.files == known
    requires key in known && key in c.work.next.files
    requires known[key].etag.Some? && c.work.next.files[key].etag.Some? && c.work.next.files[key].etag != known[key].etag
    ensures s.live.Some? && key in s.live.value && !Matches(known[key], s.live.value[key])
  {
    var g := s.gens[|s.gens| - 1];
    assert s.live == Some(g.mirror);
    assert key in g.mirror by { assert key in g.index.files.Keys; }
    assert Matches(g.index.files[key], g.mirror[key]);
  }

  /** The whole story: a run reaches the point where the new mirror is live, the backup cannot be
      removed, the error is reported, and a later refresh activates. That one agrees with its listing
      exactly when no key listed as the kept index has it is wrong or absent in the mirror left live. */
  lemma CleanupFaultAgreesExactly(site: Site, s0: OriginState, past: seq<Event>, refresh: seq<Event>)
    requires Initial(s0) && SwapsHold(past) && Exec(site, s0, past).Some? && Exec(site, s0, past).value.task.NewLive?
    requires Exec(site, s0, past + BROKEN_CLEANUP).Some?
    requires Activates(site, Exec(site, s0, past + BROKEN_CLEANUP).value, refresh) && Stage(CopyMissed) !in refresh
    ensures var s := Exec(site, s0, past).value; var known := KnownFiles(s.index);
      var g := ActivatedBy(site, Exec(site, s0, past + BROKEN_CLEANUP).value, refresh);
      && s.gens != []
      && var left := s.gens[|s.gens| - 1].mirror;
         Agrees(g.index.files, g.mirror) <==>
           forall k :: k in known && k in g.index.files && SameSourceState(known[k], g.index.files[k]) ==> k in left && Matches(known[k], left[k])
  {
    RunKeepsOrder(site, s0, past);
    CleanupFaultReported(site, s0, past);
    var before := Exec(site, s0, past + BROKEN_CLEANUP).value;
    ActivationAgreesExactly(site, before, refresh);
  }

  const BROKEN_CLEANUP := [Swap(CleanupFault), Publish(Report)]

  lemma CleanupFaultReported(site: Site, s0: OriginState, past: seq<Event>)
    requires s0.hist != [] && Exec(site, s0, past).Some? && Exec(site, s0, past).value.task.NewLive?
    ensures var s := Exec(site, s0, past).value;
      Exec(site, s0, past + BROKEN_CLEANUP) == Some(s.(task := Idle, runtime := Some(AfterError(s.runtime, site.originId, BackupNotRemoved))))
  {
    var s, all := Exec(site, s0, past).value, past + BROKEN_CLEANUP;
    CleanupFaultThenReport(site, s);
    var first := past + [Swap(CleanupFault)];
    assert all[..|all| - 1] == first && first[..|first| - 1] == past;
    assert Exec(site, s0, first) == Apply(site, s, Swap(CleanupFault));
  }

  /** Without changes nothing is checked against a barrier, and what was begun from is activated. */
  lemma UnchangedActivatesBase(site: Site, before: OriginState, refresh: seq<Event>)
    requires Activates(site, before, refresh) && !DiffOf(before.index, ActivatedBy(site, before, refresh).index).HasChanges()
    ensures ActivatedBy(site, before, refresh).mirror == Restrict(BaseOf(before, refresh), KnownFiles(before.index).Keys)
  {
    var c, hist := ActivatedGeneration(site, before, refresh);
    UnchangedIsBase(site, hist, before.index, BaseOf(before, refresh), c.work);
  }

  lemma UnchangedIsBase(site: Site, hist: seq<Bucket>, previous: Option<OriginFreshnessIndex>, base: Mirror, w: Work)
    requires StagedWith(site, hist, previous, base, w) && !w.diff.HasChanges()
    ensures w.staged == Restrict(base, KnownFiles(previous).Keys)
  {
    var kept := Restrict(base, KnownFiles(previous).Keys);
    DiffSets(KnownFiles(previous), w.next.files);
    forall k ensures (k in w.staged <==> k in kept) && (k in w.staged ==> w.staged[k] == kept[k]) {
      assert k in w.staged <==> k in w.staged.Keys;
      assert k in KnownFiles(previous).Keys <==> k in w.diff.unmodified;
    }
  }

  // ----- the template registry

  /** The registry a refresh publishes is a full rebuild of its mirror exactly when the active registry
      showed, under every skipped key, the template of the object the refresh began from. */
  lemma ActivationRebuildsExactly(site: Site, before: OriginState, refresh: seq<Event>)
    requires Activates(site, before, refresh) && ActiveRegistry(before).Keys <= KnownFiles(before.index).Keys
    ensures var g, base := ActivatedBy(site, before, refresh), BaseOf(before, refresh);
      FullRegistry(site.engine, g.mirror) == Some(g.registry) <==>
        forall k :: k in DiffOf(before.index, g.index).unmodified ==> ShowsTemplate(site.engine, ActiveRegistry(before), base, k)
  {
    var c, hist := ActivatedGeneration(site, before, refresh);
    AcceptedRebuildsExactly(site, hist, before.index, ActiveRegistry(before), BaseOf(before, refresh), c);
  }

  lemma AcceptedRebuildsExactly(site: Site, hist: seq<Bucket>, previous: Option<OriginFreshnessIndex>, active: Registry, base: Mirror, c: Candidate)
    requires AcceptedWith(site, hist, previous, active, base, c) && active.Keys <= KnownFiles(previous).Keys
    ensures FullRegistry(site.engine, c.work.staged) == Some(c.registry) <==>
      forall k :: k in DiffOf(previous, c.work.next).unmodified ==> ShowsTemplate(site.engine, active, base, k)
  {
    DiffSets(KnownFiles(previous), c.work.next.files);
    UpdateIsFullExactly(site.engine, active, base, c.work.staged, c.work.diff);
  }

  /** After a missed copy that is when no skipped key has a template. */
  lemma MissedCopyRebuildsExactly(site: Site, before: OriginState, refresh: seq<Event>)
    requires Activates(site, before, refresh) && Stage(CopyMissed) in refresh && ActiveRegistry(before).Keys <= KnownFiles(before.index).Keys
    ensures var g := ActivatedBy(site, before, refresh);
      FullRegistry(site.engine, g.mirror) == Some(g.registry) <==> DiffOf(before.index, g.index).unmodified !! ActiveRegistry(before).Keys
  {
    ActivationRebuildsExactly(site, before, refresh);
    var g := ActivatedBy(site, before, refresh);
    forall k | k in DiffOf(before.index, g.index).unmodified
      ensures ShowsTemplate(site.engine, ActiveRegistry(before), map[], k) <==> k !in ActiveRegistry(before).Keys {}
  }

  /** What lets the two lemmas above be used on any run: a registry names only keys of its index. */
  ghost predicate NamesKnownKeys(s: OriginState) {
    var active, known := ActiveRegistry(s).Keys, KnownFiles(s.index).Keys;
    match s.task
    case Started(previous) => active <= known && previous == s.index
    case Copied(previous, _) => active <= known && previous == s.index
    case Listing(previous, _, _) => active <= known && previous == s.index
    case Downloading(w, _) => active <= known && w.previous == s.index && w.diff == DiffOf(w.previous, w.next)
    case Staged(w) => active <= known && w.previous == s.index && w.diff == DiffOf(w.previous, w.next)
    case TemplatesSet(c) => active <= c.work.next.files.Keys
    case Idle => active <= known
    case Failing(_) => active <= known
    case IndexSet(_) => active <= known
    case SnapshotSet(_) => active <= known
    case _ => active <= known && s.task.candidate.registry.Keys <= s.task.candidate.work.next.files.Keys
  }

  lemma UpdatedNamesListed(engine: Engine, active: Registry, mirror: Mirror, previous: Option<OriginFreshnessIndex>, next: OriginFreshnessIndex)
    requires active.Keys <= KnownFiles(previous).Keys
    ensures var r := UpdatedRegistry(engine, active, mirror, DiffOf(previous, next)); r.Some? ==> r.value.Keys <= next.files.Keys
  {
    var known, d := KnownFiles(previous), DiffOf(previous, next);
    var r := UpdatedRegistry(engine, active, mirror, d);
    if r.Some? {
      forall k | k in r.value.Keys ensures k in next.files {
        assert k in d.Changed() || (k in active.Keys && k !in d.removed);
        if k !in d.Changed() { assert k in known.Keys; }
      }
    }
  }

  lemma StepNamesKnownKeys(site: Site, s: OriginState, e: Event)
    requires s.hist != [] && NamesKnownKeys(s) && Apply(site, s, e).Some?
    ensures NamesKnownKeys(Apply(site, s, e).value)
  {
    match e
    case RemoteWrite(_) =>
    case Stage(staging) => StagingNamesKnownKeys(site, s, staging);
    case Swap(swap) => SwapNamesKnownKeys(s, swap);
    case Publish(publication) => PublicationNamesKnownKeys(site, s, publication);
  }

  lemma SwapNamesKnownKeys(s: OriginState, e: SwapEvent)
    requires NamesKnownKeys(s) && SwapStep(s, e).Some?
    ensures NamesKnownKeys(SwapStep(s, e).value)
  {
  }

  lemma PublicationNamesKnownKeys(site: Site, s: OriginState, e: PublicationEvent)
    requires NamesKnownKeys(s) && PublicationStep(site, s, e).Some?
    ensures NamesKnownKeys(PublicationStep(site, s, e).value)
  {
  }

  lemma StagingNamesKnownKeys(site: Site, s: OriginState, e: StagingEvent)
    requires s.hist != [] && NamesKnownKeys(s) && StagingStep(site, s, e).Some?
    ensures NamesKnownKeys(StagingStep(site, s, e).value)
  {
    if e.Prepare? {
      PreparationNamesKnownKeys(site, s);
    }
  }

  lemma PreparationNamesKnownKeys(site: Site, s: OriginState)
    requires s.hist != [] && NamesKnownKeys(s) && s.task.Staged?
    ensures NamesKnownKeys(AfterPrepare(site, s))
  {
    var w := s.task.work;
    PreparedMeaning(site, ActiveRegistry(s), w, GenerationOf(s.runtime) + 1);
    UpdatedNamesListed(site.engine, ActiveRegistry(s), w.staged, w.previous, w.next);
  }

  /** In every run, whatever faults occur. */
  lemma {:induction false} RegistryNamesKnownKeys(site: Site, s0: OriginState, events: seq<Event>)
    requires Initial(s0) && Exec(site, s0, events).Some?
    ensures NamesKnownKeys(Exec(site, s0, events).value)
  {
    if events != [] {
      RegistryNamesKnownKeys(site, s0, events[..|events| - 1]);
      StepNamesKnownKeys(site, Exec(site, s0, events[..|events| - 1]).value, events[|events| - 1]);
    }
  }
}
