/** Main results about whole runs of the refresh protocol. */
module RefreshTheorems {
  import opened Common
  import opened Freshness
  import opened LocalMirror
  import opened Edge
  import opened Templates
  import opened OriginRuntime
  import opened RefreshProtocol
  import opened RefreshInvariant

  // ----- publication order

  function Activations(events: seq<Event>): nat {
    if events == [] then 0
    else
      var last := events[|events| - 1];
      Activations(events[..|events| - 1]) + if last.Publish? && last.publication.SetSnapshot? then 1 else 0
  }

  lemma RuntimeTagCounts(site: Site, s: OriginState, e: Event)
    requires s.hist != [] && StoresOk(s) && Apply(site, s, e).Some?
    ensures Apply(site, s, e).value.tags.runtime ==
      s.tags.runtime + if e.Publish? && e.publication.SetSnapshot? then 1 else 0
  {
  }

  lemma {:induction false} ActivationsCount(site: Site, s0: OriginState, events: seq<Event>)
    requires Initial(s0) && SwapsHold(events) && Exec(site, s0, events).Some?
    ensures Exec(site, s0, events).value.tags.runtime == Activations(events)
  {
    if events != [] {
      var init := events[..|events| - 1];
      assert forall i :: 0 <= i < |init| ==> init[i] == events[i];
      ActivationsCount(site, s0, init);
      RunKeepsOrder(site, s0, init);
      RuntimeTagCounts(site, Exec(site, s0, init).value, events[|events| - 1]);
    }
  }

  ghost predicate Chain(t: Tags) {
    t.mirror >= t.edge >= t.templates >= t.index >= t.runtime && t.mirror <= t.runtime + 1
  }

  /** At every step the stores show a non-increasing chain of generations at most one apart, each
      store holds exactly what its generation published, and the runtime generation counts the
      completed activations, missed copies included. A prefix of a run is a run, so this covers
      every intermediate state. */
  lemma PublicationOrder(site: Site, s0: OriginState, events: seq<Event>)
    requires Initial(s0) && SwapsHold(events) && Exec(site, s0, events).Some?
    ensures var s := Exec(site, s0, events).value;
      Chain(s.tags) && Held(s) && GenerationOf(s.runtime) == s.tags.runtime == Activations(events)
  {
    RunKeepsOrder(site, s0, events);
    ActivationsCount(site, s0, events);
  }

  // ----- snapshot agreement

  /** An entity tag fixes the body: two objects seen under one key with one tag have one body. */
  ghost predicate Faithful(hist: seq<Bucket>) {
    forall i, j, k :: 0 <= i < |hist| && 0 <= j < |hist| && k in hist[i] && k in hist[j] ==>
      hist[i][k].etag.Some? && hist[i][k].etag == hist[j][k].etag ==> hist[i][k].body == hist[j][k].body
  }

  /** The remote showed `body` under `key` while the listing of the generation was being read. */
  ghost predicate ShownDuringListing(hist: seq<Bucket>, g: Generation, key: string, body: Bytes) {
    exists t :: g.from <= t < g.upto && t < |hist| && key in hist[t] && hist[t][key].body == body
  }

  /** Every generation mirrors exactly the listed keys, with the listed size and any listed
      last-modified and entity tag; with faithful tags in the listing the bodies are those that
      the remote showed when it was listed, whatever was written between the list and the gets. */
  lemma SnapshotAgreement(site: Site, s0: OriginState, events: seq<Event>, i: nat)
    requires Initial(s0) && Quiet(events) && Exec(site, s0, events).Some?
    requires i < |Exec(site, s0, events).value.gens|
    ensures var s := Exec(site, s0, events).value; var g := s.gens[i];
      && Agrees(g.index.files, g.mirror)
      && (site.listsEtags && Faithful(s.hist) ==> forall k :: k in g.mirror ==> ShownDuringListing(s.hist, g, k, g.mirror[k].body))
      && (s.task.Idle? && i == |s.gens| - 1 ==> s.live == Some(g.mirror) && s.index == Some(g.index))
  {
    RunKeeps(site, s0, events);
    var s := Exec(site, s0, events).value;
    var g := s.gens[i];
    assert GenOk(site, s.hist, g);
    if site.listsEtags && Faithful(s.hist) {
      forall k | k in g.mirror ensures ShownDuringListing(s.hist, g, k, g.mirror[k].body) {
        BodyShown(site, s.hist, g, k);
      }
    }
  }

  /** A body that carries the listed tag is the listed one, since tags are faithful. */
  lemma BodyIsListed(hist: seq<Bucket>, files: Files, key: string, obj: LocalObject, t: nat)
    requires Faithful(hist) && CarriesEtags(files) && t < |hist| && SameAt(hist[t], key, files)
    requires key in files && Sourced(hist, key, obj) && Matches(files[key], obj)
    ensures key in hist[t] && obj.body == hist[t][key].body
  {
    var u :| 0 <= u < |hist| && key in hist[u] && obj == Stored(hist[u][key]);
    assert hist[u][key].etag == files[key].etag == hist[t][key].etag;
  }

  lemma BodyShown(site: Site, hist: seq<Bucket>, g: Generation, key: string)
    requires GenOk(site, hist, g) && site.listsEtags && Faithful(hist) && key in g.mirror
    ensures ShownDuringListing(hist, g, key, g.mirror[key].body)
  {
    assert key in g.index.files by { assert key in g.mirror.Keys; }
    var first: nat :| BarrierFirst(site.barrier, hist, g.from, g.upto, g.index.files, first);
    assert Observed(hist, first, g.upto, key, g.index.files);
    var t :| first <= t < g.upto && t < |hist| && SameAt(hist[t], key, g.index.files);
    BodyIsListed(hist, g.index.files, key, g.mirror[key], t);
  }

  // ----- templates

  /** The active registry is what a rebuild from nothing makes of the mirror of its generation, and
      of the active mirror whenever no refresh is under way. */
  ghost predicate RegistryCurrent(engine: Engine, s: OriginState) {
    && s.tags.templates <= |s.gens|
    && (s.tags.templates > 0 ==> FullRegistry(engine, s.gens[s.tags.templates - 1].mirror) == s.templates)
    && (s.task.Idle? && s.templates.Some? ==> s.live.Some? && FullRegistry(engine, s.live.value) == s.templates)
  }

  lemma TaggedRegistry(site: Site, s: OriginState)
    requires GensOk(site, s.hist, s.gens) && StoresOk(s)
    ensures RegistryCurrent(site.engine, s)
  {
    if s.tags.templates > 0 {
      assert GenOk(site, s.hist, s.gens[s.tags.templates - 1]);
    }
    if s.task.Idle? { IdleTagsAgree(s); }
  }

  lemma IdleTagsAgree(s: OriginState)
    requires StoresOk(s) && s.task.Idle?
    ensures s.tags.templates == |s.gens| && (s.templates.Some? <==> s.gens != [])
    ensures s.gens != [] ==> s.live == Some(s.gens[|s.gens| - 1].mirror)
  {
  }

  lemma RegistryIsFullRebuild(site: Site, s0: OriginState, events: seq<Event>)
    requires Initial(s0) && Quiet(events) && Exec(site, s0, events).Some?
    ensures RegistryCurrent(site.engine, Exec(site, s0, events).value)
  {
    RunKeeps(site, s0, events);
    TaggedRegistry(site, Exec(site, s0, events).value);
  }

  /** In every reachable state the incremental compile of a staged mirror succeeds exactly when a
      full rebuild of it would, and with the same registry. */
  lemma StagedCompileMatchesFullRebuild(site: Site, s0: OriginState, events: seq<Event>)
    requires Initial(s0) && Quiet(events) && Exec(site, s0, events).Some? && Exec(site, s0, events).value.task.Staged?
    ensures var s := Exec(site, s0, events).value; var w := s.task.work;
      UpdatedRegistry(site.engine, ActiveRegistry(s), w.staged, w.diff) == FullRegistry(site.engine, w.staged)
  {
    RunKeeps(site, s0, events);
    CompileMatches(site, Exec(site, s0, events).value);
  }

  lemma CompileMatches(site: Site, s: OriginState)
    requires Inv(site, s) && s.task.Staged?
    ensures UpdatedRegistry(site.engine, ActiveRegistry(s), s.task.work.staged, s.task.work.diff) == FullRegistry(site.engine, s.task.work.staged)
  {
    ActiveIsLastRegistry(s);
    StagedCompileIsFull(site, s.hist, s.gens, s.task.work);
  }

  lemma ActiveIsLastRegistry(s: OriginState)
    requires StoresOk(s) && Published(s.task) == 4
    ensures ActiveRegistry(s) == if s.gens == [] then map[] else s.gens[|s.gens| - 1].registry
  {
  }

  // ----- failed refreshes

  ghost predicate SameStores(before: OriginState, after: OriginState) {
    && after.edge == before.edge
    && after.templates == before.templates
    && after.index == before.index
    && after.gens == before.gens
    && after.tags == before.tags
  }

  /** A refresh under way that has not swapped: nothing published has changed. */
  ghost predicate NotSwapped(before: OriginState, now: OriginState) {
    && SameStores(before, now)
    && now.runtime == before.runtime
    && (if now.task.OldMoved? then now.live.None? && now.backup == before.live else now.live == before.live)
  }

  predicate Swapped(task: Task) {
    || task.Idle? || task.NewLive? || task.Activated? || task.EdgeSet? || task.TemplatesSet? || task.IndexSet? || task.SnapshotSet?
  }

  lemma StagingMovesTask(site: Site, s: OriginState, e: StagingEvent)
    requires s.hist != [] && !e.Begin? && StagingStep(site, s, e).Some?
    ensures var after := StagingStep(site, s, e).value;
      after == s.(task := after.task) && !s.task.OldMoved? && !Swapped(s.task) && !after.task.OldMoved?
  {
  }

  lemma PublicationEndsSwapped(site: Site, s: OriginState, e: PublicationEvent)
    requires PublicationStep(site, s, e).Some?
    ensures Swapped(PublicationStep(site, s, e).value.task)
  {
  }

  lemma SwapOrNot(before: OriginState, now: OriginState, e: SwapEvent)
    requires !IsSwapBreak(Swap(e)) && SwapStep(now, e).Some?
    requires Swapped(now.task) || NotSwapped(before, now)
    ensures var after := SwapStep(now, e).value; Swapped(after.task) || NotSwapped(before, after)
  {
  }

  lemma StillNotSwapped(site: Site, before: OriginState, now: OriginState, e: Event)
    requires now.hist != [] && !IsSwapBreak(e) && Apply(site, now, e).Some?
    requires e != Stage(Begin)
    requires Swapped(now.task) || NotSwapped(before, now)
    ensures var after := Apply(site, now, e).value; Swapped(after.task) || NotSwapped(before, after)
  {
    match e
    case RemoteWrite(_) =>
    case Stage(staging) => StagingMovesTask(site, now, staging);
    case Swap(swap) => SwapOrNot(before, now, swap);
    case Publish(publication) => PublicationEndsSwapped(site, now, publication);
  }

  lemma {:induction false} RefreshUntilSwap(site: Site, before: OriginState, events: seq<Event>)
    requires before.hist != [] && before.task.Idle? && SwapsHold(events) && Exec(site, before, events).Some?
    requires |events| > 0 && events[0] == Stage(Begin)
    requires forall i :: 1 <= i < |events| ==> events[i] != Stage(Begin)
    ensures var now := Exec(site, before, events).value; Swapped(now.task) || NotSwapped(before, now)
  {
    var init, last := events[..|events| - 1], events[|events| - 1];
    if |events| == 1 {
      assert init == [];
    } else {
      assert forall i :: 0 <= i < |init| ==> init[i] == events[i];
      RefreshUntilSwap(site, before, init);
      StillNotSwapped(site, before, Exec(site, before, init).value, last);
    }
  }

  /** A refresh that ends in an error, under every schedule of faults but the two that break the
      swap, leaves mirror, edge config, templates, index and generation as they were. Only the
      last error of the snapshot changes, on a generation-0 snapshot if there was none. */
  lemma FailedRefreshChangesOnlyTheError(site: Site, before: OriginState, refresh: seq<Event>)
    requires before.hist != [] && before.task.Idle? && SwapsHold(refresh) && Exec(site, before, refresh).Some?
    requires |refresh| > 1 && refresh[0] == Stage(Begin) && refresh[|refresh| - 1] == Publish(Report)
    requires forall i :: 1 <= i < |refresh| ==> refresh[i] != Stage(Begin)
    ensures var after := Exec(site, before, refresh).value;
      && SameStores(before, after) && after.live == before.live && after.task.Idle?
      && GenerationOf(after.runtime) == GenerationOf(before.runtime)
      && exists error :: after.runtime == Some(AfterError(before.runtime, site.originId, error))
  {
    var init := refresh[..|refresh| - 1];
    assert forall i :: 0 <= i < |init| ==> init[i] == refresh[i];
    RefreshUntilSwap(site, before, init);
    var now := Exec(site, before, init).value;
    assert Exec(site, before, refresh) == Apply(site, now, Publish(Report));
    assert now.task.Failing?;
    assert Exec(site, before, refresh).value.runtime == Some(AfterError(before.runtime, site.originId, now.task.error));
  }

  // ----- the deployment barrier

  /** With changes the barrier must be listed and must not be as it was; a first deployment needs only
      to list it, and without a barrier or without changes everything is accepted. */
  lemma BarrierExactly(previous: Option<OriginFreshnessIndex>, next: OriginFreshnessIndex, barrier: Option<string>)
    ensures var diff, r := DiffOf(previous, next), ValidateActivationBarrier(previous, next, DiffOf(previous, next), barrier);
      if barrier.None? || diff.added + diff.modified + diff.removed == {} then r == Ok(())
      else if barrier.value !in next.files then r == Err(BarrierMissing)
      else if barrier.value in diff.unmodified then r == Err(BarrierUnchanged)
      else r == Ok(())
    ensures previous.None? && barrier.Some? && barrier.value in next.files ==>
      ValidateActivationBarrier(previous, next, DiffOf(previous, next), barrier).Ok?
  {
    var diff := DiffOf(previous, next);
    DiffSets(KnownFiles(previous), next.files);
    assert diff.added + diff.modified + diff.removed == {} <==> diff.added == {} && diff.modified == {} && diff.removed == {};
  }

  /** What a staged mirror is refused for, in this order: the barrier, the configuration, a page that does not compile. */
  lemma PreparedExactly(site: Site, active: Registry, work: Work, number: nat)
    ensures var r, barrier := Prepared(site, active, work, number), ValidateActivationBarrier(work.previous, work.next, work.diff, site.barrier);
      && (barrier.Err? ==> r == Err(barrier.error))
      && (barrier.Ok? ==> (r == Err(ConfigRejected) <==> LoadedConfig(site.engine, work.staged).None?))
      && (r == Err(TemplateRejected) <==>
            && barrier.Ok? && LoadedConfig(site.engine, work.staged).Some?
            && UpdatedRegistry(site.engine, active, work.staged, work.diff).None?)
      && (r.Ok? ==>
            && r.value.work == work && r.value.number == number
            && LoadedConfig(site.engine, work.staged) == Some(r.value.config)
            && UpdatedRegistry(site.engine, active, work.staged, work.diff) == Some(r.value.registry))
  {
  }
}
