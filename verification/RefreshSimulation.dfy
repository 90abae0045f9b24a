/** A refresh as the service runs it is a run of the protocol: for every way it can end there are events
    that take the protocol to the same mirror and the same stores. */
module RefreshSimulation {
  import opened Common
  import opened Freshness
  import CdnRefresh
  import opened LocalMirror
  import opened Edge
  import opened Templates
  import opened FileTree
  import opened MirrorLayout
  import opened MirrorSync
  import opened MirrorSwap
  import opened MirrorStaging
  import opened OriginRuntime
  import opened OriginRefresh
  import opened RefreshRuns
  import Protocol = RefreshProtocol

  function PublishedConfig(stores: Stores, originId: string): Option<EdgeConfig> {
    if originId in stores.edge && stores.edge[originId].Valid? then Some(stores.edge[originId].config) else None
  }

  function PublishedRegistry(stores: Stores, originId: string): Option<Registry> {
    if originId in stores.templates then Some(stores.templates[originId]) else None
  }

  /** The protocol state, with no refresh under way, shows what the stores hold of one origin. */
  predicate ShowsStores(s: Protocol.OriginState, stores: Stores, originId: string) {
    && s.hist != [] && s.task.Idle?
    && s.edge == PublishedConfig(stores, originId) && s.templates == PublishedRegistry(stores, originId)
    && s.index == stores.Index(originId) && s.runtime == stores.Snapshot(originId)
  }

  /** And it shows the mirror on disk. */
  ghost predicate ShowsMirror(s: Protocol.OriginState, t: Tree, origin: Path, hash: string -> Digest) {
    match s.live
    case None => origin !in t
    case Some(mirror) => IsDir(t, origin) && Holds(t, origin, hash, mirror)
  }

  function CandidateOf(setup: OriginSetup, stores: Stores, remote: Remote, base: Mirror, p: PreparedRefresh): Protocol.Candidate {
    var known := stores.KnownOf(setup.originId);
    Protocol.Candidate(WorkOf(known.previous, p.sync, StagedMirror(base, remote, p.sync)), p.config, p.registry, known.number)
  }

  /** What the disk staged and the checks accepted, the protocol stages and accepts. */
  lemma AcceptedBoth(setup: OriginSetup, stores: Stores, remote: Remote, at: nat, base: Mirror, p: PreparedRefresh, s: Protocol.OriginState, missed: bool)
    requires ShowsStores(s, stores, setup.originId) && StartingMirror(s, missed) == base
    requires StagedFromRemote(setup.originId, remote, stores.Index(setup.originId), at, p.sync)
    requires var known := stores.KnownOf(setup.originId);
      Accepted(setup, known.active, known.previous, StagedMirror(base, remote, p.sync), p, known.number)
    ensures Stageable(SiteOf(setup), s, remote, at)
    ensures Acceptable(SiteOf(setup), s, remote, at, missed, CandidateOf(setup, stores, remote, base, p))
  {
    forall k | k in p.sync.diff.Changed() ensures Delivers(remote, p.sync.index.files, k) {}
  }

  lemma SnapshotsAgree(setup: OriginSetup, stores: Stores, remote: Remote, at: nat, base: Mirror, p: PreparedRefresh)
    requires p.sync.downloaded == |p.sync.diff.added| + |p.sync.diff.modified|
    ensures Protocol.SnapshotOf(SiteOf(setup), CandidateOf(setup, stores, remote, base, p), at)
      == SnapshotOf(setup, p, stores.Snapshot(setup.originId), at)
  {
  }

  lemma PublishedShows(setup: OriginSetup, stores: Stores, remote: Remote, answer: PurgeOutcome, at: nat, base: Mirror, p: PreparedRefresh,
                       s: Protocol.OriginState, t: Protocol.OriginState)
    requires ShowsStores(s, stores, setup.originId)
    requires p.sync.downloaded == |p.sync.diff.added| + |p.sync.diff.modified|
    requires RefreshedAfter(SiteOf(setup), s, CandidateOf(setup, stores, remote, base, p), answer, at, t)
    ensures ShowsStores(t, PublishedWith(stores, setup, p, answer, at), setup.originId)
  {
    SnapshotsAgree(setup, stores, remote, at, base, p);
  }

  /** For every disk, every schedule of faults and every end of the swap: the call is a run of the
      protocol from any state that shows what it found to one that shows what it left. */
  lemma RefreshIsARun(setup: OriginSetup, remote: Remote, cdn: Option<CdnRefresher>, w: Workplace, at: nat, before: Tree, stores: Stores,
                      after: Tree, stores': Stores, outcome: RefreshOutcome, end: SwapEnd, base: Mirror, p: PreparedRefresh,
                      live: Mirror, s: Protocol.OriginState)
    returns (events: seq<Protocol.Event>, t: Protocol.OriginState)
    requires Completed(setup, remote, cdn, w, at, before, stores, after, stores', outcome, end, base, p)
    requires MirrorOnDisk(before, w.origin, setup.hash, live) && (base == live || base == map[])
    requires ShowsStores(s, stores, setup.originId) && s.live == if w.origin in before then Some(live) else None
    ensures Protocol.Exec(SiteOf(setup), s, events) == Some(t)
    ensures ShowsStores(t, stores', setup.originId) && ShowsMirror(t, after, w.origin, setup.hash)
  {
    if end.OldLive? {
      events, t := UnchangedIsARun(setup, w, before, after, outcome.error, live, s);
    } else {
      var missed, c := base != live, CandidateOf(setup, stores, remote, base, p);
      assert StartingMirror(s, missed) == base;
      AcceptedBoth(setup, stores, remote, at, base, p, s, missed);
      if outcome.Refreshed? {
        DownloadedIsChanged(setup.originId, remote, stores.Index(setup.originId), at, p.sync);
        var answer := AnswerOf(setup, stores, cdn, at, p);
        events, t := RefreshedIsARun(setup, stores, remote, answer, at, base, p, s, missed);
      } else if end.NewLive? {
        events, t := LeftoverRun(SiteOf(setup), s, remote, at, missed, c);
      } else {
        var hist;
        events, hist := StuckRun(SiteOf(setup), s, remote, at, missed, c);
        t := Protocol.Exec(SiteOf(setup), s, events).value;
      }
    }
  }

  /** Whatever the CDN answers, if it is asked only for changes. */
  lemma RefreshedIsARun(setup: OriginSetup, stores: Stores, remote: Remote, answer: PurgeOutcome, at: nat, base: Mirror, p: PreparedRefresh,
                        s: Protocol.OriginState, missed: bool)
    returns (events: seq<Protocol.Event>, t: Protocol.OriginState)
    requires ShowsStores(s, stores, setup.originId) && p.sync.downloaded == |p.sync.diff.added| + |p.sync.diff.modified|
    requires Stageable(SiteOf(setup), s, remote, at)
    requires Acceptable(SiteOf(setup), s, remote, at, missed, CandidateOf(setup, stores, remote, base, p))
    requires answer.NothingToPurge? || p.sync.diff.HasChanges()
    ensures Protocol.Exec(SiteOf(setup), s, events) == Some(t)
    ensures t.live == Some(StagedMirror(base, remote, p.sync)) && ShowsStores(t, PublishedWith(stores, setup, p, answer, at), setup.originId)
  {
    var c := CandidateOf(setup, stores, remote, base, p);
    events, t := RefreshRun(SiteOf(setup), s, remote, at, missed, c, answer, at);
    PublishedShows(setup, stores, remote, answer, at, base, p, s, t);
  }

  /** A publication is one with some answer of the CDN, which is asked only for changes. */
  lemma AnswerOf(setup: OriginSetup, stores: Stores, cdn: Option<CdnRefresher>, at: nat, p: PreparedRefresh) returns (answer: PurgeOutcome)
    ensures answer.NothingToPurge? || p.sync.diff.HasChanges()
    ensures Published(stores, setup, p, cdn, at) == PublishedWith(stores, setup, p, answer, at)
  {
    answer := PurgedAs(cdn, GenerationOf(stores.Snapshot(setup.originId)) + 1, p.sync.diff);
    AskedOnlyForChanges(cdn, GenerationOf(stores.Snapshot(setup.originId)) + 1, p.sync.diff);
  }

  lemma DownloadedIsChanged(originId: string, remote: Remote, previous: Option<OriginFreshnessIndex>, at: nat, sync: StagedSync)
    requires StagedFromRemote(originId, remote, previous, at, sync)
    ensures sync.downloaded == |sync.diff.added| + |sync.diff.modified|
  {
  }

  lemma AskedOnlyForChanges(cdn: Option<CdnRefresher>, generation: nat, diff: OriginFreshnessDiff)
    ensures PurgedAs(cdn, generation, diff).NothingToPurge? || diff.HasChanges()
  {
    if cdn.Some? {
      CdnRefresh.NoPlanMeansNoChanges(cdn.value.strategy, diff, cdn.value.urlPrefixes);
    }
  }

  lemma UnchangedIsARun(setup: OriginSetup, w: Workplace, before: Tree, after: Tree, error: RefreshError, live: Mirror, s: Protocol.OriginState)
    returns (events: seq<Protocol.Event>, t: Protocol.OriginState)
    requires (w.origin in after <==> w.origin in before) && Subtree(after, w.origin) == Subtree(before, w.origin)
    requires MirrorOnDisk(before, w.origin, setup.hash, live) && s.hist != [] && s.task.Idle?
    requires s.live == if w.origin in before then Some(live) else None
    ensures Protocol.Exec(SiteOf(setup), s, events) == Some(t)
    ensures t == s.(runtime := Some(AfterError(s.runtime, setup.originId, error))) && ShowsMirror(t, after, w.origin, setup.hash)
  {
    events := FaultRun(SiteOf(setup), s, error);
    t := Protocol.Exec(SiteOf(setup), s, events).value;
    if w.origin in before {
      HoldsMoves(before, w.origin, after, w.origin, setup.hash, live);
      SameBelow(before, w.origin, after, w.origin, []);
      assert w.origin + [] == w.origin;
    }
  }
}
