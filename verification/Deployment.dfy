/** Deployment atomicity: with a barrier file and a disciplined publisher, no interleaving of
    publisher and refresh steps ever activates a mixture of two deployments. */
module Deployment {
  import opened Common
  import opened Freshness
  import opened LocalMirror
  import opened Edge
  import opened Templates
  import opened RefreshProtocol
  import opened RefreshInvariant
  import opened RefreshTheorems
  import opened RefreshFaults

  type Contents = map<string, Bytes>

  datatype Phase = NothingYet | Writing(n: nat) | Complete(n: nat)

  function Bodies(bucket: Bucket): Contents {
    map k | k in bucket :: bucket[k].body
  }

  function MirrorBodies(mirror: Mirror): Contents {
    map k | k in mirror :: mirror[k].body
  }

  predicate Parses(engine: Engine, body: Bytes) {
    ParsedConfig(engine, body).Some?
  }

  /** Each deployment has a barrier file that parses, and no two share it. */
  ghost predicate ValidDeployments(engine: Engine, deps: seq<Contents>) {
    && (forall i :: 0 <= i < |deps| ==> BARRIER_KEY in deps[i] && Parses(engine, deps[i][BARRIER_KEY]))
    && (forall i, j :: 0 <= i < |deps| && 0 <= j < |deps| && i != j ==> deps[i][BARRIER_KEY] != deps[j][BARRIER_KEY])
  }

  predicate Puts(before: Bucket, key: string, obj: RemoteObject, after: Bucket) {
    after == before[key := obj]
  }

  predicate Deletes(before: Bucket, key: string, after: Bucket) {
    after == before - {key}
  }

  /** The publisher overwrites the barrier with something that does not parse, then puts and deletes
      other keys in any order, and last writes the barrier that completes the deployment. A deployment
      given up half-way is begun again with another barrier that does not parse. */
  ghost predicate PublisherStep(engine: Engine, deps: seq<Contents>, b: Bucket, p: Phase, b': Bucket, p': Phase) {
    || (b' == b && p' == p)
    || (!p.Writing? && p' == Writing(if p.NothingYet? then 0 else p.n + 1)
          && exists o: RemoteObject :: !Parses(engine, o.body) && Puts(b, BARRIER_KEY, o, b'))
    || (p.Writing? && p' == p && exists k, o: RemoteObject :: (k != BARRIER_KEY || !Parses(engine, o.body)) && Puts(b, k, o, b'))
    || (p.Writing? && p' == p && exists k :: k != BARRIER_KEY && Deletes(b, k, b'))
    || (p.Writing? && p' == Complete(p.n) && p.n < |deps| && Bodies(b') == deps[p.n]
          && exists o :: Puts(b, BARRIER_KEY, o, b'))
  }

  ghost predicate PublishedHistory(engine: Engine, deps: seq<Contents>, hist: seq<Bucket>, phases: seq<Phase>) {
    && |phases| == |hist|
    && (hist != [] ==> PhaseHolds(engine, deps, hist[0], phases[0]))
    && (forall t :: 0 < t < |hist| ==> PublisherStep(engine, deps, hist[t - 1], phases[t - 1], hist[t], phases[t]))
  }

  predicate PhaseHolds(engine: Engine, deps: seq<Contents>, bucket: Bucket, phase: Phase) {
    match phase
    case NothingYet => bucket == map[]
    case Writing(_) => BARRIER_KEY in bucket && !Parses(engine, bucket[BARRIER_KEY].body)
    case Complete(n) => n < |deps| && Bodies(bucket) == deps[n]
  }

  function Rank(phase: Phase): nat {
    match phase
    case NothingYet => 0
    case Writing(n) => 2 * n + 1
    case Complete(n) => 2 * n + 2
  }

  lemma {:induction false} PhasesHold(engine: Engine, deps: seq<Contents>, hist: seq<Bucket>, phases: seq<Phase>, t: nat)
    requires PublishedHistory(engine, deps, hist, phases) && t < |hist|
    ensures PhaseHolds(engine, deps, hist[t], phases[t])
  {
    if t > 0 {
      PhasesHold(engine, deps, hist, phases, t - 1);
      assert PublisherStep(engine, deps, hist[t - 1], phases[t - 1], hist[t], phases[t]);
    }
  }

  lemma {:induction false} RanksAscend(engine: Engine, deps: seq<Contents>, hist: seq<Bucket>, phases: seq<Phase>, t: nat, u: nat)
    requires PublishedHistory(engine, deps, hist, phases) && t <= u < |hist|
    ensures Rank(phases[t]) <= Rank(phases[u])
  {
    if t < u {
      RanksAscend(engine, deps, hist, phases, t, u - 1);
      assert PublisherStep(engine, deps, hist[u - 1], phases[u - 1], hist[u], phases[u]);
    }
  }

  /** A barrier that parses is shown only while one deployment, and always the same, is complete. */
  lemma BarrierShowsDeployment(engine: Engine, deps: seq<Contents>, hist: seq<Bucket>, phases: seq<Phase>, t: nat)
    requires ValidDeployments(engine, deps) && PublishedHistory(engine, deps, hist, phases) && t < |hist|
    requires BARRIER_KEY in hist[t] && Parses(engine, hist[t][BARRIER_KEY].body)
    ensures phases[t].Complete? && phases[t].n < |deps| && Bodies(hist[t]) == deps[phases[t].n]
    ensures deps[phases[t].n][BARRIER_KEY] == hist[t][BARRIER_KEY].body
  {
    PhasesHold(engine, deps, hist, phases, t);
    assert BARRIER_KEY in Bodies(hist[t]);
  }

  lemma CompleteThroughout(engine: Engine, deps: seq<Contents>, hist: seq<Bucket>, phases: seq<Phase>, t: nat, m: nat, u: nat)
    requires ValidDeployments(engine, deps) && PublishedHistory(engine, deps, hist, phases) && t <= m <= u < |hist|
    requires BARRIER_KEY in hist[t] && Parses(engine, hist[t][BARRIER_KEY].body)
    requires BARRIER_KEY in hist[u] && hist[u][BARRIER_KEY].body == hist[t][BARRIER_KEY].body
    ensures phases[t].Complete? && phases[t].n < |deps| && Bodies(hist[m]) == deps[phases[t].n]
  {
    BarrierShowsDeployment(engine, deps, hist, phases, t);
    BarrierShowsDeployment(engine, deps, hist, phases, u);
    assert phases[t].n == phases[u].n;
    RanksAscend(engine, deps, hist, phases, t, m);
    RanksAscend(engine, deps, hist, phases, m, u);
    assert phases[m] == phases[t];
    PhasesHold(engine, deps, hist, phases, m);
  }

  ghost predicate Deployed(deps: seq<Contents>, contents: Contents) {
    contents == map[] || exists i :: 0 <= i < |deps| && contents == deps[i]
  }

  ghost predicate GensDeployed(deps: seq<Contents>, gens: seq<Generation>) {
    forall i {:trigger gens[i]} :: 0 <= i < |gens| ==> Deployed(deps, MirrorBodies(gens[i].mirror))
  }

  /** The barrier was fetched again after the listing, so the remote stood still meanwhile: the keys
      listed are those of deployment `n` and every body that carries its listed tag is of it. */
  lemma ListingShowsDeployment(site: Site, hist: seq<Bucket>, previous: Option<OriginFreshnessIndex>, base: Mirror, w: Work,
                               deps: seq<Contents>, phases: seq<Phase>) returns (n: nat)
    requires BegunFrom(site, hist, previous, base, w, {}) && site.listsEtags && Faithful(hist)
    requires site.barrier == Some(BARRIER_KEY)
    requires ValidDeployments(site.engine, deps) && PublishedHistory(site.engine, deps, hist, phases)
    requires BARRIER_KEY in w.diff.Changed() && Parses(site.engine, w.staged[BARRIER_KEY].body)
    ensures n < |deps| && deps[n][BARRIER_KEY] == w.staged[BARRIER_KEY].body
    ensures forall k :: Lists(hist, w.next.files, deps[n], k)
  {
    var files := w.next.files;
    var first: nat :| BarrierFirst(site.barrier, hist, w.from, w.upto, files, first);
    assert Fetched(hist, w.upto, BARRIER_KEY, files[BARRIER_KEY], w.staged[BARRIER_KEY]);
    var u: nat :| w.upto - 1 <= u < |hist| && BARRIER_KEY in hist[u] && w.staged[BARRIER_KEY] == Stored(hist[u][BARRIER_KEY]);
    FetchedIsSourced(hist, w.upto, BARRIER_KEY, files[BARRIER_KEY], w.staged[BARRIER_KEY]);
    BodyIsListed(hist, files, BARRIER_KEY, w.staged[BARRIER_KEY], first);
    BarrierShowsDeployment(site.engine, deps, hist, phases, first);
    n := phases[first].n;
    forall k ensures Lists(hist, files, deps[n], k) {
      assert Observed(hist, first, w.upto, k, files);
      var t: nat :| first <= t < w.upto && t < |hist| && SameAt(hist[t], k, files);
      CompleteThroughout(site.engine, deps, hist, phases, first, t, u);
      ListsAt(hist, files, deps[n], k, t);
    }
  }

  /** The listing says of `key` what the deployment has. */
  ghost predicate Lists(hist: seq<Bucket>, files: Files, contents: Contents, key: string) {
    && (key in files <==> key in contents)
    && (key in files ==> forall obj :: Sourced(hist, key, obj) && Matches(files[key], obj) ==> obj.body == contents[key])
  }

  lemma ListsAt(hist: seq<Bucket>, files: Files, contents: Contents, key: string, t: nat)
    requires Faithful(hist) && CarriesEtags(files) && t < |hist| && SameAt(hist[t], key, files) && Bodies(hist[t]) == contents
    ensures Lists(hist, files, contents, key)
  {
    assert key in hist[t] <==> key in Bodies(hist[t]);
    if key in files {
      forall obj | Sourced(hist, key, obj) && Matches(files[key], obj) ensures obj.body == contents[key] {
        BodyIsListed(hist, files, key, obj, t);
      }
    }
  }

  /** Case 1: the barrier was fetched again. */
  lemma FetchedBarrierDeploys(site: Site, hist: seq<Bucket>, gens: seq<Generation>, w: Work, deps: seq<Contents>, phases: seq<Phase>)
    requires GensOk(site, hist, gens) && StagedOk(site, hist, gens, w) && site.listsEtags && Faithful(hist)
    requires site.barrier == Some(BARRIER_KEY)
    requires ValidDeployments(site.engine, deps) && PublishedHistory(site.engine, deps, hist, phases)
    requires BARRIER_KEY in w.diff.Changed() && Parses(site.engine, w.staged[BARRIER_KEY].body)
    ensures Deployed(deps, MirrorBodies(w.staged))
  {
    var n := ListingShowsDeployment(site, hist, IndexBefore(gens), MirrorBefore(gens), w, deps, phases);
    StagedAgrees(site, hist, gens, w);
    AgreedContents(hist, w.next.files, w.staged, deps[n]);
  }

  lemma AgreedContents(hist: seq<Bucket>, files: Files, mirror: Mirror, contents: Contents)
    requires Agrees(files, mirror) && (forall k :: k in mirror ==> Sourced(hist, k, mirror[k]))
    requires forall k :: Lists(hist, files, contents, k)
    ensures MirrorBodies(mirror) == contents
  {
    forall k ensures (k in mirror <==> k in contents) && (k in mirror ==> mirror[k].body == contents[k]) {
      assert Lists(hist, files, contents, k);
      assert k in mirror <==> k in mirror.Keys;
    }
  }

  lemma CarriedWithoutChanges(before: Mirror, staged: Mirror, diff: OriginFreshnessDiff)
    requires Carries(before, staged, diff) && !diff.HasChanges()
    ensures staged == before
  {
    assert staged.Keys == before.Keys == diff.unmodified;
    forall k | k in staged ensures k in before && staged[k] == before[k] { assert k in staged.Keys; }
  }

  /** Case 2: nothing changed, so the staged mirror is the active one. */
  lemma UnchangedStaysDeployed(site: Site, hist: seq<Bucket>, gens: seq<Generation>, w: Work, deps: seq<Contents>)
    requires GensOk(site, hist, gens) && StagedOk(site, hist, gens, w) && GensDeployed(deps, gens)
    requires !w.diff.HasChanges()
    ensures Deployed(deps, MirrorBodies(w.staged))
  {
    PreviousAgrees(site, hist, gens);
    var before := MirrorBefore(gens);
    CarriedByDiff(KnownFiles(w.previous), before, w.next, w.staged, w.diff);
    CarriedWithoutChanges(before, w.staged, w.diff);
    if gens == [] {
      assert MirrorBodies(w.staged) == map[];
    } else {
      assert Deployed(deps, MirrorBodies(gens[|gens| - 1].mirror));
    }
  }

  lemma CandidateDeployed(site: Site, hist: seq<Bucket>, gens: seq<Generation>, c: Candidate, deps: seq<Contents>, phases: seq<Phase>)
    requires GensOk(site, hist, gens) && CandidateOk(site, hist, gens, c) && site.listsEtags && Faithful(hist)
    requires site.barrier == Some(BARRIER_KEY)
    requires ValidDeployments(site.engine, deps) && PublishedHistory(site.engine, deps, hist, phases)
    requires GensDeployed(deps, gens)
    ensures Deployed(deps, MirrorBodies(c.work.staged))
  {
    var w := c.work;
    if !w.diff.HasChanges() {
      UnchangedStaysDeployed(site, hist, gens, w, deps);
    } else {
      assert BARRIER_KEY in w.next.files && BARRIER_KEY in w.diff.Changed() by { BarrierMoved(w, BARRIER_KEY); }
      BarrierDecides(site.engine, w.staged);
      FetchedBarrierDeploys(site, hist, gens, w, deps, phases);
    }
  }

  /** What the activation barrier check is for: a changed listing is accepted only with a barrier
      that is new or has itself changed. */
  lemma BarrierMoved(w: Work, barrier: string)
    requires w.diff == DiffOf(w.previous, w.next) && w.diff.HasChanges()
    requires ValidateActivationBarrier(w.previous, w.next, w.diff, Some(barrier)).Ok?
    ensures barrier in w.next.files && barrier in w.diff.Changed()
  {
  }

  lemma PrefixPublished(engine: Engine, deps: seq<Contents>, hist: seq<Bucket>, phases: seq<Phase>, n: nat)
    requires PublishedHistory(engine, deps, hist, phases) && n <= |hist|
    ensures PublishedHistory(engine, deps, hist[..n], phases[..n])
  {
  }

  lemma PrefixFaithful(hist: seq<Bucket>, n: nat)
    requires Faithful(hist) && n <= |hist|
    ensures Faithful(hist[..n])
  {
  }

  lemma GensAfter(site: Site, s: OriginState, e: Event)
    requires s.hist != [] && Apply(site, s, e).Some?
    ensures var after := Apply(site, s, e).value;
      || after.gens == s.gens
      || (e == Swap(MoveNew) && (s.task.OldMoved? || s.task.Ready?) && after.gens == s.gens + [GenerationFrom(s.task.candidate)])
  {
  }

  /** In every interleaving of the publisher's writes with the refresh, whatever faults occur short
      of a broken swap, every generation ever activated is empty or exactly one complete deployment. */
  lemma {:induction false} DeploymentsAreAtomic(site: Site, s0: OriginState, events: seq<Event>, deps: seq<Contents>, phases: seq<Phase>)
    requires Initial(s0) && Quiet(events) && Exec(site, s0, events).Some?
    requires site.barrier == Some(BARRIER_KEY) && site.listsEtags
    requires ValidDeployments(site.engine, deps)
    requires var hist := Exec(site, s0, events).value.hist; Faithful(hist) && PublishedHistory(site.engine, deps, hist, phases)
    ensures GensDeployed(deps, Exec(site, s0, events).value.gens)
  {
    if events != [] {
      var init, e := events[..|events| - 1], events[|events| - 1];
      var s := Exec(site, s0, init).value;
      var after := Exec(site, s0, events).value;
      HistoryStays(site, s, e);
      assert s.hist == after.hist[..|s.hist|];
      PrefixPublished(site.engine, deps, after.hist, phases, |s.hist|);
      PrefixFaithful(after.hist, |s.hist|);
      assert forall i :: 0 <= i < |init| ==> init[i] == events[i];
      DeploymentsAreAtomic(site, s0, init, deps, phases[..|s.hist|]);
      RunKeeps(site, s0, init);
      GensAfter(site, s, e);
      if after.gens != s.gens {
        CandidateDeployed(site, s.hist, s.gens, s.task.candidate, deps, phases[..|s.hist|]);
      }
    }
  }

  // ----- after a missed copy or a broken swap

  /** A refresh with changes, begun from any mirror: what it activates is one complete deployment
      exactly when, under every skipped key, that mirror had the body of the deployment listed. */
  lemma ActivationDeploysExactly(site: Site, before: OriginState, refresh: seq<Event>, deps: seq<Contents>, phases: seq<Phase>) returns (n: nat)
    requires Activates(site, before, refresh) && DiffOf(before.index, ActivatedBy(site, before, refresh).index).HasChanges()
    requires site.barrier == Some(BARRIER_KEY) && site.listsEtags && ValidDeployments(site.engine, deps)
    requires var hist := Exec(site, before, refresh).value.hist; Faithful(hist) && PublishedHistory(site.engine, deps, hist, phases)
    ensures var g, base := ActivatedBy(site, before, refresh), BaseOf(before, refresh);
      && n < |deps| && BARRIER_KEY in g.mirror && g.mirror[BARRIER_KEY].body == deps[n][BARRIER_KEY]
      && (Deployed(deps, MirrorBodies(g.mirror)) <==>
            forall k :: k in DiffOf(before.index, g.index).unmodified ==> k in base && k in deps[n] && base[k].body == deps[n][k])
  {
    var c := ActivatedCandidate(site, before, refresh);
    var hist, base, w := Exec(site, before, refresh).value.hist, BaseOf(before, refresh), c.work;
    BarrierMoved(w, BARRIER_KEY);
    BarrierDecides(site.engine, w.staged);
    n := ListingShowsDeployment(site, hist, before.index, base, w, deps, phases);
    MixedWithBase(site, hist, before.index, base, w, deps, n);
  }

  lemma MixedWithBase(site: Site, hist: seq<Bucket>, previous: Option<OriginFreshnessIndex>, base: Mirror, w: Work, deps: seq<Contents>, n: nat)
    requires StagedWith(site, hist, previous, base, w) && ValidDeployments(site.engine, deps)
    requires n < |deps| && BARRIER_KEY in w.staged && w.staged[BARRIER_KEY].body == deps[n][BARRIER_KEY]
    requires forall k :: Lists(hist, w.next.files, deps[n], k)
    ensures Deployed(deps, MirrorBodies(w.staged)) <==>
      forall k :: k in w.diff.unmodified ==> k in base && k in deps[n] && base[k].body == deps[n][k]
  {
    assert Deployed(deps, MirrorBodies(w.staged)) <==> MirrorBodies(w.staged) == deps[n] by {
      assert BARRIER_KEY in MirrorBodies(w.staged);
    }
    forall k ensures (k in deps[n] <==> k in w.diff.Changed() || k in w.diff.unmodified)
      && (k in w.diff.Changed() ==> k in w.staged && w.staged[k].body == deps[n][k])
    {
      assert Lists(hist, w.next.files, deps[n], k);
      if k in w.diff.Changed() { FetchedIsSourced(hist, w.upto, k, w.next.files[k], w.staged[k]); }
    }
    MixedContents(base, w.staged, w.diff, deps[n]);
  }

  lemma MixedContents(base: Mirror, staged: Mirror, diff: OriginFreshnessDiff, contents: Contents)
    requires staged.Keys == diff.Changed() + (diff.unmodified * base.Keys) && diff.unmodified !! diff.Changed()
    requires forall k :: k in diff.unmodified && k in base ==> k in staged && staged[k] == base[k]
    requires forall k :: k in contents <==> k in diff.Changed() || k in diff.unmodified
    requires forall k :: k in diff.Changed() ==> k in staged && staged[k].body == contents[k]
    ensures MirrorBodies(staged) == contents <==>
      forall k :: k in diff.unmodified ==> k in base && k in contents && base[k].body == contents[k]
  {
    var bodies := MirrorBodies(staged);
    forall k ensures k in bodies <==> k in diff.Changed() || (k in diff.unmodified && k in base) {
      assert k in bodies <==> k in staged.Keys;
    }
    if bodies == contents {
      forall k | k in diff.unmodified ensures k in base && base[k].body == contents[k] {
        assert k in bodies;
      }
    }
    if forall k :: k in diff.unmodified ==> k in base && k in contents && base[k].body == contents[k] {
      assert bodies == contents;
    }
  }

  /** After a missed copy that is when no key was skipped. */
  lemma MissedCopyDeploysExactly(site: Site, before: OriginState, refresh: seq<Event>, deps: seq<Contents>, phases: seq<Phase>)
    requires Activates(site, before, refresh) && DiffOf(before.index, ActivatedBy(site, before, refresh).index).HasChanges()
    requires Stage(CopyMissed) in refresh
    requires site.barrier == Some(BARRIER_KEY) && site.listsEtags && ValidDeployments(site.engine, deps)
    requires var hist := Exec(site, before, refresh).value.hist; Faithful(hist) && PublishedHistory(site.engine, deps, hist, phases)
    ensures var g := ActivatedBy(site, before, refresh);
      Deployed(deps, MirrorBodies(g.mirror)) <==> DiffOf(before.index, g.index).unmodified == {}
  {
    var _ := ActivationDeploysExactly(site, before, refresh, deps, phases);
  }
}
