/** Runs of the refresh protocol built from what a remote answers: one for every way a refresh ends. */
module RefreshRuns {
  import opened Common
  import opened Freshness
  import opened LocalMirror
  import opened Edge
  import opened Templates
  import opened MirrorSync
  import opened MirrorStaging
  import opened OriginRuntime
  import opened RefreshProtocol

  lemma {:induction false} ExecSeq(site: Site, s: OriginState, a: seq<Event>, b: seq<Event>)
    requires s.hist != [] && Exec(site, s, a).Some?
    ensures Exec(site, s, a + b) == Exec(site, Exec(site, s, a).value, b)
  {
    if b == [] {
      assert a + b == a;
    } else {
      ExecSeq(site, s, a, b[..|b| - 1]);
      assert (a + b)[..|a + b| - 1] == a + b[..|b| - 1];
    }
  }

  /** One more event at the end of a run. */
  lemma Then(site: Site, s: OriginState, events: seq<Event>, mid: OriginState, e: Event, next: OriginState)
    requires s.hist != [] && Exec(site, s, events) == Some(mid) && mid.hist != [] && Apply(site, mid, e) == Some(next)
    ensures Exec(site, s, events + [e]) == Some(next)
  {
    assert (events + [e])[..|events + [e]| - 1] == events;
  }

  // ----- single events

  lemma DoWrite(site: Site, s: OriginState, bucket: Bucket)
    requires s.hist != []
    ensures Apply(site, s, RemoteWrite(bucket)) == Some(s.(hist := s.hist + [bucket]))
  {
  }

  lemma DoBegin(site: Site, s: OriginState)
    requires s.hist != [] && s.task.Idle?
    ensures Apply(site, s, Stage(Begin)) == Some(s.(task := Started(s.index)))
  {
  }

  lemma DoCopy(site: Site, s: OriginState, missed: bool)
    requires s.hist != [] && s.task.Started?
    ensures Apply(site, s, Stage(if missed then CopyMissed else CopyLive)) == Some(s.(task := Copied(s.task.previous, StartingMirror(s, missed))))
  {
  }

  lemma DoListBegin(site: Site, s: OriginState)
    requires s.hist != [] && s.task.Copied?
    ensures Apply(site, s, Stage(ListBegin)) == Some(s.(task := Listing(s.task.previous, s.task.staged, |s.hist| - 1)))
  {
  }

  lemma DoListEnd(site: Site, s: OriginState, summaries: seq<RemoteObjectSummary>, at: nat, index: OriginFreshnessIndex)
    requires s.hist != [] && s.task.Listing? && BuiltIndex(site.originId, summaries, at) == Ok(index)
    requires ListingSound(site.barrier, s.hist, s.task.from, |s.hist|, index.files) && (site.listsEtags ==> CarriesEtags(index.files))
    ensures var diff := DiffOf(s.task.previous, index);
      Apply(site, s, Stage(ListEnd(summaries, at)))
        == Some(s.(task := Downloading(Work(s.task.previous, s.task.staged, index, diff, s.task.from, |s.hist|), diff.Changed())))
  {
  }

  lemma DoGet(site: Site, s: OriginState, key: string)
    requires s.hist != [] && s.task.Downloading? && key in s.task.todo && key in s.task.work.next.files
    ensures Apply(site, s, Stage(Get(key))) == Some(AfterGet(s, key))
  {
  }

  lemma DoPrune(site: Site, s: OriginState)
    requires s.hist != [] && s.task.Downloading? && s.task.todo == {}
    ensures Apply(site, s, Stage(Prune))
      == Some(s.(task := Staged(s.task.work.(staged := Restrict(s.task.work.staged, s.task.work.next.files.Keys)))))
  {
  }

  lemma DoPrepare(site: Site, s: OriginState, c: Candidate)
    requires s.hist != [] && s.task.Staged? && Prepared(site, ActiveRegistry(s), s.task.work, GenerationOf(s.runtime) + 1) == Ok(c)
    ensures Apply(site, s, Stage(Prepare)) == Some(s.(task := Ready(c)))
  {
  }

  lemma DoSwap(site: Site, s: OriginState, e: SwapEvent)
    requires s.hist != []
    ensures Apply(site, s, Swap(e)) == SwapStep(s, e)
  {
  }

  lemma DoPublish(site: Site, s: OriginState, e: PublicationEvent)
    requires s.hist != []
    ensures Apply(site, s, Publish(e)) == PublicationStep(site, s, e)
  {
  }

  // ----- listing and downloads

  /** A bucket that a listing could have been read from. */
  function ListedBucket(files: Files): Bucket {
    map k | k in files ::
      RemoteObject(k, seq(files[k].size, _ => 0), files[k].etag, files[k].lastModified, files[k].contentType, files[k].cacheControl)
  }

  /** What a listing begins, its index known. */
  function BegunWork(previous: Option<OriginFreshnessIndex>, staged: Mirror, index: OriginFreshnessIndex, from: nat): Work {
    Work(previous, staged, index, DiffOf(previous, index), from, from + 1)
  }

  predicate Listable(site: Site, remote: Remote, at: nat) {
    && remote.list.Ok? && BuiltIndex(site.originId, remote.list.value, at).Ok?
    && (site.listsEtags ==> forall k :: k in BuiltIndex(site.originId, remote.list.value, at).value.files ==>
          BuiltIndex(site.originId, remote.list.value, at).value.files[k].etag.Some?)
  }

  lemma ListedIsSound(barrier: Option<string>, hist: seq<Bucket>, files: Files)
    ensures ListingSound(barrier, hist + [ListedBucket(files)], |hist|, |hist| + 1, files)
  {
    var grown, from, upto := hist + [ListedBucket(files)], |hist|, |hist| + 1;
    forall k ensures Observed(grown, from, upto, k, files) {
      assert SameAt(grown[from], k, files);
    }
    assert BarrierFirst(barrier, grown, from, upto, files, from);
  }

  lemma ListingRun(site: Site, s: OriginState, remote: Remote, at: nat) returns (events: seq<Event>)
    requires s.hist != [] && s.task.Copied? && Listable(site, remote, at)
    ensures var index := BuiltIndex(site.originId, remote.list.value, at).value;
      var work := BegunWork(s.task.previous, s.task.staged, index, |s.hist|);
      Exec(site, s, events) == Some(s.(hist := s.hist + [ListedBucket(index.files)], task := Downloading(work, work.diff.Changed())))
  {
    var index := BuiltIndex(site.originId, remote.list.value, at).value;
    var bucket := ListedBucket(index.files);
    var written := s.(hist := s.hist + [bucket]);
    var listing := written.(task := Listing(s.task.previous, s.task.staged, |s.hist|));
    var work := BegunWork(s.task.previous, s.task.staged, index, |s.hist|);
    events := [];
    DoWrite(site, s, bucket);
    Then(site, s, events, s, RemoteWrite(bucket), written);
    events := events + [RemoteWrite(bucket)];
    DoListBegin(site, written);
    Then(site, s, events, written, Stage(ListBegin), listing);
    events := events + [Stage(ListBegin)];
    ListedIsSound(site.barrier, s.hist, index.files);
    DoListEnd(site, listing, remote.list.value, at, index);
    Then(site, s, events, listing, Stage(ListEnd(remote.list.value, at)), listing.(task := Downloading(work, work.diff.Changed())));
    events := events + [Stage(ListEnd(remote.list.value, at))];
  }

  /** Every key is fetched from a bucket that shows what the remote answers for it. */
  lemma {:induction false} GetsRun(site: Site, s: OriginState, remote: Remote, keys: set<string>) returns (events: seq<Event>, hist: seq<Bucket>)
    requires s.hist != [] && s.task.Downloading? && keys <= s.task.todo && AllDelivered(remote, s.task.work.next.files, keys)
    ensures hist != []
    ensures var work := s.task.work.(staged := s.task.work.staged + Fetched(remote, keys));
      Exec(site, s, events) == Some(s.(hist := hist, task := Downloading(work, s.task.todo - keys)))
    decreases keys
  {
    if keys == {} {
      events, hist := [], s.hist;
      assert s.task.work.staged + Fetched(remote, {}) == s.task.work.staged && s.task.todo - {} == s.task.todo;
    } else {
      var key :| key in keys;
      var rest := keys - {key};
      events, hist := GetsRun(site, s, remote, rest);
      events, hist := GetOne(site, s, remote, events, hist, rest, key);
      assert rest + {key} == keys;
    }
  }

  lemma GetOne(site: Site, s: OriginState, remote: Remote, events: seq<Event>, hist: seq<Bucket>, done: set<string>, key: string)
    returns (all: seq<Event>, after: seq<Bucket>)
    requires s.hist != [] && s.task.Downloading? && hist != [] && key in s.task.todo && key !in done
    requires Delivers(remote, s.task.work.next.files, key)
    requires var work := s.task.work.(staged := s.task.work.staged + Fetched(remote, done));
      Exec(site, s, events) == Some(s.(hist := hist, task := Downloading(work, s.task.todo - done)))
    ensures after != []
    ensures var work := s.task.work.(staged := s.task.work.staged + Fetched(remote, done + {key}));
      Exec(site, s, all) == Some(s.(hist := after, task := Downloading(work, s.task.todo - (done + {key}))))
  {
    var obj := remote.get(key).value;
    var before := s.task.work.(staged := s.task.work.staged + Fetched(remote, done));
    var mid := s.(hist := hist, task := Downloading(before, s.task.todo - done));
    after := hist + [map[key := obj]];
    var written := mid.(hist := after);
    var work := s.task.work.(staged := s.task.work.staged + Fetched(remote, done + {key}));
    var fetched := s.(hist := after, task := Downloading(work, s.task.todo - (done + {key})));
    DoWrite(site, mid, map[key := obj]);
    Then(site, s, events, mid, RemoteWrite(map[key := obj]), written);
    all := events + [RemoteWrite(map[key := obj])];
    GotOne(s, remote, hist, done, key);
    DoGet(site, written, key);
    Then(site, s, all, written, Stage(Get(key)), fetched);
    all := all + [Stage(Get(key))];
  }

  lemma GotOne(s: OriginState, remote: Remote, hist: seq<Bucket>, done: set<string>, key: string)
    requires s.task.Downloading? && key in s.task.todo && key !in done && Delivers(remote, s.task.work.next.files, key)
    ensures var before, after := s.task.work.(staged := s.task.work.staged + Fetched(remote, done)),
                                 s.task.work.(staged := s.task.work.staged + Fetched(remote, done + {key}));
      var grown := hist + [map[key := remote.get(key).value]];
      AfterGet(s.(hist := grown, task := Downloading(before, s.task.todo - done)), key)
        == s.(hist := grown, task := Downloading(after, s.task.todo - (done + {key})))
  {
    FetchedOneMore(remote, s.task.work.staged, done, key);
    assert (s.task.todo - done) - {key} == s.task.todo - (done + {key});
  }

  // ----- staging

  function StartingMirror(s: OriginState, missed: bool): Mirror {
    if missed || s.live.None? then map[] else s.live.value
  }

  predicate Stageable(site: Site, s: OriginState, remote: Remote, at: nat) {
    && Listable(site, remote, at)
    && forall k :: k in SyncOf(site.originId, remote, s.index, at).diff.Changed() ==>
         Delivers(remote, SyncOf(site.originId, remote, s.index, at).index.files, k)
  }

  /** `t` is `s` with the listing staged. */
  predicate StagedAfter(site: Site, s: OriginState, remote: Remote, at: nat, missed: bool, t: OriginState)
    requires Stageable(site, s, remote, at)
  {
    var sync := SyncOf(site.originId, remote, s.index, at);
    && t.hist != [] && t.task.Staged? && t == s.(hist := t.hist, task := t.task)
    && t.task.work == Work(s.index, StagedMirror(StartingMirror(s, missed), remote, sync), sync.index, sync.diff, t.task.work.from, t.task.work.upto)
  }

  lemma CopyRun(site: Site, s: OriginState, missed: bool) returns (events: seq<Event>)
    requires s.hist != [] && s.task.Idle?
    ensures Exec(site, s, events) == Some(s.(task := Copied(s.index, StartingMirror(s, missed))))
  {
    var copy := Stage(if missed then CopyMissed else CopyLive);
    var started := s.(task := Started(s.index));
    events := [];
    DoBegin(site, s);
    Then(site, s, events, s, Stage(Begin), started);
    events := events + [Stage(Begin)];
    DoCopy(site, started, missed);
    Then(site, s, events, started, copy, s.(task := Copied(s.index, StartingMirror(s, missed))));
    events := events + [copy];
  }

  lemma StagingRun(site: Site, s: OriginState, remote: Remote, at: nat, missed: bool) returns (events: seq<Event>, t: OriginState)
    requires s.hist != [] && s.task.Idle? && Stageable(site, s, remote, at)
    ensures Exec(site, s, events) == Some(t) && StagedAfter(site, s, remote, at, missed, t)
  {
    var sync := SyncOf(site.originId, remote, s.index, at);
    events := CopyRun(site, s, missed);
    var copied := Exec(site, s, events).value;
    var listing := ListingRun(site, copied, remote, at);
    ExecSeq(site, s, events, listing);
    events := events + listing;
    var listed := Exec(site, s, events).value;
    var gets, hist := GetsRun(site, listed, remote, sync.diff.Changed());
    ExecSeq(site, s, events, gets);
    events := events + gets;
    var fetched := Exec(site, s, events).value;
    assert sync.diff.Changed() - sync.diff.Changed() == {};
    DoPrune(site, fetched);
    t := fetched.(task := Staged(fetched.task.work.(staged := Restrict(fetched.task.work.staged, fetched.task.work.next.files.Keys))));
    Then(site, s, events, fetched, Stage(Prune), t);
    events := events + [Stage(Prune)];
  }

  // ----- swap and publication

  /** The candidate is what the checks make of the staged listing. */
  predicate Acceptable(site: Site, s: OriginState, remote: Remote, at: nat, missed: bool, c: Candidate)
    requires Stageable(site, s, remote, at)
  {
    var sync := SyncOf(site.originId, remote, s.index, at);
    && c.work == Work(s.index, StagedMirror(StartingMirror(s, missed), remote, sync), sync.index, sync.diff, c.work.from, c.work.upto)
    && Prepared(site, ActiveRegistry(s), c.work, GenerationOf(s.runtime) + 1) == Ok(c)
  }

  lemma ReadyRun(site: Site, s: OriginState, remote: Remote, at: nat, missed: bool, c: Candidate)
    returns (events: seq<Event>, hist: seq<Bucket>, d: Candidate)
    requires s.hist != [] && s.task.Idle? && Stageable(site, s, remote, at) && Acceptable(site, s, remote, at, missed, c)
    ensures hist != [] && Acceptable(site, s, remote, at, missed, d) && d.config == c.config && d.registry == c.registry
    ensures Exec(site, s, events) == Some(s.(hist := hist, task := Ready(d)))
  {
    var t;
    events, t := StagingRun(site, s, remote, at, missed);
    SpanDoesNotMatter(site, ActiveRegistry(s), c.work, t.task.work, GenerationOf(s.runtime) + 1);
    d := Candidate(t.task.work, c.config, c.registry, c.number);
    DoPrepare(site, t, d);
    Then(site, s, events, t, Stage(Prepare), s.(hist := t.hist, task := Ready(d)));
    events, hist := events + [Stage(Prepare)], t.hist;
  }

  /** The checks do not look at when the listing was read. */
  lemma SpanDoesNotMatter(site: Site, active: Registry, w: Work, v: Work, number: nat)
    requires v == w.(from := v.from, upto := v.upto) && Prepared(site, active, w, number).Ok?
    ensures var c := Prepared(site, active, w, number).value;
      Prepared(site, active, v, number) == Ok(Candidate(v, c.config, c.registry, c.number)) && c.number == number
  {
  }

  /** Up to the new mirror being live. */
  lemma LiveRun(site: Site, s: OriginState, remote: Remote, at: nat, missed: bool, c: Candidate)
    returns (events: seq<Event>, t: OriginState, d: Candidate)
    requires s.hist != [] && s.task.Idle? && Stageable(site, s, remote, at) && Acceptable(site, s, remote, at, missed, c)
    ensures Exec(site, s, events) == Some(t) && t.hist != []
    ensures Acceptable(site, s, remote, at, missed, d) && d.config == c.config && d.registry == c.registry
    ensures t == AfterMoveNew(s.(hist := t.hist, live := None, backup := t.backup), d)
  {
    var hist;
    events, hist, d := ReadyRun(site, s, remote, at, missed, c);
    var ready := s.(hist := hist, task := Ready(d));
    var aside := if s.live.Some? then ready.(live := None, backup := s.live, task := OldMoved(d)) else ready;
    if s.live.Some? {
      DoSwap(site, ready, MoveOld);
      Then(site, s, events, ready, Swap(MoveOld), aside);
      events := events + [Swap(MoveOld)];
    }
    t := AfterMoveNew(aside, d);
    DoSwap(site, aside, MoveNew);
    Then(site, s, events, aside, Swap(MoveNew), t);
    events := events + [Swap(MoveNew)];
  }

  /** `t` shows a finished refresh of `s`: four stores and the mirror are the candidate's. */
  predicate RefreshedAfter(site: Site, s: OriginState, c: Candidate, outcome: PurgeOutcome, now: nat, t: OriginState) {
    && t.hist != [] && t.task.Idle?
    && t.live == Some(c.work.staged) && t.edge == Some(c.config) && t.templates == Some(c.registry) && t.index == Some(c.work.next)
    && t.runtime == Some(AfterPurge(AfterSnapshot(s.runtime, SnapshotOf(site, c, now)), outcome, now))
    && |t.gens| == |s.gens| + 1 && t.gens[..|s.gens|] == s.gens
    && var g := t.gens[|s.gens|];
       g.mirror == c.work.staged && g.config == c.config && g.registry == c.registry && g.index == c.work.next
  }

  lemma RefreshRun(site: Site, s: OriginState, remote: Remote, at: nat, missed: bool, c: Candidate, outcome: PurgeOutcome, now: nat)
    returns (events: seq<Event>, t: OriginState)
    requires s.hist != [] && s.task.Idle? && Stageable(site, s, remote, at) && Acceptable(site, s, remote, at, missed, c)
    requires outcome.NothingToPurge? || c.work.diff.HasChanges()
    ensures Exec(site, s, events) == Some(t) && RefreshedAfter(site, s, c, outcome, now, t)
  {
    var u, d;
    events, u, d := LiveRun(site, s, remote, at, missed, c);
    var publication := PublicationRun(site, u, d, outcome, now);
    ExecSeq(site, s, events, publication);
    events := events + publication;
    t := Exec(site, s, events).value;
    SameCandidate(site, d, c, now);
  }

  lemma SameCandidate(site: Site, d: Candidate, c: Candidate, now: nat)
    requires d.number == c.number && d.work == c.work.(from := d.work.from, upto := d.work.upto)
    ensures SnapshotOf(site, d, now) == SnapshotOf(site, c, now)
  {
  }

  lemma PublicationRun(site: Site, s: OriginState, c: Candidate, outcome: PurgeOutcome, now: nat) returns (events: seq<Event>)
    requires s.hist != [] && s.task == NewLive(c) && (outcome.NothingToPurge? || c.work.diff.HasChanges())
    ensures Exec(site, s, events).Some?
    ensures var t := Exec(site, s, events).value;
      t == s.(backup := None, edge := Some(c.config), templates := Some(c.registry), index := Some(c.work.next), task := Idle, tags := t.tags,
              runtime := Some(AfterPurge(AfterSnapshot(s.runtime, SnapshotOf(site, c, now)), outcome, now)))
  {
    events := PublicationHalf(site, s, c);
    var half := Exec(site, s, events).value;
    var indexed := PublicationStep(site, half, SetIndex).value;
    DoPublish(site, half, SetIndex);
    Then(site, s, events, half, Publish(SetIndex), indexed);
    events := events + [Publish(SetIndex)];
    var shown := PublicationStep(site, indexed, SetSnapshot(now)).value;
    DoPublish(site, indexed, SetSnapshot(now));
    Then(site, s, events, indexed, Publish(SetSnapshot(now)), shown);
    events := events + [Publish(SetSnapshot(now))];
    DoPublish(site, shown, Purge(outcome, now));
    Then(site, s, events, shown, Publish(Purge(outcome, now)), PublicationStep(site, shown, Purge(outcome, now)).value);
    events := events + [Publish(Purge(outcome, now))];
  }

  lemma PublicationHalf(site: Site, s: OriginState, c: Candidate) returns (events: seq<Event>)
    requires s.hist != [] && s.task == NewLive(c)
    ensures Exec(site, s, events).Some?
    ensures var t := Exec(site, s, events).value;
      t == s.(backup := None, edge := Some(c.config), templates := Some(c.registry), task := TemplatesSet(c), tags := t.tags)
  {
    var cleaned := SwapStep(s, CleanBackup).value;
    var edged := PublicationStep(site, cleaned, SetEdge).value;
    events := [];
    DoSwap(site, s, CleanBackup);
    Then(site, s, events, s, Swap(CleanBackup), cleaned);
    events := events + [Swap(CleanBackup)];
    DoPublish(site, cleaned, SetEdge);
    Then(site, s, events, cleaned, Publish(SetEdge), edged);
    events := events + [Publish(SetEdge)];
    DoPublish(site, edged, SetTemplates);
    Then(site, s, events, edged, Publish(SetTemplates), PublicationStep(site, edged, SetTemplates).value);
    events := events + [Publish(SetTemplates)];
  }

  // ----- the ways a refresh fails

  /** Nothing but the reported error has changed. */
  lemma FaultRun(site: Site, s: OriginState, error: RefreshError) returns (events: seq<Event>)
    requires s.hist != [] && s.task.Idle?
    ensures Exec(site, s, events) == Some(s.(runtime := Some(AfterError(s.runtime, site.originId, error))))
  {
    var started, failing := s.(task := Started(s.index)), s.(task := Failing(error));
    events := [];
    DoBegin(site, s);
    Then(site, s, events, s, Stage(Begin), started);
    events := events + [Stage(Begin)];
    DoFault(site, started, error);
    Then(site, s, events, started, Stage(Fault(error)), failing);
    events := events + [Stage(Fault(error))];
    DoPublish(site, failing, Report);
    Then(site, s, events, failing, Publish(Report), s.(runtime := Some(AfterError(s.runtime, site.originId, error))));
    events := events + [Publish(Report)];
  }

  lemma DoFault(site: Site, s: OriginState, error: RefreshError)
    requires s.hist != [] && s.task.Started?
    ensures Apply(site, s, Stage(Fault(error))) == Some(s.(task := Failing(error)))
  {
  }

  /** The old mirror is aside and cannot be moved back. */
  lemma StuckRun(site: Site, s: OriginState, remote: Remote, at: nat, missed: bool, c: Candidate) returns (events: seq<Event>, hist: seq<Bucket>)
    requires s.hist != [] && s.task.Idle? && s.live.Some? && Stageable(site, s, remote, at) && Acceptable(site, s, remote, at, missed, c)
    ensures hist != []
    ensures Exec(site, s, events) ==
      Some(s.(hist := hist, live := None, backup := s.live, runtime := Some(AfterError(s.runtime, site.originId, RestoreFailed))))
  {
    var d;
    events, hist, d := ReadyRun(site, s, remote, at, missed, c);
    var ready := s.(hist := hist, task := Ready(d));
    var aside := ready.(live := None, backup := s.live, task := OldMoved(d));
    var failing := aside.(task := Failing(RestoreFailed));
    DoSwap(site, ready, MoveOld);
    Then(site, s, events, ready, Swap(MoveOld), aside);
    events := events + [Swap(MoveOld)];
    DoSwap(site, aside, MoveNewFault(false));
    Then(site, s, events, aside, Swap(MoveNewFault(false)), failing);
    events := events + [Swap(MoveNewFault(false))];
    DoPublish(site, failing, Report);
    Then(site, s, events, failing, Publish(Report), PublicationStep(site, failing, Report).value);
    events := events + [Publish(Report)];
  }

  /** The new mirror is live, its backup cannot be removed, and the stores are the old ones. */
  predicate LeftLive(site: Site, s: OriginState, c: Candidate, t: OriginState) {
    && t.hist != [] && t.task.Idle? && t.live == Some(c.work.staged)
    && t.edge == s.edge && t.templates == s.templates && t.index == s.index
    && t.runtime == Some(AfterError(s.runtime, site.originId, BackupNotRemoved))
    && |t.gens| == |s.gens| + 1 && t.gens[|s.gens|].mirror == c.work.staged && t.gens[|s.gens|].index == c.work.next
  }

  lemma LeftoverRun(site: Site, s: OriginState, remote: Remote, at: nat, missed: bool, c: Candidate) returns (events: seq<Event>, t: OriginState)
    requires s.hist != [] && s.task.Idle? && Stageable(site, s, remote, at) && Acceptable(site, s, remote, at, missed, c)
    ensures Exec(site, s, events) == Some(t) && LeftLive(site, s, c, t)
  {
    var d;
    var u;
    events, u, d := LiveRun(site, s, remote, at, missed, c);
    var failing := u.(task := Failing(BackupNotRemoved));
    DoSwap(site, u, CleanupFault);
    Then(site, s, events, u, Swap(CleanupFault), failing);
    events := events + [Swap(CleanupFault)];
    t := PublicationStep(site, failing, Report).value;
    DoPublish(site, failing, Report);
    Then(site, s, events, failing, Publish(Report), t);
    events := events + [Publish(Report)];
  }
}
