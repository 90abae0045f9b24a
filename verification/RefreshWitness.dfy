/** Concrete runs, from a fresh process, in which the served mirror contradicts its own listing. */
module RefreshWitness {
  import opened Common
  import opened Text
  import opened Freshness
  import opened LocalMirror
  import opened Edge
  import opened Templates
  import opened MirrorSync
  import opened MirrorStaging
  import opened OriginRuntime
  import opened RefreshProtocol
  import opened RefreshRuns

  const KEY := "k"

  /** An origin without activation barrier; nothing in it is a template or parses as a config. */
  const SITE := Site("web", None, Engine(_ => None, _ => None, _ => false), false)

  /** The key at version `tag`, with a one-byte body. */
  function Version(tag: string, content: Byte): RemoteObject {
    RemoteObject(KEY, [content], Some(tag), None, None, None)
  }

  /** The remote shows one version throughout. */
  function Showing(tag: string, content: Byte): Remote {
    Remote(Ok([RemoteObjectSummary(KEY, None, Some(tag), None, 1, None, None)]),
           key => if key == KEY then Ok(Version(tag, content)) else Err(DiskFailed))
  }

  function Entry(tag: string): OriginFileState {
    OriginFileState(KEY, None, None, 0, 1, Some(tag), None, None)
  }

  function IndexOf(tag: string): OriginFreshnessIndex {
    OriginFreshnessIndex("web", 0, map[KEY := Entry(tag)])
  }

  function Held(tag: string, content: Byte): Mirror {
    map[KEY := Stored(Version(tag, content))]
  }

  function Fresh(): OriginState {
    OriginState([map[]], None, None, None, None, None, None, Idle, [], Tags(0, 0, 0, 0, 0))
  }

  lemma KeyAccepted()
    ensures NormalizeRemoteKey(KEY) == Ok(KEY)
  {
    assert KEY[0] == 'k';
    SplitWithout(KEY, '/');
  }

  lemma Listed(tag: string, content: Byte)
    ensures BuiltIndex("web", Showing(tag, content).list.value, 0) == Ok(IndexOf(tag))
  {
    KeyAccepted();
    var summaries := Showing(tag, content).list.value;
    assert summaries[..0] == [];
    assert ListedFiles(summaries[..0], 0) == Ok(map[]);
    assert ListedFiles(summaries, 0) == Ok(map[][KEY := Entry(tag)]);
  }

  lemma NotATemplate(obj: LocalObject)
    requires obj.metadata.contentType.None?
    ensures PageOf(SITE.engine, KEY, obj) == NotHtml
  {
    assert |ToAsciiLower(KEY)| == 1;
  }

  lemma NoConfig(mirror: Mirror)
    requires mirror.Keys <= {KEY}
    ensures LoadedConfig(SITE.engine, mirror) == Some(DEFAULT_EDGE_CONFIG)
  {
    NoConfigAmong(mirror, EDGE_CONFIG_KEYS);
  }

  lemma {:induction false} NoConfigAmong(mirror: Mirror, candidates: seq<string>)
    requires mirror.Keys <= {KEY} && forall c :: c in candidates ==> |c| > 1
    ensures ConfigAmong(SITE.engine, mirror, candidates) == Some(DEFAULT_EDGE_CONFIG)
  {
    if candidates != [] {
      assert candidates[0] !in mirror.Keys;
      NoConfigAmong(mirror, candidates[1..]);
    }
  }

  /** No refresh under way, no template, and at most the one key anywhere. */
  predicate Plain(s: OriginState) {
    && s.hist != [] && s.task.Idle? && ActiveRegistry(s) == map[]
    && (s.index.Some? ==> KEY in s.index.value.files && s.index.value.files[KEY].etag.Some? && s.index == Some(IndexOf(s.index.value.files[KEY].etag.value)))
    && (s.live.Some? ==> OneKey(s.live.value))
  }

  predicate OneKey(mirror: Mirror) {
    mirror.Keys <= {KEY} && forall k :: k in mirror ==> mirror[k].metadata.contentType.None?
  }

  /** What a refresh that sees version `tag` stages. */
  function StagedHere(s: OriginState, tag: string, content: Byte, missed: bool): Mirror {
    if s.index == Some(IndexOf(tag)) then StartingMirror(s, missed) else Held(tag, content)
  }

  lemma Skips(previous: Option<OriginFreshnessIndex>, tag: string)
    requires previous == Some(IndexOf(tag))
    ensures DiffOf(previous, IndexOf(tag)).Changed() == {}
  {
  }

  lemma Fetches(previous: Option<OriginFreshnessIndex>, tag: string)
    requires previous.None? || exists other: string :: other != tag && previous == Some(IndexOf(other))
    ensures DiffOf(previous, IndexOf(tag)).Changed() == {KEY}
  {
    var d := DiffOf(previous, IndexOf(tag));
    if previous.Some? {
      var other: string :| other != tag && previous == Some(IndexOf(other));
      assert !SameSourceState(Entry(other), Entry(tag));
      assert KEY in d.modified;
    } else {
      assert KEY in IndexOf(tag).files.Keys && KEY in d.added;
    }
    assert forall k :: k in IndexOf(tag).files ==> k == KEY;
  }

  lemma StagesHere(s: OriginState, tag: string, content: Byte, missed: bool, n: nat)
    requires Plain(s)
    ensures var diff := DiffOf(s.index, IndexOf(tag));
      && (diff.Changed() == {} || diff.Changed() == {KEY})
      && StagedMirror(StartingMirror(s, missed), Showing(tag, content), StagedSync(IndexOf(tag), diff, n)) == StagedHere(s, tag, content, missed)
    ensures OneKey(StagedHere(s, tag, content, missed))
  {
    if s.index == Some(IndexOf(tag)) {
      Skips(s.index, tag);
    } else {
      if s.index.Some? {
        var other := s.index.value.files[KEY].etag.value;
        assert other != tag && s.index == Some(IndexOf(other));
      }
      Fetches(s.index, tag);
    }
  }

  lemma NoTemplates(staged: Mirror, diff: OriginFreshnessDiff)
    requires OneKey(staged)
    ensures UpdatedRegistry(SITE.engine, map[], staged, diff) == Some(map[])
  {
    forall k | k in staged ensures PageOf(SITE.engine, k, staged[k]) == NotHtml {
      NotATemplate(staged[k]);
    }
  }

  lemma Prepares(previous: Option<OriginFreshnessIndex>, staged: Mirror, index: OriginFreshnessIndex, diff: OriginFreshnessDiff, number: nat)
    requires OneKey(staged)
    ensures var w := Work(previous, staged, index, diff, 0, 1);
      Prepared(SITE, map[], w, number) == Ok(Candidate(w, DEFAULT_EDGE_CONFIG, map[], number))
  {
    NoConfig(staged);
    NoTemplates(staged, diff);
  }

  lemma Delivered(tag: string, content: Byte)
    ensures Delivers(Showing(tag, content), IndexOf(tag).files, KEY)
  {
    KeyAccepted();
  }

  /** A refresh that sees version `tag` passes every check with no template. */
  lemma Accepts(s: OriginState, tag: string, content: Byte, missed: bool) returns (c: Candidate)
    requires Plain(s)
    ensures Stageable(SITE, s, Showing(tag, content), 0) && Acceptable(SITE, s, Showing(tag, content), 0, missed, c)
    ensures c.registry == map[] && c.work.next == IndexOf(tag) && c.work.staged == StagedHere(s, tag, content, missed)
  {
    Listed(tag, content);
    Delivered(tag, content);
    var sync := SyncOf("web", Showing(tag, content), s.index, 0);
    StagesHere(s, tag, content, missed, sync.downloaded);
    var staged := StagedHere(s, tag, content, missed);
    Prepares(s.index, staged, sync.index, sync.diff, GenerationOf(s.runtime) + 1);
    c := Candidate(Work(s.index, staged, sync.index, sync.diff, 0, 1), DEFAULT_EDGE_CONFIG, map[], GenerationOf(s.runtime) + 1);
  }

  lemma OneRefresh(s: OriginState, tag: string, content: Byte, missed: bool) returns (events: seq<Event>, t: OriginState)
    requires Plain(s)
    ensures Exec(SITE, s, events) == Some(t) && Plain(t) && |t.gens| == |s.gens| + 1
    ensures t.live == Some(StagedHere(s, tag, content, missed)) && t.index == Some(IndexOf(tag))
    ensures t.gens[|s.gens|].mirror == StagedHere(s, tag, content, missed) && t.gens[|s.gens|].index == IndexOf(tag)
  {
    var c := Accepts(s, tag, content, missed);
    StagesHere(s, tag, content, missed, 0);
    events, t := RefreshRun(SITE, s, Showing(tag, content), 0, missed, c, NothingToPurge, 0);
  }

  lemma LostRefresh(s: OriginState, tag: string, content: Byte) returns (events: seq<Event>, t: OriginState)
    requires Plain(s)
    ensures Exec(SITE, s, events) == Some(t) && Plain(t) && |t.gens| == |s.gens| + 1
    ensures t.live == Some(StagedHere(s, tag, content, false)) && t.index == s.index
  {
    var c := Accepts(s, tag, content, false);
    StagesHere(s, tag, content, false, 0);
    events, t := LeftoverRun(SITE, s, Showing(tag, content), 0, false, c);
  }

  /** A first refresh, and a second one whose look at the mirror fails: the remote has not changed,
      nothing is downloaded, and the origin is left with an empty mirror under an index of one key. */
  lemma MissedCopyRun() returns (events: seq<Event>)
    ensures Initial(Fresh()) && Exec(SITE, Fresh(), events).Some?
    ensures var t := Exec(SITE, Fresh(), events).value;
      && t.task.Idle? && |t.gens| == 2 && t.live == Some(map[]) && t.index == Some(IndexOf("old"))
      && t.gens[1].mirror == map[] && !Agrees(t.gens[1].index.files, t.gens[1].mirror)
  {
    var t, u, more;
    events, t := OneRefresh(Fresh(), "old", 1, false);
    more, u := OneRefresh(t, "old", 1, true);
    ExecSeq(SITE, Fresh(), events, more);
    events := events + more;
    NothingIsNotOld();
  }

  /** A first refresh, a second one of a new version whose backup cannot be removed, and a third after
      the remote has gone back to the first version: the third succeeds, downloads nothing, and serves
      the new body under the old entry. */
  lemma CleanupFaultRun() returns (events: seq<Event>)
    ensures Initial(Fresh()) && Exec(SITE, Fresh(), events).Some?
    ensures var t := Exec(SITE, Fresh(), events).value;
      && t.task.Idle? && |t.gens| == 3 && t.live == Some(Held("new", 2)) && t.index == Some(IndexOf("old"))
      && t.gens[2].mirror == Held("new", 2) && !Agrees(t.gens[2].index.files, t.gens[2].mirror)
  {
    var t, u, v, more;
    events, t := OneRefresh(Fresh(), "old", 1, false);
    NewIsNotOld();
    more, u := LostRefresh(t, "new", 2);
    ExecSeq(SITE, Fresh(), events, more);
    events := events + more;
    more, v := OneRefresh(u, "old", 1, false);
    ExecSeq(SITE, Fresh(), events, more);
    events := events + more;
  }

  lemma NothingIsNotOld()
    ensures !Agrees(IndexOf("old").files, map[])
  {
    assert KEY in IndexOf("old").files.Keys;
  }

  lemma NewIsNotOld()
    ensures IndexOf("old") != IndexOf("new") && !Agrees(IndexOf("old").files, Held("new", 2))
  {
    assert IndexOf("old").files[KEY].etag != IndexOf("new").files[KEY].etag;
    assert KEY in IndexOf("old").files && !Matches(Entry("old"), Held("new", 2)[KEY]);
  }
}
