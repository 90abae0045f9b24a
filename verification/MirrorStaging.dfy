/** A refresh on disk: prepare a staging directory, stage into it, swap it in. */
module MirrorStaging {
  import opened Common
  import opened Text
  import opened Freshness
  import opened LocalMirror
  import opened FileTree
  import opened TreeWalk
  import opened TreeCopy
  import opened MirrorLayout
  import opened MirrorPrune
  import opened MirrorSync
  import opened MirrorPlaces
  import opened MirrorSwap
  import opened OriginRuntime

  /** `changed_paths`: added keys in order, then modified ones. */
  function ChangedPaths(diff: OriginFreshnessDiff): seq<string> {
    InOrder(diff.added) + InOrder(diff.modified)
  }

  datatype StagedSync = StagedSync(index: OriginFreshnessIndex, diff: OriginFreshnessDiff, downloaded: nat)

  /** What staging makes of the objects held: the changed ones fetched, the rest kept, only listed ones left. */
  function StagedMirror(live: Mirror, remote: Remote, sync: StagedSync): Mirror {
    Restrict(live + Fetched(remote, sync.diff.Changed()), sync.index.files.Keys)
  }

  /** The staging of one listing: its index, its diff and the count of downloads. */
  function SyncOf(originId: string, remote: Remote, previous: Option<OriginFreshnessIndex>, at: nat): StagedSync
    requires remote.list.Ok? && BuiltIndex(originId, remote.list.value, at).Ok?
  {
    var index := BuiltIndex(originId, remote.list.value, at).value;
    var diff := DiffOf(previous, index);
    StagedSync(index, diff, |diff.added| + |diff.modified|)
  }

  /** The index, the diff and the count come from the listing, and every changed key was delivered as listed. */
  ghost predicate StagedFromRemote(originId: string, remote: Remote, previous: Option<OriginFreshnessIndex>, at: nat, sync: StagedSync) {
    && remote.list.Ok? && BuiltIndex(originId, remote.list.value, at).Ok?
    && sync == SyncOf(originId, remote, previous, at)
    && AllDelivered(remote, sync.index.files, sync.diff.Changed())
  }

  ghost predicate ListsCanonicalKeys(remote: Remote) {
    remote.list.Ok? ==> forall s :: s in remote.list.value && NormalizeRemoteKey(s.key).Ok? ==> Canonical(s.key)
  }

  /** The keys of a listing, accepted or not. */
  function ListedKeys(remote: Remote): set<string> {
    if remote.list.Ok? then set s | s in remote.list.value :: s.key else {}
  }

  lemma ListedKeysCanonical(remote: Remote, at: nat)
    requires ListsCanonicalKeys(remote) && remote.list.Ok? && ListedFiles(remote.list.value, at).Ok?
    ensures CanonicalKeys(ListedFiles(remote.list.value, at).value.Keys)
    ensures ListedFiles(remote.list.value, at).value.Keys == ListedKeys(remote)
  {
    ListedFilesMeaning(remote.list.value, at);
  }

  lemma ChangedPathsMeaning(diff: OriginFreshnessDiff)
    ensures Elements(ChangedPaths(diff)) == diff.Changed()
    ensures |ChangedPaths(diff)| == |diff.added| + |diff.modified|
  {
    var order := ChangedPaths(diff);
    forall k ensures k in Elements(order) <==> k in diff.Changed() {
      assert k in order <==> k in InOrder(diff.added) || k in InOrder(diff.modified);
    }
  }

  lemma ChangedPathsOrdered(diff: OriginFreshnessDiff)
    requires diff.added !! diff.modified && CanonicalKeys(diff.Changed()) && PrefixFree(diff.Changed())
    ensures Ordered(ChangedPaths(diff))
  {
    var order := ChangedPaths(diff);
    ChangedPathsMeaning(diff);
    InOrderAscends(diff.added);
    InOrderAscends(diff.modified);
    forall i, j | 0 <= i < j < |order| ensures order[i] != order[j] {
      PathsDiffer(diff, i, j);
    }
    OrderedFrom(diff.Changed(), order);
  }

  lemma OrderedFrom(keys: set<string>, order: seq<string>)
    requires CanonicalKeys(keys) && PrefixFree(keys) && Elements(order) == keys
    requires forall i, j :: 0 <= i < j < |order| ==> order[i] != order[j]
    ensures Ordered(order)
  {
    forall i | 0 <= i < |order| ensures order[i] in keys {
      assert order[i] in Elements(order);
    }
    forall i, j | 0 <= i < j < |order| ensures Unnested(order[i], order[j]) {
      NestedNot(keys, order[i], order[j]);
    }
  }

  lemma NestedNot(keys: set<string>, a: string, b: string)
    requires PrefixFree(keys) && a in keys && b in keys && a != b
    ensures Unnested(a, b)
  {
  }

  lemma PathsDiffer(diff: OriginFreshnessDiff, i: nat, j: nat)
    requires diff.added !! diff.modified && Ascending(InOrder(diff.added)) && Ascending(InOrder(diff.modified))
    requires i < j < |ChangedPaths(diff)|
    ensures ChangedPaths(diff)[i] != ChangedPaths(diff)[j]
  {
    var added, modified := InOrder(diff.added), InOrder(diff.modified);
    if i < |added| <= j {
      assert added[i] in added && modified[j - |added|] in modified;
      assert added[i] in diff.added && modified[j - |added|] in diff.modified;
    }
  }

  lemma RemovedBeside(t: Tree, w: Tree, root: Path)
    requires OnlyRemoved(t, w, root)
    ensures SameBeside(t, w, root) && (IsDir(t, root) ==> IsDir(w, root))
  {
    assert root in t <==> root in t.Keys;
    assert root in w <==> root in w.Keys;
  }

  lemma BodyPrunable(t: Tree, root: Path, hash: string -> Digest, mirror: Mirror, f: Path)
    requires CanonicalKeys(mirror.Keys) && IsBody(root, mirror, f) && MetadataShaped(t, root)
    ensures root <= f && Prunable(t, root, hash, f)
  {
    var k :| k in mirror && f == ObjectPath(root, k);
    KeyOfObjectPath(root, k);
    assert MetadataDir(root) <= SidecarAt(root, hash(k));
  }

  lemma AllBodiesPrunable(t: Tree, root: Path, hash: string -> Digest, mirror: Mirror)
    requires WellFormed(t) && IsDir(t, root) && Holds(t, root, hash, mirror) && MetadataShaped(t, root)
    ensures AllPrunable(t, root, hash, WalkFiles(t, WalkDirs(t, root, Some(MetadataDir(root)))))
  {
    assert !IsFile(t, MetadataDir(root));
    forall f | f in WalkFiles(t, WalkDirs(t, root, Some(MetadataDir(root)))) ensures root <= f && Prunable(t, root, hash, f) {
      VisitedAreBodies(t, root, hash, mirror, f);
      BodyPrunable(t, root, hash, mirror, f);
    }
  }

  /** Both prunes: what is left is the listed part of what was held. */
  method PruneStaged(fs: FileSystem, root: Path, hash: string -> Digest, keys: set<string>, ghost mirror: Mirror) returns (r: Result<(), RefreshError>)
    requires WellFormed(fs.tree) && IsDir(fs.tree, root) && InjectiveOn(hash, mirror.Keys) && CanonicalKeys(keys) && Holds(fs.tree, root, hash, mirror)
    modifies fs
    ensures WellFormed(fs.tree) && IsDir(fs.tree, root) && OnlyRemoved(old(fs.tree), fs.tree, root)
    ensures r.Ok? ==> Holds(fs.tree, root, hash, Restrict(mirror, keys))
    ensures r.Ok? && keys <= mirror.Keys ==> Image(fs.tree, root, hash, Restrict(mirror, keys))
    ensures old(fs.schedule) == [] && MetadataShaped(old(fs.tree), root) ==> r.Ok? && fs.schedule == []
  {
    ghost var t := fs.tree;
    if MetadataShaped(t, root) {
      AllBodiesPrunable(t, root, hash, mirror);
    }
    r := RemoveDeletedObjects(fs, root, hash, keys);
    RemovedBeside(t, fs.tree, root);
    if r.Err? {
      return;
    }
    ghost var u := fs.tree;
    NoMetadataFile(t, root);
    MetadataDirStays(t, u, root);
    r := RemoveOrphanMetadataSidecars(fs, root, hash, keys);
    OnlyRemovedHigher(u, fs.tree, root, MetadataDir(root));
    OnlyRemovedTransitive(t, u, fs.tree, root);
    RemovedBeside(t, fs.tree, root);
    if r.Ok? {
      PrunedImage(t, u, fs.tree, root, hash, keys, mirror);
    }
  }

  lemma MetadataDirStays(t: Tree, u: Tree, root: Path)
    requires OnlyRemoved(t, u, root) && !IsFile(t, MetadataDir(root))
    ensures MetadataDir(root) in u ==> IsDir(u, MetadataDir(root))
  {
    assert MetadataDir(root) in u <==> MetadataDir(root) in u.Keys;
  }

  /** When a staging succeeds on a disk that works, told before it starts. */
  ghost predicate CanStage(t: Tree, root: Path, originId: string, remote: Remote, previous: Option<OriginFreshnessIndex>, at: nat) {
    && remote.list.Ok? && BuiltIndex(originId, remote.list.value, at).Ok?
    && var index := BuiltIndex(originId, remote.list.value, at).value;
       var changed := DiffOf(previous, index).Changed();
       AllDelivered(remote, index.files, changed) && AllFit(t, root, changed)
  }

  /** No changed key is a directory on the way to another. */
  ghost predicate ChangesUnnested(originId: string, remote: Remote, previous: Option<OriginFreshnessIndex>, at: nat) {
    remote.list.Ok? && BuiltIndex(originId, remote.list.value, at).Ok? ==>
      PrefixFree(DiffOf(previous, BuiltIndex(originId, remote.list.value, at).value).Changed())
  }

  /** The downloads of one listing. */
  method DownloadListed(fs: FileSystem, root: Path, hash: string -> Digest, remote: Remote, files: Files, diff: OriginFreshnessDiff, ghost live: Mirror)
    returns (r: Result<nat, RefreshError>)
    requires WellFormed(fs.tree) && IsDir(fs.tree, root) && root != [] && InjectiveOn(hash, live.Keys + files.Keys) && Holds(fs.tree, root, hash, live)
    requires diff.Changed() <= files.Keys && diff.added !! diff.modified && CanonicalKeys(files.Keys)
    modifies fs
    ensures WellFormed(fs.tree) && IsDir(fs.tree, root) && SameBeside(old(fs.tree), fs.tree, root)
    ensures r.Ok? ==> r.value == |diff.added| + |diff.modified| && AllDelivered(remote, files, diff.Changed())
    ensures r.Ok? ==> StagedTree(old(fs.tree), fs.tree, root, hash, live + Fetched(remote, diff.Changed()), diff.Changed())
    ensures old(fs.schedule) == [] ==> fs.schedule == []
    ensures old(fs.schedule) == [] && MetadataShaped(old(fs.tree), root) && PrefixFree(diff.Changed()) ==>
      (r.Ok? <==> AllDelivered(remote, files, diff.Changed()) && AllFit(old(fs.tree), root, diff.Changed()))
  {
    ghost var t := fs.tree;
    var order := ChangedPaths(diff);
    ChangedPathsMeaning(diff);
    ForetellStaging(t, root, hash, remote, files, diff);
    r := DownloadChanged(fs, root, hash, remote, files, order);
    if r.Ok? {
      InjectiveOnFewer(hash, live.Keys + diff.Changed(), live.Keys + files.Keys);
      DownloadsStage(t, root, hash, remote, files, order, live);
    }
  }

  /** Downloads and prunes for one listing. */
  method StageListed(fs: FileSystem, root: Path, hash: string -> Digest, remote: Remote, files: Files, diff: OriginFreshnessDiff, ghost live: Mirror)
    returns (r: Result<nat, RefreshError>)
    requires WellFormed(fs.tree) && IsDir(fs.tree, root) && root != [] && InjectiveOn(hash, live.Keys + files.Keys) && Holds(fs.tree, root, hash, live)
    requires diff.Changed() <= files.Keys && diff.added !! diff.modified && CanonicalKeys(files.Keys)
    modifies fs
    ensures WellFormed(fs.tree) && IsDir(fs.tree, root) && SameBeside(old(fs.tree), fs.tree, root)
    ensures r.Ok? ==> r.value == |diff.added| + |diff.modified| && AllDelivered(remote, files, diff.Changed())
    ensures r.Ok? ==>
      StagedTree(old(fs.tree), fs.tree, root, hash, Restrict(live + Fetched(remote, diff.Changed()), files.Keys), diff.Changed())
    ensures r.Ok? && files.Keys <= live.Keys + diff.Changed() ==>
      Image(fs.tree, root, hash, Restrict(live + Fetched(remote, diff.Changed()), files.Keys))
    ensures old(fs.schedule) == [] && MetadataShaped(old(fs.tree), root) && PrefixFree(diff.Changed()) ==>
      && (r.Ok? <==> AllDelivered(remote, files, diff.Changed()) && AllFit(old(fs.tree), root, diff.Changed()))
      && (r.Ok? ==> fs.schedule == [])
  {
    ghost var t := fs.tree;
    r := DownloadListed(fs, root, hash, remote, files, diff, live);
    if r.Err? {
      return;
    }
    ghost var u, fetched := fs.tree, live + Fetched(remote, diff.Changed());
    FetchedKeys(remote, files, diff.Changed());
    InjectiveOnFewer(hash, fetched.Keys, live.Keys + files.Keys);
    var pruned := PruneStaged(fs, root, hash, files.Keys, fetched);
    RemovedBeside(u, fs.tree, root);
    BesideTransitive(t, u, fs.tree, root, root);
    if pruned.Err? {
      return Err(pruned.error);
    }
    RemovalsStage(t, u, fs.tree, root, hash, fetched, Restrict(fetched, files.Keys), diff.Changed());
  }

  lemma FetchedKeys(remote: Remote, files: Files, keys: set<string>)
    requires AllDelivered(remote, files, keys)
    ensures Fetched(remote, keys).Keys == keys
  {
    forall k | k in keys ensures remote.get(k).Ok? { assert Delivers(remote, files, k); }
  }

  lemma ForetellStaging(t: Tree, root: Path, hash: string -> Digest, remote: Remote, files: Files, diff: OriginFreshnessDiff)
    requires WellFormed(t) && IsDir(t, root) && root != []
    requires diff.Changed() <= files.Keys && diff.added !! diff.modified && CanonicalKeys(files.Keys)
    ensures MetadataShaped(t, root) && PrefixFree(diff.Changed()) ==>
      var after := AfterDownloads(t, root, hash, remote, files, ChangedPaths(diff));
      && (after.Some? <==> AllDelivered(remote, files, diff.Changed()) && AllFit(t, root, diff.Changed()))
      && (after.Some? ==> MetadataShaped(after.value, root))
  {
    if MetadataShaped(t, root) && PrefixFree(diff.Changed()) {
      var order := ChangedPaths(diff);
      ChangedPathsMeaning(diff);
      ChangedPathsOrdered(diff);
      DownloadsSucceedExactly(t, root, hash, remote, files, order);
      if AfterDownloads(t, root, hash, remote, files, order).Some? {
        assert CanonicalKeys(Elements(order));
        DownloadsKeepShape(t, root, hash, remote, files, order);
      }
    }
  }

  /** Stages one listing into a directory that holds `live`: on success one body and one sidecar per
      listed key, with the kept contents for unmodified keys and the fetched ones for the others,
      and no other file; nothing outside the directory is touched. Directories stay, so a key that
      was once a directory on the way to another one can never be staged (`KeyOfDirectoryBlocked`). */
  method StageOriginDir(fs: FileSystem, root: Path, hash: string -> Digest, originId: string, remote: Remote,
                        previous: Option<OriginFreshnessIndex>, at: nat, ghost live: Mirror)
    returns (r: Result<StagedSync, RefreshError>)
    requires WellFormed(fs.tree) && IsDir(fs.tree, root) && root != [] && InjectiveOn(hash, live.Keys + ListedKeys(remote)) && Holds(fs.tree, root, hash, live)
    requires ListsCanonicalKeys(remote)
    modifies fs
    ensures WellFormed(fs.tree) && IsDir(fs.tree, root) && SameBeside(old(fs.tree), fs.tree, root)
    ensures r.Ok? ==> StagedFromRemote(originId, remote, previous, at, r.value)
    ensures r.Ok? ==> StagedTree(old(fs.tree), fs.tree, root, hash, StagedMirror(live, remote, r.value), r.value.diff.Changed())
    ensures r.Ok? && r.value.diff.unmodified <= live.Keys ==> Image(fs.tree, root, hash, StagedMirror(live, remote, r.value))
    ensures old(fs.schedule) == [] && MetadataShaped(old(fs.tree), root) && ChangesUnnested(originId, remote, previous, at) ==>
      (r.Ok? <==> CanStage(old(fs.tree), root, originId, remote, previous, at)) && (r.Ok? ==> fs.schedule == [])
  {
    ghost var t := fs.tree;
    MadeAlready(t, root);
    SameBesideItself(t, root);
    var made := fs.CreateDirAll(root);
    if !made {
      return Err(DiskFailed);
    }
    if remote.list.Err? {
      return Err(remote.list.error);
    }
    var built := BuildOriginIndex(originId, remote.list.value, at);
    if built.Err? {
      return Err(InvalidListing(built.error));
    }
    r := StageIndexed(fs, root, hash, originId, remote, previous, at, built.value, live);
  }

  method StageIndexed(fs: FileSystem, root: Path, hash: string -> Digest, originId: string, remote: Remote,
                      previous: Option<OriginFreshnessIndex>, at: nat, index: OriginFreshnessIndex, ghost live: Mirror)
    returns (r: Result<StagedSync, RefreshError>)
    requires WellFormed(fs.tree) && IsDir(fs.tree, root) && root != [] && InjectiveOn(hash, live.Keys + ListedKeys(remote)) && Holds(fs.tree, root, hash, live)
    requires ListsCanonicalKeys(remote) && remote.list.Ok? && BuiltIndex(originId, remote.list.value, at) == Ok(index)
    modifies fs
    ensures WellFormed(fs.tree) && IsDir(fs.tree, root) && SameBeside(old(fs.tree), fs.tree, root)
    ensures r.Ok? ==> StagedFromRemote(originId, remote, previous, at, r.value)
    ensures r.Ok? ==> StagedTree(old(fs.tree), fs.tree, root, hash, StagedMirror(live, remote, r.value), r.value.diff.Changed())
    ensures r.Ok? && r.value.diff.unmodified <= live.Keys ==> Image(fs.tree, root, hash, StagedMirror(live, remote, r.value))
    ensures old(fs.schedule) == [] && MetadataShaped(old(fs.tree), root) && ChangesUnnested(originId, remote, previous, at) ==>
      (r.Ok? <==> CanStage(old(fs.tree), root, originId, remote, previous, at)) && (r.Ok? ==> fs.schedule == [])
  {
    ListedKeysCanonical(remote, at);
    var diff := DiffOriginIndexes(previous, index);
    DiffCovers(previous, index);
    StagingOfIndex(fs.tree, root, originId, remote, previous, at, index, diff);
    var downloaded := StageListed(fs, root, hash, remote, index.files, diff, live);
    if downloaded.Err? {
      return Err(downloaded.error);
    }
    return Ok(StagedSync(index, diff, downloaded.value));
  }

  lemma StagingOfIndex(t: Tree, root: Path, originId: string, remote: Remote, previous: Option<OriginFreshnessIndex>, at: nat,
                       index: OriginFreshnessIndex, diff: OriginFreshnessDiff)
    requires remote.list.Ok? && BuiltIndex(originId, remote.list.value, at) == Ok(index) && diff == DiffOf(previous, index)
    ensures CanStage(t, root, originId, remote, previous, at) <==>
      AllDelivered(remote, index.files, diff.Changed()) && AllFit(t, root, diff.Changed())
    ensures ChangesUnnested(originId, remote, previous, at) <==> PrefixFree(diff.Changed())
    ensures SyncOf(originId, remote, previous, at) == StagedSync(index, diff, |diff.added| + |diff.modified|)
  {
  }

  lemma MadeAlready(t: Tree, p: Path)
    requires WellFormed(t) && IsDir(t, p)
    ensures WithDirs(t, p) == t && !Conflict(t, p)
  {
    forall q ensures (q in WithDirs(t, p) <==> q in t) && (q in t ==> WithDirs(t, p)[q] == t[q]) {
      WithDirsAt(t, p, q);
      if q <= p { AncestorExists(t, p, q); }
    }
    forall i | 0 <= i <= |p| ensures !IsFile(t, p[..i]) { AncestorExists(t, p, p[..i]); }
  }

  lemma DiffCovers(previous: Option<OriginFreshnessIndex>, next: OriginFreshnessIndex)
    ensures var d := DiffOf(previous, next);
      d.Changed() <= next.files.Keys && d.added !! d.modified && next.files.Keys == d.unmodified + d.Changed()
  {
    DiffSets(KnownFiles(previous), next.files);
  }

  // ----- preparing the staging directory

  lemma RemovedBesideTree(t: Tree, u: Tree, root: Path)
    requires u == WithoutTree(t, root) || exists gone :: u == HalfRemoved(t, root, gone)
    ensures SameBeside(t, u, root)
  {
  }

  ghost predicate Vacant(t: Tree, root: Path) {
    forall q :: q in t ==> !(root <= q)
  }

  lemma ClearedTree(t: Tree, origin: Path, staging: Path)
    requires !(staging <= origin) && !(origin <= staging)
    ensures var u := WithoutTree(t, staging);
      && Vacant(u, staging)
      && (origin in u <==> origin in t) && (origin in t ==> u[origin] == t[origin]) && Subtree(u, origin) == Subtree(t, origin)
  {
    var u := WithoutTree(t, staging);
    forall r ensures (r in Subtree(u, origin) <==> r in Subtree(t, origin)) && (r in Subtree(t, origin) ==> Subtree(u, origin)[r] == Subtree(t, origin)[r]) {
      SubtreeAt(t, origin, r);
      SubtreeAt(u, origin, r);
      assert !(staging <= origin + r) by {
        if staging <= origin + r { PrefixesCompare(staging, origin, origin + r); }
      }
    }
  }

  lemma GraftedContents(t: Tree, d: Path, sub: Tree)
    requires EmptyAt(t, d) && IsDir(t, d) && [] in sub && sub[[]].Dir?
    ensures Subtree(Graft(t, d, sub), d) == sub
  {
    var g := Graft(t, d, sub);
    forall r ensures (r in Subtree(g, d) <==> r in sub) && (r in sub ==> Subtree(g, d)[r] == sub[r]) {
      SubtreeAt(g, d, r);
      GraftAt(t, d, sub, d + r);
      assert (d + r)[|d|..] == r;
    }
  }

  lemma EmptyDirContents(t: Tree, d: Path)
    requires EmptyAt(t, d) && IsDir(t, d)
    ensures Subtree(t, d) == map[[] := Dir]
  {
    forall r ensures (r in Subtree(t, d) <==> r == []) && (r in Subtree(t, d) ==> Subtree(t, d)[r] == Dir) {
      SubtreeAt(t, d, r);
      assert d + r == d <==> r == [] by { if r == [] { assert d + r == d; } }
    }
  }

  method ClearDir(fs: FileSystem, root: Path, ghost other: Path) returns (ok: bool)
    requires WellFormed(fs.tree) && root != [] && !(root <= other) && !(other <= root)
    modifies fs
    ensures WellFormed(fs.tree) && SameBeside(old(fs.tree), fs.tree, root)
    ensures ok ==> Vacant(fs.tree, root) && Subtree(fs.tree, other) == Subtree(old(fs.tree), other)
    ensures ok ==> (other in fs.tree <==> other in old(fs.tree)) && (IsDir(old(fs.tree), other) ==> IsDir(fs.tree, other))
    ensures old(fs.schedule) == [] ==> fs.schedule == []
    ensures old(fs.schedule) == [] && !Conflict(old(fs.tree), root) ==> ok && !Conflict(fs.tree, root)
  {
    ghost var t := fs.tree;
    if !Conflict(t, root) {
      ClearedPath(t, root);
    }
    ClearedTree(t, other, root);
    ok := fs.RemoveDirIfExists(root);
    RemovedBesideTree(t, fs.tree, root);
  }

  /** A fresh staging directory with the contents of the mirror. `copied` is whether the mirror was
      found: a failing look at it passes for an absent one, and then the directory is empty. */
  method PrepareStagingDir(fs: FileSystem, origin: Path, staging: Path) returns (ok: bool, copied: bool)
    requires WellFormed(fs.tree) && staging != [] && !(staging <= origin) && !(origin <= staging)
    requires origin in fs.tree ==> IsDir(fs.tree, origin)
    modifies fs
    ensures WellFormed(fs.tree) && SameBeside(old(fs.tree), fs.tree, staging)
    ensures ok ==> IsDir(fs.tree, staging)
    ensures ok ==> Subtree(fs.tree, staging) == if copied then Subtree(old(fs.tree), origin) else map[[] := Dir]
    ensures copied ==> origin in old(fs.tree)
    ensures ok && old(fs.schedule) == [] ==> (copied <==> origin in old(fs.tree))
    ensures old(fs.schedule) == [] && !Conflict(old(fs.tree), staging) ==> ok && fs.schedule == []
  {
    ghost var t := fs.tree;
    copied := false;
    ok := ClearDir(fs, staging, origin);
    if !ok {
      return;
    }
    ghost var cleared := fs.tree;
    ok, copied := FillStagingDir(fs, origin, staging);
    BesideTransitive(t, cleared, fs.tree, staging, staging);
  }

  method FillStagingDir(fs: FileSystem, origin: Path, staging: Path) returns (ok: bool, copied: bool)
    requires WellFormed(fs.tree) && !(staging <= origin) && !(origin <= staging)
    requires Vacant(fs.tree, staging) && (origin in fs.tree ==> IsDir(fs.tree, origin))
    modifies fs
    ensures WellFormed(fs.tree) && SameBeside(old(fs.tree), fs.tree, staging)
    ensures ok ==> IsDir(fs.tree, staging)
    ensures ok ==> Subtree(fs.tree, staging) == if copied then Subtree(old(fs.tree), origin) else map[[] := Dir]
    ensures copied ==> origin in old(fs.tree)
    ensures old(fs.schedule) == [] ==> (copied <==> origin in old(fs.tree))
    ensures old(fs.schedule) == [] && !Conflict(old(fs.tree), staging) ==> ok && fs.schedule == []
  {
    copied := fs.Exists(origin);
    if copied {
      ok := CopyFresh(fs, origin, staging);
    } else {
      ok := MakeFresh(fs, staging);
    }
  }

  method CopyFresh(fs: FileSystem, from: Path, to: Path) returns (ok: bool)
    requires WellFormed(fs.tree) && !(to <= from) && !(from <= to) && IsDir(fs.tree, from)
    requires Vacant(fs.tree, to)
    modifies fs
    ensures WellFormed(fs.tree) && SameBeside(old(fs.tree), fs.tree, to)
    ensures ok ==> IsDir(fs.tree, to) && Subtree(fs.tree, to) == Subtree(old(fs.tree), from)
    ensures old(fs.schedule) == [] && !Conflict(old(fs.tree), to) ==> ok && fs.schedule == []
  {
    FreshDir(fs.tree, from, to);
    ok := CopyDirContents(fs, from, to);
  }

  method MakeFresh(fs: FileSystem, to: Path) returns (ok: bool)
    requires WellFormed(fs.tree) && Vacant(fs.tree, to)
    modifies fs
    ensures WellFormed(fs.tree) && SameBeside(old(fs.tree), fs.tree, to)
    ensures ok ==> IsDir(fs.tree, to) && Subtree(fs.tree, to) == map[[] := Dir]
    ensures old(fs.schedule) == [] ==> fs.schedule == [] && (ok <==> !Conflict(old(fs.tree), to))
  {
    FreshDir(fs.tree, to, to);
    ok := fs.CreateDirAll(to);
  }

  lemma ClearedPath(t: Tree, staging: Path)
    requires staging != [] && !Conflict(t, staging)
    ensures !IsFile(t, staging) && !Conflict(WithoutTree(t, staging), staging)
  {
    assert staging[..|staging|] == staging;
    forall i | 0 <= i <= |staging| ensures !IsFile(WithoutTree(t, staging), staging[..i]) {
      assert !IsFile(t, staging[..i]);
    }
  }

  lemma FreshDir(t: Tree, origin: Path, staging: Path)
    requires Vacant(t, staging)
    ensures var w := WithDirs(t, staging);
      && SameBeside(t, t, staging) && SameBeside(t, w, staging) && IsDir(w, staging) && Subtree(w, staging) == map[[] := Dir]
      && (IsDir(t, origin) ==>
            var g := Graft(w, staging, Subtree(t, origin));
            IsDir(g, staging) && Subtree(g, staging) == Subtree(t, origin))
  {
    var w := WithDirs(t, staging);
    forall q ensures (q in w <==> q in t || q <= staging) && (q in w ==> w[q] == if q in t then t[q] else Dir) {
      WithDirsAt(t, staging, q);
    }
    EmptyDirContents(w, staging);
    if IsDir(t, origin) {
      SubtreeAt(t, origin, []);
      assert origin + [] == origin;
      GraftedContents(w, staging, Subtree(t, origin));
      GraftAt(w, staging, Subtree(t, origin), staging);
    }
  }

  // ----- a whole staging

  /** The contents staging starts from. */
  function LiveTree(t: Tree, origin: Path): Tree {
    if origin in t then Subtree(t, origin) else map[[] := Dir]
  }

  lemma EmptyHolds(t: Tree, root: Path, hash: string -> Digest)
    requires Subtree(t, root) == map[[] := Dir]
    ensures Holds(t, root, hash, map[])
  {
    forall q | q in t && root <= q ensures !IsFile(t, q) {
      assert q == root + q[|root|..];
      SubtreeAt(t, root, q[|root|..]);
    }
  }

  lemma RelativePlace(t: Tree, root: Path, p: Path)
    requires WellFormed(t) && IsDir(t, root)
    ensures Conflict(t, root + p) <==> Conflict(Subtree(t, root), p)
    ensures IsDir(t, root + p) <==> IsDir(Subtree(t, root), p)
  {
    var sub := Subtree(t, root);
    SubtreeAt(t, root, p);
    ConflictAt(t, root + p);
    ConflictAt(sub, p);
    if q :| q in t && q <= root + p && t[q].File? {
      assert !(q <= root) by { if q <= root { AncestorExists(t, root, q); } }
      PrefixesCompare(q, root, root + p);
      var r := q[|root|..];
      assert q == root + r;
      PrefixBelow(root, r, p);
      SubtreeAt(t, root, r);
    }
    if r :| r in sub && r <= p && sub[r].File? {
      SubtreeAt(t, root, r);
      PrefixBelow(root, r, p);
    }
  }

  lemma FitsRelative(t: Tree, root: Path, key: string)
    requires WellFormed(t) && IsDir(t, root) && Canonical(key)
    ensures Fits(t, root, key) <==> Fits(Subtree(t, root), [], key)
  {
    KeyOfObjectPath(root, key);
    KeyOfObjectPath([], key);
    var p := ObjectPath([], key);
    assert ObjectPath(root, key) == root + p && Parent(root + p) == root + Parent(p);
    RelativePlace(t, root, p);
    RelativePlace(t, root, Parent(p));
  }

  lemma ShapeRelative(t: Tree, root: Path)
    requires MetadataShaped(Subtree(t, root), [])
    ensures MetadataShaped(t, root)
  {
    forall q | q in t && MetadataDir(root) <= q ensures |q| <= |root| + 3 && (t[q].Dir? <==> |q| < |root| + 3) {
      var r := q[|root|..];
      assert q == root + r;
      SubtreeAt(t, root, r);
      MetadataBelow(root, r);
      MetadataBelow([], r);
      assert [] + r == r;
    }
  }

  lemma ShapeBelow(t: Tree, root: Path)
    requires MetadataShaped(t, root)
    ensures MetadataShaped(Subtree(t, root), [])
  {
    forall r | r in Subtree(t, root) && MetadataDir([]) <= r ensures |r| <= 3 && (Subtree(t, root)[r].Dir? <==> |r| < 3) {
      SubtreeAt(t, root, r);
      MetadataBelow(root, r);
      MetadataBelow([], r);
      assert [] + r == r && root + r in t;
    }
  }

  lemma CanStageRelative(t: Tree, root: Path, originId: string, remote: Remote, previous: Option<OriginFreshnessIndex>, at: nat)
    requires WellFormed(t) && IsDir(t, root) && ListsCanonicalKeys(remote)
    ensures CanStage(t, root, originId, remote, previous, at) <==> CanStage(Subtree(t, root), [], originId, remote, previous, at)
  {
    if remote.list.Ok? && BuiltIndex(originId, remote.list.value, at).Ok? {
      var index := BuiltIndex(originId, remote.list.value, at).value;
      var changed := DiffOf(previous, index).Changed();
      ListedKeysCanonical(remote, at);
      DiffCovers(previous, index);
      FitsRelativeAll(t, root, changed);
    }
  }

  lemma FitsRelativeAll(t: Tree, root: Path, keys: set<string>)
    requires WellFormed(t) && IsDir(t, root) && CanonicalKeys(keys)
    ensures AllFit(t, root, keys) <==> AllFit(Subtree(t, root), [], keys)
  {
    forall k | k in keys ensures Fits(t, root, k) <==> Fits(Subtree(t, root), [], k) {
      FitsRelative(t, root, k);
    }
  }

  /** The mirror on disk is what the caller takes it to be. */
  ghost predicate MirrorOnDisk(t: Tree, origin: Path, hash: string -> Digest, live: Mirror) {
    if origin in t then IsDir(t, origin) && Holds(t, origin, hash, live) else live == map[]
  }

  /** No file is in the way of the staging directory, the metadata of the mirror have the shape that
      staging gives them, and no changed key is a directory on the way to another. */
  ghost predicate Undisturbed(t: Tree, origin: Path, staging: Path, originId: string, remote: Remote, previous: Option<OriginFreshnessIndex>, at: nat) {
    !Conflict(t, staging) && MetadataShaped(LiveTree(t, origin), []) && ChangesUnnested(originId, remote, previous, at)
  }

  /** Prepares and stages. `base` is what the directory held to begin with: the live objects, or
      nothing when a failing look at the mirror made it seem absent. */
  method PrepareAndStage(fs: FileSystem, origin: Path, staging: Path, hash: string -> Digest, originId: string, remote: Remote,
                         previous: Option<OriginFreshnessIndex>, at: nat, ghost live: Mirror)
    returns (r: Result<StagedSync, RefreshError>, ghost base: Mirror)
    requires WellFormed(fs.tree) && staging != [] && !(staging <= origin) && !(origin <= staging)
    requires MirrorOnDisk(fs.tree, origin, hash, live)
    requires InjectiveOn(hash, live.Keys + ListedKeys(remote)) && ListsCanonicalKeys(remote)
    modifies fs
    ensures WellFormed(fs.tree) && SameBeside(old(fs.tree), fs.tree, staging)
    ensures base == live || (base == map[] && old(fs.schedule) != [])
    ensures r.Ok? ==> IsDir(fs.tree, staging) && StagedFromRemote(originId, remote, previous, at, r.value)
    ensures r.Ok? ==> Holds(fs.tree, staging, hash, StagedMirror(base, remote, r.value))
    ensures r.Ok? && r.value.diff.unmodified <= base.Keys ==> Image(fs.tree, staging, hash, StagedMirror(base, remote, r.value))
    ensures r.Ok? && MetadataShaped(LiveTree(old(fs.tree), origin), []) ==> MetadataShaped(fs.tree, staging)
    ensures r.Ok? && old(fs.schedule) == [] ==> DirsMade(LiveTree(old(fs.tree), origin), fs.tree, staging, r.value.diff.Changed())
    ensures old(fs.schedule) == [] && Undisturbed(old(fs.tree), origin, staging, originId, remote, previous, at) ==>
      && (r.Ok? <==> CanStage(LiveTree(old(fs.tree), origin), [], originId, remote, previous, at))
      && (r.Ok? ==> fs.schedule == [])
  {
    ghost var t := fs.tree;
    base := live;
    var ok, copied := PrepareStagingDir(fs, origin, staging);
    if !ok {
      return Err(DiskFailed), base;
    }
    ghost var u := fs.tree;
    base := if copied then live else map[];
    PreparedHolds(t, u, origin, staging, hash, live, copied);
    PreparedForetells(u, staging, originId, remote, previous, at);
    r := StageOriginDir(fs, staging, hash, originId, remote, previous, at, base);
    BesideTransitive(t, u, fs.tree, staging, staging);
  }

  lemma PreparedHolds(t: Tree, u: Tree, origin: Path, staging: Path, hash: string -> Digest, live: Mirror, copied: bool)
    requires MirrorOnDisk(t, origin, hash, live) && (copied ==> origin in t)
    requires Subtree(u, staging) == if copied then Subtree(t, origin) else map[[] := Dir]
    ensures Holds(u, staging, hash, if copied then live else map[])
    ensures !copied && origin !in t ==> live == map[]
    ensures (copied <==> origin in t) ==> Subtree(u, staging) == LiveTree(t, origin)
  {
    if copied {
      HoldsMoves(t, origin, u, staging, hash, live);
    } else {
      EmptyHolds(u, staging, hash);
    }
  }

  lemma PreparedForetells(u: Tree, staging: Path, originId: string, remote: Remote, previous: Option<OriginFreshnessIndex>, at: nat)
    requires WellFormed(u) && IsDir(u, staging) && ListsCanonicalKeys(remote)
    ensures MetadataShaped(Subtree(u, staging), []) ==> MetadataShaped(u, staging)
    ensures Subtree(u, staging) == map[[] := Dir] ==> MetadataShaped(u, staging)
    ensures CanStage(u, staging, originId, remote, previous, at) <==> CanStage(Subtree(u, staging), [], originId, remote, previous, at)
  {
    if MetadataShaped(Subtree(u, staging), []) {
      ShapeRelative(u, staging);
    }
    CanStageRelative(u, staging, originId, remote, previous, at);
  }

  /** As the caller sees it: a staging that fails leaves no staging directory unless its removal fails too. */
  method StageOriginSync(fs: FileSystem, origin: Path, staging: Path, hash: string -> Digest, originId: string, remote: Remote,
                         previous: Option<OriginFreshnessIndex>, at: nat, ghost live: Mirror)
    returns (r: Result<StagedSync, RefreshError>, ghost base: Mirror)
    requires WellFormed(fs.tree) && staging != [] && !(staging <= origin) && !(origin <= staging)
    requires MirrorOnDisk(fs.tree, origin, hash, live)
    requires InjectiveOn(hash, live.Keys + ListedKeys(remote)) && ListsCanonicalKeys(remote)
    modifies fs
    ensures WellFormed(fs.tree) && SameBeside(old(fs.tree), fs.tree, staging)
    ensures base == live || (base == map[] && old(fs.schedule) != [])
    ensures r.Ok? ==> IsDir(fs.tree, staging) && StagedFromRemote(originId, remote, previous, at, r.value)
    ensures r.Ok? ==> Holds(fs.tree, staging, hash, StagedMirror(base, remote, r.value))
    ensures r.Ok? && r.value.diff.unmodified <= base.Keys ==> Image(fs.tree, staging, hash, StagedMirror(base, remote, r.value))
    ensures r.Ok? && MetadataShaped(LiveTree(old(fs.tree), origin), []) ==> MetadataShaped(fs.tree, staging)
    ensures r.Ok? && old(fs.schedule) == [] ==> DirsMade(LiveTree(old(fs.tree), origin), fs.tree, staging, r.value.diff.Changed())
    ensures old(fs.schedule) == [] && Undisturbed(old(fs.tree), origin, staging, originId, remote, previous, at) ==>
      && (r.Ok? <==> CanStage(LiveTree(old(fs.tree), origin), [], originId, remote, previous, at))
      && (r.Ok? ==> fs.schedule == [])
  {
    ghost var t := fs.tree;
    r, base := PrepareAndStage(fs, origin, staging, hash, originId, remote, previous, at, live);
    if r.Err? {
      ghost var u := fs.tree;
      var removed := ClearDir(fs, staging, origin);
      BesideTransitive(t, u, fs.tree, staging, staging);
    }
  }

  // ----- activation

  /** The swap, with the staging directory removed when it fails. */
  method ActivateStagedOrigin(fs: FileSystem, origin: Path, staging: Path, backup: Path)
    returns (r: Result<(), RefreshError>, ghost end: SwapEnd)
    requires WellFormed(fs.tree)
    requires |origin| > 0 && |staging| > 0 && |backup| > 0 && Parent(backup) == Parent(origin)
    requires Places(fs.tree, origin, staging, backup)
    modifies fs
    ensures WellFormed(fs.tree)
    ensures match end
      case OldLive =>
        r.Err? && (origin in fs.tree <==> origin in old(fs.tree)) && Subtree(fs.tree, origin) == Subtree(old(fs.tree), origin)
      case OldInBackup =>
        && r == Err(RestoreFailed) && origin in old(fs.tree) && origin !in fs.tree
        && IsDir(fs.tree, backup) && Subtree(fs.tree, backup) == Subtree(old(fs.tree), origin)
      case NewLive =>
        (r.Ok? || r == Err(BackupNotRemoved)) && IsDir(fs.tree, origin) && Subtree(fs.tree, origin) == Subtree(old(fs.tree), staging)
    ensures old(fs.schedule) == [] && !Conflict(old(fs.tree), Parent(origin)) ==> r.Ok?
  {
    r, end := SwapOriginDir(fs, origin, staging, backup);
    if r.Err? {
      ghost var u := fs.tree;
      var removed := fs.RemoveDirIfExists(staging);
      RemovalKeeps(u, staging, origin, fs.tree);
      RemovalKeeps(u, staging, backup, fs.tree);
    }
  }
}
