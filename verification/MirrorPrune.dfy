/** The two walks that delete: objects no longer listed, then sidecars nobody expects. */
module MirrorPrune {
  import opened Common
  import opened LocalMirror
  import opened FileTree
  import opened TreeWalk
  import opened MirrorLayout
  import opened OriginRuntime

  function FilesIn(t: Tree, d: Path): set<Path> {
    WalkFiles(t, {d})
  }

  predicate Stale(root: Path, keys: set<string>, f: Path) {
    root <= f && RelativeKey(root, f).Ok? && RelativeKey(root, f).value !in keys
  }

  predicate SidecarOfStale(root: Path, hash: string -> Digest, keys: set<string>, files: set<Path>, q: Path) {
    exists f :: f in files && Stale(root, keys, f) && MetadataSidecarPath(root, hash, RelativeKey(root, f).value) == Ok(q)
  }

  predicate Doomed(root: Path, hash: string -> Digest, keys: set<string>, files: set<Path>, q: Path) {
    (q in files && Stale(root, keys, q)) || SidecarOfStale(root, hash, keys, files, q)
  }

  /** Of the `files` visited the stale ones are gone, with their sidecars, and nothing else. */
  ghost predicate PrunedTo(before: Tree, after: Tree, root: Path, hash: string -> Digest, keys: set<string>, files: set<Path>) {
    forall q {:trigger q in after} ::
      (q in after <==> q in before && !Doomed(root, hash, keys, files, q)) && (q in after ==> after[q] == before[q])
  }

  ghost predicate AllKeyed(root: Path, files: set<Path>) {
    forall f {:trigger f in files} :: f in files ==> root <= f && RelativeKey(root, f).Ok?
  }

  /** Entries below `root` may be gone; nothing else differs. */
  ghost predicate OnlyRemoved(before: Tree, after: Tree, root: Path) {
    forall q {:trigger q in after} {:trigger q in before} ::
      (q in after ==> q in before && after[q] == before[q]) && (q in before && q !in after ==> root <= q && before[q].File?)
  }

  lemma NothingDoomed(t: Tree, root: Path, hash: string -> Digest, keys: set<string>)
    ensures PrunedTo(t, t, root, hash, keys, {})
  {
  }

  lemma DoomedUnion(root: Path, hash: string -> Digest, keys: set<string>, a: set<Path>, b: set<Path>, q: Path)
    ensures Doomed(root, hash, keys, a + b, q) <==> Doomed(root, hash, keys, a, q) || Doomed(root, hash, keys, b, q)
  {
    if SidecarOfStale(root, hash, keys, a, q) {
      var f :| f in a && Stale(root, keys, f) && MetadataSidecarPath(root, hash, RelativeKey(root, f).value) == Ok(q);
      assert f in a + b;
    }
    if SidecarOfStale(root, hash, keys, b, q) {
      var f :| f in b && Stale(root, keys, f) && MetadataSidecarPath(root, hash, RelativeKey(root, f).value) == Ok(q);
      assert f in a + b;
    }
  }

  lemma PrunedFurther(t: Tree, u: Tree, w: Tree, root: Path, hash: string -> Digest, keys: set<string>, a: set<Path>, b: set<Path>)
    requires PrunedTo(t, u, root, hash, keys, a) && PrunedTo(u, w, root, hash, keys, b)
    ensures PrunedTo(t, w, root, hash, keys, a + b)
  {
    forall q ensures (q in w <==> q in t && !Doomed(root, hash, keys, a + b, q)) && (q in w ==> w[q] == t[q]) {
      DoomedUnion(root, hash, keys, a, b, q);
      assert q in u <==> q in u.Keys;
    }
  }

  lemma DoomedAlone(t: Tree, root: Path, hash: string -> Digest, keys: set<string>, f: Path, sidecar: Path)
    requires Stale(root, keys, f) && MetadataSidecarPath(root, hash, RelativeKey(root, f).value) == Ok(sidecar)
    ensures PrunedTo(t, Without(t, {f, sidecar}), root, hash, keys, {f})
  {
    forall q ensures Doomed(root, hash, keys, {f}, q) <==> q == f || q == sidecar {
      if q == sidecar { assert f in {f}; }
    }
  }

  lemma FreshAlone(t: Tree, root: Path, hash: string -> Digest, keys: set<string>, f: Path)
    requires !Stale(root, keys, f)
    ensures PrunedTo(t, t, root, hash, keys, {f})
  {
  }

  lemma RemovedOne(t: Tree, root: Path, f: Path)
    requires root <= f
    ensures OnlyRemoved(t, t, root) && (IsFile(t, f) ==> OnlyRemoved(t, Without(t, {f}), root))
  {
  }

  lemma RemovedBoth(t: Tree, root: Path, f: Path, sidecar: Path)
    requires IsFile(t, f) && root <= f && root <= sidecar
    ensures var w, u := Without(t, {f, sidecar}), Without(t, {f});
      && Without(u, {sidecar}) == w && (sidecar !in u ==> u == w) && (IsDir(u, sidecar) ==> IsDir(t, sidecar))
      && (!IsDir(u, sidecar) ==> OnlyRemoved(t, w, root))
  {
    var w, u := Without(t, {f, sidecar}), Without(t, {f});
    assert Without(u, {sidecar}) == w;
    if sidecar !in u {
      assert u == w;
    }
  }

  /** Both files of a stale key; the sidecar may be missing. */
  method RemoveObject(fs: FileSystem, root: Path, f: Path, sidecar: Path) returns (ok: bool)
    requires WellFormed(fs.tree) && IsFile(fs.tree, f) && root <= f && root <= sidecar
    modifies fs
    ensures WellFormed(fs.tree)
    ensures ok ==> fs.tree == Without(old(fs.tree), {f, sidecar})
    ensures OnlyRemoved(old(fs.tree), fs.tree, root)
    ensures old(fs.schedule) == [] && !IsDir(old(fs.tree), sidecar) ==> ok && fs.schedule == []
  {
    RemovedOne(fs.tree, root, f);
    RemovedBoth(fs.tree, root, f, sidecar);
    var removed := fs.RemoveFile(f);
    if removed.Err? {
      return false;
    }
    var removedSidecar := fs.RemoveFile(sidecar);
    match removedSidecar {
      case Ok(_) =>
        return true;
      case Err(NotFound) =>
        return true;
      case Err(Refused) =>
        return false;
    }
  }

  /** The file `f`: kept when its key is listed, else removed with its sidecar. */
  method PruneFile(fs: FileSystem, root: Path, hash: string -> Digest, keys: set<string>, f: Path) returns (r: Result<(), RefreshError>)
    requires WellFormed(fs.tree) && IsFile(fs.tree, f) && root <= f
    modifies fs
    ensures WellFormed(fs.tree)
    ensures r.Ok? ==> RelativeKey(root, f).Ok? && PrunedTo(old(fs.tree), fs.tree, root, hash, keys, {f})
    ensures OnlyRemoved(old(fs.tree), fs.tree, root)
    ensures old(fs.schedule) == [] && Prunable(old(fs.tree), root, hash, f) ==> r.Ok? && fs.schedule == []
  {
    var key := RelativeKey(root, f);
    if key.Err? {
      return Err(InvalidListing(key.error));
    }
    if key.value in keys {
      FreshAlone(fs.tree, root, hash, keys, f);
      return Ok(());
    }
    // An unnameable sidecar is noticed after the object is gone.
    var sidecar := MetadataSidecarPath(root, hash, key.value);
    if sidecar.Err? {
      var _ := fs.RemoveFile(f);
      return Err(InvalidListing(key.value));
    }
    DoomedAlone(fs.tree, root, hash, keys, f, sidecar.value);
    var ok := RemoveObject(fs, root, f, sidecar.value);
    return if ok then Ok(()) else Err(DiskFailed);
  }

  /** Nothing about the file's name or the place of its sidecar stops its removal. */
  predicate Prunable(t: Tree, root: Path, hash: string -> Digest, f: Path)
    requires root <= f
  {
    var key := RelativeKey(root, f);
    key.Ok? && MetadataSidecarPath(root, hash, key.value).Ok? && !IsDir(t, MetadataSidecarPath(root, hash, key.value).value)
  }

  ghost predicate AllPrunable(t: Tree, root: Path, hash: string -> Digest, files: set<Path>) {
    forall f {:trigger f in files} :: f in files ==> root <= f && Prunable(t, root, hash, f)
  }

  lemma OnlyRemovedTransitive(a: Tree, b: Tree, c: Tree, root: Path)
    requires OnlyRemoved(a, b, root) && OnlyRemoved(b, c, root)
    ensures OnlyRemoved(a, c, root)
  {
    forall q ensures (q in c ==> q in a && c[q] == a[q]) && (q in a && q !in c ==> root <= q && a[q].File?) {
      assert q in b <==> q in b.Keys;
    }
  }

  /** A directory outside the metadata directory shows the same entries until its own turn. */
  lemma OutsideSidecars(root: Path, hash: string -> Digest, keys: set<string>, files: set<Path>, q: Path)
    requires !(MetadataDir(root) <= q) || q == MetadataDir(root)
    ensures Doomed(root, hash, keys, files, q) ==> q in files
  {
  }

  lemma EntryOutside(root: Path, d: Path, q: Path)
    requires root <= d && !(MetadataDir(root) <= d) && q != [] && Parent(q) == d
    ensures !(MetadataDir(root) <= q) || q == MetadataDir(root)
  {
  }

  lemma ListingStays(t: Tree, now: Tree, root: Path, hash: string -> Digest, keys: set<string>, done: set<Path>, d: Path)
    requires PrunedTo(t, now, root, hash, keys, WalkFiles(t, done))
    requires root <= d && !(MetadataDir(root) <= d) && d !in done
    ensures Children(now, d) == Children(t, d) && FilesIn(now, d) == FilesIn(t, d)
    ensures SubDirs(now, d, Some(MetadataDir(root))) == SubDirs(t, d, Some(MetadataDir(root)))
  {
    forall q | q != [] && Parent(q) == d ensures (q in now <==> q in t) && (q in t ==> now[q] == t[q]) {
      EntryOutside(root, d, q);
      OutsideSidecars(root, hash, keys, WalkFiles(t, done), q);
      assert q in now <==> q in now.Keys;
    }
  }

  lemma MoreFiles(t: Tree, done: set<Path>, d: Path)
    ensures WalkFiles(t, done + {d}) == WalkFiles(t, done) + FilesIn(t, d)
  {
  }

  function FilesAmong(t: Tree, entries: set<Path>): set<Path> {
    set e | e in entries && IsFile(t, e)
  }

  /** The entries of one directory: stale files go, subdirectories are pushed. */
  method PruneListed(fs: FileSystem, root: Path, hash: string -> Digest, keys: set<string>, d: Path, listed: set<Path>)
    returns (r: Result<seq<Path>, RefreshError>)
    requires WellFormed(fs.tree) && root <= d && !(MetadataDir(root) <= d) && Entries(fs.tree, d, listed)
    modifies fs
    ensures WellFormed(fs.tree)
    ensures OnlyRemoved(old(fs.tree), fs.tree, root)
    ensures r.Ok? ==> PrunedTo(old(fs.tree), fs.tree, root, hash, keys, FilesAmong(old(fs.tree), listed))
    ensures r.Ok? ==> AllKeyed(root, FilesAmong(old(fs.tree), listed))
    ensures r.Ok? ==> Lists(r.value, DirsAmong(old(fs.tree), listed, Some(MetadataDir(root))))
    ensures old(fs.schedule) == [] && AllPrunable(old(fs.tree), root, hash, FilesAmong(old(fs.tree), listed)) ==> r.Ok? && fs.schedule == []
  {
    ghost var t := fs.tree;
    var subs: seq<Path> := [];
    var entries := listed;
    RemovedOne(t, root, root);
    while entries != {}
      invariant WellFormed(fs.tree) && entries <= listed
      invariant OnlyRemoved(t, fs.tree, root)
      invariant Visited(t, fs.tree, root, hash, keys, listed - entries, subs)
      invariant old(fs.schedule) == [] && AllPrunable(t, root, hash, FilesAmong(t, listed)) ==> fs.schedule == []
      decreases |entries|
    {
      var entry :| entry in entries;
      ghost var done := listed - entries;
      entries := entries - {entry};
      assert listed - entries == done + {entry};
      assert IsFile(t, entry) ==> entry in FilesAmong(t, listed);
      r := PruneEntry(fs, t, root, hash, keys, d, done, entry, subs);
      if r.Err? {
        return;
      }
      subs := r.value;
    }
    assert listed - entries == listed;
    return Ok(subs);
  }

  ghost predicate Visited(t: Tree, now: Tree, root: Path, hash: string -> Digest, keys: set<string>, done: set<Path>, subs: seq<Path>) {
    && PrunedTo(t, now, root, hash, keys, FilesAmong(t, done))
    && AllKeyed(root, FilesAmong(t, done))
    && Lists(subs, DirsAmong(t, done, Some(MetadataDir(root))))
  }

  method PruneEntry(fs: FileSystem, ghost t: Tree, root: Path, hash: string -> Digest, keys: set<string>, d: Path,
                    ghost done: set<Path>, entry: Path, subs: seq<Path>)
    returns (r: Result<seq<Path>, RefreshError>)
    requires WellFormed(fs.tree) && OnlyRemoved(t, fs.tree, root)
    requires root <= d && !(MetadataDir(root) <= d) && Entries(t, d, {entry}) && entry !in done
    requires Visited(t, fs.tree, root, hash, keys, done, subs)
    modifies fs
    ensures WellFormed(fs.tree) && OnlyRemoved(t, fs.tree, root)
    ensures r.Ok? ==> Visited(t, fs.tree, root, hash, keys, done + {entry}, r.value)
    ensures old(fs.schedule) == [] && (IsFile(t, entry) ==> Prunable(t, root, hash, entry)) ==> r.Ok? && fs.schedule == []
  {
    EntryStays(t, fs.tree, root, hash, keys, done, d, entry);
    DirsOneMore(t, done, Some(MetadataDir(root)), entry, subs);
    FilesOneMore(t, done, entry);
    if fs.tree[entry].Dir? {
      assert FilesAmong(t, done + {entry}) == FilesAmong(t, done);
      return Ok(if entry == MetadataDir(root) then subs else subs + [entry]);
    }
    var pruned := PruneNext(fs, t, root, hash, keys, FilesAmong(t, done), entry);
    if pruned.Err? {
      return Err(pruned.error);
    }
    return Ok(subs);
  }

  lemma FilesOneMore(t: Tree, done: set<Path>, entry: Path)
    ensures FilesAmong(t, done + {entry}) == FilesAmong(t, done) + if IsFile(t, entry) then {entry} else {}
  {
  }

  lemma EntryStays(t: Tree, now: Tree, root: Path, hash: string -> Digest, keys: set<string>, done: set<Path>, d: Path, entry: Path)
    requires root <= d && !(MetadataDir(root) <= d) && Entries(t, d, {entry}) && entry !in done
    requires PrunedTo(t, now, root, hash, keys, FilesAmong(t, done))
    ensures entry in now && now[entry] == t[entry]
    ensures root <= entry && (Skipped(Some(MetadataDir(root)), entry) <==> entry == MetadataDir(root))
  {
    assert entry in {entry};
    EntryOutside(root, d, entry);
    OutsideSidecars(root, hash, keys, FilesAmong(t, done), entry);
    assert entry in now <==> entry in now.Keys;
  }

  /** One more file, after `files`. */
  method PruneNext(fs: FileSystem, ghost t: Tree, root: Path, hash: string -> Digest, keys: set<string>, ghost files: set<Path>, f: Path)
    returns (r: Result<(), RefreshError>)
    requires WellFormed(fs.tree) && IsFile(fs.tree, f) && root <= f && OnlyRemoved(t, fs.tree, root)
    requires PrunedTo(t, fs.tree, root, hash, keys, files)
    modifies fs
    ensures WellFormed(fs.tree)
    ensures OnlyRemoved(t, fs.tree, root)
    ensures r.Ok? ==> RelativeKey(root, f).Ok? && PrunedTo(t, fs.tree, root, hash, keys, files + {f})
    ensures old(fs.schedule) == [] && Prunable(t, root, hash, f) ==> r.Ok? && fs.schedule == []
  {
    ghost var now := fs.tree;
    assert forall q :: IsDir(now, q) ==> IsDir(t, q) by {
      forall q | IsDir(now, q) ensures IsDir(t, q) { assert q in t <==> q in t.Keys; }
    }
    r := PruneFile(fs, root, hash, keys, f);
    OnlyRemovedTransitive(t, now, fs.tree, root);
    if r.Ok? {
      PrunedFurther(t, now, fs.tree, root, hash, keys, files, {f});
    }
  }

  /** The state of the walk: the files of the directories `done` are dealt with. */
  ghost predicate Walked(t: Tree, now: Tree, root: Path, hash: string -> Digest, keys: set<string>, done: set<Path>) {
    PrunedTo(t, now, root, hash, keys, WalkFiles(t, done)) && AllKeyed(root, WalkFiles(t, done))
  }

  method PruneDir(fs: FileSystem, ghost t: Tree, root: Path, hash: string -> Digest, keys: set<string>, ghost done: set<Path>, d: Path)
    returns (r: Result<seq<Path>, RefreshError>)
    requires WellFormed(fs.tree) && OnlyRemoved(t, fs.tree, root)
    requires root <= d && !(MetadataDir(root) <= d) && d !in done && IsDir(t, d)
    requires Walked(t, fs.tree, root, hash, keys, done)
    modifies fs
    ensures WellFormed(fs.tree) && OnlyRemoved(t, fs.tree, root)
    ensures r.Ok? ==> Walked(t, fs.tree, root, hash, keys, done + {d}) && Lists(r.value, SubDirs(t, d, Some(MetadataDir(root))))
    ensures old(fs.schedule) == [] && AllPrunable(t, root, hash, FilesIn(t, d)) ==> r.Ok? && fs.schedule == []
  {
    ghost var now := fs.tree;
    ListingStays(t, now, root, hash, keys, done, d);
    DirStays(t, now, root, d);
    var listed := fs.ReadDir(d);
    if listed.Err? {
      return Err(DiskFailed);
    }
    ListedClasses(now, d, Some(MetadataDir(root)));
    PrunableStill(t, now, root, hash, FilesIn(t, d));
    r := PruneListed(fs, root, hash, keys, d, listed.value);
    OnlyRemovedTransitive(t, now, fs.tree, root);
    if r.Ok? {
      MoreFiles(t, done, d);
      PrunedFurther(t, now, fs.tree, root, hash, keys, WalkFiles(t, done), FilesIn(t, d));
    }
  }

  lemma DirStays(t: Tree, now: Tree, root: Path, d: Path)
    requires OnlyRemoved(t, now, root) && IsDir(t, d)
    ensures IsDir(now, d)
  {
    assert d in t && (d in now <==> d in now.Keys);
  }

  lemma ListedClasses(t: Tree, d: Path, skip: Option<Path>)
    ensures FilesAmong(t, Children(t, d)) == FilesIn(t, d)
    ensures DirsAmong(t, Children(t, d), skip) == SubDirs(t, d, skip)
  {
  }

  lemma PrunableStill(t: Tree, now: Tree, root: Path, hash: string -> Digest, files: set<Path>)
    requires OnlyRemoved(t, now, root)
    ensures AllPrunable(t, root, hash, files) ==> AllPrunable(now, root, hash, files)
  {
    forall q | IsDir(now, q) ensures IsDir(t, q) { assert q in now; }
  }

  lemma PrunableIn(t: Tree, root: Path, hash: string -> Digest, dirs: set<Path>, d: Path)
    requires d in dirs
    ensures AllPrunable(t, root, hash, WalkFiles(t, dirs)) ==> AllPrunable(t, root, hash, FilesIn(t, d))
  {
    assert FilesIn(t, d) <= WalkFiles(t, dirs);
  }

  lemma NothingWalked(t: Tree, root: Path, hash: string -> Digest, keys: set<string>)
    ensures Walked(t, t, root, hash, keys, {})
  {
    assert WalkFiles(t, {}) == {};
    NothingDoomed(t, root, hash, keys);
  }

  /** Every file of the mirror is visited once: kept when listed, else removed with its sidecar. */
  method RemoveDeletedObjects(fs: FileSystem, root: Path, hash: string -> Digest, keys: set<string>) returns (r: Result<(), RefreshError>)
    requires WellFormed(fs.tree) && IsDir(fs.tree, root)
    modifies fs
    ensures WellFormed(fs.tree) && OnlyRemoved(old(fs.tree), fs.tree, root)
    ensures r.Ok? ==> Walked(old(fs.tree), fs.tree, root, hash, keys, WalkDirs(old(fs.tree), root, Some(MetadataDir(root))))
    ensures old(fs.schedule) == []
        && AllPrunable(old(fs.tree), root, hash, WalkFiles(old(fs.tree), WalkDirs(old(fs.tree), root, Some(MetadataDir(root)))))
      ==> r.Ok? && fs.schedule == []
  {
    ghost var t, skip := fs.tree, Some(MetadataDir(root));
    ghost var dirs := WalkDirs(t, root, skip);
    ghost var done: set<Path> := {};
    var stack := [root];
    WalkStarts(t, root, skip);
    RemovedOne(t, root, root);
    NothingWalked(t, root, hash, keys);
    while stack != []
      invariant WellFormed(fs.tree) && OnlyRemoved(t, fs.tree, root)
      invariant Owes(dirs, root, done, stack)
      invariant Walked(t, fs.tree, root, hash, keys, done)
      invariant old(fs.schedule) == [] && AllPrunable(t, root, hash, WalkFiles(t, dirs)) ==> fs.schedule == []
      decreases |dirs - done|
    {
      var d := stack[|stack| - 1];
      WalkPops(t, root, skip, done, stack);
      PrunableIn(t, root, hash, dirs, d);
      var subs := PruneDir(fs, t, root, hash, keys, done, d);
      if subs.Err? {
        return Err(subs.error);
      }
      WalkPushes(t, root, skip, done, stack, subs.value);
      stack := stack[..|stack| - 1] + subs.value;
      done := done + {d};
    }
    WalkEnds(t, root, skip, done);
    return Ok(());
  }

  // ----- stray sidecars

  ghost predicate Removed(before: Tree, after: Tree, gone: set<Path>) {
    forall q {:trigger q in after} :: (q in after <==> q in before && q !in gone) && (q in after ==> after[q] == before[q])
  }

  /** Progress through the entries of one directory. */
  ghost predicate StrayGone(t: Tree, now: Tree, expected: set<Path>, done: set<Path>, subs: seq<Path>) {
    Removed(t, now, FilesAmong(t, done) - expected) && Lists(subs, DirsAmong(t, done, None))
  }

  method RemoveStray(fs: FileSystem, d: Path, listed: set<Path>, expected: set<Path>) returns (r: Result<seq<Path>, RefreshError>)
    requires WellFormed(fs.tree) && Entries(fs.tree, d, listed)
    modifies fs
    ensures WellFormed(fs.tree) && OnlyRemoved(old(fs.tree), fs.tree, d)
    ensures r.Ok? ==> StrayGone(old(fs.tree), fs.tree, expected, listed, r.value)
    ensures old(fs.schedule) == [] ==> r.Ok? && fs.schedule == []
  {
    ghost var t := fs.tree;
    var subs: seq<Path> := [];
    var entries := listed;
    RemovedOne(t, d, d);
    while entries != {}
      invariant WellFormed(fs.tree) && OnlyRemoved(t, fs.tree, d) && entries <= listed
      invariant StrayGone(t, fs.tree, expected, listed - entries, subs)
      invariant old(fs.schedule) == [] ==> fs.schedule == []
      decreases |entries|
    {
      var entry :| entry in entries;
      ghost var done := listed - entries;
      entries := entries - {entry};
      assert listed - entries == done + {entry};
      r := StrayEntry(fs, t, d, expected, done, entry, subs);
      if r.Err? {
        return;
      }
      subs := r.value;
    }
    assert listed - entries == listed;
    return Ok(subs);
  }

  method StrayEntry(fs: FileSystem, ghost t: Tree, d: Path, expected: set<Path>, ghost done: set<Path>, entry: Path, subs: seq<Path>)
    returns (r: Result<seq<Path>, RefreshError>)
    requires WellFormed(fs.tree) && OnlyRemoved(t, fs.tree, d) && Entries(t, d, {entry}) && entry !in done
    requires StrayGone(t, fs.tree, expected, done, subs)
    modifies fs
    ensures WellFormed(fs.tree) && OnlyRemoved(t, fs.tree, d)
    ensures r.Ok? ==> StrayGone(t, fs.tree, expected, done + {entry}, r.value)
    ensures old(fs.schedule) == [] ==> r.Ok? && fs.schedule == []
  {
    ghost var now := fs.tree;
    assert entry in {entry} && (entry in now <==> entry in now.Keys);
    DirsOneMore(t, done, None, entry, subs);
    FilesOneMore(t, done, entry);
    if fs.tree[entry].Dir? {
      assert FilesAmong(t, done + {entry}) == FilesAmong(t, done);
      return Ok(subs + [entry]);
    }
    if entry in expected {
      assert FilesAmong(t, done + {entry}) - expected == FilesAmong(t, done) - expected;
      return Ok(subs);
    }
    assert FilesAmong(t, done + {entry}) - expected == (FilesAmong(t, done) - expected) + {entry};
    assert d <= entry;
    RemovedOne(now, d, entry);
    RemovedAgain(t, now, FilesAmong(t, done) - expected, entry);
    var removed := fs.RemoveFile(entry);
    OnlyRemovedTransitive(t, now, fs.tree, d);
    return if removed.Ok? then Ok(subs) else Err(DiskFailed);
  }

  lemma RemovedAgain(t: Tree, now: Tree, gone: set<Path>, entry: Path)
    requires Removed(t, now, gone)
    ensures Removed(t, Without(now, {entry}), gone + {entry})
  {
    forall q ensures (q in Without(now, {entry}) <==> q in t && q !in gone + {entry}) && (q in Without(now, {entry}) ==> Without(now, {entry})[q] == t[q]) {
      assert q in now <==> q in now.Keys;
    }
  }

  lemma RemovedFurther(t: Tree, u: Tree, w: Tree, a: set<Path>, b: set<Path>)
    requires Removed(t, u, a) && Removed(u, w, b)
    ensures Removed(t, w, a + b)
  {
    forall q ensures (q in w <==> q in t && q !in a + b) && (q in w ==> w[q] == t[q]) {
      assert q in u <==> q in u.Keys;
    }
  }

  lemma StrayListing(t: Tree, now: Tree, done: set<Path>, expected: set<Path>, d: Path)
    requires Removed(t, now, WalkFiles(t, done) - expected) && d !in done && IsDir(t, d)
    ensures IsDir(now, d) && FilesIn(now, d) == FilesIn(t, d) && SubDirs(now, d, None) == SubDirs(t, d, None)
  {
    forall q | q == d || (q != [] && Parent(q) == d) ensures (q in now <==> q in t) && (q in t ==> now[q] == t[q]) {
      assert q in now <==> q in now.Keys;
    }
  }

  method StrayDir(fs: FileSystem, ghost t: Tree, expected: set<Path>, ghost done: set<Path>, root: Path, d: Path)
    returns (r: Result<seq<Path>, RefreshError>)
    requires WellFormed(fs.tree) && d !in done && IsDir(t, d) && root <= d && OnlyRemoved(t, fs.tree, root)
    requires Removed(t, fs.tree, WalkFiles(t, done) - expected)
    modifies fs
    ensures WellFormed(fs.tree) && OnlyRemoved(t, fs.tree, root)
    ensures r.Ok? ==> Removed(t, fs.tree, WalkFiles(t, done + {d}) - expected) && Lists(r.value, SubDirs(t, d, None))
    ensures old(fs.schedule) == [] ==> r.Ok? && fs.schedule == []
  {
    ghost var now := fs.tree;
    StrayListing(t, now, done, expected, d);
    var listed := fs.ReadDir(d);
    if listed.Err? {
      return Err(DiskFailed);
    }
    ListedClasses(now, d, None);
    r := RemoveStray(fs, d, listed.value, expected);
    OnlyRemovedHigher(now, fs.tree, root, d);
    OnlyRemovedTransitive(t, now, fs.tree, root);
    if r.Ok? {
      MoreFiles(t, done, d);
      RemovedFurther(t, now, fs.tree, WalkFiles(t, done) - expected, FilesIn(t, d) - expected);
      assert (WalkFiles(t, done) - expected) + (FilesIn(t, d) - expected) == WalkFiles(t, done + {d}) - expected;
    }
  }

  lemma OnlyRemovedHigher(t: Tree, now: Tree, root: Path, d: Path)
    requires OnlyRemoved(t, now, d) && root <= d
    ensures OnlyRemoved(t, now, root)
  {
  }

  method RemoveUnexpected(fs: FileSystem, top: Path, expected: set<Path>) returns (r: Result<(), RefreshError>)
    requires WellFormed(fs.tree) && IsDir(fs.tree, top)
    modifies fs
    ensures WellFormed(fs.tree) && OnlyRemoved(old(fs.tree), fs.tree, top)
    ensures r.Ok? ==> Removed(old(fs.tree), fs.tree, WalkFiles(old(fs.tree), WalkDirs(old(fs.tree), top, None)) - expected)
    ensures old(fs.schedule) == [] ==> r.Ok? && fs.schedule == []
  {
    ghost var t := fs.tree;
    ghost var dirs := WalkDirs(t, top, None);
    ghost var done: set<Path> := {};
    RemovedOne(t, top, top);
    assert WalkFiles(t, {}) == {};
    var stack := [top];
    WalkStarts(t, top, None);
    while stack != []
      invariant WellFormed(fs.tree) && OnlyRemoved(t, fs.tree, top)
      invariant Owes(dirs, top, done, stack)
      invariant Removed(t, fs.tree, WalkFiles(t, done) - expected)
      invariant old(fs.schedule) == [] ==> fs.schedule == []
      decreases |dirs - done|
    {
      var d := stack[|stack| - 1];
      WalkPops(t, top, None, done, stack);
      var subs := StrayDir(fs, t, expected, done, top, d);
      if subs.Err? {
        return Err(subs.error);
      }
      WalkPushes(t, top, None, done, stack, subs.value);
      stack := stack[..|stack| - 1] + subs.value;
      done := done + {d};
    }
    WalkEnds(t, top, None, done);
    return Ok(());
  }

  lemma NothingBelow(t: Tree, top: Path)
    requires top !in t && WellFormed(t)
    ensures WalkDirs(t, top, None) == {}
  {
    forall q | q in t && top <= q ensures false { NoneBelow(t, top, q); }
  }

  lemma {:induction false} NoneBelow(t: Tree, top: Path, q: Path)
    requires top !in t && WellFormed(t) && q in t && top <= q
    ensures false
    decreases |q|
  {
    assert q != top && q != [];
    assert top <= Parent(q);
    NoneBelow(t, top, Parent(q));
  }

  function SidecarPaths(root: Path, hash: string -> Digest, keys: set<string>): set<Path> {
    set k | k in keys :: SidecarAt(root, hash(k))
  }

  /** Every file below the metadata directory that is the sidecar of no listed key goes. */
  method RemoveOrphanMetadataSidecars(fs: FileSystem, root: Path, hash: string -> Digest, keys: set<string>)
    returns (r: Result<(), RefreshError>)
    requires WellFormed(fs.tree) && CanonicalKeys(keys)
    requires MetadataDir(root) in fs.tree ==> IsDir(fs.tree, MetadataDir(root))
    modifies fs
    ensures WellFormed(fs.tree) && OnlyRemoved(old(fs.tree), fs.tree, MetadataDir(root))
    ensures r.Ok? ==> Removed(old(fs.tree), fs.tree,
      WalkFiles(old(fs.tree), WalkDirs(old(fs.tree), MetadataDir(root), None)) - SidecarPaths(root, hash, keys))
    ensures old(fs.schedule) == [] ==> r.Ok? && fs.schedule == []
  {
    var expected := ExpectedSidecars(root, hash, keys);
    if MetadataDir(root) in fs.tree {
      r := RemoveUnexpected(fs, MetadataDir(root), expected);
      return;
    }
    // The walk ends at its first read when there is no metadata directory.
    NothingBelow(fs.tree, MetadataDir(root));
    RemovedOne(fs.tree, MetadataDir(root), MetadataDir(root));
    var absent := fs.ReadDir(MetadataDir(root));
    return if absent == Err(NotFound) then Ok(()) else Err(DiskFailed);
  }

  method ExpectedSidecars(root: Path, hash: string -> Digest, keys: set<string>) returns (expected: set<Path>)
    requires CanonicalKeys(keys)
    ensures expected == SidecarPaths(root, hash, keys)
  {
    expected := {};
    var todo := keys;
    while todo != {}
      invariant todo <= keys && expected == SidecarPaths(root, hash, keys - todo)
    {
      var key :| key in todo;
      assert Canonical(key);
      var path := MetadataSidecarPath(root, hash, key);
      ExpectedOneMore(root, hash, keys - todo, key);
      expected := expected + {path.value};
      assert keys - (todo - {key}) == (keys - todo) + {key};
      todo := todo - {key};
    }
    assert keys - todo == keys;
  }

  lemma ExpectedOneMore(root: Path, hash: string -> Digest, keys: set<string>, key: string)
    ensures SidecarPaths(root, hash, keys + {key}) == SidecarPaths(root, hash, keys) + {SidecarAt(root, hash(key))}
  {
  }
}
