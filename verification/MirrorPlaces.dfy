/** Which places a staging leaves open: directories are made on the way to downloads and never removed. */
module MirrorPlaces {
  import opened Common
  import opened Freshness
  import opened LocalMirror
  import opened FileTree
  import opened TreeWalk
  import opened TreeCopy
  import opened MirrorLayout
  import opened MirrorPrune
  import opened MirrorSync

  /** `p` is a directory on the way to one of `keys`. */
  ghost predicate OnTheWay(keys: set<string>, p: Path) {
    exists k :: k in keys && p < ObjectPath([], k)
  }

  predicate InMetadata(p: Path) {
    p != [] && p[0] == METADATA_DIR_NAME
  }

  /** Below `root`, metadata aside, the directories are those of `before` and those on the way to `keys`. */
  ghost predicate DirsMade(before: Tree, after: Tree, root: Path, keys: set<string>) {
    forall p {:trigger root + p} :: !InMetadata(p) ==> (IsDir(after, root + p) <==> IsDir(before, p) || OnTheWay(keys, p))
  }

  lemma NoDirsMade(t: Tree, root: Path)
    ensures DirsMade(Subtree(t, root), t, root, {})
  {
    forall p ensures IsDir(t, root + p) <==> IsDir(Subtree(t, root), p) {
      SubtreeAt(t, root, p);
    }
  }

  lemma OpenMakesDirs(t: Tree, p: Path, data: FileData, q: Path)
    requires Open(t, p)
    ensures IsDir(WithFile(t, p, data), q) <==> IsDir(t, q) || q <= Parent(p)
  {
    WithFileAt(t, p, data, q);
    if q <= Parent(p) && q in t {
      assert q == Parent(p)[..|q|];
    }
  }

  lemma DownloadMakesDirs(before: Tree, t: Tree, root: Path, hash: string -> Digest, remote: Remote, files: Files, keys: set<string>, key: string)
    requires DirsMade(before, t, root, keys) && IsDir(t, root) && Canonical(key)
    requires AfterDownload(t, root, hash, remote, files, key).Some?
    ensures DirsMade(before, AfterDownload(t, root, hash, remote, files, key).value, root, keys + {key})
  {
    DeliveredKey(remote, files, key);
    KeyOfObjectPath(root, key);
    var obj := remote.get(key).value;
    var body, sidecar := ObjectPath(root, key), SidecarAt(root, hash(key));
    var u := WithFile(t, body, Body(obj.body));
    var w := AfterDownload(t, root, hash, remote, files, key).value;
    forall p | !InMetadata(p) ensures IsDir(w, root + p) <==> IsDir(before, p) || OnTheWay(keys + {key}, p) {
      OpenMakesDirs(t, body, Body(obj.body), root + p);
      OpenMakesDirs(u, sidecar, Sidecar(Stored(obj).metadata), root + p);
      OnTheWayToOne(root, keys, key, p);
      SidecarIsAside(root, hash(key), p);
    }
  }

  /** The path of a key relative to its root. */
  lemma PathOfKey(root: Path, key: string)
    requires Canonical(key)
    ensures ObjectPath(root, key) == root + ObjectPath([], key)
    ensures ObjectPath([], key) != [] && !InMetadata(ObjectPath([], key))
  {
    KeyOfObjectPath([], key);
    assert InMetadata(ObjectPath([], key)) ==> MetadataDir([]) <= ObjectPath([], key);
  }

  lemma ParentBelow(root: Path, p: Path, path: Path)
    requires path != []
    ensures Parent(root + path) == root + Parent(path)
    ensures root + p <= Parent(root + path) <==> p < path
  {
    assert Parent(root + path) == root + Parent(path);
    PrefixBelow(root, p, Parent(path));
    if p < path {
      assert p == path[..|p|] == Parent(path)[..|p|];
    }
  }

  lemma OnTheWayToOne(root: Path, keys: set<string>, key: string, p: Path)
    requires Canonical(key)
    ensures ObjectPath(root, key) != []
    ensures OnTheWay(keys + {key}, p) <==> OnTheWay(keys, p) || root + p <= Parent(ObjectPath(root, key))
  {
    PathOfKey(root, key);
    ParentBelow(root, p, ObjectPath([], key));
    assert key in keys + {key};
  }

  lemma SidecarIsAside(root: Path, digest: Digest, p: Path)
    requires !InMetadata(p)
    ensures root + p <= Parent(SidecarAt(root, digest)) <==> p == []
  {
    var path := [METADATA_DIR_NAME, digest[..2], digest + ".json"];
    assert SidecarAt(root, digest) == root + path;
    ParentBelow(root, p, path);
    assert path[0] == METADATA_DIR_NAME;
  }

  lemma {:induction false} DownloadsMakeDirs(t: Tree, root: Path, hash: string -> Digest, remote: Remote, files: Files, order: seq<string>)
    requires WellFormed(t) && IsDir(t, root) && root != [] && CanonicalKeys(Elements(order))
    requires AfterDownloads(t, root, hash, remote, files, order).Some?
    ensures var u := AfterDownloads(t, root, hash, remote, files, order).value;
      WellFormed(u) && IsDir(u, root) && DirsMade(Subtree(t, root), u, root, Elements(order))
  {
    if order == [] {
      NoDirsMade(t, root);
    } else {
      var init, key := order[..|order| - 1], order[|order| - 1];
      OneMoreElement(order);
      DownloadsMakeDirs(t, root, hash, remote, files, init);
      var u := AfterDownloads(t, root, hash, remote, files, init).value;
      assert key in Elements(order);
      DownloadMakesDirs(Subtree(t, root), u, root, hash, remote, files, Elements(init), key);
      DownloadKeepsWellFormed(u, root, hash, remote, files, key);
    }
  }

  // ----- a whole staging

  /** What staging has made of the directory: the objects held, the directories made, those kept, and the
      shape of its metadata. */
  ghost predicate StagedTree(t: Tree, u: Tree, root: Path, hash: string -> Digest, mirror: Mirror, changed: set<string>) {
    && Holds(u, root, hash, mirror)
    && DirsKept(t, u)
    && DirsMade(Subtree(t, root), u, root, changed)
    && (MetadataShaped(t, root) ==> MetadataShaped(u, root))
  }

  lemma DownloadsStage(t: Tree, root: Path, hash: string -> Digest, remote: Remote, files: Files, order: seq<string>, live: Mirror)
    requires WellFormed(t) && IsDir(t, root) && root != [] && CanonicalKeys(Elements(order))
    requires InjectiveOn(hash, live.Keys + Elements(order)) && Holds(t, root, hash, live)
    requires AfterDownloads(t, root, hash, remote, files, order).Some?
    ensures var u := AfterDownloads(t, root, hash, remote, files, order).value;
      StagedTree(t, u, root, hash, live + Fetched(remote, Elements(order)), Elements(order))
    ensures AllDelivered(remote, files, Elements(order))
  {
    DownloadsHold(t, root, hash, remote, files, order, live);
    DownloadsKeepDirs(t, root, hash, remote, files, order);
    DownloadsMakeDirs(t, root, hash, remote, files, order);
    if MetadataShaped(t, root) {
      DownloadsKeepShape(t, root, hash, remote, files, order);
    }
  }

  lemma RemovalsStage(t: Tree, u: Tree, w: Tree, root: Path, hash: string -> Digest, fetched: Mirror, mirror: Mirror, changed: set<string>)
    requires StagedTree(t, u, root, hash, fetched, changed) && OnlyRemoved(u, w, root) && Holds(w, root, hash, mirror)
    ensures StagedTree(t, w, root, hash, mirror, changed)
  {
    RemovalsKeepDirs(t, u, w, root);
    forall p | !InMetadata(p) ensures IsDir(w, root + p) <==> IsDir(u, root + p) {
      assert root + p in w <==> root + p in w.Keys;
      assert root + p in u <==> root + p in u.Keys;
    }
    forall q | q in w && MetadataDir(root) <= q ensures q in u && w[q] == u[q] {}
  }

  // ----- whether a key can be read back, or written, after a staging

  /** Told from the tree before, the changed keys and the objects staged. */
  ghost predicate PlaceFree(before: Tree, changed: set<string>, staged: Mirror, key: string) {
    && !IsDir(before, ObjectPath([], key)) && !OnTheWay(changed, ObjectPath([], key))
    && forall k :: k in staged ==> !(ObjectPath([], k) < ObjectPath([], key))
  }

  lemma FitsExactly(before: Tree, u: Tree, root: Path, hash: string -> Digest, staged: Mirror, changed: set<string>, key: string)
    requires WellFormed(u) && IsDir(u, root) && Holds(u, root, hash, staged) && DirsMade(before, u, root, changed)
    requires Canonical(key)
    ensures Fits(u, root, key) <==> PlaceFree(before, changed, staged, key)
  {
    PathOfKey(root, key);
    var path := ObjectPath([], key);
    ParentBelow(root, [], path);
    ConflictExactly(u, root, hash, staged, path);
    assert IsDir(u, root + path) <==> IsDir(before, path) || OnTheWay(changed, path);
  }

  /** The files on the way to a place outside the metadata are objects staged. */
  lemma ConflictExactly(u: Tree, root: Path, hash: string -> Digest, staged: Mirror, path: Path)
    requires WellFormed(u) && IsDir(u, root) && Holds(u, root, hash, staged) && path != [] && !InMetadata(path)
    ensures Conflict(u, Parent(root + path)) <==> exists k :: k in staged && ObjectPath([], k) < path
  {
    ConflictAt(u, Parent(root + path));
    if q :| q in u && q <= Parent(root + path) && u[q].File? {
      FileOnTheWay(u, root, hash, staged, path, q);
    }
    if k :| k in staged && ObjectPath([], k) < path {
      ParentBelow(root, ObjectPath([], k), path);
      ObjectIsFile(u, root, hash, staged, k);
      assert root + ObjectPath([], k) in u;
    }
  }

  lemma ObjectIsFile(u: Tree, root: Path, hash: string -> Digest, staged: Mirror, key: string)
    requires Holds(u, root, hash, staged) && key in staged
    ensures IsFile(u, root + ObjectPath([], key))
  {
    assert BodyAt(u, ObjectPath(root, key), staged[key]);
    assert ObjectPath(root, key) == root + ObjectPath([], key);
  }

  lemma FileOnTheWay(u: Tree, root: Path, hash: string -> Digest, staged: Mirror, path: Path, q: Path)
    requires WellFormed(u) && IsDir(u, root) && Holds(u, root, hash, staged) && path != [] && !InMetadata(path)
    requires IsFile(u, q) && q <= Parent(root + path)
    ensures exists k :: k in staged && ObjectPath([], k) < path
  {
    ParentBelow(root, [], path);
    if q <= root { AncestorExists(u, root, q); }
    PrefixesCompare(q, root, root + Parent(path));
    var p := q[|root|..];
    assert q == root + p;
    ParentBelow(root, p, path);
    MetadataBelow(root, p);
    assert IsBody(root, staged, q);
    var k :| k in staged && q == ObjectPath(root, k);
    assert ObjectPath([], k) == p;
  }
}
