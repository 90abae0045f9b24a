/** Staging of one origin on disk, and its refinement of the map-valued staging of the protocol. */
module MirrorSync {
  import opened Common
  import Text
  import opened Freshness
  import opened LocalMirror
  import opened FileTree
  import opened TreeWalk
  import opened TreeCopy
  import opened MirrorLayout
  import opened MirrorPrune
  import opened OriginRuntime

  // ----- writing one object

  function WithFile(t: Tree, p: Path, data: FileData): Tree
    requires p != []
  {
    WithDirs(t, Parent(p))[p := File(data)]
  }

  /** A file can be put at `p`. */
  predicate Open(t: Tree, p: Path) {
    p != [] && !Conflict(t, Parent(p)) && !IsDir(t, p)
  }

  lemma WithFileAt(t: Tree, p: Path, data: FileData, q: Path)
    requires p != []
    ensures var w := WithFile(t, p, data);
      && (q in w <==> q == p || q in t || q <= Parent(p))
      && (q in w ==> w[q] == if q == p then File(data) else if q in t then t[q] else Dir)
  {
    WithDirsAt(t, Parent(p), q);
  }

  method WriteWithParents(fs: FileSystem, root: Path, p: Path, data: FileData) returns (ok: bool)
    requires WellFormed(fs.tree) && IsDir(fs.tree, root) && root <= p && p != []
    modifies fs
    ensures WellFormed(fs.tree) && IsDir(fs.tree, root) && SameBeside(old(fs.tree), fs.tree, root)
    ensures ok ==> Open(old(fs.tree), p) && fs.tree == WithFile(old(fs.tree), p, data)
    ensures old(fs.schedule) == [] ==> fs.schedule == [] && (ok <==> Open(old(fs.tree), p))
  {
    ghost var t := fs.tree;
    MadeBelow(t, root, p, data);
    ok := fs.CreateDirAll(Parent(p));
    if ok {
      WithDirsAt(t, Parent(p), p);
      ok := fs.WriteFile(p, data);
    }
  }

  lemma MadeBelow(t: Tree, root: Path, p: Path, data: FileData)
    requires WellFormed(t) && IsDir(t, root) && root <= p && p != []
    ensures var w, u := WithDirs(t, Parent(p)), WithFile(t, p, data);
      && SameBeside(t, t, root) && SameBeside(t, w, root) && IsDir(w, root)
      && (!IsDir(t, p) ==> SameBeside(t, u, root) && IsDir(u, root))
  {
    var w, u := WithDirs(t, Parent(p)), WithFile(t, p, data);
    forall q ensures (q in w <==> q in t || q <= Parent(p)) && (q in w ==> w[q] == if q in t then t[q] else Dir) {
      WithDirsAt(t, Parent(p), q);
    }
    forall q | q in w && q !in t && !(root <= q) ensures q <= root {
      PrefixesCompare(q, root, p);
    }
  }

  function Written(t: Tree, body: Path, sidecar: Path, obj: RemoteObject): Tree
    requires body != [] && sidecar != []
  {
    WithFile(WithFile(t, body, Body(obj.body)), sidecar, Sidecar(Stored(obj).metadata))
  }

  /** The object can be stored: its key has a place and nothing is in the way of either file. */
  predicate Storable(t: Tree, root: Path, hash: string -> Digest, obj: RemoteObject) {
    var body, sidecar := ObjectPath(root, obj.key), MetadataSidecarPath(root, hash, obj.key);
    && NormalizeRemoteKey(obj.key).Ok? && sidecar.Ok? && obj.key[|obj.key| - 1] != '/'
    && Open(t, body) && Open(WithFile(t, body, Body(obj.body)), sidecar.value)
  }

  method WriteObject(fs: FileSystem, root: Path, hash: string -> Digest, obj: RemoteObject) returns (ok: bool)
    requires WellFormed(fs.tree) && IsDir(fs.tree, root) && root != []
    modifies fs
    ensures WellFormed(fs.tree) && IsDir(fs.tree, root) && SameBeside(old(fs.tree), fs.tree, root)
    ensures ok ==> Storable(old(fs.tree), root, hash, obj)
    ensures ok ==> fs.tree == Written(old(fs.tree), ObjectPath(root, obj.key), MetadataSidecarPath(root, hash, obj.key).value, obj)
    ensures old(fs.schedule) == [] ==> fs.schedule == [] && (ok <==> Storable(old(fs.tree), root, hash, obj))
  {
    ghost var t := fs.tree;
    SameBesideItself(t, root);
    if NormalizeRemoteKey(obj.key).Err? {
      return false;
    }
    var body := ObjectPath(root, obj.key);
    if obj.key[|obj.key| - 1] == '/' {
      // The path ends in a separator: its parent can be made but no file written.
      var _ := fs.CreateDirAll(Parent(body));
      MadeBelow(t, root, body, Body([]));
      return false;
    }
    ok := WriteWithParents(fs, root, body, Body(obj.body));
    var sidecar := MetadataSidecarPath(root, hash, obj.key);
    if !ok || sidecar.Err? {
      return false;
    }
    ghost var between := fs.tree;
    ok := WriteWithParents(fs, root, sidecar.value, Sidecar(Stored(obj).metadata));
    BesideTransitive(t, between, fs.tree, root, root);
  }

  lemma SameBesideItself(t: Tree, root: Path)
    ensures SameBeside(t, t, root)
  {
  }

  // ----- what a write does to the objects held

  lemma WrittenAt(t: Tree, body: Path, sidecar: Path, obj: RemoteObject, q: Path)
    requires body != [] && sidecar != [] && body != sidecar
    ensures var w := Written(t, body, sidecar, obj);
      && (q == body ==> q in w && w[q] == File(Body(obj.body)))
      && (q == sidecar ==> q in w && w[q] == File(Sidecar(Stored(obj).metadata)))
      && (q != body && q != sidecar ==> (q in t ==> q in w && w[q] == t[q]) && (IsFile(w, q) ==> q in t))
      && (q in w && q !in t ==> q <= body || q <= sidecar)
  {
    WithFileAt(t, body, Body(obj.body), q);
    WithFileAt(WithFile(t, body, Body(obj.body)), sidecar, Sidecar(Stored(obj).metadata), q);
  }

  lemma BodyIsNoSidecar(root: Path, hash: string -> Digest, key: string, other: string)
    requires Canonical(key)
    ensures var body, sidecar := ObjectPath(root, key), SidecarAt(root, hash(other));
      body != [] && sidecar != [] && MetadataDir(root) <= sidecar && !(MetadataDir(root) <= body)
  {
    KeyOfObjectPath(root, key);
  }

  lemma WriteHolds(t: Tree, root: Path, hash: string -> Digest, mirror: Mirror, key: string, obj: RemoteObject)
    requires InjectiveOn(hash, mirror.Keys + {key}) && Canonical(key) && Holds(t, root, hash, mirror)
    ensures Holds(Written(t, ObjectPath(root, key), SidecarAt(root, hash(key)), obj), root, hash, mirror[key := Stored(obj)])
  {
    var body, sidecar, m := ObjectPath(root, key), SidecarAt(root, hash(key)), mirror[key := Stored(obj)];
    BodyIsNoSidecar(root, hash, key, key);
    var w := Written(t, body, sidecar, obj);
    forall k | k in m ensures BodyAt(w, ObjectPath(root, k), m[k]) && MetadataAt(w, SidecarAt(root, hash(k)), m[k]) {
      WrittenAt(t, body, sidecar, obj, ObjectPath(root, k));
      WrittenAt(t, body, sidecar, obj, SidecarAt(root, hash(k)));
      if k != key {
        OtherPlaces(root, hash, k, key);
        assert BodyAt(t, ObjectPath(root, k), mirror[k]);
      }
    }
    forall q | IsFile(w, q) && root <= q && !(MetadataDir(root) <= q) ensures IsBody(root, m, q) {
      WrittenAt(t, body, sidecar, obj, q);
      if q == body {
        assert key in m;
      } else {
        assert IsBody(root, mirror, q);
        var k :| k in mirror && q == ObjectPath(root, k);
        assert k in m;
      }
    }
  }

  /** Two canonical keys with different digests share neither place. */
  lemma OtherPlaces(root: Path, hash: string -> Digest, a: string, b: string)
    requires Canonical(a) && Canonical(b) && hash(a) != hash(b)
    ensures ObjectPath(root, a) != ObjectPath(root, b) && SidecarAt(root, hash(a)) != SidecarAt(root, hash(b))
    ensures ObjectPath(root, a) != SidecarAt(root, hash(b)) && SidecarAt(root, hash(a)) != ObjectPath(root, b)
  {
    if ObjectPath(root, a) == ObjectPath(root, b) { DistinctPaths(root, a, b); }
    DistinctSidecars(root, hash, a, b);
    BodyIsNoSidecar(root, hash, a, b);
    BodyIsNoSidecar(root, hash, b, a);
  }

  // ----- what the two prunes do to the objects held

  /** The sidecars deleted with stale objects are their own. */
  lemma PruneSpares(root: Path, hash: string -> Digest, mirror: Mirror, keys: set<string>, files: set<Path>, key: string)
    requires InjectiveOn(hash, mirror.Keys) && CanonicalKeys(mirror.Keys) && key in mirror && key in keys
    requires forall f :: f in files ==> IsBody(root, mirror, f)
    ensures !Doomed(root, hash, keys, files, ObjectPath(root, key)) && !Doomed(root, hash, keys, files, SidecarAt(root, hash(key)))
  {
    KeyOfObjectPath(root, key);
    BodyIsNoSidecar(root, hash, key, key);
    forall f | f in files && Stale(root, keys, f)
      ensures MetadataSidecarPath(root, hash, RelativeKey(root, f).value) != Ok(ObjectPath(root, key))
      ensures MetadataSidecarPath(root, hash, RelativeKey(root, f).value) != Ok(SidecarAt(root, hash(key)))
    {
      StaleBody(root, mirror, keys, f);
      OtherPlaces(root, hash, RelativeKey(root, f).value, key);
    }
    assert SidecarAt(root, hash(key)) !in files by {
      if SidecarAt(root, hash(key)) in files {
        var k :| k in mirror && SidecarAt(root, hash(key)) == ObjectPath(root, k);
        BodyIsNoSidecar(root, hash, k, key);
      }
    }
  }

  lemma StaleBody(root: Path, mirror: Mirror, keys: set<string>, f: Path)
    requires CanonicalKeys(mirror.Keys) && IsBody(root, mirror, f) && Stale(root, keys, f)
    ensures var key := RelativeKey(root, f).value; key in mirror && Canonical(key) && key !in keys && f == ObjectPath(root, key)
  {
    var k :| k in mirror && f == ObjectPath(root, k);
    KeyOfObjectPath(root, k);
  }

  /** The files the prune visits are the bodies held: the metadata directory is no file. */
  lemma VisitedAreBodies(t: Tree, root: Path, hash: string -> Digest, mirror: Mirror, f: Path)
    requires WellFormed(t) && IsDir(t, root) && Holds(t, root, hash, mirror) && !IsFile(t, MetadataDir(root))
    ensures f in WalkFiles(t, WalkDirs(t, root, Some(MetadataDir(root)))) <==> root <= f && f != [] && IsFile(t, f) && !(MetadataDir(root) <= f)
    ensures f in WalkFiles(t, WalkDirs(t, root, Some(MetadataDir(root)))) ==> IsBody(root, mirror, f)
  {
    if f in t && root <= f && f != root {
      assert root <= Parent(f) && IsDir(t, Parent(f));
    }
    if f in WalkFiles(t, WalkDirs(t, root, Some(MetadataDir(root)))) {
      EntryOutside(root, Parent(f), f);
    }
  }

  lemma NoMetadataFile(t: Tree, root: Path)
    requires IsDir(t, root) && AllKeyed(root, WalkFiles(t, WalkDirs(t, root, Some(MetadataDir(root)))))
    ensures !IsFile(t, MetadataDir(root))
  {
    var f := MetadataDir(root);
    assert Parent(f) == root && f[|root|..] == [METADATA_DIR_NAME];
    assert RelativeKey(root, f).Err?;
    assert IsFile(t, f) <==> f in WalkFiles(t, WalkDirs(t, root, Some(f)));
  }

  /** After both prunes: the listed part of what was held, and with every listed key held nothing else. */
  lemma PrunedImage(t: Tree, u: Tree, w: Tree, root: Path, hash: string -> Digest, keys: set<string>, mirror: Mirror)
    requires WellFormed(t) && WellFormed(u) && IsDir(t, root) && InjectiveOn(hash, mirror.Keys)
    requires Holds(t, root, hash, mirror) && CanonicalKeys(keys)
    requires Walked(t, u, root, hash, keys, WalkDirs(t, root, Some(MetadataDir(root))))
    requires Removed(u, w, WalkFiles(u, WalkDirs(u, MetadataDir(root), None)) - SidecarPaths(root, hash, keys))
    ensures Holds(w, root, hash, Restrict(mirror, keys))
    ensures keys <= mirror.Keys ==> Image(w, root, hash, Restrict(mirror, keys))
  {
    var kept := Restrict(mirror, keys);
    NoMetadataFile(t, root);
    forall k | k in kept ensures BodyAt(w, ObjectPath(root, k), kept[k]) && MetadataAt(w, SidecarAt(root, hash(k)), kept[k]) {
      KeptKey(t, u, w, root, hash, keys, mirror, k);
    }
    forall q | IsFile(w, q) && root <= q && !(MetadataDir(root) <= q) ensures IsBody(root, kept, q) {
      LeftBody(t, u, w, root, hash, keys, mirror, q);
    }
    if keys <= mirror.Keys {
      forall q | IsFile(w, q) && MetadataDir(root) <= q ensures IsSidecar(root, hash, kept, q) {
        LeftSidecar(t, u, w, root, hash, keys, mirror, q);
      }
    }
  }

  lemma KeptKey(t: Tree, u: Tree, w: Tree, root: Path, hash: string -> Digest, keys: set<string>, mirror: Mirror, key: string)
    requires WellFormed(t) && IsDir(t, root) && InjectiveOn(hash, mirror.Keys) && !IsFile(t, MetadataDir(root))
    requires Holds(t, root, hash, mirror) && key in mirror && key in keys
    requires PrunedTo(t, u, root, hash, keys, WalkFiles(t, WalkDirs(t, root, Some(MetadataDir(root)))))
    requires Removed(u, w, WalkFiles(u, WalkDirs(u, MetadataDir(root), None)) - SidecarPaths(root, hash, keys))
    ensures BodyAt(w, ObjectPath(root, key), mirror[key]) && MetadataAt(w, SidecarAt(root, hash(key)), mirror[key])
  {
    var files := WalkFiles(t, WalkDirs(t, root, Some(MetadataDir(root))));
    forall f | f in files ensures IsBody(root, mirror, f) { VisitedAreBodies(t, root, hash, mirror, f); }
    PruneSpares(root, hash, mirror, keys, files, key);
    BodyIsNoSidecar(root, hash, key, key);
    var body, sidecar := ObjectPath(root, key), SidecarAt(root, hash(key));
    assert BodyAt(t, body, mirror[key]) && MetadataAt(t, sidecar, mirror[key]);
    assert body in u.Keys && sidecar in u.Keys;
    assert sidecar in SidecarPaths(root, hash, keys);
    assert body !in WalkFiles(u, WalkDirs(u, MetadataDir(root), None));
    assert body in w.Keys && sidecar in w.Keys;
  }

  lemma LeftBody(t: Tree, u: Tree, w: Tree, root: Path, hash: string -> Digest, keys: set<string>, mirror: Mirror, q: Path)
    requires WellFormed(t) && IsDir(t, root) && !IsFile(t, MetadataDir(root)) && Holds(t, root, hash, mirror)
    requires PrunedTo(t, u, root, hash, keys, WalkFiles(t, WalkDirs(t, root, Some(MetadataDir(root)))))
    requires Removed(u, w, WalkFiles(u, WalkDirs(u, MetadataDir(root), None)) - SidecarPaths(root, hash, keys))
    requires IsFile(w, q) && root <= q && !(MetadataDir(root) <= q)
    ensures IsBody(root, Restrict(mirror, keys), q)
  {
    assert q in u && q in t;
    assert IsBody(root, mirror, q);
    var k :| k in mirror && q == ObjectPath(root, k);
    KeyOfObjectPath(root, k);
    VisitedAreBodies(t, root, hash, mirror, q);
    assert k in keys;
    assert k in Restrict(mirror, keys);
  }

  lemma LeftSidecar(t: Tree, u: Tree, w: Tree, root: Path, hash: string -> Digest, keys: set<string>, mirror: Mirror, q: Path)
    requires WellFormed(u) && !IsFile(t, MetadataDir(root)) && keys <= mirror.Keys
    requires PrunedTo(t, u, root, hash, keys, WalkFiles(t, WalkDirs(t, root, Some(MetadataDir(root)))))
    requires Removed(u, w, WalkFiles(u, WalkDirs(u, MetadataDir(root), None)) - SidecarPaths(root, hash, keys))
    requires IsFile(w, q) && MetadataDir(root) <= q
    ensures IsSidecar(root, hash, Restrict(mirror, keys), q)
  {
    assert q in u && q in t && q != MetadataDir(root);
    assert MetadataDir(root) <= Parent(q) && IsDir(u, Parent(q));
    assert q in WalkFiles(u, WalkDirs(u, MetadataDir(root), None));
    assert q in SidecarPaths(root, hash, keys);
    var k :| k in keys && q == SidecarAt(root, hash(k));
    assert k in Restrict(mirror, keys);
  }

  // ----- when a write can succeed

  /** Below the metadata directory: shards at depth one, sidecar files at depth two, nothing else. */
  ghost predicate MetadataShaped(t: Tree, root: Path) {
    forall q {:trigger q in t} :: q in t && MetadataDir(root) <= q ==>
      |q| <= |root| + 3 && (t[q].Dir? <==> |q| < |root| + 3)
  }

  /** Neither key is a directory on the way to the other. */
  predicate Unnested(a: string, b: string) {
    !(ObjectPath([], a) <= ObjectPath([], b)) && !(ObjectPath([], b) <= ObjectPath([], a))
  }

  ghost predicate PrefixFree(keys: set<string>) {
    forall a, b :: a in keys && b in keys && a != b ==> Unnested(a, b)
  }

  lemma UnnestedBelow(root: Path, a: string, b: string)
    requires Unnested(a, b)
    ensures !(ObjectPath(root, a) <= ObjectPath(root, b)) && !(ObjectPath(root, b) <= ObjectPath(root, a))
  {
    var p, q := ObjectPath([], a), ObjectPath([], b);
    assert ObjectPath(root, a) == root + p && ObjectPath(root, b) == root + q;
    PrefixBelow(root, p, q);
    PrefixBelow(root, q, p);
  }

  lemma PrefixBelow(root: Path, p: Path, q: Path)
    ensures root + p <= root + q <==> p <= q
  {
    assert (root + p)[|root|..] == p && (root + q)[|root|..] == q;
    if root + p <= root + q {
      assert forall i :: 0 <= i < |p| ==> p[i] == (root + p)[|root| + i] == (root + q)[|root| + i] == q[i];
    }
  }

  lemma ConflictAt(t: Tree, p: Path)
    ensures Conflict(t, p) <==> exists q :: q in t && q <= p && t[q].File?
  {
    if q :| q in t && q <= p && t[q].File? {
      assert q == p[..|q|];
    }
  }

  lemma WriteKeepsOpen(t: Tree, root: Path, sidecar: Path, key: string, obj: RemoteObject, other: string)
    requires Canonical(key) && Canonical(other) && Unnested(key, other) && MetadataDir(root) <= sidecar
    ensures Open(Written(t, ObjectPath(root, key), sidecar, obj), ObjectPath(root, other)) <==> Open(t, ObjectPath(root, other))
  {
    var body, place := ObjectPath(root, key), ObjectPath(root, other);
    KeyOfObjectPath(root, key);
    KeyOfObjectPath(root, other);
    UnnestedBelow(root, key, other);
    var w := Written(t, body, sidecar, obj);
    WrittenAt(t, body, sidecar, obj, place);
    ConflictAt(t, Parent(place));
    ConflictAt(w, Parent(place));
    forall q | q <= Parent(place) ensures q in w && w[q].File? <==> q in t && t[q].File? {
      WrittenAt(t, body, sidecar, obj, q);
    }
  }

  /** In a well-shaped metadata directory a sidecar always has its place, and writing keeps the shape. */
  lemma WriteKeepsShape(t: Tree, root: Path, hash: string -> Digest, key: string, obj: RemoteObject)
    requires WellFormed(t) && IsDir(t, root) && Canonical(key) && MetadataShaped(t, root)
    ensures var body, sidecar := ObjectPath(root, key), SidecarAt(root, hash(key));
      && (Open(t, body) ==> Open(WithFile(t, body, Body(obj.body)), sidecar))
      && MetadataShaped(Written(t, body, sidecar, obj), root)
  {
    var body, sidecar := ObjectPath(root, key), SidecarAt(root, hash(key));
    var data := Body(obj.body);
    KeyOfObjectPath(root, key);
    BodyIsNoSidecar(root, hash, key, key);
    var u := WithFile(t, body, data);
    var parent := Parent(sidecar);
    forall q ensures (q in u && MetadataDir(root) <= q ==> q in t && u[q] == t[q]) && (q in t && q != body ==> q in u && u[q] == t[q]) {
      WithFileAt(t, body, data, q);
    }
    ConflictAt(u, parent);
    forall q | q in u && q <= parent ensures u[q].Dir? {
      WithFileAt(t, body, data, q);
      SidecarParents(t, root, sidecar, q);
      assert q != body by { if q == body { SidecarParents(t, root, sidecar, q); BodyUnderRoot(root, key); } }
    }
    forall q | q in Written(t, body, sidecar, obj) && MetadataDir(root) <= q
      ensures |q| <= |root| + 3 && (Written(t, body, sidecar, obj)[q].Dir? <==> |q| < |root| + 3)
    {
      WithFileAt(u, sidecar, Sidecar(Stored(obj).metadata), q);
    }
  }

  lemma BodyUnderRoot(root: Path, key: string)
    requires Canonical(key)
    ensures root <= ObjectPath(root, key) && ObjectPath(root, key) != root
  {
    KeyOfObjectPath(root, key);
  }

  lemma SidecarParents(t: Tree, root: Path, sidecar: Path, q: Path)
    requires WellFormed(t) && IsDir(t, root) && MetadataShaped(t, root)
    requires |sidecar| == |root| + 3 && MetadataDir(root) <= sidecar && q <= Parent(sidecar)
    ensures q <= root || MetadataDir(root) <= q
    ensures q in t ==> t[q].Dir?
  {
    PrefixesCompare(q, MetadataDir(root), sidecar);
    if q <= root {
      AncestorExists(t, root, q);
    }
  }

  // ----- downloads

  /** What the remote answers during one refresh: one listing, and one answer per key, each at its own time. */
  datatype Remote = Remote(
    list: Result<seq<RemoteObjectSummary>, RefreshError>,
    get: string -> Result<RemoteObject, RefreshError>)

  function Fetched(remote: Remote, keys: set<string>): Mirror {
    map k | k in keys && remote.get(k).Ok? :: Stored(remote.get(k).value)
  }

  predicate Delivers(remote: Remote, files: Files, key: string) {
    key in files && remote.get(key).Ok? && ValidateDownloadedObject(key, files[key], remote.get(key).value).Ok?
  }

  predicate Fits(t: Tree, root: Path, key: string) {
    Open(t, ObjectPath(root, key))
  }

  ghost predicate AllDelivered(remote: Remote, files: Files, keys: set<string>) {
    forall k :: k in keys ==> Delivers(remote, files, k)
  }

  ghost predicate AllFit(t: Tree, root: Path, keys: set<string>) {
    forall k :: k in keys ==> Fits(t, root, k)
  }

  lemma DeliveredKey(remote: Remote, files: Files, key: string)
    requires Delivers(remote, files, key)
    ensures NormalizeRemoteKey(key).Ok? && remote.get(key).value.key == key
  {
  }

  /** One key fetched, checked against its entry and written. */
  function AfterDownload(t: Tree, root: Path, hash: string -> Digest, remote: Remote, files: Files, key: string): Option<Tree> {
    if !Delivers(remote, files, key) then None
    else
      var obj := remote.get(key).value;
      if root == [] || !Storable(t, root, hash, obj) then None
      else Some(Written(t, ObjectPath(root, obj.key), MetadataSidecarPath(root, hash, obj.key).value, obj))
  }

  function AfterDownloads(t: Tree, root: Path, hash: string -> Digest, remote: Remote, files: Files, order: seq<string>): Option<Tree> {
    if order == [] then Some(t)
    else match AfterDownloads(t, root, hash, remote, files, order[..|order| - 1])
      case None => None
      case Some(u) => AfterDownload(u, root, hash, remote, files, order[|order| - 1])
  }

  method DownloadObject(fs: FileSystem, root: Path, hash: string -> Digest, remote: Remote, files: Files, key: string)
    returns (r: Result<(), RefreshError>)
    requires WellFormed(fs.tree) && IsDir(fs.tree, root) && root != [] && key in files
    modifies fs
    ensures WellFormed(fs.tree) && IsDir(fs.tree, root) && SameBeside(old(fs.tree), fs.tree, root)
    ensures r.Ok? ==> AfterDownload(old(fs.tree), root, hash, remote, files, key) == Some(fs.tree)
    ensures old(fs.schedule) == [] ==> fs.schedule == [] && (r.Ok? <==> AfterDownload(old(fs.tree), root, hash, remote, files, key).Some?)
  {
    SameBesideItself(fs.tree, root);
    var got := remote.get(key);
    if got.Err? {
      return Err(got.error);
    }
    if ValidateDownloadedObject(key, files[key], got.value).Err? {
      return Err(DownloadFailed(key));
    }
    var ok := WriteObject(fs, root, hash, got.value);
    return if ok then Ok(()) else Err(DiskFailed);
  }

  method DownloadNext(fs: FileSystem, ghost t: Tree, root: Path, hash: string -> Digest, remote: Remote, files: Files, order: seq<string>, n: nat)
    returns (r: Result<(), RefreshError>)
    requires WellFormed(fs.tree) && IsDir(fs.tree, root) && root != [] && n < |order| && order[n] in files
    requires SameBeside(t, fs.tree, root) && AfterDownloads(t, root, hash, remote, files, order[..n]) == Some(fs.tree)
    modifies fs
    ensures WellFormed(fs.tree) && IsDir(fs.tree, root) && SameBeside(t, fs.tree, root)
    ensures r.Ok? ==> AfterDownloads(t, root, hash, remote, files, order[..n + 1]) == Some(fs.tree)
    ensures old(fs.schedule) == [] ==> fs.schedule == [] && (r.Err? ==> AfterDownloads(t, root, hash, remote, files, order).None?)
  {
    ghost var now := fs.tree;
    ExtendDownloads(t, now, root, hash, remote, files, order, n);
    r := DownloadObject(fs, root, hash, remote, files, order[n]);
    BesideTransitive(t, now, fs.tree, root, root);
  }

  lemma ExtendDownloads(t: Tree, now: Tree, root: Path, hash: string -> Digest, remote: Remote, files: Files, order: seq<string>, n: nat)
    requires n < |order| && AfterDownloads(t, root, hash, remote, files, order[..n]) == Some(now)
    ensures AfterDownloads(t, root, hash, remote, files, order[..n + 1]) == AfterDownload(now, root, hash, remote, files, order[n])
    ensures AfterDownload(now, root, hash, remote, files, order[n]).None? ==> AfterDownloads(t, root, hash, remote, files, order).None?
  {
    assert order[..n + 1][..n] == order[..n];
    FailedPrefix(t, root, hash, remote, files, order, n + 1);
  }

  method DownloadChanged(fs: FileSystem, root: Path, hash: string -> Digest, remote: Remote, files: Files, order: seq<string>)
    returns (r: Result<nat, RefreshError>)
    requires WellFormed(fs.tree) && IsDir(fs.tree, root) && root != [] && (forall k :: k in order ==> k in files)
    modifies fs
    ensures WellFormed(fs.tree) && IsDir(fs.tree, root) && SameBeside(old(fs.tree), fs.tree, root)
    ensures r.Ok? ==> r.value == |order| && AfterDownloads(old(fs.tree), root, hash, remote, files, order) == Some(fs.tree)
    ensures old(fs.schedule) == [] ==> fs.schedule == [] && (r.Ok? <==> AfterDownloads(old(fs.tree), root, hash, remote, files, order).Some?)
  {
    ghost var t := fs.tree;
    var downloaded := 0;
    SameBesideItself(t, root);
    while downloaded < |order|
      invariant downloaded <= |order|
      invariant WellFormed(fs.tree) && IsDir(fs.tree, root) && SameBeside(t, fs.tree, root)
      invariant AfterDownloads(t, root, hash, remote, files, order[..downloaded]) == Some(fs.tree)
      invariant old(fs.schedule) == [] ==> fs.schedule == []
    {
      var stored := DownloadNext(fs, t, root, hash, remote, files, order, downloaded);
      if stored.Err? {
        return Err(stored.error);
      }
      downloaded := downloaded + 1;
    }
    assert order[..|order|] == order;
    return Ok(downloaded);
  }

  lemma {:induction false} FailedPrefix(t: Tree, root: Path, hash: string -> Digest, remote: Remote, files: Files, order: seq<string>, n: nat)
    requires n <= |order|
    ensures AfterDownloads(t, root, hash, remote, files, order[..n]).None? ==> AfterDownloads(t, root, hash, remote, files, order).None?
  {
    if n == |order| {
      assert order[..n] == order;
    } else {
      var shorter := order[..|order| - 1];
      assert shorter[..n] == order[..n];
      FailedPrefix(t, root, hash, remote, files, shorter, n);
    }
  }

  lemma StorableKey(t: Tree, root: Path, hash: string -> Digest, key: string, obj: RemoteObject)
    requires Canonical(key) && obj.key == key && WellFormed(t) && IsDir(t, root)
    ensures MetadataSidecarPath(root, hash, key) == Ok(SidecarAt(root, hash(key)))
    ensures Storable(t, root, hash, obj) ==> Fits(t, root, key)
    ensures MetadataShaped(t, root) ==> (Storable(t, root, hash, obj) <==> Fits(t, root, key))
  {
    if MetadataShaped(t, root) {
      WriteKeepsShape(t, root, hash, key, obj);
    }
    LastCharacter(key);
  }

  lemma LastCharacter(key: string)
    requires Canonical(key)
    ensures key != "" && key[|key| - 1] != '/'
  {
    if key[|key| - 1] == '/' {
      TrailingSlash(key);
      assert false;
    }
  }

  lemma {:induction false} TrailingSlash(s: string)
    requires s != "" && s[|s| - 1] == '/'
    ensures "" in Text.Split(s, '/')
  {
    if |s| == 1 {
      assert Text.Split(s[1..], '/') == [""];
      assert Text.Split(s, '/')[0] == "";
    } else {
      TrailingSlashTail(s);
    }
  }

  lemma {:induction false} TrailingSlashTail(s: string)
    requires |s| > 1 && s[|s| - 1] == '/'
    ensures var parts := Text.Split(s, '/'); |parts| > 1 && parts[|parts| - 1] == ""
  {
    var rest := Text.Split(s[1..], '/');
    if |s| == 2 {
      assert s[1..] == "/";
      assert Text.Split("/", '/') == ["", ""];
    } else {
      TrailingSlashTail(s[1..]);
    }
  }

  lemma FetchedOneMore(remote: Remote, mirror: Mirror, done: set<string>, key: string)
    requires remote.get(key).Ok?
    ensures mirror + Fetched(remote, done + {key}) == (mirror + Fetched(remote, done))[key := Stored(remote.get(key).value)]
  {
  }

  function Elements(order: seq<string>): set<string> {
    set k | k in order
  }

  lemma OneMoreElement(order: seq<string>)
    requires order != []
    ensures Elements(order) == Elements(order[..|order| - 1]) + {order[|order| - 1]}
  {
    assert order == order[..|order| - 1] + [order[|order| - 1]];
  }

  lemma DownloadHolds(t: Tree, root: Path, hash: string -> Digest, remote: Remote, files: Files, key: string, mirror: Mirror)
    requires root != [] && InjectiveOn(hash, mirror.Keys + {key}) && Canonical(key) && Holds(t, root, hash, mirror)
    requires AfterDownload(t, root, hash, remote, files, key).Some?
    ensures Holds(AfterDownload(t, root, hash, remote, files, key).value, root, hash, mirror[key := Stored(remote.get(key).value)])
  {
    DeliveredKey(remote, files, key);
    WriteHolds(t, root, hash, mirror, key, remote.get(key).value);
  }

  /** After all downloads the directory holds what it held and, over it, what was fetched; every
      object fetched passed the check against its entry. */
  lemma {:induction false} DownloadsHold(t: Tree, root: Path, hash: string -> Digest, remote: Remote, files: Files, order: seq<string>, mirror: Mirror)
    requires root != [] && InjectiveOn(hash, mirror.Keys + Elements(order)) && CanonicalKeys(Elements(order)) && Holds(t, root, hash, mirror)
    requires AfterDownloads(t, root, hash, remote, files, order).Some?
    ensures Holds(AfterDownloads(t, root, hash, remote, files, order).value, root, hash, mirror + Fetched(remote, Elements(order)))
    ensures AllDelivered(remote, files, Elements(order))
  {
    if order == [] {
      assert mirror + Fetched(remote, {}) == mirror;
    } else {
      var init, key := order[..|order| - 1], order[|order| - 1];
      OneMoreElement(order);
      assert key in Elements(order);
      InjectiveOnFewer(hash, mirror.Keys + Elements(init), mirror.Keys + Elements(order));
      DownloadsHold(t, root, hash, remote, files, init, mirror);
      var u := AfterDownloads(t, root, hash, remote, files, init).value;
      NextDownloadHolds(u, root, hash, remote, files, Elements(init), key, mirror);
    }
  }

  lemma NextDownloadHolds(u: Tree, root: Path, hash: string -> Digest, remote: Remote, files: Files, done: set<string>, key: string, mirror: Mirror)
    requires root != [] && InjectiveOn(hash, mirror.Keys + (done + {key})) && Canonical(key)
    requires Holds(u, root, hash, mirror + Fetched(remote, done)) && AllDelivered(remote, files, done)
    requires AfterDownload(u, root, hash, remote, files, key).Some?
    ensures Holds(AfterDownload(u, root, hash, remote, files, key).value, root, hash, mirror + Fetched(remote, done + {key}))
    ensures AllDelivered(remote, files, done + {key})
  {
    FetchedOneMore(remote, mirror, done, key);
    InjectiveOnFewer(hash, (mirror + Fetched(remote, done)).Keys + {key}, mirror.Keys + (done + {key}));
    DownloadHolds(u, root, hash, remote, files, key, mirror + Fetched(remote, done));
    DeliveredOneMore(remote, files, done, key);
  }

  lemma DeliveredOneMore(remote: Remote, files: Files, done: set<string>, key: string)
    requires AllDelivered(remote, files, done) && Delivers(remote, files, key)
    ensures AllDelivered(remote, files, done + {key})
  {
  }

  // ----- when the downloads succeed

  lemma WithFileWellFormed(t: Tree, p: Path, data: FileData)
    requires WellFormed(t) && Open(t, p)
    ensures WellFormed(WithFile(t, p, data))
  {
    var w := WithFile(t, p, data);
    WithDirsWellFormed(t, Parent(p));
    var made := WithDirs(t, Parent(p));
    WithDirsAt(t, Parent(p), p);
    forall q | q in w && q != [] ensures IsDir(w, Parent(q)) {
      assert q == p || q in made;
      assert IsDir(made, Parent(q));
    }
  }

  lemma DownloadKeepsWellFormed(t: Tree, root: Path, hash: string -> Digest, remote: Remote, files: Files, key: string)
    requires WellFormed(t) && IsDir(t, root) && AfterDownload(t, root, hash, remote, files, key).Some?
    ensures var w := AfterDownload(t, root, hash, remote, files, key).value; WellFormed(w) && IsDir(w, root)
  {
    var obj := remote.get(key).value;
    var body, sidecar := ObjectPath(root, obj.key), MetadataSidecarPath(root, hash, obj.key).value;
    WithFileWellFormed(t, body, Body(obj.body));
    WithFileWellFormed(WithFile(t, body, Body(obj.body)), sidecar, Sidecar(Stored(obj).metadata));
    WithFileAt(t, body, Body(obj.body), root);
    WithFileAt(WithFile(t, body, Body(obj.body)), sidecar, Sidecar(Stored(obj).metadata), root);
  }

  lemma DownloadFits(t: Tree, root: Path, hash: string -> Digest, remote: Remote, files: Files, key: string)
    requires WellFormed(t) && IsDir(t, root) && root != [] && MetadataShaped(t, root) && Canonical(key)
    ensures AfterDownload(t, root, hash, remote, files, key).Some? <==> Delivers(remote, files, key) && Fits(t, root, key)
    ensures AfterDownload(t, root, hash, remote, files, key).Some? ==> MetadataShaped(AfterDownload(t, root, hash, remote, files, key).value, root)
  {
    if Delivers(remote, files, key) {
      DeliveredKey(remote, files, key);
      StorableKey(t, root, hash, key, remote.get(key).value);
      WriteKeepsShape(t, root, hash, key, remote.get(key).value);
    }
  }

  lemma DownloadKeepsFit(t: Tree, root: Path, hash: string -> Digest, remote: Remote, files: Files, key: string, other: string)
    requires Canonical(key) && Canonical(other) && Unnested(key, other) && AfterDownload(t, root, hash, remote, files, key).Some?
    ensures Fits(AfterDownload(t, root, hash, remote, files, key).value, root, other) <==> Fits(t, root, other)
  {
    DeliveredKey(remote, files, key);
    WriteKeepsOpen(t, root, SidecarAt(root, hash(key)), key, remote.get(key).value, other);
  }

  /** The listed keys to come are on nobody's way. */
  predicate Ordered(order: seq<string>) {
    && (forall i :: 0 <= i < |order| ==> Canonical(order[i]))
    && (forall i, j :: 0 <= i < j < |order| ==> Unnested(order[i], order[j]))
  }

  lemma {:induction false} DownloadsKeepShape(t: Tree, root: Path, hash: string -> Digest, remote: Remote, files: Files, order: seq<string>)
    requires WellFormed(t) && IsDir(t, root) && root != [] && MetadataShaped(t, root) && CanonicalKeys(Elements(order))
    requires AfterDownloads(t, root, hash, remote, files, order).Some?
    ensures var u := AfterDownloads(t, root, hash, remote, files, order).value; WellFormed(u) && IsDir(u, root) && MetadataShaped(u, root)
  {
    if order != [] {
      var init, key := order[..|order| - 1], order[|order| - 1];
      OneMoreElement(order);
      assert key in Elements(order);
      DownloadsKeepShape(t, root, hash, remote, files, init);
      var u := AfterDownloads(t, root, hash, remote, files, init).value;
      DownloadKeepsWellFormed(u, root, hash, remote, files, key);
      DownloadFits(u, root, hash, remote, files, key);
    }
  }

  lemma {:induction false} DownloadsKeepFit(t: Tree, root: Path, hash: string -> Digest, remote: Remote, files: Files, order: seq<string>, other: string)
    requires Ordered(order) && Canonical(other) && (forall i :: 0 <= i < |order| ==> Unnested(order[i], other))
    requires AfterDownloads(t, root, hash, remote, files, order).Some?
    ensures Fits(AfterDownloads(t, root, hash, remote, files, order).value, root, other) <==> Fits(t, root, other)
  {
    if order != [] {
      var init, key := order[..|order| - 1], order[|order| - 1];
      DownloadsKeepFit(t, root, hash, remote, files, init, other);
      DownloadKeepsFit(AfterDownloads(t, root, hash, remote, files, init).value, root, hash, remote, files, key, other);
    }
  }

  /** With a disk that works, the downloads succeed exactly when the remote delivers every changed
      key as listed and, before any write, no directory lies at its place and no file on the way. */
  lemma {:induction false} DownloadsSucceedExactly(t: Tree, root: Path, hash: string -> Digest, remote: Remote, files: Files, order: seq<string>)
    requires WellFormed(t) && IsDir(t, root) && root != [] && MetadataShaped(t, root) && Ordered(order)
    ensures AfterDownloads(t, root, hash, remote, files, order).Some? <==>
      AllDelivered(remote, files, Elements(order)) && AllFit(t, root, Elements(order))
  {
    if order != [] {
      var init, key := order[..|order| - 1], order[|order| - 1];
      OneMoreElement(order);
      DownloadsSucceedExactly(t, root, hash, remote, files, init);
      assert key in Elements(order);
      if AfterDownloads(t, root, hash, remote, files, init).Some? {
        forall k | k in Elements(init) ensures Canonical(k) {}
        DownloadsKeepShape(t, root, hash, remote, files, init);
        DownloadsKeepFit(t, root, hash, remote, files, init, key);
        DownloadFits(AfterDownloads(t, root, hash, remote, files, init).value, root, hash, remote, files, key);
      }
    }
  }

  // ----- directories outlive their keys

  ghost predicate DirsKept(before: Tree, after: Tree) {
    forall q {:trigger q in before} :: IsDir(before, q) ==> IsDir(after, q)
  }

  lemma {:induction false} DownloadsKeepDirs(t: Tree, root: Path, hash: string -> Digest, remote: Remote, files: Files, order: seq<string>)
    requires AfterDownloads(t, root, hash, remote, files, order).Some?
    ensures DirsKept(t, AfterDownloads(t, root, hash, remote, files, order).value)
  {
    if order != [] {
      var init, key := order[..|order| - 1], order[|order| - 1];
      DownloadsKeepDirs(t, root, hash, remote, files, init);
      var u := AfterDownloads(t, root, hash, remote, files, init).value;
      var w := AfterDownload(u, root, hash, remote, files, key).value;
      DownloadKeepsDirs(u, root, hash, remote, files, key);
      DirsKeptTransitive(t, u, w);
    }
  }

  lemma DirsKeptTransitive(a: Tree, b: Tree, c: Tree)
    requires DirsKept(a, b) && DirsKept(b, c)
    ensures DirsKept(a, c)
  {
    forall q | IsDir(a, q) ensures IsDir(c, q) { assert IsDir(b, q); }
  }

  lemma DownloadKeepsDirs(t: Tree, root: Path, hash: string -> Digest, remote: Remote, files: Files, key: string)
    requires AfterDownload(t, root, hash, remote, files, key).Some?
    ensures DirsKept(t, AfterDownload(t, root, hash, remote, files, key).value)
  {
    var obj := remote.get(key).value;
    var body, sidecar := ObjectPath(root, obj.key), MetadataSidecarPath(root, hash, obj.key).value;
    forall q | IsDir(t, q) ensures IsDir(Written(t, body, sidecar, obj), q) {
      WithFileAt(t, body, Body(obj.body), q);
      WithFileAt(WithFile(t, body, Body(obj.body)), sidecar, Sidecar(Stored(obj).metadata), q);
    }
  }

  lemma RemovalsKeepDirs(t: Tree, u: Tree, w: Tree, root: Path)
    requires DirsKept(t, u) && OnlyRemoved(u, w, root)
    ensures DirsKept(t, w)
  {
    forall q | IsDir(t, q) ensures IsDir(w, q) {
      assert IsDir(u, q) && (q in w <==> q in w.Keys);
    }
  }

  /** The place of a key that was a directory of an object once held. */
  lemma KeyOfDirectoryBlocked(t: Tree, root: Path, hash: string -> Digest, mirror: Mirror, key: string, below: string)
    requires WellFormed(t) && Holds(t, root, hash, mirror) && below in mirror
    requires ObjectPath(root, key) <= ObjectPath(root, below) && ObjectPath(root, key) != ObjectPath(root, below)
    ensures IsDir(t, ObjectPath(root, key)) && !Fits(t, root, key)
  {
    assert BodyAt(t, ObjectPath(root, below), mirror[below]);
    AncestorExists(t, ObjectPath(root, below), ObjectPath(root, key));
  }
}
