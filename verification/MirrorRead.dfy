/** Reading a mirror back: one object by its key, and the keys of all objects. */
module MirrorRead {
  import opened Common
  import Text
  import opened Freshness
  import opened LocalMirror
  import opened FileTree
  import opened TreeWalk
  import opened MirrorLayout
  import opened MirrorPrune
  import opened MirrorSync
  import opened OriginRuntime

  const NO_METADATA := ObjectMetadata(None, None, None, None)

  /** What a directory stores under a key that has a path: the body, with the sidecar if there is one. */
  function StoredAt(t: Tree, root: Path, hash: string -> Digest, normalized: string): Option<LocalObject> {
    var body, sidecar := ObjectPath(root, normalized), SidecarAt(root, hash(normalized));
    if IsFile(t, body) && t[body].data.Body? then
      Some(LocalObject(t[body].data.bytes, if IsFile(t, sidecar) && t[sidecar].data.Sidecar? then t[sidecar].data.metadata else NO_METADATA))
    else None
  }

  /** `read_object`. For any key the value is what is stored; for a canonical key that is the object of
      the mirror held, and a working disk refuses it only for a directory at its place or a file on the way. */
  method ReadObject(fs: FileSystem, root: Path, hash: string -> Digest, key: string, ghost mirror: Mirror)
    returns (r: Result<Option<LocalObject>, RefreshError>)
    requires Holds(fs.tree, root, hash, mirror)
    modifies fs`schedule
    ensures r.Ok? ==> NormalizeObjectPath(key).Ok? && r.value == StoredAt(fs.tree, root, hash, NormalizeObjectPath(key).value)
    ensures Canonical(key) && r.Ok? ==> r.value == if key in mirror then Some(mirror[key]) else None
    ensures old(fs.schedule) == [] ==> fs.schedule == [] && (Canonical(key) ==> (r.Ok? <==> key in mirror || Fits(fs.tree, root, key)))
  {
    var normalized := NormalizeObjectPath(key);
    if normalized.Err? {
      return Err(InvalidListing(key));
    }
    if Canonical(key) {
      HeldAt(fs.tree, root, hash, mirror, key);
      if key !in mirror {
        AbsentOrFits(fs.tree, root, key);
      }
    }
    var body := fs.ReadFile(ObjectPath(root, normalized.value));
    if body == Err(NotFound) {
      return Ok(None);
    }
    if body.Err? || body.value.Sidecar? {
      return Err(DiskFailed);
    }
    var sidecar := fs.ReadFile(SidecarAt(root, hash(normalized.value)));
    if sidecar == Err(NotFound) {
      return Ok(Some(LocalObject(body.value.bytes, NO_METADATA)));
    }
    if sidecar.Err? || sidecar.value.Body? {
      return Err(DiskFailed);
    }
    return Ok(Some(LocalObject(body.value.bytes, sidecar.value.metadata)));
  }

  lemma AbsentOrFits(t: Tree, root: Path, key: string)
    requires Canonical(key) && !IsFile(t, ObjectPath(root, key))
    ensures Fits(t, root, key) <==> ObjectPath(root, key) !in t && !Conflict(t, ObjectPath(root, key))
  {
    KeyOfObjectPath(root, key);
    var p := ObjectPath(root, key);
    assert p[..|p|] == p;
    assert forall i :: 0 <= i < |p| ==> Parent(p)[..i] == p[..i];
    if !Conflict(t, p) {
      forall i | 0 <= i <= |Parent(p)| ensures !IsFile(t, Parent(p)[..i]) { assert Parent(p)[..i] == p[..i]; }
    }
    if !Conflict(t, Parent(p)) {
      forall i | 0 <= i <= |p| ensures !IsFile(t, p[..i]) {
        if i < |p| { assert Parent(p)[..i] == p[..i]; }
      }
    }
  }

  lemma HeldAt(t: Tree, root: Path, hash: string -> Digest, mirror: Mirror, key: string)
    requires Holds(t, root, hash, mirror) && Canonical(key)
    ensures key in mirror ==>
      BodyAt(t, ObjectPath(root, key), mirror[key]) && MetadataAt(t, SidecarAt(root, hash(key)), mirror[key])
    ensures IsFile(t, ObjectPath(root, key)) ==> key in mirror
  {
    KeyOfObjectPath(root, key);
    if IsFile(t, ObjectPath(root, key)) {
      assert IsBody(root, mirror, ObjectPath(root, key));
      var k :| k in mirror && ObjectPath(root, key) == ObjectPath(root, k);
      DistinctPaths(root, key, k);
    }
  }

  // ----- the walk over all objects

  function TemplateKey(root: Path, f: Path): Result<string, string> {
    if root <= f then NormalizeObjectPath(Text.Join(f[|root|..], '/')) else Err("")
  }

  /** `keys` names the files `found`, in the order met. */
  ghost predicate Names(name: Path -> Result<string, string>, keys: seq<string>, found: seq<Path>) {
    && |keys| == |found|
    && forall i {:trigger found[i]} {:trigger keys[i]} :: 0 <= i < |keys| ==> name(found[i]) == Ok(keys[i])
  }

  lemma FoundOneMore(t: Tree, done: set<Path>, entry: Path, found: seq<Path>)
    requires Lists(found, FilesAmong(t, done)) && entry !in done && IsFile(t, entry)
    ensures Lists(found + [entry], FilesAmong(t, done + {entry}))
  {
    var next := found + [entry];
    forall q ensures q in next <==> q in FilesAmong(t, done + {entry}) {
      assert q in found <==> q in FilesAmong(t, done);
    }
    assert entry !in found;
  }

  lemma FoundFurther(a: seq<Path>, b: seq<Path>, s: set<Path>, u: set<Path>)
    requires Lists(a, s) && Lists(b, u) && s !! u
    ensures Lists(a + b, s + u)
  {
    var c := a + b;
    forall q ensures q in c <==> q in s + u {
      assert q in c <==> q in a || q in b;
    }
    forall i, j | 0 <= i < j < |c| ensures c[i] != c[j] {
      if i < |a| <= j {
        assert a[i] in s && b[j - |a|] in u;
      }
    }
  }

  method ListEntry(fs: FileSystem, name: Path -> Result<string, string>, root: Path, d: Path, ghost done: set<Path>, entry: Path,
                   keys: seq<string>, ghost found: seq<Path>, subs: seq<Path>)
    returns (r: Result<seq<string>, RefreshError>, ghost more: seq<Path>, pushed: seq<Path>)
    requires root <= d && !(MetadataDir(root) <= d) && Entries(fs.tree, d, {entry}) && entry !in done
    requires Names(name, keys, found) && Lists(found, FilesAmong(fs.tree, done))
    requires Lists(subs, DirsAmong(fs.tree, done, Some(MetadataDir(root))))
    ensures r.Ok? ==> Names(name, r.value, more) && Lists(more, FilesAmong(fs.tree, done + {entry}))
    ensures r.Ok? ==> Lists(pushed, DirsAmong(fs.tree, done + {entry}, Some(MetadataDir(root))))
    ensures (IsFile(fs.tree, entry) ==> name(entry).Ok?) ==> r.Ok?
  {
    assert entry in {entry};
    EntryOutside(root, d, entry);
    FilesOneMore(fs.tree, done, entry);
    DirsOneMore(fs.tree, done, Some(MetadataDir(root)), entry, subs);
    if fs.tree[entry].Dir? {
      assert FilesAmong(fs.tree, done + {entry}) == FilesAmong(fs.tree, done);
      return Ok(keys), found, if entry == MetadataDir(root) then subs else subs + [entry];
    }
    FoundOneMore(fs.tree, done, entry, found);
    var key := name(entry);
    if key.Err? {
      return Err(InvalidListing(key.error)), found, subs;
    }
    return Ok(keys + [key.value]), found + [entry], subs;
  }

  method ListEntries(fs: FileSystem, name: Path -> Result<string, string>, root: Path, d: Path, listed: set<Path>)
    returns (r: Result<seq<string>, RefreshError>, ghost found: seq<Path>, subs: seq<Path>)
    requires root <= d && !(MetadataDir(root) <= d) && Entries(fs.tree, d, listed)
    ensures r.Ok? ==> Names(name, r.value, found) && Lists(found, FilesAmong(fs.tree, listed))
    ensures r.Ok? ==> Lists(subs, DirsAmong(fs.tree, listed, Some(MetadataDir(root))))
    ensures AllNamed(name, FilesAmong(fs.tree, listed)) ==> r.Ok?
  {
    ghost var t := fs.tree;
    var keys: seq<string> := [];
    found := [];
    subs := [];
    var entries := listed;
    while entries != {}
      invariant entries <= listed
      invariant Names(name, keys, found) && Lists(found, FilesAmong(t, listed - entries))
      invariant Lists(subs, DirsAmong(t, listed - entries, Some(MetadataDir(root))))
      decreases |entries|
    {
      var entry :| entry in entries;
      ghost var done := listed - entries;
      entries := entries - {entry};
      assert listed - entries == done + {entry};
      assert IsFile(t, entry) ==> entry in FilesAmong(t, listed);
      r, found, subs := ListEntry(fs, name, root, d, done, entry, keys, found, subs);
      if r.Err? {
        return;
      }
      keys := r.value;
    }
    assert listed - entries == listed;
    return Ok(keys), found, subs;
  }

  method NamedDir(fs: FileSystem, name: Path -> Result<string, string>, root: Path, d: Path)
    returns (r: Result<seq<string>, RefreshError>, ghost found: seq<Path>, subs: seq<Path>)
    requires root <= d && !(MetadataDir(root) <= d)
    modifies fs`schedule
    ensures r.Ok? ==> Names(name, r.value, found) && Lists(found, FilesIn(fs.tree, d))
    ensures r.Ok? ==> Lists(subs, SubDirs(fs.tree, d, Some(MetadataDir(root))))
    ensures old(fs.schedule) == [] ==> fs.schedule == []
    ensures old(fs.schedule) == [] && IsDir(fs.tree, d) && AllNamed(name, FilesIn(fs.tree, d)) ==> r.Ok?
  {
    var listed := fs.ReadDir(d);
    if listed.Err? {
      return Err(DiskFailed), [], [];
    }
    ListedClasses(fs.tree, d, Some(MetadataDir(root)));
    r, found, subs := ListEntries(fs, name, root, d, listed.value);
  }

  lemma FoundDir(t: Tree, done: set<Path>, d: Path, found: seq<Path>, more: seq<Path>)
    requires d !in done && Lists(found, WalkFiles(t, done)) && Lists(more, FilesIn(t, d))
    ensures Lists(found + more, WalkFiles(t, done + {d}))
  {
    MoreFiles(t, done, d);
    FoundFurther(found, more, WalkFiles(t, done), FilesIn(t, d));
  }

  ghost predicate AllNamed(name: Path -> Result<string, string>, files: set<Path>) {
    forall f :: f in files ==> name(f).Ok?
  }

  lemma FilesOfDir(name: Path -> Result<string, string>, t: Tree, dirs: set<Path>, d: Path)
    requires d in dirs
    ensures AllNamed(name, WalkFiles(t, dirs)) ==> AllNamed(name, FilesIn(t, d))
  {
    assert FilesIn(t, d) <= WalkFiles(t, dirs);
  }

  lemma NamesJoin(name: Path -> Result<string, string>, a: seq<string>, b: seq<Path>, c: seq<string>, d: seq<Path>)
    requires Names(name, a, b) && Names(name, c, d)
    ensures Names(name, a + c, b + d)
  {
  }

  /** One more directory, after `done` of them. */
  method NamedNext(fs: FileSystem, name: Path -> Result<string, string>, root: Path, ghost dirs: set<Path>,
                   ghost done: set<Path>, d: Path, files: seq<string>, ghost found: seq<Path>)
    returns (r: Result<seq<string>, RefreshError>, ghost more: seq<Path>, subs: seq<Path>)
    requires root <= d && !(MetadataDir(root) <= d) && d !in done && d in dirs && IsDir(fs.tree, d)
    requires Names(name, files, found) && Lists(found, WalkFiles(fs.tree, done))
    modifies fs`schedule
    ensures r.Ok? ==> Names(name, r.value, more) && Lists(more, WalkFiles(fs.tree, done + {d}))
    ensures r.Ok? ==> Lists(subs, SubDirs(fs.tree, d, Some(MetadataDir(root))))
    ensures old(fs.schedule) == [] ==> fs.schedule == []
    ensures old(fs.schedule) == [] && AllNamed(name, WalkFiles(fs.tree, dirs)) ==> r.Ok?
  {
    FilesOfDir(name, fs.tree, dirs, d);
    var keys, here, below := NamedDir(fs, name, root, d);
    if keys.Err? {
      return keys, [], [];
    }
    FoundDir(fs.tree, done, d, found, here);
    NamesJoin(name, files, found, keys.value, here);
    return Ok(files + keys.value), found + here, below;
  }

  /** The directory on top of the stack, with the stack after it. */
  method NamedStep(fs: FileSystem, name: Path -> Result<string, string>, root: Path, ghost dirs: set<Path>, ghost done: set<Path>,
                   stack: seq<Path>, files: seq<string>, ghost found: seq<Path>)
    returns (r: Result<seq<string>, RefreshError>, ghost more: seq<Path>, after: seq<Path>)
    requires stack != [] && dirs == WalkDirs(fs.tree, root, Some(MetadataDir(root))) && Owes(dirs, root, done, stack)
    requires Names(name, files, found) && Lists(found, WalkFiles(fs.tree, done))
    modifies fs`schedule
    ensures stack[|stack| - 1] in dirs && stack[|stack| - 1] !in done
    ensures r.Ok? ==> Names(name, r.value, more) && Lists(more, WalkFiles(fs.tree, done + {stack[|stack| - 1]}))
    ensures r.Ok? ==> Owes(dirs, root, done + {stack[|stack| - 1]}, after)
    ensures old(fs.schedule) == [] ==> fs.schedule == []
    ensures old(fs.schedule) == [] && AllNamed(name, WalkFiles(fs.tree, dirs)) ==> r.Ok?
  {
    var d := stack[|stack| - 1];
    WalkPops(fs.tree, root, Some(MetadataDir(root)), done, stack);
    r, more, after := NamedNext(fs, name, root, dirs, done, d, files, found);
    if r.Ok? {
      WalkPushes(fs.tree, root, Some(MetadataDir(root)), done, stack, after);
      after := stack[..|stack| - 1] + after;
    }
  }

  method NamedFiles(fs: FileSystem, name: Path -> Result<string, string>, root: Path)
    returns (r: Result<seq<string>, RefreshError>, ghost found: seq<Path>)
    requires WellFormed(fs.tree) && IsDir(fs.tree, root)
    modifies fs`schedule
    ensures r.Ok? ==> Names(name, r.value, found)
    ensures r.Ok? ==> Lists(found, WalkFiles(fs.tree, WalkDirs(fs.tree, root, Some(MetadataDir(root)))))
    ensures old(fs.schedule) == [] && AllNamed(name, WalkFiles(fs.tree, WalkDirs(fs.tree, root, Some(MetadataDir(root))))) ==> r.Ok? && fs.schedule == []
  {
    ghost var t, skip := fs.tree, Some(MetadataDir(root));
    ghost var dirs := WalkDirs(t, root, skip);
    ghost var done: set<Path> := {};
    found := [];
    var files: seq<string> := [];
    ghost var calm := fs.schedule == [] && AllNamed(name, WalkFiles(t, dirs));
    var stack := [root];
    WalkStarts(t, root, skip);
    assert WalkFiles(t, {}) == {};
    while stack != []
      invariant fs.tree == t && Owes(dirs, root, done, stack)
      invariant Names(name, files, found) && Lists(found, WalkFiles(t, done))
      invariant calm ==> fs.schedule == []
      decreases |dirs - done|
    {
      ghost var d := stack[|stack| - 1];
      r, found, stack := NamedStep(fs, name, root, dirs, done, stack, files, found);
      if r.Err? {
        return;
      }
      files := r.value;
      done := done + {d};
    }
    WalkEnds(t, root, skip, done);
    return Ok(files), found;
  }

  /** The keys of the objects held, each once. */
  method MirrorFiles(fs: FileSystem, root: Path, hash: string -> Digest, ghost mirror: Mirror) returns (r: Result<seq<string>, RefreshError>)
    requires WellFormed(fs.tree) && IsDir(fs.tree, root) && Holds(fs.tree, root, hash, mirror)
    modifies fs`schedule
    ensures r.Ok? ==> (forall k :: k in r.value <==> k in mirror)
    ensures r.Ok? ==> forall i, j :: 0 <= i < j < |r.value| ==> r.value[i] != r.value[j]
    ensures old(fs.schedule) == [] && !IsFile(fs.tree, MetadataDir(root)) ==> r.Ok? && fs.schedule == []
  {
    ghost var found;
    if !IsFile(fs.tree, MetadataDir(root)) {
      BodiesAreNamed(fs.tree, root, hash, mirror, f => TemplateKey(root, f));
    }
    r, found := NamedFiles(fs, f => TemplateKey(root, f), root);
    if r.Ok? {
      NamesOfBodies(fs.tree, root, hash, mirror, f => TemplateKey(root, f), r.value, found);
    }
  }

  lemma NameOfBody(root: Path, mirror: Mirror, f: Path, key: string)
    requires CanonicalKeys(mirror.Keys) && IsBody(root, mirror, f) && TemplateKey(root, f) == Ok(key)
    ensures key in mirror && f == ObjectPath(root, key)
  {
    var k :| k in mirror && f == ObjectPath(root, k);
    KeyOfObjectPath(root, k);
    Text.JoinOfSplit(k, '/');
    assert f[|root|..] == Text.Split(k, '/');
  }

  lemma BodyHasName(root: Path, key: string)
    requires Canonical(key)
    ensures TemplateKey(root, ObjectPath(root, key)) == Ok(key)
  {
    KeyOfObjectPath(root, key);
    Text.JoinOfSplit(key, '/');
    assert ObjectPath(root, key)[|root|..] == Text.Split(key, '/');
  }

  lemma BodiesAreNamed(t: Tree, root: Path, hash: string -> Digest, mirror: Mirror, name: Path -> Result<string, string>)
    requires WellFormed(t) && IsDir(t, root) && Holds(t, root, hash, mirror) && !IsFile(t, MetadataDir(root))
    requires forall f :: name(f) == TemplateKey(root, f)
    ensures AllNamed(name, WalkFiles(t, WalkDirs(t, root, Some(MetadataDir(root)))))
  {
    forall f | f in WalkFiles(t, WalkDirs(t, root, Some(MetadataDir(root)))) ensures name(f).Ok? {
      VisitedAreBodies(t, root, hash, mirror, f);
      var k :| k in mirror && f == ObjectPath(root, k);
      BodyHasName(root, k);
    }
  }

  lemma MetadataDirHasNoName(root: Path)
    ensures TemplateKey(root, MetadataDir(root)).Err?
  {
    var s := METADATA_DIR_NAME;
    assert MetadataDir(root)[|root|..] == [s];
    assert Text.Join([s], '/') == s;
    assert s == ".rendermesh-meta";
    assert s[0] == '.' && s[|s| - 1] == 'a' && !Text.IsWhitespace('.') && !Text.IsWhitespace('a');
    assert Text.Trim(s) == s && Text.TrimStartOf(s, '/') == s;
    Text.SplitWithout(s, '/');
    assert NormalizeObjectPath(s).Err?;
  }

  lemma NamesOfBodies(t: Tree, root: Path, hash: string -> Digest, mirror: Mirror, name: Path -> Result<string, string>,
                      files: seq<string>, found: seq<Path>)
    requires WellFormed(t) && IsDir(t, root) && Holds(t, root, hash, mirror) && (forall f :: name(f) == TemplateKey(root, f))
    requires Names(name, files, found) && Lists(found, WalkFiles(t, WalkDirs(t, root, Some(MetadataDir(root)))))
    ensures forall k :: k in files <==> k in mirror
    ensures forall i, j :: 0 <= i < j < |files| ==> files[i] != files[j]
  {
    var walked := WalkFiles(t, WalkDirs(t, root, Some(MetadataDir(root))));
    NoMetadataFound(t, root, name, files, found);
    forall i | 0 <= i < |files| ensures files[i] in mirror && found[i] == ObjectPath(root, files[i]) {
      assert found[i] in walked;
      VisitedAreBodies(t, root, hash, mirror, found[i]);
      NameOfBody(root, mirror, found[i], files[i]);
    }
    forall k | k in mirror ensures k in files {
      BodyFound(t, root, hash, mirror, k);
      var i :| 0 <= i < |found| && found[i] == ObjectPath(root, k);
      BodyHasName(root, k);
      assert files[i] == k;
    }
    forall i, j | 0 <= i < j < |files| ensures files[i] != files[j] {
      assert found[i] != found[j];
    }
  }

  lemma NoMetadataFound(t: Tree, root: Path, name: Path -> Result<string, string>, files: seq<string>, found: seq<Path>)
    requires IsDir(t, root) && (forall f :: name(f) == TemplateKey(root, f))
    requires Names(name, files, found) && Lists(found, WalkFiles(t, WalkDirs(t, root, Some(MetadataDir(root)))))
    ensures !IsFile(t, MetadataDir(root))
  {
    MetadataDirHasNoName(root);
    assert Parent(MetadataDir(root)) == root;
    assert IsFile(t, MetadataDir(root)) <==> MetadataDir(root) in WalkFiles(t, WalkDirs(t, root, Some(MetadataDir(root))));
    assert MetadataDir(root) !in found;
  }

  lemma BodyFound(t: Tree, root: Path, hash: string -> Digest, mirror: Mirror, key: string)
    requires WellFormed(t) && IsDir(t, root) && Holds(t, root, hash, mirror) && !IsFile(t, MetadataDir(root)) && key in mirror
    ensures ObjectPath(root, key) in WalkFiles(t, WalkDirs(t, root, Some(MetadataDir(root))))
  {
    KeyOfObjectPath(root, key);
    assert BodyAt(t, ObjectPath(root, key), mirror[key]);
    VisitedAreBodies(t, root, hash, mirror, ObjectPath(root, key));
  }
}
