/** Where an origin's directory keeps an object: a body at its key, a sidecar named by a hash of it. */
module MirrorLayout {
  import opened Common
  import opened Text
  import opened Freshness
  import opened LocalMirror
  import opened FileTree

  /** SHA-256 in hexadecimal, left abstract. */
  type Digest = s: string | |s| == 64 witness seq(64, i => '0')

  /** The components `Path::join` and the disk see in a key: empty and `.` segments vanish. */
  function Components(parts: seq<string>): Path {
    if parts == [] then []
    else if parts[0] == "" || parts[0] == "." then Components(parts[1..])
    else [parts[0]] + Components(parts[1..])
  }

  function ObjectPath(root: Path, key: string): Path {
    root + Components(Split(key, '/'))
  }

  function NormalizeObjectPath(path: string): Result<string, string> {
    var normalized := TrimStartOf(Trim(path), '/');
    if normalized == "" || (exists c :: c in normalized && IsControl(c)) then Err(path)
    else
      var segments := Split(normalized, '/');
      if ".." in segments || segments[0] == METADATA_DIR_NAME then Err(path) else Ok(normalized)
  }

  function MetadataDir(root: Path): Path {
    root + [METADATA_DIR_NAME]
  }

  function SidecarAt(root: Path, digest: Digest): Path {
    root + [METADATA_DIR_NAME, digest[..2], digest + ".json"]
  }

  function MetadataSidecarPath(root: Path, hash: string -> Digest, key: string): Result<Path, string> {
    match NormalizeObjectPath(key)
    case Err(e) => Err(e)
    case Ok(normalized) => Ok(SidecarAt(root, hash(normalized)))
  }

  function RelativeKey(root: Path, p: Path): Result<string, string>
    requires root <= p
  {
    NormalizeRemoteKey(Join(p[|root|..], '/'))
  }

  /** A key that survives the way to the disk and back. */
  predicate Canonical(key: string) {
    && NormalizeRemoteKey(key).Ok?
    && NormalizeObjectPath(key) == Ok(key)
    && "" !in Split(key, '/') && "." !in Split(key, '/')
  }

  lemma {:induction false} ComponentsKept(parts: seq<string>)
    requires "" !in parts && "." !in parts
    ensures Components(parts) == parts
  {
    if parts != [] {
      ComponentsKept(parts[1..]);
    }
  }

  /** A canonical key is recovered from the path of its object, so no two of them share one. */
  lemma KeyOfObjectPath(root: Path, key: string)
    requires Canonical(key)
    ensures ObjectPath(root, key) == root + Split(key, '/')
    ensures RelativeKey(root, ObjectPath(root, key)) == Ok(key)
    ensures Parent(ObjectPath(root, key)) == root + Split(key, '/')[..|Split(key, '/')| - 1]
    ensures !(MetadataDir(root) <= ObjectPath(root, key))
  {
    var parts := Split(key, '/');
    ComponentsKept(parts);
    assert (root + parts)[|root|..] == parts;
    JoinOfSplit(key, '/');
    assert (root + parts)[|root|] == parts[0];
    assert Parent(root + parts) == root + parts[..|parts| - 1];
  }

  lemma DistinctPaths(root: Path, a: string, b: string)
    requires Canonical(a) && Canonical(b) && ObjectPath(root, a) == ObjectPath(root, b)
    ensures a == b
  {
    KeyOfObjectPath(root, a);
    KeyOfObjectPath(root, b);
  }

  /** No two of these keys share a digest. */
  ghost predicate InjectiveOn(hash: string -> Digest, keys: set<string>) {
    forall a, b :: a in keys && b in keys && hash(a) == hash(b) ==> a == b
  }

  lemma InjectiveOnFewer(hash: string -> Digest, fewer: set<string>, keys: set<string>)
    requires InjectiveOn(hash, keys) && fewer <= keys
    ensures InjectiveOn(hash, fewer)
  {
  }

  /** Sidecars coincide exactly when digests do. */
  lemma DistinctSidecars(root: Path, hash: string -> Digest, a: string, b: string)
    ensures SidecarAt(root, hash(a)) == SidecarAt(root, hash(b)) <==> hash(a) == hash(b)
  {
    var p, q := SidecarAt(root, hash(a)), SidecarAt(root, hash(b));
    assert p[|root| + 2] == hash(a) + ".json" && q[|root| + 2] == hash(b) + ".json";
    assert (hash(a) + ".json")[..64] == hash(a) && (hash(b) + ".json")[..64] == hash(b);
  }

  /** A digest that keeps a short text readable: the text, a mark, and padding. */
  function Padded(s: string): Digest {
    if |s| < 64 then s + "1" + seq(63 - |s|, i => '0') else seq(64, i => '0')
  }

  /** Injectivity on any set of short keys can be had, though no digest is injective on all strings. */
  lemma PaddedIsInjective(keys: set<string>)
    requires forall k :: k in keys ==> |k| < 64
    ensures InjectiveOn(Padded, keys)
  {
    forall a, b | a in keys && b in keys && Padded(a) == Padded(b) ensures a == b {
      PaddedLength(a, b);
      assert Padded(a)[..|a|] == a && Padded(b)[..|b|] == b;
    }
  }

  lemma PaddedLength(a: string, b: string)
    requires |a| < 64 && |b| < 64 && Padded(a) == Padded(b)
    ensures |a| == |b|
  {
    var p := Padded(a);
    assert p[|a|] == '1' && p[|b|] == '1';
    assert forall i :: |a| < i < 64 ==> p[i] == '0';
    assert forall i :: |b| < i < 64 ==> Padded(b)[i] == '0';
  }

  predicate CanonicalKeys(keys: set<string>) {
    forall k :: k in keys ==> Canonical(k)
  }

  predicate BodyAt(t: Tree, p: Path, obj: LocalObject) {
    p in t && t[p] == File(Body(obj.body))
  }

  predicate MetadataAt(t: Tree, p: Path, obj: LocalObject) {
    p in t && t[p] == File(Sidecar(obj.metadata))
  }

  /** The directory holds the objects of `mirror` and no other body; there may be stray sidecars. */
  ghost predicate Holds(t: Tree, root: Path, hash: string -> Digest, mirror: Mirror) {
    && CanonicalKeys(mirror.Keys)
    && (forall k {:trigger k in mirror} :: k in mirror ==>
          BodyAt(t, ObjectPath(root, k), mirror[k]) && MetadataAt(t, SidecarAt(root, hash(k)), mirror[k]))
    && (forall q {:trigger IsBody(root, mirror, q)} :: IsFile(t, q) && root <= q && !(MetadataDir(root) <= q) ==> IsBody(root, mirror, q))
  }

  /** Why digests must differ: one sidecar cannot hold the metadata of two objects. */
  lemma SharedSidecar(t: Tree, root: Path, hash: string -> Digest, mirror: Mirror, a: string, b: string)
    requires Holds(t, root, hash, mirror) && a in mirror && b in mirror && hash(a) == hash(b)
    ensures mirror[a].metadata == mirror[b].metadata
  {
    assert MetadataAt(t, SidecarAt(root, hash(a)), mirror[a]) && MetadataAt(t, SidecarAt(root, hash(b)), mirror[b]);
  }

  ghost predicate IsBody(root: Path, mirror: Mirror, q: Path) {
    exists k :: k in mirror && q == ObjectPath(root, k)
  }

  ghost predicate IsSidecar(root: Path, hash: string -> Digest, mirror: Mirror, q: Path) {
    exists k :: k in mirror && q == SidecarAt(root, hash(k))
  }

  /** One body and one sidecar per key and no other files. */
  ghost predicate Image(t: Tree, root: Path, hash: string -> Digest, mirror: Mirror) {
    && Holds(t, root, hash, mirror)
    && (forall q {:trigger IsSidecar(root, hash, mirror, q)} ::
          IsFile(t, q) && MetadataDir(root) <= q ==> IsSidecar(root, hash, mirror, q))
  }

  /** A directory with the same contents elsewhere holds the same objects. */
  lemma HoldsMoves(t: Tree, a: Path, u: Tree, b: Path, hash: string -> Digest, mirror: Mirror)
    requires Subtree(u, b) == Subtree(t, a) && Holds(t, a, hash, mirror)
    ensures Holds(u, b, hash, mirror)
  {
    forall k | k in mirror
      ensures BodyAt(u, ObjectPath(b, k), mirror[k]) && MetadataAt(u, SidecarAt(b, hash(k)), mirror[k])
    {
      SameBelow(t, a, u, b, Components(Split(k, '/')));
      SameBelow(t, a, u, b, SidecarAt([], hash(k)));
      assert SidecarAt(a, hash(k)) == a + SidecarAt([], hash(k)) && SidecarAt(b, hash(k)) == b + SidecarAt([], hash(k));
      assert BodyAt(t, ObjectPath(a, k), mirror[k]);
    }
    forall q | IsFile(u, q) && b <= q && !(MetadataDir(b) <= q) ensures IsBody(b, mirror, q) {
      var r := q[|b|..];
      assert q == b + r;
      SameBelow(t, a, u, b, r);
      assert (a + r)[|a|..] == r;
      MetadataBelow(a, r);
      MetadataBelow(b, r);
      assert IsBody(a, mirror, a + r);
      var k :| k in mirror && a + r == ObjectPath(a, k);
      assert r == Components(Split(k, '/'));
    }
  }

  lemma ImageMoves(t: Tree, a: Path, u: Tree, b: Path, hash: string -> Digest, mirror: Mirror)
    requires Subtree(u, b) == Subtree(t, a) && Image(t, a, hash, mirror)
    ensures Image(u, b, hash, mirror)
  {
    HoldsMoves(t, a, u, b, hash, mirror);
    forall q | IsFile(u, q) && MetadataDir(b) <= q ensures IsSidecar(b, hash, mirror, q) {
      var r := q[|b|..];
      assert q == b + r;
      SameBelow(t, a, u, b, r);
      MetadataBelow(a, r);
      MetadataBelow(b, r);
      assert IsSidecar(a, hash, mirror, a + r);
      var k :| k in mirror && a + r == SidecarAt(a, hash(k));
      assert a + r == a + SidecarAt([], hash(k));
      assert (a + r)[|a|..] == r == SidecarAt([], hash(k));
    }
  }

  lemma MetadataBelow(root: Path, r: Path)
    ensures MetadataDir(root) <= root + r <==> METADATA_DIR_NAME in r[..if r == [] then 0 else 1]
  {
    if MetadataDir(root) <= root + r {
      assert (root + r)[|root|] == METADATA_DIR_NAME;
    }
  }

  lemma SameBelow(t: Tree, a: Path, u: Tree, b: Path, r: Path)
    requires Subtree(u, b) == Subtree(t, a)
    ensures (b + r in u <==> a + r in t) && (b + r in u ==> u[b + r] == t[a + r])
  {
    SubtreeAt(t, a, r);
    SubtreeAt(u, b, r);
  }

  // ----- which paths name an object

  /** The key of a path: white space and then leading slashes removed. */
  ghost predicate IsKeyOf(path: string, key: string) {
    exists before, slashed, after :: IsKeyBetween(path, before, slashed, after, key)
  }

  ghost predicate IsKeyBetween(path: string, before: string, slashed: string, after: string, key: string) {
    && path == before + slashed + after && AllWhite(before) && AllWhite(after) && IsBare(slashed)
    && IsUnrun(key, slashed, '/')
  }

  ghost predicate MayStore(key: string) {
    && key != "" && (forall i :: 0 <= i < |key| ==> !IsControl(key[i]))
    && !HasSegment(key, "..", '/')
    && !exists rest :: key == ".rendermesh-meta" + rest && (rest == "" || rest[0] == '/')
  }

  lemma ObjectPathExactly(path: string, key: string)
    ensures NormalizeObjectPath(path) == Ok(key) <==> IsKeyOf(path, key) && MayStore(key)
  {
    var slashed, normalized := Trim(path), TrimStartOf(Trim(path), '/');
    var before, after := TrimMeaning(path);
    TrimStartOfIsUnrun(slashed, '/');
    assert IsKeyBetween(path, before, slashed, after, normalized);
    if IsKeyOf(path, key) {
      var b, s, a :| IsKeyBetween(path, b, s, a, key);
      TrimOf(b, s, a);
      UnrunIsUnique(key, normalized, slashed, '/');
    }
    MayStoreExactly(normalized);
  }

  lemma MayStoreExactly(key: string)
    ensures MayStore(key) <==> key != "" && !(exists c :: c in key && IsControl(c)) && ".." !in Split(key, '/') && Split(key, '/')[0] != METADATA_DIR_NAME
  {
    var dir := ".rendermesh-meta";
    SegmentExactly(key, "..", '/');
    assert (exists c :: c in key && IsControl(c)) <==> exists i :: 0 <= i < |key| && IsControl(key[i]);
    var rest := SplitHead(key, '/');
    if tail :| key == dir + tail && (tail == "" || tail[0] == '/') {
      SplitHeadOf(dir, tail, '/');
    }
  }

  lemma OwnKey(key: string)
    ensures IsKeyOf(key, key) <==> IsBare(key) && (key != "" ==> key[0] != '/')
  {
    if before, slashed, after :| IsKeyBetween(key, before, slashed, after, key) {
      assert slashed == key;
    }
    if IsBare(key) && (key != "" ==> key[0] != '/') {
      assert IsKeyBetween(key, "", key, "", key);
    }
  }

  /** A canonical key is one that may be listed, has nothing to trim, and no empty or `.` segment. */
  lemma CanonicalExactly(key: string)
    ensures Canonical(key) <==> MayList(key) && IsBare(key) && !HasSegment(key, "", '/') && !HasSegment(key, ".", '/')
  {
    RemoteKeyExactly(key);
    ObjectPathExactly(key, key);
    OwnKey(key);
    SegmentExactly(key, "", '/');
    SegmentExactly(key, ".", '/');
  }
}
