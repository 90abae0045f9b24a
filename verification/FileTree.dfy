/** A disk as a finite tree of directories and files, with operations that may fail. */
module FileTree {
  import opened Common
  import opened LocalMirror

  type Path = seq<string>

  /** File contents; the JSON of a sidecar is kept as the metadata it stands for. */
  datatype FileData = Body(bytes: Bytes) | Sidecar(metadata: ObjectMetadata)

  datatype Node = Dir | File(data: FileData)

  type Tree = map<Path, Node>

  function Parent(p: Path): Path
    requires p != []
  {
    p[..|p| - 1]
  }

  predicate IsDir(t: Tree, p: Path) { p in t && t[p].Dir? }

  predicate IsFile(t: Tree, p: Path) { p in t && t[p].File? }

  ghost predicate WellFormed(t: Tree) {
    && IsDir(t, [])
    && forall p {:trigger Parent(p)} :: p in t && p != [] ==> IsDir(t, Parent(p))
  }

  lemma PrefixesCompare(a: Path, b: Path, q: Path)
    requires a <= q && b <= q
    ensures a <= b || b <= a
  {
    if |a| <= |b| { assert a == b[..|a|]; } else { assert b == a[..|b|]; }
  }

  function Children(t: Tree, d: Path): set<Path> {
    set p | p in t && p != [] && Parent(p) == d
  }

  // ----- the effect of each operation

  function Prefixes(p: Path): set<Path> {
    set i | 0 <= i <= |p| :: p[..i]
  }

  function WithDirs(t: Tree, p: Path): Tree {
    t + map q | q in Prefixes(p) && q !in t :: Dir
  }

  function Without(t: Tree, paths: set<Path>): Tree {
    map q | q in t && q !in paths :: t[q]
  }

  function WithoutTree(t: Tree, d: Path): Tree {
    map q | q in t && !(d <= q) :: t[q]
  }

  /** The contents of a directory by relative path. */
  function Subtree(t: Tree, d: Path): Tree {
    map r | r in (set q | q in t && d <= q :: q[|d|..]) && d + r in t :: t[d + r]
  }

  function Graft(t: Tree, d: Path, sub: Tree): Tree {
    t + map q | q in (set r | r in sub :: d + r) :: sub[q[|d|..]]
  }

  function Moved(t: Tree, from: Path, to: Path): Tree {
    Graft(WithoutTree(WithoutTree(t, from), to), to, Subtree(t, from))
  }

  /** What may be left of a directory when its removal stops half-way: some entries are gone, and
      with an entry everything below it. */
  function HalfRemoved(t: Tree, d: Path, gone: set<Path>): Tree {
    map q | q in t && !(d <= q && exists g :: g in gone && d <= g && g <= q) :: t[q]
  }

  predicate Conflict(t: Tree, p: Path) {
    exists i :: 0 <= i <= |p| && IsFile(t, p[..i])
  }

  lemma SubtreeAt(t: Tree, d: Path, r: Path)
    ensures r in Subtree(t, d) <==> d + r in t
    ensures d + r in t ==> Subtree(t, d)[r] == t[d + r]
  {
    if d + r in t {
      assert d <= d + r && (d + r)[|d|..] == r;
    }
    if q :| q in t && d <= q && q[|d|..] == r {
      assert q == d + r;
    }
  }

  lemma GraftAt(t: Tree, d: Path, sub: Tree, q: Path)
    ensures var g := Graft(t, d, sub);
      if d <= q && q[|d|..] in sub then q in g && g[q] == sub[q[|d|..]]
      else (q in g <==> q in t) && (q in t ==> g[q] == t[q])
  {
    if d <= q && q[|d|..] in sub {
      assert q == d + q[|d|..];
    }
    if r :| r in sub && q == d + r {
      assert d <= q && q[|d|..] == r;
    }
  }

  lemma WithDirsAt(t: Tree, p: Path, q: Path)
    ensures var w := WithDirs(t, p);
      && (q in w <==> q in t || q <= p)
      && (q in w ==> w[q] == if q in t then t[q] else Dir)
  {
    if q <= p {
      assert q == p[..|q|];
    }
  }

  lemma WithDirsWellFormed(t: Tree, p: Path)
    requires WellFormed(t) && !Conflict(t, p)
    ensures WellFormed(WithDirs(t, p)) && IsDir(WithDirs(t, p), p)
  {
    var w := WithDirs(t, p);
    WithDirsAt(t, p, []);
    WithDirsAt(t, p, p);
    forall q | q in w && q != [] ensures IsDir(w, Parent(q)) {
      WithDirsAt(t, p, q);
      WithDirsAt(t, p, Parent(q));
      if q !in t {
        assert q == p[..|q|] && Parent(q) == p[..|q| - 1];
        assert Parent(q) in t ==> !IsFile(t, p[..|q| - 1]);
      }
    }
    assert p == p[..|p|];
  }

  lemma PrefixOfParent(g: Path, q: Path)
    requires q != [] && g <= Parent(q)
    ensures g <= q
  {
  }

  lemma WithoutTreeWellFormed(t: Tree, d: Path)
    requires WellFormed(t) && d != []
    ensures WellFormed(WithoutTree(t, d))
  {
    var w := WithoutTree(t, d);
    forall q | q in w && q != [] ensures IsDir(w, Parent(q)) {
      if d <= Parent(q) { PrefixOfParent(d, q); }
    }
  }

  lemma HalfRemovedWellFormed(t: Tree, d: Path, gone: set<Path>)
    requires WellFormed(t) && d != []
    ensures WellFormed(HalfRemoved(t, d, gone))
  {
    var w := HalfRemoved(t, d, gone);
    forall q | q in w && q != [] ensures IsDir(w, Parent(q)) {
      forall g | g in gone && g <= Parent(q) ensures g <= q { PrefixOfParent(g, q); }
    }
  }

  lemma MovedParent(base: Tree, t: Tree, from: Path, to: Path, q: Path)
    requires WellFormed(t) && IsDir(t, from) && to != [] && to <= q && q[|to|..] in Subtree(t, from)
    requires IsDir(base, Parent(to)) && !(to <= Parent(to))
    ensures IsDir(Graft(base, to, Subtree(t, from)), Parent(q))
  {
    var sub := Subtree(t, from);
    GraftAt(base, to, sub, Parent(q));
    if q == to {
    } else {
      var r := q[|to|..];
      SubtreeAt(t, from, r);
      SubtreeAt(t, from, Parent(r));
      assert Parent(q)[|to|..] == Parent(r) && Parent(from + r) == from + Parent(r);
    }
  }

  lemma MovedWellFormed(t: Tree, from: Path, to: Path)
    requires WellFormed(t) && from != [] && to != [] && IsDir(t, from) && IsDir(t, Parent(to))
    requires !(from <= to) && !(to <= from)
    ensures WellFormed(Moved(t, from, to))
  {
    WithoutTreeWellFormed(t, from);
    WithoutTreeWellFormed(WithoutTree(t, from), to);
    var base, sub := WithoutTree(WithoutTree(t, from), to), Subtree(t, from);
    var w := Graft(base, to, sub);
    assert !(from <= Parent(to)) by { if from <= Parent(to) { PrefixOfParent(from, to); } }
    forall q | q in w && q != [] ensures IsDir(w, Parent(q)) {
      GraftAt(base, to, sub, q);
      if to <= q && q[|to|..] in sub {
        MovedParent(base, t, from, to, q);
      } else {
        GraftAt(base, to, sub, Parent(q));
      }
    }
    GraftAt(base, to, sub, []);
  }

  datatype IoError = NotFound | Refused

  /** What the disk does next: work, or fail; a removal that fails may have removed some entries. */
  datatype Outcome = Works | Fails(gone: set<Path>)

  class FileSystem {
    var tree: Tree
    var schedule: seq<Outcome>

    constructor (tree: Tree, schedule: seq<Outcome>)
      ensures this.tree == tree && this.schedule == schedule
    {
      this.tree := tree;
      this.schedule := schedule;
    }

    /** The next outcome of the schedule; once it is used up every operation works. */
    method Next() returns (outcome: Outcome)
      modifies this`schedule
      ensures outcome == if old(schedule) == [] then Works else old(schedule)[0]
      ensures schedule == if old(schedule) == [] then [] else old(schedule)[1..]
    {
      if schedule == [] {
        return Works;
      }
      outcome := schedule[0];
      schedule := schedule[1..];
    }

    method Exists(p: Path) returns (found: bool)
      modifies this`schedule
      ensures found ==> p in tree
      ensures old(schedule) == [] ==> found == (p in tree) && schedule == []
    {
      var outcome := Next();
      return outcome.Works? && p in tree;
    }

    method ReadDir(d: Path) returns (r: Result<set<Path>, IoError>)
      modifies this`schedule
      ensures r.Ok? ==> IsDir(tree, d) && r.value == Children(tree, d)
      ensures r == Err(NotFound) ==> d !in tree
      ensures old(schedule) == [] ==> schedule == [] && (IsDir(tree, d) ==> r.Ok?) && (d !in tree ==> r == Err(NotFound))
    {
      var outcome := Next();
      if d !in tree {
        return Err(if outcome.Works? then NotFound else Refused);
      }
      if outcome.Fails? || tree[d].File? {
        return Err(Refused);
      }
      return Ok(Children(tree, d));
    }

    method CreateDirAll(p: Path) returns (ok: bool)
      requires WellFormed(tree)
      modifies this
      ensures WellFormed(tree)
      ensures tree == if ok then WithDirs(old(tree), p) else old(tree)
      ensures ok ==> !Conflict(old(tree), p) && IsDir(tree, p)
      ensures old(schedule) == [] ==> schedule == [] && (ok <==> !Conflict(old(tree), p))
    {
      var outcome := Next();
      if outcome.Fails? || Conflict(tree, p) {
        return false;
      }
      WithDirsWellFormed(tree, p);
      tree := WithDirs(tree, p);
      return true;
    }

    method WriteFile(p: Path, data: FileData) returns (ok: bool)
      requires WellFormed(tree)
      modifies this
      ensures WellFormed(tree)
      ensures tree == if ok then old(tree)[p := File(data)] else old(tree)
      ensures ok ==> p != [] && IsDir(old(tree), Parent(p)) && !IsDir(old(tree), p)
      ensures old(schedule) == [] ==> schedule == [] && (ok <==> p != [] && IsDir(old(tree), Parent(p)) && !IsDir(old(tree), p))
    {
      var outcome := Next();
      if outcome.Fails? || p == [] || !IsDir(tree, Parent(p)) || IsDir(tree, p) {
        return false;
      }
      tree := tree[p := File(data)];
      return true;
    }

    method ReadFile(p: Path) returns (r: Result<FileData, IoError>)
      modifies this`schedule
      ensures r.Ok? ==> IsFile(tree, p) && tree[p].data == r.value
      ensures r == Err(NotFound) ==> p !in tree
      ensures old(schedule) == [] ==> schedule == [] && (r.Ok? <==> IsFile(tree, p)) && (r == Err(NotFound) <==> p !in tree && !Conflict(tree, p))
    {
      var outcome := Next();
      if p !in tree {
        return Err(if outcome.Works? && !Conflict(tree, p) then NotFound else Refused);
      }
      if outcome.Fails? || tree[p].Dir? {
        return Err(Refused);
      }
      return Ok(tree[p].data);
    }

    method CopyFile(from: Path, to: Path) returns (ok: bool)
      requires WellFormed(tree)
      modifies this
      ensures WellFormed(tree)
      ensures ok ==> IsFile(old(tree), from) && to != [] && IsDir(old(tree), Parent(to)) && !IsDir(old(tree), to)
      ensures tree == if ok then old(tree)[to := old(tree)[from]] else old(tree)
      ensures old(schedule) == [] ==>
        schedule == [] && (ok <==> IsFile(old(tree), from) && to != [] && IsDir(old(tree), Parent(to)) && !IsDir(old(tree), to))
    {
      var outcome := Next();
      if outcome.Fails? || !IsFile(tree, from) || to == [] || !IsDir(tree, Parent(to)) || IsDir(tree, to) {
        return false;
      }
      tree := tree[to := tree[from]];
      return true;
    }

    method RemoveFile(p: Path) returns (r: Result<(), IoError>)
      requires WellFormed(tree)
      modifies this
      ensures WellFormed(tree)
      ensures tree == if r.Ok? then Without(old(tree), {p}) else old(tree)
      ensures r.Ok? ==> IsFile(old(tree), p)
      ensures r == Err(NotFound) ==> p !in old(tree)
      ensures old(schedule) == [] ==> schedule == [] && (IsFile(old(tree), p) ==> r.Ok?) && (p !in old(tree) ==> r == Err(NotFound))
    {
      var outcome := Next();
      if p !in tree {
        return Err(if outcome.Works? then NotFound else Refused);
      }
      if outcome.Fails? || tree[p].Dir? {
        return Err(Refused);
      }
      tree := Without(tree, {p});
      return Ok(());
    }

    /** `remove_dir_if_exists`: a missing directory is fine; a failure may leave part of it. */
    method RemoveDirIfExists(d: Path) returns (ok: bool)
      requires WellFormed(tree) && d != []
      modifies this
      ensures WellFormed(tree)
      ensures ok ==> tree == WithoutTree(old(tree), d)
      ensures !ok ==> exists gone :: tree == HalfRemoved(old(tree), d, gone)
      ensures old(schedule) == [] ==> schedule == [] && (ok <==> !IsFile(old(tree), d))
    {
      var outcome := Next();
      if outcome.Fails? {
        HalfRemovedWellFormed(tree, d, outcome.gone);
        tree := HalfRemoved(tree, d, outcome.gone);
        return false;
      }
      if IsFile(tree, d) {
        assert tree == HalfRemoved(tree, d, {});
        return false;
      }
      WithoutTreeWellFormed(tree, d);
      tree := WithoutTree(tree, d);
      return true;
    }

    /** `rename` of a directory: the target must be absent or an empty directory. */
    method Rename(from: Path, to: Path) returns (ok: bool)
      requires WellFormed(tree) && from != [] && to != [] && !(from <= to) && !(to <= from)
      modifies this
      ensures WellFormed(tree)
      ensures tree == if ok then Moved(old(tree), from, to) else old(tree)
      ensures ok ==> IsDir(old(tree), from) && (to !in old(tree) || (IsDir(old(tree), to) && Children(old(tree), to) == {}))
      ensures old(schedule) == [] ==>
        schedule == [] && (IsDir(old(tree), from) && IsDir(old(tree), Parent(to)) && to !in old(tree) ==> ok)
    {
      var outcome := Next();
      if outcome.Fails? || !IsDir(tree, from) || !IsDir(tree, Parent(to)) {
        return false;
      }
      if to in tree && (tree[to].File? || Children(tree, to) != {}) {
        return false;
      }
      MovedWellFormed(tree, from, to);
      tree := Moved(tree, from, to);
      return true;
    }
  }
}
