/** The stack-driven copy of one directory into another. */
module TreeCopy {
  import opened Common
  import opened FileTree
  import opened TreeWalk

  function Last(p: Path): string
    requires p != []
  {
    p[|p| - 1]
  }

  /** Nothing differs outside `root` but ancestors of it that were missing. */
  ghost predicate SameBeside(before: Tree, after: Tree, root: Path) {
    forall q {:trigger q in before} {:trigger q in after} :: !(root <= q) ==>
      && (q in before ==> q in after && after[q] == before[q])
      && (q in after && q !in before ==> q <= root)
  }

  predicate IsCopyOf(source: Path, target: Path, entries: set<Path>, q: Path) {
    q != [] && Parent(q) == target && source + [Last(q)] in entries
  }

  /** Some entries of one directory have been laid over another one, and nothing else has changed. */
  ghost predicate Overlaid(before: Tree, after: Tree, source: Path, target: Path, entries: set<Path>)
    requires Entries(before, source, entries)
  {
    forall q {:trigger q in after} ::
      if IsCopyOf(source, target, entries, q) then q in after && after[q] == before[source + [Last(q)]]
      else (q in after <==> q in before) && (q in before ==> after[q] == before[q])
  }

  lemma OneMoreDir(t: Tree, p: Path)
    requires WellFormed(t) && p != [] && IsDir(t, Parent(p))
    ensures WithDirs(t, p) == if p in t then t else t[p := Dir]
  {
    var w, u := WithDirs(t, p), if p in t then t else t[p := Dir];
    forall q ensures (q in w <==> q in u) && (q in w ==> w[q] == u[q]) {
      WithDirsAt(t, p, q);
      if q <= p && q != p {
        assert q <= Parent(p);
        AncestorExists(t, Parent(p), q);
      }
    }
  }

  lemma {:induction false} AncestorExists(t: Tree, q: Path, p: Path)
    requires WellFormed(t) && q in t && p <= q
    ensures p in t && (p != q ==> IsDir(t, p))
    decreases |q|
  {
    if p != q {
      assert Parent(q) in t;
      AncestorExists(t, Parent(q), p);
    }
  }

  lemma EntryUnmoved(t: Tree, w: Tree, source: Path, target: Path, entries: set<Path>, entry: Path)
    requires Entries(t, source, entries) && Entries(t, source, {entry}) && source != target && target in t
    requires Overlaid(t, w, source, target, entries)
    ensures entry in w && w[entry] == t[entry] && target in w && w[target] == t[target]
    ensures Parent(target + [Last(entry)]) == target
  {
    assert !IsCopyOf(source, target, entries, entry);
    assert !IsCopyOf(source, target, entries, target);
    assert entry in w && target in w;
  }

  lemma OverlaidOneMore(t: Tree, w: Tree, source: Path, target: Path, done: set<Path>, entry: Path)
    requires Entries(t, source, done + {entry})
    requires Overlaid(t, w, source, target, done)
    ensures Overlaid(t, w[target + [Last(entry)] := t[entry]], source, target, done + {entry})
  {
    var targetPath := target + [Last(entry)];
    var u := w[targetPath := t[entry]];
    assert entry == source + [Last(entry)] && Parent(targetPath) == target && Last(targetPath) == Last(entry);
    forall q ensures if IsCopyOf(source, target, done + {entry}, q) then q in u && u[q] == t[source + [Last(q)]]
                     else (q in u <==> q in t) && (q in t ==> u[q] == t[q])
    {
      assert q in w <==> q in w.Keys;
      if q != [] && Parent(q) == target && source + [Last(q)] == entry {
        assert Last(entry) == Last(q) && q == target + [Last(q)];
      }
    }
  }

  lemma OverlaidBeside(t: Tree, w: Tree, source: Path, target: Path, entries: set<Path>)
    requires Entries(t, source, entries) && Overlaid(t, w, source, target, entries)
    ensures SameBeside(t, w, target)
  {
    forall q | !(target <= q) ensures (q in w <==> q in t) && (q in t ==> w[q] == t[q]) {
      assert q in w <==> q in w.Keys;
    }
  }

  method CopyEntry(fs: FileSystem, entry: Path, targetPath: Path) returns (ok: bool)
    requires WellFormed(fs.tree) && entry in fs.tree && targetPath != [] && IsDir(fs.tree, Parent(targetPath)) && entry != targetPath
    modifies fs
    ensures WellFormed(fs.tree)
    ensures fs.tree == if ok then old(fs.tree)[targetPath := old(fs.tree)[entry]] else old(fs.tree)
    ensures old(fs.schedule) == [] && targetPath !in old(fs.tree) ==> ok && fs.schedule == []
  {
    if fs.tree[entry].Dir? {
      OneMoreDir(fs.tree, targetPath);
      NoConflict(fs.tree, targetPath);
      ok := fs.CreateDirAll(targetPath);
    } else {
      ok := fs.CopyFile(entry, targetPath);
    }
  }

  lemma NoConflict(t: Tree, p: Path)
    requires WellFormed(t) && p != [] && IsDir(t, Parent(p))
    ensures Conflict(t, p) <==> IsFile(t, p)
  {
    assert p == p[..|p|];
    forall i | 0 <= i < |p| ensures !IsFile(t, p[..i]) {
      assert p[..i] <= Parent(p);
      AncestorExists(t, Parent(p), p[..i]);
    }
  }

  /** The copy of one entry, after `done` of them. */
  method CopyNext(fs: FileSystem, ghost t0: Tree, source: Path, target: Path, ghost done: set<Path>, entry: Path) returns (ok: bool)
    requires WellFormed(fs.tree) && source != target && IsDir(t0, target)
    requires Entries(t0, source, done + {entry})
    requires Overlaid(t0, fs.tree, source, target, done)
    modifies fs
    ensures WellFormed(fs.tree)
    ensures Overlaid(t0, fs.tree, source, target, if ok then done + {entry} else done)
    ensures old(fs.schedule) == [] && target + [Last(entry)] !in old(fs.tree) ==> ok && fs.schedule == []
  {
    EntryUnmoved(t0, fs.tree, source, target, done, entry);
    OverlaidOneMore(t0, fs.tree, source, target, done, entry);
    ok := CopyEntry(fs, entry, target + [Last(entry)]);
  }

  lemma NotYetCopied(t: Tree, w: Tree, source: Path, target: Path, done: set<Path>, entry: Path)
    requires Entries(t, source, done + {entry}) && entry !in done
    requires Overlaid(t, w, source, target, done)
    ensures target + [Last(entry)] in w ==> target + [Last(entry)] in t
  {
    var p := target + [Last(entry)];
    assert p in w <==> p in w.Keys;
    assert entry == source + [Last(entry)] && Last(p) == Last(entry);
  }

  method CopyListed(fs: FileSystem, source: Path, target: Path, listed: set<Path>) returns (ok: bool, subs: seq<Path>)
    requires WellFormed(fs.tree) && IsDir(fs.tree, source) && IsDir(fs.tree, target) && source != target
    requires Entries(fs.tree, source, listed)
    modifies fs
    ensures WellFormed(fs.tree)
    ensures SameBeside(old(fs.tree), fs.tree, target)
    ensures ok ==> Overlaid(old(fs.tree), fs.tree, source, target, listed)
    ensures ok ==> Lists(subs, DirsAmong(old(fs.tree), listed, None))
    ensures old(fs.schedule) == [] && FreeFor(old(fs.tree), listed, target) ==> ok && fs.schedule == []
  {
    subs := [];
    ghost var t0 := fs.tree;
    var entries := listed;
    while entries != {}
      invariant WellFormed(fs.tree) && entries <= listed
      invariant Overlaid(t0, fs.tree, source, target, listed - entries)
      invariant Lists(subs, DirsAmong(t0, listed - entries, None))
      invariant old(fs.schedule) == [] && FreeFor(t0, listed, target) ==> fs.schedule == []
      decreases |entries|
    {
      var entry :| entry in entries;
      ghost var done := listed - entries;
      EntryUnmoved(t0, fs.tree, source, target, done, entry);
      DirsOneMore(t0, done, None, entry, subs);
      NotYetCopied(t0, fs.tree, source, target, done, entry);
      if fs.tree[entry].Dir? {
        subs := subs + [entry];
      }
      ok := CopyNext(fs, t0, source, target, done, entry);
      if !ok {
        OverlaidBeside(t0, fs.tree, source, target, done);
        return;
      }
      entries := entries - {entry};
      assert listed - entries == done + {entry};
    }
    assert listed - entries == listed;
    OverlaidBeside(t0, fs.tree, source, target, listed);
    return true, subs;
  }

  /** One directory: its files are copied, its subdirectories created and pushed. */
  method CopyEntries(fs: FileSystem, source: Path, target: Path) returns (ok: bool, subs: seq<Path>)
    requires WellFormed(fs.tree) && IsDir(fs.tree, source) && IsDir(fs.tree, target) && source != target
    modifies fs
    ensures WellFormed(fs.tree)
    ensures SameBeside(old(fs.tree), fs.tree, target)
    ensures ok ==> Overlaid(old(fs.tree), fs.tree, source, target, Children(old(fs.tree), source))
    ensures ok ==> Lists(subs, SubDirs(old(fs.tree), source, None))
    ensures old(fs.schedule) == [] && FreeFor(old(fs.tree), Children(old(fs.tree), source), target) ==> ok && fs.schedule == []
  {
    var listed := fs.ReadDir(source);
    if listed.Err? {
      return false, [];
    }
    assert SubDirs(fs.tree, source, None) == DirsAmong(fs.tree, listed.value, None);
    ok, subs := CopyListed(fs, source, target, listed.value);
  }

  /** No name of an entry is taken in `target`. */
  ghost predicate FreeFor(t: Tree, entries: set<Path>, target: Path)
    requires [] !in entries
  {
    forall e :: e in entries ==> target + [Last(e)] !in t
  }

  function Counterpart(from: Path, to: Path, d: Path): Path
    requires from <= d
  {
    to + d[|from|..]
  }

  predicate IsCopied(t: Tree, from: Path, to: Path, done: set<Path>, q: Path) {
    to <= q && q != to && from + q[|to|..] in t && Parent(from + q[|to|..]) in done
  }

  /** What the directories read so far held has been copied, and nothing else has changed. */
  ghost predicate CopiedBelow(t: Tree, now: Tree, from: Path, to: Path, done: set<Path>) {
    forall q {:trigger q in now} ::
      if IsCopied(t, from, to, done, q) then q in now && now[q] == t[from + q[|to|..]]
      else (q in now <==> q in t) && (q in t ==> now[q] == t[q])
  }

  lemma SourceStays(t: Tree, now: Tree, from: Path, to: Path, done: set<Path>, q: Path)
    requires CopiedBelow(t, now, from, to, done) && from <= q && !(from <= to) && !(to <= from)
    ensures (q in now <==> q in t) && (q in t ==> now[q] == t[q])
  {
    assert !(to <= q) by { if to <= q { PrefixesCompare(to, from, q); } }
    assert q in now <==> q in now.Keys;
  }

  lemma SourceListing(t: Tree, now: Tree, from: Path, to: Path, done: set<Path>, d: Path)
    requires CopiedBelow(t, now, from, to, done) && from <= d && !(from <= to) && !(to <= from)
    ensures Children(now, d) == Children(t, d) && SubDirs(now, d, None) == SubDirs(t, d, None)
  {
    forall q | q != [] && Parent(q) == d ensures (q in now <==> q in t) && (q in t ==> now[q] == t[q]) {
      assert from <= q;
      SourceStays(t, now, from, to, done, q);
    }
  }

  lemma TargetReady(t: Tree, now: Tree, from: Path, to: Path, done: set<Path>, d: Path)
    requires CopiedBelow(t, now, from, to, done) && from <= d && IsDir(t, d) && IsDir(t, to)
    requires d == from || (d != [] && Parent(d) in done)
    ensures IsDir(now, Counterpart(from, to, d))
  {
    var target := Counterpart(from, to, d);
    assert target[|to|..] == d[|from|..] && from + d[|from|..] == d;
    assert d == from ==> target == to;
    assert target in now <==> target in now.Keys;
  }

  lemma EntryPath(from: Path, to: Path, d: Path, q: Path)
    requires from <= d && q != [] && Parent(q) == Counterpart(from, to, d)
    ensures to <= q && q != to && from + q[|to|..] == d + [Last(q)] && Parent(d + [Last(q)]) == d
  {
    assert q == Counterpart(from, to, d) + [Last(q)];
    assert q[|to|..] == d[|from|..] + [Last(q)];
  }

  lemma CopiedOneMore(t: Tree, now: Tree, next: Tree, from: Path, to: Path, done: set<Path>, d: Path)
    requires !(from <= to) && !(to <= from) && from <= d
    requires CopiedBelow(t, now, from, to, done)
    requires Overlaid(now, next, d, Counterpart(from, to, d), Children(now, d))
    ensures CopiedBelow(t, next, from, to, done + {d})
  {
    SourceListing(t, now, from, to, done, d);
    forall q ensures if IsCopied(t, from, to, done + {d}, q) then q in next && next[q] == t[from + q[|to|..]]
                     else (q in next <==> q in t) && (q in t ==> next[q] == t[q])
    {
      CopiedAt(t, now, next, from, to, done, d, q);
    }
  }

  lemma ParentCounterpart(from: Path, to: Path, d: Path, q: Path)
    requires from <= d && to <= q && q != to
    ensures Parent(from + q[|to|..]) == d ==> Parent(q) == Counterpart(from, to, d)
  {
    var r := q[|to|..];
    assert Parent(from + r) == from + Parent(r) && Parent(q) == to + Parent(r);
  }

  lemma CopiedAt(t: Tree, now: Tree, next: Tree, from: Path, to: Path, done: set<Path>, d: Path, q: Path)
    requires !(from <= to) && !(to <= from) && from <= d && Children(now, d) == Children(t, d)
    requires CopiedBelow(t, now, from, to, done)
    requires Overlaid(now, next, d, Counterpart(from, to, d), Children(now, d))
    ensures if IsCopied(t, from, to, done + {d}, q) then q in next && next[q] == t[from + q[|to|..]]
            else (q in next <==> q in t) && (q in t ==> next[q] == t[q])
  {
    assert q in next <==> q in next.Keys;
    assert q in now <==> q in now.Keys;
    if q != [] && Parent(q) == Counterpart(from, to, d) {
      EntryPath(from, to, d, q);
      SourceStays(t, now, from, to, done, d + [Last(q)]);
    } else if to <= q && q != to {
      ParentCounterpart(from, to, d, q);
    }
  }

  lemma TargetFree(t: Tree, now: Tree, from: Path, to: Path, done: set<Path>, d: Path)
    requires CopiedBelow(t, now, from, to, done) && from <= d && d !in done
    requires forall q :: q in t && to <= q ==> q == to
    ensures FreeFor(now, Children(now, d), Counterpart(from, to, d))
  {
    forall e | e in Children(now, d) ensures Counterpart(from, to, d) + [Last(e)] !in now {
      var q := Counterpart(from, to, d) + [Last(e)];
      assert Parent(q) == Counterpart(from, to, d);
      EntryPath(from, to, d, q);
      assert q in now <==> q in now.Keys;
    }
  }

  lemma CopiedAll(t: Tree, now: Tree, from: Path, to: Path)
    requires WellFormed(t) && IsDir(t, to) && IsDir(t, from)
    requires CopiedBelow(t, now, from, to, WalkDirs(t, from, None))
    ensures now == Graft(t, to, Subtree(t, from))
  {
    forall q ensures var g := Graft(t, to, Subtree(t, from)); (q in now <==> q in g) && (q in now ==> now[q] == g[q]) {
      assert q in now <==> q in now.Keys;
      GraftAt(t, to, Subtree(t, from), q);
      if to <= q {
        var e := from + q[|to|..];
        SubtreeAt(t, from, q[|to|..]);
        if q != to && e in t {
          assert IsDir(t, Parent(e)) && from <= Parent(e);
        }
        assert from + [] == from;
      }
    }
  }

  lemma BesideTransitive(a: Tree, b: Tree, c: Tree, root: Path, below: Path)
    requires SameBeside(a, b, root) && SameBeside(b, c, below) && root <= below
    ensures SameBeside(a, c, root)
  {
    forall q | !(root <= q) ensures (q in a ==> q in c && c[q] == a[q]) && (q in c && q !in a ==> q <= root) {
      assert !(below <= q);
      if q in c && q !in b {
        PrefixesCompare(q, root, below);
      }
    }
  }

  lemma CopiedBeside(t: Tree, now: Tree, from: Path, to: Path, done: set<Path>)
    requires CopiedBelow(t, now, from, to, done)
    ensures SameBeside(t, now, to)
  {
    forall q | !(to <= q) ensures (q in now <==> q in t) && (q in t ==> now[q] == t[q]) {
      assert q in now <==> q in now.Keys;
    }
  }

  ghost predicate EmptyAt(t: Tree, root: Path) {
    forall q :: q in t && root <= q ==> q == root
  }

  /** The copy of one directory of the stack, after `done` of them. */
  method CopyStep(fs: FileSystem, ghost t: Tree, from: Path, to: Path, ghost done: set<Path>, d: Path)
    returns (ok: bool, subs: seq<Path>)
    requires WellFormed(fs.tree) && !(from <= to) && !(to <= from) && IsDir(t, to)
    requires from <= d && IsDir(t, d) && d !in done && (d == from || (d != [] && Parent(d) in done))
    requires CopiedBelow(t, fs.tree, from, to, done)
    modifies fs
    ensures WellFormed(fs.tree)
    ensures ok ==> CopiedBelow(t, fs.tree, from, to, done + {d}) && Lists(subs, SubDirs(t, d, None))
    ensures SameBeside(t, fs.tree, to)
    ensures old(fs.schedule) == [] && EmptyAt(t, to) ==> ok && fs.schedule == []
  {
    ghost var now := fs.tree;
    StepReady(t, now, from, to, done, d);
    CopiedBeside(t, now, from, to, done);
    ok, subs := CopyEntries(fs, d, Counterpart(from, to, d));
    BesideTransitive(t, now, fs.tree, to, Counterpart(from, to, d));
    if ok {
      CopiedOneMore(t, now, fs.tree, from, to, done, d);
    }
  }

  method CopyTree(fs: FileSystem, from: Path, to: Path) returns (ok: bool)
    requires WellFormed(fs.tree) && !(from <= to) && !(to <= from) && IsDir(fs.tree, from) && IsDir(fs.tree, to)
    modifies fs
    ensures WellFormed(fs.tree)
    ensures ok ==> fs.tree == Graft(old(fs.tree), to, Subtree(old(fs.tree), from))
    ensures SameBeside(old(fs.tree), fs.tree, to)
    ensures old(fs.schedule) == [] && EmptyAt(old(fs.tree), to) ==> ok && fs.schedule == []
  {
    ghost var t, dirs := fs.tree, WalkDirs(fs.tree, from, None);
    ghost var done: set<Path> := {};
    var stack := [from];
    WalkStarts(t, from, None);
    while stack != []
      invariant WellFormed(fs.tree) && Owes(dirs, from, done, stack)
      invariant CopiedBelow(t, fs.tree, from, to, done)
      invariant old(fs.schedule) == [] && EmptyAt(t, to) ==> fs.schedule == []
      decreases |dirs - done|
    {
      var d := stack[|stack| - 1];
      WalkPops(t, from, None, done, stack);
      var subs;
      ok, subs := CopyStep(fs, t, from, to, done, d);
      if !ok {
        return;
      }
      WalkPushes(t, from, None, done, stack, subs);
      stack := stack[..|stack| - 1] + subs;
      done := done + {d};
    }
    WalkEnds(t, from, None, done);
    CopiedBeside(t, fs.tree, from, to, done);
    CopiedAll(t, fs.tree, from, to);
    return true;
  }

  lemma StepReady(t: Tree, now: Tree, from: Path, to: Path, done: set<Path>, d: Path)
    requires CopiedBelow(t, now, from, to, done) && !(from <= to) && !(to <= from) && IsDir(t, to)
    requires from <= d && IsDir(t, d) && d !in done && (d == from || (d != [] && Parent(d) in done))
    ensures IsDir(now, d) && IsDir(now, Counterpart(from, to, d)) && d != Counterpart(from, to, d)
    ensures Children(now, d) == Children(t, d) && SubDirs(now, d, None) == SubDirs(t, d, None)
    ensures EmptyAt(t, to) ==> FreeFor(now, Children(now, d), Counterpart(from, to, d))
  {
    SourceStays(t, now, from, to, done, d);
    SourceListing(t, now, from, to, done, d);
    TargetReady(t, now, from, to, done, d);
    assert to <= Counterpart(from, to, d);
    assert !(to <= d) by { if to <= d { PrefixesCompare(to, from, d); } }
    if EmptyAt(t, to) {
      TargetFree(t, now, from, to, done, d);
    }
  }

  /** Copies a whole directory: every file once, whatever the depth of the tree. */
  method CopyDirContents(fs: FileSystem, from: Path, to: Path) returns (ok: bool)
    requires WellFormed(fs.tree) && !(from <= to) && !(to <= from) && IsDir(fs.tree, from)
    modifies fs
    ensures WellFormed(fs.tree)
    ensures ok ==> fs.tree == Graft(WithDirs(old(fs.tree), to), to, Subtree(old(fs.tree), from))
    ensures SameBeside(old(fs.tree), fs.tree, to)
    ensures old(fs.schedule) == [] && (forall q :: q in old(fs.tree) ==> !(to <= q)) && !Conflict(old(fs.tree), to)
      ==> ok && fs.schedule == []
  {
    DirsBeside(fs.tree, from, to);
    ok := fs.CreateDirAll(to);
    if !ok {
      return;
    }
    ghost var made := fs.tree;
    ok := CopyTree(fs, from, to);
    BesideTransitive(old(fs.tree), made, fs.tree, to, to);
  }

  lemma DirsBeside(t: Tree, from: Path, to: Path)
    requires !(from <= to) && IsDir(t, from)
    ensures var w := WithDirs(t, to);
      && SameBeside(t, t, to) && SameBeside(t, w, to) && IsDir(w, from) && Subtree(w, from) == Subtree(t, from)
      && ((forall q :: q in t ==> !(to <= q)) ==> EmptyAt(w, to))
  {
    var w := WithDirs(t, to);
    forall q ensures (q in w <==> q in t || q <= to) && (q in w ==> w[q] == if q in t then t[q] else Dir) {
      WithDirsAt(t, to, q);
    }
    forall r ensures (r in Subtree(w, from) <==> r in Subtree(t, from)) && (r in Subtree(t, from) ==> Subtree(w, from)[r] == Subtree(t, from)[r]) {
      SubtreeAt(t, from, r);
      SubtreeAt(w, from, r);
      assert from + r <= to ==> from <= to;
    }
  }
}
