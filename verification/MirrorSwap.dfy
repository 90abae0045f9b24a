/** Activation of a staged mirror: two renames with a backup, a restore and a cleanup. */
module MirrorSwap {
  import opened Common
  import opened FileTree
  import opened OriginRuntime

  predicate Apart(a: Path, b: Path) {
    !(a <= b) && !(b <= a)
  }

  lemma MovedAt(t: Tree, from: Path, to: Path, q: Path)
    requires Apart(from, to)
    ensures var m := Moved(t, from, to);
      if to <= q then (q in m <==> from + q[|to|..] in t) && (q in m ==> m[q] == t[from + q[|to|..]])
      else if from <= q then q !in m
      else (q in m <==> q in t) && (q in t ==> m[q] == t[q])
  {
    GraftAt(WithoutTree(WithoutTree(t, from), to), to, Subtree(t, from), q);
    if to <= q {
      SubtreeAt(t, from, q[|to|..]);
    }
  }

  lemma SameContents(t: Tree, a: Path, u: Tree, b: Path)
    requires forall r :: (b + r in u <==> a + r in t) && (b + r in u ==> u[b + r] == t[a + r])
    ensures Subtree(u, b) == Subtree(t, a)
  {
    forall r ensures (r in Subtree(u, b) <==> r in Subtree(t, a)) && (r in Subtree(u, b) ==> Subtree(u, b)[r] == Subtree(t, a)[r]) {
      SubtreeAt(t, a, r);
      SubtreeAt(u, b, r);
      assert (b + r in u <==> a + r in t) && (b + r in u ==> u[b + r] == t[a + r]);
    }
  }

  lemma MovedContents(t: Tree, from: Path, to: Path)
    requires Apart(from, to)
    ensures Subtree(Moved(t, from, to), to) == Subtree(t, from)
    ensures from !in Moved(t, from, to)
  {
    var m := Moved(t, from, to);
    MovedAt(t, from, to, from);
    forall r ensures (to + r in m <==> from + r in t) && (to + r in m ==> m[to + r] == t[from + r]) {
      MovedAt(t, from, to, to + r);
      assert (to + r)[|to|..] == r;
    }
    SameContents(t, from, m, to);
  }

  lemma MovedKeeps(t: Tree, from: Path, to: Path, other: Path)
    requires Apart(from, to) && Apart(from, other) && Apart(to, other)
    ensures Subtree(Moved(t, from, to), other) == Subtree(t, other)
    ensures other in Moved(t, from, to) <==> other in t
    ensures other in t ==> Moved(t, from, to)[other] == t[other]
  {
    var m := Moved(t, from, to);
    forall r ensures (other + r in m <==> other + r in t) && (other + r in m ==> m[other + r] == t[other + r]) {
      ApartBelow(from, other, r);
      ApartBelow(to, other, r);
      MovedAt(t, from, to, other + r);
    }
    assert other + [] == other;
    SameContents(t, other, m, other);
  }

  lemma ApartBelow(a: Path, b: Path, r: Path)
    requires Apart(a, b)
    ensures !(a <= b + r)
  {
    if a <= b + r { PrefixesCompare(a, b, b + r); }
  }

  lemma PreparedParent(t: Tree, origin: Path, other: Path)
    requires origin != [] && Apart(origin, other)
    ensures var w := WithDirs(t, Parent(origin));
      && Subtree(w, other) == Subtree(t, other) && Subtree(w, origin) == Subtree(t, origin)
      && (other in w <==> other in t) && (other in t ==> w[other] == t[other])
      && (origin in w <==> origin in t) && (origin in t ==> w[origin] == t[origin])
  {
    var parent := Parent(origin);
    var w := WithDirs(t, parent);
    forall r ensures (other + r in w <==> other + r in t) && (other + r in w ==> w[other + r] == t[other + r]) {
      WithDirsAt(t, parent, other + r);
      assert other <= other + r && parent <= origin;
    }
    forall r ensures (origin + r in w <==> origin + r in t) && (origin + r in w ==> w[origin + r] == t[origin + r]) {
      WithDirsAt(t, parent, origin + r);
    }
    assert other + [] == other && origin + [] == origin;
    SameContents(t, other, w, other);
    SameContents(t, origin, w, origin);
  }

  /** How a swap can end. */
  datatype SwapEnd = OldLive | OldInBackup | NewLive

  /** The three places after a swap, against what they held before it. */
  ghost predicate SwapState(before: Tree, after: Tree, origin: Path, staging: Path, backup: Path, end: SwapEnd) {
    match end
    case OldLive =>
      && (origin in after <==> origin in before) && Subtree(after, origin) == Subtree(before, origin)
      && IsDir(after, staging) && Subtree(after, staging) == Subtree(before, staging)
    case OldInBackup =>
      && origin in before && origin !in after && IsDir(after, backup) && Subtree(after, backup) == Subtree(before, origin)
      && IsDir(after, staging) && Subtree(after, staging) == Subtree(before, staging)
    case NewLive =>
      && IsDir(after, origin) && Subtree(after, origin) == Subtree(before, staging) && staging !in after
  }

  lemma RemovalKeeps(t: Tree, d: Path, other: Path, u: Tree)
    requires Apart(d, other)
    requires u == WithoutTree(t, d) || exists gone :: u == HalfRemoved(t, d, gone)
    ensures Subtree(u, other) == Subtree(t, other) && (other in u <==> other in t) && (other in t ==> u[other] == t[other])
  {
    forall r ensures (other + r in u <==> other + r in t) && (other + r in u ==> u[other + r] == t[other + r]) {
      ApartBelow(d, other, r);
    }
    assert other + [] == other;
    SameContents(t, other, u, other);
  }

  lemma MovedRootIsDir(t: Tree, from: Path, to: Path)
    requires Apart(from, to) && IsDir(t, from)
    ensures IsDir(Moved(t, from, to), to)
  {
    MovedAt(t, from, to, to);
    assert from + to[|to|..] == from;
  }

  /** The tree between the two renames. */
  function OldAside(t: Tree, origin: Path, backup: Path, hadOrigin: bool): Tree {
    if hadOrigin then Moved(t, origin, backup) else t
  }

  predicate Places(t: Tree, origin: Path, staging: Path, backup: Path) {
    && Apart(origin, staging) && Apart(origin, backup) && Apart(staging, backup)
    && IsDir(t, staging) && (origin in t ==> IsDir(t, origin)) && backup !in t
  }

  lemma AsideState(t: Tree, origin: Path, staging: Path, backup: Path, hadOrigin: bool)
    requires Places(t, origin, staging, backup) && (hadOrigin ==> origin in t)
    ensures var u := OldAside(t, origin, backup, hadOrigin);
      && IsDir(u, staging) && Subtree(u, staging) == Subtree(t, staging)
      && (hadOrigin ==> IsDir(u, backup) && Subtree(u, backup) == Subtree(t, origin) && origin !in u)
      && (!hadOrigin ==> backup !in u)
  {
    if hadOrigin {
      MovedContents(t, origin, backup);
      MovedKeeps(t, origin, backup, staging);
      MovedRootIsDir(t, origin, backup);
    }
  }

  lemma NewLiveState(t: Tree, origin: Path, staging: Path, backup: Path, hadOrigin: bool)
    requires Places(t, origin, staging, backup) && (hadOrigin ==> origin in t)
    ensures var after := Moved(OldAside(t, origin, backup, hadOrigin), staging, origin);
      && SwapState(t, after, origin, staging, backup, NewLive)
      && (!hadOrigin ==> backup !in after) && (hadOrigin ==> IsDir(after, backup))
  {
    var u := OldAside(t, origin, backup, hadOrigin);
    AsideState(t, origin, staging, backup, hadOrigin);
    MovedContents(u, staging, origin);
    MovedKeeps(u, staging, origin, backup);
    MovedRootIsDir(u, staging, origin);
  }

  lemma RestoredState(t: Tree, origin: Path, staging: Path, backup: Path)
    requires Places(t, origin, staging, backup) && origin in t
    ensures var after := Moved(OldAside(t, origin, backup, true), backup, origin);
      SwapState(t, after, origin, staging, backup, OldLive) && backup !in after
  {
    var u := OldAside(t, origin, backup, true);
    AsideState(t, origin, staging, backup, true);
    MovedContents(u, backup, origin);
    MovedKeeps(u, backup, origin, staging);
    MovedRootIsDir(u, backup, origin);
  }

  lemma CleanedState(t: Tree, activeTree: Tree, after: Tree, origin: Path, staging: Path, backup: Path)
    requires Places(t, origin, staging, backup) && SwapState(t, activeTree, origin, staging, backup, NewLive)
    requires after == WithoutTree(activeTree, backup) || exists gone :: after == HalfRemoved(activeTree, backup, gone)
    ensures SwapState(t, after, origin, staging, backup, NewLive)
  {
    RemovalKeeps(activeTree, backup, origin, after);
    RemovalKeeps(activeTree, backup, staging, after);
  }

  /** Creating the parent of the mirror touches none of the three places. */
  lemma PreparedState(t: Tree, after: Tree, origin: Path, staging: Path, backup: Path, end: SwapEnd)
    requires origin != [] && Places(t, origin, staging, backup)
    ensures Places(WithDirs(t, Parent(origin)), origin, staging, backup)
    ensures SwapState(WithDirs(t, Parent(origin)), after, origin, staging, backup, end) ==> SwapState(t, after, origin, staging, backup, end)
    ensures origin in WithDirs(t, Parent(origin)) <==> origin in t
  {
    PreparedParent(t, origin, staging);
    PreparedParent(t, origin, backup);
  }

  datatype Activation = Activated | Restored | Stuck

  /** The second rename, undoing the first when it fails. */
  method ActivateOrRestore(fs: FileSystem, origin: Path, staging: Path, backup: Path, hadOrigin: bool)
    returns (activation: Activation)
    requires WellFormed(fs.tree) && |origin| > 0 && |staging| > 0 && |backup| > 0
    requires Apart(origin, staging) && Apart(origin, backup)
    modifies fs
    ensures WellFormed(fs.tree)
    ensures fs.tree == if activation.Activated? then Moved(old(fs.tree), staging, origin)
                       else if activation.Restored? && hadOrigin then Moved(old(fs.tree), backup, origin)
                       else old(fs.tree)
    ensures activation.Stuck? ==> hadOrigin
    ensures old(fs.schedule) == [] ==> fs.schedule == []
    ensures old(fs.schedule) == [] && IsDir(old(fs.tree), staging) && IsDir(old(fs.tree), Parent(origin)) && origin !in old(fs.tree)
      ==> activation.Activated?
  {
    var activated := fs.Rename(staging, origin);
    if activated {
      return Activated;
    }
    if hadOrigin {
      var restored := fs.Rename(backup, origin);
      return if restored then Restored else Stuck;
    }
    return Restored;
  }

  /** The swap once the parent of the mirror exists. */
  method SwapPrepared(fs: FileSystem, origin: Path, staging: Path, backup: Path)
    returns (r: Result<(), RefreshError>, ghost end: SwapEnd)
    requires WellFormed(fs.tree)
    requires |origin| > 0 && |staging| > 0 && |backup| > 0 && Parent(backup) == Parent(origin)
    requires Places(fs.tree, origin, staging, backup) && IsDir(fs.tree, Parent(origin))
    modifies fs
    ensures WellFormed(fs.tree)
    ensures SwapState(old(fs.tree), fs.tree, origin, staging, backup, end)
    ensures r.Ok? ==> end.NewLive? && backup !in fs.tree
    ensures r.Err? && end.NewLive? ==> r.error == BackupNotRemoved
    ensures r.Err? && end.OldInBackup? ==> r.error == RestoreFailed
    ensures r.Err? && end.OldLive? ==> r.error == ActivateFailed && backup !in fs.tree
    ensures old(fs.schedule) == [] ==> r.Ok?
  {
    ghost var before := fs.tree;
    var hadOrigin := fs.Exists(origin);
    if hadOrigin {
      var moved := fs.Rename(origin, backup);
      if !moved {
        return Err(ActivateFailed), OldLive;
      }
    }
    AsideState(before, origin, staging, backup, hadOrigin);
    ParentStays(before, origin, backup);
    var activation := ActivateOrRestore(fs, origin, staging, backup, hadOrigin);
    match activation {
      case Stuck =>
        return Err(RestoreFailed), OldInBackup;
      case Restored =>
        if hadOrigin {
          RestoredState(before, origin, staging, backup);
        }
        return Err(ActivateFailed), OldLive;
      case Activated =>
        NewLiveState(before, origin, staging, backup, hadOrigin);
    }
    ghost var activeTree := fs.tree;
    var cleaned := fs.RemoveDirIfExists(backup);
    CleanedState(before, activeTree, fs.tree, origin, staging, backup);
    if !cleaned {
      return Err(BackupNotRemoved), NewLive;
    }
    return Ok(()), NewLive;
  }

  lemma ParentStays(t: Tree, origin: Path, backup: Path)
    requires origin != [] && backup != [] && Parent(origin) == Parent(backup) && Apart(origin, backup) && IsDir(t, Parent(origin))
    ensures IsDir(Moved(t, origin, backup), Parent(origin))
  {
    MovedAt(t, origin, backup, Parent(origin));
  }

  /** For every combination of failing operations: success means the new tree is live and the
      backup gone; an error leaves the old tree live, or intact in the backup because it could not
      be moved back, or the new tree live because only the backup's removal failed. */
  method SwapOriginDir(fs: FileSystem, origin: Path, staging: Path, backup: Path)
    returns (r: Result<(), RefreshError>, ghost end: SwapEnd)
    requires WellFormed(fs.tree)
    requires |origin| > 0 && |staging| > 0 && |backup| > 0 && Parent(backup) == Parent(origin)
    requires Places(fs.tree, origin, staging, backup)
    modifies fs
    ensures WellFormed(fs.tree)
    ensures SwapState(old(fs.tree), fs.tree, origin, staging, backup, end)
    ensures r.Ok? ==> end.NewLive? && backup !in fs.tree
    ensures r.Err? && end.NewLive? ==> r.error == BackupNotRemoved
    ensures r.Err? && end.OldInBackup? ==> r.error == RestoreFailed
    ensures r.Err? && end.OldLive? ==> r.error == ActivateFailed && backup !in fs.tree
    ensures old(fs.schedule) == [] && !Conflict(old(fs.tree), Parent(origin)) ==> r.Ok?
  {
    var made := fs.CreateDirAll(Parent(origin));
    if !made {
      return Err(ActivateFailed), OldLive;
    }
    PreparedState(old(fs.tree), fs.tree, origin, staging, backup, OldLive);
    r, end := SwapPrepared(fs, origin, staging, backup);
    PreparedState(old(fs.tree), fs.tree, origin, staging, backup, end);
  }
}
