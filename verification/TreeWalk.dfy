/** Walks of a directory tree with an explicit stack: what one has seen and what it still owes. */
module TreeWalk {
  import opened Common
  import opened FileTree

  predicate Skipped(skip: Option<Path>, q: Path) {
    skip.Some? && skip.value <= q
  }

  /** The directories a walk from `root` reads. */
  function WalkDirs(t: Tree, root: Path, skip: Option<Path>): set<Path> {
    set q | q in t && t[q].Dir? && root <= q && !Skipped(skip, q)
  }

  /** The files it meets: those in a directory it reads. */
  function WalkFiles(t: Tree, dirs: set<Path>): set<Path> {
    set q | q in t && t[q].File? && q != [] && Parent(q) in dirs
  }

  function SubDirs(t: Tree, d: Path, skip: Option<Path>): set<Path> {
    set q | q in t && t[q].Dir? && q != [] && Parent(q) == d && !Skipped(skip, q)
  }

  /** The pushes of one directory: each of its subdirectories once. */
  ghost predicate Lists(subs: seq<Path>, dirs: set<Path>) {
    && (forall q :: q in subs <==> q in dirs)
    && (forall i, j :: 0 <= i < j < |subs| ==> subs[i] != subs[j])
  }

  /** Nothing is read twice, nothing waits twice, and nothing below a directory read is forgotten. */
  ghost predicate Owes(dirs: set<Path>, root: Path, done: set<Path>, stack: seq<Path>) {
    && done <= dirs
    && (forall i :: 0 <= i < |stack| ==> stack[i] in dirs && stack[i] !in done)
    && (forall i, j :: 0 <= i < j < |stack| ==> stack[i] != stack[j])
    && (root in done || root in stack)
    && (forall q :: q in dirs && q != root && q != [] && Parent(q) in done ==> q in done || q in stack)
    && (forall q :: (q in done || q in stack) && q != root ==> q != [] && Parent(q) in done)
  }

  lemma WalkStarts(t: Tree, root: Path, skip: Option<Path>)
    requires IsDir(t, root) && !Skipped(skip, root)
    ensures Owes(WalkDirs(t, root, skip), root, {}, [root])
  {
  }

  lemma SubDirIsWalked(t: Tree, root: Path, skip: Option<Path>, q: Path)
    requires q != [] && q != root
    ensures q in WalkDirs(t, root, skip) && WellFormed(t) ==> Parent(q) in WalkDirs(t, root, skip)
    ensures q in WalkDirs(t, root, skip) ==> q in SubDirs(t, Parent(q), skip)
    ensures Parent(q) in WalkDirs(t, root, skip) && q in SubDirs(t, Parent(q), skip) ==> q in WalkDirs(t, root, skip)
  {
    if q in WalkDirs(t, root, skip) && WellFormed(t) {
      assert root <= Parent(q);
      assert Parent(q) in t;
    }
  }

  lemma WalkGoesOn(t: Tree, root: Path, skip: Option<Path>, done: set<Path>, rest: seq<Path>, d: Path, subs: seq<Path>)
    requires Owes(WalkDirs(t, root, skip), root, done, rest + [d]) && Lists(subs, SubDirs(t, d, skip))
    ensures Owes(WalkDirs(t, root, skip), root, done + {d}, rest + subs)
    ensures d !in done && d in WalkDirs(t, root, skip)
  {
    var dirs, stack, next := WalkDirs(t, root, skip), rest + [d], rest + subs;
    assert stack[|rest|] == d;
    forall i | 0 <= i < |subs| ensures subs[i] in dirs && subs[i] !in done && subs[i] !in rest && subs[i] != d && subs[i] != root && Parent(subs[i]) == d {
      assert subs[i] in SubDirs(t, d, skip);
      assert root <= d && subs[i] != root;
      SubDirIsWalked(t, root, skip, subs[i]);
      assert !(subs[i] in done || subs[i] in stack);
    }
    forall i | 0 <= i < |rest| ensures rest[i] in dirs && rest[i] !in done && rest[i] != d {
      assert stack[i] == rest[i];
    }
    forall q | q in dirs && q != root && q != [] && Parent(q) in done + {d} ensures q in done + {d} || q in next {
      SubDirIsWalked(t, root, skip, q);
      if Parent(q) == d {
        assert q in subs;
      } else {
        assert q in done || q in stack;
      }
    }
    forall q | (q in done + {d} || q in next) && q != root ensures q != [] && Parent(q) in done + {d} {
      if q in done || q in stack {
      } else {
        assert q in subs;
      }
    }
    forall i, j | 0 <= i < j < |next| ensures next[i] != next[j] {
      if j < |rest| {
        assert stack[i] == rest[i] && stack[j] == rest[j];
      } else {
        assert next[j] == subs[j - |rest|];
      }
    }
    if root == d {
    } else {
      assert root in done || root in rest;
    }
  }

  /** The directory on top of the stack is a new one. */
  lemma WalkPops(t: Tree, root: Path, skip: Option<Path>, done: set<Path>, stack: seq<Path>)
    requires stack != [] && Owes(WalkDirs(t, root, skip), root, done, stack)
    ensures var d := stack[|stack| - 1];
      && d in WalkDirs(t, root, skip) && d !in done && IsDir(t, d) && root <= d && !Skipped(skip, d)
      && (d == root || (d != [] && Parent(d) in done))
      && |WalkDirs(t, root, skip) - (done + {d})| < |WalkDirs(t, root, skip) - done|
  {
    var d := stack[|stack| - 1];
    var dirs := WalkDirs(t, root, skip);
    assert dirs - (done + {d}) == (dirs - done) - {d};
    assert d in dirs - done;
  }

  lemma WalkPushes(t: Tree, root: Path, skip: Option<Path>, done: set<Path>, stack: seq<Path>, subs: seq<Path>)
    requires stack != [] && Owes(WalkDirs(t, root, skip), root, done, stack)
    requires Lists(subs, SubDirs(t, stack[|stack| - 1], skip))
    ensures Owes(WalkDirs(t, root, skip), root, done + {stack[|stack| - 1]}, stack[..|stack| - 1] + subs)
  {
    assert stack == stack[..|stack| - 1] + [stack[|stack| - 1]];
    WalkGoesOn(t, root, skip, done, stack[..|stack| - 1], stack[|stack| - 1], subs);
  }

  lemma {:induction false} WalkReaches(t: Tree, root: Path, skip: Option<Path>, done: set<Path>, q: Path)
    requires WellFormed(t) && Owes(WalkDirs(t, root, skip), root, done, []) && q in WalkDirs(t, root, skip)
    ensures q in done
    decreases |q|
  {
    if q != root {
      assert q != [];
      SubDirIsWalked(t, root, skip, q);
      WalkReaches(t, root, skip, done, Parent(q));
    }
  }

  /** A walk that owes nothing has read every directory. */
  lemma WalkEnds(t: Tree, root: Path, skip: Option<Path>, done: set<Path>)
    requires WellFormed(t) && Owes(WalkDirs(t, root, skip), root, done, [])
    ensures done == WalkDirs(t, root, skip)
  {
    forall q | q in WalkDirs(t, root, skip) ensures q in done {
      WalkReaches(t, root, skip, done, q);
    }
  }

  ghost predicate Entries(t: Tree, source: Path, entries: set<Path>) {
    forall e :: e in entries ==> e in t && e != [] && Parent(e) == source
  }

  function DirsAmong(t: Tree, entries: set<Path>, skip: Option<Path>): set<Path> {
    set e | e in entries && IsDir(t, e) && !Skipped(skip, e)
  }

  lemma DirsOneMore(t: Tree, done: set<Path>, skip: Option<Path>, entry: Path, subs: seq<Path>)
    requires Lists(subs, DirsAmong(t, done, skip)) && entry !in done && entry in t
    ensures Lists(if t[entry].Dir? && !Skipped(skip, entry) then subs + [entry] else subs, DirsAmong(t, done + {entry}, skip))
  {
    var next := if t[entry].Dir? && !Skipped(skip, entry) then subs + [entry] else subs;
    forall q ensures q in next <==> q in DirsAmong(t, done + {entry}, skip) {
      assert q in subs <==> q in DirsAmong(t, done, skip);
    }
    assert entry !in subs;
  }
}
