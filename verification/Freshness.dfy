/** Remote listings, the freshness index built from them and the diff of two indexes. */
module Freshness {
  import opened Common
  import opened Text

  const METADATA_DIR_NAME := ".rendermesh-meta"

  datatype RemoteObjectSummary = RemoteObjectSummary(
    key: string,
    createdAt: Option<string>,
    etag: Option<string>,
    lastModified: Option<string>,
    size: nat,
    contentType: Option<string>,
    cacheControl: Option<string>)

  datatype OriginFileState = OriginFileState(
    path: string,
    createdAt: Option<string>,
    lastModified: Option<string>,
    capturedAt: nat,
    size: nat,
    etag: Option<string>,
    contentType: Option<string>,
    cacheControl: Option<string>)

  type Files = map<string, OriginFileState>

  datatype OriginFreshnessIndex = OriginFreshnessIndex(originId: string, capturedAt: nat, files: Files)

  datatype OriginFreshnessDiff = OriginFreshnessDiff(
    added: set<string>,
    modified: set<string>,
    removed: set<string>,
    unmodified: set<string>)
  {
    function Changed(): set<string> { added + modified }

    predicate HasChanges() { added != {} || modified != {} || removed != {} }
  }

  /** Accepts a key verbatim or rejects it with the key as the error. A `..` segment is the only component a relative Unix
      path can have that the source refuses; a leading `/` is refused before. */
  function NormalizeRemoteKey(key: string): Result<string, string> {
    if key == "" || key[0] == '/' || (exists c :: c in key && IsControl(c)) then
      Err(key)
    else if ".." in Split(key, '/') then
      Err(key)
    else if METADATA_DIR_NAME <= key
            && (|key| == |METADATA_DIR_NAME| || key[|METADATA_DIR_NAME|] == '/') then
      Err(key)
    else
      Ok(key)
  }

  function FileState(path: string, summary: RemoteObjectSummary, capturedAt: nat): OriginFileState {
    OriginFileState(path, summary.createdAt, summary.lastModified, capturedAt, summary.size,
                    summary.etag, summary.contentType, summary.cacheControl)
  }

  /** The files of a listing read in order: a later entry for a key replaces an earlier one and
      the first key that is refused refuses the listing. */
  function ListedFiles(summaries: seq<RemoteObjectSummary>, capturedAt: nat): Result<Files, string> {
    if summaries == [] then Ok(map[])
    else
      var last := summaries[|summaries| - 1];
      match ListedFiles(summaries[..|summaries| - 1], capturedAt)
      case Err(e) => Err(e)
      case Ok(files) =>
        match NormalizeRemoteKey(last.key)
        case Err(e) => Err(e)
        case Ok(path) => Ok(files[path := FileState(path, last, capturedAt)])
  }

  function BuiltIndex(originId: string, summaries: seq<RemoteObjectSummary>, capturedAt: nat)
    : Result<OriginFreshnessIndex, string>
  {
    match ListedFiles(summaries, capturedAt)
    case Err(e) => Err(e)
    case Ok(files) => Ok(OriginFreshnessIndex(originId, capturedAt, files))
  }

  method BuildOriginIndex(originId: string, summaries: seq<RemoteObjectSummary>, capturedAt: nat)
    returns (r: Result<OriginFreshnessIndex, string>)
    ensures r == BuiltIndex(originId, summaries, capturedAt)
  {
    var files: Files := map[];
    for i := 0 to |summaries|
      invariant ListedFiles(summaries[..i], capturedAt) == Ok(files)
    {
      var summary := summaries[i];
      assert summaries[..i + 1][..i] == summaries[..i];
      match NormalizeRemoteKey(summary.key) {
        case Err(e) =>
          RefusedPrefix(summaries, i + 1, capturedAt);
          return Err(e);
        case Ok(path) =>
          files := files[path := FileState(path, summary, capturedAt)];
      }
    }
    assert summaries[..|summaries|] == summaries;
    return Ok(OriginFreshnessIndex(originId, capturedAt, files));
  }

  lemma {:induction false} RefusedPrefix(summaries: seq<RemoteObjectSummary>, n: nat, capturedAt: nat)
    requires n <= |summaries| && ListedFiles(summaries[..n], capturedAt).Err?
    ensures ListedFiles(summaries, capturedAt) == ListedFiles(summaries[..n], capturedAt)
  {
    if n == |summaries| {
      assert summaries[..n] == summaries;
    } else {
      var shorter := summaries[..|summaries| - 1];
      assert shorter[..n] == summaries[..n];
      RefusedPrefix(shorter, n, capturedAt);
    }
  }

  lemma {:induction false} ListingAccepted(summaries: seq<RemoteObjectSummary>, capturedAt: nat)
    ensures var r := ListedFiles(summaries, capturedAt);
      && (r.Ok? <==> forall s :: s in summaries ==> NormalizeRemoteKey(s.key).Ok?)
      && (r.Ok? ==> r.value.Keys == (set s | s in summaries :: s.key))
  {
    if summaries != [] {
      var init, last := summaries[..|summaries| - 1], summaries[|summaries| - 1];
      assert summaries == init + [last];
      ListingAccepted(init, capturedAt);
    }
  }

  /** No later entry has the key of entry `i`. */
  ghost predicate IsLastOfKey(summaries: seq<RemoteObjectSummary>, i: nat) {
    i < |summaries| && forall j :: i < j < |summaries| ==> summaries[j].key != summaries[i].key
  }

  lemma {:induction false} LastEntryCounts(summaries: seq<RemoteObjectSummary>, capturedAt: nat, i: nat)
    requires ListedFiles(summaries, capturedAt).Ok? && IsLastOfKey(summaries, i)
    ensures var files := ListedFiles(summaries, capturedAt).value;
      summaries[i].key in files && files[summaries[i].key] == FileState(summaries[i].key, summaries[i], capturedAt)
  {
    var init := summaries[..|summaries| - 1];
    if i < |init| {
      assert summaries[|init|].key != summaries[i].key;
      assert forall j :: i < j < |init| ==> init[j] == summaries[j];
      LastEntryCounts(init, capturedAt, i);
    }
  }

  /** A listing is accepted exactly when every key is, and then describes exactly the listed keys,
      each by its last entry. */
  lemma ListedFilesMeaning(summaries: seq<RemoteObjectSummary>, capturedAt: nat)
    ensures var r := ListedFiles(summaries, capturedAt);
      && (r.Ok? <==> forall s :: s in summaries ==> NormalizeRemoteKey(s.key).Ok?)
      && (r.Ok? ==>
            && r.value.Keys == (set s | s in summaries :: s.key)
            && forall i: nat {:trigger IsLastOfKey(summaries, i)} :: IsLastOfKey(summaries, i) ==>
                 summaries[i].key in r.value && r.value[summaries[i].key] == FileState(summaries[i].key, summaries[i], capturedAt))
  {
    ListingAccepted(summaries, capturedAt);
    if ListedFiles(summaries, capturedAt).Ok? {
      forall i: nat | IsLastOfKey(summaries, i)
        ensures var files := ListedFiles(summaries, capturedAt).value;
          summaries[i].key in files && files[summaries[i].key] == FileState(summaries[i].key, summaries[i], capturedAt)
      {
        LastEntryCounts(summaries, capturedAt, i);
      }
    }
  }

  lemma AcceptedKeyIsRelative(key: string)
    requires NormalizeRemoteKey(key).Ok?
    ensures key != "" && key[0] != '/' && NormalizeRemoteKey(key) == Ok(key)
  {
  }

  predicate SameSourceState(left: OriginFileState, right: OriginFileState) {
    && left.path == right.path
    && left.createdAt == right.createdAt
    && left.lastModified == right.lastModified
    && left.size == right.size
    && left.etag == right.etag
    && left.contentType == right.contentType
    && left.cacheControl == right.cacheControl
  }

  /** The files an index knows; none before the first refresh. */
  function KnownFiles(index: Option<OriginFreshnessIndex>): Files {
    if index.Some? then index.value.files else map[]
  }

  /** The diff seen so far, when only `keys` of the new files and `gone` of the known ones were visited. */
  function DiffAmong(known: Files, files: Files, keys: set<string>, gone: set<string>): OriginFreshnessDiff
    requires keys <= files.Keys
  {
    OriginFreshnessDiff(
      set k | k in keys && k !in known,
      set k | k in keys && k in known && !SameSourceState(known[k], files[k]),
      set k | k in gone && k !in files,
      set k | k in keys && k in known && SameSourceState(known[k], files[k]))
  }

  function DiffOf(previous: Option<OriginFreshnessIndex>, next: OriginFreshnessIndex): OriginFreshnessDiff {
    var known := KnownFiles(previous);
    DiffAmong(known, next.files, next.files.Keys, known.Keys)
  }

  lemma DiffAfterKey(known: Files, files: Files, keys: set<string>, path: string)
    requires keys <= files.Keys && path in files
    ensures var before, after := DiffAmong(known, files, keys, {}), DiffAmong(known, files, keys + {path}, {});
      after == if path in known && SameSourceState(known[path], files[path]) then before.(unmodified := before.unmodified + {path})
               else if path in known then before.(modified := before.modified + {path})
               else before.(added := before.added + {path})
  {
    var before, after := DiffAmong(known, files, keys, {}), DiffAmong(known, files, keys + {path}, {});
    if path in known && SameSourceState(known[path], files[path]) {
      assert after.added == before.added && after.modified == before.modified;
      assert after.unmodified == before.unmodified + {path};
    } else if path in known {
      assert after.added == before.added && after.unmodified == before.unmodified;
      assert after.modified == before.modified + {path};
    } else {
      assert after.modified == before.modified && after.unmodified == before.unmodified;
      assert after.added == before.added + {path};
    }
  }

  lemma DiffAfterGone(known: Files, files: Files, gone: set<string>, path: string)
    ensures var before, after := DiffAmong(known, files, files.Keys, gone), DiffAmong(known, files, files.Keys, gone + {path});
      after == if path in files then before else before.(removed := before.removed + {path})
  {
    var before, after := DiffAmong(known, files, files.Keys, gone), DiffAmong(known, files, files.Keys, gone + {path});
    assert after.removed == if path in files then before.removed else before.removed + {path};
  }

  lemma DiffOfNothingSeen(known: Files, files: Files)
    ensures DiffAmong(known, files, {}, {}) == OriginFreshnessDiff({}, {}, {}, {})
    ensures DiffAmong(map[], files, files.Keys, {}) == OriginFreshnessDiff(files.Keys, {}, {}, {})
  {
    assert (set k | k in files.Keys) == files.Keys;
  }

  // The loops visit the keys in any order; the result is a set per class, so the order of the
  // source's sorted maps does not show.
  method DiffOriginIndexes(previous: Option<OriginFreshnessIndex>, next: OriginFreshnessIndex)
    returns (diff: OriginFreshnessDiff)
    ensures diff == DiffOf(previous, next)
  {
    var files := next.files;
    DiffOfNothingSeen(KnownFiles(previous), files);
    if previous.None? {
      return OriginFreshnessDiff(files.Keys, {}, {}, {});
    }
    var known := previous.value.files;
    diff := OriginFreshnessDiff({}, {}, {}, {});

    var paths := files.Keys;
    while paths != {}
      invariant paths <= files.Keys
      invariant diff == DiffAmong(known, files, files.Keys - paths, {})
    {
      var path :| path in paths;
      DiffAfterKey(known, files, files.Keys - paths, path);
      assert files.Keys - (paths - {path}) == (files.Keys - paths) + {path};
      if path in known && SameSourceState(known[path], files[path]) {
        diff := diff.(unmodified := diff.unmodified + {path});
      } else if path in known {
        diff := diff.(modified := diff.modified + {path});
      } else {
        diff := diff.(added := diff.added + {path});
      }
      paths := paths - {path};
    }

    var gone := known.Keys;
    while gone != {}
      invariant gone <= known.Keys
      invariant diff == DiffAmong(known, files, files.Keys, known.Keys - gone)
    {
      var path :| path in gone;
      DiffAfterGone(known, files, known.Keys - gone, path);
      assert known.Keys - (gone - {path}) == (known.Keys - gone) + {path};
      if path !in files {
        diff := diff.(removed := diff.removed + {path});
      }
      gone := gone - {path};
    }
  }

  lemma DiffSets(known: Files, files: Files)
    ensures var d := DiffAmong(known, files, files.Keys, known.Keys);
      && d.added + d.modified + d.unmodified == files.Keys
      && d.modified + d.removed + d.unmodified == known.Keys
      && d.added !! d.modified && d.added !! d.unmodified && d.modified !! d.unmodified
      && d.removed !! d.modified && d.removed !! d.unmodified
  {
    var d := DiffAmong(known, files, files.Keys, known.Keys);
    assert d.added + d.modified + d.unmodified == files.Keys;
    assert d.modified + d.removed + d.unmodified == known.Keys;
  }

  lemma PartitionSizes(d: OriginFreshnessDiff, keys: set<string>, knownKeys: set<string>)
    requires d.added + d.modified + d.unmodified == keys && d.modified + d.removed + d.unmodified == knownKeys
    requires d.added !! d.modified && d.added !! d.unmodified && d.modified !! d.unmodified
    requires d.removed !! d.modified && d.removed !! d.unmodified
    ensures |d.added| + |d.modified| + |d.unmodified| == |keys| && |d.modified| + |d.removed| + |d.unmodified| == |knownKeys|
  {
    SizeOfThree(d.added, d.modified, d.unmodified);
    SizeOfThree(d.modified, d.removed, d.unmodified);
  }

  lemma SizeOfThree(a: set<string>, b: set<string>, c: set<string>)
    requires a !! b && a !! c && b !! c
    ensures |a + b + c| == |a| + |b| + |c|
  {
    assert |a + b| == |a| + |b|;
    assert (a + b) !! c;
  }

  /** The four sets partition the keys of both indexes: sizes add up, so no key is in two sets. */
  lemma DiffPartitions(previous: Option<OriginFreshnessIndex>, next: OriginFreshnessIndex)
    ensures var d := DiffOf(previous, next);
      && d.added + d.modified + d.unmodified == next.files.Keys
      && d.modified + d.removed + d.unmodified == KnownFiles(previous).Keys
      && |d.added| + |d.modified| + |d.unmodified| == |next.files|
      && |d.modified| + |d.removed| + |d.unmodified| == |KnownFiles(previous)|
  {
    DiffSets(KnownFiles(previous), next.files);
    PartitionSizes(DiffOf(previous, next), next.files.Keys, KnownFiles(previous).Keys);
    assert |next.files| == |next.files.Keys| && |KnownFiles(previous)| == |KnownFiles(previous).Keys|;
  }

  /** The listings disagree on the presence or on the source state of `key`. */
  predicate Differs(known: Files, files: Files, key: string) {
    || (key in known) != (key in files)
    || (key in known && key in files && !SameSourceState(known[key], files[key]))
  }

  lemma TouchedMeansDiffers(previous: Option<OriginFreshnessIndex>, next: OriginFreshnessIndex, key: string)
    ensures var d := DiffOf(previous, next);
      key in d.added + d.modified + d.removed <==> Differs(KnownFiles(previous), next.files, key)
  {
  }

  /** An unchanged remote yields no download and nothing to purge, and nothing else does. */
  lemma NoChangesMeansSameSource(previous: Option<OriginFreshnessIndex>, next: OriginFreshnessIndex)
    ensures !DiffOf(previous, next).HasChanges() <==> forall k :: !Differs(KnownFiles(previous), next.files, k)
  {
    var d := DiffOf(previous, next);
    var known := KnownFiles(previous);
    forall k { TouchedMeansDiffers(previous, next, k); }
    if !d.HasChanges() {
      forall k ensures !Differs(known, next.files, k) {
        assert k !in d.added + d.modified + d.removed;
      }
    } else {
      var k :| k in d.added + d.modified + d.removed;
      assert Differs(known, next.files, k);
    }
  }

  // ----- what the diff of two listings says of the summaries listed

  /** Two listings, whenever they were read: a key listed by both is unmodified exactly when its last
      summary is the same in both, whole, and modified otherwise. */
  lemma ListedTwice(originId: string, xs: seq<RemoteObjectSummary>, t: nat, ys: seq<RemoteObjectSummary>, u: nat, i: nat, j: nat)
    requires BuiltIndex(originId, xs, t).Ok? && BuiltIndex(originId, ys, u).Ok?
    requires IsLastOfKey(xs, i) && IsLastOfKey(ys, j) && xs[i].key == ys[j].key
    ensures var d := DiffOf(Some(BuiltIndex(originId, xs, t).value), BuiltIndex(originId, ys, u).value); var k := ys[j].key;
      && (k in d.unmodified <==> xs[i] == ys[j]) && (k in d.modified <==> xs[i] != ys[j])
      && k !in d.added && k !in d.removed
  {
    LastEntryCounts(xs, t, i);
    LastEntryCounts(ys, u, j);
  }

  /** A key listed by one of them alone is added or removed. */
  lemma ListedOnce(originId: string, xs: seq<RemoteObjectSummary>, t: nat, ys: seq<RemoteObjectSummary>, u: nat, k: string)
    requires BuiltIndex(originId, xs, t).Ok? && BuiltIndex(originId, ys, u).Ok?
    ensures var d := DiffOf(Some(BuiltIndex(originId, xs, t).value), BuiltIndex(originId, ys, u).value);
      && (k in d.added <==> (exists y :: y in ys && y.key == k) && (forall x :: x in xs ==> x.key != k))
      && (k in d.removed <==> (exists x :: x in xs && x.key == k) && (forall y :: y in ys ==> y.key != k))
    ensures k in DiffOf(None, BuiltIndex(originId, ys, u).value).added <==> exists y :: y in ys && y.key == k
  {
    ListingAccepted(xs, t);
    ListingAccepted(ys, u);
    var known, files := ListedFiles(xs, t).value, ListedFiles(ys, u).value;
    assert k in known <==> k in known.Keys;
    assert k in files <==> k in files.Keys;
  }

  /** A key of a listing has a last entry. */
  lemma {:induction false} LastOfKey(xs: seq<RemoteObjectSummary>, x: RemoteObjectSummary) returns (i: nat)
    requires x in xs
    ensures IsLastOfKey(xs, i) && xs[i].key == x.key
  {
    var n := |xs| - 1;
    if xs[n].key == x.key {
      i := n;
    } else {
      assert xs == xs[..n] + [xs[n]];
      i := LastOfKey(xs[..n], x);
      assert forall j :: i < j < n ==> xs[j] == xs[..n][j];
    }
  }

  /** The same summaries read at any two times: nothing to download, nothing to purge. */
  lemma SameListingNoChanges(originId: string, xs: seq<RemoteObjectSummary>, t: nat, u: nat)
    requires BuiltIndex(originId, xs, t).Ok?
    ensures BuiltIndex(originId, xs, u).Ok?
    ensures var d := DiffOf(Some(BuiltIndex(originId, xs, t).value), BuiltIndex(originId, xs, u).value);
      d.Changed() == {} && !d.HasChanges() && d.unmodified == set x | x in xs :: x.key
  {
    ListingAccepted(xs, t);
    ListingAccepted(xs, u);
    var d := DiffOf(Some(BuiltIndex(originId, xs, t).value), BuiltIndex(originId, xs, u).value);
    forall k ensures k !in d.added && k !in d.removed && k !in d.modified && (k in d.unmodified <==> exists x :: x in xs && x.key == k) {
      ListedOnce(originId, xs, t, xs, u, k);
      DiffSets(ListedFiles(xs, t).value, ListedFiles(xs, u).value);
      if x :| x in xs && x.key == k {
        var i := LastOfKey(xs, x);
        ListedTwice(originId, xs, t, xs, u, i, i);
      }
    }
  }

  // ----- which keys are accepted

  /** A relative key: no control character, no `..` between slashes, not below the metadata directory. */
  ghost predicate MayList(key: string) {
    && key != "" && key[0] != '/' && (forall i :: 0 <= i < |key| ==> !IsControl(key[i]))
    && !HasSegment(key, "..", '/')
    && !exists rest :: key == ".rendermesh-meta" + rest && (rest == "" || rest[0] == '/')
  }

  /** A key is accepted as it stands or refused with itself as the error. */
  lemma RemoteKeyExactly(key: string)
    ensures NormalizeRemoteKey(key) == if MayList(key) then Ok(key) else Err(key)
  {
    var dir := ".rendermesh-meta";
    SegmentExactly(key, "..", '/');
    assert (exists c :: c in key && IsControl(c)) <==> exists i :: 0 <= i < |key| && IsControl(key[i]);
    if dir <= key {
      assert key == dir + key[|dir|..];
    }
    if rest :| key == dir + rest && (rest == "" || rest[0] == '/') {
      assert dir <= key && (rest != "" ==> key[|dir|] == rest[0]);
    }
  }
}
