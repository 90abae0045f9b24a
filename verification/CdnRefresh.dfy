/** The purge plan drawn from a freshness diff. */
module CdnRefresh {
  import opened Common
  import opened Text
  import opened Freshness

  datatype CdnRefreshStrategy = ChangedPaths | All

  datatype CdnRefreshMode = PurgeAll | PurgePaths(paths: seq<string>) | PurgeUrls(urls: seq<string>)

  datatype CdnRefreshPlan = CdnRefreshPlan(mode: CdnRefreshMode, changedCount: nat)

  function FormatCdnPath(path: string): string {
    if path != "" && path[0] == '/' then path else "/" + path
  }

  function FormatUrl(prefix: string, path: string): string {
    TrimEndOf(prefix, '/') + FormatCdnPath(path)
  }

  function TouchedKeys(diff: OriginFreshnessDiff): set<string> {
    diff.added + diff.modified + diff.removed
  }

  function ChangedCdnPaths(diff: OriginFreshnessDiff): seq<string> {
    InOrder(CdnPathsOf(TouchedKeys(diff)))
  }

  function DiffChangedCount(diff: OriginFreshnessDiff): nat {
    |diff.added| + |diff.modified| + |diff.removed|
  }

  function PrefixedUrls(prefix: string, paths: seq<string>): (urls: seq<string>)
    ensures |urls| == |paths|
    ensures forall i :: 0 <= i < |paths| ==> urls[i] == FormatUrl(prefix, paths[i])
  {
    seq(|paths|, i requires 0 <= i < |paths| => FormatUrl(prefix, paths[i]))
  }

  function AllUrls(prefixes: seq<string>, paths: seq<string>): (urls: seq<string>)
  {
    if prefixes == [] then [] else PrefixedUrls(prefixes[0], paths) + AllUrls(prefixes[1..], paths)
  }

  function BuildCdnRefreshPlan(strategy: CdnRefreshStrategy, diff: OriginFreshnessDiff, urlPrefixes: seq<string>)
    : Option<CdnRefreshPlan>
  {
    var paths := ChangedCdnPaths(diff);
    if paths == [] then None
    else if strategy.All? then Some(CdnRefreshPlan(PurgeAll, |paths|))
    else if urlPrefixes == [] then Some(CdnRefreshPlan(PurgePaths(paths), DiffChangedCount(diff)))
    else Some(CdnRefreshPlan(PurgeUrls(AllUrls(urlPrefixes, paths)), DiffChangedCount(diff)))
  }

  /** What a purge reaches, spelled for a cache key `url`. */
  ghost predicate Purges(mode: CdnRefreshMode, prefixes: seq<string>, key: string) {
    match mode
    case PurgeAll => true
    case PurgePaths(paths) => FormatCdnPath(key) in paths
    case PurgeUrls(urls) => forall prefix :: prefix in prefixes ==> FormatUrl(prefix, FormatCdnPath(key)) in urls
  }

  ghost predicate IsUrlOf(prefixes: seq<string>, paths: seq<string>, url: string, i: nat, j: nat) {
    i < |prefixes| && j < |paths| && url == FormatUrl(prefixes[i], paths[j])
  }

  lemma {:induction false} AllUrlsSize(prefixes: seq<string>, paths: seq<string>)
    ensures |AllUrls(prefixes, paths)| == |prefixes| * |paths|
  {
    if prefixes != [] {
      AllUrlsSize(prefixes[1..], paths);
      assert |prefixes| * |paths| == |paths| + (|prefixes| - 1) * |paths|;
    }
  }

  lemma {:induction false} AllUrlsHas(prefixes: seq<string>, paths: seq<string>, i: nat, j: nat)
    requires i < |prefixes| && j < |paths|
    ensures FormatUrl(prefixes[i], paths[j]) in AllUrls(prefixes, paths)
  {
    var first := PrefixedUrls(prefixes[0], paths);
    if i == 0 {
      assert first[j] in AllUrls(prefixes, paths);
    } else {
      AllUrlsHas(prefixes[1..], paths, i - 1, j);
    }
  }

  lemma {:induction false} AllUrlsOnly(prefixes: seq<string>, paths: seq<string>, url: string) returns (i: nat, j: nat)
    requires url in AllUrls(prefixes, paths)
    ensures IsUrlOf(prefixes, paths, url, i, j)
  {
    var first := PrefixedUrls(prefixes[0], paths);
    if url in first {
      i := 0;
      j :| 0 <= j < |first| && first[j] == url;
    } else {
      i, j := AllUrlsOnly(prefixes[1..], paths, url);
      i := i + 1;
    }
  }

  /** A plan exists exactly when something changed, and then reaches every key whose presence or
      source state differs between the two listings. */
  lemma PlanCoversEveryChange(strategy: CdnRefreshStrategy, previous: Option<OriginFreshnessIndex>,
                              next: OriginFreshnessIndex, prefixes: seq<string>)
    ensures var plan := BuildCdnRefreshPlan(strategy, DiffOf(previous, next), prefixes);
      && (plan.None? <==> forall k :: !Differs(KnownFiles(previous), next.files, k))
      && (plan.Some? ==> forall k :: Differs(KnownFiles(previous), next.files, k) ==> Purges(plan.value.mode, prefixes, k))
  {
    var diff := DiffOf(previous, next);
    var plan := BuildCdnRefreshPlan(strategy, diff, prefixes);
    NoPlanMeansNoChanges(strategy, diff, prefixes);
    NoChangesMeansSameSource(previous, next);
    if plan.Some? {
      forall k | Differs(KnownFiles(previous), next.files, k) ensures Purges(plan.value.mode, prefixes, k) {
        TouchedMeansDiffers(previous, next, k);
        PlanPurgesTouched(strategy, diff, prefixes, k);
      }
    }
  }

  lemma NoPlanMeansNoChanges(strategy: CdnRefreshStrategy, diff: OriginFreshnessDiff, prefixes: seq<string>)
    ensures BuildCdnRefreshPlan(strategy, diff, prefixes).None? <==> !diff.HasChanges()
  {
    var image := set k | k in TouchedKeys(diff) :: FormatCdnPath(k);
    if diff.HasChanges() {
      var k :| k in TouchedKeys(diff);
      assert FormatCdnPath(k) in ChangedCdnPaths(diff);
    } else {
      assert image == {};
    }
  }

  lemma PlanPurgesTouched(strategy: CdnRefreshStrategy, diff: OriginFreshnessDiff, prefixes: seq<string>, key: string)
    requires key in TouchedKeys(diff)
    ensures var plan := BuildCdnRefreshPlan(strategy, diff, prefixes);
      plan.Some? && Purges(plan.value.mode, prefixes, key)
  {
    var paths := ChangedCdnPaths(diff);
    assert FormatCdnPath(key) in paths;
    var j :| 0 <= j < |paths| && paths[j] == FormatCdnPath(key);
    forall prefix | prefix in prefixes ensures FormatUrl(prefix, FormatCdnPath(key)) in AllUrls(prefixes, paths) {
      var i :| 0 <= i < |prefixes| && prefixes[i] == prefix;
      AllUrlsHas(prefixes, paths, i, j);
    }
  }

  /** A path or URL plan names nothing but touched keys. */
  lemma PathsNameOnlyTouched(diff: OriginFreshnessDiff, path: string) returns (key: string)
    requires path in ChangedCdnPaths(diff)
    ensures key in TouchedKeys(diff) && path == FormatCdnPath(key)
  {
    key :| key in TouchedKeys(diff) && path == FormatCdnPath(key);
  }

  lemma UrlsNameOnlyTouched(diff: OriginFreshnessDiff, prefixes: seq<string>, url: string)
    returns (key: string, prefix: string)
    requires url in AllUrls(prefixes, ChangedCdnPaths(diff))
    ensures key in TouchedKeys(diff) && prefix in prefixes && url == FormatUrl(prefix, FormatCdnPath(key))
  {
    var paths := ChangedCdnPaths(diff);
    var i, j := AllUrlsOnly(prefixes, paths, url);
    assert paths[j] in paths;
    key := PathsNameOnlyTouched(diff, paths[j]);
    prefix := prefixes[i];
  }

  /** No two touched keys share a purge path: no key is another one with a leading slash. */
  predicate NoSlashTwins(keys: set<string>) {
    forall k {:trigger HasTwin(keys, k)} :: k in keys ==> !HasTwin(keys, k)
  }

  predicate HasTwin(keys: set<string>, k: string) {
    "/" + k in keys && (k == "" || k[0] != '/')
  }

  function CdnPathsOf(keys: set<string>): set<string> {
    set k | k in keys :: FormatCdnPath(k)
  }

  lemma NoTwinsInPart(keys: set<string>, part: set<string>)
    requires NoSlashTwins(keys) && part <= keys
    ensures NoSlashTwins(part)
  {
    forall k | k in part ensures !HasTwin(part, k) {
      assert k in keys && !HasTwin(keys, k);
    }
  }

  lemma TwinAddsNoPath(rest: set<string>, k: string)
    requires HasTwin(rest, k)
    ensures CdnPathsOf(rest + {k}) == CdnPathsOf(rest)
  {
    assert FormatCdnPath("/" + k) == FormatCdnPath(k);
  }

  lemma NewPath(rest: set<string>, k: string)
    requires k !in rest && NoSlashTwins(rest + {k})
    ensures FormatCdnPath(k) !in CdnPathsOf(rest) && CdnPathsOf(rest + {k}) == CdnPathsOf(rest) + {FormatCdnPath(k)}
  {
    forall x | x in rest ensures FormatCdnPath(x) != FormatCdnPath(k) {
      assert x in rest + {k} && k in rest + {k};
      assert !HasTwin(rest + {k}, x) && !HasTwin(rest + {k}, k);
      if FormatCdnPath(x) == FormatCdnPath(k) {
        SameCdnPath(k, x);
      }
    }
  }

  lemma {:induction false} ImageSize(keys: set<string>)
    ensures |CdnPathsOf(keys)| <= |keys| && (|CdnPathsOf(keys)| == |keys| <==> NoSlashTwins(keys))
  {
    if keys == {} {
      assert CdnPathsOf(keys) == {};
    } else if NoSlashTwins(keys) {
      var k :| k in keys;
      var rest := keys - {k};
      assert rest + {k} == keys;
      NoTwinsInPart(keys, rest);
      ImageSize(rest);
      NewPath(rest, k);
    } else {
      var k :| k in keys && HasTwin(keys, k);
      var rest := keys - {k};
      assert rest + {k} == keys;
      assert |"/" + k| == |k| + 1;
      assert HasTwin(rest, k);
      ImageSize(rest);
      TwinAddsNoPath(rest, k);
    }
  }

  lemma SameCdnPath(a: string, b: string)
    requires a != b && FormatCdnPath(a) == FormatCdnPath(b)
    ensures (a == "/" + b && !(b != "" && b[0] == '/')) || (b == "/" + a && !(a != "" && a[0] == '/'))
  {
    assert a == ("/" + a)[1..] && b == ("/" + b)[1..];
  }

  /** The plan's path count is the sum of the three change sets exactly when no touched key is
      another touched key with a slash in front. */
  lemma PathCountIsChangeCount(diff: OriginFreshnessDiff)
    requires diff.added !! diff.modified && diff.added !! diff.removed && diff.modified !! diff.removed
    ensures |ChangedCdnPaths(diff)| == DiffChangedCount(diff) <==> NoSlashTwins(TouchedKeys(diff))
  {
    ImageSize(TouchedKeys(diff));
    assert |diff.added + diff.modified| == |diff.added| + |diff.modified|;
    assert |TouchedKeys(diff)| == |diff.added + diff.modified| + |diff.removed|;
  }

  /** Keys that a listing accepts never start with a slash, so real diffs always count exactly. */
  lemma ListedDiffsCountExactly(previous: Option<OriginFreshnessIndex>, next: OriginFreshnessIndex,
                                strategy: CdnRefreshStrategy, prefixes: seq<string>)
    requires forall k :: k in KnownFiles(previous) || k in next.files ==> NormalizeRemoteKey(k).Ok?
    ensures var diff := DiffOf(previous, next); var plan := BuildCdnRefreshPlan(strategy, diff, prefixes);
      && |ChangedCdnPaths(diff)| == DiffChangedCount(diff)
      && (plan.Some? ==> plan.value.changedCount == DiffChangedCount(diff))
      && (plan.Some? && plan.value.mode.PurgeUrls? ==> |plan.value.mode.urls| == |prefixes| * DiffChangedCount(diff))
  {
    var diff := DiffOf(previous, next);
    assert NoSlashTwins(TouchedKeys(diff)) by {
      forall k | k in TouchedKeys(diff) ensures !HasTwin(TouchedKeys(diff), k) {
        if "/" + k in TouchedKeys(diff) {
          AcceptedKeyIsRelative("/" + k);
        }
      }
    }
    PathCountIsChangeCount(diff);
    AllUrlsSize(prefixes, ChangedCdnPaths(diff));
  }

  // ----- the plan in plain words

  /** `url` is a touched key behind a slash, behind one of the prefixes without its closing slashes. */
  ghost predicate IsPurgeUrl(prefixes: seq<string>, keys: set<string>, url: string) {
    exists prefix, k :: prefix in prefixes && k in keys && IsSpelled(prefix, k, url)
  }

  ghost predicate IsSpelled(prefix: string, key: string, url: string) {
    exists stem :: IsStem(stem, prefix, '/') && url == stem + "/" + key
  }

  /** For keys that listings accept: no plan without a touched key; everything, or each touched key
      behind a slash and no other path, or each of those behind each prefix and no other URL. */
  lemma PlanInPlainWords(strategy: CdnRefreshStrategy, diff: OriginFreshnessDiff, prefixes: seq<string>)
    requires forall k :: k in diff.added + diff.modified + diff.removed ==> k != "" && k[0] != '/'
    ensures var plan, touched := BuildCdnRefreshPlan(strategy, diff, prefixes), diff.added + diff.modified + diff.removed;
      && (plan.None? <==> touched == {})
      && (plan.Some? ==>
            && (strategy.All? <==> plan.value.mode.PurgeAll?)
            && (plan.value.mode.PurgePaths? <==> strategy.ChangedPaths? && prefixes == [])
            && (plan.value.mode.PurgePaths? ==> forall p :: p in plan.value.mode.paths <==> exists k :: k in touched && p == "/" + k)
            && (plan.value.mode.PurgePaths? ==> Ascending(plan.value.mode.paths))
            && (plan.value.mode.PurgeUrls? ==> forall url :: url in plan.value.mode.urls <==> IsPurgeUrl(prefixes, touched, url)))
  {
    var plan, touched := BuildCdnRefreshPlan(strategy, diff, prefixes), diff.added + diff.modified + diff.removed;
    var paths := ChangedCdnPaths(diff);
    NoPlanMeansNoChanges(strategy, diff, prefixes);
    InOrderAscends(CdnPathsOf(TouchedKeys(diff)));
    forall p ensures p in paths <==> exists k :: k in touched && p == "/" + k {
      if p in paths {
        var k := PathsNameOnlyTouched(diff, p);
        assert k in touched && p == "/" + k;
      }
      if k :| k in touched && p == "/" + k {
        assert FormatCdnPath(k) in paths;
      }
    }
    forall url ensures url in AllUrls(prefixes, paths) <==> IsPurgeUrl(prefixes, touched, url) {
      UrlInPlainWords(diff, prefixes, url);
    }
  }

  lemma UrlInPlainWords(diff: OriginFreshnessDiff, prefixes: seq<string>, url: string)
    requires forall k :: k in diff.added + diff.modified + diff.removed ==> k != "" && k[0] != '/'
    ensures url in AllUrls(prefixes, ChangedCdnPaths(diff)) <==> IsPurgeUrl(prefixes, diff.added + diff.modified + diff.removed, url)
  {
    if url in AllUrls(prefixes, ChangedCdnPaths(diff)) {
      var k, prefix := UrlsNameOnlyTouched(diff, prefixes, url);
      SpelledUrl(prefix, k, url);
    }
    if prefix, k :| prefix in prefixes && k in diff.added + diff.modified + diff.removed && IsSpelled(prefix, k, url) {
      SpelledUrl(prefix, k, url);
      UrlListed(diff, prefixes, prefix, k);
    }
  }

  lemma SpelledUrl(prefix: string, key: string, url: string)
    requires key != "" && key[0] != '/'
    ensures IsSpelled(prefix, key, url) <==> url == FormatUrl(prefix, FormatCdnPath(key))
  {
    TrimEndOfIsStem(prefix, '/');
    assert FormatUrl(prefix, FormatCdnPath(key)) == TrimEndOf(prefix, '/') + "/" + key;
    if stem :| IsStem(stem, prefix, '/') && url == stem + "/" + key {
      StemIsUnique(stem, TrimEndOf(prefix, '/'), prefix, '/');
    }
  }

  lemma UrlListed(diff: OriginFreshnessDiff, prefixes: seq<string>, prefix: string, key: string)
    requires prefix in prefixes && key in TouchedKeys(diff)
    ensures FormatUrl(prefix, FormatCdnPath(key)) in AllUrls(prefixes, ChangedCdnPaths(diff))
  {
    var paths := ChangedCdnPaths(diff);
    assert FormatCdnPath(key) in paths;
    var i :| 0 <= i < |prefixes| && prefixes[i] == prefix;
    var j :| 0 <= j < |paths| && paths[j] == FormatCdnPath(key);
    AllUrlsHas(prefixes, paths, i, j);
  }

  /** The same summaries read at any two times ask for no purge. */
  lemma SameListingNoPlan(originId: string, xs: seq<RemoteObjectSummary>, t: nat, u: nat, strategy: CdnRefreshStrategy, prefixes: seq<string>)
    requires BuiltIndex(originId, xs, t).Ok? && BuiltIndex(originId, xs, u).Ok?
    ensures BuildCdnRefreshPlan(strategy, DiffOf(Some(BuiltIndex(originId, xs, t).value), BuiltIndex(originId, xs, u).value), prefixes).None?
  {
    SameListingNoChanges(originId, xs, t, u);
    NoPlanMeansNoChanges(strategy, DiffOf(Some(BuiltIndex(originId, xs, t).value), BuiltIndex(originId, xs, u).value), prefixes);
  }
}
