/** The host resolver: how it is built, and the order-free rule it implements. */
module HostResolution {
  import opened Common
  import opened Text
  import opened Sorting
  import opened Hosts

  datatype HostEntry = HostEntry(host: string, origin: string)

  datatype HostRule = Global | Wild(suffix: string) | Exact(host: string) | Unusable

  datatype WildcardHost = WildcardHost(suffix: string, originId: string)

  datatype HostResolver = HostResolver(exact: map<string, string>, wildcards: seq<WildcardHost>, fallback: Option<string>)

  datatype HostError = DuplicateGlobal | InvalidHost(host: string)

  datatype ResolvedHost = ResolvedHost(normalizedHost: string, matched: HostRule, originId: string)

  const GLOBAL := "*"
  const WILDCARD_PREFIX := "*."

  function RuleOf(host: string): HostRule {
    var normalized := ToAsciiLower(Trim(host));
    if normalized == GLOBAL then Global
    else if WILDCARD_PREFIX <= normalized then
      var suffix := normalized[2..];
      if NormalizeHost(suffix) == Some(suffix) then Wild("." + suffix) else Unusable
    else match NormalizeHost(normalized)
      case Some(host) => Exact(host)
      case None => Unusable
  }

  /** The entries by what they say; spelling does not matter from here on. */
  datatype Rule = Rule(what: HostRule, origin: string)

  function RulesBy(classify: string -> HostRule, entries: seq<HostEntry>): (rules: seq<Rule>)
    ensures |rules| == |entries|
    ensures forall i :: 0 <= i < |entries| ==> rules[i] == Rule(classify(entries[i].host), entries[i].origin)
  {
    seq(|entries|, i requires 0 <= i < |entries| => Rule(classify(entries[i].host), entries[i].origin))
  }

  function RulesOf(entries: seq<HostEntry>): seq<Rule> {
    RulesBy(RuleOf, entries)
  }

  // ----- what the constructor builds

  function ExactOf(rules: seq<Rule>): map<string, string> {
    if rules == [] then map[]
    else
      var last := rules[|rules| - 1];
      var exact := ExactOf(rules[..|rules| - 1]);
      if last.what.Exact? then exact[last.what.host := last.origin] else exact
  }

  function WildcardsOf(rules: seq<Rule>): seq<WildcardHost> {
    if rules == [] then []
    else
      var last := rules[|rules| - 1];
      WildcardsOf(rules[..|rules| - 1]) + if last.what.Wild? then [WildcardHost(last.what.suffix, last.origin)] else []
  }

  function FallbackOf(rules: seq<Rule>): Option<string> {
    if rules == [] then None
    else
      var last := rules[|rules| - 1];
      if last.what.Global? then Some(last.origin) else FallbackOf(rules[..|rules| - 1])
  }

  /** Longer suffixes first. */
  predicate LongerBefore(a: WildcardHost, b: WildcardHost) {
    |a.suffix| > |b.suffix|
  }

  function ResolverOf(rules: seq<Rule>): HostResolver {
    HostResolver(ExactOf(rules), StableSort(WildcardsOf(rules), LongerBefore), FallbackOf(rules))
  }

  /** Every entry is usable and at most one is the global wildcard. */
  ghost predicate Acceptable(rules: seq<Rule>) {
    && (forall i :: 0 <= i < |rules| ==> !rules[i].what.Unusable?)
    && (forall i, j :: 0 <= i < j < |rules| ==> !(rules[i].what.Global? && rules[j].what.Global?))
  }

  lemma {:induction false} FallbackPresent(rules: seq<Rule>)
    ensures FallbackOf(rules).Some? <==> exists i :: 0 <= i < |rules| && rules[i].what.Global?
    ensures FallbackOf(rules).Some? ==> exists i :: 0 <= i < |rules| && rules[i] == Rule(Global, FallbackOf(rules).value)
  {
    if rules != [] {
      var init, last := rules[..|rules| - 1], rules[|rules| - 1];
      FallbackPresent(init);
      assert forall i :: 0 <= i < |init| ==> init[i] == rules[i];
      if last.what.Global? {
        assert rules[|rules| - 1] == Rule(Global, last.origin);
      }
    }
  }

  lemma OneMoreRule(rules: seq<Rule>, n: nat)
    requires n < |rules|
    ensures var before, after, what := rules[..n], rules[..n + 1], rules[n].what;
      && ExactOf(after) == (if what.Exact? then ExactOf(before)[what.host := rules[n].origin] else ExactOf(before))
      && WildcardsOf(after) == WildcardsOf(before) + (if what.Wild? then [WildcardHost(what.suffix, rules[n].origin)] else [])
      && FallbackOf(after) == (if what.Global? then Some(rules[n].origin) else FallbackOf(before))
      && (Acceptable(after) <==> Acceptable(before) && !what.Unusable? && !(what.Global? && FallbackOf(before).Some?))
      && (Acceptable(rules) ==> Acceptable(after))
  {
    var before, after := rules[..n], rules[..n + 1];
    assert after[..n] == before && after[n] == rules[n];
    FallbackPresent(before);
    if Acceptable(before) && !rules[n].what.Unusable? && !(rules[n].what.Global? && FallbackOf(before).Some?) {
      forall i, j | 0 <= i < j < |after| ensures !(after[i].what.Global? && after[j].what.Global?) {
        assert after[i] == before[i];
      }
    }
    if Acceptable(after) {
      assert forall i :: 0 <= i < n ==> before[i] == after[i];
    }
  }

  method BuildResolver(classify: string -> HostRule, entries: seq<HostEntry>) returns (r: Result<HostResolver, HostError>)
    ensures r.Ok? <==> Acceptable(RulesBy(classify, entries))
    ensures r.Ok? ==> r.value == ResolverOf(RulesBy(classify, entries))
  {
    ghost var rules := RulesBy(classify, entries);
    var exact: map<string, string> := map[];
    var wildcards: seq<WildcardHost> := [];
    var fallback: Option<string> := None;
    for n := 0 to |entries|
      invariant Acceptable(rules[..n])
      invariant exact == ExactOf(rules[..n]) && wildcards == WildcardsOf(rules[..n]) && fallback == FallbackOf(rules[..n])
    {
      var entry := entries[n];
      OneMoreRule(rules, n);
      match classify(entry.host) {
        case Global =>
          if fallback.Some? {
            return Err(DuplicateGlobal);
          }
          fallback := Some(entry.origin);
        case Wild(suffix) =>
          wildcards := wildcards + [WildcardHost(suffix, entry.origin)];
        case Exact(host) =>
          exact := exact[host := entry.origin];
        case Unusable =>
          return Err(InvalidHost(entry.host));
      }
    }
    assert rules[..|entries|] == rules;
    return Ok(HostResolver(exact, StableSort(wildcards, LongerBefore), fallback));
  }

  /** A manifest is accepted exactly when every host is usable and at most one is the global wildcard. */
  method NewResolver(entries: seq<HostEntry>) returns (r: Result<HostResolver, HostError>)
    ensures r.Ok? <==> Acceptable(RulesOf(entries))
    ensures r.Ok? ==> r.value == ResolverOf(RulesOf(entries))
  {
    r := BuildResolver(RuleOf, entries);
  }

  // ----- resolution

  predicate SuffixMatches(suffix: string, host: string) {
    EndsWith(host, suffix) && |host| > |suffix|
  }

  function FirstWildcard(wildcards: seq<WildcardHost>, host: string): Option<WildcardHost> {
    if wildcards == [] then None
    else if SuffixMatches(wildcards[0].suffix, host) then Some(wildcards[0])
    else FirstWildcard(wildcards[1..], host)
  }

  function ResolveHost(r: HostResolver, host: string): Option<ResolvedHost> {
    if host in r.exact then Some(ResolvedHost(host, Exact(host), r.exact[host]))
    else match FirstWildcard(r.wildcards, host)
      case Some(wildcard) => Some(ResolvedHost(host, Wild(wildcard.suffix), wildcard.originId))
      case None => if r.fallback.Some? then Some(ResolvedHost(host, Global, r.fallback.value)) else None
  }

  function Resolve(r: HostResolver, header: string): Option<ResolvedHost> {
    match NormalizeHost(header)
    case None => None
    case Some(host) => ResolveHost(r, host)
  }

  // ----- the simple rule: exact, else longest matching suffix, else the global wildcard

  predicate RuleMatches(what: HostRule, host: string) {
    match what
    case Exact(h) => h == host
    case Wild(suffix) => SuffixMatches(suffix, host)
    case Global => true
    case Unusable => false
  }

  /** How strong a match is; the length of the suffix decides among wildcards. */
  predicate Weaker(a: HostRule, b: HostRule) {
    match a
    case Exact(_) => false
    case Wild(s) => b.Exact? || (b.Wild? && |s| < |b.suffix|)
    case _ => b.Exact? || b.Wild?
  }

  /** `what` is the strongest rule of the manifest that matches. */
  ghost predicate IsBest(rules: seq<Rule>, host: string, what: HostRule) {
    && RuleMatches(what, host)
    && (exists i :: 0 <= i < |rules| && rules[i].what == what)
    && (forall i :: 0 <= i < |rules| && RuleMatches(rules[i].what, host) ==> !Weaker(what, rules[i].what))
  }

  /** Two strongest rules for one host are the same rule: equally long suffixes of one host are equal. */
  lemma BestIsUnique(rules: seq<Rule>, host: string, a: HostRule, b: HostRule)
    requires IsBest(rules, host, a) && IsBest(rules, host, b)
    ensures a == b
  {
    assert !Weaker(a, b) && !Weaker(b, a);
    if a.Wild? && b.Wild? {
      assert a.suffix == host[|host| - |a.suffix|..] && b.suffix == host[|host| - |b.suffix|..];
    }
  }

  ghost predicate LastSays(rules: seq<Rule>, what: HostRule, origin: string) {
    exists i :: 0 <= i < |rules| && rules[i] == Rule(what, origin) && forall j :: i < j < |rules| ==> rules[j].what != what
  }

  ghost predicate FirstSays(rules: seq<Rule>, what: HostRule, origin: string) {
    exists i :: 0 <= i < |rules| && rules[i] == Rule(what, origin) && forall j :: 0 <= j < i ==> rules[j].what != what
  }

  predicate Mentions(rules: seq<Rule>, what: HostRule) {
    exists i :: 0 <= i < |rules| && rules[i].what == what
  }

  lemma {:induction false} ExactMeaning(rules: seq<Rule>, host: string)
    ensures host in ExactOf(rules) <==> Mentions(rules, Exact(host))
    ensures host in ExactOf(rules) ==> LastSays(rules, Exact(host), ExactOf(rules)[host])
  {
    if rules != [] {
      var init, last := rules[..|rules| - 1], rules[|rules| - 1];
      ExactMeaning(init, host);
      assert forall i :: 0 <= i < |init| ==> init[i] == rules[i];
      if last.what == Exact(host) {
        assert rules[|rules| - 1] == Rule(Exact(host), last.origin);
      } else if host in ExactOf(init) {
        var i :| 0 <= i < |init| && init[i] == Rule(Exact(host), ExactOf(init)[host]) && forall j :: i < j < |init| ==> init[j].what != Exact(host);
        assert rules[i] == init[i];
      }
    }
  }

  /** The wildcards with one suffix, in the order of their rules. */
  function SameSuffix(suffix: string): WildcardHost -> bool {
    (w: WildcardHost) => w.suffix == suffix
  }

  lemma {:induction false} WildcardsMeaning(rules: seq<Rule>, suffix: string)
    ensures var same := Filter(SameSuffix(suffix), WildcardsOf(rules));
      && (same != [] <==> Mentions(rules, Wild(suffix)))
      && (same != [] ==> same[0].suffix == suffix && FirstSays(rules, Wild(suffix), same[0].originId))
  {
    if rules != [] {
      var init, last := rules[..|rules| - 1], rules[|rules| - 1];
      WildcardsMeaning(init, suffix);
      assert forall i :: 0 <= i < |init| ==> init[i] == rules[i];
      var added := if last.what.Wild? then [WildcardHost(last.what.suffix, last.origin)] else [];
      FilterAppend(SameSuffix(suffix), WildcardsOf(init), added);
      var before := Filter(SameSuffix(suffix), WildcardsOf(init));
      if before != [] {
        var i :| 0 <= i < |init| && init[i] == Rule(Wild(suffix), before[0].originId) && forall j :: 0 <= j < i ==> init[j].what != Wild(suffix);
        assert rules[i] == init[i];
      } else if last.what == Wild(suffix) {
        assert rules[|rules| - 1] == Rule(Wild(suffix), last.origin);
        assert Filter(SameSuffix(suffix), added) == added;
      }
    }
  }

  lemma {:induction false} FilterAppend<T>(p: T -> bool, a: seq<T>, b: seq<T>)
    ensures Filter(p, a + b) == Filter(p, a) + Filter(p, b)
  {
    if a == [] {
      assert a + b == b;
    } else {
      FilterAppend(p, a[1..], b);
      var first := if p(a[0]) then [a[0]] else [];
      FilterFirst(p, a[0], a[1..] + b);
      FilterFirst(p, a[0], a[1..]);
      assert a + b == [a[0]] + (a[1..] + b) && a == [a[0]] + a[1..];
      assert first + (Filter(p, a[1..]) + Filter(p, b)) == (first + Filter(p, a[1..])) + Filter(p, b);
    }
  }

  ghost predicate FirstMatchAt(wildcards: seq<WildcardHost>, host: string, i: nat) {
    && i < |wildcards| && SuffixMatches(wildcards[i].suffix, host)
    && forall j :: 0 <= j < i ==> !SuffixMatches(wildcards[j].suffix, host)
  }

  lemma {:induction false} FirstWildcardMeaning(wildcards: seq<WildcardHost>, host: string) returns (i: nat)
    ensures var found := FirstWildcard(wildcards, host);
      && (found.None? ==> forall j :: 0 <= j < |wildcards| ==> !SuffixMatches(wildcards[j].suffix, host))
      && (found.Some? ==> FirstMatchAt(wildcards, host, i) && wildcards[i] == found.value)
  {
    i := 0;
    if wildcards != [] && !SuffixMatches(wildcards[0].suffix, host) {
      i := FirstWildcardMeaning(wildcards[1..], host);
      assert forall j :: 1 <= j < |wildcards| ==> wildcards[j] == wildcards[1..][j - 1];
      i := i + 1;
    }
  }

  lemma {:induction false} FirstOfClass(suffix: string, wildcards: seq<WildcardHost>, i: nat)
    requires i < |wildcards| && wildcards[i].suffix == suffix && forall j :: 0 <= j < i ==> wildcards[j].suffix != suffix
    ensures Filter(SameSuffix(suffix), wildcards) != [] && Filter(SameSuffix(suffix), wildcards)[0] == wildcards[i]
  {
    if i > 0 {
      FirstOfClass(suffix, wildcards[1..], i - 1);
    }
  }

  lemma LongerIsWeak()
    ensures StrictWeak(LongerBefore)
  {
  }

  lemma WildcardOfRule(rules: seq<Rule>, w: WildcardHost)
    ensures w in WildcardsOf(rules) ==> Mentions(rules, Wild(w.suffix))
    ensures Mentions(rules, Wild(w.suffix)) ==> exists v :: v in WildcardsOf(rules) && v.suffix == w.suffix
  {
    WildcardsMeaning(rules, w.suffix);
    FilterMeaning(SameSuffix(w.suffix), WildcardsOf(rules));
    var same := Filter(SameSuffix(w.suffix), WildcardsOf(rules));
    if w in WildcardsOf(rules) {
      assert w in same;
    }
    if same != [] {
      assert same[0] in same;
    }
  }

  lemma WildcardFound(rules: seq<Rule>, host: string)
    ensures var found := FirstWildcard(StableSort(WildcardsOf(rules), LongerBefore), host);
      && (found.None? ==> forall s :: Mentions(rules, Wild(s)) ==> !SuffixMatches(s, host))
      && (found.Some? ==>
            && SuffixMatches(found.value.suffix, host) && FirstSays(rules, Wild(found.value.suffix), found.value.originId)
            && forall s :: Mentions(rules, Wild(s)) && SuffixMatches(s, host) ==> |s| <= |found.value.suffix|)
  {
    var listed := WildcardsOf(rules);
    var sorted := StableSort(listed, LongerBefore);
    SortKeepsElements(listed, LongerBefore);
    LongerIsWeak();
    SortSorts(listed, LongerBefore);
    var i := FirstWildcardMeaning(sorted, host);
    var found := FirstWildcard(sorted, host);
    forall s | Mentions(rules, Wild(s)) && SuffixMatches(s, host) ensures found.Some? && |s| <= |found.value.suffix| {
      WildcardOfRule(rules, WildcardHost(s, ""));
      var v :| v in listed && v.suffix == s;
      assert v in multiset(listed);
      assert v in sorted;
      var k :| 0 <= k < |sorted| && sorted[k] == v;
      assert found.Some?;
      assert i <= k;
      if i < k { assert !LongerBefore(sorted[k], sorted[i]); }
    }
    if found.Some? {
      FirstOfSorted(rules, host, i);
    }
  }

  lemma FirstOfSorted(rules: seq<Rule>, host: string, i: nat)
    requires FirstMatchAt(StableSort(WildcardsOf(rules), LongerBefore), host, i)
    ensures var w := StableSort(WildcardsOf(rules), LongerBefore)[i]; FirstSays(rules, Wild(w.suffix), w.originId)
  {
    var listed := WildcardsOf(rules);
    var sorted := StableSort(listed, LongerBefore);
    var w := sorted[i];
    FirstOfClass(w.suffix, sorted, i);
    SortIsStable(SameSuffix(w.suffix), listed, LongerBefore);
    WildcardsMeaning(rules, w.suffix);
  }

  /** Resolution refines "exact, else longest matching suffix, else `*`": it finds a host exactly when
      some rule matches, and then the strongest one; among entries with that same rule the last exact
      one and the first wildcard decide the origin. */
  lemma ResolveIsBest(rules: seq<Rule>, host: string)
    ensures var r := ResolveHost(ResolverOf(rules), host);
      && (r.Some? <==> exists i :: 0 <= i < |rules| && RuleMatches(rules[i].what, host))
      && (r.Some? ==>
            && r.value.normalizedHost == host && IsBest(rules, host, r.value.matched)
            && (r.value.matched.Exact? ==> LastSays(rules, r.value.matched, r.value.originId))
            && (r.value.matched.Wild? ==> FirstSays(rules, r.value.matched, r.value.originId))
            && Rule(r.value.matched, r.value.originId) in rules)
  {
    ExactMeaning(rules, host);
    WildcardFound(rules, host);
    FallbackPresent(rules);
    var r := ResolveHost(ResolverOf(rules), host);
    forall i | 0 <= i < |rules| && RuleMatches(rules[i].what, host) ensures r.Some? && !Weaker(r.value.matched, rules[i].what) {
      assert Mentions(rules, rules[i].what);
    }
    if r.Some? {
      assert exists i :: 0 <= i < |rules| && rules[i] == Rule(r.value.matched, r.value.originId);
    }
  }

  // ----- does the order of the entries matter?

  /** Entries that say the same name the same origin. */
  ghost predicate Consistent(rules: seq<Rule>) {
    forall i, j :: 0 <= i < |rules| && 0 <= j < |rules| && rules[i].what == rules[j].what ==> rules[i].origin == rules[j].origin
  }

  function OriginFor(rules: seq<Rule>, host: string): Option<string> {
    match ResolveHost(ResolverOf(rules), host)
    case None => None
    case Some(resolved) => Some(resolved.originId)
  }

  lemma ReorderedHas(rules: seq<Rule>, other: seq<Rule>, rule: Rule)
    requires multiset(rules) == multiset(other)
    ensures rule in rules <==> rule in other
  {
    assert rule in multiset(rules) <==> rule in multiset(other);
  }

  lemma BestWhenReordered(rules: seq<Rule>, other: seq<Rule>, host: string, what: HostRule)
    requires multiset(rules) == multiset(other) && IsBest(rules, host, what)
    ensures IsBest(other, host, what)
  {
    var i :| 0 <= i < |rules| && rules[i].what == what;
    ReorderedHas(rules, other, rules[i]);
    var k :| 0 <= k < |other| && other[k] == rules[i];
    forall j | 0 <= j < |other| && RuleMatches(other[j].what, host) ensures !Weaker(what, other[j].what) {
      ReorderedHas(rules, other, other[j]);
      var m :| 0 <= m < |rules| && rules[m] == other[j];
    }
  }

  lemma ConsistentOrderFree(rules: seq<Rule>, other: seq<Rule>, host: string)
    requires multiset(rules) == multiset(other) && Consistent(rules)
    ensures OriginFor(other, host) == OriginFor(rules, host)
  {
    ResolveIsBest(rules, host);
    ResolveIsBest(other, host);
    var a, b := ResolveHost(ResolverOf(rules), host), ResolveHost(ResolverOf(other), host);
    if a.Some? {
      BestWhenReordered(rules, other, host, a.value.matched);
      BestIsUnique(other, host, a.value.matched, b.value.matched);
      ReorderedHas(rules, other, Rule(b.value.matched, b.value.originId));
    } else if b.Some? {
      BestWhenReordered(other, rules, host, b.value.matched);
      assert false;
    }
  }

  function Swapped(rules: seq<Rule>, i: nat, j: nat): seq<Rule>
    requires i < |rules| && j < |rules|
  {
    rules[i := rules[j]][j := rules[i]]
  }

  lemma SwappedIsReordering(rules: seq<Rule>, i: nat, j: nat)
    requires i < |rules| && j < |rules|
    ensures multiset(Swapped(rules, i, j)) == multiset(rules)
  {
  }

  lemma LastIsOnly(rules: seq<Rule>, what: HostRule, origin: string, k: nat)
    requires LastSays(rules, what, origin) && k < |rules| && rules[k].what == what && forall j :: k < j < |rules| ==> rules[j].what != what
    ensures origin == rules[k].origin
  {
  }

  lemma FirstIsOnly(rules: seq<Rule>, what: HostRule, origin: string, k: nat)
    requires FirstSays(rules, what, origin) && k < |rules| && rules[k].what == what && forall j :: 0 <= j < k ==> rules[j].what != what
    ensures origin == rules[k].origin
  {
  }

  lemma {:induction false} LastIndex(rules: seq<Rule>, what: HostRule) returns (k: nat)
    requires Mentions(rules, what)
    ensures k < |rules| && rules[k].what == what && forall j :: k < j < |rules| ==> rules[j].what != what
  {
    if rules[|rules| - 1].what == what {
      k := |rules| - 1;
    } else {
      var init := rules[..|rules| - 1];
      assert forall i :: 0 <= i < |init| ==> init[i] == rules[i];
      var i :| 0 <= i < |rules| && rules[i].what == what;
      assert init[i].what == what;
      k := LastIndex(init, what);
    }
  }

  lemma {:induction false} FirstIndex(rules: seq<Rule>, what: HostRule) returns (k: nat)
    requires Mentions(rules, what)
    ensures k < |rules| && rules[k].what == what && forall j :: 0 <= j < k ==> rules[j].what != what
  {
    if rules[0].what == what {
      k := 0;
    } else {
      var i :| 0 <= i < |rules| && rules[i].what == what;
      assert rules[1..][i - 1].what == what;
      k := FirstIndex(rules[1..], what);
      assert forall j :: 1 <= j < k + 1 ==> rules[j] == rules[1..][j - 1];
      k := k + 1;
    }
  }

  lemma ExactOrigin(rules: seq<Rule>, host: string, k: nat)
    requires k < |rules| && rules[k].what == Exact(host) && forall j :: k < j < |rules| ==> rules[j].what != Exact(host)
    ensures OriginFor(rules, host) == Some(rules[k].origin)
  {
    ExactMeaning(rules, host);
    LastIsOnly(rules, Exact(host), ExactOf(rules)[host], k);
  }

  lemma WildOrigin(rules: seq<Rule>, host: string, suffix: string, k: nat)
    requires IsBest(rules, host, Wild(suffix))
    requires k < |rules| && rules[k].what == Wild(suffix) && forall j :: 0 <= j < k ==> rules[j].what != Wild(suffix)
    ensures OriginFor(rules, host) == Some(rules[k].origin)
  {
    ResolveIsBest(rules, host);
    var r := ResolveHost(ResolverOf(rules), host);
    BestIsUnique(rules, host, r.value.matched, Wild(suffix));
    FirstIsOnly(rules, Wild(suffix), r.value.originId, k);
  }

  /** Of two entries that say the same and name different origins, some order makes the other one win. */
  lemma ConflictShows(rules: seq<Rule>, host: string, i: nat, k: nat)
    requires i < |rules| && k < |rules| && rules[i].what == rules[k].what && rules[i].origin != rules[k].origin
    requires rules[k].what.Exact? && rules[k].what.host == host && forall j :: k < j < |rules| ==> rules[j].what != rules[k].what
    ensures OriginFor(Swapped(rules, i, k), host) != OriginFor(rules, host)
  {
    var other := Swapped(rules, i, k);
    assert i < k;
    ExactOrigin(rules, host, k);
    ExactOrigin(other, host, k);
  }

  lemma ConflictShowsWild(rules: seq<Rule>, host: string, suffix: string, i: nat, k: nat)
    requires i < |rules| && k < |rules| && rules[i].what == rules[k].what == Wild(suffix) && rules[i].origin != rules[k].origin
    requires IsBest(rules, host, Wild(suffix)) && forall j :: 0 <= j < k ==> rules[j].what != Wild(suffix)
    ensures OriginFor(Swapped(rules, i, k), host) != OriginFor(rules, host)
  {
    var other := Swapped(rules, i, k);
    SwappedIsReordering(rules, i, k);
    BestWhenReordered(rules, other, host, Wild(suffix));
    WildOrigin(rules, host, suffix, k);
    WildOrigin(other, host, suffix, k);
  }

  // ----- a host that only a given wildcard decides

  ghost predicate Shaped(what: HostRule) {
    match what
    case Wild(s) => s != "" && s[0] == '.' && NormalizeHost(s[1..]) == Some(s[1..])
    case Exact(h) => NormalizeHost(h) == Some(h)
    case _ => true
  }

  lemma RulesAreShaped(host: string)
    ensures Shaped(RuleOf(host))
  {
    var normalized := ToAsciiLower(Trim(host));
    if RuleOf(host).Wild? {
      assert ("." + normalized[2..])[1..] == normalized[2..];
    } else if RuleOf(host).Exact? {
      NormalizeHostIdempotent(normalized);
    }
  }

  function Xs(n: nat): (s: string)
    ensures |s| == n && forall c :: c in s ==> c == 'x'
  {
    if n == 0 then "" else "x" + Xs(n - 1)
  }

  function LongestExact(rules: seq<Rule>): nat {
    if rules == [] then 0
    else
      var last, rest := rules[|rules| - 1].what, LongestExact(rules[..|rules| - 1]);
      if last.Exact? && |last.host| > rest then |last.host| else rest
  }

  lemma {:induction false} LongestExactBounds(rules: seq<Rule>)
    ensures forall i :: 0 <= i < |rules| && rules[i].what.Exact? ==> |rules[i].what.host| <= LongestExact(rules)
  {
    if rules != [] {
      LongestExactBounds(rules[..|rules| - 1]);
      assert forall i :: 0 <= i < |rules| - 1 ==> rules[i] == rules[..|rules| - 1][i];
    }
  }

  lemma SubdomainIsHost(label0: string, domain: string)
    requires label0 != "" && (forall c :: c in label0 ==> c == 'x') && NormalizeHost(domain) == Some(domain)
    ensures NormalizeHost(label0 + "." + domain) == Some(label0 + "." + domain)
  {
    var host := label0 + "." + domain;
    NormalizeHostIdempotent(domain);
    SplitPrefixed(label0, domain, '.');
    assert Split(host, '.') == [label0] + Split(domain, '.');
    assert host[|host| - 1] == domain[|domain| - 1];
    assert IsValidHost(host) by {
      forall part | part in Split(host, '.') ensures IsValidHostLabel(part) {
        assert label0[0] in label0 && label0[|label0| - 1] in label0;
        assert part == label0 || part in Split(domain, '.');
      }
    }
    SubdomainIsLower(label0, domain);
    ValidHostIsFixed(host, host);
  }

  lemma SubdomainIsLower(label0: string, domain: string)
    requires (forall c :: c in label0 ==> c == 'x') && NormalizeHost(domain) == Some(domain)
    ensures ToAsciiLower(label0 + "." + domain) == label0 + "." + domain
  {
    var host := label0 + "." + domain;
    LowerDomain(domain);
    forall i | 0 <= i < |host| ensures LowerChar(host[i]) == host[i] {
      if i < |label0| {
        assert host[i] == label0[i] && label0[i] in label0;
      } else if i == |label0| {
        assert host[i] == '.';
      } else {
        assert host[i] == domain[i - |label0| - 1];
      }
    }
    assert forall i :: 0 <= i < |host| ==> ToAsciiLower(host)[i] == host[i];
  }

  lemma LowerDomain(domain: string)
    requires NormalizeHost(domain) == Some(domain)
    ensures forall i :: 0 <= i < |domain| ==> LowerChar(domain[i]) == domain[i]
  {
    var value := Trim(domain);
    var raw := match RsplitOnce(value, ':') case Some((h, _)) => Trim(h) case None => Trim(value);
    assert domain == ToAsciiLower(raw);
    forall i | 0 <= i < |domain| ensures LowerChar(domain[i]) == domain[i] {
      assert domain[i] == LowerChar(raw[i]);
    }
  }

  lemma NoLongerSuffix(xs: string, suffix: string, other: string)
    requires (forall c :: c in xs ==> c == 'x') && other != "" && other[0] == '.' && SuffixMatches(other, xs + suffix)
    ensures |other| <= |suffix|
  {
    var host := xs + suffix;
    assert other[0] == host[|host| - |other|];
    assert forall i :: 0 <= i < |xs| ==> host[i] == xs[i] && xs[i] in xs;
  }

  lemma WildWitness(rules: seq<Rule>, suffix: string) returns (host: string)
    requires (forall i :: 0 <= i < |rules| ==> Shaped(rules[i].what)) && Mentions(rules, Wild(suffix))
    ensures NormalizeHost(host) == Some(host) && IsBest(rules, host, Wild(suffix))
  {
    var w :| 0 <= w < |rules| && rules[w].what == Wild(suffix);
    assert Shaped(rules[w].what);
    var xs := Xs(LongestExact(rules) + 1);
    host := xs + "." + suffix[1..];
    assert host == xs + suffix;
    SubdomainIsHost(xs, suffix[1..]);
    LongestExactBounds(rules);
    assert host[|host| - |suffix|..] == suffix;
    forall j | 0 <= j < |rules| && RuleMatches(rules[j].what, host) ensures !Weaker(Wild(suffix), rules[j].what) {
      assert Shaped(rules[j].what);
      if rules[j].what.Wild? {
        NoLongerSuffix(xs, suffix, rules[j].what.suffix);
      }
    }
  }

  /** The order of the entries matters for no host exactly when entries that say the same name the
      same origin. Spelling variants such as `A.com` and `a.com:80` are how two can say the same. */
  lemma OrderMattersExactly(entries: seq<HostEntry>)
    requires Acceptable(RulesOf(entries))
    ensures Consistent(RulesOf(entries)) <==>
      forall other, host :: multiset(other) == multiset(RulesOf(entries)) && NormalizeHost(host) == Some(host) ==>
        OriginFor(other, host) == OriginFor(RulesOf(entries), host)
  {
    var rules := RulesOf(entries);
    forall i | 0 <= i < |rules| ensures Shaped(rules[i].what) { RulesAreShaped(entries[i].host); }
    if Consistent(rules) {
      forall other, host | multiset(other) == multiset(rules) ensures OriginFor(other, host) == OriginFor(rules, host) {
        ConsistentOrderFree(rules, other, host);
      }
    } else {
      var i, j :| 0 <= i < |rules| && 0 <= j < |rules| && rules[i].what == rules[j].what && rules[i].origin != rules[j].origin;
      var other, host := OrderThatShows(rules, i, j);
    }
  }

  lemma OrderThatShows(rules: seq<Rule>, i: nat, j: nat) returns (other: seq<Rule>, host: string)
    requires Acceptable(rules) && forall i :: 0 <= i < |rules| ==> Shaped(rules[i].what)
    requires i < |rules| && j < |rules| && rules[i].what == rules[j].what && rules[i].origin != rules[j].origin
    ensures multiset(other) == multiset(rules) && NormalizeHost(host) == Some(host) && OriginFor(other, host) != OriginFor(rules, host)
  {
    var what := rules[i].what;
    assert Mentions(rules, what);
    assert what.Exact? || what.Wild?;
    if what.Exact? {
      var k := LastIndex(rules, what);
      var different := if rules[i].origin != rules[k].origin then i else j;
      host := what.host;
      other := Swapped(rules, different, k);
      SwappedIsReordering(rules, different, k);
      assert Shaped(rules[k].what);
      ConflictShows(rules, host, different, k);
    } else {
      var k := FirstIndex(rules, what);
      var different := if rules[i].origin != rules[k].origin then i else j;
      host := WildWitness(rules, what.suffix);
      other := Swapped(rules, different, k);
      SwappedIsReordering(rules, different, k);
      ConflictShowsWild(rules, host, what.suffix, different, k);
    }
  }
}
