/** Redirects and rewrites: pattern matching, ranking and the splat. */
module StaticRules {
  import opened Common
  import opened Text
  import opened Edge

  datatype MatchKind = Wildcard | Exact

  datatype PatternMatch = PatternMatch(kind: MatchKind, specificity: nat, splat: Option<string>)

  function MatchPattern(pattern: string, path: string): Option<PatternMatch> {
    if pattern == path then Some(PatternMatch(Exact, |pattern|, None))
    else
      match StripSuffix(pattern, "*")
      case None => None
      case Some(prefix) =>
        match StripPrefix(path, prefix)
        case None => None
        case Some(splat) => Some(PatternMatch(Wildcard, |prefix|, Some(splat)))
  }

  predicate Outranks(a: PatternMatch, b: PatternMatch) {
    (a.kind.Exact? && b.kind.Wildcard?) || (a.kind == b.kind && a.specificity > b.specificity)
  }

  predicate MatchesPath(pattern: string, path: string) {
    MatchPattern(pattern, path).Some?
  }

  /** `filter_map` and `max_by_key`: of the matching rules one of highest rank, the last of several. */
  function Winner<R>(rules: seq<R>, from: R -> string, path: string): (winner: Option<R>)
    ensures winner.Some? ==> MatchesPath(from(winner.value), path)
  {
    if rules == [] then None
    else
      var last, best := rules[|rules| - 1], Winner(rules[..|rules| - 1], from, path);
      if !MatchesPath(from(last), path) then best
      else if best.Some? && Outranks(MatchPattern(from(best.value), path).value, MatchPattern(from(last), path).value) then best
      else Some(last)
  }

  datatype RedirectDecision = RedirectDecision(status: nat, location: string)

  const SPLAT := ":splat"

  /** `str::replace`: every occurrence from the left, none overlapping another. */
  function Replaced(s: string, pattern: string, value: string): string
    requires pattern != ""
    decreases |s|
  {
    if s == "" then ""
    else if pattern <= s then value + Replaced(s[|pattern|..], pattern, value)
    else [s[0]] + Replaced(s[1..], pattern, value)
  }

  function ApplySplat(target: string, splat: Option<string>): string {
    Replaced(target, SPLAT, if splat.Some? then splat.value else "")
  }

  function WithQuery(location: string, query: Option<string>): string {
    if '?' !in location && query.Some? && query.value != "" then location + "?" + query.value else location
  }

  function FindRedirect(config: EdgeConfig, path: string, query: Option<string>): Option<RedirectDecision> {
    match Winner(config.redirects, (r: RedirectRule) => r.from, path)
    case None => None
    case Some(rule) =>
      var matched := MatchPattern(rule.from, path).value;
      Some(RedirectDecision(rule.status, WithQuery(ApplySplat(rule.to, matched.splat), query)))
  }

  function ResolveRewrite(config: EdgeConfig, path: string): string {
    match Winner(config.rewrites, (r: RewriteRule) => r.from, path)
    case None => path
    case Some(rule) => ApplySplat(rule.to, MatchPattern(rule.from, path).value.splat)
  }

  function ResolveRootObject(config: EdgeConfig, path: string): string {
    if EndsWith(path, "/") then TrimEndOf(path, '/') + config.edge.rootObject else path
  }

  function AutoIndexCandidate(path: string): string {
    TrimEndOf(path, '/') + "/index.html"
  }

  // ----- what ranking means

  ghost predicate Rebuilds(pattern: string, path: string, m: PatternMatch, prefix: string) {
    m.splat.Some? && pattern == prefix + "*" && path == prefix + m.splat.value && m.specificity == |prefix|
  }

  /** A wildcard match splits the path: the prefix of the pattern and the splat rebuild it. */
  lemma SplatRebuildsPath(pattern: string, path: string)
    requires MatchesPath(pattern, path)
    ensures var m := MatchPattern(pattern, path).value;
      && (m.kind.Exact? <==> pattern == path)
      && (m.kind.Exact? ==> m.splat.None? && m.specificity == |path|)
      && (m.kind.Wildcard? ==> exists prefix :: Rebuilds(pattern, path, m, prefix))
  {
    if pattern != path {
      var prefix := StripSuffix(pattern, "*").value;
      SuffixStripped(pattern, "*");
      PrefixStripped(path, prefix);
      assert Rebuilds(pattern, path, MatchPattern(pattern, path).value, prefix);
    }
  }

  lemma SuffixStripped(s: string, suffix: string)
    requires StripSuffix(s, suffix).Some?
    ensures s == StripSuffix(s, suffix).value + suffix
  {
  }

  lemma PrefixStripped(s: string, prefix: string)
    requires StripPrefix(s, prefix).Some?
    ensures s == prefix + StripPrefix(s, prefix).value
  {
  }

  /** Matches of one rank have the same pattern. */
  lemma SameRankSamePattern(a: string, b: string, path: string)
    requires MatchesPath(a, path) && MatchesPath(b, path)
    requires !Outranks(MatchPattern(a, path).value, MatchPattern(b, path).value)
    requires !Outranks(MatchPattern(b, path).value, MatchPattern(a, path).value)
    ensures a == b
  {
    SplatRebuildsPath(a, path);
    SplatRebuildsPath(b, path);
    var m, n := MatchPattern(a, path).value, MatchPattern(b, path).value;
    if m.kind.Wildcard? {
      var p :| Rebuilds(a, path, m, p);
      var q :| Rebuilds(b, path, n, q);
      assert p == path[..|p|] && q == path[..|q|];
    }
  }

  /** No rule that matches is stronger, and no later one has the same pattern. */
  ghost predicate IsWinner<R>(rules: seq<R>, from: R -> string, path: string, i: nat) {
    && i < |rules| && MatchesPath(from(rules[i]), path)
    && (forall j :: 0 <= j < |rules| && MatchesPath(from(rules[j]), path) ==>
          !Outranks(MatchPattern(from(rules[j]), path).value, MatchPattern(from(rules[i]), path).value))
    && (forall j :: i < j < |rules| ==> from(rules[j]) != from(rules[i]))
  }

  lemma OutranksTransitive(a: PatternMatch, b: PatternMatch, c: PatternMatch)
    ensures !Outranks(a, b) && !Outranks(b, c) ==> !Outranks(a, c)
  {
  }

  /** A new last rule takes over from a winner that does not outrank it. */
  lemma LastTakesOver<R>(rules: seq<R>, from: R -> string, path: string, i: nat)
    requires rules != [] && MatchesPath(from(rules[|rules| - 1]), path)
    requires IsWinner(rules[..|rules| - 1], from, path, i)
    requires !Outranks(MatchPattern(from(rules[i]), path).value, MatchPattern(from(rules[|rules| - 1]), path).value)
    ensures IsWinner(rules, from, path, |rules| - 1)
  {
    var n := |rules| - 1;
    var init := rules[..n];
    forall j | 0 <= j < |rules| && MatchesPath(from(rules[j]), path)
      ensures !Outranks(MatchPattern(from(rules[j]), path).value, MatchPattern(from(rules[n]), path).value)
    {
      if j < n {
        assert init[j] == rules[j];
        OutranksTransitive(MatchPattern(from(rules[j]), path).value, MatchPattern(from(rules[i]), path).value,
                           MatchPattern(from(rules[n]), path).value);
      }
    }
  }

  /** A new last rule that does not match or is outranked changes nothing. */
  lemma WinnerStays<R>(rules: seq<R>, from: R -> string, path: string, i: nat)
    requires rules != [] && IsWinner(rules[..|rules| - 1], from, path, i)
    requires MatchesPath(from(rules[|rules| - 1]), path) ==>
      Outranks(MatchPattern(from(rules[i]), path).value, MatchPattern(from(rules[|rules| - 1]), path).value)
    ensures IsWinner(rules, from, path, i)
  {
    var init := rules[..|rules| - 1];
    assert forall j :: 0 <= j < |init| ==> init[j] == rules[j];
  }

  lemma {:induction false} WinnerIsLastStrongest<R>(rules: seq<R>, from: R -> string, path: string) returns (i: nat)
    ensures Winner(rules, from, path).None? <==> forall j :: 0 <= j < |rules| ==> !MatchesPath(from(rules[j]), path)
    ensures Winner(rules, from, path).Some? ==> IsWinner(rules, from, path, i) && rules[i] == Winner(rules, from, path).value
  {
    i := 0;
    if rules != [] {
      var n := |rules| - 1;
      var init, last := rules[..n], rules[n];
      i := WinnerIsLastStrongest(init, from, path);
      assert forall j :: 0 <= j < n ==> init[j] == rules[j];
      if Winner(init, from, path).None? {
        i := n;
      } else if MatchesPath(from(last), path) && !Outranks(MatchPattern(from(init[i]), path).value, MatchPattern(from(last), path).value) {
        LastTakesOver(rules, from, path, i);
        i := n;
      } else {
        WinnerStays(rules, from, path, i);
      }
    }
  }

  /** The winner is the exact rule if there is one, else the longest matching pattern; among rules with
      that very pattern, which are the only ties, it is the last. */
  lemma WinnerMeaning<R>(rules: seq<R>, from: R -> string, path: string) returns (i: nat)
    ensures Winner(rules, from, path).Some? ==>
      && i < |rules| && Winner(rules, from, path).value == rules[i]
      && ((exists j :: 0 <= j < |rules| && from(rules[j]) == path) ==> from(rules[i]) == path)
      && (from(rules[i]) != path ==> forall j :: 0 <= j < |rules| && MatchesPath(from(rules[j]), path) ==> |from(rules[j])| <= |from(rules[i])|)
      && (forall j :: i < j < |rules| ==> from(rules[j]) != from(rules[i]))
  {
    i := WinnerIsLastStrongest(rules, from, path);
    if Winner(rules, from, path).Some? {
      SplatRebuildsPath(from(rules[i]), path);
      forall j | 0 <= j < |rules| && MatchesPath(from(rules[j]), path)
        ensures from(rules[j]) == path ==> from(rules[i]) == path
        ensures from(rules[i]) != path ==> |from(rules[j])| <= |from(rules[i])|
      {
        SplatRebuildsPath(from(rules[j]), path);
      }
    }
  }

  lemma {:induction false} ReplacedNothing(s: string, pattern: string, value: string)
    requires pattern != "" && pattern[0] !in s
    ensures Replaced(s, pattern, value) == s
  {
    if s != "" {
      assert !(pattern <= s) by { assert s[0] != pattern[0]; }
      ReplacedNothing(s[1..], pattern, value);
      assert s == [s[0]] + s[1..];
    }
  }

  lemma ReplacedStep(s: string, pattern: string, value: string)
    requires s != "" && pattern != "" && s[0] != pattern[0]
    ensures Replaced(s, pattern, value) == [s[0]] + Replaced(s[1..], pattern, value)
  {
    assert !(pattern <= s);
  }

  /** The first occurrence is replaced, and so is every later one. */
  lemma {:induction false} ReplacedFirst(before: string, rest: string, pattern: string, value: string)
    requires pattern != "" && pattern[0] !in before
    ensures Replaced(before + pattern + rest, pattern, value) == before + value + Replaced(rest, pattern, value)
  {
    if before == "" {
      ReplacedAtStart(rest, pattern, value);
      assert before + pattern + rest == pattern + rest;
    } else {
      ReplacedFirst(before[1..], rest, pattern, value);
      assert before[0] in before;
      ReplacedLater(before, rest, pattern, value, Replaced(rest, pattern, value));
    }
  }

  lemma ReplacedLater(before: string, rest: string, pattern: string, value: string, behind: string)
    requires before != "" && pattern != "" && before[0] != pattern[0]
    requires Replaced(before[1..] + pattern + rest, pattern, value) == before[1..] + value + behind
    ensures Replaced(before + pattern + rest, pattern, value) == before + value + behind
  {
    FirstApart(before, pattern, rest);
    FirstApart(before, value, behind);
    ReplacedStep(before + pattern + rest, pattern, value);
  }

  lemma FirstApart(before: string, middle: string, rest: string)
    requires before != ""
    ensures (before + middle + rest)[0] == before[0] && (before + middle + rest)[1..] == before[1..] + middle + rest
    ensures before + middle + rest == [before[0]] + (before[1..] + middle + rest)
  {
  }

  lemma ReplacedAtStart(rest: string, pattern: string, value: string)
    requires pattern != ""
    ensures Replaced(pattern + rest, pattern, value) == value + Replaced(rest, pattern, value)
  {
    assert pattern <= pattern + rest && (pattern + rest)[|pattern|..] == rest;
  }

  lemma ReplacedOnce(before: string, after: string, pattern: string, value: string)
    requires pattern != "" && pattern[0] !in before && pattern[0] !in after
    ensures Replaced(before + pattern + after, pattern, value) == before + value + after
  {
    ReplacedFirst(before, after, pattern, value);
    ReplacedNothing(after, pattern, value);
  }

  /** A wildcard redirect or rewrite moves the part of the path below its prefix to the new place. */
  lemma SplatCarriesPathOver(prefix: string, splat: string, before: string, after: string)
    requires ':' !in before && ':' !in after && prefix + "*" != prefix + splat
    ensures var m := MatchPattern(prefix + "*", prefix + splat);
      m.Some? && ApplySplat(before + SPLAT + after, m.value.splat) == before + splat + after
  {
    var pattern, path := prefix + "*", prefix + splat;
    assert pattern[|pattern| - 1..] == "*" && pattern[..|pattern| - 1] == prefix;
    assert path[|prefix|..] == splat;
    assert SPLAT[0] == ':';
    ReplacedOnce(before, after, SPLAT, splat);
  }

  // ----- does the order of the rules matter?

  ghost predicate NoDuplicates<R>(rules: seq<R>, from: R -> string) {
    forall i, j :: 0 <= i < |rules| && 0 <= j < |rules| && from(rules[i]) == from(rules[j]) ==> rules[i] == rules[j]
  }

  lemma Relocated<R>(rules: seq<R>, other: seq<R>, i: nat) returns (k: nat)
    requires multiset(rules) == multiset(other) && i < |rules|
    ensures k < |other| && other[k] == rules[i]
  {
    assert rules[i] in multiset(rules);
    assert rules[i] in other;
    k :| 0 <= k < |other| && other[k] == rules[i];
  }

  lemma MatchRelocated<R>(rules: seq<R>, other: seq<R>, from: R -> string, path: string)
    requires multiset(rules) == multiset(other) && Winner(rules, from, path).Some?
    ensures Winner(other, from, path).Some?
  {
    var i := WinnerIsLastStrongest(rules, from, path);
    var k := Relocated(rules, other, i);
    var j := WinnerIsLastStrongest(other, from, path);
  }

  lemma OrderFree<R>(rules: seq<R>, other: seq<R>, from: R -> string, path: string)
    requires multiset(rules) == multiset(other) && NoDuplicates(rules, from)
    ensures Winner(other, from, path) == Winner(rules, from, path)
  {
    if Winner(rules, from, path).Some? {
      MatchRelocated(rules, other, from, path);
      var i := WinnerIsLastStrongest(rules, from, path);
      var j := WinnerIsLastStrongest(other, from, path);
      var k := Relocated(rules, other, i);
      var m := Relocated(other, rules, j);
      SameRankSamePattern(from(rules[i]), from(other[j]), path);
      assert from(rules[m]) == from(rules[i]);
    } else if Winner(other, from, path).Some? {
      MatchRelocated(other, rules, from, path);
      assert false;
    }
  }

  /** The order matters exactly when two different rules have the same pattern. */
  lemma OrderMattersExactly<R(!new)>(rules: seq<R>, from: R -> string)
    ensures NoDuplicates(rules, from) <==>
      forall other: seq<R>, path :: multiset(other) == multiset(rules) ==> Winner(other, from, path) == Winner(rules, from, path)
  {
    if NoDuplicates(rules, from) {
      forall other: seq<R>, path | multiset(other) == multiset(rules) ensures Winner(other, from, path) == Winner(rules, from, path) {
        OrderFree(rules, other, from, path);
      }
    } else {
      var a, b :| 0 <= a < |rules| && 0 <= b < |rules| && from(rules[a]) == from(rules[b]) && rules[a] != rules[b];
      var other, path := DuplicatesShow(rules, from, a, b);
    }
  }

  lemma ExactWins<R>(rules: seq<R>, from: R -> string, k: nat) returns (i: nat)
    requires k < |rules|
    ensures var path := from(rules[k]);
      Winner(rules, from, path).Some? && i < |rules| && Winner(rules, from, path).value == rules[i] && from(rules[i]) == path
      && forall j :: i < j < |rules| ==> from(rules[j]) != path
  {
    var path := from(rules[k]);
    i := WinnerMeaning(rules, from, path);
    assert MatchesPath(path, path);
    var w := WinnerIsLastStrongest(rules, from, path);
  }

  lemma DuplicatesShow<R(!new)>(rules: seq<R>, from: R -> string, a: nat, b: nat) returns (other: seq<R>, path: string)
    requires a < |rules| && b < |rules| && from(rules[a]) == from(rules[b]) && rules[a] != rules[b]
    ensures multiset(other) == multiset(rules) && Winner(other, from, path) != Winner(rules, from, path)
  {
    path := from(rules[a]);
    var i := ExactWins(rules, from, a);
    var c := if rules[a] != rules[i] then a else b;
    assert c < i;
    other := rules[c := rules[i]][i := rules[c]];
    var k := ExactWins(other, from, i);
    assert forall j :: i < j < |rules| ==> other[j] == rules[j];
    assert k == i;
  }

  // ----- rewrites, redirects and root objects in plain words

  /** The pattern is the path itself, or a prefix of it and a star. */
  lemma MatchesExactly(pattern: string, path: string)
    ensures MatchesPath(pattern, path) <==> pattern == path || exists prefix, splat :: pattern == prefix + "*" && path == prefix + splat
  {
    if MatchesPath(pattern, path) {
      SplatRebuildsPath(pattern, path);
      if pattern != path {
        var prefix := StripSuffix(pattern, "*").value;
        SuffixStripped(pattern, "*");
        PrefixStripped(path, prefix);
        assert pattern == prefix + "*" && path == prefix + StripPrefix(path, prefix).value;
      }
    }
    if prefix, splat :| pattern != path && pattern == prefix + "*" && path == prefix + splat {
      assert pattern[|pattern| - 1..] == "*" && pattern[..|pattern| - 1] == prefix;
    }
  }

  /** What stands in `to` for the part of the path behind the prefix of `from`. */
  ghost predicate IsSplatted(from: string, to: string, path: string, result: string) {
    if from == path then result == Replaced(to, ":splat", "")
    else exists prefix, splat :: from == prefix + "*" && path == prefix + splat && result == Replaced(to, ":splat", splat)
  }

  lemma SplattedBy(from: string, to: string, path: string)
    requires MatchesPath(from, path)
    ensures IsSplatted(from, to, path, ApplySplat(to, MatchPattern(from, path).value.splat))
  {
    SplatRebuildsPath(from, path);
    if from != path {
      var m := MatchPattern(from, path).value;
      var prefix :| Rebuilds(from, path, m, prefix);
      assert from == prefix + "*" && path == prefix + m.splat.value;
    }
  }

  /** No later rule has the pattern of rule `i`; it is the path itself, or no rule is that and none longer matches. */
  ghost predicate Decides<R>(rules: seq<R>, from: R -> string, path: string, i: nat) {
    && i < |rules| && MatchesPath(from(rules[i]), path)
    && (forall j :: i < j < |rules| ==> from(rules[j]) != from(rules[i]))
    && (from(rules[i]) != path ==> forall j :: 0 <= j < |rules| && MatchesPath(from(rules[j]), path) ==>
          from(rules[j]) != path && |from(rules[j])| <= |from(rules[i])|)
  }

  lemma WinnerDecides<R>(rules: seq<R>, from: R -> string, path: string) returns (i: nat)
    ensures Winner(rules, from, path).None? <==> forall j :: 0 <= j < |rules| ==> !MatchesPath(from(rules[j]), path)
    ensures Winner(rules, from, path).Some? ==> Decides(rules, from, path, i) && Winner(rules, from, path).value == rules[i]
  {
    var k := WinnerIsLastStrongest(rules, from, path);
    i := WinnerMeaning(rules, from, path);
  }

  /** A rewrite leaves a path alone that no rule matches, and else puts it where the deciding rule says. */
  lemma RewriteExactly(config: EdgeConfig, path: string) returns (i: nat)
    ensures var from := (r: RewriteRule) => r.from;
      if forall j :: 0 <= j < |config.rewrites| ==> !MatchesPath(config.rewrites[j].from, path) then ResolveRewrite(config, path) == path
      else Decides(config.rewrites, from, path, i) && IsSplatted(config.rewrites[i].from, config.rewrites[i].to, path, ResolveRewrite(config, path))
  {
    i := WinnerDecides(config.rewrites, (r: RewriteRule) => r.from, path);
    if Winner(config.rewrites, (r: RewriteRule) => r.from, path).Some? {
      SplattedBy(config.rewrites[i].from, config.rewrites[i].to, path);
    }
  }

  /** A redirect goes where the deciding rule says, with its status, behind it the query if the target has none. */
  lemma RedirectExactly(config: EdgeConfig, path: string, query: Option<string>) returns (i: nat, location: string)
    ensures var from, r := (r: RedirectRule) => r.from, FindRedirect(config, path, query);
      if forall j :: 0 <= j < |config.redirects| ==> !MatchesPath(config.redirects[j].from, path) then r.None?
      else
        && r.Some? && Decides(config.redirects, from, path, i) && r.value.status == config.redirects[i].status
        && IsSplatted(config.redirects[i].from, config.redirects[i].to, path, location)
        && r.value.location == (if '?' in location || query.None? || query.value == "" then location else location + "?" + query.value)
  {
    i := WinnerDecides(config.redirects, (r: RedirectRule) => r.from, path);
    location := "";
    if Winner(config.redirects, (r: RedirectRule) => r.from, path).Some? {
      SplattedBy(config.redirects[i].from, config.redirects[i].to, path);
      location := ApplySplat(config.redirects[i].to, MatchPattern(config.redirects[i].from, path).value.splat);
    }
  }

  /** A path that ends in slashes gets the root object instead of them; any other path is left alone. */
  lemma RootObjectExactly(config: EdgeConfig, path: string, stem: string)
    requires IsStem(stem, path, '/')
    ensures ResolveRootObject(config, path) == if stem == path then path else stem + config.edge.rootObject
    ensures AutoIndexCandidate(path) == stem + "/index.html"
  {
    TrimEndOfIsStem(path, '/');
    StemIsUnique(stem, TrimEndOf(path, '/'), path, '/');
    assert EndsWith(path, "/") <==> path != "" && path[|path| - 1] == '/' by {
      if path != "" { assert path[|path| - 1..] == [path[|path| - 1]]; }
    }
  }
}
