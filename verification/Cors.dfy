/** Which hosts an origin accepts cross-origin requests from. */
module Cors {
  import opened Common
  import opened Hosts
  import opened HostResolution

  datatype CorsPolicy = CorsPolicy(rulesByOrigin: map<string, seq<HostRule>>)

  function With(rulesByOrigin: map<string, seq<HostRule>>, origin: string, rule: HostRule): map<string, seq<HostRule>> {
    rulesByOrigin[origin := (if origin in rulesByOrigin then rulesByOrigin[origin] else []) + [rule]]
  }

  function RulesByOrigin(rules: seq<Rule>): map<string, seq<HostRule>> {
    if rules == [] then map[]
    else
      var last, before := rules[|rules| - 1], RulesByOrigin(rules[..|rules| - 1]);
      if last.what.Exact? || last.what.Wild? then With(before, last.origin, last.what) else before
  }

  /** The global wildcard and unusable hosts are passed over; nothing is refused. */
  method BuildPolicy(classify: string -> HostRule, entries: seq<HostEntry>) returns (policy: CorsPolicy)
    ensures policy == CorsPolicy(RulesByOrigin(RulesBy(classify, entries)))
  {
    ghost var rules := RulesBy(classify, entries);
    var rulesByOrigin: map<string, seq<HostRule>> := map[];
    for n := 0 to |entries|
      invariant rulesByOrigin == RulesByOrigin(rules[..n])
    {
      assert rules[..n + 1][..n] == rules[..n];
      var rule := classify(entries[n].host);
      if rule.Exact? || rule.Wild? {
        var origin := entries[n].origin;
        rulesByOrigin := rulesByOrigin[origin := (if origin in rulesByOrigin then rulesByOrigin[origin] else []) + [rule]];
      }
    }
    assert rules[..|entries|] == rules;
    return CorsPolicy(rulesByOrigin);
  }

  method FromManifest(entries: seq<HostEntry>) returns (policy: CorsPolicy)
    ensures policy == CorsPolicy(RulesByOrigin(RulesOf(entries)))
  {
    policy := BuildPolicy(RuleOf, entries);
  }

  function AnyMatches(rules: seq<HostRule>, host: string): bool {
    rules != [] && (RuleMatches(rules[0], host) || AnyMatches(rules[1..], host))
  }

  predicate AllowsHost(policy: CorsPolicy, origin: string, host: string) {
    origin in policy.rulesByOrigin && AnyMatches(policy.rulesByOrigin[origin], host)
  }

  /** `parse` yields the host of an https URL that is an origin and nothing more. */
  function AllowedOriginFor(policy: CorsPolicy, parse: string -> Option<string>, origin: string, requestOrigin: string): Option<string> {
    match parse(requestOrigin)
    case None => None
    case Some(raw) =>
      match NormalizeHost(raw)
      case None => None
      case Some(host) => if AllowsHost(policy, origin, host) then Some(requestOrigin) else None
  }

  lemma {:induction false} AnyMatchesMeaning(rules: seq<HostRule>, host: string)
    ensures AnyMatches(rules, host) <==> exists rule :: rule in rules && RuleMatches(rule, host)
  {
    if rules != [] {
      AnyMatchesMeaning(rules[1..], host);
      assert rules == [rules[0]] + rules[1..];
    }
  }

  lemma {:induction false} RulesByOriginMeaning(rules: seq<Rule>, origin: string, what: HostRule)
    ensures var m := RulesByOrigin(rules);
      origin in m && what in m[origin] <==> (what.Exact? || what.Wild?) && Rule(what, origin) in rules
  {
    if rules != [] {
      var init, last := rules[..|rules| - 1], rules[|rules| - 1];
      RulesByOriginMeaning(init, origin, what);
      assert rules == init + [last];
    }
  }

  /** A host is accepted for an origin exactly when some entry of that origin other than `*` covers it. */
  lemma AllowedExactly(rules: seq<Rule>, origin: string, host: string)
    ensures AllowsHost(CorsPolicy(RulesByOrigin(rules)), origin, host) <==>
      exists what: HostRule :: (what.Exact? || what.Wild?) && RuleMatches(what, host) && Rule(what, origin) in rules
  {
    var m := RulesByOrigin(rules);
    forall what: HostRule ensures origin in m && what in m[origin] <==> (what.Exact? || what.Wild?) && Rule(what, origin) in rules {
      RulesByOriginMeaning(rules, origin, what);
    }
    if origin in m {
      AnyMatchesMeaning(m[origin], host);
    }
  }

  /** Any host resolved to an origin by a rule other than `*` is accepted for that origin. */
  lemma ResolvedHostIsAllowed(rules: seq<Rule>, header: string)
    ensures var r := Resolve(ResolverOf(rules), header);
      r.Some? && !r.value.matched.Global? ==> AllowsHost(CorsPolicy(RulesByOrigin(rules)), r.value.originId, r.value.normalizedHost)
  {
    var r := Resolve(ResolverOf(rules), header);
    if r.Some? {
      var host := NormalizeHost(header).value;
      ResolveIsBest(rules, host);
      AllowedExactly(rules, r.value.originId, host);
    }
  }
}
