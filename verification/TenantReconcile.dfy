/** The reconciler that brings one tenant per desired domain to its configured state. */
module TenantReconcile {
  import opened Common
  import opened TenantCloud

  datatype CdnTenantConfig = CdnTenantConfig(
    distributionId: string,
    connectionGroupId: Option<string>,
    parameters: map<string, string>,
    managedCertificate: Option<ManagedCertificateRequest>)

  datatype ReconcileError = WrongDistribution(id: TenantId) | SharedTenant(id: TenantId) | Client(error: ClientError)

  datatype ReconcileResult = ReconcileResult(added: nat, updated: nat, same: nat)

  function MergedTenant(config: CdnTenantConfig, existing: DistributionTenant, domain: string): DistributionTenant {
    existing.(
      distributionId := config.distributionId,
      domains := {domain},
      connectionGroupId := if config.connectionGroupId.Some? then config.connectionGroupId else existing.connectionGroupId,
      parameters := existing.parameters + config.parameters,
      enabled := if existing.enabled.Some? then Some(true) else None)
  }

  predicate CertificateMatches(config: CdnTenantConfig, lookup: Option<ManagedCertificateLookup>) {
    config.managedCertificate.None?
    || (lookup.Some? && lookup.value.Found?
        && (lookup.value.validationTokenHost.None?
            || lookup.value.validationTokenHost == Some(config.managedCertificate.value.validationTokenHost)))
  }

  predicate TenantMatches(config: CdnTenantConfig, existing: DistributionTenant, domain: string, lookup: Option<ManagedCertificateLookup>) {
    existing == MergedTenant(config, existing, domain) && CertificateMatches(config, lookup)
  }

  function Verified(config: CdnTenantConfig, tenant: DistributionTenant, domain: string): Result<(), ReconcileError> {
    if tenant.distributionId != config.distributionId then Err(WrongDistribution(tenant.id))
    else if tenant.domains != {domain} then Err(SharedTenant(tenant.id))
    else Ok(())
  }

  /** Merging is idempotent and keeps what the configuration does not speak of. */
  lemma MergeKeeps(config: CdnTenantConfig, existing: DistributionTenant, domain: string)
    ensures var merged := MergedTenant(config, existing, domain);
      && MergedTenant(config, merged, domain) == merged
      && merged.id == existing.id && merged.name == existing.name && merged.customizations == existing.customizations
      && (forall p :: p in existing.parameters && p !in config.parameters ==> p in merged.parameters && merged.parameters[p] == existing.parameters[p])
      && (forall p :: p in config.parameters ==> p in merged.parameters && merged.parameters[p] == config.parameters[p])
      && (config.connectionGroupId.None? ==> merged.connectionGroupId == existing.connectionGroupId)
  {
    var merged := MergedTenant(config, existing, domain);
    assert merged.parameters + config.parameters == merged.parameters;
  }

  // ----- the configured tenant, field by field

  /** `after` is `before` brought to the configuration for one domain: configured parts as configured,
      the others as they were, and enabled if it says anything of that. */
  ghost predicate Brought(config: CdnTenantConfig, before: DistributionTenant, after: DistributionTenant, domain: string) {
    && after.id == before.id && after.name == before.name && after.customizations == before.customizations
    && after.distributionId == config.distributionId
    && (forall d :: d in after.domains <==> d == domain)
    && (config.connectionGroupId.Some? ==> after.connectionGroupId == config.connectionGroupId)
    && (config.connectionGroupId.None? ==> after.connectionGroupId == before.connectionGroupId)
    && (forall p :: p in config.parameters ==> p in after.parameters && after.parameters[p] == config.parameters[p])
    && (forall p :: p !in config.parameters ==> (p in after.parameters <==> p in before.parameters))
    && (forall p :: p !in config.parameters && p in before.parameters ==> after.parameters[p] == before.parameters[p])
    && (before.enabled.None? ==> after.enabled.None?) && (before.enabled.Some? ==> after.enabled == Some(true))
  }

  /** The merge is that tenant and no other. */
  lemma MergeExactly(config: CdnTenantConfig, before: DistributionTenant, after: DistributionTenant, domain: string)
    ensures after == MergedTenant(config, before, domain) <==> Brought(config, before, after, domain)
  {
    var merged := MergedTenant(config, before, domain);
    if Brought(config, before, after, domain) {
      assert after.parameters == merged.parameters;
      assert after.domains == merged.domains;
      assert after.connectionGroupId == merged.connectionGroupId;
    }
  }

  /** No certificate is configured, or one was found whose token host is unknown or the configured one. */
  ghost predicate CertificateGood(config: CdnTenantConfig, found: ManagedCertificateLookup) {
    config.managedCertificate.Some? ==>
      found.Found? && (found.validationTokenHost.Some? ==> found.validationTokenHost.value == config.managedCertificate.value.validationTokenHost)
  }

  /** The tenant is left alone exactly when it has every configured part, is not disabled, and so is its certificate. */
  lemma MatchesExactly(config: CdnTenantConfig, tenant: DistributionTenant, domain: string, cloud: Cloud, id: TenantId)
    ensures TenantMatches(config, tenant, domain, Observed(config, cloud, id)) <==>
      IsAsConfigured(config, tenant, domain) && CertificateGood(config, CertificateOf(cloud, id))
  {
    MergeExactly(config, tenant, tenant, domain);
    assert tenant.enabled.Some? ==> (tenant.enabled.value || tenant.enabled == Some(false));
  }

  /** Every configured part is there. */
  ghost predicate IsAsConfigured(config: CdnTenantConfig, tenant: DistributionTenant, domain: string) {
    && tenant.distributionId == config.distributionId
    && (forall d :: d in tenant.domains <==> d == domain)
    && (config.connectionGroupId.Some? ==> tenant.connectionGroupId == config.connectionGroupId)
    && (forall p :: p in config.parameters ==> p in tenant.parameters && tenant.parameters[p] == config.parameters[p])
    && tenant.enabled != Some(false)
  }

  function NewRequest(config: CdnTenantConfig, name: (string, string) -> string, domain: string): CreateRequest {
    CreateRequest(config.distributionId, name(config.distributionId, domain), {domain}, config.connectionGroupId,
                  config.parameters, config.managedCertificate)
  }

  // ----- one domain, with nobody else writing

  datatype Outcome = Added | Updated | Same

  /** The request for a certificate that is not as configured. */
  function CertificateRequest(config: CdnTenantConfig, lookup: Option<ManagedCertificateLookup>): Option<ManagedCertificateRequest> {
    if CertificateMatches(config, lookup) then None else config.managedCertificate
  }

  function Observed(config: CdnTenantConfig, cloud: Cloud, id: TenantId): Option<ManagedCertificateLookup> {
    if config.managedCertificate.Some? then Some(CertificateOf(cloud, id)) else None
  }

  function AfterDomain(config: CdnTenantConfig, name: (string, string) -> string, cloud: Cloud, domain: string): Result<(Cloud, Outcome), ReconcileError>
    requires Sound(cloud)
  {
    match Owner(cloud, domain)
    case None => Ok((Created(cloud, NewRequest(config, name, domain)), Added))
    case Some(id) =>
      var existing := cloud.tenants[id].tenant;
      var verified := Verified(config, existing, domain);
      if verified.Err? then Err(verified.error)
      else if TenantMatches(config, existing, domain, Observed(config, cloud, id)) then Ok((cloud, Same))
      else Ok((Put(cloud, id, MergedTenant(config, existing, domain), CertificateRequest(config, Observed(config, cloud, id))), Updated))
  }

  lemma AfterDomainSound(config: CdnTenantConfig, name: (string, string) -> string, cloud: Cloud, domain: string)
    requires Sound(cloud) && AfterDomain(config, name, cloud, domain).Ok?
    ensures Sound(AfterDomain(config, name, cloud, domain).value.0)
  {
    match Owner(cloud, domain) {
      case None =>
        var id := cloud.clock + 1;
        PutSound(cloud, id, NewTenant(id, NewRequest(config, name, domain)), config.managedCertificate);
      case Some(id) =>
        var existing := cloud.tenants[id].tenant;
        OnlyOwner(cloud, id, domain);
        PutSound(cloud, id, MergedTenant(config, existing, domain), CertificateRequest(config, Observed(config, cloud, id)));
    }
  }

  lemma OnlyOwner(cloud: Cloud, id: TenantId, domain: string)
    requires Sound(cloud) && Owns(cloud, id, domain)
    ensures FreeExceptFor(cloud, id, {domain})
  {
  }

  /** The pass, domain by domain; an error ends it. */
  function AfterPass(config: CdnTenantConfig, name: (string, string) -> string, cloud: Cloud, domains: seq<string>)
    : (r: Result<(Cloud, ReconcileResult), ReconcileError>)
    requires Sound(cloud)
    ensures r.Ok? ==> Sound(r.value.0)
  {
    if domains == [] then Ok((cloud, ReconcileResult(0, 0, 0)))
    else
      match AfterPass(config, name, cloud, domains[..|domains| - 1])
      case Err(e) => Err(e)
      case Ok((mid, counts)) =>
        var last := domains[|domains| - 1];
        if AfterDomain(config, name, mid, last).Err? then Err(AfterDomain(config, name, mid, last).error)
        else
          AfterDomainSound(config, name, mid, last);
          var (after, outcome) := AfterDomain(config, name, mid, last).value;
          Ok((after, Counted(counts, outcome)))
  }

  function Counted(counts: ReconcileResult, outcome: Outcome): ReconcileResult {
    match outcome
    case Added => counts.(added := counts.added + 1)
    case Updated => counts.(updated := counts.updated + 1)
    case Same => counts.(same := counts.same + 1)
  }

  /** Every accepted update was the merge of what was current when it was accepted. */
  ghost predicate NothingLost(config: CdnTenantConfig, update: Accepted) {
    exists domain :: update.current.domains == {domain} && update.current.distributionId == config.distributionId
      && Brought(config, update.current, update.stored, domain)
  }

  ghost predicate AllKept(config: CdnTenantConfig, before: seq<Accepted>, after: seq<Accepted>) {
    && |before| <= |after| && after[..|before|] == before
    && forall i :: |before| <= i < |after| ==> NothingLost(config, after[i])
  }

  lemma KeptFurther(config: CdnTenantConfig, a: seq<Accepted>, b: seq<Accepted>, c: seq<Accepted>)
    requires AllKept(config, a, b) && AllKept(config, b, c)
    ensures AllKept(config, a, c)
  {
    forall i | |a| <= i < |c| ensures NothingLost(config, c[i]) {
      if i < |b| { assert c[i] == c[..|b|][i]; }
    }
    assert c[..|a|] == c[..|b|][..|a|];
  }

  /** The domain's tenant is its own, of the right distribution, and as configured. */
  predicate Settled(config: CdnTenantConfig, cloud: Cloud, domain: string)
    requires Sound(cloud)
  {
    match Owner(cloud, domain)
    case None => false
    case Some(id) =>
      Verified(config, cloud.tenants[id].tenant, domain).Ok?
      && TenantMatches(config, cloud.tenants[id].tenant, domain, Observed(config, cloud, id))
  }

  predicate Reconcilable(config: CdnTenantConfig, cloud: Cloud, domain: string)
    requires Sound(cloud)
  {
    match Owner(cloud, domain)
    case None => true
    case Some(id) => cloud.tenants[id].tenant.distributionId == config.distributionId && cloud.tenants[id].tenant.domains == {domain}
  }

  lemma DomainSettles(config: CdnTenantConfig, name: (string, string) -> string, cloud: Cloud, domain: string)
    requires Sound(cloud)
    ensures AfterDomain(config, name, cloud, domain).Ok? <==> Reconcilable(config, cloud, domain)
    ensures AfterDomain(config, name, cloud, domain).Err? ==>
      var id := Owner(cloud, domain).value;
      AfterDomain(config, name, cloud, domain).error
        == if cloud.tenants[id].tenant.distributionId != config.distributionId then WrongDistribution(id) else SharedTenant(id)
    ensures AfterDomain(config, name, cloud, domain).Ok? ==>
      var after := AfterDomain(config, name, cloud, domain).value.0; Sound(after) && Settled(config, after, domain)
    ensures Settled(config, cloud, domain) ==> AfterDomain(config, name, cloud, domain) == Ok((cloud, Same))
  {
    if AfterDomain(config, name, cloud, domain).Ok? {
      AfterDomainSound(config, name, cloud, domain);
      var after := AfterDomain(config, name, cloud, domain).value.0;
      match Owner(cloud, domain) {
        case None =>
          OwnerIs(after, cloud.clock + 1, domain);
          assert config.parameters + config.parameters == config.parameters;
        case Some(id) =>
          MergeKeeps(config, cloud.tenants[id].tenant, domain);
          OwnerIs(after, id, domain);
      }
    }
  }

  /** Reconciling one domain touches the tenant of no other. */
  lemma OthersUntouched(config: CdnTenantConfig, name: (string, string) -> string, cloud: Cloud, domain: string, id: TenantId)
    requires Sound(cloud) && AfterDomain(config, name, cloud, domain).Ok?
    requires id in cloud.tenants && domain !in cloud.tenants[id].tenant.domains
    ensures var after := AfterDomain(config, name, cloud, domain).value.0;
      id in after.tenants && after.tenants[id] == cloud.tenants[id] && CertificateOf(after, id) == CertificateOf(cloud, id)
  {
  }

  lemma OtherDomainsStay(config: CdnTenantConfig, name: (string, string) -> string, cloud: Cloud, domain: string, other: string)
    requires Sound(cloud) && AfterDomain(config, name, cloud, domain).Ok? && other != domain
    ensures var after := AfterDomain(config, name, cloud, domain).value.0;
      && Sound(after)
      && (Settled(config, cloud, other) ==> Settled(config, after, other))
      && (Reconcilable(config, cloud, other) <==> Reconcilable(config, after, other))
  {
    AfterDomainSound(config, name, cloud, domain);
    var after := AfterDomain(config, name, cloud, domain).value.0;
    match Owner(cloud, other) {
      case Some(id) =>
        if domain in cloud.tenants[id].tenant.domains {
          OwnerIs(cloud, id, domain);
        } else {
          OthersUntouched(config, name, cloud, domain, id);
          OwnerIs(after, id, other);
        }
      case None =>
        assert Owner(after, other).None? by {
          if Owner(after, other).Some? {
            var id := Owner(after, other).value;
            assert Owns(after, id, other);
            assert !Owns(cloud, id, other);
          }
        }
    }
  }

  ghost predicate Distinct(domains: seq<string>) {
    forall i, j :: 0 <= i < j < |domains| ==> domains[i] != domains[j]
  }

  ghost predicate AllSettled(config: CdnTenantConfig, cloud: Cloud, domains: seq<string>)
    requires Sound(cloud)
  {
    forall i :: 0 <= i < |domains| ==> Settled(config, cloud, domains[i])
  }

  lemma {:induction false} PassSettles(config: CdnTenantConfig, name: (string, string) -> string, cloud: Cloud, domains: seq<string>)
    requires Sound(cloud) && Distinct(domains) && AfterPass(config, name, cloud, domains).Ok?
    ensures var (after, counts) := AfterPass(config, name, cloud, domains).value;
      AllSettled(config, after, domains) && counts.added + counts.updated + counts.same == |domains|
  {
    if domains != [] {
      var init, last := domains[..|domains| - 1], domains[|domains| - 1];
      assert domains == init + [last];
      assert forall i :: 0 <= i < |init| ==> init[i] == domains[i];
      PassSettles(config, name, cloud, init);
      var mid := AfterPass(config, name, cloud, init).value.0;
      OneMoreSettles(config, name, mid, init, last);
    }
  }

  lemma OneMoreSettles(config: CdnTenantConfig, name: (string, string) -> string, cloud: Cloud, settled: seq<string>, domain: string)
    requires Sound(cloud) && AfterDomain(config, name, cloud, domain).Ok? && AllSettled(config, cloud, settled)
    requires Distinct(settled + [domain])
    ensures var after := AfterDomain(config, name, cloud, domain).value.0; Sound(after) && AllSettled(config, after, settled + [domain])
  {
    DomainSettles(config, name, cloud, domain);
    var all := settled + [domain];
    forall i | 0 <= i < |settled| ensures settled[i] != domain {
      assert all[i] != all[|settled|];
    }
    OthersStaySettled(config, name, cloud, domain, settled);
  }

  lemma OthersStaySettled(config: CdnTenantConfig, name: (string, string) -> string, cloud: Cloud, domain: string, others: seq<string>)
    requires Sound(cloud) && AfterDomain(config, name, cloud, domain).Ok? && Sound(AfterDomain(config, name, cloud, domain).value.0)
    requires AllSettled(config, cloud, others) && domain !in others
    ensures AllSettled(config, AfterDomain(config, name, cloud, domain).value.0, others)
  {
    forall i | 0 <= i < |others| ensures Settled(config, AfterDomain(config, name, cloud, domain).value.0, others[i]) {
      OtherDomainsStay(config, name, cloud, domain, others[i]);
    }
  }

  lemma {:induction false} SettledPassIsIdle(config: CdnTenantConfig, name: (string, string) -> string, cloud: Cloud, domains: seq<string>)
    requires Sound(cloud) && AllSettled(config, cloud, domains)
    ensures AfterPass(config, name, cloud, domains) == Ok((cloud, ReconcileResult(0, 0, |domains|)))
  {
    if domains != [] {
      var init, last := domains[..|domains| - 1], domains[|domains| - 1];
      assert forall i :: 0 <= i < |init| ==> init[i] == domains[i];
      SettledPassIsIdle(config, name, cloud, init);
      DomainSettles(config, name, cloud, last);
    }
  }

  lemma {:induction false} PassLeavesOthers(config: CdnTenantConfig, name: (string, string) -> string, cloud: Cloud, domains: seq<string>, id: TenantId)
    requires Sound(cloud) && AfterPass(config, name, cloud, domains).Ok?
    requires id in cloud.tenants && forall d :: d in domains ==> d !in cloud.tenants[id].tenant.domains
    ensures var after := AfterPass(config, name, cloud, domains).value.0;
      id in after.tenants && after.tenants[id] == cloud.tenants[id] && CertificateOf(after, id) == CertificateOf(cloud, id)
  {
    if domains != [] {
      var init, last := domains[..|domains| - 1], domains[|domains| - 1];
      assert last in domains && forall d :: d in init ==> d in domains;
      PassLeavesOthers(config, name, cloud, init, id);
      OthersUntouched(config, name, AfterPass(config, name, cloud, init).value.0, last, id);
    }
  }

  lemma {:induction false} PassKeepsReconcilable(config: CdnTenantConfig, name: (string, string) -> string, cloud: Cloud, domains: seq<string>, other: string)
    requires Sound(cloud) && AfterPass(config, name, cloud, domains).Ok? && other !in domains
    ensures Reconcilable(config, AfterPass(config, name, cloud, domains).value.0, other) <==> Reconcilable(config, cloud, other)
  {
    if domains != [] {
      var init, last := domains[..|domains| - 1], domains[|domains| - 1];
      assert last in domains && forall d :: d in init ==> d in domains;
      PassKeepsReconcilable(config, name, cloud, init, other);
      OtherDomainsStay(config, name, AfterPass(config, name, cloud, init).value.0, last, other);
    }
  }

  /** With nobody else writing a pass succeeds exactly when every desired domain is free or held by a
      tenant of its own in the configured distribution. */
  lemma {:induction false} PassSucceedsExactly(config: CdnTenantConfig, name: (string, string) -> string, cloud: Cloud, domains: seq<string>)
    requires Sound(cloud) && Distinct(domains)
    ensures AfterPass(config, name, cloud, domains).Ok? <==> forall i :: 0 <= i < |domains| ==> Reconcilable(config, cloud, domains[i])
  {
    if domains != [] {
      var init, last := domains[..|domains| - 1], domains[|domains| - 1];
      assert forall i :: 0 <= i < |init| ==> init[i] == domains[i];
      PassSucceedsExactly(config, name, cloud, init);
      if AfterPass(config, name, cloud, init).Ok? {
        assert last !in init;
        PassKeepsReconcilable(config, name, cloud, init, last);
        DomainSettles(config, name, AfterPass(config, name, cloud, init).value.0, last);
      }
    }
  }

  /** Convergence: after a successful pass the counts cover every desired domain, an immediate second
      pass finds every domain as desired and writes nothing, and every tenant of other domains is
      the record, version included, that it was. */
  lemma ReconcileConverges(config: CdnTenantConfig, name: (string, string) -> string, cloud: Cloud, domains: seq<string>)
    requires Sound(cloud) && Distinct(domains) && AfterPass(config, name, cloud, domains).Ok?
    ensures var (after, counts) := AfterPass(config, name, cloud, domains).value;
      && counts.added + counts.updated + counts.same == |domains|
      && AfterPass(config, name, after, domains) == Ok((after, ReconcileResult(0, 0, |domains|)))
      && (forall id :: id in cloud.tenants && (forall d :: d in domains ==> d !in cloud.tenants[id].tenant.domains) ==>
            id in after.tenants && after.tenants[id] == cloud.tenants[id])
      && (forall id :: id in after.tenants && id !in cloud.tenants ==> OwnTenant(after, domains, id))
  {
    var after := AfterPass(config, name, cloud, domains).value.0;
    PassSettles(config, name, cloud, domains);
    SettledPassIsIdle(config, name, after, domains);
    forall id | id in cloud.tenants && (forall d :: d in domains ==> d !in cloud.tenants[id].tenant.domains)
      ensures id in after.tenants && after.tenants[id] == cloud.tenants[id]
    {
      PassLeavesOthers(config, name, cloud, domains, id);
    }
    forall id | id in after.tenants && id !in cloud.tenants ensures OwnTenant(after, domains, id) {
      PassAddsOwnTenants(config, name, cloud, domains, id);
    }
  }

  /** What a pass leaves for a desired domain: a tenant of it alone with every configured part and a good
      certificate; one that was there is kept in everything else, a new one holds nothing else. */
  ghost predicate IsLeft(config: CdnTenantConfig, name: (string, string) -> string, before: Cloud, after: Cloud, domain: string)
    requires Sound(before) && Sound(after)
  {
    var was, now := Owner(before, domain), Owner(after, domain);
    && now.Some?
    && IsAsConfigured(config, after.tenants[now.value].tenant, domain)
    && CertificateGood(config, CertificateOf(after, now.value))
    && (match was
        case Some(id) => now == was && Brought(config, before.tenants[id].tenant, after.tenants[id].tenant, domain)
        case None =>
          now.value !in before.tenants
          && after.tenants[now.value].tenant == DistributionTenant(now.value, name(config.distributionId, domain), config.distributionId, {domain},
                                                                   config.connectionGroupId, config.parameters, None, Some(true)))
  }

  lemma DomainLeaves(config: CdnTenantConfig, name: (string, string) -> string, cloud: Cloud, domain: string)
    requires Sound(cloud) && AfterDomain(config, name, cloud, domain).Ok?
    ensures var after := AfterDomain(config, name, cloud, domain).value.0; Sound(after) && IsLeft(config, name, cloud, after, domain)
  {
    AfterDomainSound(config, name, cloud, domain);
    var after := AfterDomain(config, name, cloud, domain).value.0;
    match Owner(cloud, domain) {
      case None =>
        OwnerIs(after, cloud.clock + 1, domain);
      case Some(id) =>
        var before := cloud.tenants[id].tenant;
        OwnerIs(after, id, domain);
        MatchesExactly(config, before, domain, cloud, id);
        MergeExactly(config, before, after.tenants[id].tenant, domain);
    }
  }

  /** Nothing of a domain's tenant differs between the two clouds, or it has none in either. */
  ghost predicate SameTenant(before: Cloud, after: Cloud, domain: string)
    requires Sound(before) && Sound(after)
  {
    && Owner(after, domain) == Owner(before, domain)
    && (Owner(before, domain).Some? ==>
          var id := Owner(before, domain).value;
          after.tenants[id].tenant == before.tenants[id].tenant && CertificateOf(after, id) == CertificateOf(before, id))
  }

  lemma OtherTenantSame(config: CdnTenantConfig, name: (string, string) -> string, cloud: Cloud, domain: string, other: string)
    requires Sound(cloud) && AfterDomain(config, name, cloud, domain).Ok? && other != domain
    ensures var after := AfterDomain(config, name, cloud, domain).value.0; Sound(after) && (OwnAlone(cloud, other) ==> SameTenant(cloud, after, other))
  {
    AfterDomainSound(config, name, cloud, domain);
    var after := AfterDomain(config, name, cloud, domain).value.0;
    if OwnAlone(cloud, other) {
      match Owner(cloud, other) {
        case Some(id) =>
          OthersUntouched(config, name, cloud, domain, id);
          OwnerIs(after, id, other);
        case None =>
          assert forall id :: Owns(after, id, other) ==> Owns(cloud, id, other);
      }
    }
  }

  /** A tenant of the domain, if there is one, has no other. */
  ghost predicate OwnAlone(cloud: Cloud, domain: string)
    requires Sound(cloud)
  {
    var owner := Owner(cloud, domain);
    owner.Some? ==> cloud.tenants[owner.value].tenant.domains == {domain}
  }

  lemma {:induction false} PassKeepsTenant(config: CdnTenantConfig, name: (string, string) -> string, cloud: Cloud, domains: seq<string>, other: string)
    requires Sound(cloud) && AfterPass(config, name, cloud, domains).Ok? && other !in domains && OwnAlone(cloud, other)
    ensures SameTenant(cloud, AfterPass(config, name, cloud, domains).value.0, other)
  {
    if domains != [] {
      var init, last := domains[..|domains| - 1], domains[|domains| - 1];
      assert domains == init + [last];
      PassKeepsTenant(config, name, cloud, init, other);
      OtherTenantSame(config, name, AfterPass(config, name, cloud, init).value.0, last, other);
    }
  }

  /** What a successful pass leaves, for every desired domain. */
  lemma {:induction false} PassLeaves(config: CdnTenantConfig, name: (string, string) -> string, cloud: Cloud, domains: seq<string>)
    requires Sound(cloud) && Distinct(domains) && AfterPass(config, name, cloud, domains).Ok?
    ensures forall i :: 0 <= i < |domains| ==> IsLeft(config, name, cloud, AfterPass(config, name, cloud, domains).value.0, domains[i])
  {
    if domains != [] {
      var init, last := domains[..|domains| - 1], domains[|domains| - 1];
      var mid := AfterPass(config, name, cloud, init).value.0;
      assert domains == init + [last];
      assert forall i :: 0 <= i < |init| ==> init[i] == domains[i];
      PassLeaves(config, name, cloud, init);
      forall i | 0 <= i < |init| ensures IsLeft(config, name, cloud, AfterDomain(config, name, mid, last).value.0, init[i]) {
        OtherTenantSame(config, name, mid, last, init[i]);
        StillLeft(config, name, cloud, mid, AfterDomain(config, name, mid, last).value.0, init[i]);
      }
      LastLeft(config, name, cloud, init, last);
    }
  }

  lemma StillLeft(config: CdnTenantConfig, name: (string, string) -> string, cloud: Cloud, mid: Cloud, after: Cloud, domain: string)
    requires Sound(cloud) && Sound(mid) && Sound(after) && IsLeft(config, name, cloud, mid, domain)
    requires OwnAlone(mid, domain) ==> SameTenant(mid, after, domain)
    ensures IsLeft(config, name, cloud, after, domain)
  {
    var id := Owner(mid, domain).value;
    assert mid.tenants[id].tenant.domains == {domain};
  }

  lemma LastLeft(config: CdnTenantConfig, name: (string, string) -> string, cloud: Cloud, init: seq<string>, last: string)
    requires Sound(cloud) && AfterPass(config, name, cloud, init).Ok? && last !in init
    requires AfterDomain(config, name, AfterPass(config, name, cloud, init).value.0, last).Ok?
    ensures var after := AfterDomain(config, name, AfterPass(config, name, cloud, init).value.0, last).value.0;
      Sound(after) && IsLeft(config, name, cloud, after, last)
  {
    var mid := AfterPass(config, name, cloud, init).value.0;
    DomainSettles(config, name, mid, last);
    PassKeepsReconcilable(config, name, cloud, init, last);
    PassKeepsTenant(config, name, cloud, init, last);
    DomainLeaves(config, name, mid, last);
    NewOutside(config, name, cloud, init, last);
  }

  /** The id given out for a new tenant was not in use before the pass. */
  lemma NewOutside(config: CdnTenantConfig, name: (string, string) -> string, cloud: Cloud, init: seq<string>, last: string)
    requires Sound(cloud) && AfterPass(config, name, cloud, init).Ok?
    ensures AfterPass(config, name, cloud, init).value.0.clock + 1 !in cloud.tenants
  {
    PassClock(config, name, cloud, init);
  }

  lemma {:induction false} PassClock(config: CdnTenantConfig, name: (string, string) -> string, cloud: Cloud, domains: seq<string>)
    requires Sound(cloud) && AfterPass(config, name, cloud, domains).Ok?
    ensures cloud.clock <= AfterPass(config, name, cloud, domains).value.0.clock
  {
    if domains != [] {
      PassClock(config, name, cloud, domains[..|domains| - 1]);
    }
  }

  /** A tenant of exactly one desired domain. */
  ghost predicate OwnTenant(cloud: Cloud, domains: seq<string>, id: TenantId) {
    id in cloud.tenants && exists d :: d in domains && cloud.tenants[id].tenant.domains == {d}
  }

  lemma {:induction false} PassAddsOwnTenants(config: CdnTenantConfig, name: (string, string) -> string, cloud: Cloud, domains: seq<string>, id: TenantId)
    requires Sound(cloud) && AfterPass(config, name, cloud, domains).Ok?
    requires id in AfterPass(config, name, cloud, domains).value.0.tenants && id !in cloud.tenants
    ensures OwnTenant(AfterPass(config, name, cloud, domains).value.0, domains, id)
  {
    if domains != [] {
      var init, last := domains[..|domains| - 1], domains[|domains| - 1];
      var mid := AfterPass(config, name, cloud, init).value.0;
      var after := AfterDomain(config, name, mid, last).value.0;
      assert last in domains && forall d :: d in init ==> d in domains;
      if id in mid.tenants {
        PassAddsOwnTenants(config, name, cloud, init, id);
        assert after.tenants[id] == mid.tenants[id] || after.tenants[id].tenant.domains == {last};
      } else {
        assert after.tenants[id].tenant.domains == {last};
      }
    }
  }

  // ----- what a pass counts

  /** The domain has a tenant, and nothing of it is to be changed. */
  ghost predicate IsFit(config: CdnTenantConfig, cloud: Cloud, domain: string)
    requires Sound(cloud)
  {
    var owner := Owner(cloud, domain);
    && owner.Some? && IsAsConfigured(config, cloud.tenants[owner.value].tenant, domain)
    && CertificateGood(config, CertificateOf(cloud, owner.value))
  }

  ghost function Unowned(cloud: Cloud, domains: seq<string>): set<string>
    requires Sound(cloud)
  {
    set d | d in domains && Owner(cloud, d).None?
  }

  ghost function FitOnes(config: CdnTenantConfig, cloud: Cloud, domains: seq<string>): set<string>
    requires Sound(cloud)
  {
    set d | d in domains && IsFit(config, cloud, d)
  }

  lemma OneCounted(config: CdnTenantConfig, name: (string, string) -> string, cloud: Cloud, domain: string)
    requires Sound(cloud) && AfterDomain(config, name, cloud, domain).Ok?
    ensures var outcome := AfterDomain(config, name, cloud, domain).value.1;
      outcome == if Owner(cloud, domain).None? then Added else if IsFit(config, cloud, domain) then Same else Updated
  {
    if Owner(cloud, domain).Some? {
      MatchesExactly(config, cloud.tenants[Owner(cloud, domain).value].tenant, domain, cloud, Owner(cloud, domain).value);
    }
  }

  /** The last domain counts as it stood before the pass. */
  lemma LastCounted(config: CdnTenantConfig, name: (string, string) -> string, cloud: Cloud, init: seq<string>, last: string)
    requires Sound(cloud) && AfterPass(config, name, cloud, init).Ok? && last !in init
    requires AfterDomain(config, name, AfterPass(config, name, cloud, init).value.0, last).Ok?
    ensures AfterDomain(config, name, AfterPass(config, name, cloud, init).value.0, last).value.1
      == if Owner(cloud, last).None? then Added else if IsFit(config, cloud, last) then Same else Updated
  {
    var mid := AfterPass(config, name, cloud, init).value.0;
    DomainSettles(config, name, mid, last);
    PassKeepsReconcilable(config, name, cloud, init, last);
    PassKeepsTenant(config, name, cloud, init, last);
    OneCounted(config, name, mid, last);
  }

  lemma OneMoreCounted(fewer: set<string>, more: set<string>, last: string, chosen: bool)
    requires last !in fewer && forall d :: d in more <==> d in fewer || (d == last && chosen)
    ensures |more| == |fewer| + if chosen then 1 else 0
  {
    assert more == if chosen then fewer + {last} else fewer;
  }

  lemma OneMoreUnowned(cloud: Cloud, init: seq<string>, last: string)
    requires Sound(cloud) && last !in init
    ensures |Unowned(cloud, init + [last])| == |Unowned(cloud, init)| + if Owner(cloud, last).None? then 1 else 0
  {
    OneMoreCounted(Unowned(cloud, init), Unowned(cloud, init + [last]), last, Owner(cloud, last).None?);
  }

  lemma OneMoreFit(config: CdnTenantConfig, cloud: Cloud, init: seq<string>, last: string)
    requires Sound(cloud) && last !in init
    ensures |FitOnes(config, cloud, init + [last])| == |FitOnes(config, cloud, init)| + if IsFit(config, cloud, last) then 1 else 0
  {
    OneMoreCounted(FitOnes(config, cloud, init), FitOnes(config, cloud, init + [last]), last, IsFit(config, cloud, last));
  }

  /** The domains without a tenant at the start are counted added, those fit at the start the same, all others updated. */
  lemma {:induction false} PassCounts(config: CdnTenantConfig, name: (string, string) -> string, cloud: Cloud, domains: seq<string>)
    requires Sound(cloud) && Distinct(domains) && AfterPass(config, name, cloud, domains).Ok?
    ensures var counts := AfterPass(config, name, cloud, domains).value.1;
      && counts.added == |Unowned(cloud, domains)| && counts.same == |FitOnes(config, cloud, domains)|
      && counts.added + counts.updated + counts.same == |domains|
  {
    if domains != [] {
      var init, last := domains[..|domains| - 1], domains[|domains| - 1];
      assert domains == init + [last];
      assert forall i :: 0 <= i < |init| ==> init[i] == domains[i];
      PassCounts(config, name, cloud, init);
      LastCounted(config, name, cloud, init, last);
      OneMoreUnowned(cloud, init, last);
      OneMoreFit(config, cloud, init, last);
    }
  }

  // ----- the code, with others writing between any two calls

  /** The tenant just read is still there, of the right distribution and of this domain alone. */
  ghost predicate Holds(config: CdnTenantConfig, cloud: Cloud, existing: DistributionTenant, domain: string) {
    && existing.id in cloud.tenants && cloud.tenants[existing.id].tenant == existing
    && Owns(cloud, existing.id, domain) && Verified(config, existing, domain).Ok?
  }

  method ReconcileExisting(client: CloudFrontSaasClient, config: CdnTenantConfig, existing: DistributionTenant, domain: string,
                           lookup: Option<ManagedCertificateLookup>)
    returns (r: Result<Outcome, ReconcileError>)
    requires Sound(client.cloud)
    modifies client
    ensures Sound(client.cloud) && AllKept(config, old(client.accepted), client.accepted)
    ensures old(client.script) == [] ==> client.script == []
    ensures old(client.script) == [] && Holds(config, old(client.cloud), existing, domain) ==>
      && r == Ok(if TenantMatches(config, existing, domain, lookup) then Same else Updated)
      && client.cloud == (if TenantMatches(config, existing, domain, lookup) then old(client.cloud)
           else Put(old(client.cloud), existing.id, MergedTenant(config, existing, domain), CertificateRequest(config, lookup)))
  {
    if TenantMatches(config, existing, domain, lookup) {
      return Ok(Same);
    }
    var current := client.Get(existing.id);
    if current.Err? {
      return Err(Client(current.error));
    }
    var verified := Verified(config, current.value.tenant, domain);
    if verified.Err? {
      return Err(verified.error);
    }
    if TenantMatches(config, current.value.tenant, domain, lookup) {
      return Ok(Same);
    }
    ghost var read := client.cloud;
    var desired := MergedTenant(config, current.value.tenant, domain);
    if Owns(read, existing.id, domain) {
      OnlyOwner(read, existing.id, domain);
    }
    var updated := client.Update(UpdateRequest(current.value.tenant.id, current.value.etag, desired, CertificateRequest(config, lookup)));
    if updated.Err? {
      return Err(Client(updated.error));
    }
    ghost var entry := client.accepted[|old(client.accepted)|];
    assert entry.current == current.value.tenant && entry.stored == desired;
    MergeExactly(config, entry.current, entry.stored, domain);
    assert NothingLost(config, entry);
    return Ok(Updated);
  }

  method ReconcileDomain(client: CloudFrontSaasClient, config: CdnTenantConfig, name: (string, string) -> string, domain: string)
    returns (r: Result<Outcome, ReconcileError>)
    requires Sound(client.cloud)
    modifies client
    ensures Sound(client.cloud) && AllKept(config, old(client.accepted), client.accepted)
    ensures old(client.script) == [] ==> client.script == []
    ensures old(client.script) == [] ==> match AfterDomain(config, name, old(client.cloud), domain)
      case Err(e) => r == Err(e) && client.cloud == old(client.cloud)
      case Ok((cloud, outcome)) => r == Ok(outcome) && client.cloud == cloud
  {
    var found := client.GetByDomain(domain);
    if found.Err? {
      return Err(Client(found.error));
    }
    if found.value.None? {
      var created := client.Create(NewRequest(config, name, domain));
      return if created.Ok? then Ok(Added) else Err(Client(created.error));
    }
    var existing := found.value.value;
    var verified := Verified(config, existing, domain);
    if verified.Err? {
      return Err(verified.error);
    }
    var lookup := None;
    if config.managedCertificate.Some? {
      var certificate := client.GetCertificate(existing.id);
      if certificate.Err? {
        return Err(Client(certificate.error));
      }
      lookup := Some(certificate.value);
    }
    r := ReconcileExisting(client, config, existing, domain, lookup);
  }

  /** Whatever others write in between, the counts of a successful pass add up to the desired domains
      and no update loses a change; with nobody else writing the pass is `AfterPass`. */
  method ReconcileTenants(client: CloudFrontSaasClient, config: CdnTenantConfig, name: (string, string) -> string, domains: seq<string>)
    returns (r: Result<ReconcileResult, ReconcileError>)
    requires Sound(client.cloud)
    modifies client
    ensures Sound(client.cloud) && AllKept(config, old(client.accepted), client.accepted)
    ensures r.Ok? ==> r.value.added + r.value.updated + r.value.same == |domains|
    ensures old(client.script) == [] ==> match AfterPass(config, name, old(client.cloud), domains)
      case Err(e) => r == Err(e)
      case Ok((cloud, counts)) => r == Ok(counts) && client.cloud == cloud
  {
    var counts := ReconcileResult(0, 0, 0);
    for i := 0 to |domains|
      invariant Sound(client.cloud) && AllKept(config, old(client.accepted), client.accepted)
      invariant counts.added + counts.updated + counts.same == i
      invariant old(client.script) == [] ==> client.script == []
      invariant old(client.script) == [] ==> AfterPass(config, name, old(client.cloud), domains[..i]) == Ok((client.cloud, counts))
    {
      ghost var log := client.accepted;
      assert domains[..i + 1][..i] == domains[..i];
      var outcome := ReconcileDomain(client, config, name, domains[i]);
      KeptFurther(config, old(client.accepted), log, client.accepted);
      if outcome.Err? {
        PassStopsAtError(config, name, old(client.cloud), domains, i + 1);
        return Err(outcome.error);
      }
      counts := Counted(counts, outcome.value);
    }
    assert domains[..|domains|] == domains;
    return Ok(counts);
  }

  lemma {:induction false} PassStopsAtError(config: CdnTenantConfig, name: (string, string) -> string, cloud: Cloud, domains: seq<string>, n: nat)
    requires Sound(cloud) && n <= |domains|
    ensures AfterPass(config, name, cloud, domains[..n]).Err? ==>
      AfterPass(config, name, cloud, domains) == AfterPass(config, name, cloud, domains[..n])
  {
    if n == |domains| {
      assert domains[..n] == domains;
    } else {
      assert domains[..|domains| - 1][..n] == domains[..n];
      PassStopsAtError(config, name, cloud, domains[..|domains| - 1], n);
    }
  }
}
