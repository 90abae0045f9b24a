/** The tenant store others also write to: versioned tenants, compare-and-set updates, one owner per domain. */
module TenantCloud {
  import opened Common

  type TenantId = nat

  datatype GeoRestriction = GeoRestriction(restrictionType: string, locations: Option<seq<string>>)

  datatype WebAcl = WebAcl(action: string, arn: Option<string>)

  datatype Customizations = Customizations(
    certificateArn: Option<string>,
    geoRestrictions: Option<GeoRestriction>,
    webAcl: Option<WebAcl>)

  datatype DistributionTenant = DistributionTenant(
    id: TenantId,
    name: string,
    distributionId: string,
    domains: set<string>,
    connectionGroupId: Option<string>,
    parameters: map<string, string>,
    customizations: Option<Customizations>,
    enabled: Option<bool>)

  datatype ManagedCertificateRequest = ManagedCertificateRequest(validationTokenHost: string)

  datatype ManagedCertificateLookup = Found(validationTokenHost: Option<string>) | NotFound

  datatype CreateRequest = CreateRequest(
    distributionId: string,
    name: string,
    domains: set<string>,
    connectionGroupId: Option<string>,
    parameters: map<string, string>,
    managedCertificate: Option<ManagedCertificateRequest>)

  datatype UpdateRequest = UpdateRequest(
    id: TenantId,
    ifMatch: nat,
    tenant: DistributionTenant,
    managedCertificate: Option<ManagedCertificateRequest>)

  datatype Record = Record(tenant: DistributionTenant, version: nat)

  /** `clock` is above every version and every id given out so far. */
  datatype Cloud = Cloud(tenants: map<TenantId, Record>, certificates: map<TenantId, ManagedCertificateLookup>, clock: nat)

  predicate Owns(cloud: Cloud, id: TenantId, domain: string) {
    id in cloud.tenants && domain in cloud.tenants[id].tenant.domains
  }

  /** Each domain belongs to at most one tenant, and versions and ids come from the clock. */
  ghost predicate Sound(cloud: Cloud) {
    && (forall a, b, d :: Owns(cloud, a, d) && Owns(cloud, b, d) ==> a == b)
    && (forall id {:trigger id in cloud.tenants} :: id in cloud.tenants ==>
          id <= cloud.clock && cloud.tenants[id].version <= cloud.clock && cloud.tenants[id].tenant.id == id)
  }

  function Owner(cloud: Cloud, domain: string): (owner: Option<TenantId>)
    requires Sound(cloud)
    ensures owner.Some? ==> Owns(cloud, owner.value, domain)
    ensures owner.None? ==> forall id :: !Owns(cloud, id, domain)
  {
    if exists id :: id in cloud.tenants && Owns(cloud, id, domain) then
      var id :| id in cloud.tenants && Owns(cloud, id, domain);
      Some(id)
    else None
  }

  lemma OwnerIs(cloud: Cloud, id: TenantId, domain: string)
    requires Sound(cloud) && Owns(cloud, id, domain)
    ensures Owner(cloud, domain) == Some(id)
  {
  }

  function CertificateOf(cloud: Cloud, id: TenantId): ManagedCertificateLookup {
    if id in cloud.certificates then cloud.certificates[id] else NotFound
  }

  function Certified(certificates: map<TenantId, ManagedCertificateLookup>, id: TenantId, request: Option<ManagedCertificateRequest>)
    : map<TenantId, ManagedCertificateLookup>
  {
    if request.Some? then certificates[id := Found(Some(request.value.validationTokenHost))] else certificates
  }

  /** No domain of the set belongs to a tenant other than `id`. */
  predicate FreeExceptFor(cloud: Cloud, id: TenantId, domains: set<string>) {
    forall other, d :: other in cloud.tenants && d in domains && other != id ==> !Owns(cloud, other, d)
  }

  function Put(cloud: Cloud, id: TenantId, tenant: DistributionTenant, certificate: Option<ManagedCertificateRequest>): Cloud {
    Cloud(cloud.tenants[id := Record(tenant.(id := id), cloud.clock + 1)], Certified(cloud.certificates, id, certificate), cloud.clock + 1)
  }

  function NewTenant(id: TenantId, request: CreateRequest): DistributionTenant {
    DistributionTenant(id, request.name, request.distributionId, request.domains, request.connectionGroupId,
                       request.parameters, None, Some(true))
  }

  function Created(cloud: Cloud, request: CreateRequest): Cloud {
    Put(cloud, cloud.clock + 1, NewTenant(cloud.clock + 1, request), request.managedCertificate)
  }

  lemma PutSound(cloud: Cloud, id: TenantId, tenant: DistributionTenant, certificate: Option<ManagedCertificateRequest>)
    requires Sound(cloud) && id <= cloud.clock + 1 && FreeExceptFor(cloud, id, tenant.domains)
    ensures Sound(Put(cloud, id, tenant, certificate))
  {
    var after := Put(cloud, id, tenant, certificate);
    forall a, b, d | Owns(after, a, d) && Owns(after, b, d) ensures a == b {
      if a != id && b != id {
        assert Owns(cloud, a, d) && Owns(cloud, b, d);
      } else if a == id && b != id {
        assert Owns(cloud, b, d) && d in tenant.domains;
      } else if a != id {
        assert Owns(cloud, a, d) && d in tenant.domains;
      }
    }
  }

  lemma CreatedKeeps(cloud: Cloud, request: CreateRequest)
    requires Sound(cloud) && FreeExceptFor(cloud, cloud.clock + 1, request.domains)
    ensures Sound(Created(cloud, request)) && Since(cloud, Created(cloud, request))
  {
    PutSound(cloud, cloud.clock + 1, NewTenant(cloud.clock + 1, request), request.managedCertificate);
  }

  /** What another writer may do; the store refuses what would give a domain two owners. */
  datatype Write =
    | Edit(id: TenantId, tenant: DistributionTenant)
    | Make(request: CreateRequest)
    | Drop(id: TenantId)
    | Certify(id: TenantId, lookup: ManagedCertificateLookup)

  function AfterWrite(cloud: Cloud, w: Write): Cloud {
    match w
    case Edit(id, tenant) =>
      if id in cloud.tenants && FreeExceptFor(cloud, id, tenant.domains) then Put(cloud, id, tenant, None) else cloud
    case Make(request) =>
      if FreeExceptFor(cloud, cloud.clock + 1, request.domains) then Created(cloud, request) else cloud
    case Drop(id) => cloud.(tenants := cloud.tenants - {id})
    case Certify(id, lookup) => cloud.(certificates := cloud.certificates[id := lookup])
  }

  function AfterWrites(cloud: Cloud, writes: seq<Write>): Cloud {
    if writes == [] then cloud else AfterWrite(AfterWrites(cloud, writes[..|writes| - 1]), writes[|writes| - 1])
  }

  /** A record whose version was given out before is the record it was then. */
  ghost predicate Since(before: Cloud, after: Cloud) {
    && before.clock <= after.clock
    && forall id {:trigger id in after.tenants} :: id in after.tenants && after.tenants[id].version <= before.clock ==>
         id in before.tenants && before.tenants[id] == after.tenants[id]
  }

  lemma SinceTransitive(a: Cloud, b: Cloud, c: Cloud)
    requires Since(a, b) && Since(b, c)
    ensures Since(a, c)
  {
    forall id | id in c.tenants && c.tenants[id].version <= a.clock ensures id in a.tenants && a.tenants[id] == c.tenants[id] {
      assert id in b.tenants;
    }
  }

  lemma WriteKeeps(cloud: Cloud, w: Write)
    requires Sound(cloud)
    ensures Sound(AfterWrite(cloud, w)) && Since(cloud, AfterWrite(cloud, w))
  {
    match w {
      case Edit(id, tenant) =>
        if id in cloud.tenants && FreeExceptFor(cloud, id, tenant.domains) { PutSound(cloud, id, tenant, None); }
      case Make(request) =>
        var id := cloud.clock + 1;
        if FreeExceptFor(cloud, id, request.domains) { PutSound(cloud, id, NewTenant(id, request), request.managedCertificate); }
      case Drop(id) =>
        var after := AfterWrite(cloud, w);
        forall a, b, d | Owns(after, a, d) && Owns(after, b, d) ensures a == b {
          assert Owns(cloud, a, d) && Owns(cloud, b, d);
        }
      case Certify(id, lookup) =>
        var after := AfterWrite(cloud, w);
        forall a, b, d | Owns(after, a, d) && Owns(after, b, d) ensures a == b {
          assert Owns(cloud, a, d) && Owns(cloud, b, d);
        }
    }
  }

  lemma {:induction false} WritesKeep(cloud: Cloud, writes: seq<Write>)
    requires Sound(cloud)
    ensures Sound(AfterWrites(cloud, writes)) && Since(cloud, AfterWrites(cloud, writes))
  {
    if writes != [] {
      var mid := AfterWrites(cloud, writes[..|writes| - 1]);
      WritesKeep(cloud, writes[..|writes| - 1]);
      WriteKeeps(mid, writes[|writes| - 1]);
      SinceTransitive(cloud, mid, AfterWrites(cloud, writes));
    }
  }

  datatype ClientError = Unavailable | NoSuchTenant | PreconditionFailed | DomainTaken

  /** What happens before the next call is served: writes of others, and whether the call then fails. */
  datatype Turn = Turn(writes: seq<Write>, fails: bool)

  datatype Versioned = Versioned(tenant: DistributionTenant, etag: nat)

  /** An update as it was accepted: what was current at that instant, and what replaced it. */
  datatype Accepted = Accepted(current: DistributionTenant, stored: DistributionTenant)

  class CloudFrontSaasClient {
    var cloud: Cloud
    var script: seq<Turn>
    var accepted: seq<Accepted>

    constructor (cloud: Cloud, script: seq<Turn>)
      ensures this.cloud == cloud && this.script == script && accepted == []
    {
      this.cloud := cloud;
      this.script := script;
      accepted := [];
    }

    /** Others go first; with the script used up nobody else writes and nothing fails. */
    method Others() returns (works: bool)
      requires Sound(cloud)
      modifies this`cloud, this`script
      ensures Sound(cloud) && Since(old(cloud), cloud)
      ensures old(script) == [] ==> script == [] && works && cloud == old(cloud)
    {
      if script == [] {
        return true;
      }
      WritesKeep(cloud, script[0].writes);
      cloud := AfterWrites(cloud, script[0].writes);
      works := !script[0].fails;
      script := script[1..];
    }

    method GetByDomain(domain: string) returns (r: Result<Option<DistributionTenant>, ClientError>)
      requires Sound(cloud)
      modifies this`cloud, this`script
      ensures Sound(cloud) && Since(old(cloud), cloud)
      ensures old(script) == [] ==> script == [] && cloud == old(cloud) && r.Ok?
      ensures r.Ok? ==> r.value == match Owner(cloud, domain) case None => None case Some(id) => Some(cloud.tenants[id].tenant)
    {
      var works := Others();
      if !works {
        return Err(Unavailable);
      }
      var owner := Owner(cloud, domain);
      return Ok(if owner.Some? then Some(cloud.tenants[owner.value].tenant) else None);
    }

    method Get(id: TenantId) returns (r: Result<Versioned, ClientError>)
      requires Sound(cloud)
      modifies this`cloud, this`script
      ensures Sound(cloud) && Since(old(cloud), cloud)
      ensures old(script) == [] ==> script == [] && cloud == old(cloud) && (id in cloud.tenants ==> r.Ok?)
      ensures r.Ok? ==> id in cloud.tenants && r.value == Versioned(cloud.tenants[id].tenant, cloud.tenants[id].version)
    {
      var works := Others();
      if !works || id !in cloud.tenants {
        return Err(NoSuchTenant);
      }
      return Ok(Versioned(cloud.tenants[id].tenant, cloud.tenants[id].version));
    }

    method GetCertificate(id: TenantId) returns (r: Result<ManagedCertificateLookup, ClientError>)
      requires Sound(cloud)
      modifies this`cloud, this`script
      ensures Sound(cloud) && Since(old(cloud), cloud)
      ensures old(script) == [] ==> script == [] && cloud == old(cloud) && r.Ok?
      ensures r.Ok? ==> r.value == CertificateOf(cloud, id)
    {
      var works := Others();
      return if works then Ok(CertificateOf(cloud, id)) else Err(Unavailable);
    }

    method Create(request: CreateRequest) returns (r: Result<TenantId, ClientError>)
      requires Sound(cloud)
      modifies this`cloud, this`script
      ensures Sound(cloud) && Since(old(cloud), cloud)
      ensures old(script) == [] ==>
        script == [] && (r.Ok? <==> FreeExceptFor(old(cloud), old(cloud).clock + 1, request.domains))
      ensures old(script) == [] ==> cloud == if r.Ok? then Created(old(cloud), request) else old(cloud)
    {
      var works := Others();
      if !works {
        return Err(Unavailable);
      }
      if !FreeExceptFor(cloud, cloud.clock + 1, request.domains) {
        return Err(DomainTaken);
      }
      CreatedKeeps(cloud, request);
      SinceTransitive(old(cloud), cloud, Created(cloud, request));
      cloud := Created(cloud, request);
      return Ok(cloud.clock);
    }

    /** Compare-and-set: accepted only while the version is still the one read (`If-Match`, section 13.1.1 of RFC 9110). */
    method Update(request: UpdateRequest) returns (r: Result<(), ClientError>)
      requires Sound(cloud)
      modifies this
      ensures Sound(cloud) && Since(old(cloud), cloud)
      ensures r.Err? ==> accepted == old(accepted)
      ensures r.Ok? ==> |accepted| == |old(accepted)| + 1 && accepted[..|old(accepted)|] == old(accepted)
      ensures r.Ok? ==> accepted[|old(accepted)|].stored == request.tenant.(id := request.id)
      ensures r.Ok? && request.ifMatch <= old(cloud).clock ==>
        request.id in old(cloud).tenants && old(cloud).tenants[request.id] == Record(accepted[|old(accepted)|].current, request.ifMatch)
      ensures old(script) == [] ==> script == []
      ensures old(script) == [] && request.id in old(cloud).tenants && old(cloud).tenants[request.id].version == request.ifMatch
          && FreeExceptFor(old(cloud), request.id, request.tenant.domains)
        ==> r.Ok? && cloud == Put(old(cloud), request.id, request.tenant, request.managedCertificate)
    {
      var works := Others();
      if !works {
        return Err(Unavailable);
      }
      if request.id !in cloud.tenants {
        return Err(NoSuchTenant);
      }
      if cloud.tenants[request.id].version != request.ifMatch {
        return Err(PreconditionFailed);
      }
      if !FreeExceptFor(cloud, request.id, request.tenant.domains) {
        return Err(DomainTaken);
      }
      PutSound(cloud, request.id, request.tenant, request.managedCertificate);
      ghost var before := cloud;
      accepted := accepted + [Accepted(cloud.tenants[request.id].tenant, request.tenant.(id := request.id))];
      cloud := Put(cloud, request.id, request.tenant, request.managedCertificate);
      SinceTransitive(old(cloud), before, cloud);
      return Ok(());
    }
  }
}
