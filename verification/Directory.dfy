/** Organisations, tenants and gateways, and the references between them. */
module Directories {
  import opened MigTypes

  datatype Org = Org(id: string, name: string)
  datatype Tenant = Tenant(id: string, orgID: string, name: string)
  datatype Gateway = Gateway(id: string, tenantID: string, region: string, binding: string)

  datatype Listing = Listing(orgs: map<string, Org>, tenants: map<string, Tenant>, gateways: map<string, Gateway>)

  datatype Entry = NewOrg(org: Org) | NewTenant(tenant: Tenant) | NewGateway(gateway: Gateway)

  /** An entry with its generated ID filled in, or the reason it is refused. */
  function Check(l: Listing, e: Entry, freshID: FreshId): Result<Entry> {
    match e
    case NewOrg(o) =>
      if o.name == "" then Err(Invalid(NameRequired))
      else Ok(NewOrg(if o.id == "" then o.(id := freshID) else o))
    case NewTenant(t) =>
      if t.name == "" || t.orgID == "" then Err(Invalid(NameAndOrgRequired))
      else if t.orgID !in l.orgs then Err(MigError(NotFound, OrgNotFound, false))
      else Ok(NewTenant(if t.id == "" then t.(id := freshID) else t))
    case NewGateway(g) =>
      if g.tenantID == "" || g.region == "" || g.binding == "" then Err(Invalid(GatewayFieldsRequired))
      else if g.tenantID !in l.tenants then Err(MigError(NotFound, TenantNotFound, false))
      else Ok(NewGateway(if g.id == "" then g.(id := freshID) else g))
  }

  function Store(l: Listing, e: Entry): Listing {
    match e
    case NewOrg(o) => l.(orgs := l.orgs[o.id := o])
    case NewTenant(t) => l.(tenants := l.tenants[t.id := t])
    case NewGateway(g) => l.(gateways := l.gateways[g.id := g])
  }

  function Create(l: Listing, e: Entry, freshID: FreshId): Listing {
    match Check(l, e, freshID)
    case Err(_) => l
    case Ok(e') => Store(l, e')
  }

  /** Records sit under their own nonempty IDs; every tenant's organisation and every gateway's tenant exist. */
  predicate Linked(l: Listing) {
    && (forall k | k in l.orgs :: l.orgs[k].id == k != "")
    && (forall k | k in l.tenants :: l.tenants[k].id == k != "" && l.tenants[k].orgID in l.orgs)
    && (forall k | k in l.gateways :: l.gateways[k].id == k != "" && l.gateways[k].tenantID in l.tenants)
  }

  function CreateAll(l: Listing, es: seq<(Entry, FreshId)>): Listing
    decreases es
  {
    if es == [] then l else CreateAll(Create(l, es[0].0, es[0].1), es[1..])
  }

  /** Every reachable directory is linked, also when entries overwrite existing IDs, so that each gateway ever created
      still resolves through its tenant to an organisation. */
  lemma {:induction false} EveryGatewayResolves(l: Listing, es: seq<(Entry, FreshId)>)
    requires Linked(l)
    ensures var l' := CreateAll(l, es);
      && Linked(l')
      && l.gateways.Keys <= l'.gateways.Keys
      && forall g | g in l'.gateways :: l'.tenants[l'.gateways[g].tenantID].orgID in l'.orgs
    decreases es
  {
    if es != [] {
      EveryGatewayResolves(Create(l, es[0].0, es[0].1), es[1..]);
    }
  }

  class Directory {
    var orgs: map<string, Org>
    var tenants: map<string, Tenant>
    var gateways: map<string, Gateway>

    ghost function View(): Listing
      reads this
    {
      Listing(orgs, tenants, gateways)
    }

    constructor ()
      ensures Linked(View()) && View() == Listing(map[], map[], map[])
    {
      orgs, tenants, gateways := map[], map[], map[];
    }

    method CreateOrg(o: Org, freshID: FreshId) returns (r: Result<Org>)
      requires Linked(View())
      modifies this`orgs
      ensures Linked(View()) && View() == Create(old(View()), NewOrg(o), freshID)
      ensures match Check(old(View()), NewOrg(o), freshID)
        case Err(e) => r == Err(e)
        case Ok(e) => r == Ok(e.org)
      ensures if o.name != ""
        then r == Ok(o.(id := if o.id != "" then o.id else freshID)) && orgs == old(orgs)[r.value.id := r.value]
        else r == Err(MigError(InvalidRequest, NameRequired, false)) && orgs == old(orgs)
    {
      if o.name == "" {
        return Err(Invalid(NameRequired));
      }
      var org := if o.id == "" then o.(id := freshID) else o;
      orgs := orgs[org.id := org];
      r := Ok(org);
    }

    method CreateTenant(t: Tenant, freshID: FreshId) returns (r: Result<Tenant>)
      requires Linked(View())
      modifies this`tenants
      ensures Linked(View()) && View() == Create(old(View()), NewTenant(t), freshID)
      ensures match Check(old(View()), NewTenant(t), freshID)
        case Err(e) => r == Err(e)
        case Ok(e) => r == Ok(e.tenant)
      ensures if t.name != "" && t.orgID != "" && t.orgID in orgs
        then r == Ok(t.(id := if t.id != "" then t.id else freshID)) && tenants == old(tenants)[r.value.id := r.value]
        else r.Err? && tenants == old(tenants)
      ensures r.Err? ==> r.error.code == if "" in [t.name, t.orgID] then InvalidRequest else NotFound
    {
      if t.name == "" || t.orgID == "" {
        return Err(Invalid(NameAndOrgRequired));
      }
      var tenant := if t.id == "" then t.(id := freshID) else t;
      if tenant.orgID !in orgs {
        return Err(MigError(NotFound, OrgNotFound, false));
      }
      tenants := tenants[tenant.id := tenant];
      r := Ok(tenant);
    }

    method CreateGateway(g: Gateway, freshID: FreshId) returns (r: Result<Gateway>)
      requires Linked(View())
      modifies this`gateways
      ensures Linked(View()) && View() == Create(old(View()), NewGateway(g), freshID)
      ensures match Check(old(View()), NewGateway(g), freshID)
        case Err(e) => r == Err(e)
        case Ok(e) => r == Ok(e.gateway)
      ensures if "" !in [g.tenantID, g.region, g.binding] && g.tenantID in tenants
        then r == Ok(g.(id := if g.id != "" then g.id else freshID)) && gateways == old(gateways)[r.value.id := r.value]
        else r.Err? && gateways == old(gateways)
      ensures r.Err? ==> r.error.code == if "" in [g.tenantID, g.region, g.binding] then InvalidRequest else NotFound
    {
      if g.tenantID == "" || g.region == "" || g.binding == "" {
        return Err(Invalid(GatewayFieldsRequired));
      }
      var gateway := if g.id == "" then g.(id := freshID) else g;
      if gateway.tenantID !in tenants {
        return Err(MigError(NotFound, TenantNotFound, false));
      }
      gateways := gateways[gateway.id := gateway];
      r := Ok(gateway);
    }
  }
}
