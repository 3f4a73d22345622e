/**
 Building the storage map of the inner server (pkg/apiserver/generic.go, installResources;
 the option check is storage.New's).
 */
module Install {
  import opened Order
  import opened Discovery
  import opened Unions

  /** A member's client, told apart by identity. */
  datatype Client = Client(id: nat)

  datatype GV = GV(group: string, version: string)

  datatype Backing =
    | Plain(gvr: GVR, kind: GVK, namespaced: bool, singular: string, clients: map<string, Client>, done: nat)
    | Status(parent: Backing)

  type StorageMap = map<GV, map<string, Backing>>

  datatype Problem = NoClient(cluster: string) | NoResourceName | NoKind | NoCluster

  function GVOf(r: ServedResource): GV {
    GV(r.gvr.group, r.gvr.version)
  }

  function Lookup(m: StorageMap, gv: GV, name: string): Option<Backing> {
    if gv in m && name in m[gv] then Some(m[gv][name]) else None
  }

  function BackingOf(r: ServedResource, clients: map<string, Client>, done: nat): Backing {
    Plain(r.gvr, r.kind, r.namespaced, r.singular, map c | c in r.clusters && c in clients :: clients[c], done)
  }

  /** The storage r asks for under this name, if it asks for any. */
  function Asks(r: ServedResource, gv: GV, name: string, clients: map<string, Client>, done: nat): Option<Backing> {
    if gv != GVOf(r) then None
    else if name == r.gvr.resource then Some(BackingOf(r, clients, done))
    else if r.status && name == r.gvr.resource + "/status" then Some(Status(BackingOf(r, clients, done)))
    else None
  }

  /** Distinct resources, none named like a subresource. */
  ghost predicate Installable(resources: seq<ServedResource>) {
    DistinctGVRs(resources) && forall i :: 0 <= i < |resources| ==> '/' !in resources[i].gvr.resource
  }

  /** The map holds what the resources ask for and nothing else: no entry was overwritten. */
  ghost predicate Exact(m: StorageMap, resources: seq<ServedResource>, clients: map<string, Client>, done: nat) {
    && (forall i, gv, name :: 0 <= i < |resources| && Asks(resources[i], gv, name, clients, done).Some? ==>
          Lookup(m, gv, name) == Asks(resources[i], gv, name, clients, done))
    && (forall gv, name :: Lookup(m, gv, name).Some? ==>
          exists i :: 0 <= i < |resources| && Asks(resources[i], gv, name, clients, done).Some?)
  }

  /** The Done channel of an entry, that of the resource for its status. */
  function DoneOf(b: Backing): nat {
    match b
    case Plain(_, _, _, _, _, done) => done
    case Status(parent) => DoneOf(parent)
  }

  /** The storage is one for resource r of the generation whose Done is given. */
  predicate Shows(b: Backing, r: ServedResource, done: nat) {
    && b.Plain? && b.gvr == r.gvr && b.kind == r.kind && b.namespaced == r.namespaced && b.singular == r.singular
    && DoneOf(b) == done
  }

  /** The resource has a storage that shows it, and one for its status iff it has a status. */
  predicate Stores(m: StorageMap, r: ServedResource, done: nat) {
    var gv, name := GV(r.gvr.group, r.gvr.version), r.gvr.resource;
    && Lookup(m, gv, name).Some? && Shows(Lookup(m, gv, name).value, r, done)
    && Lookup(m, gv, name + "/status") == if r.status then Some(Status(Lookup(m, gv, name).value)) else None
  }

  predicate NamedFor(r: ServedResource, gv: GV, name: string) {
    gv == GV(r.gvr.group, r.gvr.version) && (name == r.gvr.resource || name == r.gvr.resource + "/status")
  }

  /** Every resource is stored, and there are no other entries. */
  ghost predicate Described(m: StorageMap, resources: seq<ServedResource>, done: nat) {
    && (forall r :: r in resources ==> Stores(m, r, done))
    && (forall gv, name :: Lookup(m, gv, name).Some? ==> exists r :: r in resources && NamedFor(r, gv, name))
  }

  /** What is installed is what the resources say, for the generation it is installed for. */
  lemma ExactDescribes(m: StorageMap, resources: seq<ServedResource>, clients: map<string, Client>, done: nat)
    requires Installable(resources) && Exact(m, resources, clients, done)
    ensures Described(m, resources, done)
  {
    forall r | r in resources ensures Stores(m, r, done) {
      var gv, name := GV(r.gvr.group, r.gvr.version), r.gvr.resource;
      var i :| 0 <= i < |resources| && resources[i] == r;
      assert Asks(r, gv, name, clients, done) == Some(BackingOf(r, clients, done));
      assert name + "/status" != name;
      if Lookup(m, gv, name + "/status").Some? {
        StatusOf(m, resources, clients, done, i);
      }
    }
    forall gv, name | Lookup(m, gv, name).Some? ensures exists r :: r in resources && NamedFor(r, gv, name) {
      var i :| 0 <= i < |resources| && Asks(resources[i], gv, name, clients, done).Some?;
      assert resources[i] in resources && NamedFor(resources[i], gv, name);
    }
  }

  /** So all entries, plain and status, have that generation's Done. */
  lemma DescribedDone(m: StorageMap, resources: seq<ServedResource>, done: nat, gv: GV, name: string)
    requires Described(m, resources, done) && Lookup(m, gv, name).Some?
    ensures DoneOf(Lookup(m, gv, name).value) == done
  {
    hide Lookup;
    var r :| r in resources && NamedFor(r, gv, name);
    assert Stores(m, r, done);
  }

  /** A status entry comes from the resource it is named after. */
  lemma StatusOf(m: StorageMap, resources: seq<ServedResource>, clients: map<string, Client>, done: nat, i: nat)
    requires Installable(resources) && Exact(m, resources, clients, done) && i < |resources|
    requires Lookup(m, GVOf(resources[i]), resources[i].gvr.resource + "/status").Some?
    ensures resources[i].status
  {
    var r := resources[i];
    var gv, name := GVOf(r), r.gvr.resource + "/status";
    assert name[|r.gvr.resource|] == '/';
    var j :| 0 <= j < |resources| && Asks(resources[j], gv, name, clients, done).Some?;
    var other := resources[j].gvr.resource;
    assert name == other + "/status";
    assert |other| == |r.gvr.resource|;
    assert other == name[..|other|] == r.gvr.resource;
    assert i == j;
  }

  lemma NamesApart(a: ServedResource, b: ServedResource, gv: GV, name: string, clients: map<string, Client>, done: nat)
    requires '/' !in a.gvr.resource && '/' !in b.gvr.resource && a.gvr != b.gvr
    ensures Asks(a, gv, name, clients, done).None? || Asks(b, gv, name, clients, done).None?
  {
    var x, y := a.gvr.resource, b.gvr.resource;
    assert (x + "/status")[|x|] == '/' && (y + "/status")[|y|] == '/';
    if x + "/status" == y + "/status" {
      assert |x| == |y|;
      assert x == (x + "/status")[..|x|] == (y + "/status")[..|y|] == y;
    }
  }

  function Put(m: StorageMap, gv: GV, name: string, b: Backing): (m': StorageMap)
    ensures forall g, n :: Lookup(m', g, n) == if g == gv && n == name then Some(b) else Lookup(m, g, n)
  {
    var row := if gv in m then m[gv] else map[];
    m[gv := row[name := b]]
  }

  /** Collects a resource's clients. */
  method ClientsOf(r: ServedResource, clients: map<string, Client>)
    returns (found: Result<map<string, Client>, Problem>)
    ensures found.Ok? ==> found.value == BackingOf(r, clients, 0).clients
    ensures found.Ok? ==> forall c :: c in r.clusters ==> c in clients
    ensures found.Ok? && found.value == map[] ==> r.clusters == []
    ensures found.Err? ==> found.error.NoClient? && found.error.cluster in r.clusters && found.error.cluster !in clients
  {
    var mine: map<string, Client> := map[];
    for i := 0 to |r.clusters|
      invariant forall j :: 0 <= j < i ==> r.clusters[j] in clients
      invariant i > 0 ==> r.clusters[0] in mine
      invariant mine == map c | c in r.clusters[..i] && c in clients :: clients[c]
    {
      var c := r.clusters[i];
      if c !in clients {
        return Err(NoClient(c));
      }
      mine := mine[c := clients[c]];
    }
    assert r.clusters[..|r.clusters|] == r.clusters;
    return Ok(mine);
  }

  /** Some resource gives rise to the problem. */
  ghost predicate Blames(p: Problem, resources: seq<ServedResource>, clients: map<string, Client>) {
    exists r :: r in resources &&
      match p
      case NoClient(c) => c in r.clusters && c !in clients
      case NoResourceName => r.gvr.resource == ""
      case NoKind => r.kind.kind == ""
      case NoCluster => r.clusters == []
  }

  /** No resource lacks its name or kind. */
  ghost predicate Presentable(resources: seq<ServedResource>) {
    forall r :: r in resources ==> r.gvr.resource != "" && r.kind.kind != ""
  }

  method InstallResources(resources: seq<ServedResource>, clients: map<string, Client>, done: nat)
    returns (r: Result<StorageMap, Problem>)
    ensures r.Err? ==> Blames(r.error, resources, clients)
    ensures r.Ok? && Installable(resources) ==> Exact(r.value, resources, clients, done)
    ensures r.Ok? && Installable(resources) ==> Described(r.value, resources, done)
    ensures r.Ok? ==> Presentable(resources)
  {
    var m: StorageMap := map[];
    assert Installable(resources) ==> Exact(m, resources[..0], clients, done);
    for k := 0 to |resources|
      invariant Installable(resources) ==> Exact(m, resources[..k], clients, done)
      invariant Presentable(resources[..k])
    {
      var resource := resources[k];
      assert resource in resources;
      var found := ClientsOf(resource, clients);
      if found.Err? {
        return Err(found.error);
      }
      if resource.gvr.resource == "" {
        return Err(NoResourceName);
      }
      if resource.kind.kind == "" {
        return Err(NoKind);
      }
      if found.value == map[] {
        return Err(NoCluster);
      }
      var store := Plain(resource.gvr, resource.kind, resource.namespaced, resource.singular, found.value, done);
      var m1 := Put(m, GVOf(resource), resource.gvr.resource, store);
      var m2 := m1;
      if resource.status {
        m2 := Put(m1, GVOf(resource), resource.gvr.resource + "/status", Status(store));
      }
      if Installable(resources) {
        InstallOne(m, m2, resources, k, clients, done);
      }
      m := m2;
    }
    assert resources[..|resources|] == resources;
    if Installable(resources) {
      ExactDescribes(m, resources, clients, done);
    }
    return Ok(m);
  }

  lemma InstallOne(m: StorageMap, m': StorageMap, resources: seq<ServedResource>, k: nat,
                   clients: map<string, Client>, done: nat)
    requires Installable(resources) && k < |resources| && Exact(m, resources[..k], clients, done)
    requires forall gv, name :: Lookup(m', gv, name) ==
               if Asks(resources[k], gv, name, clients, done).Some? then Asks(resources[k], gv, name, clients, done)
               else Lookup(m, gv, name)
    ensures Exact(m', resources[..k + 1], clients, done)
  {
    var now := resources[..k + 1];
    forall i, gv, name | 0 <= i < |now| && Asks(now[i], gv, name, clients, done).Some?
      ensures Lookup(m', gv, name) == Asks(now[i], gv, name, clients, done)
    {
      if i < k {
        assert resources[..k][i] == now[i];
        NamesApart(now[i], resources[k], gv, name, clients, done);
      }
    }
    forall gv, name | Lookup(m', gv, name).Some?
      ensures exists i :: 0 <= i < |now| && Asks(now[i], gv, name, clients, done).Some?
    {
      if Asks(resources[k], gv, name, clients, done).Some? {
        assert now[k] == resources[k];
      } else {
        var i :| 0 <= i < k && Asks(resources[..k][i], gv, name, clients, done).Some?;
        assert now[i] == resources[..k][i];
      }
    }
  }

  /** There is a storage map for all installable resources. */
  lemma {:induction false} InstallExists(resources: seq<ServedResource>, k: nat, clients: map<string, Client>,
                                         done: nat)
    returns (m: StorageMap)
    requires Installable(resources) && k <= |resources|
    ensures Exact(m, resources[..k], clients, done)
  {
    m := map[];
    if k > 0 {
      var r := resources[k - 1];
      m := InstallExists(resources, k - 1, clients, done);
      var store := BackingOf(r, clients, done);
      var m1 := Put(m, GVOf(r), r.gvr.resource, store);
      var m2 := if r.status then Put(m1, GVOf(r), r.gvr.resource + "/status", Status(store)) else m1;
      InstallOne(m, m2, resources, k - 1, clients, done);
      m := m2;
    }
  }

  // From members to storage.

  /** The client through which cluster c backs g in the storage map, if it does. */
  function ClientFor(m: StorageMap, g: GVR, c: string): Option<Client> {
    var b := Lookup(m, GV(g.group, g.version), g.resource);
    if b.Some? && b.value.Plain? && c in b.value.clients then Some(b.value.clients[c]) else None
  }

  predicate Backs(m: StorageMap, g: GVR, c: string) {
    ClientFor(m, g, c).Some?
  }

  /** Each resource is served through the clients, as given, of the clusters its entry names, and nothing else is. */
  lemma ClientsAsGiven(m: StorageMap, v: seq<ServedResource>, clients: map<string, Client>, done: nat, g: GVR,
                       c: string)
    requires Exact(m, v, clients, done)
    ensures forall u :: u in v && u.gvr == g ==>
              ClientFor(m, g, c) == if c in u.clusters && c in clients then Some(clients[c]) else None
    ensures !Has(v, g) ==> !Backs(m, g, c)
    ensures Backs(m, g, c) ==> c in clients && ClientFor(m, g, c) == Some(clients[c])
  {
    var gv := GV(g.group, g.version);
    forall i | 0 <= i < |v| && v[i].gvr == g
      ensures Lookup(m, gv, g.resource) == Some(BackingOf(v[i], clients, done))
    {
      assert Asks(v[i], gv, g.resource, clients, done) == Some(BackingOf(v[i], clients, done));
    }
    if Backs(m, g, c) {
      var i :| 0 <= i < |v| && Asks(v[i], gv, g.resource, clients, done).Some?;
      assert v[i] in v && v[i].gvr == g;
    }
  }

  lemma ClustersAreMembers(offers: Offers, v: seq<ServedResource>, u: ServedResource)
    requires IsUnion(offers, v) && u in v
    ensures u.clusters != [] && forall c :: c in u.clusters <==> c in offers && Has(offers[c], u.gvr)
  {
    forall c ensures c in u.clusters <==> c in offers && Has(offers[c], u.gvr) {
      assert c in u.clusters <==> multiset(u.clusters)[c] > 0;
      if c in offers { CountHas(offers[c], u.gvr); }
    }
    assert Has(v, u.gvr);
    var c :| c in offers && Has(offers[c], u.gvr);
    assert c in u.clusters;
  }

  lemma UnionInstallable(offers: Offers, v: seq<ServedResource>)
    requires IsUnion(offers, v) && PlainOffers(offers)
    ensures Installable(v)
  {
    forall i | 0 <= i < |v| ensures '/' !in v[i].gvr.resource {
      assert v[i] in v;
      assert Has(v, v[i].gvr);
      var c :| c in offers && Has(offers[c], v[i].gvr);
    }
  }

  ghost predicate PresentableOffers(offers: Offers) {
    forall c :: c in offers ==> Presentable(offers[c])
  }

  lemma UnionPresentable(offers: Offers, v: seq<ServedResource>)
    requires IsUnion(offers, v)
    ensures Presentable(v) <==> PresentableOffers(offers)
  {
    forall u | u in v ensures exists c, r :: c in offers && r in offers[c] && r.gvr == u.gvr && r.kind == u.kind {
      assert Has(v, u.gvr);
      var c :| c in offers && Has(offers[c], u.gvr);
      var r :| r in offers[c] && r.gvr == u.gvr;
      assert Agree(u, r);
    }
    forall c, r | c in offers && r in offers[c] ensures exists u :: u in v && r.gvr == u.gvr && r.kind == u.kind {
      assert Has(offers[c], r.gvr);
      assert Offered(offers, r.gvr);
      var u :| u in v && u.gvr == r.gvr;
      assert Agree(u, r);
    }
  }

  /** Installing a union never lacks a client and never has a resource without clusters. */
  lemma InstallCannotBlameMembers(offers: Offers, v: seq<ServedResource>, clients: map<string, Client>, p: Problem)
    requires IsUnion(offers, v) && offers.Keys <= clients.Keys && Blames(p, v, clients)
    ensures p.NoResourceName? || p.NoKind?
  {
    forall u | u in v ensures u.clusters != [] && forall c :: c in u.clusters ==> c in clients {
      ClustersAreMembers(offers, v, u);
    }
  }

  /** After a successful build, c backs g exactly when c offers g. */
  lemma BackedIffOffered(offers: Offers, v: seq<ServedResource>, clients: map<string, Client>, done: nat, m: StorageMap,
                         g: GVR, c: string)
    requires IsUnion(offers, v) && offers.Keys <= clients.Keys && Exact(m, v, clients, done)
    ensures Backs(m, g, c) <==> c in offers && Has(offers[c], g)
  {
    ClientsAsGiven(m, v, clients, done, g, c);
    if Has(v, g) {
      var u :| u in v && u.gvr == g;
      ClustersAreMembers(offers, v, u);
    } else {
      assert !Offered(offers, g);
    }
  }
}
