/** The observed state of one lattice: three stored maps, keyed by id. */
module LatticeState {
  import opened Wrappers
  import opened Collections

  type Id = string
  type Annotations = map<string, string>

  datatype ProviderStatus = Pending | Running | Failed

  datatype Provider = Provider(
    id: Id, name: string, issuer: string, reference: string,
    hosts: map<Id, ProviderStatus>)

  /** The entries of one component on one host. The program keeps a set whose elements are equal when
      their annotations are, which is a map from annotations to a count. */
  type Entries = map<Annotations, nat>

  datatype Component = Component(
    id: Id, name: string, issuer: string, reference: string,
    instances: map<Id, Entries>)

  /** What a host says about a provider; the provider's id is the key it is stored under. */
  datatype ProviderInfo = ProviderInfo(reference: string, annotations: Annotations)

  datatype Host = Host(
    id: Id, friendlyName: string, labels: map<string, string>,
    components: map<Id, nat>, providers: map<Id, ProviderInfo>,
    uptimeSeconds: nat, version: Option<string>, lastSeen: int)

  datatype Lattice = Lattice(
    hosts: map<Id, Host>, components: map<Id, Component>, providers: map<Id, Provider>)

  /** The stored count of component c on host h for annotations a, and 0 when nothing is stored. */
  function View(cs: map<Id, Component>, c: Id, h: Id, a: Annotations): nat {
    if c in cs && h in cs[c].instances && a in cs[c].instances[h] then cs[c].instances[h][a] else 0
  }

  ghost function HostCounts(instances: map<Id, Entries>): map<Id, nat> {
    map h | h in instances :: Sum(instances[h])
  }

  /** Component::count */
  ghost function Count(component: Component): nat {
    Sum(HostCounts(component.instances))
  }

  /** Component::count_for_host */
  ghost function CountForHost(component: Component, h: Id): nat {
    if h in component.instances then Sum(component.instances[h]) else 0
  }

  /** Every record is stored under its own id. */
  ghost predicate KeyedById(l: Lattice) {
    && (forall h :: h in l.hosts ==> l.hosts[h].id == h)
    && (forall c :: c in l.components ==> l.components[c].id == c)
    && (forall p :: p in l.providers ==> l.providers[p].id == p)
  }

  ghost predicate ComponentLists(l: Lattice, c: Id, h: Id) {
    c in l.components && h in l.components[c].instances
  }

  ghost predicate HostListsComponent(l: Lattice, h: Id, c: Id) {
    h in l.hosts && c in l.hosts[h].components
  }

  ghost predicate ProviderLists(l: Lattice, p: Id, h: Id) {
    p in l.providers && h in l.providers[p].hosts
  }

  ghost predicate HostListsProvider(l: Lattice, h: Id, p: Id) {
    h in l.hosts && p in l.hosts[h].providers
  }

  /** For the hosts in s: whatever the host lists also lists the host. */
  ghost predicate ListedBack(l: Lattice, s: set<Id>) {
    && (forall h, c :: h in s && HostListsComponent(l, h, c) ==> ComponentLists(l, c, h))
    && (forall h, p :: h in s && HostListsProvider(l, h, p) ==> ProviderLists(l, p, h))
  }

  /** No component without instances, no host without entries, no provider without hosts. */
  ghost predicate NoEmptyRecords(l: Lattice) {
    && (forall c :: c in l.components ==> l.components[c].instances != map[])
    && (forall c, h :: ComponentLists(l, c, h) ==> l.components[c].instances[h] != map[])
    && (forall p :: p in l.providers ==> l.providers[p].hosts != map[])
  }

  ghost predicate Consistent(l: Lattice) {
    KeyedById(l) && ListedBack(l, l.hosts.Keys) && NoEmptyRecords(l)
  }

  ghost predicate HostsKeyed(l: Lattice) {
    forall h :: h in l.hosts ==> l.hosts[h].id == h
  }

  /** The provider's record lists a stored host whose own record does not list the provider. */
  ghost predicate Stale(l: Lattice, p: Id, h: Id) {
    h in l.hosts && ProviderLists(l, p, h) && !HostListsProvider(l, h, p)
  }
}
