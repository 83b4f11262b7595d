/** What each event does to the observed state, one function an event. The time of the step and the
    claims known to the lattice controller are arguments. */
module LatticeSpec {
  import opened Wrappers
  import opened Collections
  import opened LatticeState
  import opened Events

  // ---------- component_scaled ----------

  /** The instances with the entry (h, a) set to n; an entry scaled to 0 goes, and so does a host left
      without entries. */
  function SetEntry(instances: map<Id, Entries>, h: Id, a: Annotations, n: nat): (r: map<Id, Entries>) {
    if n > 0 then
      instances[h := (if h in instances then instances[h] else map[])[a := n]]
    else if h in instances && instances[h] - {a} != map[] then
      instances[h := instances[h] - {a}]
    else
      instances - {h}
  }

  function ClaimName(claims: Option<Claims>): string {
    if claims.Some? then claims.value.name else ""
  }

  function ClaimIssuer(claims: Option<Claims>): string {
    if claims.Some? then claims.value.issuer else ""
  }

  /** The component record after the event: all but the instances come from the event, and a component
      that was not stored gets the event's entry even when its count is 0. */
  function ScaledRecord(cs: map<Id, Component>, e: Event): Component
    requires e.ComponentScaled?
  {
    Component(e.componentId, ClaimName(e.claims), ClaimIssuer(e.claims), e.imageRef,
              if e.componentId in cs then SetEntry(cs[e.componentId].instances, e.hostId, e.annotations, e.maxInstances)
              else map[e.hostId := map[e.annotations := e.maxInstances]])
  }

  function AfterScaled(l: Lattice, e: Event): Lattice
    requires e.ComponentScaled?
  {
    var record := ScaledRecord(l.components, e);
    l.(hosts := if e.hostId !in l.hosts then l.hosts else
         var host := l.hosts[e.hostId];
         l.hosts[host.id := host.(components :=
           if e.maxInstances == 0 then host.components - {e.componentId}
           else host.components[e.componentId := e.maxInstances])],
       components := if record.instances == map[] then l.components - {e.componentId}
         else l.components[e.componentId := record])
  }

  // ---------- host_heartbeat ----------

  /** A later description of the same component replaces an earlier one. */
  function ReportedComponents(ds: seq<ComponentDescription>): map<Id, nat> {
    if ds == [] then map[]
    else
      var d := ds[|ds| - 1];
      ReportedComponents(ds[..|ds| - 1])[d.id := d.maxInstances]
  }

  /** Collected into a set, so the first description of a provider stays. */
  function ReportedProviders(ds: seq<ProviderDescription>): map<Id, ProviderInfo> {
    if ds == [] then map[]
    else
      var d := ds[|ds| - 1];
      var before := ReportedProviders(ds[..|ds| - 1]);
      if d.id in before then before
      else before[d.id := ProviderInfo(d.imageRef.GetOr(""), d.annotations.GetOr(map[]))]
  }

  function ReportedHost(e: Event, now: int): Host
    requires e.HostHeartbeat?
  {
    Host(e.hostId, e.friendlyName, e.labels, ReportedComponents(e.components), ReportedProviders(e.providers),
         e.uptimeSeconds, Some(e.hostVersion), now)
  }

  function NewProvider(d: ProviderDescription, h: Id): Provider {
    Provider(d.id, d.name.GetOr(""), "", d.imageRef.GetOr(""), map[h := Pending])
  }

  /** A stored provider gets its missing name, reference and host. */
  function FilledProvider(p: Provider, d: ProviderDescription, h: Id): Provider {
    p.(name := if p.name == "" then d.name.GetOr("") else p.name,
       reference := if p.reference == "" then d.imageRef.GetOr("") else p.reference,
       hosts := if h in p.hosts then p.hosts else p.hosts[h := Pending])
  }

  predicate Complete(p: Provider, h: Id) {
    p.name != "" && p.reference != "" && h in p.hosts
  }

  function ProviderUpdates(ps: map<Id, Provider>, h: Id, ds: seq<ProviderDescription>): seq<(Id, Provider)> {
    if ds == [] then []
    else
      var d := ds[|ds| - 1];
      var before := ProviderUpdates(ps, h, ds[..|ds| - 1]);
      if d.id !in ps then before + [(d.id, NewProvider(d, h))]
      else if Complete(ps[d.id], h) then before
      else before + [(d.id, FilledProvider(ps[d.id], d, h))]
  }

  /** The comparison a heartbeat uses to skip a component. It compares the number of entries on this
      host with the number of hosts of the component. */
  predicate UpToDate(c: Component, h: Id, d: ComponentDescription) {
    && d.imageRef == c.reference
    && h in c.instances
    && |c.instances[h]| == |c.instances|
    && d.annotations.GetOr(map[]) in c.instances[h]
    && c.instances[h][d.annotations.GetOr(map[])] == d.maxInstances
  }

  function DescribedComponent(cs: map<Id, Component>, claims: map<Id, Claims>, h: Id,
                              d: ComponentDescription): Component
  {
    var entries := map[d.annotations.GetOr(map[]) := d.maxInstances];
    if d.id in cs then
      cs[d.id].(instances := cs[d.id].instances[h := entries], reference := d.imageRef,
                name := d.name.GetOr(cs[d.id].name))
    else if d.id in claims then
      Component(d.id, claims[d.id].name, claims[d.id].issuer, d.imageRef, map[h := entries])
    else
      Component(d.id, "", "", d.imageRef, map[h := entries])
  }

  function ComponentUpdates(cs: map<Id, Component>, claims: map<Id, Claims>, h: Id,
                            ds: seq<ComponentDescription>): seq<(Id, Component)>
  {
    if ds == [] then []
    else
      var d := ds[|ds| - 1];
      var before := ComponentUpdates(cs, claims, h, ds[..|ds| - 1]);
      if d.id in cs && UpToDate(cs[d.id], h, d) then before
      else before + [(d.id, DescribedComponent(cs, claims, h, d))]
  }

  function AfterHeartbeat(l: Lattice, e: Event, now: int, claims: map<Id, Claims>): Lattice
    requires e.HostHeartbeat?
  {
    Lattice(l.hosts[e.hostId := ReportedHost(e, now)],
            PutAll(l.components, ComponentUpdates(l.components, claims, e.hostId, e.components)),
            PutAll(l.providers, ProviderUpdates(l.providers, e.hostId, e.providers)))
  }

  // ---------- host_started, host_stopped ----------

  function AfterHostStarted(l: Lattice, e: Event, now: int): Lattice
    requires e.HostStarted?
  {
    l.(hosts := l.hosts[e.hostId := Host(e.hostId, e.friendlyName, e.labels, map[], map[], 0, None, now)])
  }

  /** The components that the stopping host lists, without that host. */
  function StoppedComponents(cs: map<Id, Component>, host: Host): map<Id, Component> {
    map c | c in cs && c in host.components :: cs[c].(instances := cs[c].instances - {host.id})
  }

  /** The providers that the stopping host lists and that list it, without that host. */
  function StoppedProviders(ps: map<Id, Provider>, host: Host, h: Id): map<Id, Provider> {
    map p | p in host.providers && p in ps && h in ps[p].hosts :: ps[p].(hosts := ps[p].hosts - {h})
  }

  function RunningComponents(cs: map<Id, Component>): map<Id, Component> {
    map c | c in cs && cs[c].instances != map[] :: cs[c]
  }

  function RunningProviders(ps: map<Id, Provider>): map<Id, Provider> {
    map p | p in ps && ps[p].hosts != map[] :: ps[p]
  }

  /** The component map after a host stop's first write, which stores the components that still run
      somewhere, and after its second, which deletes the others. */
  function StopComponents(cs: map<Id, Component>, host: Host, deleted: bool): map<Id, Component> {
    var stopped := StoppedComponents(cs, host);
    var running := RunningComponents(stopped);
    if deleted then (cs + running) - (stopped.Keys - running.Keys) else cs + running
  }

  /** The same for the third and fourth writes. */
  function StopProviders(ps: map<Id, Provider>, host: Host, h: Id, deleted: bool): map<Id, Provider> {
    var stopped := StoppedProviders(ps, host, h);
    var running := RunningProviders(stopped);
    if deleted then (ps + running) - (stopped.Keys - running.Keys) else ps + running
  }

  /** The state after the first k of the five writes that a host stop makes. */
  function HostStopWrites(l: Lattice, h: Id, k: nat): Lattice {
    if h !in l.hosts then l
    else
      var host := l.hosts[h];
      Lattice(if k >= 5 then l.hosts - {h} else l.hosts,
              if k >= 1 then StopComponents(l.components, host, k >= 2) else l.components,
              if k >= 3 then StopProviders(l.providers, host, h, k >= 4) else l.providers)
  }

  function AfterHostStopped(l: Lattice, e: Event): Lattice
    requires e.HostStopped?
  {
    HostStopWrites(l, e.hostId, 5)
  }

  // ---------- provider events ----------

  function StartedProvider(ps: map<Id, Provider>, e: Event): Provider
    requires e.ProviderStarted?
  {
    if e.providerId in ps then
      var p := ps[e.providerId];
      var unknown := p.issuer == "" || p.reference == "";
      p.(hosts := if e.hostId in p.hosts then p.hosts else p.hosts[e.hostId := Pending],
         issuer := if unknown then ClaimIssuer(e.claims) else p.issuer,
         reference := if unknown then e.imageRef else p.reference)
    else
      Provider(e.providerId, ClaimName(e.claims), ClaimIssuer(e.claims), e.imageRef, map[e.hostId := Pending])
  }

  /** The host record changes only when the provider did not list the host before. */
  function AfterProviderStarted(l: Lattice, e: Event): Lattice
    requires e.ProviderStarted?
  {
    l.(hosts :=
         if e.hostId !in l.hosts || (e.providerId in l.providers && e.hostId in l.providers[e.providerId].hosts)
         then l.hosts
         else
           var host := l.hosts[e.hostId];
           l.hosts[host.id := host.(providers :=
             host.providers[e.providerId := ProviderInfo(e.imageRef, e.annotations)])],
       providers := l.providers[e.providerId := StartedProvider(l.providers, e)])
  }

  function AfterProviderStopped(l: Lattice, e: Event): Lattice
    requires e.ProviderStopped?
  {
    l.(hosts :=
         if e.hostId !in l.hosts then l.hosts
         else
           var host := l.hosts[e.hostId];
           l.hosts[host.id := host.(providers := host.providers - {e.providerId})],
       providers :=
         if e.providerId !in l.providers || e.hostId !in l.providers[e.providerId].hosts then l.providers
         else
           var p := l.providers[e.providerId];
           if p.hosts - {e.hostId} == map[] then l.providers - {e.providerId}
           else l.providers[e.providerId := p.(hosts := p.hosts - {e.hostId})])
  }

  /** A plain status check promotes a pending or unseen provider to running and changes nothing else. */
  function CheckedStatus(hosts: map<Id, ProviderStatus>, h: Id, failed: Option<bool>): map<Id, ProviderStatus> {
    if failed == Some(true) then hosts[h := Failed]
    else if failed == Some(false) || h !in hosts || hosts[h] == Pending then hosts[h := Running]
    else hosts
  }

  function AfterHealthCheck(l: Lattice, provider: Id, h: Id, failed: Option<bool>): Lattice {
    var p := if provider in l.providers then l.providers[provider] else Provider(provider, "", "", "", map[]);
    l.(providers := l.providers[provider := p.(hosts := CheckedStatus(p.hosts, h, failed))])
  }

  // ---------- every event ----------

  function Step(l: Lattice, e: Event, now: int, claims: map<Id, Claims>): Lattice {
    match e
    case ComponentScaled(_, _, _, _, _, _) => AfterScaled(l, e)
    case HostHeartbeat(_, _, _, _, _, _, _) => AfterHeartbeat(l, e, now, claims)
    case HostStarted(_, _, _) => AfterHostStarted(l, e, now)
    case HostStopped(_, _) => AfterHostStopped(l, e)
    case ProviderStarted(_, _, _, _, _) => AfterProviderStarted(l, e)
    case ProviderStopped(_, _) => AfterProviderStopped(l, e)
    case ProviderHealthCheckStatus(p, h) => AfterHealthCheck(l, p, h, None)
    case ProviderHealthCheckPassed(p, h) => AfterHealthCheck(l, p, h, Some(false))
    case ProviderHealthCheckFailed(p, h) => AfterHealthCheck(l, p, h, Some(true))
    case _ => l
  }

  // ---------- the reaper ----------

  function AfterReapHosts(l: Lattice, now: int, interval: int): Lattice {
    l.(hosts := map h | h in l.hosts && now - l.hosts[h].lastSeen <= interval * 2 :: l.hosts[h])
  }

  /** Keeps the instances whose host is stored and lists the component. */
  function ReapedComponent(c: Component, hosts: map<Id, Host>): Component {
    c.(instances := map h | h in c.instances && h in hosts && c.id in hosts[h].components :: c.instances[h])
  }

  function ReapedComponents(cs: map<Id, Component>, hosts: map<Id, Host>): map<Id, Component> {
    RunningComponents(map c | c in cs :: ReapedComponent(cs[c], hosts))
  }

  function ReapedProvider(p: Provider, hosts: map<Id, Host>): Provider {
    p.(hosts := map h | h in p.hosts && h in hosts :: p.hosts[h])
  }

  /** A provider that loses no host is left alone, even one that has none. */
  function ReapedProviders(ps: map<Id, Provider>, hosts: map<Id, Host>): map<Id, Provider> {
    map p | p in ps && (ps[p].hosts == map[] || ReapedProvider(ps[p], hosts).hosts != map[]) ::
      ReapedProvider(ps[p], hosts)
  }

  function AfterReap(l: Lattice, now: int, interval: int): Lattice {
    var hosts := AfterReapHosts(l, now, interval).hosts;
    Lattice(hosts, ReapedComponents(l.components, hosts), ReapedProviders(l.providers, hosts))
  }
}
