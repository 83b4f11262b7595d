/** The event handlers, as they read, change and write back the three stored maps. */
module EventWorkers {
  import opened Wrappers
  import opened Collections
  import opened LatticeState
  import opened Events
  import opened LatticeSpec

  class EventWorker {
    var hosts: map<Id, Host>
    var components: map<Id, Component>
    var providers: map<Id, Provider>

    constructor ()
      ensures Snapshot() == Lattice(map[], map[], map[])
    {
      hosts, components, providers := map[], map[], map[];
    }

    function Snapshot(): Lattice
      reads this
    {
      Lattice(hosts, components, providers)
    }

    /** The in-place update of a stored component's instances. */
    static method ScaleInstances(stored: map<Id, Entries>, h: Id, a: Annotations, n: nat)
      returns (instances: map<Id, Entries>)
      ensures instances == SetEntry(stored, h, a, n)
    {
      instances := stored;
      if h in instances {
        var entries: Entries := instances[h];
        if n == 0 {
          entries := entries - {a};
        } else {
          entries := entries[a := n];
        }
        instances := instances[h := entries];
      } else if n != 0 {
        instances := instances[h := map[a := n]];
      }
      assert n != 0 ==> h in instances && a in instances[h];
      if h in instances && instances[h] == map[] {
        instances := instances - {h};
      }
      assert h !in instances ==> instances == stored - {h};
    }

    method HandleComponentScaled(e: Event)
      requires e.ComponentScaled?
      modifies this
      ensures Snapshot() == AfterScaled(old(Snapshot()), e)
    {
      var record := Component(e.componentId, ClaimName(e.claims), ClaimIssuer(e.claims), e.imageRef,
                              map[e.hostId := map[e.annotations := e.maxInstances]]);
      if e.componentId in components {
        var instances := ScaleInstances(components[e.componentId].instances, e.hostId, e.annotations, e.maxInstances);
        record := record.(instances := instances);
      }

      if e.hostId in hosts {
        var host := hosts[e.hostId];
        if e.maxInstances == 0 {
          host := host.(components := host.components - {e.componentId});
        } else {
          host := host.(components := host.components[e.componentId := e.maxInstances]);
        }
        hosts := hosts[host.id := host];
      }

      if record.instances == map[] {
        components := components - {e.componentId};
      } else {
        components := components[e.componentId := record];
      }
    }

    method HandleHostHeartbeat(e: Event, now: int, claims: map<Id, Claims>)
      requires e.HostHeartbeat?
      modifies this
      ensures Snapshot() == AfterHeartbeat(old(Snapshot()), e, now, claims)
    {
      hosts := hosts[e.hostId := ReportedHost(e, now)];
      HeartbeatProviderUpdate(e);
      HeartbeatComponentUpdate(e, claims);
    }

    method HeartbeatProviderUpdate(e: Event)
      requires e.HostHeartbeat?
      modifies this`providers
      ensures providers == PutAll(old(providers), ProviderUpdates(old(providers), e.hostId, e.providers))
    {
      var updates := [];
      for i := 0 to |e.providers|
        invariant updates == ProviderUpdates(providers, e.hostId, e.providers[..i])
      {
        assert e.providers[..i + 1][..i] == e.providers[..i];
        var info := e.providers[i];
        if info.id in providers {
          var prov, hasChanges := providers[info.id], false;
          if prov.name == "" {
            prov, hasChanges := prov.(name := info.name.GetOr("")), true;
          }
          if prov.reference == "" {
            prov, hasChanges := prov.(reference := info.imageRef.GetOr("")), true;
          }
          if e.hostId !in prov.hosts {
            prov, hasChanges := prov.(hosts := prov.hosts[e.hostId := Pending]), true;
          }
          if hasChanges {
            updates := updates + [(info.id, prov)];
          }
        } else {
          updates := updates + [(info.id, NewProvider(info, e.hostId))];
        }
      }
      assert e.providers[..|e.providers|] == e.providers;
      providers := PutAll(providers, updates);
    }

    method HeartbeatComponentUpdate(e: Event, claims: map<Id, Claims>)
      requires e.HostHeartbeat?
      modifies this`components
      ensures components == PutAll(old(components), ComponentUpdates(old(components), claims, e.hostId, e.components))
    {
      var updates := [];
      for i := 0 to |e.components|
        invariant updates == ComponentUpdates(components, claims, e.hostId, e.components[..i])
      {
        assert e.components[..i + 1][..i] == e.components[..i];
        var d := e.components[i];
        if d.id !in components || !UpToDate(components[d.id], e.hostId, d) {
          updates := updates + [(d.id, DescribedComponent(components, claims, e.hostId, d))];
        }
      }
      assert e.components[..|e.components|] == e.components;
      components := PutAll(components, updates);
    }

    method HandleHostStarted(e: Event, now: int)
      requires e.HostStarted?
      modifies this
      ensures Snapshot() == AfterHostStarted(old(Snapshot()), e, now)
    {
      hosts := hosts[e.hostId := Host(e.hostId, e.friendlyName, e.labels, map[], map[], 0, None, now)];
    }

    /** The store accepts the given number of writes and then fails, which ends the handler. */
    method HandleHostStopped(e: Event, writes: nat) returns (done: bool)
      requires e.HostStopped?
      modifies this
      ensures Snapshot() == HostStopWrites(old(Snapshot()), e.hostId, writes)
      ensures done <==> e.hostId !in old(hosts) || writes >= 5
    {
      if e.hostId !in hosts { return true; }
      RemoveFromComponents(hosts[e.hostId], writes);
      if writes < 2 { return false; }
      RemoveFromProviders(hosts[e.hostId], e.hostId, writes - 2);
      if writes < 5 { return false; }
      hosts := hosts - {e.hostId};
      return true;
    }

    /** The first two writes of a host stop. */
    method RemoveFromComponents(current: Host, writes: nat)
      modifies this`components
      ensures components == if writes >= 1 then StopComponents(old(components), current, writes >= 2) else old(components)
    {
      var stopped := map id | id in components && id in current.components ::
        components[id].(instances := components[id].instances - {current.id});
      var toUpdate := map id | id in stopped && stopped[id].instances != map[] :: stopped[id];
      if writes < 1 { return; }
      components := components + toUpdate;
      if writes < 2 { return; }
      components := components - (stopped.Keys - toUpdate.Keys);
    }

    /** Its third and fourth. */
    method RemoveFromProviders(current: Host, h: Id, writes: nat)
      modifies this`providers
      ensures providers == if writes >= 1 then StopProviders(old(providers), current, h, writes >= 2) else old(providers)
    {
      var stopped := map id | id in current.providers && id in providers && h in providers[id].hosts ::
        providers[id].(hosts := providers[id].hosts - {h});
      var toUpdate := map id | id in stopped && stopped[id].hosts != map[] :: stopped[id];
      if writes < 1 { return; }
      providers := providers + toUpdate;
      if writes < 2 { return; }
      providers := providers - (stopped.Keys - toUpdate.Keys);
    }

    method HandleProviderStarted(e: Event)
      requires e.ProviderStarted?
      modifies this
      ensures Snapshot() == AfterProviderStarted(old(Snapshot()), e)
    {
      var needsHostUpdate := false;
      var record;
      if e.providerId in providers {
        record := providers[e.providerId];
        if e.hostId !in record.hosts {
          record := record.(hosts := record.hosts[e.hostId := Pending]);
          needsHostUpdate := true;
        }
        if record.issuer == "" || record.reference == "" {
          record := record.(issuer := ClaimIssuer(e.claims), reference := e.imageRef);
        }
      } else {
        record := Provider(e.providerId, ClaimName(e.claims), ClaimIssuer(e.claims), e.imageRef,
                           map[e.hostId := Pending]);
        needsHostUpdate := true;
      }
      if e.hostId in hosts && needsHostUpdate {
        var host := hosts[e.hostId];
        host := host.(providers := host.providers[e.providerId := ProviderInfo(e.imageRef, e.annotations)]);
        hosts := hosts[host.id := host];
      }
      providers := providers[e.providerId := record];
    }

    method HandleProviderStopped(e: Event)
      requires e.ProviderStopped?
      modifies this
      ensures Snapshot() == AfterProviderStopped(old(Snapshot()), e)
    {
      if e.hostId in hosts {
        var host := hosts[e.hostId];
        host := host.(providers := host.providers - {e.providerId});
        hosts := hosts[host.id := host];
      }
      if e.providerId in providers {
        var current := providers[e.providerId];
        if e.hostId !in current.hosts { return; }
        current := current.(hosts := current.hosts - {e.hostId});
        if current.hosts == map[] {
          providers := providers - {e.providerId};
        } else {
          providers := providers[e.providerId := current];
        }
      }
    }

    method HandleProviderHealthCheck(provider: Id, host: Id, failed: Option<bool>)
      modifies this
      ensures Snapshot() == AfterHealthCheck(old(Snapshot()), provider, host, failed)
    {
      var current := Provider(provider, "", "", "", map[]);
      if provider in providers { current := providers[provider]; }
      var status := match failed
        case Some(true) => Some(Failed)
        case Some(false) => Some(Running)
        case None =>
          if host !in current.hosts || current.hosts[host] == Pending then Some(Running) else None;
      if status.Some? {
        current := current.(hosts := current.hosts[host := status.value]);
      }
      providers := providers[provider := current];
    }

    /** Dispatch on the event; the events about links, configuration and failures leave the state alone. */
    method DoWork(e: Event, now: int, claims: map<Id, Claims>)
      modifies this
      ensures Snapshot() == Step(old(Snapshot()), e, now, claims)
    {
      match e {
        case ComponentScaled(_, _, _, _, _, _) => HandleComponentScaled(e);
        case HostHeartbeat(_, _, _, _, _, _, _) => HandleHostHeartbeat(e, now, claims);
        case HostStarted(_, _, _) => HandleHostStarted(e, now);
        case HostStopped(_, _) => var _ := HandleHostStopped(e, 5);
        case ProviderStarted(_, _, _, _, _) => HandleProviderStarted(e);
        case ProviderStopped(_, _) => HandleProviderStopped(e);
        case ProviderHealthCheckStatus(p, h) => HandleProviderHealthCheck(p, h, None);
        case ProviderHealthCheckPassed(p, h) => HandleProviderHealthCheck(p, h, Some(false));
        case ProviderHealthCheckFailed(p, h) => HandleProviderHealthCheck(p, h, Some(true));
        case _ =>
      }
    }

    // ---------- the reaper's pass over the same store ----------

    method ReapHosts(now: int, interval: int)
      modifies this`hosts
      ensures hosts == AfterReapHosts(old(Snapshot()), now, interval).hosts
    {
      var toRemove := set id | id in hosts && now - hosts[id].lastSeen > interval * 2;
      hosts := hosts - toRemove;
    }

    method ReapComponents(live: map<Id, Host>)
      modifies this`components
      ensures components == ReapedComponents(old(components), live)
    {
      var reaped := map id | id in components :: ReapedComponent(components[id], live);
      var toUpdate := map id | id in reaped && reaped[id].instances != map[] :: reaped[id];
      components := components + toUpdate;
      components := components - (reaped.Keys - toUpdate.Keys);
    }

    method ReapProviders(live: map<Id, Host>)
      modifies this`providers
      ensures providers == ReapedProviders(old(providers), live)
    {
      var reaped := ChangedProviders(providers, live);
      var toUpdate := RunningProviders(reaped);
      ReapedWrites(providers, live);
      providers := providers + toUpdate;
      providers := providers - (reaped.Keys - toUpdate.Keys);
    }

    method Reap(now: int, interval: int)
      modifies this
      ensures Snapshot() == AfterReap(old(Snapshot()), now, interval)
    {
      ReapHosts(now, interval);
      ReapComponents(hosts);
      ReapProviders(hosts);
    }
  }

  /** The providers that lose a host in a reap pass: those whose number of hosts differs. */
  function ChangedProviders(ps: map<Id, Provider>, live: map<Id, Host>): map<Id, Provider> {
    map p | p in ps && |ReapedProvider(ps[p], live).hosts| != |ps[p].hosts| :: ReapedProvider(ps[p], live)
  }

  lemma ChangedProvidersAt(ps: map<Id, Provider>, live: map<Id, Host>, p: Id)
    ensures p in ps && p !in ChangedProviders(ps, live) ==> ReapedProvider(ps[p], live) == ps[p]
    ensures p in ChangedProviders(ps, live) ==> ps[p].hosts != map[]
  {
    if p in ps && p !in ChangedProviders(ps, live) { KeptAll(ps[p], live); }
    if p in ps && ps[p].hosts == map[] { assert ReapedProvider(ps[p], live).hosts == map[]; }
  }

  /** The two writes of a reap pass over the providers. */
  function ReapProviderWrites(ps: map<Id, Provider>, live: map<Id, Host>): map<Id, Provider> {
    var changed := ChangedProviders(ps, live);
    var kept := RunningProviders(changed);
    (ps + kept) - (changed.Keys - kept.Keys)
  }

  lemma ReapProviderWritesAt(ps: map<Id, Provider>, live: map<Id, Host>, p: Id)
    ensures p in ReapProviderWrites(ps, live) <==> p in ReapedProviders(ps, live)
    ensures p in ReapedProviders(ps, live) ==> ReapProviderWrites(ps, live)[p] == ReapedProviders(ps, live)[p]
  {
    ChangedProvidersAt(ps, live, p);
  }

  lemma ReapedWrites(ps: map<Id, Provider>, live: map<Id, Host>)
    ensures ReapProviderWrites(ps, live) == ReapedProviders(ps, live)
  {
    forall p { ReapProviderWritesAt(ps, live, p); }
  }

  /** Equal numbers of hosts mean that no host was dropped. */
  lemma KeptAll(p: Provider, live: map<Id, Host>)
    requires |ReapedProvider(p, live).hosts| == |p.hosts|
    ensures ReapedProvider(p, live) == p
  {
    var kept := ReapedProvider(p, live).hosts;
    assert kept.Keys <= p.hosts.Keys;
    if kept.Keys != p.hosts.Keys {
      var h :| h in p.hosts && h !in kept;
      SubsetSize(kept.Keys, p.hosts.Keys - {h});
    }
  }

  lemma {:induction false} SubsetSize<T>(a: set<T>, b: set<T>)
    requires a <= b
    ensures |a| <= |b|
  {
    if a != {} {
      var x :| x in a;
      SubsetSize(a - {x}, b - {x});
    }
  }
}
