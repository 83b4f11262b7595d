/** What every run of events and reap passes keeps about the three maps. */
module LatticeInvariants {
  import opened Wrappers
  import opened Collections
  import opened LatticeState
  import opened Events
  import opened LatticeSpec

  /** One atomic step of a lattice's state: an event handled at a time, or a reap pass. */
  datatype Action =
    | Handle(event: Event, now: int, claims: map<Id, Claims>)
    | Reap(now: int, interval: int)

  function Act(l: Lattice, a: Action): Lattice {
    match a
    case Handle(e, now, claims) => Step(l, e, now, claims)
    case Reap(now, interval) => AfterReap(l, now, interval)
  }

  function Run(l: Lattice, actions: seq<Action>): Lattice {
    if actions == [] then l else Act(Run(l, actions[..|actions| - 1]), actions[|actions| - 1])
  }

  /** The hosts whose record an action replaces with what the host itself reported. */
  function Reporters(a: Action): set<Id> {
    if a.Handle? && (a.event.HostHeartbeat? || a.event.HostStarted?) then {a.event.hostId} else {}
  }

  function AllReporters(actions: seq<Action>): set<Id> {
    if actions == [] then {} else AllReporters(actions[..|actions| - 1]) + Reporters(actions[|actions| - 1])
  }

  // ---------- heartbeats ----------

  lemma {:induction false} ReportedComponentsKeys(ds: seq<ComponentDescription>, c: Id)
    ensures c in ReportedComponents(ds) <==> exists i :: 0 <= i < |ds| && ds[i].id == c
  {
    if ds != [] {
      var n := |ds| - 1;
      ReportedComponentsKeys(ds[..n], c);
      forall i | 0 <= i < |ds| && ds[i].id == c ensures i == n || exists j :: 0 <= j < n && ds[..n][j].id == c {
        if i < n { assert ds[..n][i].id == c; }
      }
      if ds[n].id != c && c in ReportedComponents(ds[..n]) {
        var j :| 0 <= j < n && ds[..n][j].id == c;
        assert ds[j].id == c;
      }
    }
  }

  /** The description changes nothing: a heartbeat takes the stored component to be up to date. */
  predicate Skips(cs: map<Id, Component>, h: Id, d: ComponentDescription) {
    d.id in cs && UpToDate(cs[d.id], h, d)
  }

  /** The last description of component c that is not skipped. */
  function LastApplied(cs: map<Id, Component>, h: Id, ds: seq<ComponentDescription>, c: Id)
    : (r: Option<ComponentDescription>)
    ensures r.Some? ==> r.value in ds && r.value.id == c && !Skips(cs, h, r.value)
  {
    if ds == [] then None
    else
      var d := ds[|ds| - 1];
      if d.id == c && !Skips(cs, h, d) then Some(d) else LastApplied(cs, h, ds[..|ds| - 1], c)
  }

  lemma {:induction false} NoneApplied(cs: map<Id, Component>, h: Id, ds: seq<ComponentDescription>, c: Id, d: ComponentDescription)
    requires LastApplied(cs, h, ds, c).None? && d in ds && d.id == c
    ensures Skips(cs, h, d)
  {
    var front := ds[..|ds| - 1];
    assert ds == front + [ds[|ds| - 1]];
    if d in front { NoneApplied(cs, h, front, c, d); }
  }

  /** The component map after the updates of a heartbeat of h, key by key: the last description that is not
      skipped makes the record. */
  lemma {:induction false} ComponentAfterHeartbeat(cs: map<Id, Component>, claims: map<Id, Claims>, h: Id,
                                                   ds: seq<ComponentDescription>, c: Id)
    ensures var cs' := PutAll(cs, ComponentUpdates(cs, claims, h, ds));
      var d := LastApplied(cs, h, ds, c);
      && (c in cs' <==> c in cs || d.Some?)
      && (d.Some? ==> cs'[c] == DescribedComponent(cs, claims, h, d.value))
      && (d.None? && c in cs ==> cs'[c] == cs[c])
  {
    if ds != [] {
      var n := |ds| - 1;
      ComponentAfterHeartbeat(cs, claims, h, ds[..n], c);
      var before, updates := ComponentUpdates(cs, claims, h, ds[..n]), ComponentUpdates(cs, claims, h, ds);
      if updates != before { assert updates[..|updates| - 1] == before; }
    }
  }

  lemma DescribedHere(cs: map<Id, Component>, claims: map<Id, Claims>, h: Id, d: ComponentDescription)
    ensures var r, entry := DescribedComponent(cs, claims, h, d), map[d.annotations.GetOr(map[]) := d.maxInstances];
      && h in r.instances && r.instances[h] == entry && entry != map[]
      && (d.id in cs ==> r.instances == cs[d.id].instances[h := entry])
      && (d.id !in cs ==> r.instances.Keys == {h})
  {
    assert d.annotations.GetOr(map[]) in map[d.annotations.GetOr(map[]) := d.maxInstances];
  }

  /** The component map after a heartbeat of h, key by key. */
  lemma HeartbeatComponents(l: Lattice, e: Event, now: int, claims: map<Id, Claims>, c: Id)
    requires e.HostHeartbeat?
    ensures var cs' := AfterHeartbeat(l, e, now, claims).components;
      && (c in cs' <==> c in l.components || c in ReportedComponents(e.components))
      && (c in l.components ==>
            && cs'[c].id == l.components[c].id
            && (cs'[c].instances == l.components[c].instances
                || (e.hostId in cs'[c].instances && cs'[c].instances[e.hostId] != map[]
                    && cs'[c].instances == l.components[c].instances[e.hostId := cs'[c].instances[e.hostId]])))
      && (c in cs' && c !in l.components ==>
            && cs'[c].id == c && cs'[c].instances.Keys == {e.hostId} && cs'[c].instances[e.hostId] != map[])
      && (c in ReportedComponents(e.components) ==> e.hostId in cs'[c].instances)
  {
    ComponentAfterHeartbeat(l.components, claims, e.hostId, e.components, c);
    ReportedComponentsKeys(e.components, c);
    if c in ReportedComponents(e.components) && LastApplied(l.components, e.hostId, e.components, c).None? {
      var i :| 0 <= i < |e.components| && e.components[i].id == c;
      NoneApplied(l.components, e.hostId, e.components, c, e.components[i]);
    }
    var d := LastApplied(l.components, e.hostId, e.components, c);
    if d.Some? { DescribedHere(l.components, claims, e.hostId, d.value); }
  }

  /** The last description of provider p. */
  function LastDescription(ds: seq<ProviderDescription>, p: Id): Option<ProviderDescription> {
    if ds == [] then None
    else if ds[|ds| - 1].id == p then Some(ds[|ds| - 1])
    else LastDescription(ds[..|ds| - 1], p)
  }

  lemma {:induction false} ReportedProvidersKeys(ds: seq<ProviderDescription>, p: Id)
    ensures p in ReportedProviders(ds) <==> LastDescription(ds, p).Some?
  {
    if ds != [] { ReportedProvidersKeys(ds[..|ds| - 1], p); }
  }

  /** The provider map after a heartbeat of h, key by key: the last description fills the record. */
  lemma {:induction false} ProviderAfterHeartbeat(ps: map<Id, Provider>, h: Id, ds: seq<ProviderDescription>, p: Id)
    ensures var ps' := PutAll(ps, ProviderUpdates(ps, h, ds));
      var d := LastDescription(ds, p);
      && (p in ps' <==> p in ps || d.Some?)
      && (p in ps ==> ps'[p] == (if d.None? then ps[p] else FilledProvider(ps[p], d.value, h)))
      && (p !in ps && d.Some? ==> ps'[p] == NewProvider(d.value, h))
    ensures LastDescription(ds, p).Some? ==> LastDescription(ds, p).value.id == p
  {
    if ds != [] {
      var n := |ds| - 1;
      ProviderAfterHeartbeat(ps, h, ds[..n], p);
      var before, updates := ProviderUpdates(ps, h, ds[..n]), ProviderUpdates(ps, h, ds);
      if updates != before { assert updates[..|updates| - 1] == before; }
    }
  }

  lemma HeartbeatProviders(l: Lattice, e: Event, now: int, claims: map<Id, Claims>, p: Id)
    requires e.HostHeartbeat?
    ensures var ps' := AfterHeartbeat(l, e, now, claims).providers;
      && (p in ps' <==> p in l.providers || p in ReportedProviders(e.providers))
      && (p in l.providers ==> ps'[p].id == l.providers[p].id && l.providers[p].hosts.Keys <= ps'[p].hosts.Keys)
      && (p in ps' && p !in l.providers ==> ps'[p].id == p)
      && (p in ReportedProviders(e.providers) ==> e.hostId in ps'[p].hosts)
  {
    ReportedProvidersKeys(e.providers, p);
    ProviderAfterHeartbeat(l.providers, e.hostId, e.providers, p);
  }

  lemma HeartbeatKeeps(l: Lattice, e: Event, now: int, claims: map<Id, Claims>, s: set<Id>)
    requires e.HostHeartbeat? && KeyedById(l)
    ensures var l' := AfterHeartbeat(l, e, now, claims);
      && KeyedById(l')
      && (ListedBack(l, s) ==> ListedBack(l', s + {e.hostId}))
  {
    var l' := AfterHeartbeat(l, e, now, claims);
    forall c { HeartbeatComponents(l, e, now, claims, c); }
    forall p { HeartbeatProviders(l, e, now, claims, p); }
    forall h, c | ListedBack(l, s) && h in s + {e.hostId} && HostListsComponent(l', h, c)
      ensures ComponentLists(l', c, h)
    {
      if h != e.hostId { assert HostListsComponent(l, h, c) && ComponentLists(l, c, h); }
    }
    forall h, p | ListedBack(l, s) && h in s + {e.hostId} && HostListsProvider(l', h, p)
      ensures ProviderLists(l', p, h)
    {
      if h != e.hostId { assert HostListsProvider(l, h, p) && ProviderLists(l, p, h); }
    }
  }

  lemma HeartbeatKeepsNonEmpty(l: Lattice, e: Event, now: int, claims: map<Id, Claims>)
    requires e.HostHeartbeat? && NoEmptyRecords(l)
    ensures NoEmptyRecords(AfterHeartbeat(l, e, now, claims))
  {
    var l' := AfterHeartbeat(l, e, now, claims);
    forall c | c in l'.components ensures l'.components[c].instances != map[] {
      HeartbeatComponents(l, e, now, claims, c);
    }
    forall c, h | ComponentLists(l', c, h) ensures l'.components[c].instances[h] != map[] {
      HeartbeatComponents(l, e, now, claims, c);
      if c in l.components && h in l.components[c].instances { assert ComponentLists(l, c, h); }
    }
    forall p | p in l'.providers ensures l'.providers[p].hosts != map[] {
      HeartbeatProviders(l, e, now, claims, p);
      if p in l.providers {
        var h :| h in l.providers[p].hosts;
        assert h in l'.providers[p].hosts;
      } else {
        assert e.hostId in l'.providers[p].hosts;
      }
    }
  }

  // ---------- the other events ----------

  lemma ScaledKeeps(l: Lattice, e: Event, s: set<Id>)
    requires e.ComponentScaled? && KeyedById(l)
    ensures var l' := AfterScaled(l, e);
      && KeyedById(l')
      && (ListedBack(l, s) ==> ListedBack(l', s))
  {
    var l' := AfterScaled(l, e);
    forall h, c | ListedBack(l, s) && h in s && HostListsComponent(l', h, c)
      ensures ComponentLists(l', c, h)
    {
      if h != e.hostId || c != e.componentId {
        assert HostListsComponent(l, h, c) && ComponentLists(l, c, h);
      }
      if c == e.componentId { assert h in ScaledRecord(l.components, e).instances; }
    }
    forall h, p | ListedBack(l, s) && h in s && HostListsProvider(l', h, p)
      ensures ProviderLists(l', p, h)
    {
      assert HostListsProvider(l, h, p);
    }
  }

  lemma ScaledKeepsNonEmpty(l: Lattice, e: Event)
    requires e.ComponentScaled? && NoEmptyRecords(l)
    ensures NoEmptyRecords(AfterScaled(l, e))
  {
    var l' := AfterScaled(l, e);
    forall c, h | ComponentLists(l', c, h) ensures l'.components[c].instances[h] != map[] {
      if c == e.componentId && h == e.hostId {
        if e.maxInstances > 0 || c !in l.components { assert e.annotations in l'.components[c].instances[h]; }
      } else {
        assert ComponentLists(l, c, h);
      }
    }
  }

  lemma HostStartedKeeps(l: Lattice, e: Event, now: int, s: set<Id>)
    requires e.HostStarted? && KeyedById(l)
    ensures var l' := AfterHostStarted(l, e, now);
      && KeyedById(l')
      && (ListedBack(l, s) ==> ListedBack(l', s + {e.hostId}))
  {
    var l' := AfterHostStarted(l, e, now);
    forall h, c | ListedBack(l, s) && h in s + {e.hostId} && HostListsComponent(l', h, c)
      ensures ComponentLists(l', c, h)
    {
      assert HostListsComponent(l, h, c);
    }
    forall h, p | ListedBack(l, s) && h in s + {e.hostId} && HostListsProvider(l', h, p)
      ensures ProviderLists(l', p, h)
    {
      assert HostListsProvider(l, h, p);
    }
  }

  ghost predicate StopEmpties(l: Lattice, h: Id, c: Id) {
    && h in l.hosts && c in l.components
    && c in l.hosts[h].components && l.components[c].instances - {l.hosts[h].id} == map[]
  }

  ghost predicate StopEmptiesProvider(l: Lattice, h: Id, p: Id) {
    && h in l.hosts && p in l.providers
    && p in l.hosts[h].providers && h in l.providers[p].hosts && l.providers[p].hosts - {h} == map[]
  }

  /** The state after a host stop, key by key: what the host listed loses the host, and goes when the
      host was its last one. */
  lemma HostStoppedAt(l: Lattice, h: Id, k: Id)
    requires h in l.hosts
    ensures var l' := HostStopWrites(l, h, 5);
      && l'.hosts == l.hosts - {h}
      && (k in l'.components <==> (k in l.components && !StopEmpties(l, h, k)))
      && (k in l'.providers <==> (k in l.providers && !StopEmptiesProvider(l, h, k)))
      && (k in l'.components ==>
            l'.components[k] == (if k in l.hosts[h].components
                                 then l.components[k].(instances := l.components[k].instances - {l.hosts[h].id})
                                 else l.components[k]))
      && (k in l'.providers ==>
            l'.providers[k] == (if k in l.hosts[h].providers && h in l.providers[k].hosts
                                then l.providers[k].(hosts := l.providers[k].hosts - {h})
                                else l.providers[k]))
  {
  }

  lemma HostStoppedKeeps(l: Lattice, h0: Id, s: set<Id>)
    requires KeyedById(l)
    ensures var l' := HostStopWrites(l, h0, 5);
      && KeyedById(l')
      && (ListedBack(l, s) ==> ListedBack(l', s))
  {
    var l' := HostStopWrites(l, h0, 5);
    if h0 in l.hosts {
      forall k { HostStoppedAt(l, h0, k); }
      forall h, c | ListedBack(l, s) && h in s && HostListsComponent(l', h, c)
        ensures ComponentLists(l', c, h)
      {
        assert HostListsComponent(l, h, c) && ComponentLists(l, c, h);
        if c in l.hosts[h0].components { assert h in l.components[c].instances - {h0}; }
      }
      forall h, p | ListedBack(l, s) && h in s && HostListsProvider(l', h, p)
        ensures ProviderLists(l', p, h)
      {
        assert HostListsProvider(l, h, p) && ProviderLists(l, p, h);
        if p in l.hosts[h0].providers { assert h in l.providers[p].hosts - {h0}; }
      }
      }
  }

  lemma ProviderStartedKeeps(l: Lattice, e: Event, s: set<Id>)
    requires e.ProviderStarted? && KeyedById(l)
    ensures var l' := AfterProviderStarted(l, e);
      && KeyedById(l')
      && (ListedBack(l, s) ==> ListedBack(l', s))
  {
    var l' := AfterProviderStarted(l, e);
    forall h, c | ListedBack(l, s) && h in s && HostListsComponent(l', h, c)
      ensures ComponentLists(l', c, h)
    {
      assert HostListsComponent(l, h, c);
    }
    forall h, p | ListedBack(l, s) && h in s && HostListsProvider(l', h, p)
      ensures ProviderLists(l', p, h)
    {
      if h != e.hostId || p != e.providerId { assert HostListsProvider(l, h, p) && ProviderLists(l, p, h); }
    }
  }

  lemma ProviderStoppedKeeps(l: Lattice, e: Event, s: set<Id>)
    requires e.ProviderStopped? && KeyedById(l)
    ensures var l' := AfterProviderStopped(l, e);
      && KeyedById(l')
      && (ListedBack(l, s) ==> ListedBack(l', s))
  {
    var l' := AfterProviderStopped(l, e);
    forall h, c | ListedBack(l, s) && h in s && HostListsComponent(l', h, c)
      ensures ComponentLists(l', c, h)
    {
      assert HostListsComponent(l, h, c);
    }
    forall h, p | ListedBack(l, s) && h in s && HostListsProvider(l', h, p)
      ensures ProviderLists(l', p, h)
    {
      assert HostListsProvider(l, h, p) && ProviderLists(l, p, h);
      if h != e.hostId { assert h in l.providers[p].hosts - {e.hostId}; }
    }
  }

  lemma HealthCheckKeeps(l: Lattice, provider: Id, host: Id, failed: Option<bool>, s: set<Id>)
    requires KeyedById(l)
    ensures var l' := AfterHealthCheck(l, provider, host, failed);
      && KeyedById(l')
      && (ListedBack(l, s) ==> ListedBack(l', s))
  {
    var l' := AfterHealthCheck(l, provider, host, failed);
    forall h, c | ListedBack(l, s) && h in s && HostListsComponent(l', h, c)
      ensures ComponentLists(l', c, h)
    {
      assert HostListsComponent(l, h, c);
    }
    forall h, p | ListedBack(l, s) && h in s && HostListsProvider(l', h, p)
      ensures ProviderLists(l', p, h)
    {
      assert HostListsProvider(l, h, p) && ProviderLists(l, p, h);
    }
  }

  lemma ReapKeeps(l: Lattice, now: int, interval: int, s: set<Id>)
    requires KeyedById(l)
    ensures var l' := AfterReap(l, now, interval);
      && KeyedById(l')
      && (ListedBack(l, s) ==> ListedBack(l', s))
  {
    var l' := AfterReap(l, now, interval);
    forall h, c | ListedBack(l, s) && h in s && HostListsComponent(l', h, c)
      ensures ComponentLists(l', c, h)
    {
      assert HostListsComponent(l, h, c) && ComponentLists(l, c, h);
      assert h in ReapedComponent(l.components[c], l'.hosts).instances;
    }
    forall h, p | ListedBack(l, s) && h in s && HostListsProvider(l', h, p)
      ensures ProviderLists(l', p, h)
    {
      assert HostListsProvider(l, h, p) && ProviderLists(l, p, h);
      assert h in ReapedProvider(l.providers[p], l'.hosts).hosts;
    }
  }

  lemma ProviderEventsKeepNonEmpty(l: Lattice, provider: Id, h: Id, r: Provider, l': Lattice)
    requires NoEmptyRecords(l) && h in r.hosts
    requires l'.components == l.components && l'.providers == l.providers[provider := r]
    ensures NoEmptyRecords(l')
  {
    forall c, h | ComponentLists(l', c, h) ensures l'.components[c].instances[h] != map[] {
      assert ComponentLists(l, c, h);
    }
  }

  lemma ProviderStartedKeepsNonEmpty(l: Lattice, e: Event)
    requires e.ProviderStarted? && NoEmptyRecords(l)
    ensures NoEmptyRecords(AfterProviderStarted(l, e))
  {
    ProviderEventsKeepNonEmpty(l, e.providerId, e.hostId, StartedProvider(l.providers, e), AfterProviderStarted(l, e));
  }

  lemma HealthCheckKeepsNonEmpty(l: Lattice, provider: Id, h: Id, failed: Option<bool>)
    requires NoEmptyRecords(l)
    ensures NoEmptyRecords(AfterHealthCheck(l, provider, h, failed))
  {
    var l' := AfterHealthCheck(l, provider, h, failed);
    ProviderEventsKeepNonEmpty(l, provider, h, l'.providers[provider], l');
  }

  lemma HostStoppedKeepsNonEmpty(l: Lattice, h0: Id)
    requires NoEmptyRecords(l)
    ensures NoEmptyRecords(HostStopWrites(l, h0, 5))
  {
    var l' := HostStopWrites(l, h0, 5);
    if h0 in l.hosts {
      forall k { HostStoppedAt(l, h0, k); }
      forall c, h | ComponentLists(l', c, h) ensures l'.components[c].instances[h] != map[] {
        assert ComponentLists(l, c, h);
      }
    }
  }

  lemma RemovalsKeepNonEmpty(l: Lattice, a: Action)
    requires NoEmptyRecords(l)
    requires a.Reap? || a.event.ProviderStopped? || a.event.HostStarted?
    ensures NoEmptyRecords(Act(l, a))
  {
    var l' := Act(l, a);
    forall c, h | ComponentLists(l', c, h) ensures l'.components[c].instances[h] != map[] {
      assert ComponentLists(l, c, h);
    }
  }

  // ---------- runs ----------

  lemma ActKeepsLists(l: Lattice, a: Action, s: set<Id>)
    requires KeyedById(l)
    ensures KeyedById(Act(l, a))
    ensures ListedBack(l, s) ==> ListedBack(Act(l, a), s + Reporters(a))
  {
    match a
    case Reap(now, interval) =>
      ReapKeeps(l, now, interval, s);
    case Handle(e, now, claims) =>
      match e {
        case ComponentScaled(_, _, _, _, _, _) => ScaledKeeps(l, e, s);
        case HostHeartbeat(_, _, _, _, _, _, _) => HeartbeatKeeps(l, e, now, claims, s);
        case HostStarted(_, _, _) => HostStartedKeeps(l, e, now, s);
        case HostStopped(_, _) => HostStoppedKeeps(l, e.hostId, s);
        case ProviderStarted(_, _, _, _, _) => ProviderStartedKeeps(l, e, s);
        case ProviderStopped(_, _) => ProviderStoppedKeeps(l, e, s);
        case ProviderHealthCheckStatus(p, h) => HealthCheckKeeps(l, p, h, None, s);
        case ProviderHealthCheckPassed(p, h) => HealthCheckKeeps(l, p, h, Some(false), s);
        case ProviderHealthCheckFailed(p, h) => HealthCheckKeeps(l, p, h, Some(true), s);
        case _ =>
      }
      assert s + {} == s;
  }

  lemma ActKeepsNonEmpty(l: Lattice, a: Action)
    requires NoEmptyRecords(l)
    ensures NoEmptyRecords(Act(l, a))
  {
    match a
    case Reap(_, _) =>
      RemovalsKeepNonEmpty(l, a);
    case Handle(e, now, claims) =>
      match e {
        case ComponentScaled(_, _, _, _, _, _) => ScaledKeepsNonEmpty(l, e);
        case HostHeartbeat(_, _, _, _, _, _, _) => HeartbeatKeepsNonEmpty(l, e, now, claims);
        case HostStarted(_, _, _) => RemovalsKeepNonEmpty(l, a);
        case HostStopped(_, _) => HostStoppedKeepsNonEmpty(l, e.hostId);
        case ProviderStarted(_, _, _, _, _) => ProviderStartedKeepsNonEmpty(l, e);
        case ProviderStopped(_, _) => RemovalsKeepNonEmpty(l, a);
        case ProviderHealthCheckStatus(p, h) => HealthCheckKeepsNonEmpty(l, p, h, None);
        case ProviderHealthCheckPassed(p, h) => HealthCheckKeepsNonEmpty(l, p, h, Some(false));
        case ProviderHealthCheckFailed(p, h) => HealthCheckKeepsNonEmpty(l, p, h, Some(true));
        case _ =>
      }
  }

  lemma ActKeepsHosts(l: Lattice, a: Action)
    requires KeyedById(l)
    ensures Act(l, a).hosts.Keys <= l.hosts.Keys + Reporters(a)
  {
  }

  /** From any store keyed by id: the hosts that reported during the run are listed back. */
  lemma {:induction false} RunListsBack(l: Lattice, actions: seq<Action>)
    requires KeyedById(l)
    ensures KeyedById(Run(l, actions)) && ListedBack(Run(l, actions), AllReporters(actions))
  {
    if actions != [] {
      var n := |actions| - 1;
      RunListsBack(l, actions[..n]);
      ActKeepsLists(Run(l, actions[..n]), actions[n], AllReporters(actions[..n]));
    }
  }

  /** Every run keeps the indexes consistent. */
  lemma {:induction false} RunKeepsConsistent(l: Lattice, actions: seq<Action>)
    requires Consistent(l)
    ensures Consistent(Run(l, actions))
  {
    if actions != [] {
      var n := |actions| - 1;
      var before := Run(l, actions[..n]);
      RunKeepsConsistent(l, actions[..n]);
      ActKeepsLists(before, actions[n], before.hosts.Keys);
      ActKeepsNonEmpty(before, actions[n]);
      ActKeepsHosts(before, actions[n]);
    }
  }

  /** After a reap pass both directions agree for components, and every provider host is stored. */
  ghost predicate Reaped(l: Lattice) {
    && (forall c, h :: ComponentLists(l, c, h) <==> HostListsComponent(l, h, c))
    && (forall p, h :: ProviderLists(l, p, h) ==> h in l.hosts)
    && (forall h, p :: HostListsProvider(l, h, p) ==> ProviderLists(l, p, h))
  }

  lemma ReapEstablishes(l: Lattice, now: int, interval: int)
    requires KeyedById(l) && ListedBack(l, AfterReap(l, now, interval).hosts.Keys)
    ensures Reaped(AfterReap(l, now, interval))
  {
    var l' := AfterReap(l, now, interval);
    ReapKeeps(l, now, interval, l'.hosts.Keys);
    forall c, h | ComponentLists(l', c, h) ensures HostListsComponent(l', h, c) {
      assert ComponentLists(l, c, h) && l.components[c].id == c;
    }
  }

  /** Every reap pass of every run from a consistent store. */
  lemma RunThenReap(l: Lattice, actions: seq<Action>, now: int, interval: int)
    requires Consistent(l)
    ensures Consistent(Run(l, actions + [Reap(now, interval)])) && Reaped(Run(l, actions + [Reap(now, interval)]))
  {
    var all := actions + [Reap(now, interval)];
    assert all[..|all| - 1] == actions;
    RunKeepsConsistent(l, actions);
    RunKeepsConsistent(l, all);
    var l1 := Run(l, actions);
    assert ListedBack(l1, AfterReap(l1, now, interval).hosts.Keys);
    ReapEstablishes(l1, now, interval);
  }
}
