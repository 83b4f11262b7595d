/** Each event and each reap pass, said of the fields that are stored: which records change, and to what. */
module EventEffects {
  import opened Wrappers
  import opened LatticeState
  import opened Events
  import opened LatticeSpec
  import opened LatticeInvariants

  /** The records of one host, component or provider before and after. */
  ghost predicate SameHostRecord(l: Lattice, l': Lattice, h: Id) {
    (h in l'.hosts <==> h in l.hosts) && (h in l.hosts ==> l'.hosts[h] == l.hosts[h])
  }

  ghost predicate SameComponentRecord(l: Lattice, l': Lattice, c: Id) {
    (c in l'.components <==> c in l.components) && (c in l.components ==> l'.components[c] == l.components[c])
  }

  ghost predicate SameProviderRecord(l: Lattice, l': Lattice, p: Id) {
    (p in l'.providers <==> p in l.providers) && (p in l.providers ==> l'.providers[p] == l.providers[p])
  }

  // ---------- host_heartbeat ----------

  lemma {:induction false} LastReport(ds: seq<ComponentDescription>, i: nat)
    requires i < |ds| && forall j :: i < j < |ds| ==> ds[j].id != ds[i].id
    ensures ds[i].id in ReportedComponents(ds) && ReportedComponents(ds)[ds[i].id] == ds[i].maxInstances
  {
    if i < |ds| - 1 { LastReport(ds[..|ds| - 1], i); }
  }

  /** What a host's record says of a described provider. */
  function ListedAs(d: ProviderDescription): ProviderInfo {
    ProviderInfo(if d.imageRef.Some? then d.imageRef.value else "", if d.annotations.Some? then d.annotations.value else map[])
  }

  lemma {:induction false} FirstReport(ds: seq<ProviderDescription>, i: nat)
    requires i < |ds| && forall j :: 0 <= j < i ==> ds[j].id != ds[i].id
    ensures ds[i].id in ReportedProviders(ds)
    ensures ReportedProviders(ds)[ds[i].id] ==
            ListedAs(ds[i])
  {
    var n := |ds| - 1;
    if i < n {
      FirstReport(ds[..n], i);
    } else {
      ReportedProvidersAre(ds[..n], ds[i].id);
    }
  }

  lemma {:induction false} ReportedProvidersAre(ds: seq<ProviderDescription>, p: Id)
    ensures p in ReportedProviders(ds) <==> exists i :: 0 <= i < |ds| && ds[i].id == p
  {
    if ds != [] {
      var n := |ds| - 1;
      ReportedProvidersAre(ds[..n], p);
      assert ds == ds[..n] + [ds[n]];
      if i :| 0 <= i < |ds| && ds[i].id == p {
        if i < n { assert ds[..n][i].id == p; }
      }
    }
  }

  /** The host's record says what the heartbeat says, and the records of other hosts stay. */
  lemma HeartbeatHost(l: Lattice, e: Event, now: int, claims: map<Id, Claims>)
    requires e.HostHeartbeat?
    ensures var l', h := Step(l, e, now, claims), e.hostId;
      && h in l'.hosts && l'.hosts[h].id == h && l'.hosts[h].lastSeen == now
      && l'.hosts[h].labels == e.labels && l'.hosts[h].friendlyName == e.friendlyName
      && l'.hosts[h].uptimeSeconds == e.uptimeSeconds && l'.hosts[h].version == Some(e.hostVersion)
    ensures forall g :: g != e.hostId ==> SameHostRecord(l, Step(l, e, now, claims), g)
  {}

  /** Of two descriptions of a component the later counts. */
  lemma HeartbeatHostComponents(l: Lattice, e: Event, now: int, claims: map<Id, Claims>)
    requires e.HostHeartbeat?
    ensures var h := e.hostId;
      && h in Step(l, e, now, claims).hosts
      && var listed := Step(l, e, now, claims).hosts[h].components;
         && (forall c :: c in listed <==> exists i :: 0 <= i < |e.components| && e.components[i].id == c)
         && forall i :: 0 <= i < |e.components| && (forall j :: i < j < |e.components| ==> e.components[j].id != e.components[i].id) ==>
              e.components[i].id in listed && listed[e.components[i].id] == e.components[i].maxInstances
  {
    forall c { ReportedComponentsKeys(e.components, c); }
    forall i | 0 <= i < |e.components| && forall j :: i < j < |e.components| ==> e.components[j].id != e.components[i].id
      ensures e.components[i].id in ReportedComponents(e.components)
      ensures ReportedComponents(e.components)[e.components[i].id] == e.components[i].maxInstances
    {
      LastReport(e.components, i);
    }
  }

  /** Of two descriptions of a provider the earlier counts. */
  lemma HeartbeatHostProviders(l: Lattice, e: Event, now: int, claims: map<Id, Claims>)
    requires e.HostHeartbeat?
    ensures var h := e.hostId;
      && h in Step(l, e, now, claims).hosts
      && var listed := Step(l, e, now, claims).hosts[h].providers;
         && (forall p :: p in listed <==> exists i :: 0 <= i < |e.providers| && e.providers[i].id == p)
         && forall i :: 0 <= i < |e.providers| && (forall j :: 0 <= j < i ==> e.providers[j].id != e.providers[i].id) ==>
              e.providers[i].id in listed && listed[e.providers[i].id] == ListedAs(e.providers[i])
  {
    forall p { ReportedProvidersAre(e.providers, p); }
    forall i | 0 <= i < |e.providers| && forall j :: 0 <= j < i ==> e.providers[j].id != e.providers[i].id
      ensures e.providers[i].id in ReportedProviders(e.providers)
      ensures ReportedProviders(e.providers)[e.providers[i].id] == ListedAs(e.providers[i])
    {
      FirstReport(e.providers, i);
    }
  }

  /** A component's record matches a description so far that the heartbeat leaves it alone: it compares the
      number of entries on the host with the number of hosts. */
  ghost predicate LeftAlone(l: Lattice, h: Id, d: ComponentDescription) {
    && d.id in l.components && l.components[d.id].reference == d.imageRef
    && h in l.components[d.id].instances && |l.components[d.id].instances[h]| == |l.components[d.id].instances|
    && (if d.annotations.Some? then d.annotations.value else map[], d.maxInstances) in l.components[d.id].instances[h].Items
  }

  /** The record that a description makes: the host has its one entry, and other hosts keep theirs. */
  ghost predicate IsDescribed(l: Lattice, claims: map<Id, Claims>, h: Id, d: ComponentDescription, r: Component) {
    && r.reference == d.imageRef
    && h in r.instances && r.instances[h] == map[(if d.annotations.Some? then d.annotations.value else map[]) := d.maxInstances]
    && (if d.id in l.components then
          && r.id == l.components[d.id].id && r.issuer == l.components[d.id].issuer
          && r.name == (if d.name.Some? then d.name.value else l.components[d.id].name)
          && r.instances.Keys == l.components[d.id].instances.Keys + {h}
          && forall g :: g in l.components[d.id].instances && g != h ==> r.instances[g] == l.components[d.id].instances[g]
        else
          && r.id == d.id && r.instances.Keys == {h}
          && Claims(r.name, r.issuer) == (if d.id in claims then claims[d.id] else Claims("", "")))
  }

  lemma SkipsIff(l: Lattice, h: Id, d: ComponentDescription)
    ensures Skips(l.components, h, d) <==> LeftAlone(l, h, d)
  {}

  lemma DescribedIs(l: Lattice, claims: map<Id, Claims>, h: Id, d: ComponentDescription)
    ensures IsDescribed(l, claims, h, d, DescribedComponent(l.components, claims, h, d))
  {
    DescribedHere(l.components, claims, h, d);
  }

  lemma {:induction false} LastAppliedAt(cs: map<Id, Component>, h: Id, ds: seq<ComponentDescription>, i: nat)
    requires i < |ds| && !Skips(cs, h, ds[i])
    requires forall j :: i < j < |ds| && ds[j].id == ds[i].id ==> Skips(cs, h, ds[j])
    ensures LastApplied(cs, h, ds, ds[i].id) == Some(ds[i])
  {
    if i < |ds| - 1 { LastAppliedAt(cs, h, ds[..|ds| - 1], i); }
  }

  /** The last description that does not match makes the record; without one the record stays. */
  lemma HeartbeatComponentRecord(l: Lattice, e: Event, now: int, claims: map<Id, Claims>, i: nat)
    requires e.HostHeartbeat? && i < |e.components| && !LeftAlone(l, e.hostId, e.components[i])
    requires forall j :: i < j < |e.components| && e.components[j].id == e.components[i].id ==> LeftAlone(l, e.hostId, e.components[j])
    ensures var l', d := Step(l, e, now, claims), e.components[i];
      d.id in l'.components && IsDescribed(l, claims, e.hostId, d, l'.components[d.id])
  {
    forall d { SkipsIff(l, e.hostId, d); }
    LastAppliedAt(l.components, e.hostId, e.components, i);
    ComponentAfterHeartbeat(l.components, claims, e.hostId, e.components, e.components[i].id);
    DescribedIs(l, claims, e.hostId, e.components[i]);
  }

  lemma HeartbeatOtherComponent(l: Lattice, e: Event, now: int, claims: map<Id, Claims>, c: Id)
    requires e.HostHeartbeat?
    requires forall i :: 0 <= i < |e.components| && e.components[i].id == c ==> LeftAlone(l, e.hostId, e.components[i])
    ensures SameComponentRecord(l, Step(l, e, now, claims), c)
  {
    forall d { SkipsIff(l, e.hostId, d); }
    ComponentAfterHeartbeat(l.components, claims, e.hostId, e.components, c);
  }

  lemma {:induction false} LastDescriptionAt(ds: seq<ProviderDescription>, i: nat)
    requires i < |ds| && forall j :: i < j < |ds| ==> ds[j].id != ds[i].id
    ensures LastDescription(ds, ds[i].id) == Some(ds[i])
  {
    if i < |ds| - 1 { LastDescriptionAt(ds[..|ds| - 1], i); }
  }

  /** A provider's last description gives it what it lacks: a name, a reference, and the host as pending. */
  lemma HeartbeatProviderRecord(l: Lattice, e: Event, now: int, claims: map<Id, Claims>, i: nat)
    requires e.HostHeartbeat? && i < |e.providers|
    requires forall j :: i < j < |e.providers| ==> e.providers[j].id != e.providers[i].id
    ensures var l', d := Step(l, e, now, claims), e.providers[i];
      var name, reference := if d.name.Some? then d.name.value else "", if d.imageRef.Some? then d.imageRef.value else "";
      && d.id in l'.providers
      && var r := l'.providers[d.id];
         if d.id in l.providers then
           var old_ := l.providers[d.id];
           && r.id == old_.id && r.issuer == old_.issuer
           && r.name == (if old_.name == "" then name else old_.name)
           && r.reference == (if old_.reference == "" then reference else old_.reference)
           && r.hosts == (if e.hostId in old_.hosts then old_.hosts else old_.hosts[e.hostId := Pending])
         else
           r == Provider(d.id, name, "", reference, map[e.hostId := Pending])
  {
    LastDescriptionAt(e.providers, i);
    ProviderAfterHeartbeat(l.providers, e.hostId, e.providers, e.providers[i].id);
  }

  lemma {:induction false} NoDescription(ds: seq<ProviderDescription>, p: Id)
    requires forall i :: 0 <= i < |ds| ==> ds[i].id != p
    ensures LastDescription(ds, p).None?
  {
    if ds != [] { NoDescription(ds[..|ds| - 1], p); }
  }

  lemma HeartbeatOtherProvider(l: Lattice, e: Event, now: int, claims: map<Id, Claims>, p: Id)
    requires e.HostHeartbeat? && forall i :: 0 <= i < |e.providers| ==> e.providers[i].id != p
    ensures SameProviderRecord(l, Step(l, e, now, claims), p)
  {
    NoDescription(e.providers, p);
    ProviderAfterHeartbeat(l.providers, e.hostId, e.providers, p);
  }

  // ---------- host_started, host_stopped ----------

  /** A host that starts is stored with its labels and name, listing nothing, whatever was stored before. */
  lemma HostStarts(l: Lattice, e: Event, now: int, claims: map<Id, Claims>)
    requires e.HostStarted?
    ensures var l', h := Step(l, e, now, claims), e.hostId;
      && h in l'.hosts && l'.hosts[h].id == h && l'.hosts[h].lastSeen == now
      && l'.hosts[h].labels == e.labels && l'.hosts[h].friendlyName == e.friendlyName
      && l'.hosts[h].components == map[] && l'.hosts[h].providers == map[]
      && l'.hosts[h].uptimeSeconds == 0 && l'.hosts[h].version == None
      && (forall g :: g != h ==> SameHostRecord(l, l', g))
      && l'.components == l.components && l'.providers == l.providers
  {}

  /** A component after its host h has stopped. */
  ghost predicate ComponentLoses(l: Lattice, l': Lattice, c: Id, h: Id)
    requires c in l.components
  {
    && (c in l'.components <==> exists g :: g in l.components[c].instances && g != h)
    && (c in l'.components ==>
          var r, old_ := l'.components[c], l.components[c];
          && r.id == old_.id && r.name == old_.name && r.issuer == old_.issuer && r.reference == old_.reference
          && (forall g :: g in r.instances <==> g in old_.instances && g != h)
          && forall g :: g in r.instances ==> r.instances[g] == old_.instances[g])
  }

  ghost predicate ProviderLoses(l: Lattice, l': Lattice, p: Id, h: Id)
    requires p in l.providers
  {
    && (p in l'.providers <==> exists g :: g in l.providers[p].hosts && g != h)
    && (p in l'.providers ==>
          var r, old_ := l'.providers[p], l.providers[p];
          && r.id == old_.id && r.name == old_.name && r.issuer == old_.issuer && r.reference == old_.reference
          && (forall g :: g in r.hosts <==> g in old_.hosts && g != h)
          && forall g :: g in r.hosts ==> r.hosts[g] == old_.hosts[g])
  }

  /** A stopped host goes, and what it lists loses it; what has no other host goes too. */
  lemma HostStops(l: Lattice, e: Event, now: int, claims: map<Id, Claims>)
    requires e.HostStopped? && KeyedById(l)
    ensures var l', h := Step(l, e, now, claims), e.hostId;
      if h !in l.hosts then l' == l
      else
        && h !in l'.hosts && (forall g :: g != h ==> SameHostRecord(l, l', g))
        && (forall c :: c in l.components && c in l.hosts[h].components ==> ComponentLoses(l, l', c, h))
        && (forall c :: !(c in l.components && c in l.hosts[h].components) ==> SameComponentRecord(l, l', c))
        && (forall p :: p in l.providers && p in l.hosts[h].providers && h in l.providers[p].hosts ==> ProviderLoses(l, l', p, h))
        && (forall p :: !(p in l.providers && p in l.hosts[h].providers && h in l.providers[p].hosts) ==> SameProviderRecord(l, l', p))
  {
    var h := e.hostId;
    if h in l.hosts {
      HostStopWritesHosts(l, h);
      forall c { ComponentAfterStop(l, h, c); }
      forall p { ProviderAfterStop(l, h, p); }
    }
  }

  lemma HostStopWritesHosts(l: Lattice, h: Id)
    requires h in l.hosts
    ensures h !in HostStopWrites(l, h, 5).hosts && forall g :: g != h ==> SameHostRecord(l, HostStopWrites(l, h, 5), g)
  {}

  lemma ComponentAfterStop(l: Lattice, h: Id, c: Id)
    requires h in l.hosts && l.hosts[h].id == h
    ensures var l' := HostStopWrites(l, h, 5);
            if c in l.components && c in l.hosts[h].components then ComponentLoses(l, l', c, h) else SameComponentRecord(l, l', c)
  {
    HostStoppedAt(l, h, c);
    if c in l.components { LosesIff(l.components[c].instances, h); }
  }

  lemma ProviderAfterStop(l: Lattice, h: Id, p: Id)
    requires h in l.hosts
    ensures var l' := HostStopWrites(l, h, 5);
            if p in l.providers && p in l.hosts[h].providers && h in l.providers[p].hosts then ProviderLoses(l, l', p, h)
            else SameProviderRecord(l, l', p)
  {
    HostStoppedAt(l, h, p);
    if p in l.providers { LosesIff(l.providers[p].hosts, h); }
  }

  lemma LosesIff<V>(m: map<Id, V>, h: Id)
    ensures m - {h} != map[] <==> exists g :: g in m && g != h
  {
    if g :| g in m && g != h { assert g in m - {h}; }
  }

  /** Of the five writes the first stores what components keep, the second deletes those that keep nothing, the
      next two do the same for providers, and the last deletes the host. */
  lemma HostStopsPartway(l: Lattice, h: Id, k: nat)
    requires h in l.hosts && l.hosts[h].id == h
    ensures var l' := HostStopWrites(l, h, k);
      && l'.hosts == (if k >= 5 then l.hosts - {h} else l.hosts)
      && (k == 0 ==> l'.components == l.components) && (k <= 2 ==> l'.providers == l.providers)
      && (k >= 2 ==> l'.components == HostStopWrites(l, h, 5).components)
      && (k >= 4 ==> l'.providers == HostStopWrites(l, h, 5).providers)
  {}

  lemma ComponentAfterFirst(l: Lattice, h: Id, c: Id)
    requires h in l.hosts && l.hosts[h].id == h
    ensures var l' := HostStopWrites(l, h, 1);
      if c in l.components && c in l.hosts[h].components && exists g :: g in l.components[c].instances && g != h
      then ComponentLoses(l, l', c, h) else SameComponentRecord(l, l', c)
  {
    if c in l.components { LosesIff(l.components[c].instances, h); }
  }

  lemma ProviderAfterThird(l: Lattice, h: Id, p: Id)
    requires h in l.hosts
    ensures var l' := HostStopWrites(l, h, 3);
      if p in l.providers && p in l.hosts[h].providers && h in l.providers[p].hosts && exists g :: g in l.providers[p].hosts && g != h
      then ProviderLoses(l, l', p, h) else SameProviderRecord(l, l', p)
  {
    if p in l.providers { LosesIff(l.providers[p].hosts, h); }
  }

  // ---------- provider events ----------

  /** A host is added as pending, and what was not known before is filled in; the host's own record changes
      only when the provider did not list it. */
  lemma ProviderStarts(l: Lattice, e: Event, now: int, claims: map<Id, Claims>)
    requires e.ProviderStarted? && KeyedById(l)
    ensures var l', p, h := Step(l, e, now, claims), e.providerId, e.hostId;
      && p in l'.providers && (forall q :: q != p ==> SameProviderRecord(l, l', q))
      && var r := l'.providers[p];
         if p in l.providers then
           var old_ := l.providers[p];
           && r.id == old_.id && r.name == old_.name
           && r.hosts == (if h in old_.hosts then old_.hosts else old_.hosts[h := Pending])
           && (if old_.issuer != "" && old_.reference != "" then r.issuer == old_.issuer && r.reference == old_.reference
               else r.issuer == (if e.claims.Some? then e.claims.value.issuer else "") && r.reference == e.imageRef)
         else
           && r.id == p && r.reference == e.imageRef && r.hosts == map[h := Pending]
           && Claims(r.name, r.issuer) == (if e.claims.Some? then e.claims.value else Claims("", ""))
    ensures var l', p, h := Step(l, e, now, claims), e.providerId, e.hostId;
      && l'.components == l.components && (forall g :: g != h ==> SameHostRecord(l, l', g))
      && (if h in l.hosts && !(p in l.providers && h in l.providers[p].hosts) then
            h in l'.hosts && l'.hosts[h] == l.hosts[h].(providers := l.hosts[h].providers[p := ProviderInfo(e.imageRef, e.annotations)])
          else SameHostRecord(l, l', h))
  {}

  /** Host and provider lose each other, and a provider without hosts goes. */
  lemma ProviderStops(l: Lattice, e: Event, now: int, claims: map<Id, Claims>)
    requires e.ProviderStopped? && KeyedById(l)
    ensures var l', p, h := Step(l, e, now, claims), e.providerId, e.hostId;
      && l'.components == l.components && (forall q :: q != p ==> SameProviderRecord(l, l', q))
      && (forall g :: g != h ==> SameHostRecord(l, l', g))
      && (h in l'.hosts <==> h in l.hosts)
      && (h in l.hosts ==> l'.hosts[h] == l.hosts[h].(providers := l.hosts[h].providers - {p}))
      && (if p in l.providers && h in l.providers[p].hosts then ProviderLoses(l, l', p, h) else SameProviderRecord(l, l', p))
  {
    if e.providerId in l.providers { LosesIff(l.providers[e.providerId].hosts, e.hostId); }
  }

  /** A check that failed stores Failed, one that passed Running; a plain status makes an unseen or pending
      provider Running and leaves another status. */
  lemma HealthChecks(l: Lattice, e: Event, now: int, claims: map<Id, Claims>)
    requires e.ProviderHealthCheckStatus? || e.ProviderHealthCheckPassed? || e.ProviderHealthCheckFailed?
    ensures var l', p, h := Step(l, e, now, claims), e.providerId, e.hostId;
      && l'.hosts == l.hosts && l'.components == l.components && (forall q :: q != p ==> SameProviderRecord(l, l', q))
      && p in l'.providers && h in l'.providers[p].hosts
      && (e.ProviderHealthCheckFailed? ==> l'.providers[p].hosts[h] == Failed)
      && (e.ProviderHealthCheckPassed? ==> l'.providers[p].hosts[h] == Running)
      && (e.ProviderHealthCheckStatus? ==>
            if p in l.providers && h in l.providers[p].hosts && l.providers[p].hosts[h] == Failed
            then l'.providers[p].hosts[h] == Failed else l'.providers[p].hosts[h] == Running)
      && (if p in l.providers then
            var r, old_ := l'.providers[p], l.providers[p];
            && r.id == old_.id && r.name == old_.name && r.issuer == old_.issuer && r.reference == old_.reference
            && r.hosts == old_.hosts[h := r.hosts[h]]
          else
            l'.providers[p] == Provider(p, "", "", "", map[h := l'.providers[p].hosts[h]]))
  {}

  // ---------- component_scaled ----------

  /** The host lists the number, or the component no more when it is 0. */
  lemma ScalesOnHost(l: Lattice, e: Event, now: int, claims: map<Id, Claims>)
    requires e.ComponentScaled? && KeyedById(l)
    ensures var l', c, h, n := Step(l, e, now, claims), e.componentId, e.hostId, e.maxInstances;
      && l'.providers == l.providers && (forall g :: g != h ==> SameHostRecord(l, l', g))
      && (h in l'.hosts <==> h in l.hosts)
      && (h in l.hosts ==>
            var r, old_ := l'.hosts[h], l.hosts[h];
            && r == old_.(components := r.components)
            && (c in r.components <==> n > 0) && (n > 0 ==> r.components[c] == n)
            && forall d :: d != c ==> ((d in r.components <==> d in old_.components) && (d in r.components ==> r.components[d] == old_.components[d])))
  {}

  /** The component has the event's entry, or not when its number is 0 and it was stored before, beside all
      its other entries, and the rest of its record is the event's; without entries it goes. */
  lemma ScalesComponent(l: Lattice, e: Event, now: int, claims: map<Id, Claims>)
    requires e.ComponentScaled?
    ensures var l', c := Step(l, e, now, claims), e.componentId;
      && (forall d :: d != c ==> SameComponentRecord(l, l', d))
      && (forall h, a :: EntryFollows(l, l', e, h, a))
      && (c in l'.components ==>
            var r := l'.components[c];
            && r.id == c && r.reference == e.imageRef
            && Claims(r.name, r.issuer) == (if e.claims.Some? then e.claims.value else Claims("", "")))
  {
    forall h, a ensures EntryFollows(l, Step(l, e, now, claims), e, h, a) { EntryAfterScaled(l, e, h, a); }
  }

  lemma ScaledHasEntries(l: Lattice, e: Event, now: int, claims: map<Id, Claims>)
    requires e.ComponentScaled? && NoEmptyRecords(l)
    ensures var l', c := Step(l, e, now, claims), e.componentId;
            c in l'.components <==> exists h, a :: HasEntry(l', c, h, a)
  {
    var l', c := Step(l, e, now, claims), e.componentId;
    if c in l'.components {
      ScaledKeepsNonEmpty(l, e);
      var h :| h in l'.components[c].instances;
      assert ComponentLists(l', c, h);
      var a :| a in l'.components[c].instances[h];
      assert HasEntry(l', c, h, a);
    }
  }

  lemma EntryAfterScaled(l: Lattice, e: Event, h: Id, a: Annotations)
    requires e.ComponentScaled?
    ensures EntryFollows(l, AfterScaled(l, e), e, h, a)
  {
    var c := e.componentId;
    if c in l.components {
      EntryAfterSet(l.components[c].instances, e.hostId, e.annotations, e.maxInstances, h, a);
    } else {
      var instances: map<Id, Entries> := map[e.hostId := map[e.annotations := e.maxInstances]];
      assert e.hostId in instances;
    }
  }

  /** The event sets its own entry and leaves the others. */
  ghost predicate EntryFollows(l: Lattice, l': Lattice, e: Event, h: Id, a: Annotations)
    requires e.ComponentScaled?
  {
    var c := e.componentId;
    if (h, a) == (e.hostId, e.annotations) then
      && (HasEntry(l', c, h, a) <==> e.maxInstances > 0 || c !in l.components)
      && (HasEntry(l', c, h, a) ==> l'.components[c].instances[h][a] == e.maxInstances)
    else
      && (HasEntry(l', c, h, a) <==> HasEntry(l, c, h, a))
      && (HasEntry(l', c, h, a) ==> l'.components[c].instances[h][a] == l.components[c].instances[h][a])
  }

  ghost predicate HasEntry(l: Lattice, c: Id, h: Id, a: Annotations) {
    c in l.components && h in l.components[c].instances && a in l.components[c].instances[h]
  }

  lemma EntryAfterSet(instances: map<Id, Entries>, h: Id, a: Annotations, n: nat, h': Id, a': Annotations)
    ensures var after := SetEntry(instances, h, a, n);
      var there := h' in instances && a' in instances[h'];
      && (h' in after && a' in after[h'] <==> if (h', a') == (h, a) then n > 0 else there)
      && (h' in after && a' in after[h'] ==> after[h'][a'] == if (h', a') == (h, a) then n else instances[h'][a'])
  {
    if n == 0 && h in instances && h' == h && a' != a && a' in instances[h] { assert a' in instances[h] - {a}; }
  }

  /** No other event changes anything. */
  lemma OthersChangeNothing(l: Lattice, e: Event, now: int, claims: map<Id, Claims>)
    requires e.ComponentScaleFailed? || e.ProviderStartFailed? || e.ConfigSet? || e.ConfigDeleted? || e.LinkdefSet? || e.LinkdefDeleted?
    ensures Step(l, e, now, claims) == l
  {}

  // ---------- the reaper ----------

  /** Hosts silent for more than two intervals go, and no others. */
  lemma ReapsHosts(l: Lattice, now: int, interval: int)
    ensures var l' := Act(l, Reap(now, interval));
      && (forall h :: h in l'.hosts <==> h in l.hosts && now - l.hosts[h].lastSeen <= 2 * interval)
      && (forall h :: h in l'.hosts ==> l'.hosts[h] == l.hosts[h])
  {}

  /** A component keeps its entries on the hosts that stay and list it, and goes when there are none. */
  lemma ReapsComponent(l: Lattice, now: int, interval: int, c: Id, h: Id)
    requires KeyedById(l)
    ensures var l' := Act(l, Reap(now, interval));
      && (ComponentLists(l', c, h) <==>
            ComponentLists(l, c, h) && h in l.hosts && now - l.hosts[h].lastSeen <= 2 * interval && c in l.hosts[h].components)
      && (ComponentLists(l', c, h) ==> l'.components[c].instances[h] == l.components[c].instances[h])
      && (c in l'.components ==>
            && c in l.components && l'.components[c].instances != map[]
            && l'.components[c] == l.components[c].(instances := l'.components[c].instances))
  {
    var hosts := AfterReapHosts(l, now, interval).hosts;
    if ComponentLists(l, c, h) && h in hosts && c in hosts[h].components {
      assert h in ReapedComponent(l.components[c], hosts).instances;
    }
  }

  /** A provider keeps the hosts that stay, and goes when there are none. */
  lemma ReapsProvider(l: Lattice, now: int, interval: int, p: Id, h: Id)
    requires NoEmptyRecords(l)
    ensures var l' := Act(l, Reap(now, interval));
      && (ProviderLists(l', p, h) <==> ProviderLists(l, p, h) && h in l.hosts && now - l.hosts[h].lastSeen <= 2 * interval)
      && (ProviderLists(l', p, h) ==> l'.providers[p].hosts[h] == l.providers[p].hosts[h])
      && (p in l'.providers ==>
            && p in l.providers && l'.providers[p].hosts != map[]
            && l'.providers[p] == l.providers[p].(hosts := l'.providers[p].hosts))
  {
    var hosts := AfterReapHosts(l, now, interval).hosts;
    if ProviderLists(l, p, h) && h in hosts { assert h in ReapedProvider(l.providers[p], hosts).hosts; }
  }

  // ---------- labels ----------

  /** The labels that the host gives itself in an action, if it does. */
  ghost predicate Reports(a: Action, h: Id) {
    a.Handle? && (a.event.HostHeartbeat? || a.event.HostStarted?) && a.event.hostId == h
  }

  lemma ActLabels(l: Lattice, a: Action, h: Id)
    requires KeyedById(l) && h in Act(l, a).hosts
    ensures Reports(a, h) ==> Act(l, a).hosts[h].labels == a.event.labels
    ensures !Reports(a, h) ==> h in l.hosts && Act(l, a).hosts[h].labels == l.hosts[h].labels
  {
    if a.Handle? { StepLabels(l, a.event, a.now, a.claims, h); }
  }

  lemma StepLabels(l: Lattice, e: Event, now: int, claims: map<Id, Claims>, h: Id)
    requires KeyedById(l) && h in Step(l, e, now, claims).hosts
    ensures (e.HostHeartbeat? || e.HostStarted?) && e.hostId == h ==> Step(l, e, now, claims).hosts[h].labels == e.labels
    ensures !((e.HostHeartbeat? || e.HostStarted?) && e.hostId == h) ==>
              h in l.hosts && Step(l, e, now, claims).hosts[h].labels == l.hosts[h].labels
  {
    match e
    case HostHeartbeat(_, _, _, _, _, _, _) => HeartbeatHost(l, e, now, claims); assert SameHostRecord(l, Step(l, e, now, claims), h) || h == e.hostId;
    case HostStopped(g, _) => if g in l.hosts { HostStoppedAt(l, g, h); }
    case _ =>
  }

  /** While it reports nothing, a stored host keeps the labels it had. */
  lemma {:induction false} LabelsStay(l: Lattice, actions: seq<Action>, h: Id)
    requires KeyedById(l) && h in Run(l, actions).hosts && forall k :: 0 <= k < |actions| ==> !Reports(actions[k], h)
    ensures h in l.hosts && Run(l, actions).hosts[h].labels == l.hosts[h].labels
  {
    if actions != [] {
      var n := |actions| - 1;
      RunKeyed(l, actions[..n]);
      ActLabels(Run(l, actions[..n]), actions[n], h);
      LabelsStay(l, actions[..n], h);
    }
  }

  /** So the labels of a stored host are those of its last heartbeat or start. */
  lemma {:induction false} LabelsAreTheLast(l: Lattice, actions: seq<Action>, h: Id, k: nat)
    requires KeyedById(l) && h in Run(l, actions).hosts
    requires k < |actions| && Reports(actions[k], h) && forall j :: k < j < |actions| ==> !Reports(actions[j], h)
    ensures Run(l, actions).hosts[h].labels == actions[k].event.labels
  {
    var n := |actions| - 1;
    RunKeyed(l, actions[..n]);
    ActLabels(Run(l, actions[..n]), actions[n], h);
    if k < n { LabelsAreTheLast(l, actions[..n], h, k); }
  }

  lemma {:induction false} RunKeyed(l: Lattice, actions: seq<Action>)
    requires KeyedById(l)
    ensures KeyedById(Run(l, actions))
  {
    if actions != [] {
      RunKeyed(l, actions[..|actions| - 1]);
      ActKeepsLists(Run(l, actions[..|actions| - 1]), actions[|actions| - 1], {});
    }
  }
}
