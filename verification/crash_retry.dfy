/** Handlers that write several records may stop half way and be delivered again. */
module CrashRetry {
  import opened Wrappers
  import opened Collections
  import opened LatticeState
  import opened Events
  import opened LatticeSpec
  import opened LatticeInvariants
  import opened SelfStabilization

  /** A host stop interrupted once for each element of ks, after that many of its five writes. */
  function InterruptedStops(l: Lattice, h: Id, ks: seq<nat>): Lattice {
    if ks == [] then l
    else HostStopWrites(InterruptedStops(l, h, ks[..|ks| - 1]), h, ks[|ks| - 1])
  }

  lemma StopComponentsAt(cs: map<Id, Component>, host: Host, deleted: bool, c: Id)
    ensures var cs' := StopComponents(cs, host, deleted);
      if c !in cs || c !in host.components then
        (c in cs' <==> c in cs) && (c in cs ==> cs'[c] == cs[c])
      else if cs[c].instances - {host.id} == map[] then
        (c in cs' <==> !deleted) && (!deleted ==> cs'[c] == cs[c])
      else
        c in cs' && cs'[c] == cs[c].(instances := cs[c].instances - {host.id})
  {
  }

  lemma StopComponentsTwiceAt(cs: map<Id, Component>, host: Host, deleted: bool, c: Id)
    ensures var all := StopComponents(cs, host, true);
      var again := StopComponents(StopComponents(cs, host, deleted), host, true);
      (c in again <==> c in all) && (c in all ==> again[c] == all[c])
  {
    StopComponentsAt(cs, host, deleted, c);
    StopComponentsAt(cs, host, true, c);
    StopComponentsAt(StopComponents(cs, host, deleted), host, true, c);
    if c in cs { assert cs[c].instances - {host.id} - {host.id} == cs[c].instances - {host.id}; }
  }

  lemma StopComponentsTwice(cs: map<Id, Component>, host: Host, deleted: bool)
    ensures StopComponents(StopComponents(cs, host, deleted), host, true) == StopComponents(cs, host, true)
  {
    var all, again := StopComponents(cs, host, true), StopComponents(StopComponents(cs, host, deleted), host, true);
    forall c ensures (c in again <==> c in all) && (c in all ==> again[c] == all[c]) {
      StopComponentsTwiceAt(cs, host, deleted, c);
    }
  }

  lemma StopProvidersAt(ps: map<Id, Provider>, host: Host, h: Id, deleted: bool, p: Id)
    ensures var ps' := StopProviders(ps, host, h, deleted);
      if p !in ps || p !in host.providers || h !in ps[p].hosts then
        (p in ps' <==> p in ps) && (p in ps ==> ps'[p] == ps[p])
      else if ps[p].hosts - {h} == map[] then
        (p in ps' <==> !deleted) && (!deleted ==> ps'[p] == ps[p])
      else
        p in ps' && ps'[p] == ps[p].(hosts := ps[p].hosts - {h})
  {
  }

  lemma StopProvidersTwice(ps: map<Id, Provider>, host: Host, h: Id, deleted: bool)
    ensures StopProviders(StopProviders(ps, host, h, deleted), host, h, true) == StopProviders(ps, host, h, true)
  {
    var once := StopProviders(ps, host, h, deleted);
    var all, again := StopProviders(ps, host, h, true), StopProviders(once, host, h, true);
    forall p ensures (p in again <==> p in all) && (p in all ==> again[p] == all[p]) {
      StopProvidersAt(ps, host, h, deleted, p);
      StopProvidersAt(ps, host, h, true, p);
      StopProvidersAt(once, host, h, true, p);
    }
  }

  /** One interruption is repaired by one complete run. */
  lemma StopRetried(l: Lattice, h: Id, k: nat)
    ensures HostStopWrites(HostStopWrites(l, h, k), h, 5) == HostStopWrites(l, h, 5)
  {
    if h in l.hosts && 0 < k < 5 {
      StopComponentsTwice(l.components, l.hosts[h], k >= 2);
      if k >= 3 { StopProvidersTwice(l.providers, l.hosts[h], h, k >= 4); }
    }
  }

  /** Any number of interruptions, anywhere, and then a complete run: the state of one complete run. */
  lemma {:induction false} StopSurvivesCrashes(l: Lattice, h: Id, ks: seq<nat>)
    ensures HostStopWrites(InterruptedStops(l, h, ks), h, 5) == HostStopWrites(l, h, 5)
  {
    if ks != [] {
      var n := |ks| - 1;
      StopRetried(InterruptedStops(l, h, ks[..n]), h, ks[n]);
      StopSurvivesCrashes(l, h, ks[..n]);
    }
  }

  // ---------- heartbeats ----------

  /** A heartbeat's three writes: the host, then the providers, then the components. */
  function HeartbeatWrites(l: Lattice, e: Event, now: int, claims: map<Id, Claims>, k: nat): Lattice
    requires e.HostHeartbeat?
  {
    var done := AfterHeartbeat(l, e, now, claims);
    Lattice(if k >= 1 then done.hosts else l.hosts,
            if k >= 3 then done.components else l.components,
            if k >= 2 then done.providers else l.providers)
  }

  lemma ProviderWritesTwice(ps: map<Id, Provider>, h: Id, ds: seq<ProviderDescription>)
    ensures var once := PutAll(ps, ProviderUpdates(ps, h, ds));
      PutAll(once, ProviderUpdates(once, h, ds)) == once
  {
    var once := PutAll(ps, ProviderUpdates(ps, h, ds));
    var again := PutAll(once, ProviderUpdates(once, h, ds));
    forall p ensures (p in again <==> p in once) && (p in once ==> again[p] == once[p]) {
      ProviderAfterHeartbeat(ps, h, ds, p);
      ProviderAfterHeartbeat(once, h, ds, p);
    }
  }

  // ---------- the third write, made twice ----------

  /** The last description of component c. */
  function LastMention(ds: seq<ComponentDescription>, c: Id): (r: Option<ComponentDescription>)
    ensures r.Some? ==> r.value in ds && r.value.id == c
  {
    if ds == [] then None
    else if ds[|ds| - 1].id == c then Some(ds[|ds| - 1])
    else LastMention(ds[..|ds| - 1], c)
  }

  predicate Same(d: ComponentDescription, d': ComponentDescription) {
    d.imageRef == d'.imageRef && d.annotations.GetOr(map[]) == d'.annotations.GetOr(map[]) && d.maxInstances == d'.maxInstances
  }

  predicate AllSkipped(cs: map<Id, Component>, h: Id, ds: seq<ComponentDescription>, c: Id) {
    forall d :: d in ds && d.id == c ==> Skips(cs, h, d)
  }

  predicate AllSame(ds: seq<ComponentDescription>, c: Id, last: ComponentDescription) {
    forall d :: d in ds && d.id == c ==> Same(d, last)
  }

  predicate RunsElsewhere(cs: map<Id, Component>, c: Id, h: Id) {
    c in cs && cs[c].instances - {h} != map[]
  }

  /** What the report says of c can be taken in twice: every description is skipped, or the last is not and
      c runs on another host too or is described in one way only. */
  predicate Repeatable(cs: map<Id, Component>, h: Id, ds: seq<ComponentDescription>, c: Id) {
    var last := LastMention(ds, c);
    last.Some? && !AllSkipped(cs, h, ds, c) ==>
      !Skips(cs, h, last.value) && (RunsElsewhere(cs, c, h) || AllSame(ds, c, last.value))
  }

  function Once(cs: map<Id, Component>, claims: map<Id, Claims>, h: Id, ds: seq<ComponentDescription>): map<Id, Component> {
    PutAll(cs, ComponentUpdates(cs, claims, h, ds))
  }

  lemma {:induction false} AppliedIffNotSkipped(cs: map<Id, Component>, h: Id, ds: seq<ComponentDescription>, c: Id)
    ensures LastApplied(cs, h, ds, c).None? <==> AllSkipped(cs, h, ds, c)
    ensures LastMention(ds, c).None? ==> LastApplied(cs, h, ds, c).None?
    ensures LastMention(ds, c).Some? && !Skips(cs, h, LastMention(ds, c).value) ==>
              LastApplied(cs, h, ds, c) == LastMention(ds, c)
  {
    if ds != [] {
      var front, d := ds[..|ds| - 1], ds[|ds| - 1];
      assert ds == front + [d];
      AppliedIffNotSkipped(cs, h, front, c);
    }
  }

  /** A record just made from d takes another description for up to date exactly when it says the same and
      the component runs nowhere else. */
  lemma SkipsAfter(cs: map<Id, Component>, claims: map<Id, Claims>, h: Id, d: ComponentDescription,
                   cs': map<Id, Component>, d': ComponentDescription)
    requires d'.id == d.id && d.id in cs' && cs'[d.id] == DescribedComponent(cs, claims, h, d)
    ensures Skips(cs', h, d') <==> Same(d', d) && !RunsElsewhere(cs, d.id, h)
  {
    DescribedHere(cs, claims, h, d);
    var r := cs'[d.id];
    assert |r.instances[h]| == 1;
    assert r.instances - {h} == if d.id in cs then cs[d.id].instances - {h} else map[];
    assert (r.instances - {h}).Keys == r.instances.Keys - {h};
    assert |r.instances| == 1 + |r.instances.Keys - {h}|;
    if |r.instances.Keys - {h}| == 0 { assert r.instances - {h} == map[]; }
  }

  /** The name and the issuer of a component that is not stored. */
  function Known(claims: map<Id, Claims>, c: Id): Claims {
    if c in claims then claims[c] else Claims("", "")
  }

  /** The claims matter to a new record alone. */
  lemma OtherClaims(cs: map<Id, Component>, claims: map<Id, Claims>, claims': map<Id, Claims>, h: Id, d: ComponentDescription)
    ensures var r, r' := DescribedComponent(cs, claims, h, d), DescribedComponent(cs, claims', h, d);
      && (r == r' <==> d.id in cs || Known(claims, d.id) == Known(claims', d.id))
      && r.instances == r'.instances && r.reference == r'.reference
  {}

  /** Describing a record in the way it was just made changes nothing; in another way, something. */
  lemma DescribedTwice(cs: map<Id, Component>, claims: map<Id, Claims>, h: Id, d: ComponentDescription,
                       cs': map<Id, Component>, d': ComponentDescription)
    requires d'.id == d.id && d.id in cs' && cs'[d.id] == DescribedComponent(cs, claims, h, d)
    ensures d.id in cs ==> DescribedComponent(cs', claims, h, d) == cs'[d.id]
    ensures !Same(d', d) ==> var r := DescribedComponent(cs', claims, h, d');
              r.instances != cs'[d.id].instances || r.reference != cs'[d.id].reference
  {
    DescribedHere(cs, claims, h, d);
    DescribedHere(cs', claims, h, d);
    DescribedHere(cs', claims, h, d');
    var x, x' := d.annotations.GetOr(map[]), d'.annotations.GetOr(map[]);
    if !Same(d', d) && d'.imageRef == d.imageRef {
      var entry: Entries, entry': Entries := map[x := d.maxInstances], map[x' := d'.maxInstances];
      assert x in entry && x' in entry';
    }
    if d.id in cs {
      assert DescribedComponent(cs', claims, h, d).instances == cs'[d.id].instances;
    }
  }

  /** A component that is new to the store is described, and the two deliveries know it by different names. */
  predicate Renamed(cs: map<Id, Component>, claims: map<Id, Claims>, claims': map<Id, Claims>,
                    ds: seq<ComponentDescription>, c: Id)
  {
    c !in cs && LastMention(ds, c).Some? && Known(claims, c) != Known(claims', c)
  }

  /** The second time, for one component. */
  lemma TwiceIff(cs: map<Id, Component>, claims: map<Id, Claims>, claims': map<Id, Claims>, h: Id,
                 ds: seq<ComponentDescription>, c: Id)
    ensures var once, again := Once(cs, claims', h, ds), Once(Once(cs, claims, h, ds), claims', h, ds);
      && (c in again <==> c in once)
      && (c in once ==> (again[c] == once[c] <==> Repeatable(cs, h, ds, c) && !Renamed(cs, claims, claims', ds, c)))
    ensures c !in Once(cs, claims', h, ds) ==> Repeatable(cs, h, ds, c) && !Renamed(cs, claims, claims', ds, c)
  {
    var first := Once(cs, claims, h, ds);
    ComponentAfterHeartbeat(cs, claims, h, ds, c);
    ComponentAfterHeartbeat(cs, claims', h, ds, c);
    ComponentAfterHeartbeat(first, claims', h, ds, c);
    AppliedIffNotSkipped(cs, h, ds, c);
    if LastApplied(cs, h, ds, c).Some? {
      OtherClaims(cs, claims, claims', h, LastApplied(cs, h, ds, c).value);
      AppliedTwiceIff(cs, claims, claims', h, ds, c, first);
      if c !in cs { assert LastApplied(cs, h, ds, c) == LastMention(ds, c); }
    } else {
      SkippedTwice(cs, h, ds, c, first);
    }
  }

  lemma {:induction false} SkippedTwice(cs: map<Id, Component>, h: Id, ds: seq<ComponentDescription>, c: Id, cs': map<Id, Component>)
    requires AllSkipped(cs, h, ds, c) && (c in cs ==> c in cs' && cs'[c] == cs[c])
    ensures LastApplied(cs', h, ds, c).None?
  {
    AppliedIffNotSkipped(cs', h, ds, c);
  }

  lemma AppliedTwiceIff(cs: map<Id, Component>, claims: map<Id, Claims>, claims': map<Id, Claims>, h: Id,
                        ds: seq<ComponentDescription>, c: Id, once: map<Id, Component>)
    requires LastApplied(cs, h, ds, c).Some? && c in once
    requires once[c] == DescribedComponent(cs, claims, h, LastApplied(cs, h, ds, c).value)
    ensures var second := LastApplied(once, h, ds, c);
      var again := if second.None? then once[c] else DescribedComponent(once, claims', h, second.value);
      && (Repeatable(cs, h, ds, c) ==> again == once[c])
      && (!Repeatable(cs, h, ds, c) ==> again.instances != once[c].instances || again.reference != once[c].reference)
  {
    var first := LastApplied(cs, h, ds, c).value;
    AppliedIffNotSkipped(cs, h, ds, c);
    AppliedIffNotSkipped(once, h, ds, c);
    forall d | d in ds && d.id == c
      ensures Skips(once, h, d) <==> Same(d, first) && !RunsElsewhere(cs, c, h)
      ensures !Same(d, first) ==> var r := DescribedComponent(once, claims', h, d);
                r.instances != once[c].instances || r.reference != once[c].reference
    {
      SkipsAfter(cs, claims, h, first, once, d);
      DescribedTwice(cs, claims, h, first, once, d);
      OtherClaims(once, claims, claims', h, d);
    }
    var last := LastMention(ds, c).value;
    if Skips(cs, h, last) {
      assert !Same(last, first) by { SameSkips(cs, h, last, first); }
      assert LastApplied(once, h, ds, c) == Some(last);
    } else {
      assert last == first;
      DescribedTwice(cs, claims, h, first, once, first);
      OtherClaims(once, claims, claims', h, first);
    }
  }

  lemma SameSkips(cs: map<Id, Component>, h: Id, d: ComponentDescription, d': ComponentDescription)
    requires d.id == d'.id && Skips(cs, h, d) && !Skips(cs, h, d')
    ensures !Same(d, d')
  {}

  lemma RetriedHostsAndProviders(l: Lattice, e: Event, now: int, later: int, claims: map<Id, Claims>, claims': map<Id, Claims>, k: nat)
    requires e.HostHeartbeat?
    ensures var done, again := AfterHeartbeat(l, e, later, claims'), AfterHeartbeat(HeartbeatWrites(l, e, now, claims, k), e, later, claims');
            again.hosts == done.hosts && again.providers == done.providers
  {
    ProviderWritesTwice(l.providers, e.hostId, e.providers);
    var l1 := HeartbeatWrites(l, e, now, claims, k);
    assert l1.hosts[e.hostId := ReportedHost(e, later)] == l.hosts[e.hostId := ReportedHost(e, later)];
  }

  lemma RetriedComponents(l: Lattice, e: Event, now: int, later: int, claims: map<Id, Claims>, claims': map<Id, Claims>, k: nat)
    requires e.HostHeartbeat?
    ensures && AfterHeartbeat(l, e, later, claims').components == Once(l.components, claims', e.hostId, e.components)
            && AfterHeartbeat(HeartbeatWrites(l, e, now, claims, k), e, later, claims').components ==
               Once(if k <= 2 then l.components else Once(l.components, claims, e.hostId, e.components), claims', e.hostId, e.components)
  {}

  /** A heartbeat that was cut off after k of its writes, or completed, and is delivered again gives the state
      of one delivery exactly when its third write was not made; or what it says of each component can be
      taken in twice, and the claims fetched each time agree about the components that it made known. */
  lemma HeartbeatRetriedIff(l: Lattice, e: Event, now: int, later: int, claims: map<Id, Claims>, claims': map<Id, Claims>, k: nat)
    requires e.HostHeartbeat?
    ensures AfterHeartbeat(HeartbeatWrites(l, e, now, claims, k), e, later, claims') == AfterHeartbeat(l, e, later, claims') <==>
            || k <= 2
            || forall c :: Repeatable(l.components, e.hostId, e.components, c)
                           && !Renamed(l.components, claims, claims', e.components, c)
  {
    RetriedHostsAndProviders(l, e, now, later, claims, claims', k);
    RetriedComponents(l, e, now, later, claims, claims', k);
    ComponentsTwiceIff(l.components, claims, claims', e.hostId, e.components);
  }

  lemma ComponentsTwiceIff(cs: map<Id, Component>, claims: map<Id, Claims>, claims': map<Id, Claims>, h: Id, ds: seq<ComponentDescription>)
    ensures Once(Once(cs, claims, h, ds), claims', h, ds) == Once(cs, claims', h, ds) <==>
            forall c :: Repeatable(cs, h, ds, c) && !Renamed(cs, claims, claims', ds, c)
  {
    forall c { TwiceIff(cs, claims, claims', h, ds, c); }
    var once := Once(cs, claims', h, ds);
    var again := Once(Once(cs, claims, h, ds), claims', h, ds);
    if again == once {
      forall c ensures Repeatable(cs, h, ds, c) && !Renamed(cs, claims, claims', ds, c) {
        TwiceIff(cs, claims, claims', h, ds, c);
      }
    } else {
      assert again.Keys == once.Keys;
      assert exists c :: c in once && again[c] != once[c];
    }
  }

  /** So a heartbeat that describes no component twice may be delivered again at any time, exactly unless its
      third write made a component known that the claims have renamed since. */
  lemma HeartbeatRetried(l: Lattice, e: Event, now: int, later: int, claims: map<Id, Claims>, claims': map<Id, Claims>, k: nat)
    requires e.HostHeartbeat? && DistinctIds(e.components)
    ensures AfterHeartbeat(HeartbeatWrites(l, e, now, claims, k), e, later, claims') == AfterHeartbeat(l, e, later, claims') <==>
            k <= 2 || forall c :: !Renamed(l.components, claims, claims', e.components, c)
  {
    forall c ensures Repeatable(l.components, e.hostId, e.components, c) {
      OneMention(l.components, e.hostId, e.components, c);
    }
    HeartbeatRetriedIff(l, e, now, later, claims, claims', k);
  }

  lemma OneMention(cs: map<Id, Component>, h: Id, ds: seq<ComponentDescription>, c: Id)
    requires DistinctIds(ds)
    ensures Repeatable(cs, h, ds, c)
  {
    var last := LastMention(ds, c);
    if last.Some? {
      var i :| 0 <= i < |ds| && ds[i] == last.value;
      forall d | d in ds && d.id == c ensures d == last.value {
        var j :| 0 <= j < |ds| && ds[j] == d;
        assert j == i;
      }
    }
  }

  /** Two descriptions of one new component with different counts: the first delivery leaves the second's
      count, and the next delivery the first's. */
  lemma HeartbeatRetryFails(h: Id, c: Id) returns (e: Event)
    ensures e.HostHeartbeat? && e.hostId == h
    ensures forall now, later :: var l := Lattice(map[], map[], map[]);
      AfterHeartbeat(HeartbeatWrites(l, e, now, map[], 3), e, later, map[]) != AfterHeartbeat(l, e, later, map[])
  {
    var one, two := ComponentDescription(c, "", None, None, 1), ComponentDescription(c, "", None, None, 2);
    e := HostHeartbeat(h, "", map[], [one, two], [], 0, "");
    assert LastMention([one, two], c) == Some(two);
    assert one in [one, two] && !Same(one, two);
    assert !Repeatable(map[], h, [one, two], c);
    forall now, later ensures var l := Lattice(map[], map[], map[]);
      AfterHeartbeat(HeartbeatWrites(l, e, now, map[], 3), e, later, map[]) != AfterHeartbeat(l, e, later, map[])
    {
      HeartbeatRetriedIff(Lattice(map[], map[], map[]), e, now, later, map[], map[], 3);
    }
  }

  /** One description of a new component, whose claims are not known until the second delivery: the record
      stays without a name. */
  lemma RenamedRetryFails(h: Id, c: Id, known: Claims) returns (e: Event)
    requires known != Claims("", "")
    ensures e.HostHeartbeat? && e.hostId == h && DistinctIds(e.components)
    ensures forall now, later :: var l, claims := Lattice(map[], map[], map[]), map[c := known];
      AfterHeartbeat(HeartbeatWrites(l, e, now, map[], 3), e, later, claims) != AfterHeartbeat(l, e, later, claims)
  {
    var one := ComponentDescription(c, "", None, None, 1);
    e := HostHeartbeat(h, "", map[], [one], [], 0, "");
    assert LastMention([one], c) == Some(one);
    assert Renamed(map[], map[], map[c := known], [one], c);
    forall now, later ensures var l, claims := Lattice(map[], map[], map[]), map[c := known];
      AfterHeartbeat(HeartbeatWrites(l, e, now, map[], 3), e, later, claims) != AfterHeartbeat(l, e, later, claims)
    {
      HeartbeatRetried(Lattice(map[], map[], map[]), e, now, later, map[], map[c := known], 3);
    }
  }
}
