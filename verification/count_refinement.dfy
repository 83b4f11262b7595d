/** The component map refines a plain table of counts. */
module CountRefinement {
  import opened Collections
  import opened LatticeState
  import opened Events
  import opened LatticeSpec

  function EntryView(instances: map<Id, Entries>, h: Id, a: Annotations): nat {
    if h in instances && a in instances[h] then instances[h][a] else 0
  }

  lemma SetEntrySetsOnePoint(instances: map<Id, Entries>, h: Id, a: Annotations, n: nat, h': Id, a': Annotations)
    ensures EntryView(SetEntry(instances, h, a, n), h', a') ==
            (if (h', a') == (h, a) then n else EntryView(instances, h', a'))
  {
    if n == 0 && h' == h && a' != a && h in instances && a' in instances[h] {
      assert a' in instances[h] - {a};
    }
  }

  /** A component_scaled event sets one point of the table and nothing else. */
  lemma ScaledSetsOnePoint(l: Lattice, e: Event, c: Id, h: Id, a: Annotations)
    requires e.ComponentScaled?
    ensures View(AfterScaled(l, e).components, c, h, a) ==
            (if (c, h, a) == (e.componentId, e.hostId, e.annotations) then e.maxInstances
             else View(l.components, c, h, a))
  {
    if c == e.componentId && c in l.components {
      SetEntrySetsOnePoint(l.components[c].instances, e.hostId, e.annotations, e.maxInstances, h, a);
    }
  }

  lemma RedeliveryKeepsView(l: Lattice, e: Event, c: Id, h: Id, a: Annotations)
    requires e.ComponentScaled?
    ensures View(AfterScaled(AfterScaled(l, e), e).components, c, h, a) == View(AfterScaled(l, e).components, c, h, a)
  {
    ScaledSetsOnePoint(l, e, c, h, a);
    ScaledSetsOnePoint(AfterScaled(l, e), e, c, h, a);
  }

  /** An entry of the component other than the one that the event is about. */
  predicate HasOtherEntry(cs: map<Id, Component>, e: Event)
    requires e.ComponentScaled?
  {
    e.componentId in cs && SetEntry(cs[e.componentId].instances, e.hostId, e.annotations, 0) != map[]
  }

  lemma RedeliveryKeepsHosts(l: Lattice, e: Event)
    requires e.ComponentScaled? && KeyedById(l)
    ensures AfterScaled(AfterScaled(l, e), e).hosts == AfterScaled(l, e).hosts
  {
    if e.hostId in l.hosts {
      var components := l.hosts[e.hostId].components;
      assert components - {e.componentId} - {e.componentId} == components - {e.componentId};
      var scaled: map<Id, nat> := components[e.componentId := e.maxInstances];
      assert scaled[e.componentId := e.maxInstances] == scaled;
      var hosts1 := AfterScaled(l, e).hosts;
      assert hosts1[e.hostId := hosts1[e.hostId]] == hosts1;
    }
  }

  lemma SetEntryTwice(instances: map<Id, Entries>, h: Id, a: Annotations, n: nat)
    ensures SetEntry(SetEntry(instances, h, a, n), h, a, n) == SetEntry(instances, h, a, n)
  {
    if n > 0 {
      var entries: Entries := if h in instances then instances[h] else map[];
      var changed: Entries := entries[a := n];
      assert changed[a := n] == changed;
    } else if h in instances && instances[h] - {a} != map[] {
      assert instances[h] - {a} - {a} == instances[h] - {a};
    }
  }

  lemma OnlyEntryGoes(h: Id, a: Annotations, n: nat)
    ensures SetEntry(map[h := map[a := n]], h, a, 0) == map[]
  {
    assert map[a := n] - {a} == map[];
  }

  /** Redelivery leaves the whole state unchanged exactly when the event does not scale away the last
      entry of its component: a second scale to 0 of an unknown component stores an entry of count 0. */
  lemma RedeliveryKeepsState(l: Lattice, e: Event)
    requires e.ComponentScaled? && KeyedById(l)
    ensures AfterScaled(AfterScaled(l, e), e) == AfterScaled(l, e) <==>
            (e.maxInstances > 0 || HasOtherEntry(l.components, e))
  {
    var cs1 := AfterScaled(l, e).components;
    RedeliveryKeepsHosts(l, e);
    OnlyEntryGoes(e.hostId, e.annotations, 0);
    if e.maxInstances > 0 || HasOtherEntry(l.components, e) {
      var instances := if e.componentId in l.components then l.components[e.componentId].instances else map[];
      SetEntryTwice(instances, e.hostId, e.annotations, e.maxInstances);
      assert cs1[e.componentId := cs1[e.componentId]] == cs1;
    }
  }

  /** As when a component that is not stored is scaled to 0 twice: the first event stores an entry of count 0,
      and the second deletes it. */
  lemma RedeliveryFails(e: Event)
    requires e.ComponentScaled? && e.maxInstances == 0
    ensures var l := Lattice(map[], map[], map[]);
            AfterScaled(AfterScaled(l, e), e) != AfterScaled(l, e)
  {
    RedeliveryKeepsState(Lattice(map[], map[], map[]), e);
  }

  // ---------- count() ----------

  lemma SetEntryCountForHost(instances: map<Id, Entries>, h: Id, a: Annotations, n: nat)
    ensures var after := SetEntry(instances, h, a, n);
      (if h in after then Sum(after[h]) else 0) == (if h in instances then Sum(instances[h] - {a}) else 0) + n
  {
    var entries: Entries := if h in instances then instances[h] else map[];
    if n > 0 {
      SumUpdate(entries, a, n);
      assert h !in instances ==> entries - {a} == map[];
    }
  }

  lemma SetEntryKeepsOtherHosts(instances: map<Id, Entries>, h: Id, a: Annotations, n: nat)
    ensures HostCounts(SetEntry(instances, h, a, n)) - {h} == HostCounts(instances) - {h}
  {
  }

  /** The total count changes by the new entry minus the old one. */
  lemma SetEntryChangesTotal(instances: map<Id, Entries>, h: Id, a: Annotations, n: nat)
    ensures Sum(HostCounts(SetEntry(instances, h, a, n)))
            + (if h in instances && a in instances[h] then instances[h][a] else 0)
            == Sum(HostCounts(instances)) + n
  {
    SetEntryCountForHost(instances, h, a, n);
    SetEntryKeepsOtherHosts(instances, h, a, n);
    SumWithout(HostCounts(instances), h);
    SumWithout(HostCounts(SetEntry(instances, h, a, n)), h);
    if h in instances { SumWithout(instances[h], a); }
  }

  /** count() of a component, and 0 when none is stored. */
  ghost function StoredCount(cs: map<Id, Component>, c: Id): nat {
    if c in cs then Count(cs[c]) else 0
  }

  ghost function StoredCountForHost(cs: map<Id, Component>, c: Id, h: Id): nat {
    if c in cs then CountForHost(cs[c], h) else 0
  }

  lemma NewCounts(h: Id, a: Annotations, n: nat)
    ensures Sum(map[a := n]) == n && Sum(HostCounts(map[h := map[a := n]])) == n
  {
    SumAt(map[a := n], a);
    assert map[a := n] - {a} == map[];
    var counts := HostCounts(map[h := map[a := n]]);
    SumAt(counts, h);
    assert counts - {h} == map[];
  }

  /** The count of the component changes by the event's number minus the old entry; of a component that was
      not stored there is no old entry. */
  lemma ScaledChangesCount(l: Lattice, e: Event)
    requires e.ComponentScaled?
    ensures StoredCount(AfterScaled(l, e).components, e.componentId)
            + View(l.components, e.componentId, e.hostId, e.annotations)
            == StoredCount(l.components, e.componentId) + e.maxInstances
  {
    assert HostCounts(map[]) == map[];
    if e.componentId in l.components {
      SetEntryChangesTotal(l.components[e.componentId].instances, e.hostId, e.annotations, e.maxInstances);
    } else {
      NewCounts(e.hostId, e.annotations, e.maxInstances);
      assert e.hostId in map[e.hostId := map[e.annotations := e.maxInstances]];
    }
  }

  lemma SetEntryCountAt(instances: map<Id, Entries>, h: Id, a: Annotations, n: nat, h': Id)
    ensures var after := SetEntry(instances, h, a, n);
      (if h' in after then Sum(after[h']) else 0) + (if h' == h then EntryView(instances, h, a) else 0)
      == (if h' in instances then Sum(instances[h']) else 0) + (if h' == h then n else 0)
  {
    if h' == h {
      SetEntryCountForHost(instances, h, a, n);
      if h in instances { SumWithout(instances[h], a); }
    }
  }

  /** The same for the component's count on one host; on the others it stays. */
  lemma ScaledChangesCountForHost(l: Lattice, e: Event, h: Id)
    requires e.ComponentScaled?
    ensures var before, after := l.components, AfterScaled(l, e).components;
      StoredCountForHost(after, e.componentId, h)
      + (if h == e.hostId then View(before, e.componentId, h, e.annotations) else 0)
      == StoredCountForHost(before, e.componentId, h) + (if h == e.hostId then e.maxInstances else 0)
  {
    if e.componentId in l.components {
      var instances := l.components[e.componentId].instances;
      SetEntryCountAt(instances, e.hostId, e.annotations, e.maxInstances, h);
    } else {
      NewCounts(e.hostId, e.annotations, e.maxInstances);
      assert e.hostId in map[e.hostId := map[e.annotations := e.maxInstances]];
    }
  }

  lemma SumWithout<K(!new)>(m: map<K, nat>, k: K)
    ensures Sum(m) == (if k in m then m[k] else 0) + Sum(m - {k})
  {
    if k in m { SumAt(m, k); } else { assert m - {k} == m; }
  }
}
