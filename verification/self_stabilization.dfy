/** Whatever the store held, one heartbeat of every live host and one reap pass repair it. */
module SelfStabilization {
  import opened Wrappers
  import opened LatticeState
  import opened Events
  import opened LatticeSpec
  import opened LatticeInvariants
  import opened ReachableStates

  ghost predicate DistinctIds(ds: seq<ComponentDescription>) {
    forall i, j :: 0 <= i < j < |ds| ==> ds[i].id != ds[j].id
  }

  ghost predicate IsHeartbeat(a: Action) {
    a.Handle? && a.event.HostHeartbeat? && DistinctIds(a.event.components)
  }

  ghost predicate Heartbeats(actions: seq<Action>) {
    forall i :: 0 <= i < |actions| ==> IsHeartbeat(actions[i])
  }

  /** Some entry of the component on the host has the count that the host reports. */
  ghost predicate HasCount(l: Lattice, h: Id, c: Id, n: nat) {
    ComponentLists(l, c, h) && exists a :: a in l.components[c].instances[h] && l.components[c].instances[h][a] == n
  }

  ghost predicate CountsAgree(l: Lattice, s: set<Id>) {
    forall h, c :: h in s && HostListsComponent(l, h, c) ==> HasCount(l, h, c, l.hosts[h].components[c])
  }

  lemma {:induction false} ReportedCount(ds: seq<ComponentDescription>, i: nat)
    requires i < |ds| && DistinctIds(ds)
    ensures ds[i].id in ReportedComponents(ds) && ReportedComponents(ds)[ds[i].id] == ds[i].maxInstances
  {
    var n := |ds| - 1;
    if i < n {
      ReportedCount(ds[..n], i);
    }
  }

  lemma {:induction false} OnlyDescription(cs: map<Id, Component>, h: Id, ds: seq<ComponentDescription>, i: nat)
    requires i < |ds| && DistinctIds(ds)
    ensures LastApplied(cs, h, ds, ds[i].id) == if Skips(cs, h, ds[i]) then None else Some(ds[i])
  {
    var c := ds[i].id;
    var r := LastApplied(cs, h, ds, c);
    if r.Some? {
      var j :| 0 <= j < |ds| && ds[j] == r.value;
      assert j == i;
    } else {
      NoneApplied(cs, h, ds, c, ds[i]);
    }
  }

  function ReportedEntries(d: ComponentDescription): Entries {
    map[d.annotations.GetOr(map[]) := d.maxInstances]
  }

  /** The component is taken to be up to date although it runs on several hosts: as many as it has entries
      on this one, where the report knows of one entry. */
  predicate SkippedWrongly(l: Lattice, h: Id, d: ComponentDescription) {
    Skips(l.components, h, d) && |l.components[d.id].instances| > 1
  }

  lemma OneEntry(entries: Entries, x: Annotations, n: nat)
    requires x in entries && entries[x] == n
    ensures entries == map[x := n] <==> |entries| == 1
  {
    assert (entries - {x}).Keys == entries.Keys - {x};
    if |entries| == 1 {
      assert |entries.Keys - {x}| == 0;
      assert entries.Keys == {x};
    }
  }

  /** A heartbeat leaves exactly the reported entry of a component on its host, unless it skips a component
      that runs on several hosts. */
  lemma HeartbeatEntriesIff(l: Lattice, a: Action, i: nat)
    requires IsHeartbeat(a) && i < |a.event.components|
    ensures var h, d := a.event.hostId, a.event.components[i];
      && ComponentLists(Act(l, a), d.id, h)
      && (Act(l, a).components[d.id].instances[h] == ReportedEntries(d) <==> !SkippedWrongly(l, h, d))
  {
    var h, d := a.event.hostId, a.event.components[i];
    ComponentAfterHeartbeat(l.components, a.claims, h, a.event.components, d.id);
    OnlyDescription(l.components, h, a.event.components, i);
    if Skips(l.components, h, d) {
      OneEntry(l.components[d.id].instances[h], d.annotations.GetOr(map[]), d.maxInstances);
      assert h in l.components[d.id].instances.Keys;
    } else {
      DescribedHere(l.components, a.claims, h, d);
    }
  }

  /** Two annotation sets. */
  lemma TwoSets() returns (now: Annotations, stale: Annotations)
    ensures now != stale
  {
    now, stale := map["k" := "now"], map["k" := "stale"];
    assert now["k"][0] != stale["k"][0];
  }

  /** Scaling events give a component two entries on host h, one of them stale by now, and one on host i: when
      h reports the other entry, the stale one stays. */
  lemma HeartbeatKeepsStaleEntry(h: Id, i: Id, c: Id)
    returns (actions: seq<Action>, beat: Action, d: ComponentDescription, stale: Annotations)
    requires h != i
    ensures var l := Run(NOTHING, actions);
      && Consistent(l) && IsHeartbeat(beat) && beat.event.hostId == h && beat.event.components == [d]
      && d.id == c && stale !in ReportedEntries(d) && SkippedWrongly(l, h, d)
      && ComponentLists(Act(l, beat), c, h) && stale in Act(l, beat).components[c].instances[h]
  {
    var now;
    now, stale := TwoSets();
    actions := ThreeEntries(h, i, c, now, stale);
    var l := Run(NOTHING, actions);
    d := ComponentDescription(c, "", None, Some(now), 1);
    beat := Handle(HostHeartbeat(h, "", map[], [d], [], 0, ""), 0, map[]);
    TwoEntriesTwoHosts(l.components[c], h, i, now, stale);
    OnlyDescription(l.components, h, [d], 0);
    ComponentAfterHeartbeat(l.components, map[], h, [d], c);
  }

  /** As many entries on the one host as there are hosts. */
  lemma TwoEntriesTwoHosts(r: Component, h: Id, i: Id, now: Annotations, stale: Annotations)
    requires h != i && now != stale && r.instances == map[h := map[now := 1, stale := 1], i := map[now := 1]]
    ensures |r.instances[h]| == 2 && |r.instances| == 2
  {
    assert r.instances[h].Keys == {now, stale} && r.instances.Keys == {h, i};
  }

  /** So at least some entry has the reported count. */
  lemma HeartbeatReportsCount(l: Lattice, a: Action, i: nat)
    requires IsHeartbeat(a) && i < |a.event.components|
    ensures HasCount(Act(l, a), a.event.hostId, a.event.components[i].id, a.event.components[i].maxInstances)
  {
    var e, d := a.event, a.event.components[i];
    ComponentAfterHeartbeat(l.components, a.claims, e.hostId, e.components, d.id);
    OnlyDescription(l.components, e.hostId, e.components, i);
    assert Act(l, a).components[d.id].instances[e.hostId][d.annotations.GetOr(map[])] == d.maxInstances;
  }

  lemma HeartbeatKeepsCounts(l: Lattice, a: Action, s: set<Id>)
    requires IsHeartbeat(a) && CountsAgree(l, s)
    ensures CountsAgree(Act(l, a), s + {a.event.hostId})
  {
    var l', e := Act(l, a), a.event;
    forall h, c | h in s + {e.hostId} && HostListsComponent(l', h, c)
      ensures HasCount(l', h, c, l'.hosts[h].components[c])
    {
      if h == e.hostId {
        ReportedComponentsKeys(e.components, c);
        var i :| 0 <= i < |e.components| && e.components[i].id == c;
        ReportedCount(e.components, i);
        HeartbeatReportsCount(l, a, i);
      } else {
        assert HostListsComponent(l, h, c);
        var n := l.hosts[h].components[c];
        var x :| x in l.components[c].instances[h] && l.components[c].instances[h][x] == n;
        HeartbeatComponents(l, e, a.now, a.claims, c);
        assert l'.components[c].instances[h] == l.components[c].instances[h];
      }
    }
  }

  lemma {:induction false} HeartbeatsAgree(l: Lattice, actions: seq<Action>)
    requires Heartbeats(actions)
    ensures CountsAgree(Run(l, actions), AllReporters(actions))
    ensures AllReporters(actions) <= Run(l, actions).hosts.Keys
  {
    if actions != [] {
      var n := |actions| - 1;
      HeartbeatsAgree(l, actions[..n]);
      HeartbeatKeepsCounts(Run(l, actions[..n]), actions[n], AllReporters(actions[..n]));
    }
  }

  // ---------- what later heartbeats and the reap pass leave alone ----------

  lemma {:induction false} RunAppend(l: Lattice, xs: seq<Action>, ys: seq<Action>)
    ensures Run(l, xs + ys) == Run(Run(l, xs), ys)
  {
    if ys == [] {
      assert xs + ys == xs;
    } else {
      assert (xs + ys)[..|xs + ys| - 1] == xs + ys[..|ys| - 1];
      RunAppend(l, xs, ys[..|ys| - 1]);
    }
  }

  /** Heartbeats of other hosts change neither the host's record nor its entries. */
  lemma {:induction false} OthersBeat(l: Lattice, beats: seq<Action>, h: Id, c: Id)
    requires Heartbeats(beats) && h !in AllReporters(beats) && h in l.hosts && ComponentLists(l, c, h)
    ensures var l' := Run(l, beats);
      && h in l'.hosts && l'.hosts[h] == l.hosts[h]
      && ComponentLists(l', c, h) && l'.components[c].instances[h] == l.components[c].instances[h]
  {
    if beats != [] {
      var front, last := beats[..|beats| - 1], beats[|beats| - 1];
      OthersBeat(l, front, h, c);
      HeartbeatComponents(Run(l, front), last.event, last.now, last.claims, c);
    }
  }

  /** beats[k] is the last heartbeat of its host. */
  ghost predicate LastBeat(beats: seq<Action>, k: nat) {
    k < |beats| && beats[k].Handle? && beats[k].event.HostHeartbeat? && beats[k].event.hostId !in AllReporters(beats[k + 1..])
  }

  /** A component has exactly the entry that its host reported last, unless that heartbeat skipped it wrongly. */
  ghost predicate ExactEntries(l: Lattice, beats: seq<Action>, l': Lattice) {
    forall k: nat, i: nat :: LastBeat(beats, k) && i < |beats[k].event.components| ==>
      EntriesAsReported(Run(l, beats[..k]), l', beats[k].event.hostId, beats[k].event.components[i])
  }

  ghost predicate EntriesAsReported(before: Lattice, after: Lattice, h: Id, d: ComponentDescription) {
    && ComponentLists(after, d.id, h)
    && (after.components[d.id].instances[h] == ReportedEntries(d) <==> !SkippedWrongly(before, h, d))
  }

  lemma RunSplit(l: Lattice, actions: seq<Action>, k: nat)
    requires k < |actions|
    ensures Run(l, actions) == Run(Act(Run(l, actions[..k]), actions[k]), actions[k + 1..])
  {
    assert actions[..k] + [actions[k]] + actions[k + 1..] == actions;
    RunAppend(l, actions[..k] + [actions[k]], actions[k + 1..]);
    RunSnoc(l, actions[..k], actions[k]);
  }

  /** What the heartbeat leaves stays, while only others report. */
  lemma EntriesStay(before: Lattice, a: Action, i: nat, beats: seq<Action>)
    requires IsHeartbeat(a) && i < |a.event.components| && Heartbeats(beats) && a.event.hostId !in AllReporters(beats)
    ensures var l', d := Run(Act(before, a), beats), a.event.components[i];
      EntriesAsReported(before, l', a.event.hostId, d) && HostListsComponent(l', a.event.hostId, d.id)
  {
    HeartbeatEntriesIff(before, a, i);
    ReportedCount(a.event.components, i);
    OthersBeat(Act(before, a), beats, a.event.hostId, a.event.components[i].id);
  }

  lemma BeatsGiveEntries(l: Lattice, beats: seq<Action>, k: nat, i: nat)
    requires Heartbeats(beats) && LastBeat(beats, k) && i < |beats[k].event.components|
    ensures var h, d := beats[k].event.hostId, beats[k].event.components[i];
      EntriesAsReported(Run(l, beats[..k]), Run(l, beats), h, d) && HostListsComponent(Run(l, beats), h, d.id)
  {
    RunSplit(l, beats, k);
    assert Heartbeats(beats[k + 1..]);
    EntriesStay(Run(l, beats[..k]), beats[k], i, beats[k + 1..]);
  }

  /** The host reported the provider in some heartbeat. */
  predicate ReportedBy(beats: seq<Action>, p: Id, h: Id) {
    beats != []
    && var last := beats[|beats| - 1];
       (ReportedBy(beats[..|beats| - 1], p, h)
        || (last.Handle? && last.event.HostHeartbeat? && last.event.hostId == h && p in ReportedProviders(last.event.providers)))
  }

  /** Providers keep every host they list and get those that report them: nothing in a heartbeat removes a
      host from a provider. */
  lemma {:induction false} BeatsGiveProviders(l: Lattice, beats: seq<Action>, p: Id, h: Id)
    requires Heartbeats(beats)
    ensures ProviderLists(Run(l, beats), p, h) <==> (ProviderLists(l, p, h) || ReportedBy(beats, p, h))
  {
    if beats != [] {
      var front, last := beats[..|beats| - 1], beats[|beats| - 1];
      BeatsGiveProviders(l, front, p, h);
      var e := last.event;
      ReportedProvidersKeys(e.providers, p);
      ProviderAfterHeartbeat(Run(l, front).providers, e.hostId, e.providers, p);
    }
  }

  ghost predicate ProvidersAsReported(l: Lattice, beats: seq<Action>, l': Lattice) {
    forall p, h :: h in l'.hosts ==> (ProviderLists(l', p, h) <==> (ProviderLists(l, p, h) || ReportedBy(beats, p, h)))
  }

  lemma ReapLeaves(l: Lattice, now: int, interval: int, h: Id)
    requires KeyedById(l) && h in AfterReap(l, now, interval).hosts
    ensures var l' := AfterReap(l, now, interval);
      && (forall c :: HostListsComponent(l, h, c) && ComponentLists(l, c, h) ==>
            ComponentLists(l', c, h) && l'.components[c].instances[h] == l.components[c].instances[h])
      && (forall p :: ProviderLists(l', p, h) <==> ProviderLists(l, p, h))
  {
    var l' := AfterReap(l, now, interval);
    forall c | HostListsComponent(l, h, c) && ComponentLists(l, c, h)
      ensures ComponentLists(l', c, h) && l'.components[c].instances[h] == l.components[c].instances[h]
    {
      assert h in ReapedComponent(l.components[c], l'.hosts).instances;
    }
    forall p ensures ProviderLists(l', p, h) <==> ProviderLists(l, p, h) {
      if ProviderLists(l, p, h) { assert h in ReapedProvider(l.providers[p], l'.hosts).hosts; }
    }
  }

  /** Self-stabilisation, from any store keyed by id. */
  lemma Stabilizes(l: Lattice, beats: seq<Action>, now: int, interval: int)
    requires KeyedById(l) && Heartbeats(beats)
    requires forall h :: h in Run(l, beats).hosts ==>
               (now - Run(l, beats).hosts[h].lastSeen > interval * 2 <==> h !in AllReporters(beats))
    ensures var l' := AfterReap(Run(l, beats), now, interval);
      && l'.hosts.Keys == AllReporters(beats)
      && Reaped(l')
      && CountsAgree(l', AllReporters(beats))
      && ExactEntries(l, beats, l')
      && ProvidersAsReported(l, beats, l')
  {
    var l1 := Run(l, beats);
    var l' := AfterReap(l1, now, interval);
    RunListsBack(l, beats);
    HeartbeatsAgree(l, beats);
    assert l'.hosts.Keys == AllReporters(beats);
    ReapEstablishes(l1, now, interval);
    forall h | h in l'.hosts { ReapLeaves(l1, now, interval, h); }
    forall h, c | h in AllReporters(beats) && HostListsComponent(l', h, c)
      ensures HasCount(l', h, c, l'.hosts[h].components[c])
    {
      assert HostListsComponent(l1, h, c);
    }
    forall k: nat, i: nat | LastBeat(beats, k) && i < |beats[k].event.components|
      ensures EntriesAsReported(Run(l, beats[..k]), l', beats[k].event.hostId, beats[k].event.components[i])
    {
      ReportersInclude(beats, k);
      BeatsGiveEntries(l, beats, k, i);
    }
    forall p, h | h in l'.hosts { BeatsGiveProviders(l, beats, p, h); }
  }

  lemma {:induction false} ReportersInclude(beats: seq<Action>, k: nat)
    requires k < |beats|
    ensures Reporters(beats[k]) <= AllReporters(beats)
  {
    if k < |beats| - 1 { ReportersInclude(beats[..|beats| - 1], k); }
  }

  /** The index half needs no heartbeats only: after any run in which every host that the reap pass
      leaves has reported, both directions agree. */
  lemma StabilizesUnderTraffic(l: Lattice, actions: seq<Action>, now: int, interval: int)
    requires KeyedById(l)
    requires AfterReap(Run(l, actions), now, interval).hosts.Keys <= AllReporters(actions)
    ensures Reaped(AfterReap(Run(l, actions), now, interval))
  {
    RunListsBack(l, actions);
    ReapEstablishes(Run(l, actions), now, interval);
  }
}
