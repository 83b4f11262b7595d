/** States that runs from the empty store lead to. */
module ReachableStates {
  import opened Wrappers
  import opened LatticeState
  import opened Events
  import opened LatticeSpec
  import opened LatticeInvariants

  const NOTHING := Lattice(map[], map[], map[])

  lemma NothingIsConsistent()
    ensures Consistent(NOTHING)
  {}

  lemma RunSnoc(l: Lattice, actions: seq<Action>, a: Action)
    ensures Run(l, actions + [a]) == Act(Run(l, actions), a)
  {
    assert (actions + [a])[..|actions|] == actions;
  }

  /** A host that has just started, at time 0. */
  function NewHost(h: Id): Host {
    Host(h, "", map[], map[], map[], 0, None, 0)
  }

  lemma OneHostStarts(h: Id) returns (actions: seq<Action>)
    ensures Run(NOTHING, actions) == Lattice(map[h := NewHost(h)], map[], map[])
  {
    var start := Handle(HostStarted(h, "", map[]), 0, map[]);
    RunSnoc(NOTHING, [], start);
    actions := [] + [start];
  }

  lemma TwoHostsStart(h: Id, i: Id) returns (actions: seq<Action>)
    ensures Run(NOTHING, actions) == Lattice(map[h := NewHost(h), i := NewHost(i)], map[], map[])
  {
    var one := OneHostStarts(h);
    var start := Handle(HostStarted(i, "", map[]), 0, map[]);
    RunSnoc(NOTHING, one, start);
    actions := one + [start];
  }

  lemma StartsOn(l: Lattice, h: Id, p: Id)
    requires h in l.hosts && l.hosts[h] == NewHost(h) && l.providers == map[]
    ensures Act(l, Handle(ProviderStarted(p, h, map[], "", None), 0, map[])).hosts ==
            l.hosts[h := NewHost(h).(providers := map[p := ProviderInfo("", map[])])]
  {}

  lemma ReapsNobody(l: Lattice)
    requires forall h :: h in l.hosts ==> l.hosts[h].lastSeen == 0
    ensures Act(l, Reap(0, 0)).hosts == l.hosts
  {}

  /** A provider runs on one of two hosts, started by hand. */
  lemma OneOfTwoRuns(h: Id, i: Id, p: Id) returns (actions: seq<Action>)
    requires h != i
    ensures var l := Run(NOTHING, actions);
      && Consistent(l) && Reaped(l) && l.hosts.Keys == {h, i}
      && l.hosts[h].providers == map[p := ProviderInfo("", map[])] && l.hosts[i].providers == map[]
      && l.hosts[h].labels == map[] && l.hosts[i].labels == map[]
  {
    var before := TwoHostsStart(h, i);
    var start := Handle(ProviderStarted(p, h, map[], "", None), 0, map[]);
    RunSnoc(NOTHING, before, start);
    StartsOn(Run(NOTHING, before), h, p);
    RunSnoc(NOTHING, before + [start], Reap(0, 0));
    ReapsNobody(Run(NOTHING, before + [start]));
    ReapedAfter(before + [start]);
    actions := before + [start] + [Reap(0, 0)];
  }

  lemma ReapedAfter(actions: seq<Action>)
    ensures Consistent(Run(NOTHING, actions + [Reap(0, 0)])) && Reaped(Run(NOTHING, actions + [Reap(0, 0)]))
  {
    NothingIsConsistent();
    RunThenReap(NOTHING, actions, 0, 0);
  }

  function Scaled(c: Id, h: Id, a: Annotations, n: nat): Action {
    Handle(ComponentScaled(c, h, a, n, "", None), 0, map[])
  }

  function Record(c: Id, instances: map<Id, Entries>): Component {
    Component(c, "", "", "", instances)
  }

  lemma FirstScaled(l: Lattice, c: Id, h: Id, a: Annotations, n: nat)
    requires l.components == map[]
    ensures Act(l, Scaled(c, h, a, n)).components == map[c := Record(c, map[h := map[a := n]])]
  {
    var instances: map<Id, Entries> := map[h := map[a := n]];
    assert h in instances;
  }

  /** A component has instances on one host. */
  lemma OneEntry(h: Id, c: Id, a: Annotations, n: nat) returns (actions: seq<Action>)
    ensures var l := Run(NOTHING, actions);
      && Consistent(l) && h in l.hosts && l.hosts[h].labels == map[]
      && l.components == map[c := Record(c, map[h := map[a := n]])]
  {
    var before := OneHostStarts(h);
    RunSnoc(NOTHING, before, Scaled(c, h, a, n));
    FirstScaled(Run(NOTHING, before), c, h, a, n);
    actions := before + [Scaled(c, h, a, n)];
    NothingIsConsistent();
    RunKeepsConsistent(NOTHING, actions);
  }

  lemma ScaledAgain(l: Lattice, c: Id, h: Id, a: Annotations, instances: map<Id, Entries>)
    requires l.components == map[c := Record(c, instances)]
    ensures Act(l, Scaled(c, h, a, 1)).components ==
            map[c := Record(c, instances[h := (if h in instances then instances[h] else map[])[a := 1]])]
  {
    assert h in SetEntry(instances, h, a, 1);
  }

  /** A component has two entries on one host, and one on another. */
  lemma ThreeEntries(h: Id, i: Id, c: Id, a: Annotations, b: Annotations) returns (actions: seq<Action>)
    requires h != i && a != b
    ensures var l := Run(NOTHING, actions);
      Consistent(l) && l.components == map[c := Record(c, map[h := map[a := 1, b := 1], i := map[a := 1]])]
  {
    var two := TwoEntries(h, i, c, a, b);
    RunSnoc(NOTHING, two, Scaled(c, i, a, 1));
    ScaledAgain(Run(NOTHING, two), c, i, a, map[h := map[a := 1, b := 1]]);
    actions := two + [Scaled(c, i, a, 1)];
    NothingIsConsistent();
    RunKeepsConsistent(NOTHING, actions);
  }

  lemma TwoEntries(h: Id, i: Id, c: Id, a: Annotations, b: Annotations) returns (actions: seq<Action>)
    requires a != b
    ensures Run(NOTHING, actions).components == map[c := Record(c, map[h := map[a := 1, b := 1]])]
  {
    var before := TwoHostsStart(h, i);
    RunSnoc(NOTHING, before, Scaled(c, h, a, 1));
    FirstScaled(Run(NOTHING, before), c, h, a, 1);
    var one := before + [Scaled(c, h, a, 1)];
    RunSnoc(NOTHING, one, Scaled(c, h, b, 1));
    var entry: Entries, entries: Entries := map[a := 1], map[a := 1, b := 1];
    var instances: map<Id, Entries> := map[h := entry];
    ScaledAgain(Run(NOTHING, one), c, h, b, instances);
    assert entry[b := 1] == entries && instances[h := entries] == map[h := entries];
    actions := one + [Scaled(c, h, b, 1)];
  }
}
