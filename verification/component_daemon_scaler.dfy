/** The scaler that runs a number of instances of one component on every eligible host. */
module ComponentDaemonScalers {
  import opened Wrappers
  import opened Collections
  import opened LatticeState
  import opened Events
  import opened LatticeSpec
  import opened Commands
  import opened Spreads
  import I = LatticeInvariants
  import R = ReachableStates

  datatype DaemonConfig = DaemonConfig(
    componentId: Id, reference: string, modelName: string, id: string,
    instances: nat, spreads: seq<Spread>, config: seq<string>)

  function EntriesOf(cs: map<Id, Component>, c: Id, h: Id): Entries {
    if c in cs && h in cs[c].instances then cs[c].instances[h] else map[]
  }

  function Carried(entries: Entries, wanted: Annotations): Entries {
    map a | a in entries && Carries(a, wanted) :: entries[a]
  }

  /** The instances on host h that count for spread i. */
  ghost function Total(l: Lattice, cfg: DaemonConfig, i: nat, h: Id): nat
    requires i < |cfg.spreads|
  {
    Sum(Carried(EntriesOf(l.components, cfg.componentId, h), SpreadAnnotations(cfg.spreads[i].name, cfg.id)))
  }

  /** What an entry started for spread i is stored under. */
  function OwnKey(cfg: DaemonConfig, i: nat): Annotations
    requires i < |cfg.spreads|
  {
    Managed(SpreadAnnotations(cfg.spreads[i].name, cfg.id), cfg.modelName)
  }

  /** The instances that count for spread i but sit under other annotations than the scaler's own. */
  ghost function Foreign(l: Lattice, cfg: DaemonConfig, i: nat, h: Id): nat
    requires i < |cfg.spreads|
  {
    Sum(Carried(EntriesOf(l.components, cfg.componentId, h), SpreadAnnotations(cfg.spreads[i].name, cfg.id))
        - {OwnKey(cfg, i)})
  }

  function RemoveCommand(cfg: DaemonConfig, h: Id): Command {
    ScaleComponent(cfg.componentId, h, 0, cfg.reference, cfg.modelName, map[], cfg.config)
  }

  /** The requested number is cast to 32 bits. */
  function ScaleCommand(cfg: DaemonConfig, i: nat, h: Id): Command
    requires i < |cfg.spreads|
  {
    ScaleComponent(cfg.componentId, h, cfg.instances % U32, cfg.reference, cfg.modelName,
                   SpreadAnnotations(cfg.spreads[i].name, cfg.id), cfg.config)
  }

  /** The ineligible hosts that list the component. */
  function Misplaced(l: Lattice, cfg: DaemonConfig): set<Id> {
    set h | h in IneligibleHosts(l.hosts, cfg.spreads) && cfg.componentId in l.hosts[h].components
  }

  ghost predicate Needs(l: Lattice, cfg: DaemonConfig, i: nat, h: Id) {
    i < |cfg.spreads| && Eligible(l.hosts, cfg.spreads[i], h) && Total(l, cfg, i, h) != cfg.instances
  }

  /** What one reconcile pass returns, in whatever order the host map is walked. */
  ghost predicate Reconciles(l: Lattice, cfg: DaemonConfig, commands: seq<Command>) {
    if Misplaced(l, cfg) != {} then
      forall c :: c in commands <==> exists h :: h in Misplaced(l, cfg) && c == RemoveCommand(cfg, h)
    else
      forall c :: c in commands <==> exists i: nat, h :: Needs(l, cfg, i, h) && c == ScaleCommand(cfg, i, h)
  }

  /** Some of the first n spreads has no eligible host. */
  predicate NoHosts(l: Lattice, cfg: DaemonConfig, n: nat)
    requires n <= |cfg.spreads|
  {
    n > 0 && (NoHosts(l, cfg, n - 1) || EligibleHosts(l.hosts, cfg.spreads[n - 1]) == {})
  }

  ghost function Needing(l: Lattice, cfg: DaemonConfig, i: nat): set<Id> {
    set h | h in l.hosts && Needs(l, cfg, i, h)
  }

  /** How many commands the first n spreads need: one for each spread and host. */
  ghost function NumNeeded(l: Lattice, cfg: DaemonConfig, n: nat): nat {
    if n == 0 then 0 else NumNeeded(l, cfg, n - 1) + |Needing(l, cfg, n - 1)|
  }

  ghost predicate Satisfied(l: Lattice, cfg: DaemonConfig) {
    Misplaced(l, cfg) == {} && forall i: nat, h :: !Needs(l, cfg, i, h)
  }

  lemma NoCommandsMeansSatisfied(l: Lattice, cfg: DaemonConfig, commands: seq<Command>)
    requires Reconciles(l, cfg, commands)
    ensures commands == [] <==> Satisfied(l, cfg)
  {
    if Misplaced(l, cfg) != {} {
      var h :| h in Misplaced(l, cfg);
      assert RemoveCommand(cfg, h) in commands;
    } else {
      assert commands != [] ==> commands[0] in commands;
      if i: nat, h :| Needs(l, cfg, i, h) {
        assert ScaleCommand(cfg, i, h) in commands;
      }
    }
  }

  /** The commands that the first n spreads need. */
  ghost predicate NeededBy(l: Lattice, cfg: DaemonConfig, n: nat, commands: seq<Command>)
    requires n <= |cfg.spreads|
  {
    forall c :: c in commands <==> exists j: nat, h :: j < n && Needs(l, cfg, j, h) && c == ScaleCommand(cfg, j, h)
  }

  lemma NeededByNext(l: Lattice, cfg: DaemonConfig, n: nat, commands: seq<Command>, segment: seq<Command>)
    requires n < |cfg.spreads| && NeededBy(l, cfg, n, commands)
    requires forall c :: c in segment <==> exists h :: h in Needing(l, cfg, n) && c == ScaleCommand(cfg, n, h)
    ensures NeededBy(l, cfg, n + 1, commands + segment)
  {}

  class ComponentDaemonScaler {
    const cfg: DaemonConfig
    var status: Status

    constructor (config: DaemonConfig)
      ensures status == Reconciling
      ensures cfg == if config.spreads == [] then config.(spreads := [Spread("default", map[], None)]) else config
    {
      cfg := if config.spreads == [] then config.(spreads := [Spread("default", map[], None)]) else config;
      status := Reconciling;
    }

    method CountCarried(entries: Entries, wanted: Annotations) returns (total: nat)
      ensures total == Sum(Carried(entries, wanted))
    {
      total := 0;
      var left := Carried(entries, wanted);
      while left != map[]
        invariant total + Sum(left) == Sum(Carried(entries, wanted))
        decreases |left|
      {
        var a :| a in left;
        SumAt(left, a);
        assert (left - {a}).Keys == left.Keys - {a};
        total := total + left[a];
        left := left - {a};
      }
    }

    method Reconcile(l: Lattice) returns (commands: seq<Command>)
      modifies this`status
      ensures Reconciles(l, cfg, commands)
      ensures |commands| == if Misplaced(l, cfg) != {} then |Misplaced(l, cfg)| else NumNeeded(l, cfg, |cfg.spreads|)
      ensures status ==
        if Misplaced(l, cfg) != {} then Reconciling
        else if NoHosts(l, cfg, |cfg.spreads|) then Status.Failed
        else if commands == [] then Deployed else Reconciling
    {
      if Misplaced(l, cfg) != {} {
        commands := RemoveMisplaced(l);
        status := Reconciling;
        return;
      }
      commands := [];
      var failed := false;
      for i := 0 to |cfg.spreads|
        invariant NeededBy(l, cfg, i, commands)
        invariant |commands| == NumNeeded(l, cfg, i)
        invariant failed == NoHosts(l, cfg, i)
      {
        var segment := ReconcileSpread(l, i);
        NeededByNext(l, cfg, i, commands, segment);
        commands := commands + segment;
        if EligibleHosts(l.hosts, cfg.spreads[i]) == {} { failed := true; }
      }
      status := if failed then Status.Failed else if commands == [] then Deployed else Reconciling;
    }

    method RemoveMisplaced(l: Lattice) returns (commands: seq<Command>)
      ensures forall c :: c in commands <==> exists h :: h in Misplaced(l, cfg) && c == RemoveCommand(cfg, h)
      ensures |commands| == |Misplaced(l, cfg)|
    {
      var order := Walk(Misplaced(l, cfg));
      commands := seq(|order|, k requires 0 <= k < |order| => RemoveCommand(cfg, order[k]));
      assert forall k :: 0 <= k < |order| ==> commands[k] == RemoveCommand(cfg, order[k]);
    }

    /** The eligible hosts whose count is not the requested one. */
    method FindNeeding(l: Lattice, i: nat) returns (needing: set<Id>)
      requires i < |cfg.spreads|
      ensures needing == Needing(l, cfg, i)
    {
      var todo := EligibleHosts(l.hosts, cfg.spreads[i]);
      needing := {};
      while todo != {}
        invariant needing == Needing(l, cfg, i) - todo
      {
        var h :| h in todo;
        var current := CountCarried(EntriesOf(l.components, cfg.componentId, h),
                                    SpreadAnnotations(cfg.spreads[i].name, cfg.id));
        todo := todo - {h};
        if current != cfg.instances { needing := needing + {h}; }
      }
    }

    method ReconcileSpread(l: Lattice, i: nat) returns (commands: seq<Command>)
      requires i < |cfg.spreads|
      ensures forall c :: c in commands <==> exists h :: h in Needing(l, cfg, i) && c == ScaleCommand(cfg, i, h)
      ensures |commands| == |Needing(l, cfg, i)|
    {
      var needing := FindNeeding(l, i);
      var order := Walk(needing);
      commands := seq(|order|, k requires 0 <= k < |order| => ScaleCommand(cfg, i, order[k]));
      assert forall k :: 0 <= k < |order| ==> commands[k] == ScaleCommand(cfg, i, order[k]);
    }
  }

  // ---------- the closed loop ----------

  /** The host did what the command says, and reports it; the claims are the host's own. */
  ghost predicate Scaled(c: Command, e: Event) {
    c.ScaleComponent? && e.ComponentScaled? && Echoes(c, e) && e.maxInstances == c.count
  }

  ghost predicate AllScaled(commands: seq<Command>, events: seq<Event>) {
    |commands| == |events| && forall k :: 0 <= k < |commands| ==> Scaled(commands[k], events[k])
  }

  function Play(l: Lattice, events: seq<Event>): Lattice
    requires forall k :: 0 <= k < |events| ==> events[k].ComponentScaled?
  {
    if events == [] then l else AfterScaled(Play(l, events[..|events| - 1]), events[|events| - 1])
  }

  lemma SetEntryHere(instances: map<Id, Entries>, h: Id, a: Annotations, n: nat)
    ensures var before: Entries := if h in instances then instances[h] else map[];
      var set_ := SetEntry(instances, h, a, n);
      (if h in set_ then set_[h] else map[]) == if n > 0 then before[a := n] else before - {a}
  {
    var none: Entries := map[];
    assert none - {a} == none;
    if n == 0 && h in instances && instances[h] - {a} == none {
      assert h !in SetEntry(instances, h, a, n);
    }
  }

  lemma SetEntryThere(instances: map<Id, Entries>, h: Id, a: Annotations, n: nat, h': Id)
    requires h' != h
    ensures h' in SetEntry(instances, h, a, n) <==> h' in instances
    ensures h' in instances ==> SetEntry(instances, h, a, n)[h'] == instances[h']
  {}

  /** The component's entries on one host after a scale event. */
  lemma EntriesAfterScaled(l: Lattice, e: Event, h: Id)
    requires e.ComponentScaled?
    ensures var before := EntriesOf(l.components, e.componentId, h);
      var after := EntriesOf(AfterScaled(l, e).components, e.componentId, h);
      if h == e.hostId then
        after == before[e.annotations := e.maxInstances] || (e.maxInstances == 0 && after == before - {e.annotations})
      else after == before
  {
    if e.componentId in l.components {
      StoredEntriesAfterScaled(l, e, h);
    } else {
      NewEntriesAfterScaled(l, e, h);
    }
  }

  lemma StoredEntriesAfterScaled(l: Lattice, e: Event, h: Id)
    requires e.ComponentScaled? && e.componentId in l.components
    ensures var before := EntriesOf(l.components, e.componentId, h);
      EntriesOf(AfterScaled(l, e).components, e.componentId, h) ==
      if h != e.hostId then before
      else if e.maxInstances > 0 then before[e.annotations := e.maxInstances]
      else before - {e.annotations}
  {
    var instances := l.components[e.componentId].instances;
    if h == e.hostId {
      SetEntryHere(instances, h, e.annotations, e.maxInstances);
    } else {
      SetEntryThere(instances, e.hostId, e.annotations, e.maxInstances, h);
    }
  }

  lemma NewEntriesAfterScaled(l: Lattice, e: Event, h: Id)
    requires e.ComponentScaled? && e.componentId !in l.components
    ensures EntriesOf(AfterScaled(l, e).components, e.componentId, h) ==
            if h == e.hostId then map[e.annotations := e.maxInstances] else map[]
  {
    var instances := map[e.hostId := map[e.annotations := e.maxInstances]];
    assert e.hostId in instances && ScaledRecord(l.components, e).instances == instances;
  }

  /** Setting one entry changes a total only if the entry counts for it. */
  lemma CarriedAfterSet(entries: Entries, after: Entries, a: Annotations, n: nat, wanted: Annotations, own: Annotations)
    requires after == entries[a := n] || (n == 0 && after == entries - {a})
    requires Carries(a, wanted) ==> a == own
    ensures Sum(Carried(after, wanted) - {own}) == Sum(Carried(entries, wanted) - {own})
    ensures Sum(Carried(after, wanted)) ==
            (if Carries(a, wanted) then Sum(Carried(entries, wanted) - {own}) + n else Sum(Carried(entries, wanted)))
  {
    assert Carried(after, wanted) - {a} == Carried(entries, wanted) - {a};
    if Carries(a, wanted) {
      if a in Carried(after, wanted) {
        SumAt(Carried(after, wanted), a);
      } else {
        assert Carried(after, wanted) - {a} == Carried(after, wanted);
      }
    } else {
      assert Carried(after, wanted) == Carried(entries, wanted);
    }
  }

  lemma TotalAfterScaled(l: Lattice, cfg: DaemonConfig, e: Event, i: nat, h: Id)
    requires i < |cfg.spreads| && e.ComponentScaled? && e.componentId == cfg.componentId
    requires e.annotations == Managed(map[], cfg.modelName)
             || exists j :: 0 <= j < |cfg.spreads| && e.annotations == OwnKey(cfg, j)
    ensures Foreign(AfterScaled(l, e), cfg, i, h) == Foreign(l, cfg, i, h)
    ensures Total(AfterScaled(l, e), cfg, i, h) ==
            (if h == e.hostId && e.annotations == OwnKey(cfg, i) then Foreign(l, cfg, i, h) + e.maxInstances
             else Total(l, cfg, i, h))
  {
    EntriesAfterScaled(l, e, h);
    var name := cfg.spreads[i].name;
    ManagedCarries(name, name, cfg.id, cfg.modelName);
    if e.annotations != Managed(map[], cfg.modelName) {
      var j :| 0 <= j < |cfg.spreads| && e.annotations == OwnKey(cfg, j);
      ManagedCarries(cfg.spreads[j].name, name, cfg.id, cfg.modelName);
    }
    if h == e.hostId {
      CarriedAfterSet(EntriesOf(l.components, cfg.componentId, h),
                      EntriesOf(AfterScaled(l, e).components, cfg.componentId, h),
                      e.annotations, e.maxInstances, SpreadAnnotations(name, cfg.id), OwnKey(cfg, i));
    }
  }

  /** The hosts, their labels and what else they list do not change. */
  ghost predicate SameHostsExcept(l: Lattice, l': Lattice, c: Id, touched: set<Id>) {
    && l'.hosts.Keys == l.hosts.Keys
    && (forall h :: h in l.hosts ==> l'.hosts[h].labels == l.hosts[h].labels && l'.hosts[h].id == h)
    && (forall h :: h in l.hosts && h !in touched ==> (c in l'.hosts[h].components <==> c in l.hosts[h].components))
  }

  function HostsOf(events: seq<Event>): set<Id>
    requires forall k :: 0 <= k < |events| ==> events[k].ComponentScaled?
  {
    set k | 0 <= k < |events| :: events[k].hostId
  }

  /** The events all set the same number, for spreads of this scaler or for none. */
  ghost predicate Uniform(cfg: DaemonConfig, events: seq<Event>, n: nat) {
    forall k :: 0 <= k < |events| ==>
      && events[k].ComponentScaled? && events[k].componentId == cfg.componentId && events[k].maxInstances == n
      && (events[k].annotations == Managed(map[], cfg.modelName)
          || exists j :: 0 <= j < |cfg.spreads| && events[k].annotations == OwnKey(cfg, j))
  }

  ghost predicate Sets(events: seq<Event>, h: Id, a: Annotations)
    requires forall k :: 0 <= k < |events| ==> events[k].ComponentScaled?
  {
    exists k :: 0 <= k < |events| && events[k].hostId == h && events[k].annotations == a
  }

  lemma SetsLast(events: seq<Event>, h: Id, a: Annotations)
    requires events != [] && forall k :: 0 <= k < |events| ==> events[k].ComponentScaled?
    ensures var last := events[|events| - 1];
      Sets(events, h, a) <==> Sets(events[..|events| - 1], h, a) || (last.hostId == h && last.annotations == a)
  {
    var front := events[..|events| - 1];
    assert forall k :: 0 <= k < |front| ==> front[k] == events[k];
    if Sets(front, h, a) {
      var k :| 0 <= k < |front| && front[k].hostId == h && front[k].annotations == a;
      assert events[k].hostId == h && events[k].annotations == a;
    }
  }

  lemma {:induction false} PlayTotals(l: Lattice, cfg: DaemonConfig, events: seq<Event>, n: nat, i: nat, h: Id)
    requires i < |cfg.spreads| && Uniform(cfg, events, n)
    ensures Foreign(Play(l, events), cfg, i, h) == Foreign(l, cfg, i, h)
    ensures Total(Play(l, events), cfg, i, h) ==
            (if Sets(events, h, OwnKey(cfg, i)) then Foreign(l, cfg, i, h) + n else Total(l, cfg, i, h))
  {
    if events != [] {
      var m := |events| - 1;
      var front := events[..m];
      PlayTotals(l, cfg, front, n, i, h);
      TotalAfterScaled(Play(l, front), cfg, events[m], i, h);
      SetsLast(events, h, OwnKey(cfg, i));
    }
  }

  lemma {:induction false} PlayHosts(l: Lattice, c: Id, events: seq<Event>)
    requires forall h :: h in l.hosts ==> l.hosts[h].id == h
    requires forall k :: 0 <= k < |events| ==> events[k].ComponentScaled? && events[k].componentId == c
    ensures SameHostsExcept(l, Play(l, events), c, HostsOf(events))
  {
    if events != [] {
      var m := |events| - 1;
      PlayHosts(l, c, events[..m]);
      assert HostsOf(events) == HostsOf(events[..m]) + {events[m].hostId} by {
        assert forall k :: 0 <= k < m ==> events[..m][k] == events[k];
      }
    }
  }

  /** A host scaled to 0 no longer lists the component. */
  lemma {:induction false} PlayUnlists(l: Lattice, c: Id, events: seq<Event>, h: Id)
    requires forall k :: k in l.hosts ==> l.hosts[k].id == k
    requires forall k :: 0 <= k < |events| ==>
               events[k].ComponentScaled? && events[k].componentId == c && events[k].maxInstances == 0
    requires h in HostsOf(events) && h in l.hosts
    ensures h in Play(l, events).hosts && c !in Play(l, events).hosts[h].components
  {
    var m := |events| - 1;
    PlayHosts(l, c, events[..m]);
    if events[m].hostId != h {
      var k :| 0 <= k < |events| && events[k].hostId == h;
      assert events[..m][k] == events[k];
      PlayUnlists(l, c, events[..m], h);
    }
  }

  /** After the round that clears misplaced instances none is left, and no total has changed. */
  lemma ClearingRound(l: Lattice, cfg: DaemonConfig, commands: seq<Command>, events: seq<Event>)
    requires forall h :: h in l.hosts ==> l.hosts[h].id == h
    requires Misplaced(l, cfg) != {} && Reconciles(l, cfg, commands) && AllScaled(commands, events)
    ensures var l' := Play(l, events);
      && Misplaced(l', cfg) == {} && SameHostsExcept(l, l', cfg.componentId, HostsOf(events))
      && forall i: nat, h :: i < |cfg.spreads| ==>
           Total(l', cfg, i, h) == Total(l, cfg, i, h) && Foreign(l', cfg, i, h) == Foreign(l, cfg, i, h)
  {
    forall k | 0 <= k < |events|
      ensures events[k].componentId == cfg.componentId && events[k].maxInstances == 0
      ensures events[k].annotations == Managed(map[], cfg.modelName)
    {
      assert commands[k] in commands;
    }
    PlayHosts(l, cfg.componentId, events);
    var l' := Play(l, events);
    forall h | h in HostsOf(events) ensures h in Misplaced(l, cfg) {
      var k :| 0 <= k < |events| && events[k].hostId == h;
      assert commands[k] in commands;
    }
    forall h | h in Misplaced(l, cfg) ensures h !in Misplaced(l', cfg) {
      assert RemoveCommand(cfg, h) in commands;
      var k :| 0 <= k < |commands| && commands[k] == RemoveCommand(cfg, h);
      assert events[k].hostId == h;
      PlayUnlists(l, cfg.componentId, events, h);
    }
    forall i: nat, h | i < |cfg.spreads|
      ensures Total(l', cfg, i, h) == Total(l, cfg, i, h) && Foreign(l', cfg, i, h) == Foreign(l, cfg, i, h)
    {
      PlayTotals(l, cfg, events, 0, i, h);
      ManagedCarries(cfg.spreads[i].name, cfg.spreads[i].name, cfg.id, cfg.modelName);
    }
  }

  lemma ScalingEvents(l: Lattice, cfg: DaemonConfig, commands: seq<Command>, events: seq<Event>)
    requires Misplaced(l, cfg) == {} && Reconciles(l, cfg, commands) && AllScaled(commands, events)
    ensures Uniform(cfg, events, cfg.instances % U32)
    ensures forall h :: h in HostsOf(events) ==> h in l.hosts && h !in IneligibleHosts(l.hosts, cfg.spreads)
  {
    forall k | 0 <= k < |events|
      ensures events[k].componentId == cfg.componentId && events[k].maxInstances == cfg.instances % U32
      ensures exists i: nat :: Needs(l, cfg, i, events[k].hostId) && events[k].annotations == OwnKey(cfg, i)
    {
      assert commands[k] in commands;
      var i: nat, h :| Needs(l, cfg, i, h) && commands[k] == ScaleCommand(cfg, i, h);
    }
    forall h | h in HostsOf(events) ensures h in l.hosts && h !in IneligibleHosts(l.hosts, cfg.spreads) {
      var k :| 0 <= k < |events| && events[k].hostId == h;
    }
  }

  lemma SetExactlyWhenNeeded(l: Lattice, cfg: DaemonConfig, commands: seq<Command>, events: seq<Event>, i: nat, h: Id)
    requires Misplaced(l, cfg) == {} && Reconciles(l, cfg, commands) && AllScaled(commands, events)
    requires i < |cfg.spreads| && Eligible(l.hosts, cfg.spreads[i], h)
    ensures Sets(events, h, OwnKey(cfg, i)) <==> Total(l, cfg, i, h) != cfg.instances
  {
    if Sets(events, h, OwnKey(cfg, i)) {
      var k :| 0 <= k < |events| && events[k].hostId == h && events[k].annotations == OwnKey(cfg, i);
      assert commands[k] in commands;
      var j: nat, h' :| Needs(l, cfg, j, h') && commands[k] == ScaleCommand(cfg, j, h');
      ManagedCarries(cfg.spreads[i].name, cfg.spreads[j].name, cfg.id, cfg.modelName);
      ManagedCarries(cfg.spreads[j].name, cfg.spreads[j].name, cfg.id, cfg.modelName);
    }
    if Needs(l, cfg, i, h) {
      assert ScaleCommand(cfg, i, h) in commands;
      var k :| 0 <= k < |commands| && commands[k] == ScaleCommand(cfg, i, h);
      assert events[k].hostId == h && events[k].annotations == OwnKey(cfg, i);
    }
  }

  /** After the scaling round nothing is misplaced, and exactly the totals that were wrong have become
      the foreign count plus the number asked for. */
  lemma ScalingRound(l: Lattice, cfg: DaemonConfig, commands: seq<Command>, events: seq<Event>)
    requires forall h :: h in l.hosts ==> l.hosts[h].id == h
    requires Misplaced(l, cfg) == {} && Reconciles(l, cfg, commands) && AllScaled(commands, events)
    ensures Misplaced(Play(l, events), cfg) == {}
    ensures SameHostsExcept(l, Play(l, events), cfg.componentId, HostsOf(events))
    ensures forall i: nat, h :: i < |cfg.spreads| && Eligible(l.hosts, cfg.spreads[i], h) ==>
              TotalReached(l, cfg, Play(l, events), i, h)
  {
    ScalingEvents(l, cfg, commands, events);
    PlayHosts(l, cfg.componentId, events);
    forall i: nat, h | i < |cfg.spreads| && Eligible(l.hosts, cfg.spreads[i], h)
      ensures TotalReached(l, cfg, Play(l, events), i, h)
    {
      PlayTotals(l, cfg, events, cfg.instances % U32, i, h);
      SetExactlyWhenNeeded(l, cfg, commands, events, i, h);
    }
  }

  ghost predicate TotalReached(l: Lattice, cfg: DaemonConfig, l': Lattice, i: nat, h: Id)
    requires i < |cfg.spreads|
  {
    && Foreign(l', cfg, i, h) == Foreign(l, cfg, i, h)
    && Total(l', cfg, i, h) == (if Total(l, cfg, i, h) == cfg.instances then cfg.instances
                                else Foreign(l, cfg, i, h) + cfg.instances % U32)
  }

  /** Every total is right already, or becomes right when the scaler's own entry is set. */
  ghost predicate Reachable(l: Lattice, cfg: DaemonConfig) {
    forall i: nat, h :: i < |cfg.spreads| && Eligible(l.hosts, cfg.spreads[i], h) ==>
      Total(l, cfg, i, h) == cfg.instances || Foreign(l, cfg, i, h) + cfg.instances % U32 == cfg.instances
  }

  lemma ScalingRoundSatisfies(l: Lattice, cfg: DaemonConfig, commands: seq<Command>, events: seq<Event>)
    requires forall h :: h in l.hosts ==> l.hosts[h].id == h
    requires Misplaced(l, cfg) == {} && Reconciles(l, cfg, commands) && AllScaled(commands, events)
    ensures Satisfied(Play(l, events), cfg) <==> Reachable(l, cfg)
    ensures Reachable(Play(l, events), cfg) <==> Reachable(l, cfg)
  {
    ScalingRound(l, cfg, commands, events);
    var l' := Play(l, events);
    forall i: nat, h | i < |cfg.spreads|
      ensures Eligible(l'.hosts, cfg.spreads[i], h) == Eligible(l.hosts, cfg.spreads[i], h)
    {
    }
    if Satisfied(l', cfg) {
      forall i: nat, h | i < |cfg.spreads| && Eligible(l.hosts, cfg.spreads[i], h)
        ensures Total(l, cfg, i, h) == cfg.instances || Foreign(l, cfg, i, h) + cfg.instances % U32 == cfg.instances
      {
        assert TotalReached(l, cfg, l', i, h) && !Needs(l', cfg, i, h);
      }
    }
  }

  /** The closed loop: two applied rounds end in a store where reconcile returns no commands exactly when
      every total is within the scaler's reach. */
  lemma TwoRounds(l: Lattice, cfg: DaemonConfig, commands1: seq<Command>, events1: seq<Event>,
                  commands2: seq<Command>, events2: seq<Event>)
    requires forall h :: h in l.hosts ==> l.hosts[h].id == h
    requires Reconciles(l, cfg, commands1) && AllScaled(commands1, events1)
    requires Reconciles(Play(l, events1), cfg, commands2) && AllScaled(commands2, events2)
    ensures Satisfied(Play(Play(l, events1), events2), cfg) <==> Reachable(l, cfg)
  {
    var l1 := Play(l, events1);
    if Misplaced(l, cfg) != {} {
      ClearingRound(l, cfg, commands1, events1);
      forall i: nat, h | i < |cfg.spreads|
        ensures Eligible(l1.hosts, cfg.spreads[i], h) == Eligible(l.hosts, cfg.spreads[i], h)
      {
      }
      ScalingRoundSatisfies(l1, cfg, commands2, events2);
    } else {
      ScalingRound(l, cfg, commands1, events1);
      ScalingRoundSatisfies(l, cfg, commands1, events1);
      ScalingRoundSatisfies(l1, cfg, commands2, events2);
    }
  }

  /** One more of others' instances than are wanted is out of the scaler's reach. */
  lemma OthersOutOfReach(l: Lattice, cfg: DaemonConfig, h: Id, others: Annotations)
    requires |cfg.spreads| > 0 && Eligible(l.hosts, cfg.spreads[0], h)
    requires EntriesOf(l.components, cfg.componentId, h) == map[others := cfg.instances + 1]
    requires others != OwnKey(cfg, 0) && Carries(others, SpreadAnnotations(cfg.spreads[0].name, cfg.id))
    ensures !Reachable(l, cfg)
  {
    var carried := Carried(EntriesOf(l.components, cfg.componentId, h), SpreadAnnotations(cfg.spreads[0].name, cfg.id));
    assert carried == map[others := cfg.instances + 1];
    assert carried - {OwnKey(cfg, 0)} == carried;
    SumAt(carried, others);
    assert carried - {others} == map[];
  }

  /** As when the component has been scaled under the spread's annotations by hand: no two rounds satisfy the
      scaler. */
  lemma TwoRoundsFail(cfg: DaemonConfig, h: Id) returns (actions: seq<I.Action>)
    requires |cfg.spreads| > 0 && cfg.spreads[0].requirements == map[]
    ensures var l := I.Run(R.NOTHING, actions);
      && Consistent(l)
      && forall commands1, events1, commands2, events2 ::
           && Reconciles(l, cfg, commands1) && AllScaled(commands1, events1)
           && Reconciles(Play(l, events1), cfg, commands2) && AllScaled(commands2, events2)
           ==> !Satisfied(Play(Play(l, events1), events2), cfg)
  {
    var others := SpreadAnnotations(cfg.spreads[0].name, cfg.id);
    actions := R.OneEntry(h, cfg.componentId, others, cfg.instances + 1);
    var l := I.Run(R.NOTHING, actions);
    DistinctKeys();
    assert MANAGED_BY_ANNOTATION in OwnKey(cfg, 0) && MANAGED_BY_ANNOTATION !in others;
    OthersOutOfReach(l, cfg, h, others);
    forall commands1, events1, commands2, events2 |
        && Reconciles(l, cfg, commands1) && AllScaled(commands1, events1)
        && Reconciles(Play(l, events1), cfg, commands2) && AllScaled(commands2, events2)
      ensures !Satisfied(Play(Play(l, events1), events2), cfg)
    {
      TwoRounds(l, cfg, commands1, events1, commands2, events2);
    }
  }

  /** The usual case: a number within 32 bits, and no entry counts for a spread but the scaler's own. */
  lemma OwnEntriesAreReachable(l: Lattice, cfg: DaemonConfig)
    requires cfg.instances < U32
    requires forall i: nat, h, a | i < |cfg.spreads| && a in EntriesOf(l.components, cfg.componentId, h) ::
               Carries(a, SpreadAnnotations(cfg.spreads[i].name, cfg.id)) ==> a == OwnKey(cfg, i)
    ensures Reachable(l, cfg)
  {
    forall i: nat, h | i < |cfg.spreads| && Eligible(l.hosts, cfg.spreads[i], h)
      ensures Foreign(l, cfg, i, h) + cfg.instances % U32 == cfg.instances
    {
      var entries := EntriesOf(l.components, cfg.componentId, h);
      var wanted := SpreadAnnotations(cfg.spreads[i].name, cfg.id);
      assert Carried(entries, wanted) - {OwnKey(cfg, i)} == map[];
    }
  }
}
