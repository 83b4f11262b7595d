/** Where the three scalers start and stop, said of labels, host records and commands. */
module Placement {
  import opened Collections
  import opened LatticeState
  import opened Commands
  import opened Spreads
  import P = ProviderSpreadScalers
  import N = ProviderDaemonScalers
  import C = ComponentDaemonScalers

  // ---------- labels and annotations ----------

  /** A host is eligible when it is stored and has every required label with the required value. */
  lemma EligibleIff(hosts: map<Id, Host>, spread: Spread, h: Id)
    ensures Eligible(hosts, spread, h) <==> h in hosts && spread.requirements.Items <= hosts[h].labels.Items
    ensures h in EligibleHosts(hosts, spread) <==> Eligible(hosts, spread, h)
  {
    if h in hosts {
      var labels := hosts[h].labels;
      if Fits(labels, spread) {
        forall x | x in spread.requirements.Items ensures x in labels.Items { assert x.0 in spread.requirements; }
      }
      if spread.requirements.Items <= labels.Items {
        forall k | k in spread.requirements ensures k in labels && labels[k] == spread.requirements[k] {
          assert (k, spread.requirements[k]) in labels.Items;
        }
      }
    }
  }

  lemma IneligibleIff(hosts: map<Id, Host>, spreads: seq<Spread>, h: Id)
    ensures h in IneligibleHosts(hosts, spreads) <==>
            h in hosts && forall i :: 0 <= i < |spreads| ==> !(spreads[i].requirements.Items <= hosts[h].labels.Items)
  {
    forall i | 0 <= i < |spreads| { EligibleIff(hosts, spreads[i], h); }
    if h in IneligibleHosts(hosts, spreads) {
      forall i | 0 <= i < |spreads| ensures !(spreads[i].requirements.Items <= hosts[h].labels.Items) {
        assert !Eligible(hosts, spreads[i], h);
      }
    }
    if h in hosts && forall i :: 0 <= i < |spreads| ==> !(spreads[i].requirements.Items <= hosts[h].labels.Items) {
      forall i | 0 <= i < |spreads| ensures !Fits(hosts[h].labels, spreads[i]) {
        assert !(spreads[i].requirements.Items <= hosts[h].labels.Items);
      }
    }
  }

  /** What marks an instance as one of the scaler, and as one of a spread of the scaler. */
  const SCALER := "wasmcloud.dev/scaler"
  const SPREAD := "wasmcloud.dev/spread_name"

  /** An annotation with its value. */
  predicate Has(a: Annotations, k: string, v: string) {
    k in a && a[k] == v
  }

  lemma CarriesIff(a: Annotations, id: string, name: string)
    ensures Carries(a, map[SCALER_KEY := id]) <==> Has(a, SCALER, id)
    ensures Carries(a, SpreadAnnotations(name, id)) <==> Has(a, SCALER, id) && Has(a, SPREAD, name)
  {
    DistinctKeys();
    var one, two := map[SCALER_KEY := id], SpreadAnnotations(name, id);
    assert SCALER_KEY in one && one[SCALER_KEY] == id;
    assert SCALER_KEY in two && two[SCALER_KEY] == id && SPREAD_KEY in two && two[SPREAD_KEY] == name;
  }

  // ---------- the provider spread scaler ----------

  /** The provider runs on a host that says so; it is the scaler's, and a spread's, by its annotations. */
  ghost predicate Runs(l: Lattice, p: Id, h: Id) {
    h in l.hosts && p in l.hosts[h].providers
  }

  ghost predicate IsOf(l: Lattice, p: Id, h: Id, id: string) {
    Runs(l, p, h) && Has(l.hosts[h].providers[p].annotations, SCALER, id)
  }

  ghost predicate IsFor(l: Lattice, p: Id, h: Id, id: string, name: string) {
    IsOf(l, p, h, id) && Has(l.hosts[h].providers[p].annotations, SPREAD, name)
  }

  lemma OwnedIff(l: Lattice, cfg: P.ProviderConfig, h: Id)
    ensures P.RunsOn(l, cfg, h) <==> Runs(l, cfg.providerId, h)
    ensures P.Owned(l, cfg, h) <==> IsOf(l, cfg.providerId, h, cfg.id)
  {
    if P.RunsOn(l, cfg, h) { CarriesIff(l.hosts[h].providers[cfg.providerId].annotations, cfg.id, ""); }
  }

  lemma OwnedForIff(l: Lattice, cfg: P.ProviderConfig, spread: Spread, h: Id)
    ensures P.OwnedFor(l, cfg, spread, h) <==> IsFor(l, cfg.providerId, h, cfg.id, spread.name)
  {
    if P.RunsOn(l, cfg, h) { CarriesIff(l.hosts[h].providers[cfg.providerId].annotations, cfg.id, spread.name); }
  }

  /** The scaler's own provider on a host where every spread misses a label or finds another value. */
  ghost predicate OutOfPlace(l: Lattice, cfg: P.ProviderConfig, rs: seq<Requirement>, h: Id) {
    && IsOf(l, cfg.providerId, h, cfg.id)
    && forall i :: 0 <= i < |rs| ==> !(rs[i].0.requirements.Items <= l.hosts[h].labels.Items)
  }

  lemma MisplacedIff(l: Lattice, cfg: P.ProviderConfig, rs: seq<Requirement>, h: Id)
    ensures h in P.Misplaced(l, cfg, rs) <==> OutOfPlace(l, cfg, rs, h)
  {
    OwnedIff(l, cfg, h);
    IneligibleIff(l.hosts, SpreadsOf(rs), h);
    assert forall i :: 0 <= i < |rs| ==> SpreadsOf(rs)[i] == rs[i].0;
  }

  /** While something is out of place a pass stops exactly that. */
  lemma SpreadScalerClears(l: Lattice, cfg: P.ProviderConfig, rs: seq<Requirement>, commands: seq<Command>)
    requires P.Reconciles(l, cfg, rs, commands) && exists h :: OutOfPlace(l, cfg, rs, h)
    ensures forall c :: c in commands <==>
              exists h :: OutOfPlace(l, cfg, rs, h) && c == StopProvider(cfg.providerId, h, cfg.modelName, map[])
    ensures |commands| == |set h | h in l.hosts && OutOfPlace(l, cfg, rs, h)| && P.PassStatus(l, cfg, rs, commands) == Reconciling
  {
    forall h { MisplacedIff(l, cfg, rs, h); }
    assert P.Misplaced(l, cfg, rs) == set h | h in l.hosts && OutOfPlace(l, cfg, rs, h);
    var h :| OutOfPlace(l, cfg, rs, h);
    assert h in P.Misplaced(l, cfg, rs);
    forall c ensures c in commands <==>
              exists h :: OutOfPlace(l, cfg, rs, h) && c == StopProvider(cfg.providerId, h, cfg.modelName, map[])
    {
      if h :| h in P.Misplaced(l, cfg, rs) && c == P.StopMisplaced(cfg, h) { assert OutOfPlace(l, cfg, rs, h); }
      if h :| OutOfPlace(l, cfg, rs, h) && c == StopProvider(cfg.providerId, h, cfg.modelName, map[]) {
        assert h in P.Misplaced(l, cfg, rs) && c == P.StopMisplaced(cfg, h);
      }
    }
  }

  /** The stored hosts with all labels that the spread requires, and those of them where the provider runs,
      runs for the spread, and does not run. */
  ghost function Suiting(l: Lattice, spread: Spread): set<Id> {
    set h | h in l.hosts && spread.requirements.Items <= l.hosts[h].labels.Items
  }

  ghost function Running(l: Lattice, cfg: P.ProviderConfig, spread: Spread): set<Id> {
    set h | h in Suiting(l, spread) && Runs(l, cfg.providerId, h)
  }

  ghost function RunningFor(l: Lattice, cfg: P.ProviderConfig, spread: Spread): set<Id> {
    set h | h in Suiting(l, spread) && IsFor(l, cfg.providerId, h, cfg.id, spread.name)
  }

  lemma SetsAre(l: Lattice, cfg: P.ProviderConfig, spread: Spread)
    ensures EligibleHosts(l.hosts, spread) == Suiting(l, spread)
    ensures P.Occupied(l, cfg, spread) == Running(l, cfg, spread)
    ensures P.Mine(l, cfg, spread) == RunningFor(l, cfg, spread)
    ensures P.Free(l, cfg, spread) == Suiting(l, spread) - Running(l, cfg, spread)
    ensures P.Theirs(l, cfg, spread) == Running(l, cfg, spread) - RunningFor(l, cfg, spread)
  {
    forall h
      ensures h in EligibleHosts(l.hosts, spread) <==> h in Suiting(l, spread)
      ensures P.RunsOn(l, cfg, h) <==> Runs(l, cfg.providerId, h)
      ensures P.OwnedFor(l, cfg, spread, h) <==> IsFor(l, cfg.providerId, h, cfg.id, spread.name)
    {
      EligibleIff(l.hosts, spread, h);
      OwnedIff(l, cfg, h);
      OwnedForIff(l, cfg, spread, h);
    }
  }

  /** How many copies of a spread a pass starts: what is missing, but for as many as others run there, and no
      more than hosts are free. */
  ghost function Missing(l: Lattice, cfg: P.ProviderConfig, r: Requirement): int {
    r.1 - |Running(l, cfg, r.0)| - |Running(l, cfg, r.0) - RunningFor(l, cfg, r.0)|
  }

  ghost predicate Starts(l: Lattice, cfg: P.ProviderConfig, r: Requirement, starts: set<Id>) {
    && starts <= Suiting(l, r.0) - Running(l, cfg, r.0)
    && (|starts| == |Suiting(l, r.0) - Running(l, cfg, r.0)| < Missing(l, cfg, r)
        || |starts| == Missing(l, cfg, r) <= |Suiting(l, r.0) - Running(l, cfg, r.0)|
        || (starts == {} && Missing(l, cfg, r) <= 0))
  }

  /** How many it stops: what is too much, and no more than it started. */
  ghost predicate Stops(l: Lattice, cfg: P.ProviderConfig, r: Requirement, stops: set<Id>) {
    && stops <= RunningFor(l, cfg, r.0)
    && (|stops| == |RunningFor(l, cfg, r.0)| < |Running(l, cfg, r.0)| - r.1
        || |stops| == |Running(l, cfg, r.0)| - r.1 <= |RunningFor(l, cfg, r.0)|
        || (stops == {} && |Running(l, cfg, r.0)| <= r.1))
  }

  lemma PicksAre(l: Lattice, cfg: P.ProviderConfig, r: Requirement, pick: P.Pick)
    requires P.Picks(l, cfg, r, pick)
    ensures Starts(l, cfg, r, pick.starts) && Stops(l, cfg, r, pick.stops)
  {
    SetsAre(l, cfg, r.0);
  }

  ghost predicate IsCommand(cfg: P.ProviderConfig, spread: Spread, starts: set<Id>, stops: set<Id>, h: Id, c: Command) {
    var marks := map[SCALER := cfg.id, SPREAD := spread.name];
    || (h in starts && c == StartProvider(cfg.reference, cfg.providerId, h, cfg.modelName, cfg.config, marks))
    || (h in stops && c == StopProvider(cfg.providerId, h, cfg.modelName, marks))
  }

  lemma CommandIs(cfg: P.ProviderConfig, rs: seq<Requirement>, picks: seq<P.Pick>, i: nat, h: Id, c: Command)
    requires |picks| == |rs| && i < |rs|
    ensures P.CommandFor(cfg, rs, picks, i, h, c) <==> IsCommand(cfg, rs[i].0, picks[i].starts, picks[i].stops, h, c)
  {}

  /** Otherwise each spread has its starts and stops, and the commands are those, with the configuration and
      the marks of scaler and spread. */
  lemma SpreadScalerActs(l: Lattice, cfg: P.ProviderConfig, rs: seq<Requirement>, commands: seq<Command>)
    returns (starts: seq<set<Id>>, stops: seq<set<Id>>)
    requires P.Reconciles(l, cfg, rs, commands) && forall h :: !OutOfPlace(l, cfg, rs, h)
    ensures |starts| == |stops| == |rs|
    ensures forall i :: 0 <= i < |rs| ==> Starts(l, cfg, rs[i], starts[i]) && Stops(l, cfg, rs[i], stops[i])
    ensures forall c :: c in commands <==> exists i: nat, h :: i < |rs| && IsCommand(cfg, rs[i].0, starts[i], stops[i], h, c)
    ensures |commands| == Sizes(starts) + Sizes(stops)
  {
    forall h { MisplacedIff(l, cfg, rs, h); }
    assert P.Misplaced(l, cfg, rs) == {};
    var picks: seq<P.Pick> :| |picks| == |rs| && P.PassSoFar(l, cfg, rs, picks, commands);
    starts := seq(|rs|, i requires 0 <= i < |rs| => picks[i].starts);
    stops := seq(|rs|, i requires 0 <= i < |rs| => picks[i].stops);
    forall i | 0 <= i < |rs| ensures Starts(l, cfg, rs[i], starts[i]) && Stops(l, cfg, rs[i], stops[i]) {
      P.PickedAt(l, cfg, rs, picks, i);
      PicksAre(l, cfg, rs[i], picks[i]);
    }
    forall c
      ensures c in commands <==> exists i: nat, h :: i < |rs| && IsCommand(cfg, rs[i].0, starts[i], stops[i], h, c)
    {
      CommandsAre(cfg, rs, picks, commands, starts, stops, c);
    }
    PickedSizes(picks, starts, stops);
  }

  /** How many there are in all. */
  ghost function Sizes(sets: seq<set<Id>>): nat {
    if sets == [] then 0 else |sets[0]| + Sizes(sets[1..])
  }

  lemma {:induction false} SizesSnoc(sets: seq<set<Id>>)
    requires sets != []
    ensures Sizes(sets) == Sizes(sets[..|sets| - 1]) + |sets[|sets| - 1]|
  {
    if |sets| > 1 {
      assert sets[1..][..|sets| - 2] == sets[..|sets| - 1][1..];
      SizesSnoc(sets[1..]);
    } else {
      assert sets[1..] == [] && sets[..0] == [];
    }
  }

  lemma {:induction false} PickedSizes(picks: seq<P.Pick>, starts: seq<set<Id>>, stops: seq<set<Id>>)
    requires |picks| == |starts| == |stops|
    requires forall i :: 0 <= i < |picks| ==> picks[i].starts == starts[i] && picks[i].stops == stops[i]
    ensures P.NumPicked(picks) == Sizes(starts) + Sizes(stops)
  {
    if picks != [] {
      var n := |picks| - 1;
      PickedSizes(picks[..n], starts[..n], stops[..n]);
      SizesSnoc(starts);
      SizesSnoc(stops);
    }
  }

  lemma CommandsAre(cfg: P.ProviderConfig, rs: seq<Requirement>, picks: seq<P.Pick>, commands: seq<Command>,
                    starts: seq<set<Id>>, stops: seq<set<Id>>, c: Command)
    requires |picks| == |starts| == |stops| == |rs| && P.Lists(cfg, rs, picks, commands)
    requires forall i :: 0 <= i < |rs| ==> picks[i].starts == starts[i] && picks[i].stops == stops[i]
    ensures c in commands <==> exists i: nat, h :: i < |rs| && IsCommand(cfg, rs[i].0, starts[i], stops[i], h, c)
  {
    if c in commands {
      var i: nat, h :| P.CommandFor(cfg, rs, picks, i, h, c);
      CommandIs(cfg, rs, picks, i, h, c);
    }
    if i: nat, h :| i < |rs| && IsCommand(cfg, rs[i].0, starts[i], stops[i], h, c) {
      CommandIs(cfg, rs, picks, i, h, c);
    }
  }

  ghost predicate TooFewFree(l: Lattice, cfg: P.ProviderConfig, r: Requirement) {
    |Suiting(l, r.0) - Running(l, cfg, r.0)| < Missing(l, cfg, r)
  }

  /** It reports failure exactly when some spread misses more copies than hosts are free, success when it has
      nothing to do otherwise. */
  lemma SpreadScalerStatus(l: Lattice, cfg: P.ProviderConfig, rs: seq<Requirement>, commands: seq<Command>)
    requires P.Reconciles(l, cfg, rs, commands) && forall h :: !OutOfPlace(l, cfg, rs, h)
    ensures P.PassStatus(l, cfg, rs, commands) ==
            if exists i :: 0 <= i < |rs| && TooFewFree(l, cfg, rs[i]) then Status.Failed
            else if commands == [] then Deployed else Reconciling
  {
    forall h { MisplacedIff(l, cfg, rs, h); }
    assert P.Misplaced(l, cfg, rs) == {};
    forall i | 0 <= i < |rs| ensures P.Short(l, cfg, rs[i]) <==> TooFewFree(l, cfg, rs[i]) { ShortIff(l, cfg, rs[i]); }
  }

  lemma ShortIff(l: Lattice, cfg: P.ProviderConfig, r: Requirement)
    ensures P.Short(l, cfg, r) <==> TooFewFree(l, cfg, r)
  {
    SetsAre(l, cfg, r.0);
  }

  // ---------- the provider daemon scaler ----------

  ghost predicate DaemonOutOfPlace(l: Lattice, d: N.Daemon, h: Id) {
    && IsOf(l, d.provider.providerId, h, d.provider.id)
    && forall i :: 0 <= i < |d.spreads| ==> !(d.spreads[i].requirements.Items <= l.hosts[h].labels.Items)
  }

  lemma MisplacedByIff(l: Lattice, d: N.Daemon, h: Id)
    ensures h in N.MisplacedBy(l, d) <==> DaemonOutOfPlace(l, d, h)
  {
    OwnedIff(l, d.provider, h);
    IneligibleIff(l.hosts, d.spreads, h);
  }

  lemma ProviderDaemonClears(l: Lattice, d: N.Daemon, commands: seq<Command>)
    requires N.PassReturns(l, d, commands) && exists h :: DaemonOutOfPlace(l, d, h)
    ensures forall c :: c in commands <==>
              exists h :: DaemonOutOfPlace(l, d, h) && c == StopProvider(d.provider.providerId, h, d.provider.modelName, map[])
  {
    forall h { MisplacedByIff(l, d, h); }
    var h :| DaemonOutOfPlace(l, d, h);
    assert h in N.MisplacedBy(l, d);
    forall c ensures c in commands <==>
              exists h :: DaemonOutOfPlace(l, d, h) && c == StopProvider(d.provider.providerId, h, d.provider.modelName, map[])
    {
      if h :| h in N.MisplacedBy(l, d) && c == P.StopMisplaced(d.provider, h) { assert DaemonOutOfPlace(l, d, h); }
      if h :| DaemonOutOfPlace(l, d, h) && c == StopProvider(d.provider.providerId, h, d.provider.modelName, map[]) {
        assert h in N.MisplacedBy(l, d) && c == P.StopMisplaced(d.provider, h);
      }
    }
  }

  /** A stored host with all labels of a spread is started on where the provider does not run, and stopped on
      where it does and none are wanted. */
  ghost predicate IsDaemonCommand(l: Lattice, d: N.Daemon, spread: Spread, h: Id, c: Command) {
    var p, marks := d.provider, map[SCALER := d.provider.id, SPREAD := spread.name];
    && h in l.hosts && spread.requirements.Items <= l.hosts[h].labels.Items
    && (if p.providerId !in l.hosts[h].providers then
          c == StartProvider(p.reference, p.providerId, h, p.modelName, p.config, marks)
        else
          d.instances == 0 && c == StopProvider(p.providerId, h, p.modelName, marks))
  }

  lemma DaemonCommandIs(l: Lattice, d: N.Daemon, i: nat, h: Id, c: Command)
    requires i < |d.spreads|
    ensures N.Needs(l, d, i, h) && c == N.CommandAt(l, d, i, h) <==> IsDaemonCommand(l, d, d.spreads[i], h, c)
  {
    EligibleIff(l.hosts, d.spreads[i], h);
    OwnedIff(l, d.provider, h);
  }

  lemma ProviderDaemonActs(l: Lattice, d: N.Daemon, commands: seq<Command>)
    requires N.PassReturns(l, d, commands) && forall h :: !DaemonOutOfPlace(l, d, h)
    ensures forall c :: c in commands <==> exists i: nat, h :: i < |d.spreads| && IsDaemonCommand(l, d, d.spreads[i], h, c)
  {
    forall h { MisplacedByIff(l, d, h); }
    assert N.MisplacedBy(l, d) == {};
    forall c
      ensures c in commands <==> exists i: nat, h :: i < |d.spreads| && IsDaemonCommand(l, d, d.spreads[i], h, c)
    {
      if c in commands {
        var i: nat, h :| N.Needs(l, d, i, h) && c == N.CommandAt(l, d, i, h);
        DaemonCommandIs(l, d, i, h, c);
      }
      if i: nat, h :| i < |d.spreads| && IsDaemonCommand(l, d, d.spreads[i], h, c) { DaemonCommandIs(l, d, i, h, c); }
    }
  }

  lemma SuitingIs(l: Lattice, spread: Spread)
    ensures EligibleHosts(l.hosts, spread) == Suiting(l, spread)
  {
    forall h ensures h in EligibleHosts(l.hosts, spread) <==> h in Suiting(l, spread) { EligibleIff(l.hosts, spread, h); }
  }

  /** It fails when some spread suits no stored host. */
  lemma {:induction false} ProviderDaemonFails(l: Lattice, d: N.Daemon, n: nat)
    requires n <= |d.spreads|
    ensures N.NoHosts(l, d, n) <==> exists i :: 0 <= i < n && Suiting(l, d.spreads[i]) == {}
  {
    if n > 0 {
      ProviderDaemonFails(l, d, n - 1);
      SuitingIs(l, d.spreads[n - 1]);
    }
  }

  /** The stored hosts that need a command for the spread. */
  ghost function DaemonTargets(l: Lattice, d: N.Daemon, spread: Spread): set<Id> {
    set h | h in Suiting(l, spread) && (d.provider.providerId !in l.hosts[h].providers || d.instances == 0)
  }

  lemma NeedingAre(l: Lattice, d: N.Daemon, i: nat)
    requires i < |d.spreads|
    ensures N.Needing(l, d, i) == DaemonTargets(l, d, d.spreads[i])
  {
    SuitingIs(l, d.spreads[i]);
    forall h { OwnedIff(l, d.provider, h); }
    assert forall h :: h in EligibleHosts(l.hosts, d.spreads[i]) <==> Eligible(l.hosts, d.spreads[i], h);
  }

  ghost function AllDaemonTargets(l: Lattice, d: N.Daemon): seq<set<Id>> {
    seq(|d.spreads|, i requires 0 <= i < |d.spreads| => DaemonTargets(l, d, d.spreads[i]))
  }

  /** A pass has one command for each spread and host that needs one. */
  lemma {:induction false} ProviderDaemonCounts(l: Lattice, d: N.Daemon, n: nat)
    requires n <= |d.spreads|
    ensures N.NumNeeded(l, d, n) == Sizes(AllDaemonTargets(l, d)[..n])
  {
    if n > 0 {
      ProviderDaemonCounts(l, d, n - 1);
      var all := AllDaemonTargets(l, d)[..n];
      assert all[..n - 1] == AllDaemonTargets(l, d)[..n - 1];
      SizesSnoc(all);
      NeedingAre(l, d, n - 1);
    }
  }

  // ---------- the component daemon scaler ----------

  ghost predicate ComponentOutOfPlace(l: Lattice, cfg: C.DaemonConfig, h: Id) {
    && h in l.hosts && cfg.componentId in l.hosts[h].components
    && forall i :: 0 <= i < |cfg.spreads| ==> !(cfg.spreads[i].requirements.Items <= l.hosts[h].labels.Items)
  }

  lemma ComponentMisplacedIff(l: Lattice, cfg: C.DaemonConfig, h: Id)
    ensures h in C.Misplaced(l, cfg) <==> ComponentOutOfPlace(l, cfg, h)
  {
    IneligibleIff(l.hosts, cfg.spreads, h);
  }

  /** What stops the component on a host. */
  function Removal(cfg: C.DaemonConfig, h: Id): Command {
    ScaleComponent(cfg.componentId, h, 0, cfg.reference, cfg.modelName, map[], cfg.config)
  }

  lemma ComponentDaemonClears(l: Lattice, cfg: C.DaemonConfig, commands: seq<Command>)
    requires C.Reconciles(l, cfg, commands) && exists h :: ComponentOutOfPlace(l, cfg, h)
    ensures forall c :: c in commands <==> exists h :: ComponentOutOfPlace(l, cfg, h) && c == Removal(cfg, h)
  {
    forall h { ComponentMisplacedIff(l, cfg, h); }
    var h :| ComponentOutOfPlace(l, cfg, h);
    assert h in C.Misplaced(l, cfg);
    forall c ensures c in commands <==> exists h :: ComponentOutOfPlace(l, cfg, h) && c == Removal(cfg, h) {
      if h :| h in C.Misplaced(l, cfg) && c == C.RemoveCommand(cfg, h) { assert ComponentOutOfPlace(l, cfg, h); }
      if h :| ComponentOutOfPlace(l, cfg, h) && c == Removal(cfg, h) {
        assert h in C.Misplaced(l, cfg) && c == C.RemoveCommand(cfg, h);
      }
    }
  }

  /** The instances on the host whose annotations have both marks. */
  ghost function Marked(l: Lattice, cfg: C.DaemonConfig, spread: Spread, h: Id): Entries {
    if cfg.componentId in l.components && h in l.components[cfg.componentId].instances then
      var entries := l.components[cfg.componentId].instances[h];
      map a | a in entries && Has(a, SCALER, cfg.id) && Has(a, SPREAD, spread.name) :: entries[a]
    else map[]
  }

  lemma TotalIs(l: Lattice, cfg: C.DaemonConfig, i: nat, h: Id)
    requires i < |cfg.spreads|
    ensures C.Total(l, cfg, i, h) == Sum(Marked(l, cfg, cfg.spreads[i], h))
  {
    var wanted, entries := SpreadAnnotations(cfg.spreads[i].name, cfg.id), C.EntriesOf(l.components, cfg.componentId, h);
    forall a { CarriesIff(a, cfg.id, cfg.spreads[i].name); }
    assert C.Carried(entries, wanted) == Marked(l, cfg, cfg.spreads[i], h);
  }

  /** A stored host with all labels of a spread and another number of its instances is told the number, in 32
      bits. */
  ghost predicate IsScaling(l: Lattice, cfg: C.DaemonConfig, spread: Spread, h: Id, c: Command) {
    && h in l.hosts && spread.requirements.Items <= l.hosts[h].labels.Items
    && Sum(Marked(l, cfg, spread, h)) != cfg.instances
    && c == ScaleComponent(cfg.componentId, h, cfg.instances % 0x1_0000_0000, cfg.reference, cfg.modelName,
                           map[SCALER := cfg.id, SPREAD := spread.name], cfg.config)
  }

  lemma ScalingIs(l: Lattice, cfg: C.DaemonConfig, i: nat, h: Id, c: Command)
    requires i < |cfg.spreads|
    ensures C.Needs(l, cfg, i, h) && c == C.ScaleCommand(cfg, i, h) <==> IsScaling(l, cfg, cfg.spreads[i], h, c)
  {
    EligibleIff(l.hosts, cfg.spreads[i], h);
    TotalIs(l, cfg, i, h);
  }

  lemma ComponentDaemonActs(l: Lattice, cfg: C.DaemonConfig, commands: seq<Command>)
    requires C.Reconciles(l, cfg, commands) && forall h :: !ComponentOutOfPlace(l, cfg, h)
    ensures forall c :: c in commands <==> exists i: nat, h :: i < |cfg.spreads| && IsScaling(l, cfg, cfg.spreads[i], h, c)
  {
    forall h { ComponentMisplacedIff(l, cfg, h); }
    assert C.Misplaced(l, cfg) == {};
    forall c ensures c in commands <==> exists i: nat, h :: i < |cfg.spreads| && IsScaling(l, cfg, cfg.spreads[i], h, c) {
      if c in commands {
        var i: nat, h :| C.Needs(l, cfg, i, h) && c == C.ScaleCommand(cfg, i, h);
        ScalingIs(l, cfg, i, h, c);
      }
      if i: nat, h :| i < |cfg.spreads| && IsScaling(l, cfg, cfg.spreads[i], h, c) { ScalingIs(l, cfg, i, h, c); }
    }
  }

  lemma {:induction false} ComponentDaemonFails(l: Lattice, cfg: C.DaemonConfig, n: nat)
    requires n <= |cfg.spreads|
    ensures C.NoHosts(l, cfg, n) <==> exists i :: 0 <= i < n && Suiting(l, cfg.spreads[i]) == {}
  {
    if n > 0 {
      ComponentDaemonFails(l, cfg, n - 1);
      SuitingIs(l, cfg.spreads[n - 1]);
    }
  }

  ghost function ScalingTargets(l: Lattice, cfg: C.DaemonConfig, spread: Spread): set<Id> {
    set h | h in Suiting(l, spread) && Sum(Marked(l, cfg, spread, h)) != cfg.instances
  }

  lemma ScalingsAre(l: Lattice, cfg: C.DaemonConfig, i: nat)
    requires i < |cfg.spreads|
    ensures C.Needing(l, cfg, i) == ScalingTargets(l, cfg, cfg.spreads[i])
  {
    SuitingIs(l, cfg.spreads[i]);
    forall h { TotalIs(l, cfg, i, h); }
    assert forall h :: h in EligibleHosts(l.hosts, cfg.spreads[i]) <==> Eligible(l.hosts, cfg.spreads[i], h);
  }

  ghost function AllScalingTargets(l: Lattice, cfg: C.DaemonConfig): seq<set<Id>> {
    seq(|cfg.spreads|, i requires 0 <= i < |cfg.spreads| => ScalingTargets(l, cfg, cfg.spreads[i]))
  }

  lemma {:induction false} ComponentDaemonCounts(l: Lattice, cfg: C.DaemonConfig, n: nat)
    requires n <= |cfg.spreads|
    ensures C.NumNeeded(l, cfg, n) == Sizes(AllScalingTargets(l, cfg)[..n])
  {
    if n > 0 {
      ComponentDaemonCounts(l, cfg, n - 1);
      var all := AllScalingTargets(l, cfg)[..n];
      assert all[..n - 1] == AllScalingTargets(l, cfg)[..n - 1];
      SizesSnoc(all);
      ScalingsAre(l, cfg, n - 1);
    }
  }
}
