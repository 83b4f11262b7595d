/** The scaler that runs one copy of a provider on every eligible host. */
module ProviderDaemonScalers {
  import opened Wrappers
  import opened LatticeState
  import opened Events
  import opened Commands
  import opened Spreads
  import opened ProviderSpreadScalers
  import opened ProviderConvergence

  datatype Daemon = Daemon(provider: ProviderConfig, instances: nat, spreads: seq<Spread>)

  function MisplacedBy(l: Lattice, d: Daemon): set<Id> {
    set h | h in IneligibleHosts(l.hosts, d.spreads) && Owned(l, d.provider, h)
  }

  /** A host that runs the provider needs a command only in a cleanup, any other always. */
  predicate Needs(l: Lattice, d: Daemon, i: nat, h: Id) {
    i < |d.spreads| && Eligible(l.hosts, d.spreads[i], h) && (RunsOn(l, d.provider, h) ==> d.instances == 0)
  }

  function CommandAt(l: Lattice, d: Daemon, i: nat, h: Id): Command
    requires i < |d.spreads|
  {
    if RunsOn(l, d.provider, h) then Stop(d.provider, d.spreads[i], h) else Start(d.provider, d.spreads[i], h)
  }

  function Needing(l: Lattice, d: Daemon, i: nat): set<Id> {
    set h | h in l.hosts && Needs(l, d, i, h)
  }

  function NumNeeded(l: Lattice, d: Daemon, n: nat): nat {
    if n == 0 then 0 else NumNeeded(l, d, n - 1) + |Needing(l, d, n - 1)|
  }

  /** What one pass returns, in whatever order the host map is walked. */
  ghost predicate PassReturns(l: Lattice, d: Daemon, commands: seq<Command>) {
    if MisplacedBy(l, d) != {} then
      forall c :: c in commands <==> exists h :: h in MisplacedBy(l, d) && c == StopMisplaced(d.provider, h)
    else
      forall c :: c in commands <==> exists i: nat, h :: Needs(l, d, i, h) && c == CommandAt(l, d, i, h)
  }

  /** Some of the first n spreads has no eligible host. */
  predicate NoHosts(l: Lattice, d: Daemon, n: nat)
    requires n <= |d.spreads|
  {
    n > 0 && (NoHosts(l, d, n - 1) || EligibleHosts(l.hosts, d.spreads[n - 1]) == {})
  }

  const EVERYWHERE := [Spread("default", map[], None)]

  class ProviderDaemonScaler {
    var config: Daemon
    var status: Status

    /** Without spreads it covers every host. */
    constructor (d: Daemon)
      ensures config == d.(spreads := if d.spreads == [] then EVERYWHERE else d.spreads) && status == Reconciling
    {
      config := d.(spreads := if d.spreads == [] then EVERYWHERE else d.spreads);
      status := Reconciling;
    }

    method UpdateConfig(l: Lattice, instances: nat, spreads: seq<Spread>) returns (commands: seq<Command>)
      modifies this
      ensures config == Daemon(old(config).provider, instances, if spreads == [] then EVERYWHERE else spreads)
      ensures PassReturns(l, config, commands)
    {
      config := Daemon(config.provider, instances, if spreads == [] then EVERYWHERE else spreads);
      commands := Reconcile(l);
    }

    method StopAllMisplaced(l: Lattice) returns (commands: seq<Command>)
      ensures |commands| == |MisplacedBy(l, config)|
      ensures forall c :: c in commands <==> exists h :: h in MisplacedBy(l, config) && c == StopMisplaced(config.provider, h)
    {
      var order := Walk(MisplacedBy(l, config));
      var provider := config.provider;
      commands := seq(|order|, k requires 0 <= k < |order| => StopMisplaced(provider, order[k]));
      assert forall k :: 0 <= k < |order| ==> commands[k] == StopMisplaced(provider, order[k]);
    }

    method ReconcileSpread(l: Lattice, i: nat) returns (commands: seq<Command>)
      requires i < |config.spreads|
      ensures |commands| == |Needing(l, config, i)|
      ensures forall c :: c in commands <==> exists h :: h in Needing(l, config, i) && c == CommandAt(l, config, i, h)
    {
      var order := Walk(Needing(l, config, i));
      var d := config;
      commands := seq(|order|, k requires 0 <= k < |order| => CommandAt(l, d, i, order[k]));
      assert forall k :: 0 <= k < |order| ==> commands[k] == CommandAt(l, d, i, order[k]);
    }

    method Reconcile(l: Lattice) returns (commands: seq<Command>)
      modifies this`status
      ensures PassReturns(l, config, commands)
      ensures |commands| == if MisplacedBy(l, config) != {} then |MisplacedBy(l, config)| else NumNeeded(l, config, |config.spreads|)
      ensures status ==
        if MisplacedBy(l, config) != {} then Reconciling
        else if NoHosts(l, config, |config.spreads|) then Status.Failed
        else if commands == [] then Deployed else Reconciling
    {
      if MisplacedBy(l, config) != {} {
        commands := StopAllMisplaced(l);
        status := Reconciling;
        return;
      }
      commands := [];
      var failed := false;
      for i := 0 to |config.spreads|
        invariant forall c :: c in commands <==>
                    exists j: nat, h :: j < i && Needs(l, config, j, h) && c == CommandAt(l, config, j, h)
        invariant |commands| == NumNeeded(l, config, i)
        invariant failed == NoHosts(l, config, i)
      {
        var segment := ReconcileSpread(l, i);
        commands := commands + segment;
        if EligibleHosts(l.hosts, config.spreads[i]) == {} { failed := true; }
      }
      status := if failed then Status.Failed else if commands == [] then Deployed else Reconciling;
    }

    /** A pass of a copy of this scaler that wants no instances. */
    method Cleanup(l: Lattice) returns (commands: seq<Command>)
      ensures PassReturns(l, config.(instances := 0), commands)
    {
      var cleaner := new ProviderDaemonScaler(config);
      cleaner.config := config.(instances := 0);
      commands := cleaner.Reconcile(l);
    }
  }

  // ---------- when a pass has nothing to do ----------

  ghost predicate AnyEligible(l: Lattice, d: Daemon) {
    exists i: nat, h :: i < |d.spreads| && Eligible(l.hosts, d.spreads[i], h)
  }

  ghost predicate AtRest(l: Lattice, d: Daemon) {
    MisplacedBy(l, d) == {} && forall i: nat, h :: !Needs(l, d, i, h)
  }

  lemma ReturnsNothingIff(l: Lattice, d: Daemon, commands: seq<Command>)
    requires PassReturns(l, d, commands)
    ensures commands == [] <==> AtRest(l, d)
  {
    if MisplacedBy(l, d) != {} {
      var h :| h in MisplacedBy(l, d);
      assert StopMisplaced(d.provider, h) in commands;
    } else {
      assert commands != [] ==> commands[0] in commands;
      if i: nat, h :| Needs(l, d, i, h) {
        assert CommandAt(l, d, i, h) in commands;
      }
    }
  }

  /** A cleanup pass starts the provider on every eligible host that does not run it, once nothing is
      misplaced. */
  lemma CleanupStartsIff(l: Lattice, d: Daemon, commands: seq<Command>, i: nat, h: Id)
    requires PassReturns(l, d.(instances := 0), commands) && MisplacedBy(l, d) == {}
    requires i < |d.spreads| && Eligible(l.hosts, d.spreads[i], h)
    ensures Start(d.provider, d.spreads[i], h) in commands <==> !RunsOn(l, d.provider, h)
    ensures Stop(d.provider, d.spreads[i], h) in commands <==> RunsOn(l, d.provider, h)
  {
    var clean := d.(instances := 0);
    assert MisplacedBy(l, clean) == MisplacedBy(l, d);
    assert Needs(l, clean, i, h) && CommandAt(l, clean, i, h) in commands;
    forall c | c in commands && (c == Start(d.provider, d.spreads[i], h) || c == Stop(d.provider, d.spreads[i], h))
      ensures c == CommandAt(l, clean, i, h)
    {
      var j: nat, g :| Needs(l, clean, j, g) && c == CommandAt(l, clean, j, g);
      assert g == h;
    }
  }

  // ---------- rounds ----------

  lemma TargetsProvider(l: Lattice, d: Daemon, commands: seq<Command>, events: seq<Event>)
    requires PassReturns(l, d, commands) && AllDone(commands, events)
    ensures AllFor(d.provider.providerId, events)
  {
    forall k | 0 <= k < |events| ensures ForProvider(d.provider.providerId, events[k]) {
      assert commands[k] in commands && Done(commands[k], events[k]);
    }
  }

  /** A host that was only told to start the provider runs it unless it is stale; one that was only told to
      stop it does not. */
  lemma {:induction false} PlayRuns(l: Lattice, cfg: ProviderConfig, events: seq<Event>, h: Id)
    requires HostsKeyed(l) && AllFor(cfg.providerId, events) && h in l.hosts
    ensures AllStarts(events, cfg.providerId, h) ==>
              (RunsOn(Play(l, events), cfg, h) <==>
               (RunsOn(l, cfg, h) || (Touches(events, cfg.providerId, h) && !Stale(l, cfg.providerId, h))))
    ensures OnlyStops(events, cfg.providerId, h) ==>
              (RunsOn(Play(l, events), cfg, h) <==> (RunsOn(l, cfg, h) && !Touches(events, cfg.providerId, h)))
  {
    if events != [] {
      var p, front, last := cfg.providerId, events[..|events| - 1], events[|events| - 1];
      assert ForProvider(p, last);
      PlayFrame(l, p, front);
      PlayRuns(l, cfg, front, h);
      PlayStale(l, p, front, h);
      TouchesLast(events, p, h);
      assert AllStarts(events, p, h) ==> AllStarts(front, p, h);
      assert OnlyStops(events, p, h) ==> OnlyStops(front, p, h);
      if last.ProviderStopped? {
        StoppedOne(Play(l, front), p, last, h);
      } else {
        StartedOne(Play(l, front), p, last, h, ProviderInfo("", map[]));
      }
    }
  }

  /** The round that stops misplaced providers leaves none, and the rest as it is. */
  lemma DaemonClears(l: Lattice, d: Daemon, commands: seq<Command>, events: seq<Event>, h: Id)
    requires HostsKeyed(l) && MisplacedBy(l, d) != {}
    requires PassReturns(l, d, commands) && AllDone(commands, events)
    ensures Info(Play(l, events), d.provider.providerId, h) ==
            (if h in MisplacedBy(l, d) then None else Info(l, d.provider.providerId, h))
    ensures Stale(Play(l, events), d.provider.providerId, h) <==> Stale(l, d.provider.providerId, h)
  {
    var p := d.provider.providerId;
    TargetsProvider(l, d, commands, events);
    forall k | 0 <= k < |events| ensures events[k].ProviderStopped? && events[k].hostId in MisplacedBy(l, d) {
      assert commands[k] in commands && Done(commands[k], events[k]);
    }
    if h in MisplacedBy(l, d) {
      assert StopMisplaced(d.provider, h) in commands;
      var k :| 0 <= k < |commands| && commands[k] == StopMisplaced(d.provider, h);
      assert Done(commands[k], events[k]) && On(events[k], p, h);
    }
    PlayInfo(l, p, events, h, ProviderInfo("", map[]));
    PlayStale(l, p, events, h);
  }

  lemma EventIsNeeded(l: Lattice, d: Daemon, commands: seq<Command>, events: seq<Event>, k: nat)
    requires MisplacedBy(l, d) == {} && PassReturns(l, d, commands) && AllDone(commands, events) && k < |events|
    ensures exists i: nat :: Needs(l, d, i, events[k].hostId)
    ensures events[k].ProviderStarted? <==> !RunsOn(l, d.provider, events[k].hostId)
    ensures events[k].ProviderStopped? <==> RunsOn(l, d.provider, events[k].hostId)
  {
    assert commands[k] in commands && Done(commands[k], events[k]);
    var i: nat, h :| Needs(l, d, i, h) && commands[k] == CommandAt(l, d, i, h);
  }

  lemma NeedIsMet(l: Lattice, d: Daemon, commands: seq<Command>, events: seq<Event>, i: nat, h: Id)
    requires MisplacedBy(l, d) == {} && PassReturns(l, d, commands) && AllDone(commands, events) && Needs(l, d, i, h)
    ensures Touches(events, d.provider.providerId, h)
  {
    assert CommandAt(l, d, i, h) in commands;
    var k :| 0 <= k < |commands| && commands[k] == CommandAt(l, d, i, h);
    assert Done(commands[k], events[k]) && On(events[k], d.provider.providerId, h);
  }

  /** Every other round turns the provider on where it was off and, in a cleanup, off where it was on, but
      for the stale hosts; and no round changes which hosts are stale. */
  lemma DaemonRound(l: Lattice, d: Daemon, commands: seq<Command>, events: seq<Event>, h: Id)
    requires HostsKeyed(l) && MisplacedBy(l, d) == {}
    requires PassReturns(l, d, commands) && AllDone(commands, events) && h in l.hosts
    ensures EligibleFor(l, d, h) ==>
              (RunsOn(Play(l, events), d.provider, h) <==>
               (!Stale(l, d.provider.providerId, h) && (d.instances > 0 || !RunsOn(l, d.provider, h))))
    ensures !EligibleFor(l, d, h) ==> Info(Play(l, events), d.provider.providerId, h) == Info(l, d.provider.providerId, h)
    ensures Stale(Play(l, events), d.provider.providerId, h) <==> Stale(l, d.provider.providerId, h)
  {
    var p := d.provider.providerId;
    TargetsProvider(l, d, commands, events);
    forall k | 0 <= k < |events| && On(events[k], p, h)
      ensures exists i: nat :: Needs(l, d, i, h)
      ensures events[k].ProviderStarted? <==> !RunsOn(l, d.provider, h)
    {
      EventIsNeeded(l, d, commands, events, k);
    }
    PlayRuns(l, d.provider, events, h);
    PlayStale(l, p, events, h);
    PlayInfo(l, p, events, h, ProviderInfo("", map[]));
    if i: nat :| i < |d.spreads| && Eligible(l.hosts, d.spreads[i], h) {
      if Needs(l, d, i, h) { NeedIsMet(l, d, commands, events, i, h); }
    }
  }

  ghost predicate EligibleFor(l: Lattice, d: Daemon, h: Id) {
    exists i: nat :: i < |d.spreads| && Eligible(l.hosts, d.spreads[i], h)
  }

  /** The daemon can come to rest: no host is eligible, or instances are wanted and no eligible host is stale. */
  ghost predicate CanRest(l: Lattice, d: Daemon) {
    forall h :: EligibleFor(l, d, h) ==> d.instances > 0 && !Stale(l, d.provider.providerId, h)
  }

  lemma SameHosts(l: Lattice, d: Daemon, commands: seq<Command>, events: seq<Event>)
    requires HostsKeyed(l) && PassReturns(l, d, commands) && AllDone(commands, events)
    ensures HostsKeyed(Play(l, events)) && SameLabels(l, Play(l, events))
    ensures forall h :: EligibleFor(Play(l, events), d, h) <==> EligibleFor(l, d, h)
  {
    TargetsProvider(l, d, commands, events);
    PlayFrame(l, d.provider.providerId, events);
    var l' := Play(l, events);
    forall i: nat, h | i < |d.spreads|
      ensures Eligible(l'.hosts, d.spreads[i], h) == Eligible(l.hosts, d.spreads[i], h)
    {
    }
  }

  /** Whether it can is not for a round to change. */
  lemma CanRestKept(l: Lattice, d: Daemon, commands: seq<Command>, events: seq<Event>)
    requires HostsKeyed(l) && PassReturns(l, d, commands) && AllDone(commands, events)
    ensures CanRest(Play(l, events), d) <==> CanRest(l, d)
  {
    SameHosts(l, d, commands, events);
    forall h | EligibleFor(l, d, h)
      ensures Stale(Play(l, events), d.provider.providerId, h) <==> Stale(l, d.provider.providerId, h)
    {
      if MisplacedBy(l, d) != {} {
        DaemonClears(l, d, commands, events, h);
      } else {
        DaemonRound(l, d, commands, events, h);
      }
    }
  }

  /** After any round nothing is misplaced. */
  lemma NothingMisplacedAfter(l: Lattice, d: Daemon, commands: seq<Command>, events: seq<Event>)
    requires HostsKeyed(l) && PassReturns(l, d, commands) && AllDone(commands, events)
    ensures MisplacedBy(Play(l, events), d) == {}
  {
    SameHosts(l, d, commands, events);
    var l' := Play(l, events);
    forall h | h in IneligibleHosts(l'.hosts, d.spreads) ensures !Owned(l', d.provider, h) {
      assert h in IneligibleHosts(l.hosts, d.spreads);
      if MisplacedBy(l, d) != {} {
        DaemonClears(l, d, commands, events, h);
      } else {
        DaemonRound(l, d, commands, events, h);
        assert h !in MisplacedBy(l, d);
      }
    }
  }

  /** With nothing misplaced, one applied round decides. */
  lemma DaemonRoundSettlesIff(l: Lattice, d: Daemon, commands: seq<Command>, events: seq<Event>)
    requires HostsKeyed(l) && MisplacedBy(l, d) == {} && PassReturns(l, d, commands) && AllDone(commands, events)
    ensures AtRest(Play(l, events), d) <==> CanRest(l, d)
  {
    var l' := Play(l, events);
    SameHosts(l, d, commands, events);
    NothingMisplacedAfter(l, d, commands, events);
    if CanRest(l, d) {
      forall i: nat, h | i < |d.spreads| && Eligible(l'.hosts, d.spreads[i], h) ensures !Needs(l', d, i, h) {
        assert EligibleFor(l', d, h);
        DaemonRound(l, d, commands, events, h);
      }
    } else {
      CanRestKept(l, d, commands, events);
      RestlessNeeds(l', d);
    }
  }

  lemma RestlessNeeds(l: Lattice, d: Daemon)
    requires !CanRest(l, d)
    ensures !AtRest(l, d)
  {
    var h :| EligibleFor(l, d, h) && !(d.instances > 0 && !Stale(l, d.provider.providerId, h));
    var i: nat :| i < |d.spreads| && Eligible(l.hosts, d.spreads[i], h);
    assert Needs(l, d, i, h);
  }

  // ---------- any number of rounds ----------

  /** Rounds one after another: each answers what a pass over the store before it returned. */
  ghost predicate Rounds(ls: seq<Lattice>, d: Daemon) {
    forall k :: 0 <= k < |ls| - 1 ==> FollowsByRound(ls[k], ls[k + 1], d)
  }

  ghost predicate FollowsByRound(l: Lattice, l': Lattice, d: Daemon) {
    exists commands, events :: PassReturns(l, d, commands) && AllDone(commands, events) && l' == Play(l, events)
  }

  lemma {:induction false} RoundsKeep(ls: seq<Lattice>, d: Daemon, k: nat)
    requires k < |ls| && Rounds(ls, d) && HostsKeyed(ls[0])
    ensures HostsKeyed(ls[k]) && (CanRest(ls[k], d) <==> CanRest(ls[0], d))
    ensures k > 0 ==> MisplacedBy(ls[k], d) == {}
  {
    if k > 0 {
      RoundsKeep(ls, d, k - 1);
      assert FollowsByRound(ls[k - 1], ls[k - 1 + 1], d);
      var commands, events :| PassReturns(ls[k - 1], d, commands) && AllDone(commands, events) && ls[k] == Play(ls[k - 1], events);
      SameHosts(ls[k - 1], d, commands, events);
      CanRestKept(ls[k - 1], d, commands, events);
      NothingMisplacedAfter(ls[k - 1], d, commands, events);
    }
  }

  /** After two applied rounds or more, a pass returns nothing exactly when no host is eligible, or instances
      are wanted and no eligible host was stale at the start. */
  lemma DaemonSettlesIff(ls: seq<Lattice>, d: Daemon, k: nat)
    requires 2 <= k < |ls| && Rounds(ls, d) && HostsKeyed(ls[0])
    ensures AtRest(ls[k], d) <==> CanRest(ls[0], d)
  {
    RoundsKeep(ls, d, k - 1);
    assert FollowsByRound(ls[k - 1], ls[k - 1 + 1], d);
    var commands, events :| PassReturns(ls[k - 1], d, commands) && AllDone(commands, events) && ls[k] == Play(ls[k - 1], events);
    DaemonRoundSettlesIff(ls[k - 1], d, commands, events);
  }

  /** Where it cannot, it is at rest at no time: one stale eligible host is enough. */
  lemma NeverRests(ls: seq<Lattice>, d: Daemon, k: nat)
    requires k < |ls| && Rounds(ls, d) && HostsKeyed(ls[0]) && !CanRest(ls[0], d)
    ensures !AtRest(ls[k], d)
  {
    RoundsKeep(ls, d, k);
    RestlessNeeds(ls[k], d);
  }

  /** While any host is eligible, repeated cleanup passes never come to rest. */
  lemma CleanupNeverRests(ls: seq<Lattice>, d: Daemon, k: nat)
    requires k < |ls| && Rounds(ls, d) && HostsKeyed(ls[0])
    requires d.instances == 0 && AnyEligible(ls[0], d)
    ensures !AtRest(ls[k], d)
  {
    var i: nat, h :| i < |d.spreads| && Eligible(ls[0].hosts, d.spreads[i], h);
    assert EligibleFor(ls[0], d, h);
    NeverRests(ls, d, k);
  }

  /** The default spread asks for no label. */
  lemma EverywhereIsEveryHost(hosts: map<Id, Host>)
    ensures |EVERYWHERE| == 1 && EligibleHosts(hosts, EVERYWHERE[0]) == hosts.Keys
    ensures IneligibleHosts(hosts, EVERYWHERE) == {}
  {
    forall h | h in hosts ensures Fits(hosts[h].labels, EVERYWHERE[0]) {}
  }
}
