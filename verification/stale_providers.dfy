/** A provider's record may list a stored host whose own record does not list the provider: how a run comes
    to such a state, what ends it, and what it does to a scaler. */
module StaleProviders {
  import opened Wrappers
  import opened LatticeState
  import opened Events
  import opened LatticeSpec
  import opened LatticeInvariants
  import opened ReachableStates
  import Spreads
  import P = ProviderSpreadScalers
  import S = SpreadRounds
  import D = ProviderDaemonScalers

  /** The actions that end it: the provider stops on the host, the host reports it or stops, or the host is
      reaped. */
  predicate Ends(l: Lattice, a: Action, p: Id, h: Id) {
    match a
    case Handle(ProviderStopped(provider, host), _, _) => provider == p && host == h
    case Handle(HostHeartbeat(host, _, _, _, providers, _, _), _, _) => host == h && p in ReportedProviders(providers)
    case Handle(HostStopped(host, _), _, _) => host == h
    case Handle(_, _, _) => false
    case Reap(now, interval) => h in l.hosts && now - l.hosts[h].lastSeen > interval * 2
  }

  lemma StaleUntilReaped(l: Lattice, now: int, interval: int, p: Id, h: Id)
    requires Stale(l, p, h)
    ensures Stale(AfterReap(l, now, interval), p, h) <==> now - l.hosts[h].lastSeen <= interval * 2
  {
    if now - l.hosts[h].lastSeen <= interval * 2 {
      assert h in ReapedProvider(l.providers[p], AfterReapHosts(l, now, interval).hosts).hosts;
    }
  }

  lemma StaleUntilStopped(l: Lattice, host: Id, p: Id, h: Id)
    requires Stale(l, p, h)
    ensures Stale(HostStopWrites(l, host, 5), p, h) <==> host != h
  {
    if host in l.hosts && host != h {
      HostStoppedAt(l, host, p);
      assert h in l.providers[p].hosts - {host};
    }
  }

  lemma StaleUntilReported(l: Lattice, e: Event, now: int, claims: map<Id, Claims>, p: Id, h: Id)
    requires Stale(l, p, h) && e.HostHeartbeat?
    ensures Stale(AfterHeartbeat(l, e, now, claims), p, h) <==> !(e.hostId == h && p in ReportedProviders(e.providers))
  {
    HeartbeatProviders(l, e, now, claims, p);
  }

  lemma StaleAmongEvents(l: Lattice, e: Event, now: int, claims: map<Id, Claims>, p: Id, h: Id)
    requires KeyedById(l) && Stale(l, p, h) && !e.HostHeartbeat? && !e.HostStopped?
    ensures Stale(Step(l, e, now, claims), p, h) <==> !(e.ProviderStopped? && e.providerId == p && e.hostId == h)
  {
    if e.ProviderStopped? && e.providerId == p && e.hostId != h { assert h in l.providers[p].hosts - {e.hostId}; }
  }

  /** A start of the provider on the host is not among them: nothing but these actions lists it again. */
  lemma StaleUntil(l: Lattice, a: Action, p: Id, h: Id)
    requires KeyedById(l) && Stale(l, p, h)
    ensures Stale(Act(l, a), p, h) <==> !Ends(l, a, p, h)
  {
    match a
    case Reap(now, interval) => StaleUntilReaped(l, now, interval, p, h);
    case Handle(e, now, claims) =>
      if e.HostHeartbeat? {
        StaleUntilReported(l, e, now, claims, p, h);
      } else if e.HostStopped? {
        StaleUntilStopped(l, e.hostId, p, h);
      } else {
        StaleAmongEvents(l, e, now, claims, p, h);
      }
  }

  /** A host that has started, and on it a provider. */
  lemma ProviderStarts(h: Id, p: Id) returns (actions: seq<Action>)
    ensures var l := Run(NOTHING, actions);
            KeyedById(l) && l.hosts.Keys == {h} && ProviderLists(l, p, h) && l.components == map[]
  {
    var start := Handle(HostStarted(h, "", map[]), 0, map[]);
    var provider := Handle(ProviderStarted(p, h, map[], "", None), 0, map[]);
    RunSnoc(NOTHING, [], start);
    RunSnoc(NOTHING, [] + [start], provider);
    actions := [] + [start] + [provider];
  }

  /** The host then reports without it. */
  lemma HostReportsWithout(l: Lattice, h: Id, p: Id) returns (beat: Action)
    requires KeyedById(l) && l.hosts.Keys == {h} && ProviderLists(l, p, h)
    ensures KeyedById(Act(l, beat)) && Act(l, beat).hosts.Keys == {h} && Act(l, beat).hosts[h].lastSeen == 0
    ensures Stale(Act(l, beat), p, h)
  {
    beat := Handle(HostHeartbeat(h, "", map[], [], [], 0, ""), 0, map[]);
    HeartbeatKeeps(l, beat.event, 0, map[], {});
    HeartbeatProviders(l, beat.event, 0, map[], p);
  }

  /** And the reaper finds it just seen. */
  lemma ReaperRuns(l: Lattice, h: Id, p: Id)
    requires KeyedById(l) && l.hosts.Keys == {h} && l.hosts[h].lastSeen == 0 && Stale(l, p, h)
    ensures Act(l, Reap(0, 0)).hosts.Keys == {h} && Stale(Act(l, Reap(0, 0)), p, h)
  {
    StaleUntilReaped(l, 0, 0, p, h);
  }

  /** From nothing: a host starts, a provider starts on it, the host reports without it, and the reaper
      runs. */
  lemma StaleIsReachable(h: Id, p: Id) returns (actions: seq<Action>)
    ensures var l := Run(NOTHING, actions);
            Consistent(l) && Reaped(l) && l.hosts.Keys == {h} && Stale(l, p, h)
  {
    var before := ProviderStarts(h, p);
    var beat := HostReportsWithout(Run(NOTHING, before), h, p);
    RunSnoc(NOTHING, before, beat);
    ReaperRuns(Run(NOTHING, before + [beat]), h, p);
    RunSnoc(NOTHING, before + [beat], Reap(0, 0));
    NothingIsConsistent();
    RunThenReap(NOTHING, before + [beat], 0, 0);
    actions := before + [beat] + [Reap(0, 0)];
  }

  /** In that state a daemon scaler that covers the host is at rest neither then nor after any rounds. */
  lemma DaemonRestless(d: D.Daemon, h: Id) returns (actions: seq<Action>)
    requires D.EVERYWHERE <= d.spreads
    ensures var l := Run(NOTHING, actions);
      && Consistent(l) && Reaped(l) && !D.CanRest(l, d)
      && forall ls, k: nat :: k < |ls| && D.Rounds(ls, d) && ls[0] == l ==> !D.AtRest(ls[k], d)
  {
    actions := StaleIsReachable(h, d.provider.providerId);
    var l := Run(NOTHING, actions);
    D.EverywhereIsEveryHost(l.hosts);
    assert h in Spreads.EligibleHosts(l.hosts, d.spreads[0]);
    assert D.EligibleFor(l, d, h);
    forall ls, k: nat | k < |ls| && D.Rounds(ls, d) && ls[0] == l ensures !D.AtRest(ls[k], d) {
      D.NeverRests(ls, d, k);
    }
  }

  /** And neither is a spread scaler that wants any number of copies anywhere. */
  lemma SpreadRestless(cfg: P.ProviderConfig, spread: Spreads.Spread, count: nat, h: Id) returns (actions: seq<Action>)
    requires spread.requirements == map[] && count > 0
    ensures var l, rs := Run(NOTHING, actions), [(spread, count)];
      && Consistent(l) && Reaped(l) && !S.SomeChoiceLands(l, cfg, rs[0])
      && forall ls, k: nat :: k < |ls| && S.Rounds(ls, cfg, rs) && ls[0] == l ==> !P.Settled(ls[k], cfg, rs)
  {
    actions := StaleIsReachable(h, cfg.providerId);
    var l, rs := Run(NOTHING, actions), [(spread, count)];
    OnlyStaleFree(l, cfg, rs[0], h);
    forall ls, k: nat | k < |ls| && S.Rounds(ls, cfg, rs) && ls[0] == l ensures !P.Settled(ls[k], cfg, rs) {
      S.NeverSettles(ls, cfg, rs, 0, k);
    }
  }

  lemma OnlyStaleFree(l: Lattice, cfg: P.ProviderConfig, r: Spreads.Requirement, h: Id)
    requires l.hosts.Keys == {h} && Stale(l, cfg.providerId, h) && r.0.requirements == map[] && r.1 > 0
    ensures !S.SomeChoiceLands(l, cfg, r)
  {
    assert Spreads.EligibleHosts(l.hosts, r.0) == {h};
    assert P.Occupied(l, cfg, r.0) == {} && P.Mine(l, cfg, r.0) == {};
    assert P.Free(l, cfg, r.0) == {h};
    assert S.FitFree(l, cfg, r) == {};
  }
}
