/** Reconcile, let the hosts answer, reconcile again: where the provider spread scaler comes to rest. */
module ProviderConvergence {
  import opened Wrappers
  import opened LatticeState
  import opened Events
  import opened LatticeSpec
  import opened LatticeInvariants
  import opened ReachableStates
  import opened Commands
  import opened Spreads
  import opened ProviderSpreadScalers

  // ---------- hosts answering provider commands ----------

  /** The event with which a host reports that it did what a command says. */
  ghost predicate Done(c: Command, e: Event) {
    || (c.StartProvider? && e.ProviderStarted? && Echoes(c, e))
    || (c.StopProvider? && e.ProviderStopped? && e.providerId == c.providerId && e.hostId == c.hostId)
  }

  ghost predicate AllDone(commands: seq<Command>, events: seq<Event>) {
    |commands| == |events| && forall k :: 0 <= k < |commands| ==> Done(commands[k], events[k])
  }

  function PlayOne(l: Lattice, e: Event): Lattice {
    if e.ProviderStarted? then AfterProviderStarted(l, e)
    else if e.ProviderStopped? then AfterProviderStopped(l, e)
    else l
  }

  function Play(l: Lattice, events: seq<Event>): Lattice {
    if events == [] then l else PlayOne(Play(l, events[..|events| - 1]), events[|events| - 1])
  }

  predicate ForProvider(p: Id, e: Event) {
    (e.ProviderStarted? || e.ProviderStopped?) && e.providerId == p
  }

  ghost predicate AllFor(p: Id, events: seq<Event>) {
    forall k :: 0 <= k < |events| ==> ForProvider(p, events[k])
  }

  ghost predicate SameLabels(l: Lattice, l': Lattice) {
    l'.hosts.Keys == l.hosts.Keys && forall h :: h in l.hosts ==> l'.hosts[h].labels == l.hosts[h].labels
  }

  predicate On(e: Event, p: Id, h: Id) {
    ForProvider(p, e) && e.hostId == h
  }

  predicate Starts(e: Event, info: ProviderInfo) {
    e.ProviderStarted? && ProviderInfo(e.imageRef, e.annotations) == info
  }

  lemma StoppedOne(l: Lattice, p: Id, e: Event, h: Id)
    requires HostsKeyed(l) && ForProvider(p, e) && e.ProviderStopped?
    ensures Info(PlayOne(l, e), p, h) == (if h == e.hostId then None else Info(l, p, h))
    ensures Stale(PlayOne(l, e), p, h) <==> (Stale(l, p, h) && h != e.hostId)
  {
    if ProviderLists(l, p, h) && h != e.hostId { assert h in l.providers[p].hosts - {e.hostId}; }
  }

  /** A host record changes only when the provider did not list the host before. */
  lemma StartedOne(l: Lattice, p: Id, e: Event, h: Id, info: ProviderInfo)
    requires HostsKeyed(l) && ForProvider(p, e) && e.ProviderStarted?
    ensures h != e.hostId || Stale(l, p, h) ==> Info(PlayOne(l, e), p, h) == Info(l, p, h)
    ensures h == e.hostId && h in l.hosts && !Stale(l, p, h) ==> Info(PlayOne(l, e), p, h).Some?
    ensures h == e.hostId && h in l.hosts && !Stale(l, p, h) && Starts(e, info)
            && (Info(l, p, h).None? || Info(l, p, h) == Some(info)) ==>
              Info(PlayOne(l, e), p, h) == Some(info)
    ensures Stale(PlayOne(l, e), p, h) <==> Stale(l, p, h)
  {
  }

  lemma OneKeepsHosts(l: Lattice, p: Id, e: Event)
    requires HostsKeyed(l) && ForProvider(p, e)
    ensures HostsKeyed(PlayOne(l, e)) && SameLabels(l, PlayOne(l, e))
  {
  }

  predicate Touches(events: seq<Event>, p: Id, h: Id) {
    exists k :: 0 <= k < |events| && On(events[k], p, h)
  }

  predicate OnlyStarts(events: seq<Event>, p: Id, h: Id, info: ProviderInfo) {
    forall k :: 0 <= k < |events| && On(events[k], p, h) ==> Starts(events[k], info)
  }

  predicate OnlyStops(events: seq<Event>, p: Id, h: Id) {
    forall k :: 0 <= k < |events| && On(events[k], p, h) ==> events[k].ProviderStopped?
  }

  lemma TouchesLast(events: seq<Event>, p: Id, h: Id)
    requires events != []
    ensures Touches(events, p, h) <==> Touches(events[..|events| - 1], p, h) || On(events[|events| - 1], p, h)
  {
    var front := events[..|events| - 1];
    assert forall k :: 0 <= k < |front| ==> front[k] == events[k];
    if Touches(front, p, h) {
      var k :| 0 <= k < |front| && On(front[k], p, h);
      assert On(events[k], p, h);
    }
  }

  lemma {:induction false} PlayFrame(l: Lattice, p: Id, events: seq<Event>)
    requires HostsKeyed(l) && AllFor(p, events)
    ensures HostsKeyed(Play(l, events)) && SameLabels(l, Play(l, events))
  {
    if events != [] {
      var front, last := events[..|events| - 1], events[|events| - 1];
      assert ForProvider(p, last);
      PlayFrame(l, p, front);
      OneKeepsHosts(Play(l, front), p, last);
    }
  }

  predicate AllStarts(events: seq<Event>, p: Id, h: Id) {
    forall k :: 0 <= k < |events| && On(events[k], p, h) ==> events[k].ProviderStarted?
  }

  /** Starting a provider does not change whether its host is stale; stopping it on the host ends that. */
  lemma {:induction false} PlayStale(l: Lattice, p: Id, events: seq<Event>, h: Id)
    requires HostsKeyed(l) && AllFor(p, events)
    ensures AllStarts(events, p, h) ==> (Stale(Play(l, events), p, h) <==> Stale(l, p, h))
    ensures OnlyStops(events, p, h) ==> (Stale(Play(l, events), p, h) <==> (Stale(l, p, h) && !Touches(events, p, h)))
  {
    if events != [] {
      var front, last := events[..|events| - 1], events[|events| - 1];
      assert ForProvider(p, last);
      PlayFrame(l, p, front);
      PlayStale(l, p, front, h);
      TouchesLast(events, p, h);
      assert AllStarts(events, p, h) ==> AllStarts(front, p, h);
      assert OnlyStops(events, p, h) ==> OnlyStops(front, p, h);
      if last.ProviderStopped? {
        StoppedOne(Play(l, front), p, last, h);
      } else {
        StartedOne(Play(l, front), p, last, h, ProviderInfo("", map[]));
      }
    }
  }

  /** What a host's record says after events that agree about that host. */
  lemma {:induction false} PlayInfo(l: Lattice, p: Id, events: seq<Event>, h: Id, info: ProviderInfo)
    requires HostsKeyed(l) && AllFor(p, events)
    ensures !Touches(events, p, h) ==> Info(Play(l, events), p, h) == Info(l, p, h)
    ensures Touches(events, p, h) && OnlyStops(events, p, h) ==> Info(Play(l, events), p, h).None?
    ensures Touches(events, p, h) && OnlyStarts(events, p, h, info) && h in l.hosts && Info(l, p, h).None? ==>
              Info(Play(l, events), p, h) == if Stale(l, p, h) then None else Some(info)
  {
    if events != [] {
      var front, last := events[..|events| - 1], events[|events| - 1];
      assert ForProvider(p, last);
      PlayFrame(l, p, front);
      PlayInfo(l, p, front, h, info);
      TouchesLast(events, p, h);
      assert OnlyStops(events, p, h) ==> OnlyStops(front, p, h);
      if OnlyStarts(events, p, h, info) {
        assert OnlyStarts(front, p, h, info) && AllStarts(front, p, h);
        PlayStale(l, p, front, h);
      }
      if last.ProviderStopped? {
        StoppedOne(Play(l, front), p, last, h);
      } else {
        StartedOne(Play(l, front), p, last, h, info);
      }
    }
  }

  lemma ReconcileTargetsProvider(l: Lattice, cfg: ProviderConfig, rs: seq<Requirement>, commands: seq<Command>, events: seq<Event>)
    requires Reconciles(l, cfg, rs, commands) && AllDone(commands, events)
    ensures AllFor(cfg.providerId, events)
  {
    forall k | 0 <= k < |events| ensures ForProvider(cfg.providerId, events[k]) {
      assert commands[k] in commands && Done(commands[k], events[k]);
      if Misplaced(l, cfg, rs) == {} {
        var picks :| |picks| == |rs| && PassSoFar(l, cfg, rs, picks, commands);
        var i: nat, h :| CommandFor(cfg, rs, picks, i, h, commands[k]);
      }
    }
  }

  // ---------- the round that stops misplaced providers ----------

  /** What the hosts hold is the same except that the misplaced providers are gone. */
  lemma ClearingRound(l: Lattice, cfg: ProviderConfig, rs: seq<Requirement>, commands: seq<Command>, events: seq<Event>, h: Id)
    requires HostsKeyed(l) && Misplaced(l, cfg, rs) != {}
    requires Reconciles(l, cfg, rs, commands) && AllDone(commands, events)
    ensures Info(Play(l, events), cfg.providerId, h) ==
            (if h in Misplaced(l, cfg, rs) then None else Info(l, cfg.providerId, h))
  {
    var p := cfg.providerId;
    ReconcileTargetsProvider(l, cfg, rs, commands, events);
    forall k | 0 <= k < |events| ensures events[k].ProviderStopped? && events[k].hostId in Misplaced(l, cfg, rs) {
      assert commands[k] in commands && Done(commands[k], events[k]);
    }
    if h in Misplaced(l, cfg, rs) {
      assert StopMisplaced(cfg, h) in commands;
      var k :| 0 <= k < |commands| && commands[k] == StopMisplaced(cfg, h);
      assert Done(commands[k], events[k]) && On(events[k], p, h);
    }
    PlayInfo(l, p, events, h, ProviderInfo("", map[]));
  }

  // ---------- the round that starts and stops ----------

  ghost predicate Disjoint(l: Lattice, rs: seq<Requirement>) {
    forall i, j, h :: 0 <= i < |rs| && 0 <= j < |rs| && Eligible(l.hosts, rs[i].0, h) && Eligible(l.hosts, rs[j].0, h) ==> i == j
  }

  /** Starts on free hosts or stops on the scaler's own, as every pick is. */
  ghost predicate Within(l: Lattice, cfg: ProviderConfig, r: Requirement, pick: Pick) {
    && pick.starts <= Free(l, cfg, r.0) && pick.stops <= Mine(l, cfg, r.0)
    && (pick.starts == {} || pick.stops == {})
  }

  lemma PicksAreWithin(l: Lattice, cfg: ProviderConfig, r: Requirement, pick: Pick)
    requires Picks(l, cfg, r, pick)
    ensures Within(l, cfg, r, pick)
  {}

  lemma WithinAt(l: Lattice, cfg: ProviderConfig, r: Requirement, pick: Pick, h: Id)
    requires Within(l, cfg, r, pick) && h in pick.starts + pick.stops
    ensures Eligible(l.hosts, r.0, h)
    ensures h in pick.starts ==> !RunsOn(l, cfg, h) && h !in pick.stops
    ensures h in pick.stops ==> OwnedFor(l, cfg, r.0, h)
  {
  }

  lemma PicksAreEligible(l: Lattice, cfg: ProviderConfig, r: Requirement, pick: Pick, h: Id)
    requires Picks(l, cfg, r, pick) && h in pick.starts + pick.stops
    ensures Eligible(l.hosts, r.0, h)
    ensures h in pick.starts ==> !RunsOn(l, cfg, h) && h !in pick.stops
    ensures h in pick.stops ==> OwnedFor(l, cfg, r.0, h)
  {
    PicksAreWithin(l, cfg, r, pick);
    WithinAt(l, cfg, r, pick, h);
  }

  ghost function StaleHosts(l: Lattice, p: Id): set<Id> {
    set h | h in l.hosts && Stale(l, p, h)
  }

  /** The part of a pick that shows in the host records afterwards. */
  ghost function Landed(l: Lattice, cfg: ProviderConfig, pick: Pick): Pick {
    Pick(pick.starts - StaleHosts(l, cfg.providerId), pick.stops)
  }

  /** The record that a start for this spread leaves on a host. */
  function StartedInfo(cfg: ProviderConfig, spread: Spread): ProviderInfo {
    ProviderInfo(cfg.reference, Managed(SpreadAnnotations(spread.name, cfg.id), cfg.modelName))
  }

  /** Every event of a round comes from a pick of some spread. */
  lemma EventHasPick(l: Lattice, cfg: ProviderConfig, rs: seq<Requirement>, picks: seq<Pick>,
                     commands: seq<Command>, events: seq<Event>, k: nat) returns (j: nat)
    requires |picks| == |rs| && PassSoFar(l, cfg, rs, picks, commands) && AllDone(commands, events)
    requires k < |events|
    ensures j < |rs| && ForProvider(cfg.providerId, events[k]) && Eligible(l.hosts, rs[j].0, events[k].hostId)
    ensures if events[k].ProviderStarted? then
              events[k].hostId in picks[j].starts && Starts(events[k], StartedInfo(cfg, rs[j].0))
            else events[k].hostId in picks[j].stops
  {
    assert commands[k] in commands && Done(commands[k], events[k]);
    var i: nat, h :| CommandFor(cfg, rs, picks, i, h, commands[k]);
    j := i;
    PickedAt(l, cfg, rs, picks, j);
    PicksAreEligible(l, cfg, rs[j], picks[j], h);
  }

  /** Only the spread that a host is eligible for touches it, and only as it picked. */
  lemma EventsFollowPick(l: Lattice, cfg: ProviderConfig, rs: seq<Requirement>, picks: seq<Pick>,
                         commands: seq<Command>, events: seq<Event>, i: nat, h: Id)
    requires Disjoint(l, rs) && |picks| == |rs| && PassSoFar(l, cfg, rs, picks, commands) && AllDone(commands, events)
    requires i < |rs| && Eligible(l.hosts, rs[i].0, h)
    ensures Touches(events, cfg.providerId, h) ==> h in picks[i].starts + picks[i].stops
    ensures h in picks[i].starts ==> OnlyStarts(events, cfg.providerId, h, StartedInfo(cfg, rs[i].0))
    ensures h in picks[i].stops ==> OnlyStops(events, cfg.providerId, h)
  {
    PickedAt(l, cfg, rs, picks, i);
    forall k | 0 <= k < |events| && On(events[k], cfg.providerId, h)
      ensures h in picks[i].starts + picks[i].stops
      ensures h in picks[i].starts ==> Starts(events[k], StartedInfo(cfg, rs[i].0))
      ensures h in picks[i].stops ==> events[k].ProviderStopped?
    {
      var j := EventHasPick(l, cfg, rs, picks, commands, events, k);
      assert j == i;
      if h in picks[i].starts + picks[i].stops { PicksAreEligible(l, cfg, rs[i], picks[i], h); }
    }
  }

  lemma PickedIsTouched(cfg: ProviderConfig, rs: seq<Requirement>, picks: seq<Pick>,
                        commands: seq<Command>, events: seq<Event>, i: nat, h: Id)
    requires |picks| == |rs| && Lists(cfg, rs, picks, commands) && AllDone(commands, events)
    requires i < |rs| && h in picks[i].starts + picks[i].stops
    ensures Touches(events, cfg.providerId, h)
  {
    var c := if h in picks[i].starts then Start(cfg, rs[i].0, h) else Stop(cfg, rs[i].0, h);
    assert CommandFor(cfg, rs, picks, i, h, c);
    assert c in commands;
    var k :| 0 <= k < |commands| && commands[k] == c;
    assert Done(commands[k], events[k]) && On(events[k], cfg.providerId, h);
  }

  lemma IneligibleUntouched(l: Lattice, cfg: ProviderConfig, rs: seq<Requirement>, picks: seq<Pick>,
                            commands: seq<Command>, events: seq<Event>, h: Id)
    requires |picks| == |rs| && PassSoFar(l, cfg, rs, picks, commands) && AllDone(commands, events)
    requires forall i :: 0 <= i < |rs| ==> !Eligible(l.hosts, rs[i].0, h)
    ensures !Touches(events, cfg.providerId, h)
  {
    forall k | 0 <= k < |events| ensures !On(events[k], cfg.providerId, h) {
      var _ := EventHasPick(l, cfg, rs, picks, commands, events, k);
    }
  }

  lemma HostAfterRound(l: Lattice, cfg: ProviderConfig, rs: seq<Requirement>, picks: seq<Pick>,
                       commands: seq<Command>, events: seq<Event>, i: nat, h: Id)
    requires HostsKeyed(l) && Disjoint(l, rs) && AllFor(cfg.providerId, events)
    requires |picks| == |rs| && PassSoFar(l, cfg, rs, picks, commands) && AllDone(commands, events)
    requires i < |rs| && Eligible(l.hosts, rs[i].0, h)
    ensures InfoFollows(l, Play(l, events), cfg, rs[i], Landed(l, cfg, picks[i]), h)
  {
    EventsFollowPick(l, cfg, rs, picks, commands, events, i, h);
    PlayInfo(l, cfg.providerId, events, h, StartedInfo(cfg, rs[i].0));
    PickedAt(l, cfg, rs, picks, i);
    if h in picks[i].starts + picks[i].stops {
      PicksAreEligible(l, cfg, rs[i], picks[i], h);
      PickedIsTouched(cfg, rs, picks, commands, events, i, h);
    }
  }

  /** The set with what a pick starts added, or with what it stops removed. */
  function Moves(s: set<Id>, pick: Pick): set<Id> {
    if pick.stops == {} then s + pick.starts else s - pick.stops
  }

  /** Where the provider runs after the round, spread by spread. */
  ghost predicate Moved(l: Lattice, l': Lattice, cfg: ProviderConfig, r: Requirement, pick: Pick) {
    && EligibleHosts(l'.hosts, r.0) == EligibleHosts(l.hosts, r.0)
    && Occupied(l', cfg, r.0) == Moves(Occupied(l, cfg, r.0), pick)
    && Mine(l', cfg, r.0) == Moves(Mine(l, cfg, r.0), pick)
  }

  lemma RoundMoves(l: Lattice, cfg: ProviderConfig, rs: seq<Requirement>, picks: seq<Pick>,
                   commands: seq<Command>, events: seq<Event>, i: nat)
    requires HostsKeyed(l) && Disjoint(l, rs) && AllFor(cfg.providerId, events)
    requires |picks| == |rs| && PassSoFar(l, cfg, rs, picks, commands) && AllDone(commands, events)
    requires i < |rs|
    ensures Within(l, cfg, rs[i], Landed(l, cfg, picks[i]))
    ensures Moved(l, Play(l, events), cfg, rs[i], Landed(l, cfg, picks[i]))
  {
    PlayFrame(l, cfg.providerId, events);
    PickedAt(l, cfg, rs, picks, i);
    PicksAreWithin(l, cfg, rs[i], picks[i]);
    var landed := Landed(l, cfg, picks[i]);
    forall h | Eligible(l.hosts, rs[i].0, h) {
      HostAfterRound(l, cfg, rs, picks, commands, events, i, h);
    }
    OccupiedMoves(l, Play(l, events), cfg, rs[i], landed);
    MineMoves(l, Play(l, events), cfg, rs[i], landed);
    SameEligible(l, Play(l, events), rs[i].0);
  }

  /** What the round makes of the record of an eligible host. */
  ghost predicate InfoFollows(l: Lattice, l': Lattice, cfg: ProviderConfig, r: Requirement, pick: Pick, h: Id) {
    Info(l', cfg.providerId, h) ==
      (if h in pick.starts then Some(StartedInfo(cfg, r.0))
       else if h in pick.stops then None
       else Info(l, cfg.providerId, h))
  }

  lemma InfoMovesAt(l: Lattice, l': Lattice, cfg: ProviderConfig, r: Requirement, pick: Pick, h: Id)
    requires Within(l, cfg, r, pick) && InfoFollows(l, l', cfg, r, pick, h)
    ensures RunsOn(l', cfg, h) <==> (RunsOn(l, cfg, h) || h in pick.starts) && h !in pick.stops
    ensures OwnedFor(l', cfg, r.0, h) <==> (OwnedFor(l, cfg, r.0, h) || h in pick.starts) && h !in pick.stops
  {
    ManagedCarries(r.0.name, r.0.name, cfg.id, cfg.modelName);
    if h in pick.starts + pick.stops { WithinAt(l, cfg, r, pick, h); }
  }

  lemma SameEligible(l: Lattice, l': Lattice, spread: Spread)
    requires SameLabels(l, l')
    ensures EligibleHosts(l'.hosts, spread) == EligibleHosts(l.hosts, spread)
  {
    assert forall h :: Eligible(l'.hosts, spread, h) <==> Eligible(l.hosts, spread, h);
  }

  lemma OccupiedMoves(l: Lattice, l': Lattice, cfg: ProviderConfig, r: Requirement, pick: Pick)
    requires SameLabels(l, l') && Within(l, cfg, r, pick)
    requires forall h :: Eligible(l.hosts, r.0, h) ==> InfoFollows(l, l', cfg, r, pick, h)
    ensures Occupied(l', cfg, r.0) == Moves(Occupied(l, cfg, r.0), pick)
  {
    forall h ensures h in Occupied(l', cfg, r.0) <==> h in Moves(Occupied(l, cfg, r.0), pick) {
      if h in pick.starts + pick.stops { WithinAt(l, cfg, r, pick, h); }
      if Eligible(l.hosts, r.0, h) { InfoMovesAt(l, l', cfg, r, pick, h); }
    }
  }

  lemma MineMoves(l: Lattice, l': Lattice, cfg: ProviderConfig, r: Requirement, pick: Pick)
    requires SameLabels(l, l') && Within(l, cfg, r, pick)
    requires forall h :: Eligible(l.hosts, r.0, h) ==> InfoFollows(l, l', cfg, r, pick, h)
    ensures Mine(l', cfg, r.0) == Moves(Mine(l, cfg, r.0), pick)
  {
    forall h ensures h in Mine(l', cfg, r.0) <==> h in Moves(Mine(l, cfg, r.0), pick) {
      if h in pick.starts + pick.stops { WithinAt(l, cfg, r, pick, h); }
      if Eligible(l.hosts, r.0, h) { InfoMovesAt(l, l', cfg, r, pick, h); }
    }
  }

  // ---------- the counts ----------

  /** The numbers that a pass compares: running, running for this spread, running for others, free. */
  datatype Counts = Counts(running: int, mine: int, theirs: int, free: int) {
    /** After n more start for the spread; a negative n stops some. */
    function Shift(n: int): Counts {
      Counts(running + n, mine + n, theirs, free - n)
    }
  }

  ghost function SetCounts(eligible: set<Id>, occupied: set<Id>, mine: set<Id>): Counts {
    Counts(|occupied|, |mine|, |occupied - mine|, |eligible - occupied|)
  }

  ghost function CountsOf(l: Lattice, cfg: ProviderConfig, spread: Spread): Counts {
    SetCounts(EligibleHosts(l.hosts, spread), Occupied(l, cfg, spread), Mine(l, cfg, spread))
  }

  function MinusInt(a: int, b: int): int {
    if a <= b then 0 else a - b
  }

  function MinInt(a: int, b: int): int {
    if a <= b then a else b
  }

  function Starting(c: Counts, count: nat): int {
    if c.running < count then MinInt(MinusInt(MinusInt(count, c.running), c.theirs), c.free) else 0
  }

  function Stopping(c: Counts, count: nat): int {
    if c.running > count then MinInt(c.running - count, c.mine) else 0
  }

  function NextCounts(c: Counts, count: nat): Counts {
    c.Shift(Starting(c, count) - Stopping(c, count))
  }

  /** Every running provider was started for this spread or for others. */
  predicate Adds(c: Counts) {
    c.running == c.mine + c.theirs && c.mine >= 0 && c.theirs >= 0 && c.free >= 0
  }

  lemma CountsAdd(l: Lattice, cfg: ProviderConfig, spread: Spread)
    ensures Adds(CountsOf(l, cfg, spread))
  {
    SubsetSizes(Mine(l, cfg, spread), Occupied(l, cfg, spread));
  }

  lemma PickSizes(l: Lattice, cfg: ProviderConfig, r: Requirement, pick: Pick)
    requires Picks(l, cfg, r, pick)
    ensures |pick.starts| == Starting(CountsOf(l, cfg, r.0), r.1) && |pick.stops| == Stopping(CountsOf(l, cfg, r.0), r.1)
    ensures pick.starts <= Free(l, cfg, r.0) && pick.stops <= Mine(l, cfg, r.0)
    ensures pick.starts == {} || pick.stops == {}
  {
  }

  lemma SubsetSizes(a: set<Id>, b: set<Id>)
    requires a <= b
    ensures |b - a| == |b| - |a|
  {
    assert b == a + (b - a);
  }

  lemma GrowCounts(eligible: set<Id>, occupied: set<Id>, mine: set<Id>, starts: set<Id>)
    requires mine <= occupied <= eligible && starts <= eligible - occupied
    ensures SetCounts(eligible, occupied + starts, mine + starts) == SetCounts(eligible, occupied, mine).Shift(|starts|)
  {
    SubsetSizes(starts, eligible - occupied);
    assert eligible - (occupied + starts) == eligible - occupied - starts;
    assert (occupied + starts) - (mine + starts) == occupied - mine;
  }

  lemma ShrinkCounts(eligible: set<Id>, occupied: set<Id>, mine: set<Id>, stops: set<Id>)
    requires mine <= occupied <= eligible && stops <= mine
    ensures SetCounts(eligible, occupied - stops, mine - stops) == SetCounts(eligible, occupied, mine).Shift(-|stops|)
  {
    SubsetSizes(stops, occupied);
    SubsetSizes(stops, mine);
    assert eligible - (occupied - stops) == (eligible - occupied) + stops;
    assert (occupied - stops) - (mine - stops) == occupied - mine;
  }

  lemma MoveCounts(eligible: set<Id>, occupied: set<Id>, mine: set<Id>, pick: Pick)
    requires mine <= occupied <= eligible && pick.starts <= eligible - occupied && pick.stops <= mine
    requires pick.starts == {} || pick.stops == {}
    ensures SetCounts(eligible, Moves(occupied, pick), Moves(mine, pick))
            == SetCounts(eligible, occupied, mine).Shift(|pick.starts| - |pick.stops|)
  {
    if pick.stops == {} {
      GrowCounts(eligible, occupied, mine, pick.starts);
    } else {
      ShrinkCounts(eligible, occupied, mine, pick.stops);
    }
  }

  lemma MineWithinOccupied(l: Lattice, cfg: ProviderConfig, spread: Spread)
    ensures Mine(l, cfg, spread) <= Occupied(l, cfg, spread) <= EligibleHosts(l.hosts, spread)
  {
  }

  /** The counts of a spread after its round. */
  ghost function RestingCounts(l: Lattice, cfg: ProviderConfig, r: Requirement): Counts {
    NextCounts(CountsOf(l, cfg, r.0), r.1)
  }

  lemma MovedShifts(l: Lattice, l': Lattice, cfg: ProviderConfig, r: Requirement, pick: Pick)
    requires Moved(l, l', cfg, r, pick)
    requires pick.starts <= EligibleHosts(l.hosts, r.0) - Occupied(l, cfg, r.0) && pick.stops <= Mine(l, cfg, r.0)
    requires pick.starts == {} || pick.stops == {}
    ensures CountsOf(l', cfg, r.0) == CountsOf(l, cfg, r.0).Shift(|pick.starts| - |pick.stops|)
  {
    MineWithinOccupied(l, cfg, r.0);
    MoveCounts(EligibleHosts(l.hosts, r.0), Occupied(l, cfg, r.0), Mine(l, cfg, r.0), pick);
  }

  lemma LandedCounts(l: Lattice, l': Lattice, cfg: ProviderConfig, r: Requirement, pick: Pick)
    requires Within(l, cfg, r, pick) && Moved(l, l', cfg, r, pick)
    ensures CountsOf(l', cfg, r.0) == CountsOf(l, cfg, r.0).Shift(|pick.starts| - |pick.stops|)
  {
    MovedShifts(l, l', cfg, r, pick);
  }

  /** When a starts of the pass land, a second pass has the others left to start and none to stop, and
      would come to the same counts. */
  lemma CountsLeft(c: Counts, count: nat, a: int)
    requires Adds(c) && 0 <= a <= Starting(c, count)
    ensures var c' := c.Shift(a - Stopping(c, count));
            && Starting(c', count) == Starting(c, count) - a && Stopping(c', count) == 0
            && NextCounts(c', count) == NextCounts(c, count)
  {
  }

  lemma {:induction false} SubsetOfSize(s: set<Id>, n: nat) returns (t: set<Id>)
    requires n <= |s|
    ensures t <= s && |t| == n
  {
    t := {};
    if n > 0 {
      var x :| x in s;
      var rest := SubsetOfSize(s - {x}, n - 1);
      t := rest + {x};
    }
  }

  lemma SomePick(l: Lattice, cfg: ProviderConfig, r: Requirement) returns (pick: Pick)
    ensures Picks(l, cfg, r, pick)
  {
    pick := Pick({}, {});
    var running, mine := |Occupied(l, cfg, r.0)|, Mine(l, cfg, r.0);
    if running > r.1 && mine != {} {
      var stops := SubsetOfSize(mine, Min(running - r.1, |mine|));
      pick := Pick({}, stops);
    } else if running < r.1 {
      var starts := SubsetOfSize(Free(l, cfg, r.0), Min(NumToStart(l, cfg, r), |Free(l, cfg, r.0)|));
      pick := Pick(starts, {});
    }
  }

  ghost predicate NoMoves(l: Lattice, cfg: ProviderConfig, r: Requirement) {
    Starting(CountsOf(l, cfg, r.0), r.1) == 0 && Stopping(CountsOf(l, cfg, r.0), r.1) == 0
  }

  lemma NoMovesIff(l: Lattice, cfg: ProviderConfig, r: Requirement)
    ensures NoMoves(l, cfg, r) <==> forall pick :: Picks(l, cfg, r, pick) ==> pick == Pick({}, {})
  {
    var some := SomePick(l, cfg, r);
    PickSizes(l, cfg, r, some);
    if NoMoves(l, cfg, r) {
      forall pick | Picks(l, cfg, r, pick) ensures pick == Pick({}, {}) { PickSizes(l, cfg, r, pick); }
    }
  }

  /** Being settled is a matter of numbers. */
  lemma SettledIff(l: Lattice, cfg: ProviderConfig, rs: seq<Requirement>)
    ensures Settled(l, cfg, rs) <==> Misplaced(l, cfg, rs) == {} && forall i :: 0 <= i < |rs| ==> NoMoves(l, cfg, rs[i])
  {
    forall i | 0 <= i < |rs| { NoMovesIff(l, cfg, rs[i]); }
  }

  // ---------- rounds ----------

  lemma StillIneligible(l: Lattice, l': Lattice, rs: seq<Requirement>, h: Id)
    requires SameLabels(l, l') && h in IneligibleHosts(l'.hosts, SpreadsOf(rs))
    ensures h in IneligibleHosts(l.hosts, SpreadsOf(rs))
    ensures forall i :: 0 <= i < |rs| ==> !Eligible(l.hosts, rs[i].0, h)
  {
    forall i | 0 <= i < |rs| ensures !Eligible(l.hosts, rs[i].0, h) {
      assert SpreadsOf(rs)[i] == rs[i].0;
    }
  }

  lemma NoneMisplaced(l: Lattice, l': Lattice, cfg: ProviderConfig, rs: seq<Requirement>)
    requires SameLabels(l, l')
    requires forall h :: h in IneligibleHosts(l.hosts, SpreadsOf(rs)) && Info(l', cfg.providerId, h) != Info(l, cfg.providerId, h)
               ==> Info(l', cfg.providerId, h).None?
    requires forall h :: h in Misplaced(l, cfg, rs) ==> Info(l', cfg.providerId, h).None?
    ensures Misplaced(l', cfg, rs) == {}
  {
    forall h | h in Misplaced(l', cfg, rs) ensures h in Misplaced(l, cfg, rs) {
      StillIneligible(l, l', rs, h);
    }
  }

  lemma RoundLeavesNoneMisplaced(l: Lattice, cfg: ProviderConfig, rs: seq<Requirement>, commands: seq<Command>, events: seq<Event>)
    requires HostsKeyed(l) && Misplaced(l, cfg, rs) == {}
    requires Reconciles(l, cfg, rs, commands) && AllDone(commands, events)
    ensures Misplaced(Play(l, events), cfg, rs) == {}
  {
    ReconcileTargetsProvider(l, cfg, rs, commands, events);
    PlayFrame(l, cfg.providerId, events);
    var picks :| |picks| == |rs| && PassSoFar(l, cfg, rs, picks, commands);
    forall h | h in IneligibleHosts(l.hosts, SpreadsOf(rs))
      ensures Info(Play(l, events), cfg.providerId, h) == Info(l, cfg.providerId, h)
    {
      StillIneligible(l, l, rs, h);
      IneligibleUntouched(l, cfg, rs, picks, commands, events, h);
      PlayInfo(l, cfg.providerId, events, h, ProviderInfo("", map[]));
    }
    NoneMisplaced(l, Play(l, events), cfg, rs);
  }

  /** No start of the pass goes to a host that the provider's record lists without being listed back. */
  ghost predicate NoStaleStart(l: Lattice, p: Id, commands: seq<Command>) {
    forall c :: c in commands && c.StartProvider? ==> !Stale(l, p, c.hostId)
  }

  lemma NoStaleStartIff(l: Lattice, cfg: ProviderConfig, rs: seq<Requirement>, picks: seq<Pick>, commands: seq<Command>)
    requires |picks| == |rs| && Lists(cfg, rs, picks, commands)
    ensures NoStaleStart(l, cfg.providerId, commands) <==>
            forall i :: 0 <= i < |rs| ==> picks[i].starts !! StaleHosts(l, cfg.providerId)
  {
    if NoStaleStart(l, cfg.providerId, commands) {
      forall i, h | 0 <= i < |rs| && h in picks[i].starts ensures !Stale(l, cfg.providerId, h) {
        assert CommandFor(cfg, rs, picks, i, h, Start(cfg, rs[i].0, h));
      }
    } else {
      var c :| c in commands && c.StartProvider? && Stale(l, cfg.providerId, c.hostId);
      var i: nat, h :| CommandFor(cfg, rs, picks, i, h, c);
      assert h in picks[i].starts && h in StaleHosts(l, cfg.providerId);
    }
  }

  lemma LandedStarts(l: Lattice, cfg: ProviderConfig, pick: Pick)
    ensures |Landed(l, cfg, pick).starts| <= |pick.starts|
    ensures |Landed(l, cfg, pick).starts| == |pick.starts| <==> pick.starts !! StaleHosts(l, cfg.providerId)
  {
    var lost := pick.starts * StaleHosts(l, cfg.providerId);
    SubsetSizes(lost, pick.starts);
    assert Landed(l, cfg, pick).starts == pick.starts - lost;
  }

  /** What follows from the numbers: k starts, of which a land, and n stops. */
  lemma NumbersSettle(c: Counts, c': Counts, count: nat, k: int, a: int, n: int)
    requires Adds(c) && c' == c.Shift(a - n) && k == Starting(c, count) && n == Stopping(c, count) && 0 <= a <= k
    ensures Starting(c', count) == 0 && Stopping(c', count) == 0 <==> a == k
    ensures NextCounts(c', count) == NextCounts(c, count)
    ensures if c.running <= count then c.running <= c'.running <= count else count <= c'.running <= c.running
  {
    CountsLeft(c, count, a);
  }

  ghost predicate RoundNumbers(l: Lattice, l': Lattice, cfg: ProviderConfig, r: Requirement, k: int, a: int, n: int) {
    && CountsOf(l', cfg, r.0) == CountsOf(l, cfg, r.0).Shift(a - n)
    && k == Starting(CountsOf(l, cfg, r.0), r.1) && n == Stopping(CountsOf(l, cfg, r.0), r.1) && 0 <= a <= k
  }

  lemma SpreadSettles(l: Lattice, l': Lattice, cfg: ProviderConfig, r: Requirement, k: int, a: int, n: int)
    requires RoundNumbers(l, l', cfg, r, k, a, n)
    ensures NoMoves(l', cfg, r) <==> a == k
    ensures RestingCounts(l', cfg, r) == RestingCounts(l, cfg, r)
    ensures Between(l, l', cfg, r)
  {
    CountsAdd(l, cfg, r.0);
    NumbersSettle(CountsOf(l, cfg, r.0), CountsOf(l', cfg, r.0), r.1, k, a, n);
  }

  /** The number that run has moved towards the count, or stayed, and has not passed it. */
  ghost predicate Between(l: Lattice, l': Lattice, cfg: ProviderConfig, r: Requirement) {
    var before, after := |Occupied(l, cfg, r.0)|, |Occupied(l', cfg, r.0)|;
    if before <= r.1 then before <= after <= r.1 else r.1 <= after <= before
  }

  lemma SpreadRound(l: Lattice, l': Lattice, cfg: ProviderConfig, r: Requirement, pick: Pick)
    requires Picks(l, cfg, r, pick) && Within(l, cfg, r, Landed(l, cfg, pick)) && Moved(l, l', cfg, r, Landed(l, cfg, pick))
    ensures NoMoves(l', cfg, r) <==> pick.starts !! StaleHosts(l, cfg.providerId)
    ensures RestingCounts(l', cfg, r) == RestingCounts(l, cfg, r)
    ensures Between(l, l', cfg, r)
    ensures RoundNumbers(l, l', cfg, r, |pick.starts|, |Landed(l, cfg, pick).starts|, |pick.stops|)
  {
    var k, a, n := |pick.starts|, |Landed(l, cfg, pick).starts|, |pick.stops|;
    LandedStarts(l, cfg, pick);
    assert RoundNumbers(l, l', cfg, r, k, a, n) by {
      PickSizes(l, cfg, r, pick);
      LandedCounts(l, l', cfg, r, Landed(l, cfg, pick));
    }
    SpreadSettles(l, l', cfg, r, k, a, n);
  }

  /** With nothing misplaced, a round settles exactly when none of its starts goes to a stale host. */
  lemma OneRoundSettlesIff(l: Lattice, cfg: ProviderConfig, rs: seq<Requirement>, commands: seq<Command>, events: seq<Event>)
    requires HostsKeyed(l) && Disjoint(l, rs) && Misplaced(l, cfg, rs) == {}
    requires Reconciles(l, cfg, rs, commands) && AllDone(commands, events)
    ensures Settled(Play(l, events), cfg, rs) <==> NoStaleStart(l, cfg.providerId, commands)
    ensures forall i :: 0 <= i < |rs| ==>
              && RestingCounts(Play(l, events), cfg, rs[i]) == RestingCounts(l, cfg, rs[i])
              && Between(l, Play(l, events), cfg, rs[i])
  {
    var l' := Play(l, events);
    ReconcileTargetsProvider(l, cfg, rs, commands, events);
    RoundLeavesNoneMisplaced(l, cfg, rs, commands, events);
    var picks: seq<Pick> :| |picks| == |rs| && PassSoFar(l, cfg, rs, picks, commands);
    forall i | 0 <= i < |rs|
      ensures NoMoves(l', cfg, rs[i]) <==> picks[i].starts !! StaleHosts(l, cfg.providerId)
      ensures RestingCounts(l', cfg, rs[i]) == RestingCounts(l, cfg, rs[i]) && Between(l, l', cfg, rs[i])
    {
      RoundMoves(l, cfg, rs, picks, commands, events, i);
      PickedAt(l, cfg, rs, picks, i);
      SpreadRound(l, l', cfg, rs[i], picks[i]);
    }
    SettledIff(l', cfg, rs);
    NoStaleStartIff(l, cfg, rs, picks, commands);
  }

  /** Clearing misplaced providers changes no spread's sets. */
  lemma SameSets(l: Lattice, l1: Lattice, cfg: ProviderConfig, rs: seq<Requirement>, i: nat)
    requires SameLabels(l, l1) && i < |rs|
    requires forall h :: Info(l1, cfg.providerId, h) ==
                         (if h in Misplaced(l, cfg, rs) then None else Info(l, cfg.providerId, h))
    ensures EligibleHosts(l1.hosts, rs[i].0) == EligibleHosts(l.hosts, rs[i].0)
    ensures Occupied(l1, cfg, rs[i].0) == Occupied(l, cfg, rs[i].0)
    ensures Mine(l1, cfg, rs[i].0) == Mine(l, cfg, rs[i].0)
  {
    assert SpreadsOf(rs)[i] == rs[i].0;
    SameEligible(l, l1, rs[i].0);
    forall h | h in EligibleHosts(l.hosts, rs[i].0)
      ensures Info(l1, cfg.providerId, h) == Info(l, cfg.providerId, h)
    {}
  }

  lemma SameCounts(l: Lattice, l1: Lattice, cfg: ProviderConfig, r: Requirement)
    requires EligibleHosts(l1.hosts, r.0) == EligibleHosts(l.hosts, r.0)
    requires Occupied(l1, cfg, r.0) == Occupied(l, cfg, r.0) && Mine(l1, cfg, r.0) == Mine(l, cfg, r.0)
    ensures RestingCounts(l1, cfg, r) == RestingCounts(l, cfg, r) && Between(l, l1, cfg, r)
  {}

  lemma DisjointAgain(l: Lattice, l1: Lattice, rs: seq<Requirement>)
    requires SameLabels(l, l1) && Disjoint(l, rs)
    ensures Disjoint(l1, rs)
  {
    forall i, h | 0 <= i < |rs| ensures Eligible(l1.hosts, rs[i].0, h) == Eligible(l.hosts, rs[i].0, h) {}
  }

  /** Every applied round leaves nothing misplaced, never passes a count in either direction, and does not
      change the counts at which the spreads would come to rest. */
  lemma EveryRound(l: Lattice, cfg: ProviderConfig, rs: seq<Requirement>, commands: seq<Command>, events: seq<Event>)
    requires HostsKeyed(l) && Disjoint(l, rs)
    requires Reconciles(l, cfg, rs, commands) && AllDone(commands, events)
    ensures var l' := Play(l, events);
            && HostsKeyed(l') && Disjoint(l', rs) && Misplaced(l', cfg, rs) == {}
            && forall i :: 0 <= i < |rs| ==>
                 RestingCounts(l', cfg, rs[i]) == RestingCounts(l, cfg, rs[i]) && Between(l, l', cfg, rs[i])
  {
    var l' := Play(l, events);
    ReconcileTargetsProvider(l, cfg, rs, commands, events);
    PlayFrame(l, cfg.providerId, events);
    DisjointAgain(l, l', rs);
    if Misplaced(l, cfg, rs) != {} {
      forall h { ClearingRound(l, cfg, rs, commands, events, h); }
      NoneMisplaced(l, l', cfg, rs);
      forall i | 0 <= i < |rs|
        ensures RestingCounts(l', cfg, rs[i]) == RestingCounts(l, cfg, rs[i]) && Between(l, l', cfg, rs[i])
      {
        SameSets(l, l', cfg, rs, i);
        SameCounts(l, l', cfg, rs[i]);
      }
    } else {
      RoundLeavesNoneMisplaced(l, cfg, rs, commands, events);
      OneRoundSettlesIff(l, cfg, rs, commands, events);
    }
  }

  lemma SettledCounts(l: Lattice, cfg: ProviderConfig, rs: seq<Requirement>, i: nat)
    requires Settled(l, cfg, rs) && i < |rs|
    ensures CountsOf(l, cfg, rs[i].0) == RestingCounts(l, cfg, rs[i])
  {
    SettledIff(l, cfg, rs);
    assert NoMoves(l, cfg, rs[i]);
    NothingNext(CountsOf(l, cfg, rs[i].0), rs[i].1);
  }

  lemma NothingNext(c: Counts, count: nat)
    requires Starting(c, count) == 0 && Stopping(c, count) == 0
    ensures NextCounts(c, count) == c
  {}

  /** Two applied rounds, from any keyed store and whatever hosts are picked, end in a store where reconcile
      returns nothing exactly when the second starts on no stale host; each spread's counts are then what
      one starting or stopping round makes of them. */
  lemma TwoRoundsSettleIff(l: Lattice, cfg: ProviderConfig, rs: seq<Requirement>, commands1: seq<Command>, events1: seq<Event>,
                           commands2: seq<Command>, events2: seq<Event>)
    requires HostsKeyed(l) && Disjoint(l, rs)
    requires Reconciles(l, cfg, rs, commands1) && AllDone(commands1, events1)
    requires Reconciles(Play(l, events1), cfg, rs, commands2) && AllDone(commands2, events2)
    ensures var l1, l2 := Play(l, events1), Play(Play(l, events1), events2);
            && (Settled(l2, cfg, rs) <==> NoStaleStart(l1, cfg.providerId, commands2))
            && (Settled(l2, cfg, rs) ==>
                  forall i :: 0 <= i < |rs| ==> CountsOf(l2, cfg, rs[i].0) == RestingCounts(l, cfg, rs[i]))
  {
    var l1 := Play(l, events1);
    EveryRound(l, cfg, rs, commands1, events1);
    OneRoundSettlesIff(l1, cfg, rs, commands2, events2);
    if Settled(Play(l1, events2), cfg, rs) {
      forall i | 0 <= i < |rs| { SettledCounts(Play(l1, events2), cfg, rs, i); }
    }
  }

  ghost predicate NoneStale(l: Lattice, p: Id) {
    forall h :: !Stale(l, p, h)
  }

  lemma NoneStaleAgain(l: Lattice, cfg: ProviderConfig, rs: seq<Requirement>, commands: seq<Command>, events: seq<Event>)
    requires HostsKeyed(l) && NoneStale(l, cfg.providerId)
    requires Reconciles(l, cfg, rs, commands) && AllDone(commands, events)
    ensures NoneStale(Play(l, events), cfg.providerId)
  {
    ReconcileTargetsProvider(l, cfg, rs, commands, events);
    NeverStale(l, cfg.providerId, events);
  }

  lemma {:induction false} NeverStale(l: Lattice, p: Id, events: seq<Event>)
    requires HostsKeyed(l) && NoneStale(l, p) && AllFor(p, events)
    ensures NoneStale(Play(l, events), p)
  {
    if events != [] {
      var front, last := events[..|events| - 1], events[|events| - 1];
      assert ForProvider(p, last);
      PlayFrame(l, p, front);
      NeverStale(l, p, front);
      forall h ensures !Stale(Play(l, events), p, h) {
        if last.ProviderStopped? {
          StoppedOne(Play(l, front), p, last, h);
        } else {
          StartedOne(Play(l, front), p, last, h, ProviderInfo("", map[]));
        }
      }
    }
  }

  /** So two rounds always settle where every host that the provider lists lists it back. */
  lemma TwoRoundsSettle(l: Lattice, cfg: ProviderConfig, rs: seq<Requirement>, commands1: seq<Command>, events1: seq<Event>,
                        commands2: seq<Command>, events2: seq<Event>)
    requires HostsKeyed(l) && Disjoint(l, rs) && NoneStale(l, cfg.providerId)
    requires Reconciles(l, cfg, rs, commands1) && AllDone(commands1, events1)
    requires Reconciles(Play(l, events1), cfg, rs, commands2) && AllDone(commands2, events2)
    ensures Settled(Play(Play(l, events1), events2), cfg, rs)
  {
    NoneStaleAgain(l, cfg, rs, commands1, events1);
    TwoRoundsSettleIff(l, cfg, rs, commands1, events1, commands2, events2);
  }

  /** Where a spread has come to rest after two rounds, it has its count exactly when it had it before, or
      there were enough of the scaler's own providers to stop, or enough free hosts to start on and no
      provider that others run. */
  lemma ReachesCountIff(l: Lattice, cfg: ProviderConfig, rs: seq<Requirement>, commands1: seq<Command>, events1: seq<Event>,
                        commands2: seq<Command>, events2: seq<Event>, i: nat)
    requires HostsKeyed(l) && Disjoint(l, rs) && i < |rs|
    requires Reconciles(l, cfg, rs, commands1) && AllDone(commands1, events1)
    requires Reconciles(Play(l, events1), cfg, rs, commands2) && AllDone(commands2, events2)
    requires Settled(Play(Play(l, events1), events2), cfg, rs)
    ensures var (spread, count) := rs[i];
            var running := |Occupied(l, cfg, spread)|;
            |Occupied(Play(Play(l, events1), events2), cfg, spread)| == count <==>
            || running == count
            || (running > count && |Mine(l, cfg, spread)| >= running - count)
            || (running < count && |Free(l, cfg, spread)| >= count - running && Theirs(l, cfg, spread) == {})
  {
    TwoRoundsSettleIff(l, cfg, rs, commands1, events1, commands2, events2);
    CountsAdd(l, cfg, rs[i].0);
    CountsReach(CountsOf(l, cfg, rs[i].0), rs[i].1);
  }

  lemma CountsReach(c: Counts, count: nat)
    requires Adds(c)
    ensures NextCounts(c, count).running == count <==>
            || c.running == count
            || (c.running > count && c.mine >= c.running - count)
            || (c.running < count && c.free >= count - c.running && c.theirs == 0)
  {
  }

  // ---------- resting below the count ----------

  /** A settled scaler reports no failure for a spread below its count exactly when the providers that
      others run, counted once more, make up the difference. */
  lemma RestsBelowIff(l: Lattice, cfg: ProviderConfig, rs: seq<Requirement>, i: nat)
    requires Settled(l, cfg, rs) && i < |rs| && |Occupied(l, cfg, rs[i].0)| < rs[i].1
    ensures !Short(l, cfg, rs[i]) <==> |Occupied(l, cfg, rs[i].0)| + |Theirs(l, cfg, rs[i].0)| >= rs[i].1
  {
    SettledIff(l, cfg, rs);
  }

  /** One provider run by others, two wanted, a free host: the pass returns nothing and reports success. */
  lemma OthersMakeUp(l: Lattice, cfg: ProviderConfig, spread: Spread, h: Id, i: Id)
    requires h != i && l.hosts.Keys == {h, i} && spread.requirements == map[]
    requires Info(l, cfg.providerId, h) == Some(ProviderInfo("", map[])) && Info(l, cfg.providerId, i) == None
    ensures var rs := [(spread, 2)];
      && Occupied(l, cfg, spread) == {h} && Free(l, cfg, spread) == {i}
      && Settled(l, cfg, rs) && PassStatus(l, cfg, rs, []) == Deployed
  {
    var rs := [(spread, 2)];
    assert EligibleHosts(l.hosts, spread) == {h, i};
    assert Occupied(l, cfg, spread) == {h};
    assert SCALER_KEY in SpreadAnnotations(spread.name, cfg.id);
    assert Mine(l, cfg, spread) == {};
    assert Theirs(l, cfg, spread) == {h};
    assert Free(l, cfg, spread) == {i};
    assert Misplaced(l, cfg, rs) == {} by { assert SpreadsOf(rs)[0] == spread; }
    SettledIff(l, cfg, rs);
    assert !AnyShort(l, cfg, rs, 0);
  }

  /** As after two hosts start, a provider starts on one of them, and the reaper runs. */
  lemma RestsBelowItsCount(cfg: ProviderConfig, spread: Spread, h: Id, i: Id) returns (actions: seq<Action>)
    requires h != i && spread.requirements == map[]
    ensures var l, rs := Run(NOTHING, actions), [(spread, 2)];
      && Consistent(l) && Reaped(l)
      && |Occupied(l, cfg, spread)| == 1 && Free(l, cfg, spread) != {} && PassStatus(l, cfg, rs, []) == Deployed
      && Settled(l, cfg, rs) && forall commands :: Reconciles(l, cfg, rs, commands) ==> commands == []
  {
    actions := OneOfTwoRuns(h, i, cfg.providerId);
    var l, rs := Run(NOTHING, actions), [(spread, 2)];
    OthersMakeUp(l, cfg, spread, h, i);
    forall commands | Reconciles(l, cfg, rs, commands) ensures commands == [] {
      SettledReturnsNothing(l, cfg, rs, commands);
    }
  }

  /** A pass stops only what this scaler started. */
  lemma StopsOnlyOwned(l: Lattice, cfg: ProviderConfig, rs: seq<Requirement>, commands: seq<Command>, c: Command)
    requires Reconciles(l, cfg, rs, commands) && c in commands && c.StopProvider?
    ensures Owned(l, cfg, c.hostId)
  {
    if Misplaced(l, cfg, rs) == {} {
      var picks :| |picks| == |rs| && PassSoFar(l, cfg, rs, picks, commands);
      var i: nat, h :| CommandFor(cfg, rs, picks, i, h, c);
      PickedAt(l, cfg, rs, picks, i);
      PicksAreEligible(l, cfg, rs[i], picks[i], h);
      OwnedForIsOwned(l, cfg, rs[i].0, h);
    }
  }

  lemma OwnedForIsOwned(l: Lattice, cfg: ProviderConfig, spread: Spread, h: Id)
    requires OwnedFor(l, cfg, spread, h)
    ensures Owned(l, cfg, h)
  {
    DistinctKeys();
    assert SpreadAnnotations(spread.name, cfg.id)[SCALER_KEY] == cfg.id;
  }

  // ---------- cleaning up ----------

  lemma NoStartsAtZero(l: Lattice, cfg: ProviderConfig, rs: seq<Requirement>, commands: seq<Command>)
    requires Reconciles(l, cfg, rs, commands) && forall i :: 0 <= i < |rs| ==> rs[i].1 == 0
    ensures forall c :: c in commands ==> c.StopProvider?
  {
    if Misplaced(l, cfg, rs) == {} {
      var picks: seq<Pick> :| |picks| == |rs| && PassSoFar(l, cfg, rs, picks, commands);
      forall c | c in commands ensures c.StopProvider? {
        var i: nat, h :| CommandFor(cfg, rs, picks, i, h, c);
        PickedAt(l, cfg, rs, picks, i);
      }
    }
  }

  lemma NoneMineAtZero(l: Lattice, cfg: ProviderConfig, r: Requirement)
    requires NoMoves(l, cfg, r) && r.1 == 0
    ensures Mine(l, cfg, r.0) == {}
  {
    CountsAdd(l, cfg, r.0);
    NoneLeft(CountsOf(l, cfg, r.0));
  }

  lemma NoneLeft(c: Counts)
    requires Adds(c) && Stopping(c, 0) == 0
    ensures c.mine == 0
  {}

  /** Two applied cleanup rounds, stale hosts or not, end where a cleanup returns nothing and none of the
      scaler's providers is left on a host of its spread or on a host of none. */
  lemma CleanupClears(l: Lattice, cfg: ProviderConfig, spreads: seq<Spread>, rs: seq<Requirement>,
                      commands1: seq<Command>, events1: seq<Event>, commands2: seq<Command>, events2: seq<Event>)
    requires HostsKeyed(l) && Disjoint(l, rs) && IsCleanup(spreads, rs)
    requires Reconciles(l, cfg, rs, commands1) && AllDone(commands1, events1)
    requires Reconciles(Play(l, events1), cfg, rs, commands2) && AllDone(commands2, events2)
    ensures var l2 := Play(Play(l, events1), events2);
            && Settled(l2, cfg, rs) && Misplaced(l2, cfg, rs) == {}
            && forall i :: 0 <= i < |rs| ==> Mine(l2, cfg, rs[i].0) == {}
  {
    var l1 := Play(l, events1);
    var l2 := Play(l1, events2);
    NoStartsAtZero(l1, cfg, rs, commands2);
    TwoRoundsSettleIff(l, cfg, rs, commands1, events1, commands2, events2);
    SettledIff(l2, cfg, rs);
    forall i | 0 <= i < |rs| ensures Mine(l2, cfg, rs[i].0) == {} {
      assert NoMoves(l2, cfg, rs[i]);
      NoneMineAtZero(l2, cfg, rs[i]);
    }
  }
}
