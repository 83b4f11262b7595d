/** Rounds of the provider spread scaler, one after another: which stores let them settle whatever hosts are
    picked, which let them settle at all, and which never do. */
module SpreadRounds {
  import opened LatticeState
  import opened Events
  import opened Commands
  import opened Spreads
  import opened ProviderSpreadScalers
  import opened ProviderConvergence

  // ---------- what a store allows ----------

  ghost function ToStart(l: Lattice, cfg: ProviderConfig, r: Requirement): int {
    Starting(CountsOf(l, cfg, r.0), r.1)
  }

  ghost function StaleFree(l: Lattice, cfg: ProviderConfig, r: Requirement): set<Id> {
    Free(l, cfg, r.0) * StaleHosts(l, cfg.providerId)
  }

  ghost function FitFree(l: Lattice, cfg: ProviderConfig, r: Requirement): set<Id> {
    Free(l, cfg, r.0) - StaleHosts(l, cfg.providerId)
  }

  /** Nothing is to be started for the spread, or none of the free hosts is stale. */
  ghost predicate AnyChoiceLands(l: Lattice, cfg: ProviderConfig, r: Requirement) {
    ToStart(l, cfg, r) == 0 || StaleFree(l, cfg, r) == {}
  }

  /** Enough of the free hosts are not stale. */
  ghost predicate SomeChoiceLands(l: Lattice, cfg: ProviderConfig, r: Requirement) {
    ToStart(l, cfg, r) <= |FitFree(l, cfg, r)|
  }

  /** No start goes to a stale host. */
  ghost predicate Lands(l: Lattice, cfg: ProviderConfig, pick: Pick) {
    pick.starts !! StaleHosts(l, cfg.providerId)
  }

  lemma StartsArePicked(l: Lattice, cfg: ProviderConfig, r: Requirement, starts: set<Id>)
    requires ToStart(l, cfg, r) > 0 && starts <= Free(l, cfg, r.0) && |starts| == ToStart(l, cfg, r)
    ensures Picks(l, cfg, r, Pick(starts, {}))
  {
  }

  lemma SubsetWith(s: set<Id>, n: nat, x: Id) returns (t: set<Id>)
    requires 0 < n <= |s| && x in s
    ensures t <= s && |t| == n && x in t
  {
    var others := SubsetOfSize(s - {x}, n - 1);
    t := others + {x};
  }

  lemma WorstPick(l: Lattice, cfg: ProviderConfig, r: Requirement) returns (pick: Pick)
    requires !AnyChoiceLands(l, cfg, r)
    ensures Picks(l, cfg, r, pick) && !Lands(l, cfg, pick)
  {
    CountsAdd(l, cfg, r.0);
    var h :| h in StaleFree(l, cfg, r);
    var starts := SubsetWith(Free(l, cfg, r.0), ToStart(l, cfg, r), h);
    StartsArePicked(l, cfg, r, starts);
    pick := Pick(starts, {});
  }

  lemma BestPick(l: Lattice, cfg: ProviderConfig, r: Requirement) returns (pick: Pick)
    requires SomeChoiceLands(l, cfg, r)
    ensures Picks(l, cfg, r, pick) && Lands(l, cfg, pick)
  {
    CountsAdd(l, cfg, r.0);
    if ToStart(l, cfg, r) == 0 {
      pick := SomePick(l, cfg, r);
      PickSizes(l, cfg, r, pick);
    } else {
      var starts := SubsetOfSize(FitFree(l, cfg, r), ToStart(l, cfg, r));
      StartsArePicked(l, cfg, r, starts);
      pick := Pick(starts, {});
    }
  }

  lemma AnyChoiceLandsIff(l: Lattice, cfg: ProviderConfig, r: Requirement)
    ensures AnyChoiceLands(l, cfg, r) <==>
            forall pick :: Picks(l, cfg, r, pick) ==> Lands(l, cfg, pick)
  {
    if AnyChoiceLands(l, cfg, r) {
      forall pick | Picks(l, cfg, r, pick) ensures Lands(l, cfg, pick) {
        PickSizes(l, cfg, r, pick);
      }
    } else {
      var _ := WorstPick(l, cfg, r);
    }
  }

  lemma SomeChoiceLandsIff(l: Lattice, cfg: ProviderConfig, r: Requirement)
    ensures SomeChoiceLands(l, cfg, r) <==>
            exists pick :: Picks(l, cfg, r, pick) && Lands(l, cfg, pick)
  {
    if SomeChoiceLands(l, cfg, r) {
      var _ := BestPick(l, cfg, r);
    } else if pick :| Picks(l, cfg, r, pick) && Lands(l, cfg, pick) {
      PickSizes(l, cfg, r, pick);
      SubsetSizes(pick.starts, FitFree(l, cfg, r));
      assert false;
    }
  }

  // ---------- what a round does to that ----------

  /** A free host stays as stale as it was. */
  ghost predicate FreeStayAsStale(l: Lattice, l': Lattice, cfg: ProviderConfig, r: Requirement) {
    Free(l, cfg, r.0) * StaleHosts(l', cfg.providerId) == Free(l, cfg, r.0) * StaleHosts(l, cfg.providerId)
  }

  lemma StartRoundStale(l: Lattice, cfg: ProviderConfig, rs: seq<Requirement>, picks: seq<Pick>,
                        commands: seq<Command>, events: seq<Event>, i: nat)
    requires HostsKeyed(l) && Disjoint(l, rs) && AllFor(cfg.providerId, events)
    requires |picks| == |rs| && PassSoFar(l, cfg, rs, picks, commands) && AllDone(commands, events)
    requires i < |rs|
    ensures FreeStayAsStale(l, Play(l, events), cfg, rs[i])
  {
    PlayFrame(l, cfg.providerId, events);
    PickedAt(l, cfg, rs, picks, i);
    PicksAreWithin(l, cfg, rs[i], picks[i]);
    forall h | h in Free(l, cfg, rs[i].0)
      ensures h in StaleHosts(Play(l, events), cfg.providerId) <==> h in StaleHosts(l, cfg.providerId)
    {
      EventsFollowPick(l, cfg, rs, picks, commands, events, i, h);
      assert AllStarts(events, cfg.providerId, h);
      PlayStale(l, cfg.providerId, events, h);
    }
  }

  lemma ClearingRoundStale(l: Lattice, cfg: ProviderConfig, rs: seq<Requirement>, commands: seq<Command>, events: seq<Event>, i: nat)
    requires HostsKeyed(l) && Misplaced(l, cfg, rs) != {} && i < |rs| && AllFor(cfg.providerId, events)
    requires Reconciles(l, cfg, rs, commands) && AllDone(commands, events)
    ensures FreeStayAsStale(l, Play(l, events), cfg, rs[i])
  {
    PlayFrame(l, cfg.providerId, events);
    forall h | h in Free(l, cfg, rs[i].0)
      ensures h in StaleHosts(Play(l, events), cfg.providerId) <==> h in StaleHosts(l, cfg.providerId)
    {
      assert SpreadsOf(rs)[i] == rs[i].0;
      forall k | 0 <= k < |events| ensures !On(events[k], cfg.providerId, h) {
        assert commands[k] in commands && Done(commands[k], events[k]);
      }
      PlayStale(l, cfg.providerId, events, h);
    }
  }

  lemma FreeAfter(free: set<Id>, stale: set<Id>, stale': set<Id>, landed: set<Id>)
    requires landed <= free - stale && free * stale' == free * stale
    ensures |(free - landed) - stale'| == |free - stale| - |landed|
    ensures (free - landed) * stale' == free * stale
  {
    forall x | x in free ensures x in stale' <==> x in stale {
      assert x in free * stale' <==> x in free * stale;
    }
    assert (free - landed) - stale' == (free - stale) - landed;
    SubsetSizes(landed, free - stale);
  }

  lemma NumbersLeft(l: Lattice, l': Lattice, cfg: ProviderConfig, r: Requirement, k: int, a: int, n: int)
    requires RoundNumbers(l, l', cfg, r, k, a, n)
    ensures ToStart(l', cfg, r) == ToStart(l, cfg, r) - a
  {
    CountsAdd(l, cfg, r.0);
    StartsLeft(CountsOf(l, cfg, r.0), CountsOf(l', cfg, r.0), r.1, k, a, n);
  }

  lemma StartsLeft(c: Counts, c': Counts, count: nat, k: int, a: int, n: int)
    requires Adds(c) && c' == c.Shift(a - n) && k == Starting(c, count) && n == Stopping(c, count) && 0 <= a <= k
    ensures Starting(c', count) == Starting(c, count) - a
  {
    CountsLeft(c, count, a);
  }

  lemma StartingLeft(l: Lattice, l': Lattice, cfg: ProviderConfig, r: Requirement, pick: Pick)
    requires Picks(l, cfg, r, pick) && Within(l, cfg, r, Landed(l, cfg, pick)) && Moved(l, l', cfg, r, Landed(l, cfg, pick))
    ensures ToStart(l', cfg, r) == ToStart(l, cfg, r) - |Landed(l, cfg, pick).starts|
  {
    SpreadRound(l, l', cfg, r, pick);
    NumbersLeft(l, l', cfg, r, |pick.starts|, |Landed(l, cfg, pick).starts|, |pick.stops|);
  }

  lemma FreeLeft(l: Lattice, l': Lattice, cfg: ProviderConfig, r: Requirement, pick: Pick)
    requires Within(l, cfg, r, Landed(l, cfg, pick)) && Moved(l, l', cfg, r, Landed(l, cfg, pick)) && pick.stops == {}
    requires FreeStayAsStale(l, l', cfg, r)
    ensures StaleFree(l', cfg, r) == StaleFree(l, cfg, r)
    ensures |FitFree(l', cfg, r)| == |FitFree(l, cfg, r)| - |Landed(l, cfg, pick).starts|
  {
    var landed := Landed(l, cfg, pick).starts;
    assert Free(l', cfg, r.0) == Free(l, cfg, r.0) - landed;
    FreeAfter(Free(l, cfg, r.0), StaleHosts(l, cfg.providerId), StaleHosts(l', cfg.providerId), landed);
  }

  /** What follows from the numbers: of k starts a land. */
  ghost predicate LeavesStarts(l: Lattice, l': Lattice, cfg: ProviderConfig, r: Requirement, a: nat) {
    && ToStart(l', cfg, r) == ToStart(l, cfg, r) - a && a <= ToStart(l, cfg, r)
    && (ToStart(l, cfg, r) > 0 ==>
          StaleFree(l', cfg, r) == StaleFree(l, cfg, r) && |FitFree(l', cfg, r)| == |FitFree(l, cfg, r)| - a)
  }

  lemma LeavesChoices(l: Lattice, l': Lattice, cfg: ProviderConfig, r: Requirement, a: nat)
    requires LeavesStarts(l, l', cfg, r, a)
    ensures SomeChoiceLands(l', cfg, r) <==> SomeChoiceLands(l, cfg, r)
    ensures AnyChoiceLands(l', cfg, r) <==> AnyChoiceLands(l, cfg, r) || a == ToStart(l, cfg, r)
  {
  }

  lemma StartRoundKeeps(l: Lattice, l': Lattice, cfg: ProviderConfig, r: Requirement, pick: Pick)
    requires Picks(l, cfg, r, pick) && Within(l, cfg, r, Landed(l, cfg, pick)) && Moved(l, l', cfg, r, Landed(l, cfg, pick))
    requires FreeStayAsStale(l, l', cfg, r)
    ensures SomeChoiceLands(l', cfg, r) <==> SomeChoiceLands(l, cfg, r)
    ensures AnyChoiceLands(l', cfg, r) <==> AnyChoiceLands(l, cfg, r) || Lands(l, cfg, pick)
  {
    var a := |Landed(l, cfg, pick).starts|;
    LandedStarts(l, cfg, pick);
    PickSizes(l, cfg, r, pick);
    assert LeavesStarts(l, l', cfg, r, a) by {
      StartingLeft(l, l', cfg, r, pick);
      if ToStart(l, cfg, r) > 0 { FreeLeft(l, l', cfg, r, pick); }
    }
    LeavesChoices(l, l', cfg, r, a);
  }

  lemma ToStartIsNat(l: Lattice, cfg: ProviderConfig, r: Requirement)
    ensures ToStart(l, cfg, r) >= 0
  {
    CountsAdd(l, cfg, r.0);
    StartingIsNat(CountsOf(l, cfg, r.0), r.1);
  }

  lemma StartingIsNat(c: Counts, count: nat)
    requires Adds(c)
    ensures Starting(c, count) >= 0
  {}

  /** The sets that a pass over the spread compares. */
  ghost predicate SameFor(l: Lattice, l': Lattice, cfg: ProviderConfig, r: Requirement) {
    && EligibleHosts(l'.hosts, r.0) == EligibleHosts(l.hosts, r.0)
    && Occupied(l', cfg, r.0) == Occupied(l, cfg, r.0) && Mine(l', cfg, r.0) == Mine(l, cfg, r.0)
  }

  lemma SameChoices(l: Lattice, l': Lattice, cfg: ProviderConfig, r: Requirement)
    requires SameFor(l, l', cfg, r) && FreeStayAsStale(l, l', cfg, r)
    ensures SomeChoiceLands(l', cfg, r) <==> SomeChoiceLands(l, cfg, r)
    ensures AnyChoiceLands(l', cfg, r) <==> AnyChoiceLands(l, cfg, r)
  {
    ToStartIsNat(l, cfg, r);
    var free := Free(l, cfg, r.0);
    assert StaleFree(l', cfg, r) == StaleFree(l, cfg, r);
    assert free - StaleHosts(l', cfg.providerId) == free - free * StaleHosts(l', cfg.providerId);
    assert free - StaleHosts(l, cfg.providerId) == free - free * StaleHosts(l, cfg.providerId);
    assert LeavesStarts(l, l', cfg, r, 0);
    LeavesChoices(l, l', cfg, r, 0);
  }

  lemma ClearingRoundKeeps(l: Lattice, cfg: ProviderConfig, rs: seq<Requirement>, commands: seq<Command>, events: seq<Event>, i: nat)
    requires HostsKeyed(l) && Misplaced(l, cfg, rs) != {} && i < |rs|
    requires Reconciles(l, cfg, rs, commands) && AllDone(commands, events)
    ensures SomeChoiceLands(Play(l, events), cfg, rs[i]) <==> SomeChoiceLands(l, cfg, rs[i])
    ensures AnyChoiceLands(Play(l, events), cfg, rs[i]) <==> AnyChoiceLands(l, cfg, rs[i])
  {
    var l' := Play(l, events);
    ReconcileTargetsProvider(l, cfg, rs, commands, events);
    ClearingRoundStale(l, cfg, rs, commands, events, i);
    ClearedSets(l, cfg, rs, commands, events, i);
    SameChoices(l, l', cfg, rs[i]);
  }

  lemma ClearedSets(l: Lattice, cfg: ProviderConfig, rs: seq<Requirement>, commands: seq<Command>, events: seq<Event>, i: nat)
    requires HostsKeyed(l) && Misplaced(l, cfg, rs) != {} && i < |rs|
    requires Reconciles(l, cfg, rs, commands) && AllDone(commands, events)
    ensures SameFor(l, Play(l, events), cfg, rs[i])
  {
    ReconcileTargetsProvider(l, cfg, rs, commands, events);
    PlayFrame(l, cfg.providerId, events);
    forall h { ClearingRound(l, cfg, rs, commands, events, h); }
    SameSets(l, Play(l, events), cfg, rs, i);
  }

  /** No round changes whether some choice of hosts lands, and none makes a choice that cannot fail one that
      can. */
  lemma RoundKeepsChoices(l: Lattice, cfg: ProviderConfig, rs: seq<Requirement>, commands: seq<Command>, events: seq<Event>, i: nat)
    requires HostsKeyed(l) && Disjoint(l, rs) && i < |rs|
    requires Reconciles(l, cfg, rs, commands) && AllDone(commands, events)
    ensures SomeChoiceLands(Play(l, events), cfg, rs[i]) <==> SomeChoiceLands(l, cfg, rs[i])
    ensures AnyChoiceLands(l, cfg, rs[i]) ==> AnyChoiceLands(Play(l, events), cfg, rs[i])
  {
    if Misplaced(l, cfg, rs) != {} {
      ClearingRoundKeeps(l, cfg, rs, commands, events, i);
    } else {
      var picks: seq<Pick> :| |picks| == |rs| && PassSoFar(l, cfg, rs, picks, commands);
      ReconcileTargetsProvider(l, cfg, rs, commands, events);
      RoundMoves(l, cfg, rs, picks, commands, events, i);
      StartRoundStale(l, cfg, rs, picks, commands, events, i);
      PickedAt(l, cfg, rs, picks, i);
      StartRoundKeeps(l, Play(l, events), cfg, rs[i], picks[i]);
    }
  }

  // ---------- a round for every choice of hosts ----------

  lemma {:induction false} SomeWalk(s: set<Id>) returns (order: seq<Id>)
    ensures IsWalk(order, s)
  {
    order := [];
    if s != {} {
      var x :| x in s;
      var rest := SomeWalk(s - {x});
      order := rest + [x];
    }
  }

  lemma SomeSegment(cfg: ProviderConfig, spread: Spread, pick: Pick) returns (segment: seq<Command>)
    ensures IsSegment(cfg, spread, pick, segment)
  {
    var starts := SomeWalk(pick.starts);
    var stops := SomeWalk(pick.stops);
    var startAll := seq(|starts|, k requires 0 <= k < |starts| => Start(cfg, spread, starts[k]));
    var stopAll := seq(|stops|, k requires 0 <= k < |stops| => Stop(cfg, spread, stops[k]));
    segment := startAll + stopAll;
    forall c ensures c in segment <==>
      exists h :: (h in pick.starts && c == Start(cfg, spread, h)) || (h in pick.stops && c == Stop(cfg, spread, h))
    {
      if h :| h in pick.starts && c == Start(cfg, spread, h) {
        var k :| 0 <= k < |starts| && starts[k] == h;
        assert startAll[k] == c;
      } else if h :| h in pick.stops && c == Stop(cfg, spread, h) {
        var k :| 0 <= k < |stops| && stops[k] == h;
        assert stopAll[k] == c;
      }
    }
  }

  lemma {:induction false} PassWith(l: Lattice, cfg: ProviderConfig, rs: seq<Requirement>, picks: seq<Pick>) returns (commands: seq<Command>)
    requires |picks| <= |rs| && AllPicked(l, cfg, rs, picks)
    ensures PassSoFar(l, cfg, rs, picks, commands)
  {
    commands := [];
    if picks != [] {
      var front, last := picks[..|picks| - 1], picks[|picks| - 1];
      var before := PassWith(l, cfg, rs, front);
      var segment := SomeSegment(cfg, rs[|front|].0, last);
      PassMore(l, cfg, rs, front, before, last, segment);
      assert front + [last] == picks;
      commands := before + segment;
    }
  }

  /** The hosts do what the commands say. */
  lemma SomeAnswers(commands: seq<Command>) returns (events: seq<Event>)
    requires forall c :: c in commands ==> c.StartProvider? || c.StopProvider?
    ensures AllDone(commands, events)
  {
    events := seq(|commands|, k requires 0 <= k < |commands| =>
      if commands[k].StartProvider? then CorrespondingEvent(commands[k]).value.success
      else if commands[k].StopProvider? then ProviderStopped(commands[k].providerId, commands[k].hostId)
      else LinkdefSet);
  }

  /** One round: a pass, and hosts that do what it says. */
  ghost predicate FollowsByRound(l: Lattice, l': Lattice, cfg: ProviderConfig, rs: seq<Requirement>) {
    exists commands, events :: Reconciles(l, cfg, rs, commands) && AllDone(commands, events) && l' == Play(l, events)
  }

  /** Every choice of hosts is one that some round makes. */
  lemma RoundWith(l: Lattice, cfg: ProviderConfig, rs: seq<Requirement>, picks: seq<Pick>)
    returns (commands: seq<Command>, events: seq<Event>)
    requires Misplaced(l, cfg, rs) == {}
    requires |picks| == |rs| && AllPicked(l, cfg, rs, picks)
    ensures PassSoFar(l, cfg, rs, picks, commands) && Reconciles(l, cfg, rs, commands) && AllDone(commands, events)
  {
    commands := PassWith(l, cfg, rs, picks);
    forall c | c in commands ensures c.StartProvider? || c.StopProvider? {
      var i: nat, h :| CommandFor(cfg, rs, picks, i, h, c);
    }
    events := SomeAnswers(commands);
  }

  lemma ClearingIsPossible(l: Lattice, cfg: ProviderConfig, rs: seq<Requirement>)
    returns (commands: seq<Command>, events: seq<Event>)
    requires Misplaced(l, cfg, rs) != {}
    ensures Reconciles(l, cfg, rs, commands) && AllDone(commands, events)
  {
    var order := SomeWalk(Misplaced(l, cfg, rs));
    commands := seq(|order|, k requires 0 <= k < |order| => StopMisplaced(cfg, order[k]));
    forall h | h in Misplaced(l, cfg, rs) ensures StopMisplaced(cfg, h) in commands {
      var k :| 0 <= k < |order| && order[k] == h;
      assert commands[k] == StopMisplaced(cfg, h);
    }
    events := SomeAnswers(commands);
  }

  lemma AllPickedMore(l: Lattice, cfg: ProviderConfig, rs: seq<Requirement>, picks: seq<Pick>, pick: Pick)
    requires |picks| < |rs| && AllPicked(l, cfg, rs, picks) && Picks(l, cfg, rs[|picks|], pick)
    ensures AllPicked(l, cfg, rs, picks + [pick])
  {
    assert (picks + [pick])[..|picks|] == picks;
  }

  /** A choice for each of the first n spreads, and for spread i the given one. */
  lemma {:induction false} PicksWith(l: Lattice, cfg: ProviderConfig, rs: seq<Requirement>, n: nat, i: nat, pick: Pick)
    returns (picks: seq<Pick>)
    requires n <= |rs| && i < |rs| && Picks(l, cfg, rs[i], pick)
    ensures |picks| == n && AllPicked(l, cfg, rs, picks) && (i < n ==> picks[i] == pick)
  {
    picks := [];
    if n > 0 {
      var before := PicksWith(l, cfg, rs, n - 1, i, pick);
      var last := pick;
      if i != n - 1 { last := SomePick(l, cfg, rs[n - 1]); }
      AllPickedMore(l, cfg, rs, before, last);
      picks := before + [last];
    }
  }

  ghost predicate AllLand(l: Lattice, cfg: ProviderConfig, picks: seq<Pick>) {
    forall i :: 0 <= i < |picks| ==> Lands(l, cfg, picks[i])
  }

  lemma AllLandMore(l: Lattice, cfg: ProviderConfig, picks: seq<Pick>, pick: Pick)
    requires AllLand(l, cfg, picks) && Lands(l, cfg, pick)
    ensures AllLand(l, cfg, picks + [pick])
  {
    var more := picks + [pick];
    forall i | 0 <= i < |more| ensures Lands(l, cfg, more[i]) {
      if i < |picks| { assert Lands(l, cfg, picks[i]); }
    }
  }

  lemma {:induction false} BestPicks(l: Lattice, cfg: ProviderConfig, rs: seq<Requirement>, n: nat) returns (picks: seq<Pick>)
    requires n <= |rs| && forall i :: 0 <= i < |rs| ==> SomeChoiceLands(l, cfg, rs[i])
    ensures |picks| == n && AllPicked(l, cfg, rs, picks) && AllLand(l, cfg, picks)
  {
    picks := [];
    if n > 0 {
      var before := BestPicks(l, cfg, rs, n - 1);
      var last := BestPick(l, cfg, rs[|before|]);
      AllPickedMore(l, cfg, rs, before, last);
      AllLandMore(l, cfg, before, last);
      picks := before + [last];
    }
  }

  /** A round that keeps the trouble of spread i: it picks a stale host. */
  lemma WorstRound(l: Lattice, cfg: ProviderConfig, rs: seq<Requirement>, i: nat) returns (l': Lattice)
    requires HostsKeyed(l) && Disjoint(l, rs) && i < |rs| && !AnyChoiceLands(l, cfg, rs[i])
    ensures FollowsByRound(l, l', cfg, rs) && !AnyChoiceLands(l', cfg, rs[i])
  {
    if Misplaced(l, cfg, rs) != {} {
      var commands, events := ClearingIsPossible(l, cfg, rs);
      ClearingRoundKeeps(l, cfg, rs, commands, events, i);
      l' := Play(l, events);
    } else {
      var worst := WorstPick(l, cfg, rs[i]);
      var picks := PicksWith(l, cfg, rs, |rs|, i, worst);
      var commands, events := RoundWith(l, cfg, rs, picks);
      ReconcileTargetsProvider(l, cfg, rs, commands, events);
      RoundMoves(l, cfg, rs, picks, commands, events, i);
      StartRoundStale(l, cfg, rs, picks, commands, events, i);
      StartRoundKeeps(l, Play(l, events), cfg, rs[i], worst);
      l' := Play(l, events);
    }
  }

  /** A round that settles, once nothing is misplaced. */
  lemma BestRound(l: Lattice, cfg: ProviderConfig, rs: seq<Requirement>) returns (l': Lattice)
    requires HostsKeyed(l) && Disjoint(l, rs) && forall i :: 0 <= i < |rs| ==> SomeChoiceLands(l, cfg, rs[i])
    ensures FollowsByRound(l, l', cfg, rs)
    ensures Misplaced(l, cfg, rs) == {} ==> Settled(l', cfg, rs)
  {
    if Misplaced(l, cfg, rs) != {} {
      var commands, events := ClearingIsPossible(l, cfg, rs);
      l' := Play(l, events);
    } else {
      var picks := BestPicks(l, cfg, rs, |rs|);
      var commands, events := RoundWith(l, cfg, rs, picks);
      NoStaleStartIff(l, cfg, rs, picks, commands);
      OneRoundSettlesIff(l, cfg, rs, commands, events);
      l' := Play(l, events);
    }
  }

  /** Where no choice can fail, every round settles, once nothing is misplaced. */
  lemma AnyRound(l: Lattice, cfg: ProviderConfig, rs: seq<Requirement>, commands: seq<Command>, events: seq<Event>)
    requires HostsKeyed(l) && Disjoint(l, rs) && Misplaced(l, cfg, rs) == {}
    requires forall i :: 0 <= i < |rs| ==> AnyChoiceLands(l, cfg, rs[i])
    requires Reconciles(l, cfg, rs, commands) && AllDone(commands, events)
    ensures Settled(Play(l, events), cfg, rs)
  {
    var picks: seq<Pick> :| |picks| == |rs| && PassSoFar(l, cfg, rs, picks, commands);
    forall i | 0 <= i < |rs| ensures Lands(l, cfg, picks[i]) {
      PickedAt(l, cfg, rs, picks, i);
      AnyChoiceLandsIff(l, cfg, rs[i]);
    }
    NoStaleStartIff(l, cfg, rs, picks, commands);
    OneRoundSettlesIff(l, cfg, rs, commands, events);
  }

  // ---------- any number of rounds ----------

  ghost predicate Rounds(ls: seq<Lattice>, cfg: ProviderConfig, rs: seq<Requirement>) {
    forall k :: 0 <= k < |ls| - 1 ==> FollowsByRound(ls[k], ls[k + 1], cfg, rs)
  }

  /** k rounds from l. */
  ghost predicate RoundsFrom(ls: seq<Lattice>, l: Lattice, cfg: ProviderConfig, rs: seq<Requirement>, k: nat) {
    |ls| == k + 1 && ls[0] == l && Rounds(ls, cfg, rs)
  }

  lemma {:induction false} RoundsKeep(ls: seq<Lattice>, cfg: ProviderConfig, rs: seq<Requirement>, k: nat)
    requires k < |ls| && Rounds(ls, cfg, rs) && HostsKeyed(ls[0]) && Disjoint(ls[0], rs)
    ensures HostsKeyed(ls[k]) && Disjoint(ls[k], rs) && (k > 0 ==> Misplaced(ls[k], cfg, rs) == {})
    ensures forall i :: 0 <= i < |rs| ==> (SomeChoiceLands(ls[k], cfg, rs[i]) <==> SomeChoiceLands(ls[0], cfg, rs[i]))
    ensures forall i :: 0 <= i < |rs| && AnyChoiceLands(ls[0], cfg, rs[i]) ==> AnyChoiceLands(ls[k], cfg, rs[i])
  {
    if k > 0 {
      RoundsKeep(ls, cfg, rs, k - 1);
      assert FollowsByRound(ls[k - 1], ls[k - 1 + 1], cfg, rs);
      var commands, events :| Reconciles(ls[k - 1], cfg, rs, commands) && AllDone(commands, events) && ls[k] == Play(ls[k - 1], events);
      EveryRound(ls[k - 1], cfg, rs, commands, events);
      forall i | 0 <= i < |rs| { RoundKeepsChoices(ls[k - 1], cfg, rs, commands, events, i); }
    }
  }

  lemma RoundsMore(ls: seq<Lattice>, l: Lattice, l': Lattice, cfg: ProviderConfig, rs: seq<Requirement>, k: nat)
    requires RoundsFrom(ls, l, cfg, rs, k) && FollowsByRound(ls[k], l', cfg, rs)
    ensures RoundsFrom(ls + [l'], l, cfg, rs, k + 1)
  {
    var more := ls + [l'];
    forall j | 0 <= j < |more| - 1 ensures FollowsByRound(more[j], more[j + 1], cfg, rs) {
      if j < k { assert FollowsByRound(ls[j], ls[j + 1], cfg, rs); }
    }
  }

  lemma {:induction false} WorstRounds(l: Lattice, cfg: ProviderConfig, rs: seq<Requirement>, i: nat, k: nat) returns (ls: seq<Lattice>)
    requires HostsKeyed(l) && Disjoint(l, rs) && i < |rs| && !AnyChoiceLands(l, cfg, rs[i])
    ensures RoundsFrom(ls, l, cfg, rs, k) && !AnyChoiceLands(ls[k], cfg, rs[i])
  {
    ls := [l];
    if k > 0 {
      var before := WorstRounds(l, cfg, rs, i, k - 1);
      RoundsKeep(before, cfg, rs, k - 1);
      var l' := WorstRound(before[k - 1], cfg, rs, i);
      RoundsMore(before, l, l', cfg, rs, k - 1);
      ls := before + [l'];
    }
  }

  lemma {:induction false} BestRounds(l: Lattice, cfg: ProviderConfig, rs: seq<Requirement>, k: nat) returns (ls: seq<Lattice>)
    requires HostsKeyed(l) && Disjoint(l, rs) && forall i :: 0 <= i < |rs| ==> SomeChoiceLands(l, cfg, rs[i])
    ensures RoundsFrom(ls, l, cfg, rs, k)
    ensures k > 1 || (k == 1 && Misplaced(l, cfg, rs) == {}) ==> Settled(ls[k], cfg, rs)
  {
    ls := [l];
    if k > 0 {
      var before := BestRounds(l, cfg, rs, k - 1);
      RoundsKeep(before, cfg, rs, k - 1);
      var l' := BestRound(before[k - 1], cfg, rs);
      RoundsMore(before, l, l', cfg, rs, k - 1);
      ls := before + [l'];
    }
  }

  /** Rounds enough to settle: two, or one where nothing is misplaced. */
  ghost predicate Enough(l: Lattice, cfg: ProviderConfig, rs: seq<Requirement>, k: nat) {
    k > 1 || (k == 1 && Misplaced(l, cfg, rs) == {})
  }

  lemma RoundsSettle(ls: seq<Lattice>, cfg: ProviderConfig, rs: seq<Requirement>, k: nat)
    requires k < |ls| && Rounds(ls, cfg, rs) && HostsKeyed(ls[0]) && Disjoint(ls[0], rs) && Enough(ls[0], cfg, rs, k)
    requires forall i :: 0 <= i < |rs| ==> AnyChoiceLands(ls[0], cfg, rs[i])
    ensures Settled(ls[k], cfg, rs)
  {
    RoundsKeep(ls, cfg, rs, k - 1);
    assert FollowsByRound(ls[k - 1], ls[k - 1 + 1], cfg, rs);
    var commands, events :| Reconciles(ls[k - 1], cfg, rs, commands) && AllDone(commands, events) && ls[k] == Play(ls[k - 1], events);
    AnyRound(ls[k - 1], cfg, rs, commands, events);
  }

  /** Whatever hosts are picked in them, k rounds settle: exactly where, for each spread, nothing is to be
      started or no free host is stale. */
  lemma SettlesForEveryChoiceIff(l: Lattice, cfg: ProviderConfig, rs: seq<Requirement>, k: nat)
    requires HostsKeyed(l) && Disjoint(l, rs) && Enough(l, cfg, rs, k)
    ensures (forall ls :: RoundsFrom(ls, l, cfg, rs, k) ==> Settled(ls[k], cfg, rs)) <==>
            forall i :: 0 <= i < |rs| ==> AnyChoiceLands(l, cfg, rs[i])
  {
    if forall i :: 0 <= i < |rs| ==> AnyChoiceLands(l, cfg, rs[i]) {
      forall ls | RoundsFrom(ls, l, cfg, rs, k) ensures Settled(ls[k], cfg, rs) { RoundsSettle(ls, cfg, rs, k); }
    } else {
      var i :| 0 <= i < |rs| && !AnyChoiceLands(l, cfg, rs[i]);
      var ls := WorstRounds(l, cfg, rs, i, k);
      SettledIff(ls[k], cfg, rs);
    }
  }

  /** Where too many of the free hosts are stale for some spread, no number of rounds settles, whatever hosts
      are picked. */
  lemma NeverSettles(ls: seq<Lattice>, cfg: ProviderConfig, rs: seq<Requirement>, i: nat, k: nat)
    requires k < |ls| && Rounds(ls, cfg, rs) && HostsKeyed(ls[0]) && Disjoint(ls[0], rs)
    requires i < |rs| && !SomeChoiceLands(ls[0], cfg, rs[i])
    ensures !Settled(ls[k], cfg, rs)
  {
    RoundsKeep(ls, cfg, rs, k);
    SettledIff(ls[k], cfg, rs);
  }

  /** And everywhere else, for some choice of hosts, they do. */
  lemma SettlesForSomeChoiceIff(l: Lattice, cfg: ProviderConfig, rs: seq<Requirement>, k: nat)
    requires HostsKeyed(l) && Disjoint(l, rs) && Enough(l, cfg, rs, k)
    ensures (exists ls :: RoundsFrom(ls, l, cfg, rs, k) && Settled(ls[k], cfg, rs)) <==>
            forall i :: 0 <= i < |rs| ==> SomeChoiceLands(l, cfg, rs[i])
  {
    if forall i :: 0 <= i < |rs| ==> SomeChoiceLands(l, cfg, rs[i]) {
      var ls := BestRounds(l, cfg, rs, k);
    } else {
      var i :| 0 <= i < |rs| && !SomeChoiceLands(l, cfg, rs[i]);
      forall ls | RoundsFrom(ls, l, cfg, rs, k) ensures !Settled(ls[k], cfg, rs) { NeverSettles(ls, cfg, rs, i, k); }
    }
  }
}
