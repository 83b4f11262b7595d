/** The scaler that runs a number of copies of one provider, spread over the eligible hosts. */
module ProviderSpreadScalers {
  import opened Wrappers
  import opened LatticeState
  import opened Commands
  import opened Spreads
  import opened ComputeSpread

  datatype ProviderConfig = ProviderConfig(
    providerId: Id, reference: string, modelName: string, id: string, config: seq<string>)

  // ---------- where the provider runs ----------

  function Info(l: Lattice, p: Id, h: Id): Option<ProviderInfo> {
    if h in l.hosts && p in l.hosts[h].providers then Some(l.hosts[h].providers[p]) else None
  }

  predicate RunsOn(l: Lattice, cfg: ProviderConfig, h: Id) {
    Info(l, cfg.providerId, h).Some?
  }

  /** Started by this scaler, for whichever spread. */
  predicate Owned(l: Lattice, cfg: ProviderConfig, h: Id) {
    RunsOn(l, cfg, h) && Carries(Info(l, cfg.providerId, h).value.annotations, map[SCALER_KEY := cfg.id])
  }

  predicate OwnedFor(l: Lattice, cfg: ProviderConfig, spread: Spread, h: Id) {
    RunsOn(l, cfg, h) && Carries(Info(l, cfg.providerId, h).value.annotations, SpreadAnnotations(spread.name, cfg.id))
  }

  function Misplaced(l: Lattice, cfg: ProviderConfig, rs: seq<Requirement>): set<Id> {
    set h | h in IneligibleHosts(l.hosts, SpreadsOf(rs)) && Owned(l, cfg, h)
  }

  function Occupied(l: Lattice, cfg: ProviderConfig, spread: Spread): set<Id> {
    set h | h in EligibleHosts(l.hosts, spread) && RunsOn(l, cfg, h)
  }

  function Free(l: Lattice, cfg: ProviderConfig, spread: Spread): set<Id> {
    EligibleHosts(l.hosts, spread) - Occupied(l, cfg, spread)
  }

  /** The running ones that were started for this spread, and the rest. */
  function Mine(l: Lattice, cfg: ProviderConfig, spread: Spread): set<Id> {
    set h | h in EligibleHosts(l.hosts, spread) && OwnedFor(l, cfg, spread, h)
  }

  function Theirs(l: Lattice, cfg: ProviderConfig, spread: Spread): set<Id> {
    Occupied(l, cfg, spread) - Mine(l, cfg, spread)
  }

  // ---------- one reconcile pass ----------

  function Minus(a: nat, b: nat): nat {
    if a <= b then 0 else a - b
  }

  /** The providers running for others are subtracted twice: they are among the running ones too. */
  function NumToStart(l: Lattice, cfg: ProviderConfig, r: Requirement): nat {
    Minus(Minus(r.1, |Occupied(l, cfg, r.0)|), |Theirs(l, cfg, r.0)|)
  }

  function Min(a: nat, b: nat): nat {
    if a <= b then a else b
  }

  /** Too few hosts are free: the pass reports a failure. */
  predicate Short(l: Lattice, cfg: ProviderConfig, r: Requirement) {
    |Occupied(l, cfg, r.0)| < r.1 && |Free(l, cfg, r.0)| < NumToStart(l, cfg, r)
  }

  /** Some of the first n spreads is short. */
  predicate AnyShort(l: Lattice, cfg: ProviderConfig, rs: seq<Requirement>, n: nat)
    requires n <= |rs|
  {
    exists i :: 0 <= i < n && Short(l, cfg, rs[i])
  }

  lemma OneMoreShort(l: Lattice, cfg: ProviderConfig, rs: seq<Requirement>, n: nat)
    requires n < |rs|
    ensures AnyShort(l, cfg, rs, n + 1) <==> AnyShort(l, cfg, rs, n) || Short(l, cfg, rs[n])
  {}

  /** The hosts that one pass picks for one spread. */
  datatype Pick = Pick(starts: set<Id>, stops: set<Id>)

  ghost predicate Picks(l: Lattice, cfg: ProviderConfig, r: Requirement, pick: Pick) {
    var running, mine := |Occupied(l, cfg, r.0)|, Mine(l, cfg, r.0);
    if running > r.1 && mine != {} then
      pick.starts == {} && pick.stops <= mine && |pick.stops| == Min(running - r.1, |mine|)
    else if running < r.1 then
      && pick.stops == {} && pick.starts <= Free(l, cfg, r.0)
      && |pick.starts| == Min(NumToStart(l, cfg, r), |Free(l, cfg, r.0)|)
    else
      pick == Pick({}, {})
  }

  ghost predicate AllPicked(l: Lattice, cfg: ProviderConfig, rs: seq<Requirement>, picks: seq<Pick>)
    requires |picks| <= |rs|
  {
    picks == [] || (AllPicked(l, cfg, rs, picks[..|picks| - 1]) && Picks(l, cfg, rs[|picks| - 1], picks[|picks| - 1]))
  }

  lemma {:induction false} PickedAt(l: Lattice, cfg: ProviderConfig, rs: seq<Requirement>, picks: seq<Pick>, i: nat)
    requires |picks| <= |rs| && AllPicked(l, cfg, rs, picks) && i < |picks|
    ensures Picks(l, cfg, rs[i], picks[i])
  {
    if i < |picks| - 1 { PickedAt(l, cfg, rs, picks[..|picks| - 1], i); }
  }

  /** The commands of one spread, in some order. */
  ghost predicate IsSegment(cfg: ProviderConfig, spread: Spread, pick: Pick, segment: seq<Command>) {
    && |segment| == |pick.starts| + |pick.stops|
    && forall c :: c in segment <==>
         exists h :: (h in pick.starts && c == Start(cfg, spread, h)) || (h in pick.stops && c == Stop(cfg, spread, h))
  }

  /** A pass that has done the first |picks| spreads. */
  ghost predicate PassSoFar(l: Lattice, cfg: ProviderConfig, rs: seq<Requirement>, picks: seq<Pick>,
                            commands: seq<Command>)
  {
    && |picks| <= |rs| && AllPicked(l, cfg, rs, picks)
    && Lists(cfg, rs, picks, commands) && |commands| == NumPicked(picks)
  }

  function StopMisplaced(cfg: ProviderConfig, h: Id): Command {
    StopProvider(cfg.providerId, h, cfg.modelName, map[])
  }

  function Stop(cfg: ProviderConfig, spread: Spread, h: Id): Command {
    StopProvider(cfg.providerId, h, cfg.modelName, SpreadAnnotations(spread.name, cfg.id))
  }

  function Start(cfg: ProviderConfig, spread: Spread, h: Id): Command {
    StartProvider(cfg.reference, cfg.providerId, h, cfg.modelName, cfg.config, SpreadAnnotations(spread.name, cfg.id))
  }

  ghost predicate CommandFor(cfg: ProviderConfig, rs: seq<Requirement>, picks: seq<Pick>, i: nat, h: Id, c: Command)
    requires |picks| <= |rs|
  {
    && i < |picks|
    && ((h in picks[i].starts && c == Start(cfg, rs[i].0, h)) || (h in picks[i].stops && c == Stop(cfg, rs[i].0, h)))
  }

  ghost predicate Lists(cfg: ProviderConfig, rs: seq<Requirement>, picks: seq<Pick>, commands: seq<Command>)
    requires |picks| <= |rs|
  {
    forall c :: c in commands <==> exists i: nat, h :: CommandFor(cfg, rs, picks, i, h, c)
  }

  function NumPicked(picks: seq<Pick>): nat {
    if picks == [] then 0
    else
      var last := picks[|picks| - 1];
      NumPicked(picks[..|picks| - 1]) + |last.starts| + |last.stops|
  }

  /** What a pass returns: some choice of hosts, in some order. */
  ghost predicate Reconciles(l: Lattice, cfg: ProviderConfig, rs: seq<Requirement>, commands: seq<Command>) {
    if Misplaced(l, cfg, rs) != {} then
      && |commands| == |Misplaced(l, cfg, rs)|
      && forall c :: c in commands <==> exists h :: h in Misplaced(l, cfg, rs) && c == StopMisplaced(cfg, h)
    else
      exists picks :: |picks| == |rs| && PassSoFar(l, cfg, rs, picks, commands)
  }

  /** What a pass that returns these commands reports. */
  function PassStatus(l: Lattice, cfg: ProviderConfig, rs: seq<Requirement>, commands: seq<Command>): Status {
    if Misplaced(l, cfg, rs) != {} then Reconciling
    else if AnyShort(l, cfg, rs, |rs|) then Status.Failed
    else if commands == [] then Deployed else Reconciling
  }

  /** Every choice is empty. */
  ghost predicate Settled(l: Lattice, cfg: ProviderConfig, rs: seq<Requirement>) {
    Misplaced(l, cfg, rs) == {} && forall i, pick :: 0 <= i < |rs| && Picks(l, cfg, rs[i], pick) ==> pick == Pick({}, {})
  }

  lemma SettledReturnsNothing(l: Lattice, cfg: ProviderConfig, rs: seq<Requirement>, commands: seq<Command>)
    requires Settled(l, cfg, rs) && Reconciles(l, cfg, rs, commands)
    ensures commands == []
  {
    var picks :| |picks| == |rs| && PassSoFar(l, cfg, rs, picks, commands);
    forall i | 0 <= i < |picks| ensures picks[i] == Pick({}, {}) { PickedAt(l, cfg, rs, picks, i); }
    EmptyPicks(picks);
  }

  lemma {:induction false} EmptyPicks(picks: seq<Pick>)
    requires forall i :: 0 <= i < |picks| ==> picks[i] == Pick({}, {})
    ensures NumPicked(picks) == 0
  {
    if picks != [] { EmptyPicks(picks[..|picks| - 1]); }
  }

  /** What cleaning up asks for: none of each. */
  ghost predicate IsCleanup(spreads: seq<Spread>, rs: seq<Requirement>) {
    SpreadsOf(rs) == Ordered(spreads) && forall i :: 0 <= i < |rs| ==> rs[i].1 == 0
  }

  class ProviderSpreadScaler {
    const cfg: ProviderConfig
    var instances: nat
    var spreads: seq<Spread>
    var requirements: seq<Requirement>
    var status: Status

    constructor (config: ProviderConfig, count: nat, wanted: seq<Spread>, rs: seq<Requirement>)
      ensures cfg == config && instances == count && spreads == wanted && requirements == rs && status == Reconciling
    {
      cfg, instances, spreads, requirements, status := config, count, wanted, rs, Reconciling;
    }

    /** None when computing the counts divides by zero. */
    method UpdateConfig(l: Lattice, count: nat, wanted: seq<Spread>) returns (commands: Option<seq<Command>>)
      modifies this
      ensures commands.None? <==> wanted != [] && TotalWeight(wanted) == 0
      ensures commands.None? ==> unchanged(this)
      ensures commands.Some? ==>
                && instances == count && spreads == wanted
                && SpreadsOf(requirements) == Ordered(wanted) && TotalCount(requirements) == count
                && Reconciles(l, cfg, requirements, commands.value)
    {
      var rs := Compute(count, wanted);
      if rs.None? { return None; }
      requirements, instances, spreads := rs.value, count, wanted;
      var reconciled := Reconcile(l);
      return Some(reconciled);
    }

    /** A pass of a copy that wants no instances. */
    method Cleanup(l: Lattice) returns (commands: Option<seq<Command>>, ghost rs: seq<Requirement>)
      ensures commands.None? <==> spreads != [] && TotalWeight(spreads) == 0
      ensures commands.Some? ==> IsCleanup(spreads, rs) && Reconciles(l, cfg, rs, commands.value)
    {
      var computed := Compute(0, spreads);
      if computed.None? { return None, []; }
      NoneOfEach(computed.value);
      var cleaner := new ProviderSpreadScaler(cfg, 0, spreads, computed.value);
      var stops := cleaner.Reconcile(l);
      return Some(stops), computed.value;
    }

    /** The first n of a walk over the pool. */
    method Take(pool: set<Id>, n: nat) returns (order: seq<Id>, taken: set<Id>)
      ensures IsWalk(order, taken) && taken <= pool && |taken| == Min(n, |pool|)
    {
      order, taken := [], {};
      var left := pool;
      while |order| < n && left != {}
        invariant IsWalk(order, taken) && taken <= pool && left == pool - taken && |order| <= n
        invariant |pool| == |taken| + |left|
        decreases left
      {
        var h :| h in left;
        order, taken, left := order + [h], taken + {h}, left - {h};
      }
    }

    method StopTaken(r: Requirement, pool: set<Id>, n: nat) returns (commands: seq<Command>, ghost taken: set<Id>)
      ensures taken <= pool && |taken| == Min(n, |pool|) && |commands| == |taken|
      ensures forall c :: c in commands <==> exists h :: h in taken && c == Stop(cfg, r.0, h)
    {
      var order, t := Take(pool, n);
      taken := t;
      commands := seq(|order|, k requires 0 <= k < |order| => Stop(cfg, r.0, order[k]));
      assert forall k :: 0 <= k < |order| ==> commands[k] == Stop(cfg, r.0, order[k]);
    }

    method StartTaken(r: Requirement, pool: set<Id>, n: nat) returns (commands: seq<Command>, ghost taken: set<Id>)
      ensures taken <= pool && |taken| == Min(n, |pool|) && |commands| == |taken|
      ensures forall c :: c in commands <==> exists h :: h in taken && c == Start(cfg, r.0, h)
    {
      var order, t := Take(pool, n);
      taken := t;
      commands := seq(|order|, k requires 0 <= k < |order| => Start(cfg, r.0, order[k]));
      assert forall k :: 0 <= k < |order| ==> commands[k] == Start(cfg, r.0, order[k]);
    }

    method ReconcileSpread(l: Lattice, r: Requirement) returns (commands: seq<Command>, ghost pick: Pick, failed: bool)
      ensures Picks(l, cfg, r, pick)
      ensures IsSegment(cfg, r.0, pick, commands)
      ensures failed <==> Short(l, cfg, r)
    {
      commands, pick, failed := [], Pick({}, {}), false;
      var running, mine := |Occupied(l, cfg, r.0)|, Mine(l, cfg, r.0);
      ghost var taken;
      if running > r.1 && mine != {} {
        commands, taken := StopTaken(r, mine, running - r.1);
        pick := Pick({}, taken);
      } else if running < r.1 {
        var toStart := NumToStart(l, cfg, r);
        commands, taken := StartTaken(r, Free(l, cfg, r.0), toStart);
        pick := Pick(taken, {});
        failed := |commands| < toStart;
      }
    }

    method StopAllMisplaced(l: Lattice) returns (commands: seq<Command>)
      ensures |commands| == |Misplaced(l, cfg, requirements)|
      ensures forall c :: c in commands <==>
                exists h :: h in Misplaced(l, cfg, requirements) && c == StopMisplaced(cfg, h)
    {
      var order := Walk(Misplaced(l, cfg, requirements));
      commands := seq(|order|, k requires 0 <= k < |order| => StopMisplaced(cfg, order[k]));
      assert forall k :: 0 <= k < |order| ==> commands[k] == StopMisplaced(cfg, order[k]);
    }

    method ReconcileSpreads(l: Lattice) returns (commands: seq<Command>, ghost picks: seq<Pick>, anyFailed: bool)
      ensures |picks| == |requirements| && PassSoFar(l, cfg, requirements, picks, commands)
      ensures anyFailed == AnyShort(l, cfg, requirements, |requirements|)
    {
      commands, picks, anyFailed := [], [], false;
      for i := 0 to |requirements|
        invariant |picks| == i && PassSoFar(l, cfg, requirements, picks, commands)
        invariant anyFailed == AnyShort(l, cfg, requirements, i)
      {
        var segment, pick, failed := ReconcileSpread(l, requirements[i]);
        PassMore(l, cfg, requirements, picks, commands, pick, segment);
        OneMoreShort(l, cfg, requirements, i);
        commands := commands + segment;
        picks := picks + [pick];
        anyFailed := anyFailed || failed;
      }
    }

    method Reconcile(l: Lattice) returns (commands: seq<Command>)
      modifies this`status
      ensures Reconciles(l, cfg, requirements, commands)
      ensures status == PassStatus(l, cfg, requirements, commands)
    {
      if Misplaced(l, cfg, requirements) != {} {
        commands := StopAllMisplaced(l);
        status := Reconciling;
      } else {
        var anyFailed;
        ghost var picks;
        commands, picks, anyFailed := ReconcileSpreads(l);
        status := if anyFailed then Status.Failed else if commands == [] then Deployed else Reconciling;
      }
    }
  }

  lemma ListsMore(cfg: ProviderConfig, rs: seq<Requirement>, picks: seq<Pick>, commands: seq<Command>,
                  pick: Pick, segment: seq<Command>)
    requires |picks| < |rs| && Lists(cfg, rs, picks, commands)
    requires IsSegment(cfg, rs[|picks|].0, pick, segment)
    ensures Lists(cfg, rs, picks + [pick], commands + segment)
  {
    var picks', n := picks + [pick], |picks|;
    forall c ensures c in commands + segment <==> exists i: nat, h :: CommandFor(cfg, rs, picks', i, h, c) {
      if c in commands {
        var i: nat, h :| CommandFor(cfg, rs, picks, i, h, c);
        assert CommandFor(cfg, rs, picks', i, h, c);
      }
      if c in segment {
        var r := rs[n];
        var h :| (h in pick.starts && c == Start(cfg, r.0, h)) || (h in pick.stops && c == Stop(cfg, r.0, h));
        assert CommandFor(cfg, rs, picks', n, h, c);
      }
      if i: nat, h :| CommandFor(cfg, rs, picks', i, h, c) {
        if i < n { assert CommandFor(cfg, rs, picks, i, h, c); }
      }
    }
  }

  lemma PassMore(l: Lattice, cfg: ProviderConfig, rs: seq<Requirement>, picks: seq<Pick>, commands: seq<Command>,
                 pick: Pick, segment: seq<Command>)
    requires PassSoFar(l, cfg, rs, picks, commands) && |picks| < |rs| && Picks(l, cfg, rs[|picks|], pick)
    requires IsSegment(cfg, rs[|picks|].0, pick, segment)
    ensures PassSoFar(l, cfg, rs, picks + [pick], commands + segment)
  {
    var picks' := picks + [pick];
    assert picks'[..|picks|] == picks;
    ListsMore(cfg, rs, picks, commands, pick, segment);
  }
}
