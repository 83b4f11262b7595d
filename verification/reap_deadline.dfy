/** When a silent host is removed, and why a host that keeps reporting is not. */
module ReapDeadline {
  import opened LatticeState
  import opened LatticeSpec
  import opened LatticeInvariants

  predicate Reports(a: Action, h: Id) {
    h in Reporters(a)
  }

  predicate Stops(a: Action, h: Id) {
    a.Handle? && a.event.HostStopped? && a.event.hostId == h
  }

  /** An action that neither refreshes nor removes the record of h keeps when it was last seen. */
  lemma QuietAction(l: Lattice, a: Action, h: Id)
    requires KeyedById(l) && a.Handle? && !Reports(a, h) && !Stops(a, h)
    ensures h in Act(l, a).hosts <==> h in l.hosts
    ensures h in l.hosts ==> Act(l, a).hosts[h].lastSeen == l.hosts[h].lastSeen
  {
    match a.event
    case HostHeartbeat(_, _, _, _, _, _, _) =>
      assert Act(l, a) == AfterHeartbeat(l, a.event, a.now, a.claims);
    case HostStopped(_, _) =>
      assert Act(l, a).hosts == HostStopWrites(l, a.event.hostId, 5).hosts;
    case _ =>
  }

  lemma KeepsKeyed(l: Lattice, a: Action)
    requires KeyedById(l)
    ensures KeyedById(Act(l, a))
  {
    ActKeepsLists(l, a, {});
  }

  function Ticks(actions: seq<Action>): nat {
    if actions == [] then 0
    else Ticks(actions[..|actions| - 1]) + (if actions[|actions| - 1].Reap? then 1 else 0)
  }

  /** The reaper ticks at start and then every d. */
  function TickTime(start: int, d: int, n: nat): int {
    if n == 0 then start else TickTime(start, d, n - 1) + d
  }

  lemma {:induction false} TicksIncrease(start: int, d: int, m: nat, n: nat)
    requires d > 0 && m < n
    ensures TickTime(start, d, m) < TickTime(start, d, n)
    decreases n
  {
    if m < n - 1 { TicksIncrease(start, d, m, n - 1); }
  }

  /** The n-th reap pass of the run, counted from 0, happens at tick n. */
  ghost predicate OnSchedule(actions: seq<Action>, start: int, d: int) {
    forall i :: 0 <= i < |actions| && actions[i].Reap? ==>
      actions[i] == Reap(TickTime(start, d, Ticks(actions[..i])), d)
  }

  ghost predicate Silent(actions: seq<Action>, h: Id) {
    forall i :: 0 <= i < |actions| ==> !Reports(actions[i], h) && !Stops(actions[i], h)
  }

  lemma OnScheduleFront(actions: seq<Action>, start: int, d: int)
    requires actions != [] && OnSchedule(actions, start, d)
    ensures OnSchedule(actions[..|actions| - 1], start, d)
  {
    var front := actions[..|actions| - 1];
    forall i | 0 <= i < |front| && front[i].Reap? ensures front[i] == Reap(TickTime(start, d, Ticks(front[..i])), d) {
      assert front[..i] == actions[..i];
    }
  }

  lemma ReapAt(l: Lattice, now: int, d: int, h: Id)
    ensures h in Act(l, Reap(now, d)).hosts <==> h in l.hosts && now <= l.hosts[h].lastSeen + 2 * d
    ensures h in Act(l, Reap(now, d)).hosts ==> Act(l, Reap(now, d)).hosts[h] == l.hosts[h]
  {
  }

  /** A silent host is stored exactly while the latest tick is at most two intervals after it was seen. */
  lemma {:induction false} SilentUntil(l: Lattice, actions: seq<Action>, h: Id, start: int, d: int)
    requires KeyedById(l) && h in l.hosts && d > 0
    requires Silent(actions, h) && OnSchedule(actions, start, d)
    ensures h in Run(l, actions).hosts <==>
            Ticks(actions) == 0 || TickTime(start, d, Ticks(actions) - 1) <= l.hosts[h].lastSeen + 2 * d
    ensures KeyedById(Run(l, actions))
    ensures h in Run(l, actions).hosts ==> Run(l, actions).hosts[h].lastSeen == l.hosts[h].lastSeen
  {
    if actions != [] {
      var n := |actions| - 1;
      var before, last := Run(l, actions[..n]), actions[n];
      OnScheduleFront(actions, start, d);
      SilentUntil(l, actions[..n], h, start, d);
      KeepsKeyed(before, last);
      if last.Handle? {
        QuietAction(before, last, h);
      } else {
        ReapAt(before, last.now, d, h);
        if Ticks(actions[..n]) > 0 { TicksIncrease(start, d, Ticks(actions[..n]) - 1, Ticks(actions[..n])); }
      }
    }
  }

  /** The first tick more than two intervals after t comes at most three intervals after t. */
  lemma DeadlineTick(start: int, t: int, d: int) returns (k: nat)
    requires d > 0 && start <= t + 3 * d
    ensures t + 2 * d < TickTime(start, d, k) <= t + 3 * d
  {
    k := 0;
    while TickTime(start, d, k) <= t + 2 * d
      invariant TickTime(start, d, k) <= t + 3 * d
      decreases t + 2 * d - TickTime(start, d, k)
    {
      k := k + 1;
    }
  }

  /** One tick in (t+2d, t+3d] removes a host last seen at t and silent since: the host is stored
      exactly while at most k ticks have run, k being the number of that tick. */
  lemma RemovedInWindow(l: Lattice, h: Id, start: int, d: int) returns (k: nat)
    requires KeyedById(l) && h in l.hosts && d > 0 && start <= l.hosts[h].lastSeen + 3 * d
    ensures l.hosts[h].lastSeen + 2 * d < TickTime(start, d, k) <= l.hosts[h].lastSeen + 3 * d
    ensures forall actions :: Silent(actions, h) && OnSchedule(actions, start, d) ==>
              (h in Run(l, actions).hosts <==> Ticks(actions) <= k)
  {
    k := DeadlineTick(start, l.hosts[h].lastSeen, d);
    forall actions | Silent(actions, h) && OnSchedule(actions, start, d)
      ensures h in Run(l, actions).hosts <==> Ticks(actions) <= k
    {
      var n := Ticks(actions);
      SilentUntil(l, actions, h, start, d);
      if n > k + 1 { TicksIncrease(start, d, k, n - 1); }
      if 0 < n <= k {
        assert TickTime(start, d, n) == TickTime(start, d, n - 1) + d;
        if n < k { TicksIncrease(start, d, n, k); }
      }
    }
  }

  // ---------- a host that keeps reporting ----------

  /** When h last reported during the run, or t before its first report. */
  function LastReport(actions: seq<Action>, h: Id, t: int): int {
    if actions == [] then t
    else if Reports(actions[|actions| - 1], h) then actions[|actions| - 1].now
    else LastReport(actions[..|actions| - 1], h, t)
  }

  /** Time does not go back, h never stops, each report comes at most gap after the one before, and the
      run ends at most gap after the last. */
  ghost predicate KeepsReporting(actions: seq<Action>, h: Id, t: int, gap: int) {
    && (forall i, j :: 0 <= i < j < |actions| ==> actions[i].now <= actions[j].now)
    && (forall i :: 0 <= i < |actions| ==> !Stops(actions[i], h))
    && (forall i :: 0 <= i < |actions| && Reports(actions[i], h) ==>
          actions[i].now <= LastReport(actions[..i], h, t) + gap)
    && (forall i :: 0 <= i < |actions| ==> actions[i].now <= LastReport(actions, h, t) + gap)
  }

  lemma KeepsReportingFront(actions: seq<Action>, h: Id, t: int, gap: int)
    requires actions != [] && KeepsReporting(actions, h, t, gap)
    ensures KeepsReporting(actions[..|actions| - 1], h, t, gap)
  {
    var n := |actions| - 1;
    var front := actions[..n];
    forall i | 0 <= i < n && Reports(front[i], h) ensures front[i].now <= LastReport(front[..i], h, t) + gap {
      assert front[..i] == actions[..i];
    }
    forall i | 0 <= i < n ensures front[i].now <= LastReport(front, h, t) + gap {
      if Reports(actions[n], h) { assert actions[i].now <= actions[n].now; }
    }
  }

  /** A host refreshed at gaps of at most two intervals is never removed. */
  lemma {:induction false} NeverRemoved(l: Lattice, actions: seq<Action>, h: Id, d: int)
    requires KeyedById(l) && h in l.hosts
    requires KeepsReporting(actions, h, l.hosts[h].lastSeen, 2 * d)
    requires forall i :: 0 <= i < |actions| && actions[i].Reap? ==> actions[i].interval == d
    ensures KeyedById(Run(l, actions)) && h in Run(l, actions).hosts
    ensures Run(l, actions).hosts[h].lastSeen == LastReport(actions, h, l.hosts[h].lastSeen)
  {
    if actions != [] {
      var front, last := actions[..|actions| - 1], actions[|actions| - 1];
      KeepsReportingFront(actions, h, l.hosts[h].lastSeen, 2 * d);
      NeverRemoved(l, front, h, d);
      KeepsKeyed(Run(l, front), last);
      if last.Handle? && !Reports(last, h) { QuietAction(Run(l, front), last, h); }
    }
  }
}
