/** How many instances each spread of a scaler gets. */
module ComputeSpread {
  import opened Wrappers
  import opened Spreads

  const DEFAULT_SPREAD_WEIGHT: nat := 100
  const DEFAULT_SPREAD := Spread("default", map[], None)

  function Weight(s: Spread): nat { s.weight.GetOr(DEFAULT_SPREAD_WEIGHT) }

  function TotalWeight(spreads: seq<Spread>): nat {
    if spreads == [] then 0 else TotalWeight(spreads[..|spreads| - 1]) + Weight(spreads[|spreads| - 1])
  }

  function TotalCount(rs: seq<Requirement>): nat {
    if rs == [] then 0 else TotalCount(rs[..|rs| - 1]) + rs[|rs| - 1].1
  }

  lemma {:induction false} NoneOfEach(rs: seq<Requirement>)
    requires TotalCount(rs) == 0
    ensures forall i :: 0 <= i < |rs| ==> rs[i].1 == 0
  {
    if rs != [] { NoneOfEach(rs[..|rs| - 1]); }
  }

  // ---------- heaviest first ----------

  /** Puts s after everything that is at least as heavy. */
  function Insert(sorted: seq<Spread>, s: Spread): seq<Spread> {
    if sorted == [] then [s]
    else if Weight(sorted[0]) >= Weight(s) then [sorted[0]] + Insert(sorted[1..], s)
    else [s] + sorted
  }

  /** The library's stable sort by descending weight. */
  function ByWeight(spreads: seq<Spread>): seq<Spread> {
    if spreads == [] then [] else Insert(ByWeight(spreads[..|spreads| - 1]), spreads[|spreads| - 1])
  }

  /** The spreads in the order of the counts; without any there is one that fits every host. */
  function Ordered(spreads: seq<Spread>): seq<Spread> {
    if spreads == [] then [DEFAULT_SPREAD] else ByWeight(spreads)
  }

  ghost predicate Descending(s: seq<Spread>) {
    forall i, j :: 0 <= i < j < |s| ==> Weight(s[i]) >= Weight(s[j])
  }

  function OfWeight(s: seq<Spread>, w: nat): seq<Spread> {
    if s == [] then [] else (if Weight(s[0]) == w then [s[0]] else []) + OfWeight(s[1..], w)
  }

  lemma {:induction false} OfWeightAppend(a: seq<Spread>, b: seq<Spread>, w: nat)
    ensures OfWeight(a + b, w) == OfWeight(a, w) + OfWeight(b, w)
  {
    if a == [] {
      assert a + b == b;
    } else {
      OfWeightAppend(a[1..], b, w);
      var first := if Weight(a[0]) == w then [a[0]] else [];
      assert (a + b)[0] == a[0] && (a + b)[1..] == a[1..] + b;
      assert OfWeight(a + b, w) == first + OfWeight(a[1..] + b, w);
      assert first + (OfWeight(a[1..], w) + OfWeight(b, w)) == (first + OfWeight(a[1..], w)) + OfWeight(b, w);
    }
  }

  lemma {:induction false} NoneOfWeight(s: seq<Spread>, w: nat)
    requires forall i :: 0 <= i < |s| ==> Weight(s[i]) != w
    ensures OfWeight(s, w) == []
  {
    if s != [] { NoneOfWeight(s[1..], w); }
  }

  lemma {:induction false} InsertAdds(sorted: seq<Spread>, s: Spread)
    ensures multiset(Insert(sorted, s)) == multiset(sorted) + multiset{s}
  {
    if sorted != [] {
      assert sorted == [sorted[0]] + sorted[1..];
      InsertAdds(sorted[1..], s);
    }
  }

  lemma {:induction false} InsertSorts(sorted: seq<Spread>, s: Spread)
    requires Descending(sorted)
    ensures Descending(Insert(sorted, s))
  {
    if sorted != [] && Weight(sorted[0]) >= Weight(s) {
      InsertSorts(sorted[1..], s);
      InsertAdds(sorted[1..], s);
      var r := Insert(sorted[1..], s);
      forall j | 0 <= j < |r| ensures Weight(sorted[0]) >= Weight(r[j]) {
        assert r[j] in multiset(r);
      }
    }
  }

  lemma {:induction false} InsertIsStable(sorted: seq<Spread>, s: Spread, w: nat)
    requires Descending(sorted)
    ensures OfWeight(Insert(sorted, s), w) == OfWeight(sorted + [s], w)
  {
    OfWeightAppend(sorted, [s], w);
    if sorted != [] {
      if Weight(sorted[0]) >= Weight(s) {
        InsertIsStable(sorted[1..], s, w);
        OfWeightAppend(sorted[1..], [s], w);
        assert ([sorted[0]] + Insert(sorted[1..], s))[1..] == Insert(sorted[1..], s);
      } else {
        assert ([s] + sorted)[1..] == sorted;
        if w == Weight(s) { NoneOfWeight(sorted, w); }
      }
    }
  }

  /** The same spreads, heaviest first, those of one weight in their given order. */
  lemma {:induction false} ByWeightSorts(spreads: seq<Spread>)
    ensures Descending(ByWeight(spreads))
    ensures multiset(ByWeight(spreads)) == multiset(spreads)
    ensures forall w :: OfWeight(ByWeight(spreads), w) == OfWeight(spreads, w)
  {
    if spreads != [] {
      var front, s := spreads[..|spreads| - 1], spreads[|spreads| - 1];
      assert spreads == front + [s];
      ByWeightSorts(front);
      InsertSorts(ByWeight(front), s);
      InsertAdds(ByWeight(front), s);
      forall w ensures OfWeight(ByWeight(spreads), w) == OfWeight(spreads, w) {
        InsertIsStable(ByWeight(front), s, w);
        OfWeightAppend(ByWeight(front), [s], w);
        OfWeightAppend(front, [s], w);
      }
    }
  }

  /** Without spreads there is one that fits every host, and otherwise just these, the heaviest first. */
  lemma OrderedSorts(spreads: seq<Spread>)
    ensures spreads == [] ==> Ordered(spreads) == [Spread("default", map[], None)]
    ensures spreads != [] ==> multiset(Ordered(spreads)) == multiset(spreads) && Descending(Ordered(spreads))
  {
    ByWeightSorts(spreads);
  }

  // ---------- shares ----------

  function Share(instances: nat, s: Spread, total: nat): nat
    requires total > 0
  {
    (instances * Weight(s)) / total
  }

  /** The first shares, rounded down. */
  function Shares(instances: nat, spreads: seq<Spread>, total: nat): seq<Requirement>
    requires total > 0
  {
    seq(|spreads|, i requires 0 <= i < |spreads| => (spreads[i], Share(instances, spreads[i], total)))
  }

  /** A share times the total weight, and what rounding took away. */
  lemma ShareParts(instances: nat, s: Spread, total: nat) returns (m: nat)
    requires total > 0
    ensures instances * Weight(s) == total * Share(instances, s, total) + m && m <= total - 1
  {
    m := (instances * Weight(s)) % total;
  }

  lemma SumOfParts(n: nat, tw: nat, w: nat, total: nat, sum: nat, q: nat, before: nat, m: nat)
    requires n * tw == total * sum + before && n * w == total * q + m
    ensures n * (tw + w) == total * (sum + q) + (before + m)
  {
    assert n * (tw + w) == n * tw + n * w;
    assert total * (sum + q) == total * sum + total * q;
  }

  lemma OneMore(k: nat, b: nat)
    ensures (k + 1) * b == k * b + b
  {}

  lemma SharesSnoc(instances: nat, spreads: seq<Spread>, s: Spread, total: nat)
    requires total > 0
    ensures TotalCount(Shares(instances, spreads + [s], total)) ==
            TotalCount(Shares(instances, spreads, total)) + Share(instances, s, total)
    ensures TotalWeight(spreads + [s]) == TotalWeight(spreads) + Weight(s)
  {
    var all := Shares(instances, spreads + [s], total);
    assert all[..|all| - 1] == Shares(instances, spreads, total);
    assert (spreads + [s])[..|spreads|] == spreads;
  }

  /** lost is what rounding took away from the spreads together. */
  ghost predicate ShortBy(instances: nat, spreads: seq<Spread>, total: nat, lost: nat)
    requires total > 0
  {
    && instances * TotalWeight(spreads) == total * TotalCount(Shares(instances, spreads, total)) + lost
    && lost <= |spreads| * (total - 1)
  }

  lemma ShortByOneMore(instances: nat, spreads: seq<Spread>, s: Spread, total: nat, before: nat, m: nat)
    requires total > 0 && ShortBy(instances, spreads, total, before)
    requires instances * Weight(s) == total * Share(instances, s, total) + m && m <= total - 1
    ensures ShortBy(instances, spreads + [s], total, before + m)
  {
    SharesSnoc(instances, spreads, s, total);
    var tw, w, sum, q := TotalWeight(spreads), Weight(s), TotalCount(Shares(instances, spreads, total)), Share(instances, s, total);
    SumOfParts(instances, tw, w, total, sum, q, before, m);
    OneMore(|spreads|, total - 1);
  }

  /** Together the shares fall short by less than one for each spread. */
  lemma {:induction false} SharesFallShort(instances: nat, spreads: seq<Spread>, total: nat) returns (lost: nat)
    requires total > 0
    ensures ShortBy(instances, spreads, total, lost)
  {
    lost := 0;
    if spreads != [] {
      var front, s := spreads[..|spreads| - 1], spreads[|spreads| - 1];
      assert spreads == front + [s];
      var before := SharesFallShort(instances, front, total);
      var m := ShareParts(instances, s, total);
      ShortByOneMore(instances, front, s, total, before, m);
      lost := before + m;
    }
  }

  lemma Bounded(total: nat, n: nat, sum: nat, lost: nat, k: nat)
    requires total > 0 && k > 0 && n * total == total * sum + lost && lost <= k * (total - 1)
    ensures sum <= n < sum + k
  {
    var d := n - sum;
    assert n * total == total * n && total * n - total * sum == total * d;
    assert total * d == lost;
    assert total * k == k * (total - 1) + k;
    assert total * d < total * k;
  }

  /** What rounding took away is less than the number of spreads, so one more for each of the first is enough. */
  lemma RemainderFits(instances: nat, spreads: seq<Spread>)
    requires TotalWeight(spreads) > 0 && spreads != []
    ensures var sum := TotalCount(Shares(instances, spreads, TotalWeight(spreads)));
            sum <= instances < sum + |spreads|
  {
    var total := TotalWeight(spreads);
    var lost := SharesFallShort(instances, spreads, total);
    Bounded(total, instances, TotalCount(Shares(instances, spreads, total)), lost, |spreads|);
  }

  /** One more for each of the first n. */
  function Topped(rs: seq<Requirement>, n: nat): seq<Requirement> {
    seq(|rs|, i requires 0 <= i < |rs| => (rs[i].0, rs[i].1 + if i < n then 1 else 0))
  }

  lemma {:induction false} ToppedTotal(rs: seq<Requirement>, n: nat)
    ensures TotalCount(Topped(rs, n)) == TotalCount(rs) + if n < |rs| then n else |rs|
  {
    if rs != [] {
      var front := rs[..|rs| - 1];
      ToppedTotal(front, n);
      assert Topped(rs, n)[..|rs| - 1] == Topped(front, n);
    }
  }

  lemma {:induction false} InsertWeight(sorted: seq<Spread>, s: Spread)
    ensures TotalWeight(Insert(sorted, s)) == TotalWeight(sorted) + Weight(s)
    ensures |Insert(sorted, s)| == |sorted| + 1
  {
    TotalWeightAppend([s], sorted);
    assert TotalWeight([s]) == Weight(s) by { assert [s][..0] == []; }
    if sorted != [] && Weight(sorted[0]) >= Weight(s) {
      InsertWeight(sorted[1..], s);
      assert sorted == [sorted[0]] + sorted[1..];
      TotalWeightAppend([sorted[0]], sorted[1..]);
      TotalWeightAppend([sorted[0]], Insert(sorted[1..], s));
    }
  }

  lemma {:induction false} ByWeightTotal(spreads: seq<Spread>)
    ensures TotalWeight(ByWeight(spreads)) == TotalWeight(spreads)
    ensures |ByWeight(spreads)| == |spreads|
  {
    if spreads != [] {
      ByWeightTotal(spreads[..|spreads| - 1]);
      InsertWeight(ByWeight(spreads[..|spreads| - 1]), spreads[|spreads| - 1]);
    }
  }

  lemma {:induction false} TotalWeightAppend(a: seq<Spread>, b: seq<Spread>)
    ensures TotalWeight(a + b) == TotalWeight(a) + TotalWeight(b)
  {
    if b == [] {
      assert a + b == a;
    } else {
      assert (a + b)[..|a + b| - 1] == a + b[..|b| - 1];
      TotalWeightAppend(a, b[..|b| - 1]);
    }
  }

  /** The part of the instances that a spread's weight, 100 if none is given, is of the total, rounded down. */
  function RoundedDown(instances: nat, total: nat, s: Spread): nat
    requires total > 0
  {
    (instances * (if s.weight.Some? then s.weight.value else 100)) / total
  }

  /** The requirement for one spread is its share rounded down, or one more. */
  ghost predicate Fair(instances: nat, total: nat, r: Requirement)
    requires total > 0
  {
    RoundedDown(instances, total, r.0) <= r.1 <= RoundedDown(instances, total, r.0) + 1
  }

  predicate Extra(instances: nat, total: nat, r: Requirement)
    requires total > 0
  {
    r.1 > RoundedDown(instances, total, r.0)
  }

  /** Adds one to each count until nothing is left over. */
  method TopUp(computed: seq<Requirement>, left: nat) returns (topped: seq<Requirement>)
    ensures topped == Topped(computed, left)
  {
    topped := [];
    var diff := left;
    for i := 0 to |computed|
      invariant |topped| == i && diff == if i < left then left - i else 0
      invariant forall j :: 0 <= j < i ==> topped[j] == Topped(computed, left)[j]
    {
      var additional := 0;
      if diff > 0 {
        diff := diff - 1;
        additional := 1;
      }
      topped := topped + [(computed[i].0, computed[i].1 + additional)];
    }
  }

  /** None is a division by zero: there are spreads and all weigh nothing. Otherwise every instance is given to
      some spread, heaviest first, and no spread is off its share by more than one. */
  method Compute(instances: nat, spreads: seq<Spread>) returns (r: Option<seq<Requirement>>)
    ensures r.None? <==> spreads != [] && TotalWeight(spreads) == 0
    ensures r.Some? ==> TotalCount(r.value) == instances
    ensures r.Some? ==> SpreadsOf(r.value) == Ordered(spreads)
    ensures spreads == [] ==> r == Some([(Spread("default", map[], None), instances)])
    ensures r.Some? && spreads != [] ==> forall i :: 0 <= i < |r.value| ==> Fair(instances, TotalWeight(spreads), r.value[i])
    ensures r.Some? && spreads != [] ==>
              forall i, j :: 0 <= i < j < |r.value| && Extra(instances, TotalWeight(spreads), r.value[j]) ==>
                Extra(instances, TotalWeight(spreads), r.value[i])
  {
    var requested := ByWeight(spreads);
    ByWeightTotal(spreads);
    var total := TotalWeight(requested);
    if requested == [] {
      assert [(DEFAULT_SPREAD, instances)][..0] == [];
      return Some([(DEFAULT_SPREAD, instances)]);
    }
    if total == 0 { return None; }
    var computed := Shares(instances, requested, total);
    RemainderFits(instances, requested);
    var left := instances - TotalCount(computed);
    ToppedTotal(computed, left);
    var topped := TopUp(computed, left);
    return Some(topped);
  }
}
