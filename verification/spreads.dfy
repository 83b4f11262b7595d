/** Which hosts a spread applies to, and the annotations that mark what was started for it. */
module Spreads {
  import opened Wrappers
  import opened LatticeState
  import opened Commands

  const U32: nat := 0x1_0000_0000

  datatype Spread = Spread(name: string, requirements: map<string, string>, weight: Option<nat>)

  /** One spread with the number of instances it asks for. */
  type Requirement = (Spread, nat)

  function SpreadsOf(rs: seq<Requirement>): seq<Spread> {
    seq(|rs|, i requires 0 <= i < |rs| => rs[i].0)
  }

  datatype Status = Deployed | Reconciling | Failed

  predicate Fits(labels: map<string, string>, spread: Spread) {
    forall k :: k in spread.requirements ==> k in labels && labels[k] == spread.requirements[k]
  }

  predicate Eligible(hosts: map<Id, Host>, spread: Spread, h: Id) {
    h in hosts && Fits(hosts[h].labels, spread)
  }

  function EligibleHosts(hosts: map<Id, Host>, spread: Spread): set<Id> {
    set h | h in hosts && Fits(hosts[h].labels, spread)
  }

  /** The hosts that fit no spread. */
  function IneligibleHosts(hosts: map<Id, Host>, spreads: seq<Spread>): set<Id> {
    set h | h in hosts && forall i :: 0 <= i < |spreads| ==> !Fits(hosts[h].labels, spreads[i])
  }

  function SpreadAnnotations(spreadName: string, scalerId: string): Annotations {
    map[SCALER_KEY := scalerId, SPREAD_KEY := spreadName]
  }

  /** Every wanted annotation is there, with its value. */
  predicate Carries(a: Annotations, wanted: Annotations) {
    forall k :: k in wanted ==> k in a && a[k] == wanted[k]
  }

  lemma DistinctKeys()
    ensures SCALER_KEY != SPREAD_KEY && SCALER_KEY != MANAGED_BY_ANNOTATION && SCALER_KEY != APP_SPEC_ANNOTATION
    ensures SPREAD_KEY != MANAGED_BY_ANNOTATION && SPREAD_KEY != APP_SPEC_ANNOTATION
  {
    assert |SCALER_KEY| == 20 && |SPREAD_KEY| == 25 && |MANAGED_BY_ANNOTATION| == 24 && |APP_SPEC_ANNOTATION| == 21;
  }

  /** What was started for one spread of a scaler counts for the spreads of that name and no others. */
  lemma ManagedCarries(s: string, t: string, id: string, model: string)
    ensures Carries(Managed(SpreadAnnotations(s, id), model), SpreadAnnotations(t, id)) <==> s == t
    ensures !Carries(Managed(map[], model), SpreadAnnotations(t, id))
  {
    DistinctKeys();
    var a := Managed(SpreadAnnotations(s, id), model);
    assert a[SCALER_KEY] == id && a[SPREAD_KEY] == s;
    assert SPREAD_KEY in SpreadAnnotations(t, id) && SpreadAnnotations(t, id)[SPREAD_KEY] == t;
  }

  /** Every element once, in some order: the order in which a hash map is walked is arbitrary. */
  ghost predicate IsWalk(order: seq<Id>, s: set<Id>) {
    |order| == |s| && forall x :: x in order <==> x in s
  }

  method Walk(s: set<Id>) returns (order: seq<Id>)
    ensures IsWalk(order, s)
  {
    order := [];
    var todo := s;
    while todo != {}
      invariant todo <= s && |order| == |s| - |todo|
      invariant forall x :: x in order <==> x in s && x !in todo
    {
      var x :| x in todo;
      order := order + [x];
      todo := todo - {x};
    }
  }
}
