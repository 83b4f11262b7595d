/** Several wadm processes run a copy of one wrapper and tell each other which expected events arrived. */
module PeerNotices {
  import opened Wrappers
  import opened Events
  import opened BackoffWrappers
  import opened BackoffAnswers

  /** A removal notice on its way to one peer. */
  datatype Delivery = Delivery(peer: nat, event: Event)

  datatype Network = Network(peers: seq<Wrapper>, pending: seq<Delivery>)

  /** Deliver hands the k-th pending notice to its peer; the others are a peer's timers. */
  datatype NetMove = Deliver(k: nat, now: int, published: bool) | ClearEvents(peer: nat) | ClearStatus(peer: nat)

  /** Every process reads the notification stream, the publisher included. */
  function Broadcast(n: nat, notices: seq<Notice>): seq<Delivery> {
    if notices == [] || notices[0].RegisterExpected? then []
    else seq(n, i requires 0 <= i < n => Delivery(i, notices[0].event))
  }

  /** The wrapped, config and secret scalers have nothing to do. */
  function NoCommands(published: bool): Answer {
    Answer([], [], false, Some([]), published)
  }

  function Delivered(net: Network, cleanup: nat, m: NetMove): Outcome
    requires m.Deliver? && m.k < |net.pending| && net.pending[m.k].peer < |net.peers|
  {
    var d := net.pending[m.k];
    HandleEvent(net.peers[d.peer], m.now, cleanup, d.event, NoCommands(m.published))
  }

  predicate IsDelivery(net: Network, m: NetMove) {
    m.Deliver? && m.k < |net.pending| && net.pending[m.k].peer < |net.peers|
  }

  function NetNext(net: Network, cleanup: nat, m: NetMove): (r: Network)
    ensures |r.peers| == |net.peers|
  {
    match m
    case Deliver(k, _, _) =>
      if !IsDelivery(net, m) then net
      else
        var o := Delivered(net, cleanup, m);
        Network(net.peers[net.pending[k].peer := o.wrapper],
                net.pending[..k] + net.pending[k + 1..] + Broadcast(|net.peers|, o.notices))
    case ClearEvents(p) =>
      if p < |net.peers| then net.(peers := net.peers[p := net.peers[p].(expected := [], eventTimer := None)]) else net
    case ClearStatus(p) =>
      if p < |net.peers| then net.(peers := net.peers[p := net.peers[p].(backoff := None, statusTimer := None)]) else net
  }

  function NetRun(net: Network, cleanup: nat, moves: seq<NetMove>): (r: Network)
    ensures |r.peers| == |net.peers|
  {
    if moves == [] then net else NetNext(NetRun(net, cleanup, moves[..|moves| - 1]), cleanup, moves[|moves| - 1])
  }

  function TotalExpected(peers: seq<Wrapper>): nat {
    if peers == [] then 0 else TotalExpected(peers[..|peers| - 1]) + |peers[|peers| - 1].expected|
  }

  lemma {:induction false} TotalUpdate(peers: seq<Wrapper>, p: nat, w: Wrapper)
    requires p < |peers|
    ensures TotalExpected(peers[p := w]) + |peers[p].expected| == TotalExpected(peers) + |w.expected|
  {
    var n := |peers| - 1;
    if p < n {
      assert peers[p := w][..n] == peers[..n][p := w];
      TotalUpdate(peers[..n], p, w);
    } else {
      assert peers[p := w][..n] == peers[..n];
    }
  }

  predicate Publishes(net: Network, cleanup: nat, m: NetMove) {
    IsDelivery(net, m) && Broadcast(|net.peers|, Delivered(net, cleanup, m).notices) != []
  }

  /** A delivery that publishes has strictly shortened its peer's list; nothing ever lengthens one. */
  lemma MoveShortens(net: Network, cleanup: nat, m: NetMove)
    ensures var net' := NetNext(net, cleanup, m);
      && TotalExpected(net'.peers) <= TotalExpected(net.peers)
      && (Publishes(net, cleanup, m) ==> TotalExpected(net'.peers) < TotalExpected(net.peers))
      && |net'.pending| == |net.pending| - (if IsDelivery(net, m) then 1 else 0)
                           + (if Publishes(net, cleanup, m) then |net.peers| else 0)
  {
    match m
    case Deliver(k, now, _) =>
      if IsDelivery(net, m) {
        var d := net.pending[k];
        var w := net.peers[d.peer];
        UnansweredKeeps(w.expected, d.event, Commands.Expected(d.event, None));
        TotalUpdate(net.peers, d.peer, Delivered(net, cleanup, m).wrapper);
      }
    case ClearEvents(p) =>
      if p < |net.peers| { TotalUpdate(net.peers, p, net.peers[p].(expected := [], eventTimer := None)); }
    case ClearStatus(p) =>
      if p < |net.peers| { TotalUpdate(net.peers, p, net.peers[p].(backoff := None, statusTimer := None)); }
  }

  /** The peer that a notice is delivered to expects its event, and can publish. */
  ghost predicate PassesOn(net: Network, m: NetMove)
    requires IsDelivery(net, m)
  {
    m.published && Expects(net.peers[net.pending[m.k].peer], net.pending[m.k].event)
  }

  lemma DeliveredNotices(net: Network, cleanup: nat, m: NetMove)
    requires IsDelivery(net, m)
    ensures Delivered(net, cleanup, m).notices == if PassesOn(net, m) then [RemoveExpected(net.pending[m.k].event)] else []
  {
    var e, w := net.pending[m.k].event, net.peers[net.pending[m.k].peer];
    if Expects(w, e) {
      ExpectedEvent(Clocked(w, m.now), cleanup, e, NoCommands(m.published));
    } else {
      NothingExpected(w, e);
    }
  }

  /** A delivered notice is gone, and one that its peer expected is on its way to every peer, once. */
  lemma DeliveryIsPassedOn(net: Network, cleanup: nat, m: NetMove)
    requires IsDelivery(net, m)
    ensures var after, rest := NetNext(net, cleanup, m), net.pending[..m.k] + net.pending[m.k + 1..];
      && (forall q :: 0 <= q < |net.peers| && q != net.pending[m.k].peer ==> after.peers[q] == net.peers[q])
      && after.pending ==
           rest + if PassesOn(net, m) then seq(|net.peers|, q requires 0 <= q < |net.peers| => Delivery(q, net.pending[m.k].event)) else []
  {
    DeliveredNotices(net, cleanup, m);
  }

  /** A peer's timers clear its list and its backoff, and leave everything else. */
  lemma TimersClear(net: Network, cleanup: nat, p: nat)
    requires p < |net.peers|
    ensures NetNext(net, cleanup, ClearEvents(p)) == net.(peers := net.peers[p := net.peers[p].(expected := [], eventTimer := None)])
    ensures NetNext(net, cleanup, ClearStatus(p)) == net.(peers := net.peers[p := net.peers[p].(backoff := None, statusTimer := None)])
  {}

  /** The moves are made one after another. */
  lemma MovesFollow(net: Network, cleanup: nat, moves: seq<NetMove>, m: NetMove)
    ensures NetRun(net, cleanup, []) == net && NetRun(net, cleanup, moves + [m]) == NetNext(NetRun(net, cleanup, moves), cleanup, m)
  {
    assert (moves + [m])[..|moves|] == moves;
  }

  function Deliveries(net: Network, cleanup: nat, moves: seq<NetMove>): nat {
    if moves == [] then 0
    else
      var front := moves[..|moves| - 1];
      Deliveries(net, cleanup, front)
      + (if IsDelivery(NetRun(net, cleanup, front), moves[|moves| - 1]) then 1 else 0)
  }

  function Publications(net: Network, cleanup: nat, moves: seq<NetMove>): nat {
    if moves == [] then 0
    else
      var front := moves[..|moves| - 1];
      Publications(net, cleanup, front)
      + (if Publishes(NetRun(net, cleanup, front), cleanup, moves[|moves| - 1]) then 1 else 0)
  }

  /** n * k */
  function Times(n: nat, k: nat): nat {
    if k == 0 then 0 else Times(n, k - 1) + n
  }

  lemma {:induction false} TimesBound(n: nat, k: nat, m: nat)
    requires k <= m
    ensures Times(n, k) == n * k <= n * m
  {
    if k > 0 { TimesBound(n, k - 1, m); }
  }

  /** Every cascade ends: publications are bounded by the total length of the expected lists, and
      deliveries by the notices already on their way plus one round for each publication. */
  lemma {:induction false} NoticesDieOut(net: Network, cleanup: nat, moves: seq<NetMove>)
    ensures var net' := NetRun(net, cleanup, moves);
      var published := Publications(net, cleanup, moves);
      && published + TotalExpected(net'.peers) <= TotalExpected(net.peers)
      && Deliveries(net, cleanup, moves) + |net'.pending| == |net.pending| + Times(|net.peers|, published)
  {
    if moves != [] {
      var front, last := moves[..|moves| - 1], moves[|moves| - 1];
      var before, published := NetRun(net, cleanup, front), Publications(net, cleanup, front);
      NoticesDieOut(net, cleanup, front);
      MoveShortens(before, cleanup, last);
      assert |before.peers| == |net.peers| && NetRun(net, cleanup, moves) == NetNext(before, cleanup, last);
      if Publishes(before, cleanup, last) {
        assert Publications(net, cleanup, moves) == published + 1;
        assert Times(|net.peers|, published + 1) == Times(|net.peers|, published) + |net.peers|;
      } else {
        assert Publications(net, cleanup, moves) == published;
      }
    }
  }

  /** Hence no more than this many deliveries, however the notices are ordered. */
  lemma CascadeBound(net: Network, cleanup: nat, moves: seq<NetMove>)
    ensures Deliveries(net, cleanup, moves) <= |net.pending| + |net.peers| * TotalExpected(net.peers)
  {
    NoticesDieOut(net, cleanup, moves);
    TimesBound(|net.peers|, Publications(net, cleanup, moves), TotalExpected(net.peers));
  }
}
