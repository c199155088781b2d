/**
 What a settled network of these bridges looks like.

 A network is settled when no bridge's role selection would change anything,
 no designated port's BPDU would change what its neighbour knows, and
 everything a port has received is what its neighbour sends now (otherwise it
 would age out). From that alone: the bridges agree on the smallest bridge id
 as the root, every root path cost is that of a cheapest walk to it, every
 link has exactly one designated end, and the links that forward form a
 spanning tree.
 */
module RstpNetwork {
  import opened RstpVector
  import opened RstpState
  import opened RstpGraph

  /** Bridges, and the point-to-point links between their ports. */
  datatype Network = Network(bridges: seq<Bridge>, peer: map<End, End>)

  predicate IsEnd(net: Network, e: End) {
    e.b < |net.bridges| && e.k < |net.bridges[e.b].ports|
  }

  function PortAt(net: Network, e: End): Port
    requires IsEnd(net, e)
  {
    net.bridges[e.b].ports[e.k]
  }

  /** Links join two live ends, both ways. */
  ghost predicate Cabled(net: Network) {
    forall e {:trigger net.peer[e]} :: e in net.peer ==>
      IsEnd(net, e) && PortAt(net, e).enabled && net.peer[e] != e &&
      net.peer[e] in net.peer && net.peer[net.peer[e]] == e
  }

  /** Distinct port ids on a bridge; on every link positive costs, and no port
      under root guard. Slots with no link are free: a bridge's table has many,
      with no cost. */
  ghost predicate Configured(net: Network) {
    && (forall b, i, j :: 0 <= b < |net.bridges| && 0 <= i < j < |net.bridges[b].ports| ==>
          net.bridges[b].ports[i].id != net.bridges[b].ports[j].id)
    && (forall e :: e in net.peer ==> IsEnd(net, e) && PortAt(net, e).cost > 0 && !PortAt(net, e).rootGuard)
  }

  function Ids(bs: seq<Bridge>): seq<nat> {
    seq(|bs|, b requires 0 <= b < |bs| => bs[b].id)
  }

  function Roots(bs: seq<Bridge>): seq<nat> {
    seq(|bs|, b requires 0 <= b < |bs| => bs[b].rootPv.root)
  }

  function RootCosts(bs: seq<Bridge>): seq<nat> {
    seq(|bs|, b requires 0 <= b < |bs| => bs[b].rootPv.cost)
  }

  function RootPorts(bs: seq<Bridge>): map<nat, End> {
    map b: nat | b < |bs| && bs[b].rootKey >= 0 :: End(b, bs[b].rootKey)
  }

  ghost function HopCosts(net: Network): map<End, nat> {
    map e | e in net.peer && IsEnd(net, e) :: PortAt(net, e).cost
  }

  /** The network's graph: its links, and what its bridges have settled on. */
  ghost function GraphOf(net: Network): Graph {
    Graph(Ids(net.bridges), net.peer, HopCosts(net), Roots(net.bridges), RootCosts(net.bridges), RootPorts(net.bridges))
  }

  // ----- settled -----

  /** The vector a designated port's BPDUs carry. */
  function Sends(net: Network, e: End): Vector
    requires IsEnd(net, e)
  {
    DesignatedVector(net.bridges[e.b].rootPv, net.bridges[e.b].id, PortAt(net, e))
  }

  /** Role selection leaves the roots, roles and vectors of a bridge alone. */
  ghost predicate Selected(b: Bridge) {
    var r := SelectRoles(b);
    r.rootPv == b.rootPv && r.rootKey == b.rootKey &&
    forall k :: 0 <= k < |b.ports| && b.ports[k].enabled ==>
      r.ports[k].role == b.ports[k].role && r.ports[k].info == b.ports[k].info &&
      r.ports[k].pv == b.ports[k].pv
  }

  ghost predicate SelectedAt(net: Network, b: nat)
    requires b < |net.bridges|
  {
    Selected(net.bridges[b])
  }

  /** What a designated neighbour sends changes nothing here. */
  ghost predicate Quiet(net: Network, e: End)
    requires Cabled(net) && e in net.peer
  {
    PortAt(net, net.peer[e]).role == RoleDesignated ==>
      !Supersedes(PortAt(net, e), Sends(net, net.peer[e]))
  }

  /** What was received here is what a designated neighbour still sends. */
  ghost predicate Fresh(net: Network, e: End)
    requires Cabled(net) && IsEnd(net, e)
  {
    PortAt(net, e).enabled && PortAt(net, e).info == InfoReceived ==>
      e in net.peer && PortAt(net, net.peer[e]).role == RoleDesignated &&
      PortAt(net, e).pv == Sends(net, net.peer[e])
  }

  ghost predicate Settled(net: Network)
    requires Cabled(net)
  {
    && (forall b {:trigger SelectedAt(net, b)} :: 0 <= b < |net.bridges| ==> SelectedAt(net, b))
    && (forall e {:trigger Quiet(net, e)} :: e in net.peer ==> Quiet(net, e))
    && (forall e {:trigger Fresh(net, e)} :: IsEnd(net, e) ==> Fresh(net, e))
  }

  /** Settled and live, with distinct ids and costs no simple walk can wrap. */
  ghost predicate StableNetwork(net: Network) {
    Cabled(net) && Configured(net) && Settled(net) &&
    DistinctIds(GraphOf(net)) && CostsBounded(GraphOf(net)) && Connected(GraphOf(net))
  }

  /** A designated BPDU that is not the port's own changes what the port knows
      exactly when its vector supersedes; so `Quiet` is about `Receive`. */
  lemma SupersedesIsChange(p: Port, id: nat, rootPv: Vector, now: int, helloMs: int)
    requires MsgClaim(p.msg) == ClaimDesignated && !(p.msg.vector.bridge == id && p.msg.vector.port == p.id)
    ensures var q := Told(p, Judge(p, id, rootPv), now, helloMs);
      Supersedes(p, p.msg.vector) <==> q.pv != p.pv || q.info != p.info
  {
  }

  // ----- role selection: the chosen vector is the least -----

  /** The choice is no worse than the bridge itself as root or any candidate,
      and is one of them. */
  lemma {:induction false} ChooseIsLeast(id: nat, ports: seq<Port>, n: nat)
    requires n <= |ports|
    ensures var c := Choose(id, ports, n);
      && !Less(SelfVector(id), c.best)
      && (forall k :: 0 <= k < n && Candidate(id, ports[k]) ==> !Less(RootVector(ports[k]), c.best))
      && (if c.key < 0 then c.best == SelfVector(id)
          else Candidate(id, ports[c.key]) && c.best == RootVector(ports[c.key]))
  {
    if n > 0 {
      ChooseIsLeast(id, ports, n - 1);
    }
  }

  /** A role assigned carries a vector with it: a designated port's own, or
      what the port already had. */
  lemma AssignRoleVector(p: Port, isRoot: bool, dv: Vector, rt: Times)
    ensures var a := AssignRole(p, isRoot, dv, rt);
      && a.role == RoleFor(p, isRoot, dv)
      && (a.role == RoleDesignated ==> a.info == InfoMine && a.pv == dv)
      && (a.role != RoleDesignated ==> a.info == p.info && a.pv == p.pv)
  {
  }

  /** Sync and the cleared agreement change neither role nor vector. */
  lemma SelectRolesVector(b: Bridge, k: nat)
    requires k < |b.ports|
    ensures var c := Choose(b.id, b.ports, |b.ports|);
      var dv := DesignatedVector(c.best, b.id, b.ports[k]);
      var r := SelectRoles(b).ports[k];
      && r.role == RoleFor(b.ports[k], k == c.key, dv)
      && (r.role == RoleDesignated ==> r.info == InfoMine && r.pv == dv)
      && (r.role != RoleDesignated ==> r.info == b.ports[k].info && r.pv == b.ports[k].pv)
  {
    var c := Choose(b.id, b.ports, |b.ports|);
    AssignRoleVector(b.ports[k], k == c.key, DesignatedVector(c.best, b.id, b.ports[k]), TimesFor(b, c.key));
  }

  /** A bridge whose selection is done: its root vector is the least it has. */
  ghost predicate BridgeDone(b: Bridge) {
    && -1 <= b.rootKey < |b.ports|
    && b.rootPv.cost < COST_RANGE
    && NoWorse(b.rootPv.root, b.rootPv.cost, b.id, 0)
    && (b.rootKey < 0 ==> b.rootPv == SelfVector(b.id))
    && (b.rootKey >= 0 ==> Candidate(b.id, b.ports[b.rootKey]) && b.rootPv == RootVector(b.ports[b.rootKey]))
    && (forall k :: 0 <= k < |b.ports| && Candidate(b.id, b.ports[k]) ==> !Less(RootVector(b.ports[k]), b.rootPv))
  }

  lemma SelectedBridge(b: Bridge)
    requires Selected(b)
    ensures BridgeDone(b)
  {
    ChooseIsLeast(b.id, b.ports, |b.ports|);
  }

  /** A live port of such a bridge: designated with its own vector, or holding
      one received -- the root's, or a better one than its own. */
  ghost predicate PortDone(b: Bridge, k: nat)
    requires k < |b.ports|
  {
    var p, dv := b.ports[k], DesignatedVector(b.rootPv, b.id, b.ports[k]);
    && (p.role == RoleRoot <==> k == b.rootKey)
    && (p.role == RoleDesignated ==> p.info == InfoMine && p.pv == dv)
    && (p.role != RoleDesignated ==> p.info == InfoReceived)
    && (p.role != RoleDesignated && p.role != RoleRoot ==> Less(p.pv, dv))
  }

  lemma SelectedPort(b: Bridge, k: nat)
    requires Selected(b) && k < |b.ports| && b.ports[k].enabled
    ensures PortDone(b, k)
  {
    SelectRolesVector(b, k);
    ChooseIsLeast(b.id, b.ports, |b.ports|);
  }

  // ----- what that says of links -----

  /** A live end: designated, or holding what its designated neighbour sends. */
  ghost predicate EndDone(net: Network, e: End)
    requires Cabled(net) && IsEnd(net, e)
  {
    && PortDone(net.bridges[e.b], e.k)
    && (PortAt(net, e).role != RoleDesignated ==>
          e in net.peer && PortAt(net, net.peer[e]).role == RoleDesignated &&
          PortAt(net, e).pv == Sends(net, net.peer[e]))
  }

  lemma SettledEnd(net: Network, e: End)
    requires Cabled(net) && Settled(net) && IsEnd(net, e) && PortAt(net, e).enabled
    ensures EndDone(net, e)
  {
    assert SelectedAt(net, e.b) && Fresh(net, e);
    SelectedPort(net.bridges[e.b], e.k);
  }

  // ----- a network and its graph -----

  ghost predicate MirrorsBridge(net: Network, g: Graph, b: nat) {
    && b < |g.ids| && b < |g.root| && b < |g.cost| && b < |net.bridges|
    && g.ids[b] == net.bridges[b].id
    && g.root[b] == net.bridges[b].rootPv.root && g.cost[b] == net.bridges[b].rootPv.cost
    && (b in g.up <==> net.bridges[b].rootKey >= 0)
    && (b in g.up ==> g.up[b].b == b && g.up[b].k == net.bridges[b].rootKey)
  }

  ghost predicate MirrorsEnd(net: Network, g: Graph, e: End)
    requires Cabled(net)
  {
    e in net.peer && e in g.hop && g.hop[e] == PortAt(net, e).cost
  }

  ghost predicate Mirrors(net: Network, g: Graph)
    requires Cabled(net)
  {
    && |g.ids| == |g.root| == |g.cost| == |net.bridges| && g.peer == net.peer
    && (forall b {:trigger MirrorsBridge(net, g, b)} :: 0 <= b < |net.bridges| ==> MirrorsBridge(net, g, b))
    && (forall e {:trigger MirrorsEnd(net, g, e)} :: e in net.peer ==> MirrorsEnd(net, g, e))
  }

  lemma GraphMirrors(net: Network)
    requires Cabled(net)
    ensures Mirrors(net, GraphOf(net))
  {
    var g := GraphOf(net);
    forall e | e in net.peer ensures MirrorsEnd(net, g, e) {
      assert net.peer[e] in net.peer;
    }
  }

  /** Two ends that send the same vector are the same end. */
  lemma SameSender(net: Network, g: Graph, e: End, q: End)
    requires Cabled(net) && Configured(net) && Mirrors(net, g) && DistinctIds(g) && IsEnd(net, e) && IsEnd(net, q)
    ensures Sends(net, e) == Sends(net, q) ==> e == q
  {
    if Sends(net, e) == Sends(net, q) {
      assert MirrorsBridge(net, g, e.b) && MirrorsBridge(net, g, q.b);
      assert net.bridges[e.b].ports[e.k].id == net.bridges[e.b].ports[q.k].id;
    }
  }

  /** Every link has exactly one designated end. */
  lemma OneDesignatedEnd(net: Network, g: Graph, e: End)
    requires Cabled(net) && Configured(net) && Settled(net) && Mirrors(net, g) && DistinctIds(g) && e in net.peer
    ensures PortAt(net, e).role == RoleDesignated <==> PortAt(net, net.peer[e]).role != RoleDesignated
  {
    var q := net.peer[e];
    SettledEnd(net, e);
    SettledEnd(net, q);
    if PortAt(net, e).role == RoleDesignated && PortAt(net, q).role == RoleDesignated {
      assert net.peer[q] == e;
      assert Quiet(net, e) && Quiet(net, q);
      SameSender(net, g, e, q);
      assert false;
    }
  }

  lemma LinkedEnd(net: Network, g: Graph, e: End)
    requires Cabled(net) && Configured(net) && Mirrors(net, g) && e in net.peer
    ensures Linked(g, e)
  {
    assert net.peer[net.peer[e]] == e;
    assert MirrorsEnd(net, g, e);
  }

  lemma WellFormedGraph(net: Network, g: Graph)
    requires Cabled(net) && Configured(net) && Mirrors(net, g)
    ensures WellFormed(g)
  {
    forall e | e in g.peer ensures Linked(g, e) {
      LinkedEnd(net, g, e);
    }
  }

  /** What was heard through an end, put in the graph's terms. */
  lemma HeardVector(net: Network, g: Graph, e: End)
    requires Cabled(net) && Mirrors(net, g) && e in net.peer && PortAt(net, e).pv == Sends(net, net.peer[e])
    ensures var q := net.peer[e];
      && e.b < |g.ids| && q.b < |g.ids| && e in g.hop
      && RootVector(PortAt(net, e)) ==
         Vector(g.root[q.b], (g.cost[q.b] + g.hop[e]) % COST_RANGE, g.ids[q.b], PortAt(net, q).id)
  {
    assert MirrorsEnd(net, g, e) && MirrorsBridge(net, g, net.peer[e].b);
  }

  lemma RootPortPlaced(net: Network, g: Graph, b: nat)
    requires Cabled(net) && Settled(net) && Mirrors(net, g) && WellFormed(g)
    requires b < |net.bridges| && BridgeDone(net.bridges[b]) && net.bridges[b].rootKey >= 0
    ensures HasParent(g, b)
  {
    var e := End(b, net.bridges[b].rootKey);
    assert IsEnd(net, e) && PortAt(net, e) == net.bridges[b].ports[e.k];
    SettledEnd(net, e);
    HeardVector(net, g, e);
    assert MirrorsBridge(net, g, b);
    assert Linked(g, g.up[b]);
  }

  lemma SettledBridge(net: Network, g: Graph, b: nat)
    requires Cabled(net) && Settled(net) && Mirrors(net, g) && WellFormed(g) && b < |net.bridges|
    ensures BridgeDone(net.bridges[b]) && Placed(g, b)
  {
    assert SelectedAt(net, b);
    SelectedBridge(net.bridges[b]);
    assert MirrorsBridge(net, g, b);
    if net.bridges[b].rootKey >= 0 {
      RootPortPlaced(net, g, b);
    }
  }

  /** An end holding its neighbour's vector could have chosen it. */
  lemma HeardRelaxed(net: Network, g: Graph, e: End)
    requires Cabled(net) && Configured(net) && Mirrors(net, g) && WellFormed(g) && DistinctIds(g)
    requires e in net.peer && EndDone(net, e) && BridgeDone(net.bridges[e.b])
    requires PortAt(net, e).role != RoleDesignated
    ensures Relaxed(g, e)
  {
    var br := net.bridges[e.b];
    HeardVector(net, g, e);
    assert MirrorsBridge(net, g, e.b) && Linked(g, e);
    if PortAt(net, e).pv.bridge != br.id {
      assert Candidate(br.id, br.ports[e.k]);
      assert !Less(RootVector(PortAt(net, e)), br.rootPv);
    }
  }

  /** Seen from a designated end, the other side holds a worse vector, or is
      a child that pays more. */
  lemma SentRelaxed(net: Network, g: Graph, e: End)
    requires Cabled(net) && Mirrors(net, g) && AllPlaced(g) && CostsBounded(g)
    requires e in net.peer && EndDone(net, net.peer[e]) && PortAt(net, net.peer[e]).role != RoleDesignated
    ensures Relaxed(g, e)
  {
    var q := net.peer[e];
    assert net.peer[q] == e && Linked(g, e);
    assert MirrorsBridge(net, g, e.b) && MirrorsBridge(net, g, q.b);
    if PortAt(net, q).role == RoleRoot {
      assert g.up[q.b] == q;
      ChildCost(g, q.b);
    } else {
      assert Less(Sends(net, e), Sends(net, q));
    }
  }

  /** Every bridge placed, every link relaxed: the graph is that of `StableIsTree`. */
  lemma StableGraph(net: Network, g: Graph)
    requires StableNetwork(net) && g == GraphOf(net)
    ensures Mirrors(net, g) && Stable(g)
  {
    GraphMirrors(net);
    WellFormedGraph(net, g);
    forall b | 0 <= b < |g.ids| ensures Placed(g, b) {
      SettledBridge(net, g, b);
    }
    forall e | e in g.peer ensures Relaxed(g, e) {
      SettledEnd(net, e);
      SettledEnd(net, net.peer[e]);
      SettledBridge(net, g, e.b);
      OneDesignatedEnd(net, g, e);
      if PortAt(net, e).role != RoleDesignated {
        HeardRelaxed(net, g, e);
      } else {
        SentRelaxed(net, g, e);
      }
    }
  }

  /** A link forwards when neither end is blocked. */
  ghost predicate Active(net: Network, e: End)
    requires Cabled(net)
  {
    e in net.peer && Carries(PortAt(net, e)) && Carries(PortAt(net, net.peer[e]))
  }

  lemma RootPortGoesUp(net: Network, g: Graph, e: End)
    requires Cabled(net) && Settled(net) && Mirrors(net, g) && e in net.peer
    ensures GoesUp(g, e) <==> PortAt(net, e).role == RoleRoot
  {
    SettledEnd(net, e);
    assert MirrorsBridge(net, g, e.b);
  }

  /** The links that forward are those some bridge reaches the root by. */
  lemma ActiveIsTreeLink(net: Network, g: Graph, e: End)
    requires Cabled(net) && Configured(net) && Settled(net) && Mirrors(net, g) && DistinctIds(g) && e in net.peer
    ensures Active(net, e) <==> TreeLink(g, e)
  {
    RootPortGoesUp(net, g, e);
    RootPortGoesUp(net, g, net.peer[e]);
    OneDesignatedEnd(net, g, e);
  }

  /**
   A settled, connected network: one root, the smallest bridge id; cheapest
   paths to it; one designated end per link; and the links that forward are
   the root ports' links, which reach every bridge and close no loop.
   */
  lemma SpanningTree(net: Network, r: nat)
    requires StableNetwork(net) && SmallestId(GraphOf(net), r)
    ensures IsSpanningTree(GraphOf(net), r)
    ensures forall e :: e in net.peer ==>
      (PortAt(net, e).role == RoleDesignated <==> PortAt(net, net.peer[e]).role != RoleDesignated)
    ensures forall e :: e in net.peer ==> (Active(net, e) <==> TreeLink(GraphOf(net), e))
  {
    var g := GraphOf(net);
    StableGraph(net, g);
    StableIsTree(g, r);
    forall e | e in net.peer
      ensures PortAt(net, e).role == RoleDesignated <==> PortAt(net, net.peer[e]).role != RoleDesignated
      ensures Active(net, e) <==> TreeLink(g, e)
    {
      OneDesignatedEnd(net, g, e);
      ActiveIsTreeLink(net, g, e);
    }
  }
}
