/**
 Two bridges joined by two links, settled, each with a slot in its table that
 was never used: what `RstpNetwork` says of settled networks is said of
 something, and there a redundant link is blocked.
 */
module RstpExample {
  import opened RstpVector
  import opened RstpState
  import opened RstpGraph
  import opened RstpNetwork

  const COST := 2000

  function SomePort(portId: nat, role: Role, info: Info, pv: Vector): Port {
    var t := Times(0, 20000, 2000, 15000);
    var quiet := Bpdu(RstBpdu, pv, t, false, false, ClaimDesignated, false, false);
    Port(true, true, false, 0, false, false, false, false, false, COST, portId, role,
         if role == RoleAlternate then Discarding else Forwarding, info, pv, t,
         false, false, role == RoleDesignated, role == RoleRoot, true, false, false, true,
         6000, 0, 0, 2000, 0, 0, 0, false, quiet)
  }

  /** A slot never used: no link, no cost. */
  function NoPort(portId: nat): Port {
    var v, t := Vector(0, 0, 0, 0), Times(0, 0, 0, 0);
    Port(false, false, false, 0, false, false, false, false, false, 0, portId, RoleDisabled, Discarding, InfoDisabled,
         v, t, false, false, false, false, false, false, false, false, 0, 0, 0, 0, 0, 0, 0, false,
         Bpdu(ConfigBpdu, v, t, false, false, ClaimUnknown, false, false))
  }

  function RootBridge(): Bridge {
    Bridge(true, 1,
           [SomePort(1, RoleDesignated, InfoMine, Vector(1, 0, 1, 1)),
            SomePort(2, RoleDesignated, InfoMine, Vector(1, 0, 1, 2)), NoPort(3)],
           Vector(1, 0, 1, 0), -1, Times(0, 20000, 2000, 15000), false, 2000, 20000, 15000, 0)
  }

  function OtherBridge(): Bridge {
    Bridge(true, 2,
           [SomePort(1, RoleRoot, InfoReceived, Vector(1, 0, 1, 1)),
            SomePort(2, RoleAlternate, InfoReceived, Vector(1, 0, 1, 2)), NoPort(3)],
           Vector(1, COST, 1, 1), 0, Times(1000, 20000, 2000, 15000), false, 2000, 20000, 15000, 0)
  }

  function TwoLinks(): Network {
    Network([RootBridge(), OtherBridge()], Wires())
  }

  function Wires(): map<End, End> {
    map[End(0, 0) := End(1, 0), End(1, 0) := End(0, 0), End(0, 1) := End(1, 1), End(1, 1) := End(0, 1)]
  }

  /** Two bridges with these ids, two live ports each and a dead one, wired so. */
  predicate Looks(net: Network) {
    |net.bridges| == 2 && net.peer == Wires() && net.bridges[0].id == 1 && net.bridges[1].id == 2 &&
    forall b :: 0 <= b < 2 ==> |net.bridges[b].ports| == 3 && forall k :: 0 <= k < 3 ==>
      net.bridges[b].ports[k].id == k + 1 && !net.bridges[b].ports[k].rootGuard &&
      if k < 2 then net.bridges[b].ports[k].enabled && net.bridges[b].ports[k].cost == COST
      else !net.bridges[b].ports[k].enabled && net.bridges[b].ports[k].cost == 0
  }

  lemma LooksSo()
    ensures Looks(TwoLinks())
  {
  }

  lemma RootChooses()
    ensures Choose(1, RootBridge().ports, 3) == Choice(Vector(1, 0, 1, 0), -1)
  {
    var ports := RootBridge().ports;
    assert Choose(1, ports, 0) == Choice(SelfVector(1), -1);
    assert Choose(1, ports, 1) == Choice(SelfVector(1), -1);
    assert Choose(1, ports, 2) == Choice(SelfVector(1), -1);
  }

  lemma OtherChooses()
    ensures Choose(2, OtherBridge().ports, 3) == Choice(Vector(1, COST, 1, 1), 0)
  {
    var ports := OtherBridge().ports;
    assert Choose(2, ports, 0) == Choice(SelfVector(2), -1);
    assert RootVector(ports[0]) == Vector(1, COST, 1, 1);
    assert Choose(2, ports, 1) == Choice(Vector(1, COST, 1, 1), 0);
    assert RootVector(ports[1]) == Vector(1, COST, 1, 2);
    assert Choose(2, ports, 2) == Choice(Vector(1, COST, 1, 1), 0);
  }

  /** A live port whose role and vector are what selection would give it. */
  predicate Right(b: Bridge, k: nat, c: Choice)
    requires k < |b.ports|
  {
    var p, dv := b.ports[k], DesignatedVector(c.best, b.id, b.ports[k]);
    p.role == RoleFor(p, k == c.key, dv) && (p.role == RoleDesignated ==> p.info == InfoMine && p.pv == dv)
  }

  lemma SelectedIf(b: Bridge, c: Choice)
    requires Choose(b.id, b.ports, |b.ports|) == c && c.best == b.rootPv && c.key == b.rootKey
    requires forall k :: 0 <= k < |b.ports| && b.ports[k].enabled ==> Right(b, k, c)
    ensures Selected(b)
  {
    forall k | 0 <= k < |b.ports| && b.ports[k].enabled
      ensures var r := SelectRoles(b).ports[k];
        r.role == b.ports[k].role && r.info == b.ports[k].info && r.pv == b.ports[k].pv
    {
      SelectRolesVector(b, k);
      assert Right(b, k, c);
    }
  }

  lemma RootSelected()
    ensures Selected(RootBridge())
  {
    RootChooses();
    SelectedIf(RootBridge(), Choice(Vector(1, 0, 1, 0), -1));
  }

  lemma OtherSelected()
    ensures Selected(OtherBridge())
  {
    OtherChooses();
    SelectedIf(OtherBridge(), Choice(Vector(1, COST, 1, 1), 0));
  }

  lemma Across(e: End)
    ensures e in Wires() <==> e.b < 2 && e.k < 2
    ensures e in Wires() ==> Wires()[e] == End(1 - e.b, e.k)
  {
  }

  lemma EndCabled(net: Network, e: End)
    requires Looks(net)
    ensures e in net.peer <==> IsEnd(net, e) && PortAt(net, e).enabled
    ensures e in net.peer ==> net.peer[e] != e && net.peer[e] in net.peer && net.peer[net.peer[e]] == e
    ensures e in net.peer ==> PortAt(net, e).cost == COST && !PortAt(net, e).rootGuard
  {
    Across(e);
    if e in net.peer {
      Across(net.peer[e]);
    }
  }

  lemma Links(net: Network)
    requires Looks(net)
    ensures Cabled(net) && Configured(net) && forall e :: e in net.peer <==> IsEnd(net, e) && PortAt(net, e).enabled
  {
    forall e ensures e in net.peer <==> IsEnd(net, e) && PortAt(net, e).enabled {
      EndCabled(net, e);
    }
    forall e | e in net.peer
      ensures net.peer[e] != e && net.peer[e] in net.peer && net.peer[net.peer[e]] == e
      ensures PortAt(net, e).cost > 0 && !PortAt(net, e).rootGuard
    {
      EndCabled(net, e);
    }
  }

  lemma SettledSo(net: Network)
    requires Cabled(net) && |net.bridges| == 2 && SelectedAt(net, 0) && SelectedAt(net, 1)
    requires forall e {:trigger Quiet(net, e)} :: e in net.peer ==> Quiet(net, e)
    requires forall e {:trigger Fresh(net, e)} :: IsEnd(net, e) ==> Fresh(net, e)
    ensures Settled(net)
  {
    forall b | 0 <= b < |net.bridges| ensures SelectedAt(net, b) {
      assert b == 0 || b == 1;
    }
  }

  lemma EndFresh(net: Network, e: End)
    requires Cabled(net) && Looks(net) && IsEnd(net, e) && (e in net.peer ==> Fresh(net, e))
    ensures Fresh(net, e)
  {
    EndCabled(net, e);
  }

  lemma Wired()
    ensures Cabled(TwoLinks()) && Settled(TwoLinks())
  {
    var net := TwoLinks();
    LooksSo();
    Links(net);
    RootSelected();
    OtherSelected();
    forall e | e in net.peer ensures Quiet(net, e) {
      EndQuiet(e);
    }
    forall e | IsEnd(net, e) ensures Fresh(net, e) {
      if e in net.peer {
        EndQuiet(e);
      }
      EndFresh(net, e);
    }
    SettledSo(net);
  }

  lemma EndQuiet(e: End)
    requires Cabled(TwoLinks()) && e in TwoLinks().peer
    ensures Quiet(TwoLinks(), e) && Fresh(TwoLinks(), e)
  {
  }

  /** A walk stays among the bridges there are. */
  lemma {:induction false} Inside(g: Graph, w: seq<End>, from: nat, to: nat, i: nat)
    requires g.peer == Wires() && IsWalk(g, w, from, to) && i < |w|
    ensures w[i].b < 2 && w[i] in g.hop
  {
    if i > 0 {
      Inside(g, w[1..], g.peer[w[0]].b, to, i - 1);
    }
  }

  /** With two bridges a walk that leaves each once has at most two hops. */
  lemma ShortWalks(g: Graph, w: seq<End>, from: nat, to: nat)
    requires g.peer == Wires() && forall e :: e in g.hop ==> g.hop[e] == COST
    requires IsWalk(g, w, from, to) && LeavesEachOnce(w)
    ensures WalkCost(g, w) <= 2 * COST
  {
    forall i | 0 <= i < |w| ensures w[i].b < 2 {
      Inside(g, w, from, to, i);
    }
    if |w| > 2 {
      ThreeApart(w);
      assert false;
    }
    CostOfTwo(g, w);
  }

  lemma ThreeApart(w: seq<End>)
    requires LeavesEachOnce(w) && |w| > 2
    ensures w[0].b != w[1].b && w[0].b != w[2].b && w[1].b != w[2].b
  {
  }

  lemma CostOfTwo(g: Graph, w: seq<End>)
    requires |w| <= 2 && forall e :: e in g.hop ==> g.hop[e] == COST
    ensures WalkCost(g, w) <= 2 * COST
  {
    assert |w| == 2 ==> WalkCost(g, w[1..]) <= COST && w[1..][1..] == [];
  }

  lemma Reachable(g: Graph, i: nat, j: nat)
    requires g.peer == Wires() && g.peer.Keys <= g.hop.Keys && i < 2 && j < 2
    ensures Reaches(g, i, j)
  {
    if i == j {
      assert IsWalk(g, [], i, j);
    } else {
      var w := [End(i, 0)];
      assert w[1..] == [] && g.peer[w[0]] == End(j, 0);
      assert IsWalk(g, w, i, j);
    }
  }

  lemma ItsGraph(net: Network, g: Graph)
    requires Looks(net) && Cabled(net) && g == GraphOf(net)
    ensures g.peer == Wires() && g.ids == [1, 2] && g.hop.Keys == g.peer.Keys
    ensures forall e :: e in g.hop ==> g.hop[e] == COST
  {
    Links(net);
    forall e | e in g.hop ensures g.hop[e] == COST {
      assert IsEnd(net, e);
    }
  }

  lemma GraphIsSound(g: Graph)
    requires g.peer == Wires() && g.ids == [1, 2] && g.hop.Keys == g.peer.Keys
    requires forall e :: e in g.hop ==> g.hop[e] == COST
    ensures DistinctIds(g) && CostsBounded(g) && Connected(g) && SmallestId(g, 0)
  {
    forall w, from, to | IsWalk(g, w, from, to) && LeavesEachOnce(w) ensures WalkCost(g, w) < COST_RANGE {
      ShortWalks(g, w, from, to);
    }
    forall i, j | 0 <= i < |g.ids| && 0 <= j < |g.ids| ensures Reaches(g, i, j) {
      Reachable(g, i, j);
    }
  }

  /** It is a settled network, its root is bridge 0, and of its two links one
      forwards: the other's far end is an alternate. */
  lemma RedundantLink()
    ensures StableNetwork(TwoLinks()) && SmallestId(GraphOf(TwoLinks()), 0)
    ensures Active(TwoLinks(), End(0, 0)) && !Active(TwoLinks(), End(0, 1))
  {
    LooksSo();
    Links(TwoLinks());
    Wired();
    ItsGraph(TwoLinks(), GraphOf(TwoLinks()));
    GraphIsSound(GraphOf(TwoLinks()));
    OneForwards(TwoLinks());
  }

  lemma OneForwards(net: Network)
    requires Cabled(net) && net.peer == Wires() && net.bridges == [RootBridge(), OtherBridge()]
    ensures Active(net, End(0, 0)) && !Active(net, End(0, 1))
  {
    Across(End(0, 0));
    Across(End(0, 1));
    assert RootBridge().ports[0].role == RoleDesignated && OtherBridge().ports[0].role == RoleRoot;
    assert OtherBridge().ports[1].role == RoleAlternate;
  }
}
