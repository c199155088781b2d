/**
 Two LAGs joined by links, the LACPDUs between them, and what becomes of them
 when both ends are passive.
 */
module LacpPair {
  import opened Wrappers
  import opened LacpState
  import opened LacpSafety

  /** An LACPDU under way to a port of one end: what its sender is, and takes
      the receiver for. */
  datatype Pdu = Pdu(to: nat, port: nat, actor: Peer, view: Peer)

  /** Where a link from a port of one end leads. */
  type Links = map<(nat, nat), (nat, nat)>

  datatype Pair = Pair(ends: seq<Lag>, wire: seq<Pdu>)

  /** selves, self: what an end says of itself on its ports, or on one. */
  datatype Move =
    | Turn(x: nat, now: int, up: set<nat>, held: bool, selves: nat -> Peer)
    | Arrive(n: nat, self: Peer, now: int)
    | Lose(n: nat)
    | Local(x: nat, e: Event)

  // ----- what a turn sends -----

  function Evaluated(g: Lag, now: int, up: set<nat>, held: bool): seq<Member> {
    Evaluate(g.(members := SampleAll(g, up, held), relink := false), now, held).members
  }

  /** send_pdu: of a member that speaks, over its link. */
  function PduOf(x: nat, m: Member, links: Links, self: nat -> Peer): seq<Pdu> {
    if (x, m.port) !in links then []
    else
      var far := links[(x, m.port)];
      [Pdu(far.0, far.1, self(m.port).(state := m.actor), if m.valid then m.partner else NOBODY)]
  }

  function Sent(x: nat, ms: seq<Member>, passive: bool, now: int, links: Links, self: nat -> Peer): seq<Pdu> {
    if ms == [] then []
    else
      var n := |ms| - 1;
      Sent(x, ms[..n], passive, now, links, self) +
      if Speaks(ms[n], passive, now) then PduOf(x, ms[n], links, self) else []
  }

  function TurnSends(x: nat, g: Lag, mv: Move, links: Links): seq<Pdu>
    requires mv.Turn?
  {
    if g.lacp then Sent(x, Evaluated(g, mv.now, mv.up, mv.held), g.passive, mv.now, links, mv.selves) else []
  }

  // ----- the moves -----

  predicate Shaped(s: Pair) { |s.ends| == 2 }

  /** Neither end is made active, and what arrives was sent. */
  predicate Allowed(s: Pair, mv: Move) {
    Shaped(s) &&
    match mv
    case Turn(x, _, _, _, _) => x < 2
    case Arrive(n, _, _) => n < |s.wire| && s.wire[n].to < 2
    case Lose(n) => n < |s.wire|
    case Local(x, e) => x < 2 && !e.EvTick? && !e.EvRx? && (e.EvOptions? ==> e.passive)
  }

  function Next(s: Pair, mv: Move, links: Links): Pair
    requires Allowed(s, mv)
  {
    match mv
    case Turn(x, now, up, held, _) =>
      Pair(s.ends[x := Tick(s.ends[x], now, up, held)], s.wire + TurnSends(x, s.ends[x], mv, links))
    case Arrive(n, self, now) =>
      var d := s.wire[n];
      Pair(s.ends[d.to := Rx(s.ends[d.to], d.port, d.actor, d.view, self, now)], s.wire[..n] + s.wire[n + 1..])
    case Lose(n) => s.(wire := s.wire[..n] + s.wire[n + 1..])
    case Local(x, e) => s.(ends := s.ends[x := Step(s.ends[x], e)])
  }

  ghost predicate IsRun(ss: seq<Pair>, mvs: seq<Move>, links: Links) {
    |ss| == |mvs| + 1 &&
    forall i :: 0 <= i < |mvs| ==> Allowed(ss[i], mvs[i]) && ss[i + 1] == Next(ss[i], mvs[i], links)
  }

  // ----- both passive -----

  /** Passive, with no partner, and carrying nothing under LACP. */
  predicate Idle(g: Lag) {
    && g.passive && (forall i :: 0 <= i < |g.members| ==> !g.members[i].valid)
    && (g.lacp ==> g.table == [] && forall i :: 0 <= i < |g.members| ==> !g.members[i].dist)
  }

  predicate Quiet(s: Pair) {
    Shaped(s) && Idle(s.ends[0]) && Idle(s.ends[1]) && s.wire == []
  }

  lemma {:induction false} NoneListed(ms: seq<Member>)
    requires forall i :: 0 <= i < |ms| ==> !ms[i].dist
    ensures DistPorts(ms) == []
  {
    if ms != [] {
      NoneListed(ms[..|ms| - 1]);
    }
  }

  /** A passive member without a partner does not speak, and gets no partner by
      its own turn. */
  lemma IdleMember(g: Lag, now: int, up: set<nat>, held: bool, i: nat)
    requires Idle(g) && g.lacp && i < |g.members|
    ensures |Evaluated(g, now, up, held)| == |g.members| && !Speaks(Evaluated(g, now, up, held)[i], true, now)
    ensures |Tick(g, now, up, held).members| == |g.members|
    ensures !Tick(g, now, up, held).members[i].valid && !Tick(g, now, up, held).members[i].dist
  {
    TickMember(g, now, up, held, i);
    var ms := ExpireAll(SampleAll(g, up, held), now);
    MuxDist(g.slow, g.passive, held, Aggregator(ms), ms[i]);
  }

  lemma {:induction false} NothingSent(x: nat, ms: seq<Member>, now: int, links: Links, self: nat -> Peer)
    requires forall i :: 0 <= i < |ms| ==> !Speaks(ms[i], true, now)
    ensures Sent(x, ms, true, now, links, self) == []
  {
    if ms != [] {
      NothingSent(x, ms[..|ms| - 1], now, links, self);
    }
  }

  lemma StaticTick(g: Lag, now: int, up: set<nat>, held: bool)
    requires Idle(g) && !g.lacp
    ensures Idle(Tick(g, now, up, held))
  {
  }

  lemma IdleTick(g: Lag, now: int, up: set<nat>, held: bool)
    requires Idle(g) && g.lacp
    ensures Idle(Tick(g, now, up, held))
    ensures forall i :: 0 <= i < |Evaluated(g, now, up, held)| ==> !Speaks(Evaluated(g, now, up, held)[i], true, now)
  {
    var n := Tick(g, now, up, held);
    TickLength(g, now, up, held);
    forall i | 0 <= i < |g.members| ensures |n.members| == |g.members| && !n.members[i].valid && !n.members[i].dist {
      IdleMember(g, now, up, held, i);
    }
    forall i | 0 <= i < |Evaluated(g, now, up, held)| ensures !Speaks(Evaluated(g, now, up, held)[i], true, now) {
      IdleMember(g, now, up, held, i);
    }
    NoneListed(n.members);
  }

  lemma IdleTurn(x: nat, g: Lag, mv: Move, links: Links)
    requires Idle(g) && mv.Turn?
    ensures Idle(Tick(g, mv.now, mv.up, mv.held)) && TurnSends(x, g, mv, links) == []
  {
    if g.lacp {
      IdleTick(g, mv.now, mv.up, mv.held);
      NothingSent(x, Evaluated(g, mv.now, mv.up, mv.held), mv.now, links, mv.selves);
    } else {
      StaticTick(g, mv.now, mv.up, mv.held);
    }
  }

  lemma IdleLeave(g: Lag, i: nat)
    requires Idle(g) && i < |g.members|
    ensures Idle(Leave(g, i))
  {
    var n := Leave(g, i);
    assert forall j :: 0 <= j < |n.members| ==> n.members[j] == g.members[if j == i then |n.members| else j];
    if g.lacp {
      NoneListed(n.members);
    }
  }

  lemma IdleMode(g: Lag, lacp: bool)
    requires Idle(g)
    ensures Idle(SetMode(g, lacp))
  {
    NoneListed(ResetAll(g.members));
  }

  lemma IdleLocal(g: Lag, e: Event)
    requires Idle(g) && !e.EvTick? && !e.EvRx? && (e.EvOptions? ==> e.passive)
    ensures Idle(Step(g, e))
  {
    match e
    case EvJoin(port) =>
    case EvLeave(i) =>
      if i < |g.members| {
        IdleLeave(g, i);
      }
    case EvMode(lacp) => IdleMode(g, lacp);
    case EvOptions(slow, passive) =>
    case EvLinkscan =>
    case EvPop =>
    case EvClose =>
  }

  /**
   Two passive ends never start. From two LAGs neither of which knows a partner,
   with nothing on the links: whatever their links do and however their members
   and modes change, so long as both stay passive no LACPDU is ever sent, neither
   finds a partner, and under LACP neither's trunk ever has a member.
   */
  lemma {:induction false} PassiveWaits(ss: seq<Pair>, mvs: seq<Move>, links: Links, n: nat)
    requires IsRun(ss, mvs, links) && Quiet(ss[0]) && n <= |mvs|
    ensures Quiet(ss[n])
  {
    if n > 0 {
      PassiveWaits(ss, mvs, links, n - 1);
      var s, mv := ss[n - 1], mvs[n - 1];
      assert Allowed(s, mv);
      match mv
      case Turn(x, _, _, _, _) => IdleTurn(x, s.ends[x], mv, links);
      case Arrive(_, _, _) =>
      case Lose(_) =>
      case Local(x, e) => IdleLocal(s.ends[x], e);
    }
  }
}
