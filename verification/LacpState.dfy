/**
 One LAG and its members: LACP selection and the mux, the published trunk
 table, and every way the members change -- a tick, an LACPDU, a port joining
 or leaving, a change of mode, the LAG going away.
 */
module LacpState {
  import opened Wrappers

  const MAX_LAGM: nat := 16
  const FAST_PERIOD: int := 1000
  const SLOW_PERIOD: int := 30000
  const SHORT_TIMEOUT: int := 3000
  const LONG_TIMEOUT: int := 90000

  // Actor and partner state, section 6.4.2.3 of IEEE 802.1AX.
  const ACTIVITY: bv8 := 0x01
  const TIMEOUT: bv8 := 0x02
  const AGGREGATION: bv8 := 0x04
  const SYNC: bv8 := 0x08
  const COLLECTING: bv8 := 0x10
  const DISTRIBUTING: bv8 := 0x20
  const DEFAULTED: bv8 := 0x40
  const EXPIRED: bv8 := 0x80

  predicate Has(state: bv8, bit: bv8) { state & bit != 0 }

  datatype Peer = Peer(sysPri: nat, sys: nat, key: nat, portPri: nat, port: nat, state: bv8)

  /** partner: what it last said it is; view: what it said we are. */
  datatype Member = Member(port: nat, link: bool, dist: bool, actor: bv8, partner: Peer, view: Peer, valid: bool,
                           expires: int, ntt: bool, nextTx: int)

  /** table: the ports in the chip's trunk table. relink: linkscan saw a member
      move. closing: being removed, members going one by one. */
  datatype Lag = Lag(lacp: bool, slow: bool, passive: bool, members: seq<Member>, table: seq<nat>, ready: nat,
                     relink: bool, closing: bool)

  const NOBODY := Peer(0, 0, 0, 0, 0, 0)

  // ----- the trunk table -----

  /** The distributing members' ports, in member order. */
  function DistPorts(ms: seq<Member>): seq<nat> {
    if ms == [] then []
    else DistPorts(ms[..|ms| - 1]) + if ms[|ms| - 1].dist then [ms[|ms| - 1].port] else []
  }

  function Publish(g: Lag): Lag {
    g.(table := DistPorts(g.members))
  }

  // ----- selection and the mux -----

  /** A partner not heard from in time, or behind a link that is down, is forgotten. */
  function Expire(m: Member, now: int): Member {
    m.(valid := m.valid && now < m.expires && m.link, ntt := m.ntt || (m.valid && (now >= m.expires || !m.link)))
  }

  predicate Candidate(m: Member) {
    m.link && m.valid && Has(m.partner.state, AGGREGATION)
  }

  /** The LAG's partner: that of the first candidate. */
  function Aggregator(ms: seq<Member>): Option<Peer> {
    if ms == [] then None
    else
      var a := Aggregator(ms[..|ms| - 1]);
      if a.None? && Candidate(ms[|ms| - 1]) then Some(ms[|ms| - 1].partner) else a
  }

  predicate SameSystem(a: Peer, b: Peer) { a.sys == b.sys && a.key == b.key }

  predicate Selected(agg: Option<Peer>, m: Member) {
    Candidate(m) && agg.Some? && SameSystem(agg.value, m.partner)
  }

  function ActorState(slow: bool, passive: bool, held: bool, sel: bool, m: Member): bv8 {
    var base := AGGREGATION | (if passive then 0 else ACTIVITY) | (if slow then 0 else TIMEOUT);
    var heard := if m.valid then 0 else DEFAULTED | (if m.link then EXPIRED else 0);
    var sync := if !sel || held then 0 else SYNC | (if Has(m.partner.state, SYNC) then COLLECTING else 0);
    var st := base | heard | sync;
    if Has(st, COLLECTING) && Has(m.partner.state, COLLECTING) then st | DISTRIBUTING else st
  }

  /** One member through the mux. */
  function Mux(slow: bool, passive: bool, held: bool, agg: Option<Peer>, m: Member): Member {
    var st := ActorState(slow, passive, held, Selected(agg, m), m);
    m.(actor := st, ntt := m.ntt || st != m.actor, dist := Has(st, DISTRIBUTING))
  }

  function ExpireAll(ms: seq<Member>, now: int): seq<Member> {
    seq(|ms|, i requires 0 <= i < |ms| => Expire(ms[i], now))
  }

  function MuxAll(g: Lag, held: bool, agg: Option<Peer>, ms: seq<Member>): seq<Member> {
    seq(|ms|, i requires 0 <= i < |ms| => Mux(g.slow, g.passive, held, agg, ms[i]))
  }

  function CountSelected(agg: Option<Peer>, ms: seq<Member>): nat {
    if ms == [] then 0 else CountSelected(agg, ms[..|ms| - 1]) + if Selected(agg, ms[|ms| - 1]) then 1 else 0
  }

  predicate SameDist(a: seq<Member>, b: seq<Member>) {
    |a| == |b| && forall i :: 0 <= i < |a| ==> a[i].dist == b[i].dist
  }

  /** lacp_eval: the members, how many are ready. */
  function Evaluate(g: Lag, now: int, held: bool): Lag {
    var ms := ExpireAll(g.members, now);
    var agg := Aggregator(ms);
    g.(members := MuxAll(g, held, agg, ms), ready := CountSelected(agg, ms))
  }

  // ----- a tick -----

  /** The link as the chip has it; a static LAG's members carry by that alone. */
  function Sample(m: Member, up: bool, lacp: bool, held: bool): Member {
    m.(link := up, ntt := m.ntt || up != m.link, dist := if lacp then m.dist else up && !held)
  }

  function SampleAll(g: Lag, up: set<nat>, held: bool): seq<Member> {
    seq(|g.members|, i requires 0 <= i < |g.members| => Sample(g.members[i], g.members[i].port in up, g.lacp, held))
  }

  /** A passive side answers an active partner, and puts right one that takes
      it for active; otherwise it is silent. */
  predicate Speaks(m: Member, passive: bool, now: int) {
    m.link && (m.ntt || now >= m.nextTx) &&
    (passive ==> m.valid && (Has(m.partner.state, ACTIVITY) || (m.ntt && Has(m.view.state, ACTIVITY))))
  }

  function Period(m: Member): int {
    if m.valid && !Has(m.partner.state, TIMEOUT) then SLOW_PERIOD else FAST_PERIOD
  }

  function Speak(m: Member, passive: bool, now: int): Member {
    if Speaks(m, passive, now) then m.(ntt := false, nextTx := now + Period(m)) else m
  }

  function SpeakAll(g: Lag, now: int): seq<Member> {
    seq(|g.members|, i requires 0 <= i < |g.members| => Speak(g.members[i], g.passive, now))
  }

  /** The LACP part of a tick: evaluate, then speak. */
  function Turned(g: Lag, now: int, held: bool): Lag {
    var e := Evaluate(g, now, held);
    e.(members := SpeakAll(e, now))
  }

  /** The LAG thread's turn: sample, evaluate, speak, and publish the table
      if anything in it moved. */
  function Tick(g: Lag, now: int, up: set<nat>, held: bool): Lag {
    var s := g.(members := SampleAll(g, up, held), relink := false);
    var t := if g.lacp then Turned(s, now, held) else s;
    if g.relink || !SameDist(g.members, t.members) then Publish(t) else t
  }

  // ----- an LACPDU -----

  function FindPort(ms: seq<Member>, port: nat): (i: nat)
    ensures i <= |ms| && (i < |ms| ==> ms[i].port == port) && forall j :: 0 <= j < i ==> ms[j].port != port
    decreases |ms|
  {
    if ms == [] || ms[0].port == port then 0 else 1 + FindPort(ms[1..], port)
  }

  /** What the partner takes us for is out of date: a reason to answer at once. */
  predicate Mistaken(self: Peer, view: Peer) {
    self.sys != view.sys || self.key != view.key || self.port != view.port || self.state != view.state
  }

  function Hear(m: Member, partner: Peer, view: Peer, self: Peer, now: int): Member {
    m.(partner := partner, view := view, valid := true,
       expires := now + (if Has(m.actor, TIMEOUT) then SHORT_TIMEOUT else LONG_TIMEOUT),
       ntt := m.ntt || !m.valid || partner != m.partner || Mistaken(self.(state := m.actor), view))
  }

  /** self: what we say of ourselves on that link. Without LACP nothing happens. */
  function Rx(g: Lag, port: nat, partner: Peer, view: Peer, self: Peer, now: int): Lag {
    var i := FindPort(g.members, port);
    if i == |g.members| || !g.lacp then g
    else g.(members := g.members[i := Hear(g.members[i], partner, view, self, now)])
  }

  // ----- members and modes -----

  function NewMember(port: nat): Member {
    Member(port, false, false, 0, NOBODY, NOBODY, false, 0, true, 0)
  }

  function Join(g: Lag, port: nat): Lag {
    g.(members := g.members + [NewMember(port)])
  }

  /** Out by swapping the last into its place, and the table stated again. */
  function Leave(g: Lag, i: nat): Lag
    requires i < |g.members|
  {
    var n := |g.members| - 1;
    Publish(g.(members := g.members[i := g.members[n]][..n]))
  }

  function Reset(m: Member): Member {
    m.(valid := false, dist := false, actor := 0, ntt := true)
  }

  function ResetAll(ms: seq<Member>): seq<Member> {
    seq(|ms|, i requires 0 <= i < |ms| => Reset(ms[i]))
  }

  /** Static to LACP or back: every member starts again. */
  function SetMode(g: Lag, lacp: bool): Lag {
    if g.lacp == lacp then g
    else Publish(g.(lacp := lacp, members := ResetAll(g.members)))
  }

  function Options(g: Lag, slow: bool, passive: bool): Lag {
    g.(slow := slow, passive := passive,
       members := seq(|g.members|, i requires 0 <= i < |g.members| => g.members[i].(ntt := true)))
  }

  /** Removal: members go one at a time, the table is left, then all is gone. */
  function Pop(g: Lag): Lag {
    if g.members == [] then g else g.(closing := true, members := g.members[..|g.members| - 1])
  }

  function Close(g: Lag): Lag {
    if g.members == [] then g.(closing := false, table := []) else g
  }

  datatype Event =
    | EvTick(now: int, up: set<nat>, held: bool)
    | EvRx(port: nat, partner: Peer, view: Peer, self: Peer, now: int)
    | EvJoin(port: nat)
    | EvLeave(i: nat)
    | EvMode(lacp: bool)
    | EvOptions(slow: bool, passive: bool)
    | EvLinkscan
    | EvPop
    | EvClose

  /** A port already a member does not join again, and nothing joins or leaves
      a LAG that is being removed. */
  function Step(g: Lag, e: Event): Lag {
    match e
    case EvTick(now, up, held) => Tick(g, now, up, held)
    case EvRx(port, partner, view, self, now) => Rx(g, port, partner, view, self, now)
    case EvJoin(port) => if g.closing || FindPort(g.members, port) < |g.members| then g else Join(g, port)
    case EvLeave(i) => if g.closing || i >= |g.members| then g else Leave(g, i)
    case EvMode(lacp) => SetMode(g, lacp)
    case EvOptions(slow, passive) => Options(g, slow, passive)
    case EvLinkscan => g.(relink := true)
    case EvPop => Pop(g)
    case EvClose => Close(g)
  }
}
