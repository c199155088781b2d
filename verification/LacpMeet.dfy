/**
 Two active LAGs joined by a link come to carry over it: after two LACPDUs each
 way both distribute, whatever else is in either LAG.
 */
module LacpMeet {
  import opened Wrappers
  import opened LacpState
  import opened LacpSafety
  import opened LacpPair
  import opened LacpHistory

  /** Whoever any member faces is that system, with that key. */
  predicate Faces(g: Lag, sys: nat, key: nat) {
    forall k :: 0 <= k < |g.members| && g.members[k].valid ==>
      g.members[k].partner.sys == sys && g.members[k].partner.key == key
  }

  /** An active LAG with member i on a port. */
  ghost predicate Active(g: Lag, i: nat, port: nat) {
    g.lacp && !g.passive && i < |g.members| && g.members[i].port == port && LacpSafety.Distinct(g.members)
  }

  // ----- what a tick says -----

  /** The state bits of a member, one by one. */
  lemma ActorBits(slow: bool, passive: bool, held: bool, sel: bool, m: Member)
    ensures var st := ActorState(slow, passive, held, sel, m);
      && (Has(st, ACTIVITY) <==> !passive) && Has(st, AGGREGATION) && (Has(st, TIMEOUT) <==> !slow)
      && (Has(st, SYNC) <==> sel && !held) && (Has(st, COLLECTING) <==> sel && !held && Has(m.partner.state, SYNC))
      && (Has(st, DISTRIBUTING) <==>
            sel && !held && Has(m.partner.state, SYNC) && Has(m.partner.state, COLLECTING))
      && (Has(st, DEFAULTED) <==> !m.valid) && (Has(st, EXPIRED) <==> !m.valid && m.link)
  {
  }

  /** A member that has a partner, up to date and aggregatable. */
  predicate Partnered(m: Member, now: int) {
    m.valid && now < m.expires && Has(m.partner.state, AGGREGATION)
  }

  lemma FacedIsChosen(g: Lag, now: int, up: set<nat>, i: nat, sys: nat, key: nat)
    requires g.lacp && i < |g.members| && g.members[i].port in up && Partnered(g.members[i], now) && Faces(g, sys, key)
    ensures Chosen(g.members, up, now, g.members[i])
  {
    var ms := g.members;
    assert Hopeful(ms[i], up, now);
    var f := FirstOne(ms, up, now, i);
    assert SameSystem(ms[f].partner, ms[i].partner);
  }

  lemma {:induction false} FirstOne(ms: seq<Member>, up: set<nat>, now: int, i: nat) returns (f: nat)
    requires i < |ms| && Hopeful(ms[i], up, now)
    ensures FirstHopeful(ms, up, now, f)
  {
    if j :| 0 <= j < i && Hopeful(ms[j], up, now) {
      f := FirstOne(ms, up, now, j);
    } else {
      f := i;
    }
  }

  /** What a member says and does after a tick. */
  lemma TickSays(g: Lag, now: int, up: set<nat>, i: nat, port: nat, sys: nat, key: nat)
    requires Active(g, i, port) && port in up && Faces(g, sys, key)
    ensures var t, m := Tick(g, now, up, false), g.members[i];
      |t.members| == |g.members| && var n, e := t.members[i], Evaluated(g, now, up, false);
      && n.port == port && Has(n.actor, ACTIVITY) && Has(n.actor, AGGREGATION)
      && |e| == |g.members| && e[i].actor == n.actor && (m.ntt || now >= m.nextTx ==> Speaks(e[i], false, now))
      && (Partnered(m, now) ==>
            n.valid && n.partner == m.partner && n.expires == m.expires && Has(n.actor, SYNC) &&
            (Has(n.actor, COLLECTING) <==> Has(m.partner.state, SYNC)) &&
            (n.dist <==> Has(m.partner.state, SYNC) && Has(m.partner.state, COLLECTING)))
      && (!m.valid ==> !n.valid && !Has(n.actor, SYNC))
  {
    TickLength(g, now, up, false);
    TickMember(g, now, up, false, i);
    SelectedIsChosen(g, now, up, false, i);
    Expired(g, now, up, false, i);
    var ms := ExpireAll(SampleAll(g, up, false), now);
    var agg := Aggregator(ms);
    if Partnered(g.members[i], now) {
      FacedIsChosen(g, now, up, i, sys, key);
    }
    SpokenIs(g.slow, agg, ms[i], now);
    SampledIs(g, now, up, i);
    assert Evaluated(g, now, up, false)[i] == Mux(g.slow, g.passive, false, agg, ms[i]);
  }

  lemma SpokenIs(slow: bool, agg: Option<Peer>, m: Member, now: int)
    ensures var x := Mux(slow, false, false, agg, m); var n := Speak(x, false, now);
      && n.actor == x.actor && n.port == m.port && n.valid == m.valid && n.partner == m.partner
      && n.expires == m.expires && n.dist == x.dist && Has(n.actor, ACTIVITY) && Has(n.actor, AGGREGATION)
      && (Has(n.actor, SYNC) <==> Selected(agg, m))
      && (Has(n.actor, COLLECTING) <==> Selected(agg, m) && Has(m.partner.state, SYNC))
      && (n.dist <==> Selected(agg, m) && Has(m.partner.state, SYNC) && Has(m.partner.state, COLLECTING))
      && (m.link && (m.ntt || now >= m.nextTx) ==> Speaks(x, false, now))
  {
    ActorBits(slow, false, false, Selected(agg, m), m);
    var x := Mux(slow, false, false, agg, m);
    assert x.actor == ActorState(slow, false, false, Selected(agg, m), m) && x.dist == Has(x.actor, DISTRIBUTING);
  }

  lemma SampledIs(g: Lag, now: int, up: set<nat>, i: nat)
    requires g.lacp && i < |g.members|
    ensures var a, m := g.members[i], ExpireAll(SampleAll(g, up, false), now)[i];
      && m.port == a.port && m.link == (a.port in up) && m.partner == a.partner && m.expires == a.expires
      && m.nextTx == a.nextTx && (a.ntt ==> m.ntt) && (m.valid <==> a.valid && now < a.expires && m.link)
  {
  }

  lemma TickFaces(g: Lag, now: int, up: set<nat>, sys: nat, key: nat)
    requires g.lacp && Faces(g, sys, key)
    ensures Faces(Tick(g, now, up, false), sys, key) && Tick(g, now, up, false).lacp
    ensures Tick(g, now, up, false).passive == g.passive
  {
    TickLength(g, now, up, false);
    var t := Tick(g, now, up, false);
    forall k | 0 <= k < |t.members| && t.members[k].valid
      ensures t.members[k].partner.sys == sys && t.members[k].partner.key == key
    {
      TickCame(g, now, up, false, k);
      var j :| 0 <= j < |g.members| && SameRecord(g.members[j], t.members[k]);
    }
  }

  lemma {:induction false} CountIs(agg: Option<Peer>, ms: seq<Member>)
    ensures CountSelected(agg, ms) == |set i: nat | i < |ms| && Selected(agg, ms[i])|
  {
    var all := set i: nat | i < |ms| && Selected(agg, ms[i]);
    if ms != [] {
      var n := |ms| - 1;
      var front := ms[..n];
      CountIs(agg, front);
      var fewer := set i: nat | i < |front| && Selected(agg, front[i]);
      assert forall i :: 0 <= i < n ==> front[i] == ms[i];
      assert all == if Selected(agg, ms[n]) then fewer + {n} else fewer;
    }
  }

  /** How many are ready is how many are chosen, held back or not. */
  lemma ReadyIs(g: Lag, now: int, up: set<nat>, held: bool)
    requires g.lacp
    ensures Tick(g, now, up, held).ready == |set i: nat | i < |g.members| && Chosen(g.members, up, now, g.members[i])|
  {
    var ms := ExpireAll(SampleAll(g, up, held), now);
    CountIs(Aggregator(ms), ms);
    forall i: nat | i < |g.members|
      ensures Selected(Aggregator(ms), ms[i]) <==> Chosen(g.members, up, now, g.members[i])
    {
      SelectedIsChosen(g, now, up, held, i);
    }
    var a, b := set i: nat | i < |ms| && Selected(Aggregator(ms), ms[i]),
                set i: nat | i < |g.members| && Chosen(g.members, up, now, g.members[i]);
    assert a == b;
  }

  // ----- what is heard of it -----

  /** What a member says of itself in an LACPDU. */
  function SelfOf(self: Peer, m: Member): Peer {
    self.(state := m.actor)
  }

  /** A member that hears one knows its sender. */
  lemma HearsIt(g: Lag, i: nat, port: nat, e: Event)
    requires Active(g, i, port) && e.EvRx? && e.port == port && Faces(g, e.partner.sys, e.partner.key)
    ensures var r := Step(g, e);
      Active(r, i, port) && var m := r.members[i];
      && m.valid && m.partner == e.partner && e.now + 3000 <= m.expires && (!g.members[i].valid ==> m.ntt)
      && (g.members[i].ntt || e.partner != g.members[i].partner ==> m.ntt) && Faces(r, e.partner.sys, e.partner.key)
  {
    var x := FindPort(g.members, port);
    assert x == i;
    assert Step(g, e).members == g.members[i := Hear(g.members[i], e.partner, e.view, e.self, e.now)];
  }

  lemma TickActive(g: Lag, now: int, up: set<nat>, i: nat, port: nat)
    requires Active(g, i, port)
    ensures Active(Tick(g, now, up, false), i, port)
  {
    TickLength(g, now, up, false);
    var t := Tick(g, now, up, false);
    forall k | 0 <= k < |g.members| ensures t.members[k].port == g.members[k].port {
      TickPorts(g, now, up, false, k);
    }
    TickFaced(g, now, up);
  }

  lemma TickFaced(g: Lag, now: int, up: set<nat>)
    ensures Tick(g, now, up, false).passive == g.passive
  {
  }

  /** One end's turn: it ticks at a time, and the LACPDU it sends on the link
      reaches the other end then. */
  datatype Turned = Turned(g: Lag, h: Lag)

  function Exchange(g: Lag, i: nat, self: Peer, h: Lag, port: nat, view: Peer, other: Peer, now: int, up: set<nat>)
    : Turned
  {
    var t := Tick(g, now, up, false);
    Turned(t, if i < |t.members| then Step(h, EvRx(port, SelfOf(self, t.members[i]), view, other, now)) else h)
  }

  /** Member i sends an LACPDU in this turn. */
  predicate Sends(g: Lag, i: nat, now: int, up: set<nat>) {
    i < |Evaluated(g, now, up, false)| && Speaks(Evaluated(g, now, up, false)[i], g.passive, now)
  }

  /** And then not before its partner's pace asks for it, unless there is news: in
      a second, or in thirty if the partner is there and asks for no more. */
  lemma NextSend(g: Lag, now: int, up: set<nat>, i: nat)
    requires g.lacp && i < |g.members| && Sends(g, i, now, up)
    ensures |Tick(g, now, up, false).members| == |g.members|
    ensures var m := Tick(g, now, up, false).members[i];
      !m.ntt && m.nextTx == now + if m.valid && !Has(m.partner.state, TIMEOUT) then 30000 else 1000
  {
    TickMember(g, now, up, false, i);
  }

  /** A partner not heard from in time is given up, and told so. */
  lemma LossTold(g: Lag, now: int, up: set<nat>, i: nat)
    requires g.lacp && !g.passive && i < |g.members| && g.members[i].port in up
    requires g.members[i].valid && now >= g.members[i].expires
    ensures Sends(g, i, now, up) && |Tick(g, now, up, false).members| == |g.members|
    ensures var m := Tick(g, now, up, false).members[i]; !m.valid && !m.dist && Has(m.actor, DEFAULTED)
  {
    TickMember(g, now, up, false, i);
    TickDecides(g, now, up, false, i);
    var ms := ExpireAll(SampleAll(g, up, false), now);
    ActorBits(g.slow, g.passive, false, Selected(Aggregator(ms), ms[i]), ms[i]);
    SpokenIs(g.slow, Aggregator(ms), ms[i], now);
    assert ms[i].ntt && ms[i].link && !ms[i].valid;
    assert Evaluated(g, now, up, false)[i] == Mux(g.slow, g.passive, false, Aggregator(ms), ms[i]);
  }

  /** A state that changes is told at once. */
  lemma ChangeTold(g: Lag, now: int, up: set<nat>, i: nat)
    requires g.lacp && !g.passive && i < |g.members| && g.members[i].port in up
    requires |Tick(g, now, up, false).members| == |g.members|
    requires Tick(g, now, up, false).members[i].actor != g.members[i].actor
    ensures Sends(g, i, now, up)
  {
    TickMember(g, now, up, false, i);
    var ms := ExpireAll(SampleAll(g, up, false), now);
    var x := Mux(g.slow, g.passive, false, Aggregator(ms), ms[i]);
    assert ms[i].actor == g.members[i].actor && ms[i].link;
    assert x.actor == Tick(g, now, up, false).members[i].actor;
    assert Evaluated(g, now, up, false)[i] == x && x.ntt;
  }

  /** What one exchange does: the sender speaks, if it has cause to, and the
      receiver knows what it said. */
  lemma ExchangeIs(g: Lag, i: nat, p: nat, self: Peer, h: Lag, j: nat, q: nat, other: Peer, view: Peer, now: int,
                   up: set<nat>)
    requires Active(g, i, p) && Active(h, j, q) && p in up
    requires Faces(g, other.sys, other.key) && Faces(h, self.sys, self.key)
    ensures var x := Exchange(g, i, self, h, q, view, other, now, up);
      && Active(x.g, i, p) && Active(x.h, j, q) && Faces(x.g, other.sys, other.key) && Faces(x.h, self.sys, self.key)
      && var m, n, r := g.members[i], x.g.members[i], x.h.members[j];
      && (m.ntt || now >= m.nextTx ==> Sends(g, i, now, up))
      && r.valid && r.partner == SelfOf(self, n) && now + 3000 <= r.expires && Has(n.actor, AGGREGATION)
      && (!h.members[j].valid || h.members[j].partner != r.partner ==> r.ntt)
      && (Partnered(m, now) ==>
            n.valid && n.partner == m.partner && n.expires == m.expires && Has(n.actor, SYNC) &&
            (Has(n.actor, COLLECTING) <==> Has(m.partner.state, SYNC)) &&
            (n.dist <==> Has(m.partner.state, SYNC) && Has(m.partner.state, COLLECTING)))
      && (!m.valid ==> !n.valid && !Has(n.actor, SYNC))
  {
    TickSays(g, now, up, i, p, other.sys, other.key);
    TickActive(g, now, up, i, p);
    TickFaces(g, now, up, other.sys, other.key);
    var n := Tick(g, now, up, false).members[i];
    HearsIt(h, j, q, EvRx(q, SelfOf(self, n), view, other, now));
  }

  /**
   Two active LAGs that have not met, joined by a link between a member of each:
   they tick in turn, and what each sends reaches the other. By its second turn
   one end distributes, and by its third the other, and each does send every time
   before. Five ticks, less than three seconds apart.
   */
  lemma Meet(a: Lag, i: nat, p: nat, self: Peer, b: Lag, j: nat, q: nat, other: Peer, v: Peer, t: seq<int>,
             up: set<nat>, up': set<nat>)
    requires Active(a, i, p) && Active(b, j, q) && p in up && q in up' && |t| == 5
    requires Faces(a, other.sys, other.key) && Faces(b, self.sys, self.key)
    requires !a.members[i].valid && a.members[i].ntt && !b.members[j].valid
    requires forall k :: 0 <= k < 4 ==> t[k] < t[k + 1] < t[k] + 3000
    ensures var x1 := Exchange(a, i, self, b, q, v, other, t[0], up);
      var x2 := Exchange(x1.h, j, other, x1.g, p, v, self, t[1], up');
      var x3 := Exchange(x2.h, i, self, x2.g, q, v, other, t[2], up);
      var x4 := Exchange(x3.h, j, other, x3.g, p, v, self, t[3], up');
      var x5 := Exchange(x4.h, i, self, x4.g, q, v, other, t[4], up);
      && j < |x4.g.members| && x4.g.members[j].dist && i < |x5.g.members| && x5.g.members[i].dist
      && Sends(a, i, t[0], up) && Sends(x1.h, j, t[1], up') && Sends(x2.h, i, t[2], up) && Sends(x3.h, j, t[3], up')
  {
    ExchangeIs(a, i, p, self, b, j, q, other, v, t[0], up);
    var x1 := Exchange(a, i, self, b, q, v, other, t[0], up);
    ExchangeIs(x1.h, j, q, other, x1.g, i, p, self, v, t[1], up');
    var x2 := Exchange(x1.h, j, other, x1.g, p, v, self, t[1], up');
    ExchangeIs(x2.h, i, p, self, x2.g, j, q, other, v, t[2], up);
    var x3 := Exchange(x2.h, i, self, x2.g, q, v, other, t[2], up);
    ExchangeIs(x3.h, j, q, other, x3.g, i, p, self, v, t[3], up');
    var x4 := Exchange(x3.h, j, other, x3.g, p, v, self, t[3], up');
    ExchangeIs(x4.h, i, p, self, x4.g, j, q, other, v, t[4], up);
  }
}
