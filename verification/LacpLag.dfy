/**
 One LAG as the LAG thread, the receive callback and the configuration change
 it, in place; each method does what the function of the same purpose in
 `LacpState` does to the value.
 */
module LacpLag {
  import opened Wrappers
  import opened LacpState

  class Channel {
    var lacp: bool
    var slow: bool
    var passive: bool
    var members: seq<Member>
    var table: seq<nat>
    var ready: nat
    var relink: bool
    var closing: bool

    function View(): Lag
      reads this
    {
      Lag(lacp, slow, passive, members, table, ready, relink, closing)
    }

    constructor (mode: bool)
      ensures View() == Lag(mode, false, false, [], [], 0, false, false)
    {
      lacp, slow, passive, members, table := mode, false, false, [], [];
      ready, relink, closing := 0, false, false;
    }

    /** The trunk table stated from the members. */
    method State()
      modifies this`table
      ensures View() == Publish(old(View()))
    {
      table := [];
      var i := 0;
      while i < |members|
        invariant 0 <= i <= |members| && table == DistPorts(members[..i])
      {
        assert members[..i + 1][..i] == members[..i];
        if members[i].dist {
          table := table + [members[i].port];
        }
        i := i + 1;
      }
      assert members[..i] == members;
    }

    method Forget(now: int)
      modifies this`members
      ensures members == ExpireAll(old(members), now)
    {
      var i := 0;
      while i < |members|
        invariant 0 <= i <= |members| == |old(members)|
        invariant forall j :: 0 <= j < |members| ==>
          members[j] == if j < i then Expire(old(members)[j], now) else old(members)[j]
      {
        var m := members[i];
        if m.valid && now >= m.expires {
          m := m.(valid := false, ntt := true);
        }
        if !m.link && m.valid {
          m := m.(valid := false, ntt := true);
        }
        members := members[i := m];
        i := i + 1;
      }
    }

    /** Our state on one link. */
    method StateBits(m: Member, held: bool, sel: bool) returns (st: bv8)
      ensures st == ActorState(slow, passive, held, sel, m)
    {
      st := AGGREGATION | (if passive then 0 else ACTIVITY) | (if slow then 0 else TIMEOUT);
      if !m.valid {
        st := st | (DEFAULTED | (if m.link then EXPIRED else 0));
      }
      if sel && !held {
        st := st | (SYNC | (if Has(m.partner.state, SYNC) then COLLECTING else 0));
      }
      if Has(st, COLLECTING) && Has(m.partner.state, COLLECTING) {
        st := st | DISTRIBUTING;
      }
    }

    /** Is it selected? The first that could be sets the LAG's partner. */
    method Select(m: Member, agg: Option<Peer>) returns (agg': Option<Peer>, sel: bool)
      ensures agg' == if agg.None? && Candidate(m) then Some(m.partner) else agg
      ensures sel == Selected(agg', m)
    {
      sel := m.link && m.valid && Has(m.partner.state, AGGREGATION);
      agg' := agg;
      if sel && agg'.None? {
        agg' := Some(m.partner);
      }
      if sel && (agg'.value.sys != m.partner.sys || agg'.value.key != m.partner.key) {
        sel := false;
      }
    }

    /** One member: selected or not against the partner so far, and its mux. */
    method Decide(i: nat, held: bool, agg: Option<Peer>) returns (agg': Option<Peer>, sel: bool)
      requires i < |members|
      modifies this`members
      ensures agg' == if agg.None? && Candidate(old(members)[i]) then Some(old(members)[i].partner) else agg
      ensures sel == Selected(agg', old(members)[i])
      ensures members == old(members)[i := Mux(slow, passive, held, agg', old(members)[i])]
    {
      var m := members[i];
      agg', sel := Select(m, agg);
      var st := StateBits(m, held, sel);
      if st != m.actor {
        m := m.(actor := st, ntt := true);
      }
      members := members[i := m.(dist := Has(st, DISTRIBUTING))];
    }

    /** Selection over the members in order: the first candidate's partner is
        the LAG's. */
    method Selection(held: bool)
      modifies this`members, this`ready
      ensures MuxedTo(old(View()), held, old(members), members, |members|)
      ensures ready == CountSelected(Aggregator(old(members)), old(members))
    {
      ghost var g, ms := View(), members;
      var agg: Option<Peer> := None;
      var i, n := 0, 0;
      while i < |members|
        invariant 0 <= i <= |members| == |ms| && agg == Aggregator(ms[..i])
        invariant n == CountSelected(Aggregator(ms), ms[..i])
        invariant MuxedTo(g, held, ms, members, i)
      {
        assert ms[..i + 1][..i] == ms[..i];
        SoFar(slow, passive, held, ms, i);
        var sel;
        agg, sel := Decide(i, held, agg);
        if sel {
          n := n + 1;
        }
        i := i + 1;
      }
      assert ms[..i] == ms;
      ready := n;
    }

    method Evaluation(now: int, held: bool)
      modifies this`members, this`ready
      ensures View() == Evaluate(old(View()), now, held)
    {
      Forget(now);
      ghost var ms := members;
      Selection(held);
      assert members == MuxAll(old(View()), held, Aggregator(ms), ms);
    }

    /** Links read from the chip; `changed` when a static member started or
        stopped carrying. */
    method Sampling(up: set<nat>, held: bool) returns (changed: bool)
      modifies this`members
      ensures members == SampleAll(old(View()), up, held)
      ensures changed == !SameDist(old(members), members)
    {
      ghost var was := members;
      changed := false;
      var i := 0;
      while i < |members|
        invariant 0 <= i <= |members| == |was|
        invariant forall j :: 0 <= j < |was| ==>
          members[j] == if j < i then Sample(was[j], was[j].port in up, lacp, held) else was[j]
        invariant changed <==> exists j :: 0 <= j < i && members[j].dist != was[j].dist
      {
        var m := members[i];
        if (m.port in up) != m.link {
          m := m.(link := m.port in up, ntt := true);
        }
        if !lacp && m.dist != (m.link && !held) {
          m := m.(dist := m.link && !held);
          changed := true;
        }
        members := members[i := m];
        i := i + 1;
      }
    }

    /** LACPDUs out where they are due. */
    method Speaking(now: int)
      modifies this`members
      ensures members == SpeakAll(old(View()), now)
    {
      ghost var was := members;
      var i := 0;
      while i < |members|
        invariant 0 <= i <= |members| == |was|
        invariant forall j :: 0 <= j < |was| ==> members[j] == if j < i then Speak(was[j], passive, now) else was[j]
      {
        var m := members[i];
        var period := if m.valid && !Has(m.partner.state, TIMEOUT) then SLOW_PERIOD else FAST_PERIOD;
        var quiet := passive && !(m.valid && Has(m.partner.state, ACTIVITY)) &&
                     !(m.ntt && m.valid && Has(m.view.state, ACTIVITY));
        if m.link && !quiet && (m.ntt || now >= m.nextTx) {
          members := members[i := m.(ntt := false, nextTx := now + period)];
        }
        i := i + 1;
      }
    }

    /** Did an evaluation change who distributes? */
    method Moved(was: seq<Member>) returns (changed: bool)
      requires |was| == |members|
      ensures changed == !SameDist(was, members)
    {
      changed := false;
      var i := 0;
      while i < |members|
        invariant 0 <= i <= |members|
        invariant changed <==> exists j :: 0 <= j < i && was[j].dist != members[j].dist
      {
        if was[i].dist != members[i].dist {
          changed := true;
        }
        i := i + 1;
      }
    }

    /** The LACP part of a tick. */
    method Turn(now: int, held: bool) returns (moved: bool)
      modifies this`members, this`ready
      ensures View() == Turned(old(View()), now, held)
      ensures moved == !SameDist(old(members), members)
    {
      var was := members;
      Evaluation(now, held);
      assert |members| == |was|;
      moved := Moved(was);
      ghost var before := members;
      Speaking(now);
      assert SameDist(before, members);
    }

    method Run(now: int, held: bool) returns (moved: bool)
      modifies this`members, this`ready
      ensures View() == if lacp then Turned(old(View()), now, held) else old(View())
      ensures moved == !SameDist(old(members), members)
    {
      moved := false;
      if lacp {
        moved := Turn(now, held);
      }
    }

    method OnTick(now: int, up: set<nat>, held: bool)
      modifies this
      ensures View() == Tick(old(View()), now, up, held)
    {
      ghost var g := View();
      var changed := Sampling(up, held);
      changed := changed || relink;
      relink := false;
      assert View() == g.(members := SampleAll(g, up, held), relink := false);
      var moved := Run(now, held);
      changed := changed || moved;
      TickBy(g, View(), now, up, held);
      if changed {
        State();
      }
    }

    /** An LACPDU on a port. */
    method OnPdu(port: nat, partner: Peer, view: Peer, self: Peer, now: int)
      modifies this`members
      ensures View() == Rx(old(View()), port, partner, view, self, now)
    {
      var i := 0;
      while i < |members| && members[i].port != port
        invariant 0 <= i <= |members| && forall j :: 0 <= j < i ==> members[j].port != port
      {
        i := i + 1;
      }
      FoundPort(members, port, i);
      if i == |members| || !lacp {
        return;
      }
      var m := members[i];
      var ntt := m.ntt || !m.valid || m.partner != partner;
      if self.sys != view.sys || self.key != view.key || self.port != view.port || m.actor != view.state {
        ntt := true;
      }
      members := members[i := m.(partner := partner, view := view, valid := true, ntt := ntt,
                                 expires := now + (if Has(m.actor, TIMEOUT) then SHORT_TIMEOUT else LONG_TIMEOUT))];
    }

    method OnJoin(port: nat)
      modifies this`members
      ensures View() == Join(old(View()), port)
    {
      members := members + [Member(port, false, false, 0, NOBODY, NOBODY, false, 0, true, 0)];
    }

    /** Out, and the trunk table stated without it. */
    method OnLeave(i: nat)
      requires i < |members|
      modifies this`members, this`table
      ensures View() == Leave(old(View()), i)
    {
      var n := |members| - 1;
      members := members[i := members[n]];
      members := members[..n];
      State();
    }

    method OnMode(mode: bool)
      modifies this
      ensures View() == SetMode(old(View()), mode)
    {
      if lacp != mode {
        lacp := mode;
        ghost var was := members;
        var i := 0;
        while i < |members|
          invariant 0 <= i <= |members| == |was| && lacp == mode && slow == old(slow) && passive == old(passive)
          invariant relink == old(relink) && closing == old(closing) && ready == old(ready) && table == old(table)
          invariant forall j :: 0 <= j < |was| ==> members[j] == if j < i then Reset(was[j]) else was[j]
        {
          members := members[i := members[i].(valid := false, dist := false, actor := 0, ntt := true)];
          i := i + 1;
        }
        assert members == ResetAll(was);
        State();
      }
    }
  }

  /** A tick from where the LACP part has left it. */
  lemma TickBy(g: Lag, t: Lag, now: int, up: set<nat>, held: bool)
    requires var s := g.(members := SampleAll(g, up, held), relink := false);
      t == if g.lacp then Turned(s, now, held) else s
    ensures Tick(g, now, up, held) == if g.relink || !SameDist(g.members, t.members) then Publish(t) else t
    ensures g.lacp ==> SameDist(g.members, SampleAll(g, up, held))
  {
    if g.lacp {
      SampleKeepsDist(g, up, held);
    }
  }

  lemma SampleKeepsDist(g: Lag, up: set<nat>, held: bool)
    requires g.lacp
    ensures SameDist(g.members, SampleAll(g, up, held))
  {
  }

  lemma FoundPort(ms: seq<Member>, port: nat, i: nat)
    requires i <= |ms| && (i < |ms| ==> ms[i].port == port) && forall j :: 0 <= j < i ==> ms[j].port != port
    ensures FindPort(ms, port) == i
  {
  }

  /** The first n of ms have been through the mux, the rest are as they were. */
  ghost predicate MuxedTo(g: Lag, held: bool, ms: seq<Member>, now: seq<Member>, n: nat) {
    |now| == |ms| && forall j {:trigger now[j]} :: 0 <= j < |ms| ==>
      now[j] == if j < n then Mux(g.slow, g.passive, held, Aggregator(ms), ms[j]) else ms[j]
  }

  /** Deciding against the partner found so far is deciding against the LAG's. */
  lemma SoFar(slow: bool, passive: bool, held: bool, ms: seq<Member>, i: nat)
    requires i < |ms|
    ensures var a := Aggregator(ms[..i + 1]);
      (Selected(a, ms[i]) <==> Selected(Aggregator(ms), ms[i])) &&
      Mux(slow, passive, held, a, ms[i]) == Mux(slow, passive, held, Aggregator(ms), ms[i])
    ensures Aggregator(ms[..i + 1]) ==
            if Aggregator(ms[..i]).None? && Candidate(ms[i]) then Some(ms[i].partner) else Aggregator(ms[..i])
  {
    assert ms[..i + 1][..i] == ms[..i];
    Settled(ms, i + 1);
  }

  /** The first candidate's partner stays the LAG's, however many follow. */
  lemma {:induction false} Settled(ms: seq<Member>, n: nat)
    requires n <= |ms|
    ensures Aggregator(ms[..n]).Some? ==> Aggregator(ms) == Aggregator(ms[..n])
    decreases |ms| - n
  {
    if n < |ms| {
      assert ms[..n + 1][..n] == ms[..n];
      Settled(ms, n + 1);
    } else {
      assert ms[..n] == ms;
    }
  }
}
