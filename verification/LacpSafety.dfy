/**
 What every run of a LAG keeps: the trunk table lists exactly the members
 flagged distributing, and under LACP each of them earned that at the last
 evaluation -- its link up, its partner heard from in time and aggregatable,
 in sync and collecting -- and all of them face one partner system and key.
 */
module LacpSafety {
  import opened Wrappers
  import opened LacpState

  // ----- the table, by members -----

  lemma {:induction false} ListedPorts(ms: seq<Member>, p: nat)
    ensures p in DistPorts(ms) <==> exists i :: 0 <= i < |ms| && ms[i].dist && ms[i].port == p
  {
    if ms != [] {
      var n := |ms| - 1;
      var front := ms[..n];
      ListedPorts(front, p);
      if i :| 0 <= i < n && front[i].dist && front[i].port == p {
        assert ms[i].dist && ms[i].port == p;
      }
      if i :| 0 <= i < |ms| && ms[i].dist && ms[i].port == p {
        assert i < n ==> front[i] == ms[i];
      }
    }
  }

  lemma {:induction false} SameTable(a: seq<Member>, b: seq<Member>)
    requires SameDist(a, b) && forall i :: 0 <= i < |a| ==> a[i].port == b[i].port
    ensures DistPorts(a) == DistPorts(b)
  {
    if a != [] {
      var n := |a| - 1;
      SameTable(a[..n], b[..n]);
    }
  }

  lemma JoinTable(ms: seq<Member>, m: Member)
    requires !m.dist
    ensures DistPorts(ms + [m]) == DistPorts(ms)
  {
    assert (ms + [m])[..|ms|] == ms;
  }

  // ----- the aggregator -----

  /** Member i is the first candidate. */
  predicate First(ms: seq<Member>, i: nat) {
    i < |ms| && Candidate(ms[i]) && forall j :: 0 <= j < i ==> !Candidate(ms[j])
  }

  lemma {:induction false} AggregatorIsFirst(ms: seq<Member>)
    ensures Aggregator(ms).None? ==> forall i :: 0 <= i < |ms| ==> !Candidate(ms[i])
    ensures Aggregator(ms).Some? ==> exists i: nat :: First(ms, i) && Aggregator(ms) == Some(ms[i].partner)
  {
    if ms != [] {
      var n := |ms| - 1;
      var front := ms[..n];
      AggregatorIsFirst(front);
      assert forall i :: 0 <= i < n ==> front[i] == ms[i];
      if Aggregator(front).Some? {
        var i: nat :| First(front, i) && Aggregator(front) == Some(front[i].partner);
        assert First(ms, i) && ms[i] == front[i];
      } else if Candidate(ms[n]) {
        assert First(ms, n);
      }
    }
  }

  /** What it takes to distribute, of a member with link l at time now: its
      partner heard in time, aggregatable, in sync and collecting. */
  predicate Earned(link: bool, expires: int, partner: Peer, now: int) {
    link && now < expires && Has(partner.state, AGGREGATION) && Has(partner.state, SYNC) &&
      Has(partner.state, COLLECTING)
  }

  /** The mux, without its bits: a member distributes exactly when it is
      selected, not held, and its partner is in sync and collecting. */
  lemma MuxDist(slow: bool, passive: bool, held: bool, agg: Option<Peer>, m: Member)
    ensures Mux(slow, passive, held, agg, m).dist <==>
      Selected(agg, m) && !held && Has(m.partner.state, SYNC) && Has(m.partner.state, COLLECTING)
  {
  }

  /** A member of a LAG about to be evaluated could be the first candidate. */
  predicate Hopeful(m: Member, up: set<nat>, now: int) {
    m.port in up && m.valid && now < m.expires && Has(m.partner.state, AGGREGATION)
  }

  predicate FirstHopeful(ms: seq<Member>, up: set<nat>, now: int, i: nat) {
    i < |ms| && Hopeful(ms[i], up, now) && forall j :: 0 <= j < i ==> !Hopeful(ms[j], up, now)
  }

  lemma Expired(g: Lag, now: int, up: set<nat>, held: bool, i: nat)
    requires i < |g.members| && g.lacp
    ensures var ms := ExpireAll(SampleAll(g, up, held), now);
      ms[i].port == g.members[i].port && ms[i].partner == g.members[i].partner &&
        ms[i].expires == g.members[i].expires &&
      ms[i].link == (ms[i].port in up) && (Candidate(ms[i]) <==> Hopeful(g.members[i], up, now))
  {
  }

  /** A member after a tick is the expired one through the mux, having
      spoken or not. */
  lemma TickMember(g: Lag, now: int, up: set<nat>, held: bool, i: nat)
    requires g.lacp && i < |g.members|
    ensures |Tick(g, now, up, held).members| == |g.members|
    ensures var ms := ExpireAll(SampleAll(g, up, held), now);
      Tick(g, now, up, held).members[i] ==
      Speak(Mux(g.slow, g.passive, held, Aggregator(ms), ms[i]), g.passive, now)
  {
    var sampled := g.(members := SampleAll(g, up, held), relink := false);
    assert Tick(g, now, up, held).members == Turned(sampled, now, held).members;
  }

  /** Selection as the whole LAG has it. */
  ghost predicate Chosen(ms: seq<Member>, up: set<nat>, now: int, m: Member) {
    Hopeful(m, up, now) && exists f: nat :: FirstHopeful(ms, up, now, f) && SameSystem(ms[f].partner, m.partner)
  }

  lemma SelectedIsChosen(g: Lag, now: int, up: set<nat>, held: bool, i: nat)
    requires g.lacp && i < |g.members|
    ensures var ms := ExpireAll(SampleAll(g, up, held), now);
      Selected(Aggregator(ms), ms[i]) <==> Chosen(g.members, up, now, g.members[i])
  {
    var ms := ExpireAll(SampleAll(g, up, held), now);
    var agg := Aggregator(ms);
    AggregatorIsFirst(ms);
    forall j | 0 <= j < |ms|
      ensures ms[j].partner == g.members[j].partner && (Candidate(ms[j]) <==> Hopeful(g.members[j], up, now))
    {
      Expired(g, now, up, held, j);
    }
    if agg.Some? {
      var f: nat :| First(ms, f) && agg == Some(ms[f].partner);
      assert FirstHopeful(g.members, up, now, f);
      assert forall x: nat :: FirstHopeful(g.members, up, now, x) ==> x == f;
    }
  }

  /** What a tick decides, for every member: it distributes exactly when it is
      up, unheld, its partner heard in time and aggregatable, in sync and
      collecting, and that partner is the system and key of the first member
      to have such a partner. */
  lemma TickDecides(g: Lag, now: int, up: set<nat>, held: bool, i: nat)
    requires g.lacp && i < |g.members|
    ensures var m, n := g.members[i], Tick(g, now, up, held).members;
      |n| == |g.members| && n[i].port == m.port && n[i].partner == m.partner && n[i].expires == m.expires &&
      n[i].link == (m.port in up) &&
      (n[i].dist <==> !held && Chosen(g.members, up, now, m) &&
                      Has(m.partner.state, SYNC) && Has(m.partner.state, COLLECTING))
  {
    var ms := ExpireAll(SampleAll(g, up, held), now);
    TickMember(g, now, up, held, i);
    SelectedIsChosen(g, now, up, held, i);
    Expired(g, now, up, held, i);
    MuxDist(g.slow, g.passive, held, Aggregator(ms), ms[i]);
  }

  // ----- every run -----

  /** A LAG, and its members as its last LACP evaluation left them, at time at. */
  datatype Run = Run(g: Lag, at: int, last: seq<Member>)

  function RunStep(r: Run, e: Event): Run {
    var g := Step(r.g, e);
    if e.EvTick? && r.g.lacp then Run(g, e.now, g.members) else Run(g, r.at, r.last)
  }

  predicate Granted(last: seq<Member>, p: nat) {
    exists j :: 0 <= j < |last| && last[j].dist && last[j].port == p
  }

  ghost predicate Distinct(ms: seq<Member>) {
    forall i, j :: 0 <= i < j < |ms| ==> ms[i].port != ms[j].port
  }

  /** All that were let distribute had earned it, from one partner. */
  ghost predicate FairGrants(last: seq<Member>, at: int) {
    (forall j :: 0 <= j < |last| && last[j].dist ==> Earned(last[j].link, last[j].expires, last[j].partner, at)) &&
    forall i, j :: 0 <= i < |last| && 0 <= j < |last| && last[i].dist && last[j].dist ==>
      SameSystem(last[i].partner, last[j].partner)
  }

  ghost predicate Within(ms: seq<Member>, last: seq<Member>) {
    forall i :: 0 <= i < |ms| && ms[i].dist ==> Granted(last, ms[i].port)
  }

  ghost predicate Inv(r: Run) {
    Distinct(r.g.members) && (!r.g.closing ==> r.g.table == DistPorts(r.g.members)) &&
    (r.g.lacp ==> Within(r.g.members, r.last)) && FairGrants(r.last, r.at)
  }

  lemma TickFair(g: Lag, now: int, up: set<nat>, held: bool)
    requires g.lacp
    ensures FairGrants(Tick(g, now, up, held).members, now)
  {
    var n := Tick(g, now, up, held).members;
    forall i | 0 <= i < |g.members|
      ensures |n| == |g.members| && n[i].partner == g.members[i].partner &&
        (n[i].dist ==> Chosen(g.members, up, now, g.members[i]) && Earned(n[i].link, n[i].expires, n[i].partner, now))
    {
      TickDecides(g, now, up, held, i);
    }
    TickLength(g, now, up, held);
    forall i, j | 0 <= i < |n| && 0 <= j < |n| && n[i].dist && n[j].dist
      ensures SameSystem(n[i].partner, n[j].partner) {
      OneSystem(g.members, up, now, g.members[i], g.members[j]);
    }
  }

  lemma TickLength(g: Lag, now: int, up: set<nat>, held: bool)
    ensures |Tick(g, now, up, held).members| == |g.members| && Tick(g, now, up, held).lacp == g.lacp
    ensures Tick(g, now, up, held).closing == g.closing
  {
  }

  lemma OneSystem(ms: seq<Member>, up: set<nat>, now: int, a: Member, b: Member)
    requires Chosen(ms, up, now, a) && Chosen(ms, up, now, b)
    ensures SameSystem(a.partner, b.partner)
  {
    var f: nat :| FirstHopeful(ms, up, now, f) && SameSystem(ms[f].partner, a.partner);
    var h: nat :| FirstHopeful(ms, up, now, h) && SameSystem(ms[h].partner, b.partner);
    assert f == h;
  }

  lemma TickPorts(g: Lag, now: int, up: set<nat>, held: bool, i: nat)
    requires i < |g.members|
    ensures |Tick(g, now, up, held).members| == |g.members|
    ensures Tick(g, now, up, held).members[i].port == g.members[i].port
  {
    TickLength(g, now, up, held);
    if g.lacp {
      TickDecides(g, now, up, held, i);
    }
  }

  lemma TickTable(g: Lag, now: int, up: set<nat>, held: bool)
    requires !g.closing ==> g.table == DistPorts(g.members)
    ensures var n := Tick(g, now, up, held); !n.closing ==> n.table == DistPorts(n.members)
  {
    var n := Tick(g, now, up, held);
    forall i | 0 <= i < |g.members| ensures |n.members| == |g.members| && n.members[i].port == g.members[i].port {
      TickPorts(g, now, up, held, i);
    }
    TickLength(g, now, up, held);
    if !g.relink && SameDist(g.members, n.members) {
      SameTable(g.members, n.members);
    }
  }

  lemma TickKeeps(r: Run, now: int, up: set<nat>, held: bool)
    requires Inv(r)
    ensures Inv(RunStep(r, EvTick(now, up, held)))
  {
    var n := Tick(r.g, now, up, held);
    forall i | 0 <= i < |r.g.members| ensures |n.members| == |r.g.members| && n.members[i].port == r.g.members[i].port {
      TickPorts(r.g, now, up, held, i);
    }
    TickLength(r.g, now, up, held);
    TickTable(r.g, now, up, held);
    if r.g.lacp {
      TickFair(r.g, now, up, held);
    }
  }

  /** An event that changes no port and lets nothing distribute anew. */
  lemma QuietKeeps(r: Run, g: Lag)
    requires Inv(r) && |g.members| == |r.g.members| && g.lacp == r.g.lacp && g.closing == r.g.closing &&
      g.table == r.g.table
    requires forall i :: 0 <= i < |g.members| ==>
      g.members[i].port == r.g.members[i].port && g.members[i].dist == r.g.members[i].dist
    ensures Inv(Run(g, r.at, r.last))
  {
    SameTable(r.g.members, g.members);
    forall i | 0 <= i < |g.members| && g.members[i].dist ensures Granted(r.last, g.members[i].port) || !g.lacp {
      assert r.g.members[i].dist;
    }
  }

  lemma LeaveKeeps(r: Run, i: nat)
    requires Inv(r) && i < |r.g.members| && !r.g.closing
    ensures Inv(Run(Leave(r.g, i), r.at, r.last))
  {
    var n := Leave(r.g, i);
    assert forall j :: 0 <= j < |n.members| ==> n.members[j] == r.g.members[if j == i then |n.members| else j];
  }

  lemma JoinKeeps(r: Run, port: nat)
    requires Inv(r) && FindPort(r.g.members, port) == |r.g.members|
    ensures Inv(Run(Join(r.g, port), r.at, r.last))
  {
    JoinTable(r.g.members, NewMember(port));
  }

  lemma ModeKeeps(r: Run, lacp: bool)
    requires Inv(r)
    ensures Inv(Run(SetMode(r.g, lacp), r.at, r.last))
  {
  }

  lemma PopKeeps(r: Run)
    requires Inv(r)
    ensures Inv(Run(Pop(r.g), r.at, r.last)) && Inv(Run(Close(r.g), r.at, r.last))
  {
  }

  lemma StepKeeps(r: Run, e: Event)
    requires Inv(r)
    ensures Inv(RunStep(r, e))
  {
    match e
    case EvTick(now, up, held) => TickKeeps(r, now, up, held);
    case EvRx(port, partner, view, self, now) => QuietKeeps(r, Rx(r.g, port, partner, view, self, now));
    case EvJoin(port) =>
      if !r.g.closing && FindPort(r.g.members, port) == |r.g.members| {
        JoinKeeps(r, port);
      }
    case EvLeave(i) =>
      if !r.g.closing && i < |r.g.members| {
        LeaveKeeps(r, i);
      }
    case EvMode(lacp) => ModeKeeps(r, lacp);
    case EvOptions(slow, passive) => QuietKeeps(r, Options(r.g, slow, passive));
    case EvLinkscan => QuietKeeps(r, r.g.(relink := true));
    case EvPop => PopKeeps(r);
    case EvClose => PopKeeps(r);
  }

  ghost predicate IsRun(rs: seq<Run>, es: seq<Event>) {
    |rs| == |es| + 1 && forall i :: 0 <= i < |es| ==> rs[i + 1] == RunStep(rs[i], es[i])
  }

  /** A LAG as it is made: no members, an empty table. */
  predicate Made(r: Run) {
    r.g.members == [] && r.g.table == [] && !r.g.closing && r.last == []
  }

  lemma {:induction false} RunKeeps(rs: seq<Run>, es: seq<Event>, n: nat)
    requires IsRun(rs, es) && Made(rs[0]) && n <= |es|
    ensures Inv(rs[n])
  {
    if n > 0 {
      RunKeeps(rs, es, n - 1);
      StepKeeps(rs[n - 1], es[n - 1]);
    }
  }

  /** In every run, whatever arrives and whoever joins or leaves: the trunk
      table holds exactly the members flagged distributing; and under LACP
      every port in it, as of the last evaluation, had its link and an
      unexpired partner that was aggregatable, in sync and collecting, and any
      two of them had one partner system and key. */
  lemma TrunkIsEarned(rs: seq<Run>, es: seq<Event>, n: nat, p: nat, q: nat)
    requires IsRun(rs, es) && Made(rs[0]) && n <= |es| && !rs[n].g.closing
    ensures p in rs[n].g.table <==>
      exists i :: 0 <= i < |rs[n].g.members| && rs[n].g.members[i].dist && rs[n].g.members[i].port == p
    ensures rs[n].g.lacp && p in rs[n].g.table ==> Deserved(rs[n].last, rs[n].at, p)
    ensures rs[n].g.lacp && p in rs[n].g.table && q in rs[n].g.table ==> Alike(rs[n].last, p, q)
  {
    RunKeeps(rs, es, n);
    var r := rs[n];
    ListedPorts(r.g.members, p);
    ListedPorts(r.g.members, q);
    if r.g.lacp && p in r.g.table {
      assert Granted(r.last, p);
      if q in r.g.table {
        assert Granted(r.last, q);
      }
    }
  }

  ghost predicate Deserved(last: seq<Member>, at: int, p: nat) {
    exists j :: 0 <= j < |last| && last[j].port == p && Earned(last[j].link, last[j].expires, last[j].partner, at)
  }

  ghost predicate Alike(last: seq<Member>, p: nat, q: nat) {
    exists i, j :: 0 <= i < |last| && 0 <= j < |last| && last[i].port == p && last[j].port == q &&
      SameSystem(last[i].partner, last[j].partner)
  }
}
