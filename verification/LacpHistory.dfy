/**
 What a member knows of its partner is what it was last told: over every run of
 a LAG, by the LACPDUs received on its port since it joined, or since LACP was
 turned on. And so the trunk table is earned by LACPDUs really received.
 */
module LacpHistory {
  import Wrappers
  import opened LacpState
  import opened LacpSafety

  /** How long a partner is believed, by the timeout we had asked it for. */
  function Patience(actor: bv8): int {
    if Has(actor, TIMEOUT) then 3000 else 90000
  }

  predicate HasMember(g: Lag, port: nat) {
    exists j :: 0 <= j < |g.members| && g.members[j].port == port
  }

  predicate WaitsFor(g: Lag, port: nat, expires: int, now: int) {
    exists j :: 0 <= j < |g.members| && g.members[j].port == port && expires == now + Patience(g.members[j].actor)
  }

  /** An LACPDU that a member on this port hears. */
  predicate Hears(g: Lag, e: Event, port: nat) {
    e.EvRx? && e.port == port && g.lacp && HasMember(g, port)
  }

  /** It is what the member knows: its sender, what that takes us for, and until
      when. */
  predicate Told(g: Lag, e: Event, m: Member) {
    Hears(g, e, m.port) && m.partner == e.partner && m.view == e.view && WaitsFor(g, m.port, m.expires, e.now)
  }

  /** What this member knows is what step i of the run told it, the last step to
      tell it anything; and it has been a member since, under LACP. */
  ghost predicate LastTold(rs: seq<Run>, es: seq<Event>, n: nat, m: Member, i: nat)
    requires n < |rs| && n <= |es|
  {
    && i < n && Told(rs[i].g, es[i], m)
    && (forall j {:trigger es[j]} :: i < j < n ==> !Hears(rs[j].g, es[j], m.port))
    && (forall j {:trigger rs[j]} :: i < j <= n ==> rs[j].g.lacp && HasMember(rs[j].g, m.port))
  }

  /** Only LACP has partners. */
  predicate OnlyLacp(g: Lag) {
    forall i :: 0 <= i < |g.members| && g.members[i].valid ==> g.lacp
  }

  /** The same record of a partner. */
  predicate SameRecord(a: Member, m: Member) {
    a.valid && a.port == m.port && a.partner == m.partner && a.view == m.view && a.expires == m.expires
  }

  predicate Kept(g: Lag, m: Member) {
    exists j :: 0 <= j < |g.members| && SameRecord(g.members[j], m)
  }

  /** Where a valid record comes from, in one step: what was heard, or what was
      there. */
  ghost predicate Came(g: Lag, e: Event, m: Member) {
    Told(g, e, m) || (Kept(g, m) && !Hears(g, e, m.port))
  }

  lemma SpokenRecord(slow: bool, passive: bool, held: bool, agg: Wrappers.Option<Peer>, a: Member, now: int)
    ensures var m := Speak(Mux(slow, passive, held, agg, a), passive, now);
      m.valid == a.valid && m.port == a.port && m.partner == a.partner && m.view == a.view && m.expires == a.expires
  {
    var x := Mux(slow, passive, held, agg, a);
    assert x.valid == a.valid && x.port == a.port && x.partner == a.partner && x.view == a.view;
    assert x.expires == a.expires;
  }

  lemma SampledRecord(g: Lag, now: int, up: set<nat>, held: bool, k: nat)
    requires k < |g.members|
    ensures var a, m := g.members[k], ExpireAll(SampleAll(g, up, held), now)[k];
      (m.valid ==> a.valid) && m.port == a.port && m.partner == a.partner && m.view == a.view && m.expires == a.expires
  {
  }

  lemma StaticRecord(g: Lag, now: int, up: set<nat>, held: bool, k: nat)
    requires k < |g.members| && !g.lacp && Tick(g, now, up, held).members[k].valid
    ensures SameRecord(g.members[k], Tick(g, now, up, held).members[k])
  {
    assert Tick(g, now, up, held).members[k] == Sample(g.members[k], g.members[k].port in up, g.lacp, held);
  }

  lemma TickCame(g: Lag, now: int, up: set<nat>, held: bool, k: nat)
    requires k < |Tick(g, now, up, held).members| && Tick(g, now, up, held).members[k].valid
    ensures Kept(g, Tick(g, now, up, held).members[k])
  {
    TickLength(g, now, up, held);
    if g.lacp {
      TickMember(g, now, up, held, k);
      var ms := ExpireAll(SampleAll(g, up, held), now);
      SpokenRecord(g.slow, g.passive, held, Aggregator(ms), ms[k], now);
      SampledRecord(g, now, up, held, k);
    } else {
      StaticRecord(g, now, up, held, k);
    }
    assert SameRecord(g.members[k], Tick(g, now, up, held).members[k]);
  }

  lemma RxCame(g: Lag, e: Event, k: nat)
    requires e.EvRx? && Distinct(g.members) && OnlyLacp(g)
    requires k < |Step(g, e).members| && Step(g, e).members[k].valid
    ensures Came(g, e, Step(g, e).members[k])
  {
    var i := FindPort(g.members, e.port);
    var m := Step(g, e).members[k];
    if i < |g.members| && g.lacp && k == i {
      assert g.members[i].port == m.port && m.expires == e.now + Patience(g.members[i].actor);
    } else {
      assert SameRecord(g.members[k], m);
      assert i < |g.members| ==> k == i || g.members[k].port != e.port;
    }
  }

  lemma LeaveCame(g: Lag, i: nat, k: nat)
    requires i < |g.members| && k < |Leave(g, i).members| && Leave(g, i).members[k].valid
    ensures Kept(g, Leave(g, i).members[k])
  {
    var n := |g.members| - 1;
    assert SameRecord(g.members[if k == i then n else k], Leave(g, i).members[k]);
  }

  /** Every other event leaves records as they are, or makes none. */
  lemma QuietCame(g: Lag, e: Event, k: nat)
    requires !e.EvTick? && !e.EvRx? && !e.EvLeave? && k < |Step(g, e).members| && Step(g, e).members[k].valid
    ensures k < |g.members| && SameRecord(g.members[k], Step(g, e).members[k]) && Step(g, e).lacp == g.lacp
  {
    match e
    case EvJoin(port) =>
    case EvMode(lacp) =>
    case EvOptions(slow, passive) =>
    case EvLinkscan =>
    case EvPop =>
    case EvClose =>
  }

  lemma StepCame(g: Lag, e: Event, k: nat)
    requires Distinct(g.members) && OnlyLacp(g) && k < |Step(g, e).members| && Step(g, e).members[k].valid
    ensures Came(g, e, Step(g, e).members[k]) && Step(g, e).lacp == g.lacp
  {
    if e.EvTick? {
      TickCame(g, e.now, e.up, e.held, k);
      TickLength(g, e.now, e.up, e.held);
    } else if e.EvRx? {
      RxCame(g, e, k);
    } else if e.EvLeave? && !g.closing && e.i < |g.members| {
      LeaveCame(g, e.i, k);
    } else if e.EvLeave? {
      assert SameRecord(g.members[k], Step(g, e).members[k]);
    } else {
      QuietCame(g, e, k);
    }
  }

  lemma StepOnlyLacp(g: Lag, e: Event)
    requires Distinct(g.members) && OnlyLacp(g)
    ensures OnlyLacp(Step(g, e))
  {
    forall k | 0 <= k < |Step(g, e).members| && Step(g, e).members[k].valid ensures Step(g, e).lacp {
      StepCame(g, e, k);
    }
  }

  lemma {:induction false} RunOnlyLacp(rs: seq<Run>, es: seq<Event>, n: nat)
    requires IsRun(rs, es) && Made(rs[0]) && n <= |es|
    ensures OnlyLacp(rs[n].g)
  {
    if n > 0 {
      RunOnlyLacp(rs, es, n - 1);
      RunKeeps(rs, es, n - 1);
      StepOnlyLacp(rs[n - 1].g, es[n - 1]);
    }
  }

  lemma StillLast(rs: seq<Run>, es: seq<Event>, n: nat, a: Member, m: Member, i: nat)
    requires 0 < n <= |es| && |rs| == |es| + 1 && LastTold(rs, es, n - 1, a, i) && SameRecord(a, m)
    requires !Hears(rs[n - 1].g, es[n - 1], m.port) && rs[n].g.lacp && HasMember(rs[n].g, m.port)
    ensures LastTold(rs, es, n, m, i)
  {
  }

  /**
   In every run: what a member with a partner knows -- who it is, what it takes us
   for, and until when -- is what the last LACPDU on its port said, received while
   it was a member under LACP, as it has been ever since.
   */
  lemma {:induction false} KnowsWhatItWasTold(rs: seq<Run>, es: seq<Event>, n: nat, k: nat)
    requires IsRun(rs, es) && Made(rs[0]) && n <= |es| && k < |rs[n].g.members| && rs[n].g.members[k].valid
    ensures exists i: nat :: LastTold(rs, es, n, rs[n].g.members[k], i)
  {
    RunOnlyLacp(rs, es, n);
    if n > 0 {
      RunOnlyLacp(rs, es, n - 1);
      RunKeeps(rs, es, n - 1);
      var g, e, m := rs[n - 1].g, es[n - 1], rs[n].g.members[k];
      StepCame(g, e, k);
      assert HasMember(rs[n].g, m.port);
      if Told(g, e, m) {
        assert LastTold(rs, es, n, m, n - 1);
      } else {
        var j :| 0 <= j < |g.members| && SameRecord(g.members[j], m);
        KnowsWhatItWasTold(rs, es, n - 1, j);
        var i: nat :| LastTold(rs, es, n - 1, g.members[j], i);
        StillLast(rs, es, n, g.members[j], m, i);
      }
    }
  }

  // ----- the table -----

  /** The last evaluation was step t - 1. */
  ghost predicate EvaluatedAt(rs: seq<Run>, es: seq<Event>, n: nat, t: nat)
    requires |rs| == |es| + 1 && n <= |es|
  {
    0 < t <= n && es[t - 1].EvTick? && rs[t - 1].g.lacp && rs[t].g.members == rs[n].last && es[t - 1].now == rs[n].at
  }

  lemma {:induction false} LastEvaluation(rs: seq<Run>, es: seq<Event>, n: nat)
    requires IsRun(rs, es) && Made(rs[0]) && n <= |es|
    ensures rs[n].last == [] || exists t: nat :: EvaluatedAt(rs, es, n, t)
  {
    if n > 0 {
      LastEvaluation(rs, es, n - 1);
      if es[n - 1].EvTick? && rs[n - 1].g.lacp {
        assert EvaluatedAt(rs, es, n, n);
      } else if rs[n].last != [] {
        var t: nat :| EvaluatedAt(rs, es, n - 1, t);
        assert EvaluatedAt(rs, es, n, t);
      }
    }
  }

  /** Port p earned its place at the evaluation that was step t - 1, by the LACPDU
      that was step i: the last one on it before, from an aggregatable partner in
      sync and collecting, not yet out of date, its link being up. */
  ghost predicate EarnedBy(rs: seq<Run>, es: seq<Event>, t: nat, i: nat, p: nat)
    requires |rs| == |es| + 1 && 0 < t <= |es|
  {
    && es[t - 1].EvTick? && p in es[t - 1].up && !es[t - 1].held && i < t && Hears(rs[i].g, es[i], p)
    && (forall j {:trigger es[j]} :: i < j < t ==> !Hears(rs[j].g, es[j], p))
    && Has(es[i].partner.state, AGGREGATION) && Has(es[i].partner.state, SYNC) && Has(es[i].partner.state, COLLECTING)
    && exists expires :: WaitsFor(rs[i].g, p, expires, es[i].now) && es[t - 1].now < expires
  }

  /** Two ports earned it, by LACPDUs from one system and key. */
  ghost predicate BothEarned(rs: seq<Run>, es: seq<Event>, t: nat, p: nat, q: nat)
    requires |rs| == |es| + 1 && 0 < t <= |es|
  {
    exists i: nat, j: nat ::
      EarnedBy(rs, es, t, i, p) && EarnedBy(rs, es, t, j, q) && SameSystem(es[i].partner, es[j].partner)
  }

  /** A member that distributes after a tick has a partner, and earned it. */
  lemma DistEarned(g: Lag, now: int, up: set<nat>, held: bool, k: nat)
    requires g.lacp && k < |g.members| == |Tick(g, now, up, held).members| && Tick(g, now, up, held).members[k].dist
    ensures var m := Tick(g, now, up, held).members[k];
      m.valid && m.port in up && !held && Earned(m.link, m.expires, m.partner, now)
  {
    TickDecides(g, now, up, held, k);
    TickMember(g, now, up, held, k);
    var ms := ExpireAll(SampleAll(g, up, held), now);
    SpokenRecord(g.slow, g.passive, held, Aggregator(ms), ms[k], now);
    Expired(g, now, up, held, k);
  }

  lemma GrantEarned(rs: seq<Run>, es: seq<Event>, t: nat, k: nat)
    requires IsRun(rs, es) && Made(rs[0]) && 0 < t <= |es| && es[t - 1].EvTick? && rs[t - 1].g.lacp
    requires k < |rs[t].g.members| && rs[t].g.members[k].dist
    ensures var m := rs[t].g.members[k]; exists i: nat :: EarnedBy(rs, es, t, i, m.port) && es[i].partner == m.partner
  {
    var g, e, m := rs[t - 1].g, es[t - 1], rs[t].g.members[k];
    TickLength(g, e.now, e.up, e.held);
    DistEarned(g, e.now, e.up, e.held, k);
    KnowsWhatItWasTold(rs, es, t, k);
    var i: nat :| LastTold(rs, es, t, m, i);
    assert WaitsFor(rs[i].g, m.port, m.expires, es[i].now);
    assert EarnedBy(rs, es, t, i, m.port);
  }

  /**
   In every run, under LACP, every port in the trunk table earned its place at the
   last evaluation by an LACPDU received on it, and any two of them by LACPDUs from
   one system and key.
   */
  lemma TrunkEarnedByPdus(rs: seq<Run>, es: seq<Event>, n: nat, p: nat, q: nat)
    requires IsRun(rs, es) && Made(rs[0]) && n <= |es| && !rs[n].g.closing && rs[n].g.lacp
    requires p in rs[n].g.table && q in rs[n].g.table
    ensures exists t: nat :: EvaluatedAt(rs, es, n, t) && BothEarned(rs, es, t, p, q)
  {
    RunKeeps(rs, es, n);
    var r := rs[n];
    ListedPorts(r.g.members, p);
    ListedPorts(r.g.members, q);
    assert Granted(r.last, p) && Granted(r.last, q);
    var x :| 0 <= x < |r.last| && r.last[x].dist && r.last[x].port == p;
    var y :| 0 <= y < |r.last| && r.last[y].dist && r.last[y].port == q;
    LastEvaluation(rs, es, n);
    var t: nat :| EvaluatedAt(rs, es, n, t);
    GrantEarned(rs, es, t, x);
    GrantEarned(rs, es, t, y);
    var i: nat :| EarnedBy(rs, es, t, i, p) && es[i].partner == r.last[x].partner;
    var j: nat :| EarnedBy(rs, es, t, j, q) && es[j].partner == r.last[y].partner;
    assert SameSystem(r.last[x].partner, r.last[y].partner);
    assert BothEarned(rs, es, t, p, q);
  }
}
