/**
 BPDUs going out: what a run sends, and what comes of a proposal that is
 answered. Two bridges joined by a link have it forwarding after one exchange.
 */
module RstpHandshake {
  import opened Wrappers
  import opened RstpVector
  import opened RstpState
  import opened RstpSafety
  import opened RstpTrace
  import opened RstpProgress
  import opened RstpHeard
  import RstpAge

  // ----- what is sent -----

  /** A time as the other end will read it. */
  function Carried(ms: int): int {
    if ms < 0 then 0 else RstpAge.OverWire(ms)
  }

  function ClaimOf(role: Role): Claim {
    if role == RoleRoot then ClaimRoot else if role == RoleDesignated then ClaimDesignated else ClaimAltBackup
  }

  /** send_bpdu: the vector its bridge offers on the port, the root's times but
      its own hello, and, to a neighbour that speaks RSTP, the port's role, state
      and handshake. */
  function BpduFrom(b: Bridge, p: Port, now: int): Bpdu {
    Bpdu(if p.sendRstp then RstBpdu else ConfigBpdu, Vector(b.rootPv.root, b.rootPv.cost, b.id, p.id),
         Times(Carried(b.rootTimes.msgAge), Carried(b.rootTimes.maxAge), Carried(b.helloMs), Carried(b.rootTimes.fwd)),
         now < p.tcUntil, p.sendRstp && p.proposing && p.role == RoleDesignated,
         if p.sendRstp then ClaimOf(p.role) else ClaimUnknown, p.sendRstp && p.state != Discarding,
         p.sendRstp && p.agree && p.role != RoleDesignated)
  }

  /** What a run hands over to be sent on port k. */
  function RunSends(b: Bridge, e: Env, now: int, k: nat): Option<Bpdu>
    requires k < |b.ports| && EnvFits(e, |b.ports|)
  {
    var t := Started(b, e, now);
    if b.on && Speaks(t.ports[k], e.tx[k], now) then Some(BpduFrom(t, t.ports[k], now)) else None
  }

  /** A port that may send: there is one, and this second is not used up. */
  predicate MaySend(p: Port, tx: Tx, now: int) {
    tx != NoPort && (now - p.txWindow >= 1000 || p.txCount < TX_HOLD)
  }

  // ----- hellos -----

  /** The same in what paces sending. */
  predicate SamePace(p: Port, q: Port) {
    q.txWindow == p.txWindow && q.txCount == p.txCount && q.helloNext == p.helloNext
  }

  lemma PaceTwice(p: Port, q: Port, r: Port)
    requires SamePace(p, q) && (SamePace(q, r) || Alike(q, r))
    ensures SamePace(p, r)
  {
  }

  lemma ToldPace(h: Port, v: Verdict, now: int, helloMs: int)
    ensures SamePace(h, Told(h, v, now, helloMs))
  {
  }

  lemma HearsPace(p: Port, id: nat, rootPv: Vector, helloMs: int, now: int)
    ensures SamePace(p, Hears(p, id, rootPv, helloMs, now))
  {
    var h := Heed(p);
    assert SamePace(p, h);
    ToldPace(h, Judge(h, id, rootPv), now, helloMs);
  }

  lemma ListensPace(p: Port, id: nat, rootPv: Vector, helloMs: int, now: int)
    ensures SamePace(p, Listens(p, id, rootPv, helloMs, now))
  {
    HearsPace(p, id, rootPv, helloMs, now);
  }

  lemma EnteredPace(b: Bridge, e: Env, now: int, k: nat)
    requires Live(b, e, k)
    ensures SamePace(b.ports[k], Entered(b, e, now).ports[k])
  {
    EnteredAt(b, e, now, k);
    LiveEnters(b, e, now, k);
    var l := Looked(b.ports[k], e.speedCost[k]);
    assert SamePace(b.ports[k], l);
    ListensPace(l, b.id, b.rootPv, b.helloMs, now);
  }

  lemma AssignPace(p: Port, isRoot: bool, dv: Vector, rt: Times)
    ensures SamePace(p, AssignRole(p, isRoot, dv, rt))
  {
  }

  lemma SyncPace(a: Port, c: Port, q: Port)
    requires (c == a || c == a.(agree := false)) && (q == c || q == SyncPort(c))
    ensures SamePace(a, q)
  {
  }

  lemma ChosenPace(b: Bridge, e: Env, now: int, k: nat)
    requires k < |b.ports| && EnvFits(e, |b.ports|)
    ensures SamePace(Entered(b, e, now).ports[k], Chosen(b, e, now).ports[k])
  {
    var m := Entered(b, e, now);
    if m.reselect {
      SelectRolesAt(m, k);
      var c := Choose(m.id, m.ports, |m.ports|);
      var dv := DesignatedVector(c.best, m.id, m.ports[k]);
      var a := AssignRole(m.ports[k], k == c.key, dv, TimesFor(m, c.key));
      var moved := c.key != m.rootKey || c.best != m.rootPv;
      AssignPace(m.ports[k], k == c.key, dv, TimesFor(m, c.key));
      SyncPace(a, if moved && k == c.key then a.(agree := false) else a, Chosen(b, e, now).ports[k]);
    }
  }

  lemma StopPace(c: Port)
    ensures SamePace(c, Stop(c)) && SamePace(c, c.(state := Discarding))
  {
  }

  lemma StepPace(x: Port, now: int, fwd: int)
    ensures SamePace(x, DesignatedStep(x, now, fwd))
  {
  }

  lemma TurnPace(c: Port, out: bool, x: Port, y: Port, z: Port, now: int, fwd: int, a: bool, d: bool)
    requires Alike(Swept(LowerOf(c, out), a), x) && Alike(Swept(y, d), z)
    requires if x.enabled && x.role == RoleRoot then Rooted(x, y) else Alike(Moves(x, now, fwd), y)
    ensures SamePace(c, z)
  {
    StopPace(c);
    StepPace(x, now, fwd);
    SweptPace(LowerOf(c, out), a, x);
    SweptPace(y, d, z);
    RootPace(x, y.agree);
    assert SamePace(x, y);
  }

  lemma SweptPace(p: Port, asks: bool, q: Port)
    requires Alike(Swept(p, asks), q)
    ensures SamePace(p, q)
  {
  }

  lemma RootPace(x: Port, agree: bool)
    ensures SamePace(x, RootedAs(x, agree))
  {
  }

  /** No pass before the last touches what paces sending. */
  lemma StartedPace(b: Bridge, e: Env, now: int, k: nat)
    requires Inv(b) && b.on && Live(b, e, k)
    ensures SamePace(b.ports[k], Started(b, e, now).ports[k])
  {
    EnteredPace(b, e, now, k);
    ChosenPace(b, e, now, k);
    StoppedAt(b, e, now, k);
    var s := Stopped(b, e, now);
    var x, y := StartedAt(b, e, now, k);
    TurnPace(Chosen(b, e, now).ports[k], e.excluded[k], x, y, Started(b, e, now).ports[k], now, s.rootTimes.fwd,
             Asks(s) && s.rootKey < k, Asks(s) && k < s.rootKey);
  }

  lemma SendIs(z: Port, tx: Tx, helloMs: int, now: int)
    ensures var q := SendPort(z, tx, helloMs, now);
      && q.role == z.role && q.enabled == z.enabled && q.id == z.id && q.sendRstp == z.sendRstp && q.state == z.state
      && (z.enabled && z.role == RoleDesignated && now >= z.helloNext ==> q.helloNext == now + helloMs)
  {
  }

  /** A live designated port says hello at the first run from its time, and the
      next is due a hello later: what it says is what its bridge offers. */
  lemma HelloGoesOut(b: Bridge, e: Env, now: int, k: nat)
    requires Inv(b) && b.on && Live(b, e, k) && MaySend(b.ports[k], e.tx[k], now)
    requires Run(b, e, now).ports[k].role == RoleDesignated && now >= b.ports[k].helloNext
    ensures var r, m := Run(b, e, now), RunSends(b, e, now, k);
      && m.Some? && m.value.vector == Own(r, r.ports[k]) && r.ports[k].helloNext == now + b.helloMs
      && SaysDesignated(m.value)
      && m.value.times == Times(Carried(r.rootTimes.msgAge), Carried(r.rootTimes.maxAge), Carried(b.helloMs),
                                Carried(r.rootTimes.fwd))
  {
    var t := Started(b, e, now);
    StartedPace(b, e, now, k);
    RunEnds(b, e, now, k);
    SendIs(t.ports[k], e.tx[k], t.helloMs, now);
    LiveExactly(b, e, now, k);
    SameHello(b, e, now, k);
  }

  lemma SameHello(b: Bridge, e: Env, now: int, k: nat)
    requires Inv(b) && b.on && k < |b.ports| && EnvFits(e, |b.ports|)
    ensures Started(b, e, now).helloMs == b.helloMs
  {
    EnteredAt(b, e, now, k);
    StoppedAt(b, e, now, k);
    var x, y := StartedAt(b, e, now, k);
  }

  // ----- a proposal -----

  lemma TurnProposes(x: Port, y: Port, now: int, fwd: int)
    requires x.enabled && x.role == RoleDesignated && Alike(Moves(x, now, fwd), y)
    ensures !y.operEdge && !y.agreed && y.state != Forwarding && y.sendRstp ==> y.proposing
  {
  }

  /** A designated port that has to wait proposes, if its neighbour speaks RSTP. */
  lemma RunProposes(b: Bridge, e: Env, now: int, k: nat)
    requires Inv(b) && b.on && k < |b.ports| && EnvFits(e, |b.ports|) && Undisturbed(b, Run(b, e, now), k)
    requires var q := Run(b, e, now).ports[k];
      Plain(q) && !q.agreed && q.state != Forwarding && q.sendRstp
    ensures Run(b, e, now).ports[k].proposing
  {
    var s, t := Stopped(b, e, now), Started(b, e, now);
    var x, y := StartedAt(b, e, now, k);
    StoppedAt(b, e, now, k);
    RunEnds(b, e, now, k);
    SendRemains(t.ports[k], e.tx[k], t.helloMs, now);
    NobodyAsks(b, e, now);
    RunSame(Chosen(b, e, now).ports[k], e.excluded[k], s.ports[k], x, y, Run(b, e, now).ports[k], now, s.rootTimes.fwd);
    TurnProposes(x, y, now, s.rootTimes.fwd);
  }

  lemma StopNews(c: Port)
    requires c.proposed && c.role != RoleDisabled
    ensures Stop(c).agree && Stop(c).newInfo && Stop(c).role == c.role && Stop(c).sendRstp == c.sendRstp
    ensures Stop(c).enabled == c.enabled
  {
  }

  lemma TurnNews(c: Port, out: bool, x: Port, y: Port, z: Port, now: int, fwd: int, a: bool, d: bool)
    requires Alike(Swept(LowerOf(c, out), a), x) && Alike(Swept(y, d), z)
    requires if x.enabled && x.role == RoleRoot then Rooted(x, y) else Alike(Moves(x, now, fwd), y)
    requires c.enabled && c.proposed && c.role != RoleDesignated && c.role != RoleDisabled
    requires c.role == RoleRoot ==> !c.agree
    ensures z.agree && z.newInfo && z.role == c.role && z.sendRstp == c.sendRstp && z.enabled
  {
    if c.role != RoleRoot {
      StopNews(c);
    }
    SweptNews(LowerOf(c, out), a, x);
    SweptNews(y, d, z);
  }

  lemma SweptNews(p: Port, asks: bool, q: Port)
    requires Alike(Swept(p, asks), q)
    ensures q.agree == p.agree && (p.newInfo ==> q.newInfo) && q.role == p.role && q.sendRstp == p.sendRstp
    ensures q.enabled == p.enabled && q.proposed == p.proposed
  {
  }

  lemma HeardRstp(b: Bridge, e: Env, now: int, k: nat)
    requires Live(b, e, k) && b.ports[k].pending && Believable(b, b.ports[k])
    ensures Entered(b, e, now).ports[k].sendRstp <==> b.ports[k].msg.kind == RstBpdu
    ensures Entered(b, e, now).ports[k].agree == b.ports[k].agree
  {
    EnteredAt(b, e, now, k);
    LiveHears(b, e, now, k);
    var h := Judging(b.ports[k], e.speedCost[k]);
    JudgingIs(b.ports[k], e.speedCost[k]);
    HeedRstp(Looked(b.ports[k], e.speedCost[k]));
    ToldRstp(h, Judge(h, b.id, b.rootPv), now, b.helloMs);
  }

  lemma HeedRstp(p: Port)
    ensures Heed(p).sendRstp <==> p.msg.kind == RstBpdu
  {
  }

  lemma ToldRstp(h: Port, v: Verdict, now: int, helloMs: int)
    ensures var q := Ages(Told(h, v, now, helloMs), now); q.sendRstp == h.sendRstp && q.agree == h.agree
  {
  }

  /** A root, alternate or backup port that is proposed to in an RST BPDU sends
      its agreement in the same run, if it had not agreed. */
  lemma Replies(b: Bridge, e: Env, now: int, k: nat)
    requires Inv(b) && b.on && Live(b, e, k) && 0 < b.helloMs && MaySend(b.ports[k], e.tx[k], now)
    requires b.ports[k].pending && Believable(b, b.ports[k]) && SaysDesignated(b.ports[k].msg) && Counts(b.ports[k])
    requires b.ports[k].msg.kind == RstBpdu && b.ports[k].msg.proposal && !b.ports[k].agree
    requires Run(b, e, now).ports[k].role != RoleDesignated
    ensures var r, m := Run(b, e, now), RunSends(b, e, now, k);
      m.Some? && m.value.kind == RstBpdu && m.value.agreement && !SaysDesignated(m.value) &&
      m.value.vector == Own(r, r.ports[k])
  {
    var c, s, t := Chosen(b, e, now).ports[k], Stopped(b, e, now), Started(b, e, now);
    HeardEnters(b, e, now, k);
    HeardRstp(b, e, now, k);
    ChosenKnown(b, e, now, k);
    RunAnswers(b, e, now, k);
    ChosenLive(b, e, now, k);
    var x, y := StartedAt(b, e, now, k);
    StoppedAt(b, e, now, k);
    TurnNews(c, e.excluded[k], x, y, t.ports[k], now, s.rootTimes.fwd, Asks(s) && s.rootKey < k,
             Asks(s) && k < s.rootKey);
    StartedPace(b, e, now, k);
    RunEnds(b, e, now, k);
    SendIs(t.ports[k], e.tx[k], t.helloMs, now);
    RepliesWith(b.ports[k], t, t.ports[k], e.tx[k], now);
  }

  /** A root, alternate or backup port with an agreement to tell tells it. */
  lemma RepliesWith(p: Port, t: Bridge, z: Port, tx: Tx, now: int)
    requires SamePace(p, z) && MaySend(p, tx, now) && z.enabled && z.newInfo && z.agree && z.sendRstp
    requires z.role != RoleDesignated && z.role != RoleDisabled
    ensures Speaks(z, tx, now)
    ensures var m := BpduFrom(t, z, now); m.kind == RstBpdu && m.agreement && !SaysDesignated(m)
  {
  }

  lemma ChosenLive(b: Bridge, e: Env, now: int, k: nat)
    requires Inv(b) && b.on && Live(b, e, k)
    ensures Chosen(b, e, now).ports[k].role != RoleDisabled
  {
    if Entered(b, e, now).reselect {
      SelectRole(Entered(b, e, now), k);
      LiveExactly(b, e, now, k);
      RunAnswers(b, e, now, k);
    } else {
      LiveRole(b, e, now, k);
    }
  }

  // ----- proposal, agreement, forwarding -----

  lemma {:induction false} ChosenBest(id: nat, ports: seq<Port>, n: nat)
    requires n <= |ports|
    ensures var c := Choose(id, ports, n); c.key >= 0 ==> c.best == RootVector(ports[c.key])
  {
    if n > 0 {
      ChosenBest(id, ports, n - 1);
    }
  }

  /** A bridge names the root its root port heard of. */
  lemma RootHeard(b: Bridge, e: Env, now: int, k: nat)
    requires Inv(b) && b.on && Live(b, e, k) && 0 < b.helloMs
    requires b.ports[k].pending && Believable(b, b.ports[k]) && SaysDesignated(b.ports[k].msg) && Counts(b.ports[k])
    requires b.ports[k].msg.vector != b.ports[k].pv || b.ports[k].info != InfoReceived
    ensures var r := Run(b, e, now); r.rootKey == k ==> r.rootPv.root == b.ports[k].msg.vector.root
  {
    HeardEnters(b, e, now, k);
    AdmitAllReselects(b, |b.ports|, e, now, k);
    var m := Entered(b, e, now);
    ChosenBest(m.id, m.ports, |m.ports|);
    SameId(b, e, now, k);
  }

  /** A bridge, and the port of it that a link is on. */
  predicate Joined(b: Bridge, k: nat) {
    Inv(b) && b.on && k < |b.ports|
  }

  /** A designated port's BPDU that proposes. */
  lemma ProposalIs(a: Bridge, e: Env, now: int, k: nat)
    requires Joined(a, k) && EnvFits(e, |a.ports|) && RunSends(a, e, now, k).Some?
    requires RunSends(a, e, now, k).value.proposal
    ensures var r, m := Run(a, e, now), RunSends(a, e, now, k).value;
      m.kind == RstBpdu && SaysDesignated(m) && m.vector == Own(r, r.ports[k]) && r.on &&
      r.ports[k].role == RoleDesignated && r.ports[k].enabled
  {
    var t := Started(a, e, now);
    RunEnds(a, e, now, k);
    SendIs(t.ports[k], e.tx[k], t.helloMs, now);
    var b1, b2, b3, b4 := RunPasses(a, e, now, k);
  }

  /** The other bridge takes the BPDU up, and its port counts it. */
  predicate Taken(b: Bridge, k: nat, e: Env) {
    Joined(b, k) && Live(b, e, k) && b.ports[k].pending && Believable(b, b.ports[k]) && Counts(b.ports[k]) &&
    0 < b.helloMs && !b.ports[k].agree &&
    (b.ports[k].msg.vector != b.ports[k].pv || b.ports[k].info != InfoReceived)
  }

  lemma RxIs(b: Bridge, k: nat, m: Bpdu)
    requires Joined(b, k) && b.ports[k].enabled && m.kind != TcnBpdu
    ensures var r := Rx(b, k, m);
      && Joined(r, k) && r.ports[k].pending && r.ports[k].msg == m && r.ports[k].role == b.ports[k].role
      && r.ports[k].info == b.ports[k].info && r.ports[k].pv == b.ports[k].pv && r.ports[k].id == b.ports[k].id
      && r.rootPv == b.rootPv && r.id == b.id
  {
    StepKeepsInv(b, EvRx(k, m));
  }

  /**
   Two bridges joined by a link. One proposes on its port; the other takes that up
   in its next run, and its port is root, alternate or backup, its bridge naming
   the same root if it is no root port; its answer, which `Replies` says there is,
   reaches the first. When that has run once more, and still offers the same, its
   port forwards, and the other's forwards already if it is a root port: no
   forward delay is waited out.
   */
  lemma RapidTransition(a: Bridge, ea: Env, t1: int, ka: nat, m1: Bpdu, b: Bridge, eb: Env, t2: int, kb: nat, m2: Bpdu,
                        ea': Env, t3: int)
    requires Joined(a, ka) && EnvFits(ea, |a.ports|) && RunSends(a, ea, t1, ka) == Some(m1) && m1.proposal
    requires Joined(b, kb) && b.ports[kb].enabled && Taken(Rx(b, kb, m1), kb, eb)
    requires MaySend(Rx(b, kb, m1).ports[kb], eb.tx[kb], t2) && RunSends(Rx(b, kb, m1), eb, t2, kb) == Some(m2)
    requires var a1, b1 := Run(a, ea, t1), Run(Rx(b, kb, m1), eb, t2);
      b1.ports[kb].role != RoleDesignated && (b1.rootKey != kb ==> b1.rootPv.root == a1.rootPv.root)
    requires var a1 := Run(a, ea, t1); var a2 := Rx(a1, ka, m2);
      && Live(a2, ea', ka) && Believable(a2, a2.ports[ka]) && a1.ports[ka].info == InfoMine
      && a1.ports[ka].pv == Own(Run(a2, ea', t3), a1.ports[ka]) && Run(a2, ea', t3).ports[ka].role == RoleDesignated
    ensures Run(Rx(Run(a, ea, t1), ka, m2), ea', t3).ports[ka].state == Forwarding
    ensures var q := Run(Rx(b, kb, m1), eb, t2).ports[kb]; q.role == RoleRoot ==> q.state == Forwarding
  {
    var a1 := Run(a, ea, t1);
    ProposalIs(a, ea, t1, ka);
    RunKeepsInv(a, ea, t1);
    RxIs(b, kb, m1);
    var b0 := Rx(b, kb, m1);
    Replies(b0, eb, t2, kb);
    RootHeard(b0, eb, t2, kb);
    RunForwards(b0, eb, t2, kb);
    LiveExactly(b0, eb, t2, kb);
    RxIs(a1, ka, m2);
    AgreementOpens(Rx(a1, ka, m2), ea', t3, ka);
  }
}
