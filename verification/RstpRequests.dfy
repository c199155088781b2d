/**
 What a selection takes from whom it follows; what is told at once; and what the
 requests -- guards, edges, times, on and off -- mean for the runs that follow.
 */
module RstpRequests {
  import opened Wrappers
  import opened RstpVector
  import opened RstpState
  import opened RstpSafety
  import opened RstpTrace
  import opened RstpProgress
  import opened RstpHeard
  import opened RstpEdge
  import opened RstpHandshake

  // ----- whom a bridge follows -----

  lemma EnteredCost(b: Bridge, e: Env, now: int, k: nat)
    requires Live(b, e, k)
    ensures var p := b.ports[k];
      Entered(b, e, now).ports[k].cost == if p.cfgCost > 0 then p.cfgCost else e.speedCost[k]
  {
    EnteredAt(b, e, now, k);
    LiveEnters(b, e, now, k);
    ListensCost(Looked(b.ports[k], e.speedCost[k]), b.id, b.rootPv, b.helloMs, now);
  }

  lemma ToldCost(h: Port, v: Verdict, now: int, helloMs: int)
    ensures Told(h, v, now, helloMs).cost == h.cost
  {
  }

  lemma ListensCost(p: Port, id: nat, rootPv: Vector, helloMs: int, now: int)
    ensures Listens(p, id, rootPv, helloMs, now).cost == p.cost
  {
    var h := Heed(p);
    assert h.cost == p.cost;
    ToldCost(h, Judge(h, id, rootPv), now, helloMs);
  }

  /** A bridge that comes to follow a port takes from it the root, the cost with
      the port's own added, and the times, a second older. */
  lemma Follows(b: Bridge, e: Env, now: int, k: nat)
    requires Inv(b) && b.on && Live(b, e, k) && 0 < b.helloMs
    requires b.ports[k].pending && Believable(b, b.ports[k]) && SaysDesignated(b.ports[k].msg) && Counts(b.ports[k])
    requires b.ports[k].msg.vector != b.ports[k].pv || b.ports[k].info != InfoReceived
    requires Run(b, e, now).rootKey == k
    ensures var p, m, r := b.ports[k], b.ports[k].msg, Run(b, e, now);
      var cost := if p.cfgCost > 0 then p.cfgCost else e.speedCost[k];
      && r.rootPv == Vector(m.vector.root, (m.vector.cost + cost) % COST_RANGE, m.vector.bridge, m.vector.port)
      && r.rootTimes == Times(m.times.msgAge + 1000, m.times.maxAge, m.times.hello, m.times.fwd)
  {
    HeardEnters(b, e, now, k);
    EnteredCost(b, e, now, k);
    AdmitAllReselects(b, |b.ports|, e, now, k);
    var m := Entered(b, e, now);
    ChosenBest(m.id, m.ports, |m.ports|);
    SameId(b, e, now, k);
    SameTimes(b, e, now, k);
  }

  lemma SameTimes(b: Bridge, e: Env, now: int, k: nat)
    requires Inv(b) && b.on && k < |b.ports| && EnvFits(e, |b.ports|)
    ensures Run(b, e, now).rootTimes == Chosen(b, e, now).rootTimes
    ensures var m := Entered(b, e, now); m.helloMs == b.helloMs && m.maxAgeMs == b.maxAgeMs && m.fwdMs == b.fwdMs
  {
    EnteredAt(b, e, now, k);
    StoppedAt(b, e, now, k);
    var x, y := StartedAt(b, e, now, k);
    RunEnds(b, e, now, k);
  }

  /** One that follows nobody is the root, at its own times. */
  lemma FollowsNobody(b: Bridge, e: Env, now: int)
    requires Inv(b) && b.on && EnvFits(e, |b.ports|) && Entered(b, e, now).reselect && Run(b, e, now).rootKey < 0
    ensures var r := Run(b, e, now);
      r.rootPv == Vector(b.id, 0, b.id, 0) && r.rootTimes == Times(0, b.maxAgeMs, b.helloMs, b.fwdMs)
  {
    var m := Entered(b, e, now);
    SameId(b, e, now, 0);
    SameTimes(b, e, now, 0);
    NobodyChosen(m.id, m.ports, |m.ports|);
  }

  lemma {:induction false} NobodyChosen(id: nat, ports: seq<Port>, n: nat)
    requires n <= |ports|
    ensures var c := Choose(id, ports, n); c.key < 0 ==> c.best == Vector(id, 0, id, 0)
  {
    if n > 0 {
      NobodyChosen(id, ports, n - 1);
    }
  }

  // ----- guards -----

  /** A port under root guard is never the way to the root, whatever it hears;
      what is better than its bridge's own makes it an alternate, which discards. */
  lemma RootGuardHolds(b: Bridge, e: Env, now: int, k: nat)
    requires Inv(b) && b.on && k < |b.ports| && EnvFits(e, |b.ports|) && b.ports[k].rootGuard
    requires Entered(b, e, now).reselect
    ensures Run(b, e, now).rootKey != k && Run(b, e, now).ports[k].role != RoleRoot
    ensures var m, r := Entered(b, e, now).ports[k], Run(b, e, now);
      m.enabled && m.info == InfoReceived && m.pv.bridge != b.id && Less(m.pv, Own(r, r.ports[k])) ==>
      r.ports[k].role == RoleAlternate && r.ports[k].state == Discarding
  {
    var m := Entered(b, e, now);
    EnteredGuard(b, e, now, k);
    SelectRole(m, k);
    RunAnswers(b, e, now, k);
    SameId(b, e, now, k);
    RunId(b, e, now, k);
    assert PortInv(b, k);
    RunPromises(b, e, now, k);
    LiveSame(b, e, now, k);
  }

  lemma LinkGuard(p: Port, link: bool, speedCost: nat, now: int)
    ensures LinkStep(p, link, speedCost, now).rootGuard == p.rootGuard
  {
  }

  lemma ToldGuard(h: Port, v: Verdict, now: int, helloMs: int)
    ensures Told(h, v, now, helloMs).rootGuard == h.rootGuard
  {
  }

  lemma ListensGuard(p: Port, id: nat, rootPv: Vector, helloMs: int, now: int)
    ensures Listens(p, id, rootPv, helloMs, now).rootGuard == p.rootGuard
  {
    var h := Heed(p);
    assert h.rootGuard == p.rootGuard;
    ToldGuard(h, Judge(h, id, rootPv), now, helloMs);
  }

  lemma EnteredGuard(b: Bridge, e: Env, now: int, k: nat)
    requires k < |b.ports| && EnvFits(e, |b.ports|)
    ensures Entered(b, e, now).ports[k].rootGuard == b.ports[k].rootGuard
  {
    EnteredAt(b, e, now, k);
    var l := LinkStep(b.ports[k], e.link[k], e.speedCost[k], now);
    LinkGuard(b.ports[k], e.link[k], e.speedCost[k], now);
    ListensGuard(l, b.id, b.rootPv, b.helloMs, now);
    assert Shut(b.ports[k]).rootGuard == b.ports[k].rootGuard;
  }

  lemma LiveSame(b: Bridge, e: Env, now: int, k: nat)
    requires Inv(b) && b.on && k < |b.ports| && EnvFits(e, |b.ports|)
    ensures Run(b, e, now).ports[k].enabled == Entered(b, e, now).ports[k].enabled
    ensures Entered(b, e, now).ports[k].enabled ==> b.ports[k].used && !e.excluded[k]
  {
    ChosenKnown(b, e, now, k);
    RunAnswers(b, e, now, k);
    AdmitAllPort(b, e, now, k);
  }

  /** A port under BPDU guard that hears any BPDU at all trips. */
  lemma GuardTrips(b: Bridge, e: Env, now: int, k: nat)
    requires Inv(b) && b.on && Live(b, e, k) && b.ports[k].pending && b.ports[k].bpduGuard
    ensures Run(b, e, now).ports[k].bpduTripped
  {
    EnteredAt(b, e, now, k);
    LiveEnters(b, e, now, k);
    var l := Looked(b.ports[k], e.speedCost[k]);
    assert l.bpduGuard && l.pending && l.enabled;
    assert Ages(l.(pending := false, bpduTripped := true), now).bpduTripped;
    var b1, b2, b3, b4 := RunPasses(b, e, now, k);
  }

  // ----- a port that becomes designated -----

  lemma AssignFresh(p: Port, isRoot: bool, dv: Vector, rt: Times)
    ensures var q := AssignRole(p, isRoot, dv, rt);
      (q.role != p.role ==> q.fdUntil == 0 && q.newInfo) && q.state == p.state && (p.newInfo ==> q.newInfo) &&
      (q.role == RoleDesignated && (p.info != InfoMine || p.pv != dv) ==> q.newInfo)
  {
  }

  lemma SyncFresh(a: Port, c: Port, q: Port, moved: bool)
    requires (c == a || c == a.(agree := false)) && q == if moved then SyncPort(c) else c
    ensures q.newInfo == a.newInfo && (a.fdUntil == 0 ==> q.fdUntil == 0) && q.role == a.role
    ensures q.state == a.state || q.state == Discarding
    ensures moved && q.enabled && q.role == RoleDesignated && !q.operEdge && !q.agreed ==> q.state == Discarding
  {
  }

  /** What selection makes of a port whose role it changes. */
  lemma SelectFresh(b: Bridge, k: nat)
    requires k < |b.ports|
    ensures var p, q, r := b.ports[k], SelectRoles(b).ports[k], SelectRoles(b);
      && (q.role != p.role ==> q.fdUntil == 0 && q.newInfo) && (p.newInfo ==> q.newInfo)
      && (q.state == p.state || q.state == Discarding)
      && (r.rootKey != b.rootKey && q.enabled && q.role == RoleDesignated && !q.operEdge && !q.agreed ==>
            q.state == Discarding)
      && (q.role == RoleDesignated && (p.info != InfoMine || p.pv != q.pv) ==> q.newInfo)
  {
    SelectRolesAt(b, k);
    var c := Choose(b.id, b.ports, |b.ports|);
    var dv := DesignatedVector(c.best, b.id, b.ports[k]);
    var a := AssignRole(b.ports[k], k == c.key, dv, TimesFor(b, c.key));
    var moved := c.key != b.rootKey || c.best != b.rootPv;
    AssignFresh(b.ports[k], k == c.key, dv, TimesFor(b, c.key));
    AssignRoleKeeps(b.ports[k], k == c.key, dv, TimesFor(b, c.key));
    var cl := if moved && k == c.key then a.(agree := false) else a;
    SyncFresh(a, cl, SelectRoles(b).ports[k], moved);
    SyncedRole(a, cl, SelectRoles(b).ports[k]);
  }

  lemma TurnFresh(c: Port, out: bool, x: Port, y: Port, z: Port, now: int, fwd: int, a: bool, d: bool)
    requires Alike(Swept(LowerOf(c, out), a), x) && Alike(Moves(x, now, fwd), y) && Alike(Swept(y, d), z) && 0 < fwd
    requires c.enabled && c.role == RoleDesignated && c.state == Discarding && c.fdUntil == 0
    ensures !z.operEdge && !z.agreed ==> z.state == Discarding && (z.fdUntil == 0 || z.fdUntil == now + fwd)
  {
    assert LowerOf(c, out) == c;
    SweptFresh(c, a, x);
    StepFresh(x, now, fwd);
    FreshEnds(DesignatedStep(x, now, fwd), y, z, now, fwd, d);
  }

  lemma FreshEnds(m: Port, y: Port, z: Port, now: int, fwd: int, d: bool)
    requires Alike(m, y) && Alike(Swept(y, d), z)
    requires !m.operEdge && !m.agreed ==> m.state == Discarding && m.fdUntil == now + fwd
    ensures !z.operEdge && !z.agreed ==> z.state == Discarding && (z.fdUntil == 0 || z.fdUntil == now + fwd)
  {
    SweptEnds(y, d);
  }

  lemma SweptEnds(y: Port, d: bool)
    ensures var z := Swept(y, d);
      && z.operEdge == y.operEdge && z.agreed == y.agreed
      && ((z.state == y.state && z.fdUntil == y.fdUntil) || (z.state == Discarding && z.fdUntil == 0))
  {
  }

  lemma SweptFresh(c: Port, a: bool, x: Port)
    requires Alike(Swept(c, a), x) && c.state == Discarding && c.fdUntil == 0
    ensures x.state == Discarding && x.fdUntil == 0 && x.enabled == c.enabled && x.role == c.role
  {
  }

  lemma StepFresh(x: Port, now: int, fwd: int)
    requires x.state == Discarding && x.fdUntil == 0 && 0 < fwd
    ensures var y := DesignatedStep(x, now, fwd);
      !y.operEdge && !y.agreed ==> y.state == Discarding && y.fdUntil == now + fwd
  {
  }

  /** A port that becomes designated, no edge and agreed with by nobody, starts
      from discarding and waits a whole forward delay. */
  lemma RoleChangeWaits(b: Bridge, e: Env, now: int, k: nat)
    requires Inv(b) && b.on && Live(b, e, k) && 0 < Run(b, e, now).rootTimes.fwd
    requires b.ports[k].role != RoleDesignated && (b.ports[k].role == RoleRoot || b.ports[k].state == Discarding)
    requires var q := Run(b, e, now).ports[k]; q.role == RoleDesignated && !q.operEdge && !q.agreed
    ensures var q, f := Run(b, e, now).ports[k], Run(b, e, now).rootTimes.fwd;
      q.state == Discarding && (q.fdUntil == 0 || q.fdUntil == now + f)
  {
    var m, c, s, t := Entered(b, e, now), Chosen(b, e, now).ports[k], Stopped(b, e, now), Started(b, e, now);
    AdmitAllPort(b, e, now, k);
    RunAnswers(b, e, now, k);
    assert PortInv(b, k);
    SelectFresh(m, k);
    SelectRole(m, k);
    ChosenKnown(b, e, now, k);
    RunAgreed(b, e, now, k);
    EdgeStays(b, e, now, k);
    var x, y := StartedAt(b, e, now, k);
    StoppedAt(b, e, now, k);
    RunEnds(b, e, now, k);
    SendRemains(t.ports[k], e.tx[k], t.helloMs, now);
    SweptRole(s.ports[k], Asks(s) && s.rootKey < k, x);
    SameTimes(b, e, now, k);
    TurnFresh(c, e.excluded[k], x, y, t.ports[k], now, s.rootTimes.fwd, Asks(s) && s.rootKey < k,
              Asks(s) && k < s.rootKey);
  }

  /** A port that ends a run no edge was none after selection. */
  lemma EdgeStays(b: Bridge, e: Env, now: int, k: nat)
    requires Inv(b) && b.on && k < |b.ports| && EnvFits(e, |b.ports|)
    ensures Chosen(b, e, now).ports[k].operEdge ==> Run(b, e, now).ports[k].operEdge
  {
    RunSilentFrom(b, e, now, k);
  }

  // ----- news -----

  lemma LowerNews(c: Port, out: bool)
    requires c.newInfo
    ensures LowerOf(c, out).newInfo
  {
    StopKeepsNews(c);
    if !(c.enabled && !Carries(c)) && !c.enabled && c.used && !out {
      assert LowerOf(c, out) == c.(state := Discarding);
    }
  }

  lemma StopKeepsNews(c: Port)
    requires c.newInfo
    ensures Stop(c).newInfo
  {
  }

  lemma StepNews(x: Port, now: int, fwd: int)
    requires x.newInfo
    ensures DesignatedStep(x, now, fwd).newInfo
  {
  }

  lemma TurnKeepsNews(c: Port, out: bool, x: Port, y: Port, z: Port, now: int, fwd: int, a: bool, d: bool)
    requires Alike(Swept(LowerOf(c, out), a), x) && Alike(Swept(y, d), z) && c.newInfo
    requires if x.enabled && x.role == RoleRoot then Rooted(x, y) else Alike(Moves(x, now, fwd), y)
    ensures z.newInfo
  {
    LowerNews(c, out);
    SweptNews(LowerOf(c, out), a, x);
    StepNews(x, now, fwd);
    SweptNews(y, d, z);
  }

  lemma StartedNews(b: Bridge, e: Env, now: int, k: nat)
    requires Inv(b) && b.on && k < |b.ports| && EnvFits(e, |b.ports|) && Chosen(b, e, now).ports[k].newInfo
    ensures Started(b, e, now).ports[k].newInfo
  {
    var s := Stopped(b, e, now);
    var x, y := StartedAt(b, e, now, k);
    StoppedAt(b, e, now, k);
    TurnKeepsNews(Chosen(b, e, now).ports[k], e.excluded[k], x, y, Started(b, e, now).ports[k], now, s.rootTimes.fwd,
                  Asks(s) && s.rootKey < k, Asks(s) && k < s.rootKey);
  }

  lemma RunTells(b: Bridge, e: Env, now: int, k: nat)
    requires Inv(b) && b.on && Live(b, e, k) && MaySend(b.ports[k], e.tx[k], now)
    requires Chosen(b, e, now).ports[k].newInfo && Run(b, e, now).ports[k].role == RoleDesignated
    ensures RunSends(b, e, now, k).Some?
  {
    StartedNews(b, e, now, k);
    StartedPace(b, e, now, k);
    StartedRole(b, e, now, k);
    TellsNews(b.ports[k], Started(b, e, now).ports[k], e.tx[k], now);
  }

  lemma StartedRole(b: Bridge, e: Env, now: int, k: nat)
    requires Inv(b) && b.on && Live(b, e, k)
    ensures Started(b, e, now).ports[k].role == Run(b, e, now).ports[k].role && Started(b, e, now).ports[k].enabled
  {
    var t := Started(b, e, now);
    RunEnds(b, e, now, k);
    SendIs(t.ports[k], e.tx[k], t.helloMs, now);
    LiveExactly(b, e, now, k);
  }

  lemma TellsNews(p: Port, z: Port, tx: Tx, now: int)
    requires SamePace(p, z) && MaySend(p, tx, now) && z.enabled && z.role == RoleDesignated && z.newInfo
    ensures Speaks(z, tx, now)
  {
  }

  /** A designated port whose bridge has something new to offer says so in the
      same run. */
  lemma NewOfferTold(b: Bridge, e: Env, now: int, k: nat)
    requires Inv(b) && b.on && Live(b, e, k) && MaySend(b.ports[k], e.tx[k], now)
    requires var q := Run(b, e, now).ports[k];
      q.role == RoleDesignated && (q.pv != b.ports[k].pv || b.ports[k].role != RoleDesignated)
    ensures RunSends(b, e, now, k).Some?
  {
    var m := Entered(b, e, now);
    AdmitAllPort(b, e, now, k);
    RunAnswers(b, e, now, k);
    if m.reselect {
      SelectFresh(m, k);
      SelectedMine(b, e, now, k);
    } else {
      AdmitAllReselects(b, |b.ports|, e, now, k);
    }
    RunTells(b, e, now, k);
  }

  /** Where what the port offers has changed, selection saw it. */
  lemma SelectedMine(b: Bridge, e: Env, now: int, k: nat)
    requires Inv(b) && b.on && Live(b, e, k) && Entered(b, e, now).reselect
    ensures var p, m, q := b.ports[k], Entered(b, e, now).ports[k], Chosen(b, e, now).ports[k];
      m.role == p.role && (m.info == InfoMine ==> m.pv == p.pv)
  {
    AdmitAllPort(b, e, now, k);
  }

  lemma InferiorEnters(b: Bridge, e: Env, now: int, k: nat)
    requires Live(b, e, k) && b.ports[k].pending && Believable(b, b.ports[k])
    requires SaysDesignated(b.ports[k].msg) && !Counts(b.ports[k])
    ensures Entered(b, e, now).ports[k].newInfo
  {
    EnteredAt(b, e, now, k);
    LiveHears(b, e, now, k);
    var h := Judging(b.ports[k], e.speedCost[k]);
    JudgingIs(b.ports[k], e.speedCost[k]);
    var v := Judge(h, b.id, b.rootPv);
    assert v == Disputed || v == Inferior;
    ToldInferior(h, v, now, b.helloMs);
  }

  lemma ToldInferior(h: Port, v: Verdict, now: int, helloMs: int)
    requires v == Disputed || v == Inferior
    ensures Ages(Told(h, v, now, helloMs), now).newInfo
  {
  }

  /** A designated port that hears worse than it offers answers in the same run
      with what it offers. */
  lemma InferiorAnswered(b: Bridge, e: Env, now: int, k: nat)
    requires Inv(b) && b.on && Live(b, e, k) && MaySend(b.ports[k], e.tx[k], now)
    requires b.ports[k].pending && Believable(b, b.ports[k]) && SaysDesignated(b.ports[k].msg) && !Counts(b.ports[k])
    requires Run(b, e, now).ports[k].role == RoleDesignated
    ensures RunSends(b, e, now, k).Some?
  {
    InferiorEnters(b, e, now, k);
    if Entered(b, e, now).reselect {
      SelectFresh(Entered(b, e, now), k);
    }
    RunTells(b, e, now, k);
  }

  // ----- edges -----

  /** A port configured as an edge, and that has heard no bridge, forwards with
      the next run that finds it designated. */
  lemma EdgeConfigured(b: Bridge, c: PortConfig, e: Env, now: int, k: nat)
    requires Inv(b) && b.on && k < |b.ports| && Live(Configure(b, k, c), e, k)
    requires c.edge && !b.ports[k].heard && !b.ports[k].pending
    ensures var q := Run(Configure(b, k, c), e, now).ports[k];
      q.role == RoleDesignated ==> q.operEdge && q.state == Forwarding
  {
    var d := Configure(b, k, c);
    StepKeepsInv(b, EvPort(k, c));
    SilentEnters(d, e, now, k);
    AgedIs(d.ports[k], e.speedCost[k], now, Entered(d, e, now).ports[k]);
    if Entered(d, e, now).reselect {
      SelectSilent(Entered(d, e, now), k);
    }
    RunSilentFrom(d, e, now, k);
    RunForwards(d, e, now, k);
    LiveExactly(d, e, now, k);
  }

  // ----- on, off and the times -----

  /** Times as section 17.14 of IEEE 802.1D has them. */
  predicate GoodTimes(b: Bridge) {
    1000 <= b.helloMs <= 10000 && 4000 <= b.fwdMs <= 30000 && 6000 <= b.maxAgeMs <= 40000 &&
    b.maxAgeMs <= 2 * (b.fwdMs - 1000) && b.maxAgeMs >= 2 * (b.helloMs + 1000)
  }

  lemma SetTimes(b: Bridge, c: BridgeConfig)
    requires GoodTimes(b)
    ensures GoodTimes(Set(b, c))
  {
  }

  lemma RunTimes(b: Bridge, e: Env, now: int)
    requires Inv(b) && EnvFits(e, |b.ports|)
    ensures var r := Run(b, e, now); r.helloMs == b.helloMs && r.maxAgeMs == b.maxAgeMs && r.fwdMs == b.fwdMs
  {
    if b.on {
      SameTimes(b, e, now, 0);
      RunEnds(b, e, now, 0);
      SameHello(b, e, now, 0);
      StoppedAt(b, e, now, 0);
      var x, y := StartedAt(b, e, now, 0);
    }
  }

  /** Whatever is asked for, the times in force stand in the right relation. */
  lemma {:induction false} TimesStayGood(b: Bridge, evs: seq<Event>)
    requires Inv(b) && GoodTimes(b) && forall i :: 0 <= i < |evs| ==> EventFits(|b.ports|, evs[i])
    ensures GoodTimes(Steps(b, evs))
  {
    if evs != [] {
      var n := |evs| - 1;
      TimesStayGood(b, evs[..n]);
      StepsKeepInv(b, evs[..n]);
      var s := Steps(b, evs[..n]);
      match evs[n]
      case EvRun(e, now) => RunTimes(s, e, now);
      case EvRx(k, m) =>
      case EvIface(k, switched) =>
      case EvPort(k, c) =>
      case EvSet(c) => SetTimes(s, c);
    }
  }

  /** A request is refused, and changes nothing, exactly when a time is out of
      range or they do not stand in relation; else the times are those asked for,
      nought standing for the default, and so are the id and whether it is on. */
  lemma SetIs(b: Bridge, c: BridgeConfig)
    ensures var h, f, a := if c.hello == 0 then 2 else c.hello, if c.fwd == 0 then 15 else c.fwd,
                           if c.maxAge == 0 then 20 else c.maxAge;
      if 1 <= h <= 10 && 4 <= f <= 30 && 6 <= a <= 40 && a <= 2 * (f - 1) && a >= 2 * (h + 1)
      then var r := Set(b, c);
           && r.helloMs == 1000 * h && r.fwdMs == 1000 * f && r.maxAgeMs == 1000 * a && r.id == c.id && r.on == c.on
           && (c.id != b.id || c.on != b.on ==> r.reselect && r.rootKey == -1)
           && (c.id == b.id && c.on == b.on ==> r.ports == b.ports && r.rootPv == b.rootPv)
      else Set(b, c) == b
  {
  }

  /** A port's configuration is what was asked for; its tripped guard lets go; what
      it does, and every other port, is left to the next run. */
  lemma ConfigureIs(b: Bridge, k: nat, c: PortConfig, j: nat)
    requires k < |b.ports| && j < |b.ports|
    ensures var r := Configure(b, k, c); var p, q := b.ports[k], r.ports[k];
      && q.adminEdge == c.edge && q.cfgCost == c.cost && q.id == c.id && q.bpduGuard == c.bpduGuard
      && q.rootGuard == c.rootGuard && !q.bpduTripped && q.state == p.state && q.role == p.role
      && q.info == p.info && q.pv == p.pv && q.used == p.used && q.enabled == p.enabled && r.reselect
      && (!c.edge ==> !q.operEdge) && (c.edge && !p.heard ==> q.operEdge) && (j != k ==> r.ports[j] == b.ports[j])
  {
  }

  /** Turned on, every switched port discards until the tree has decided; turned
      off, every one forwards, and no run changes that. */
  lemma OnAndOff(b: Bridge, c: BridgeConfig, e: Env, now: int, k: nat)
    requires k < |b.ports| && EnvFits(e, |b.ports|) && b.ports[k].used && c.on != b.on && Set(b, c).on == c.on
    ensures Set(b, c).ports[k].state == if c.on then Discarding else Forwarding
    ensures !c.on ==> Run(Set(b, c), e, now) == Set(b, c)
  {
  }

  // ----- topology changes -----

  /** A live port of the tree with a bridge behind it. */
  predicate InTree(p: Port) {
    p.enabled && !p.operEdge && (p.role == RoleRoot || p.role == RoleDesignated)
  }

  /** A change of topology is announced on every port of the tree, for a hello and
      a second, but where it came from; nobody else is told. */
  lemma ChangeAnnounced(b: Bridge, from: int, rcvd: bool, now: int, k: nat)
    requires k < |b.ports| && 0 < b.helloMs
    ensures var p, q := b.ports[k], TopologyChange(b, from, rcvd, now).ports[k];
      && (InTree(p) && !(rcvd && k == from) ==> now < q.tcUntil && (p.tcUntil <= now ==> q.newInfo))
      && (InTree(p) && !(rcvd && k == from) && p.tcUntil <= now ==> q.tcUntil == now + b.helloMs + 1000)
      && (!InTree(p) || (rcvd && k == from) || now < p.tcUntil ==> q == p)
  {
    var q := TopologyChange(b, from, rcvd, now).ports[k];
    assert q == TcPort(b.ports[k], k == from, rcvd, now, b.helloMs);
  }

  /** A port of the tree that starts to forward is such a change. */
  lemma StartAnnounced(b: Bridge, k: nat, now: int, j: nat)
    requires k < |b.ports| && j < |b.ports| && 0 < b.helloMs && b.ports[k].enabled && Carries(b.ports[k])
    requires b.ports[k].state != Forwarding && Raise(b, k, now).ports[k].state == Forwarding
    requires !Raise(b, k, now).ports[k].operEdge
    ensures var q := Raise(b, k, now).ports[j]; InTree(q) ==> now < q.tcUntil
  {
    var p := b.ports[k];
    var b' := b.(ports := if p.role == RoleRoot then RootStep(b.ports, k)
                          else b.ports[k := DesignatedStep(p, now, b.rootTimes.fwd)]);
    ChangeAlike(b', k, false, now, j);
    ChangeAlike(b', k, false, now, k);
    ChangeAnnounced(b', k, false, now, j);
    assert Raise(b, k, now) == b' || Raise(b, k, now) == TopologyChange(b', k, false, now);
  }
}
