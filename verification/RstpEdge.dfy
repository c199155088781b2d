/**
 A port coming up, and how long it waits for a bridge; and a root port that is
 proposed to, which holds the others back before it agrees.
 */
module RstpEdge {
  import opened RstpVector
  import opened RstpState
  import opened RstpSafety
  import opened RstpTrace
  import opened RstpProgress
  import opened RstpHeard

  // ----- coming up -----

  /** A live designated port that has heard no bridge since it came up, and is
      taken for an edge from t. */
  predicate Silent(p: Port, t: int) {
    p.used && p.enabled && !p.bpduTripped && !p.pending && !p.heard && p.edgeUntil == t &&
    p.role == RoleDesignated && p.info == InfoMine
  }

  /** A port that takes part in this run and did not in the last. */
  predicate Fresh(b: Bridge, e: Env, k: nat) {
    k < |b.ports| && EnvFits(e, |b.ports|) && b.ports[k].used && !b.ports[k].enabled && !b.ports[k].bpduTripped &&
    e.link[k] && !e.excluded[k] && !b.ports[k].pending
  }

  lemma LinkComes(p: Port, speedCost: nat, now: int)
    requires p.used && !p.enabled && !p.bpduTripped
    ensures var q := LinkStep(p, true, speedCost, now);
      && q.enabled && q.used && !q.bpduTripped && q.info == InfoAged && q.operEdge == p.adminEdge && !q.heard
      && q.edgeUntil == now + 3000 && !q.agreed && q.pending == p.pending && q.state == p.state
      && q.sendRstp && q.helloNext == now && !q.proposing && !q.proposed && !q.agree
      && q.cost == (if p.cfgCost > 0 then p.cfgCost else speedCost)
  {
  }

  /** The same in what makes a port an edge. */
  predicate AsDeaf(p: Port, q: Port) {
    q.used == p.used && q.enabled == p.enabled && q.bpduTripped == p.bpduTripped && q.pending == p.pending &&
    q.heard == p.heard && q.edgeUntil == p.edgeUntil && q.role == p.role
  }

  predicate AsSilent(p: Port, q: Port) {
    AsDeaf(p, q) && q.operEdge == p.operEdge
  }

  predicate TimeIsUp(p: Port, now: int) {
    p.enabled && p.role == RoleDesignated && !p.heard && p.edgeUntil != 0 && now >= p.edgeUntil
  }

  /** What nothing after selection changes of a port, but that it may become an
      edge. */
  predicate StaysSilent(p: Port, q: Port, now: int) {
    AsDeaf(p, q) && (q.operEdge <==> (p.operEdge || TimeIsUp(p, now)))
  }

  lemma AssignSilent(p: Port, isRoot: bool, dv: Vector, rt: Times)
    ensures var q := AssignRole(p, isRoot, dv, rt);
      && q.used == p.used && q.enabled == p.enabled && q.bpduTripped == p.bpduTripped && q.pending == p.pending
      && q.heard == p.heard && q.edgeUntil == p.edgeUntil && q.operEdge == p.operEdge
      && q.state == p.state && (q.agreed ==> p.agreed)
  {
  }

  lemma SyncSilent(a: Port, c: Port, q: Port)
    requires (c == a || c == a.(agree := false)) && (q == c || q == SyncPort(c))
    ensures q.used == a.used && q.enabled == a.enabled && q.bpduTripped == a.bpduTripped && q.pending == a.pending
    ensures q.heard == a.heard && q.edgeUntil == a.edgeUntil && q.operEdge == a.operEdge && q.agreed == a.agreed
    ensures q.state == a.state || q.state == Discarding
    ensures a.operEdge ==> q.state == a.state
  {
  }

  lemma SelectSilent(b: Bridge, k: nat)
    requires k < |b.ports|
    ensures var p, q := b.ports[k], SelectRoles(b).ports[k];
      && q.used == p.used && q.enabled == p.enabled && q.bpduTripped == p.bpduTripped && q.pending == p.pending
      && q.heard == p.heard && q.edgeUntil == p.edgeUntil && q.operEdge == p.operEdge && (q.agreed ==> p.agreed)
      && (q.state == p.state || q.state == Discarding) && (p.operEdge ==> q.state == p.state)
  {
    SelectRolesAt(b, k);
    var c := Choose(b.id, b.ports, |b.ports|);
    var dv := DesignatedVector(c.best, b.id, b.ports[k]);
    var a := AssignRole(b.ports[k], k == c.key, dv, TimesFor(b, c.key));
    var moved := c.key != b.rootKey || c.best != b.rootPv;
    AssignSilent(b.ports[k], k == c.key, dv, TimesFor(b, c.key));
    SyncSilent(a, if moved && k == c.key then a.(agree := false) else a, SelectRoles(b).ports[k]);
  }

  lemma StopSilent(c: Port)
    ensures AsSilent(c, Stop(c))
  {
  }

  lemma BlockSilent(c: Port)
    ensures AsSilent(c, c.(state := Discarding))
  {
  }

  lemma LowerSilent(c: Port, out: bool)
    ensures AsSilent(c, LowerOf(c, out))
  {
    StopSilent(c);
    BlockSilent(c);
  }

  lemma StepSilent(x: Port, now: int, fwd: int)
    requires x.enabled && x.role == RoleDesignated
    ensures StaysSilent(x, DesignatedStep(x, now, fwd), now)
  {
  }

  lemma AlikeSilent(x: Port, m: Port, y: Port, now: int)
    requires StaysSilent(x, m, now) && Alike(m, y)
    ensures StaysSilent(x, y, now)
  {
  }

  lemma RootSilent(x: Port, agree: bool, now: int)
    requires x.role == RoleRoot
    ensures StaysSilent(x, RootedAs(x, agree), now)
  {
  }

  lemma TurnSilent(x: Port, y: Port, now: int, fwd: int)
    requires if x.enabled && x.role == RoleRoot then Rooted(x, y) else Alike(Moves(x, now, fwd), y)
    ensures StaysSilent(x, y, now)
  {
    if x.enabled && x.role == RoleRoot {
      RootSilent(x, y.agree, now);
      AlikeSilent(x, RootedAs(x, y.agree), y, now);
    } else if x.enabled && x.role == RoleDesignated {
      StepSilent(x, now, fwd);
      AlikeSilent(x, DesignatedStep(x, now, fwd), y, now);
    } else {
      AlikeSilent(x, x, y, now);
    }
  }

  lemma SweptSilent(p: Port, asks: bool, q: Port)
    requires Alike(Swept(p, asks), q)
    ensures AsSilent(p, q)
  {
  }

  lemma SilentChain(c: Port, s: Port, x: Port, y: Port, z: Port, q: Port, now: int)
    requires AsSilent(c, s) && AsSilent(s, x) && StaysSilent(x, y, now) && AsSilent(y, z) && AsSilent(z, q)
    ensures StaysSilent(c, q, now)
  {
  }

  lemma SilentFrom(c: Port, out: bool, x: Port, y: Port, z: Port, now: int, fwd: int, a: bool, d: bool, tx: Tx,
                   helloMs: int)
    requires Alike(Swept(LowerOf(c, out), a), x) && Alike(Swept(y, d), z)
    requires if x.enabled && x.role == RoleRoot then Rooted(x, y) else Alike(Moves(x, now, fwd), y)
    ensures StaysSilent(c, SendPort(z, tx, helloMs, now), now)
  {
    LowerSilent(c, out);
    SweptSilent(LowerOf(c, out), a, x);
    TurnSilent(x, y, now, fwd);
    SweptSilent(y, d, z);
    SendSilent(z, tx, helloMs, now);
    SilentChain(c, LowerOf(c, out), x, y, z, SendPort(z, tx, helloMs, now), now);
  }

  lemma RunSilentFrom(b: Bridge, e: Env, now: int, k: nat)
    requires Inv(b) && b.on && k < |b.ports| && EnvFits(e, |b.ports|)
    ensures StaysSilent(Chosen(b, e, now).ports[k], Run(b, e, now).ports[k], now)
  {
    var s, t := Stopped(b, e, now), Started(b, e, now);
    var x, y := StartedAt(b, e, now, k);
    StoppedAt(b, e, now, k);
    RunEnds(b, e, now, k);
    SilentFrom(Chosen(b, e, now).ports[k], e.excluded[k], x, y, t.ports[k], now, s.rootTimes.fwd,
               Asks(s) && s.rootKey < k, Asks(s) && k < s.rootKey, e.tx[k], t.helloMs);
  }

  lemma SendSilent(p: Port, tx: Tx, helloMs: int, now: int)
    ensures AsSilent(p, SendPort(p, tx, helloMs, now))
  {
  }

  // ----- one run of a port nobody has spoken to -----

  /** A run brings a silent port up to the moment it counts as an edge, and then
      it does. */
  lemma RunSilent(b: Bridge, e: Env, now: int, k: nat, t: int)
    requires Inv(b) && b.on && Live(b, e, k) && Silent(b.ports[k], t) && t != 0
    ensures var p, q := b.ports[k], Run(b, e, now).ports[k];
      Silent(q, t) && (q.operEdge <==> p.operEdge || now >= t) && (q.operEdge ==> q.state == Forwarding)
  {
    SilentEnters(b, e, now, k);
    AgedIs(b.ports[k], e.speedCost[k], now, Entered(b, e, now).ports[k]);
    if Entered(b, e, now).reselect {
      SelectSilent(Entered(b, e, now), k);
      SelectRole(Entered(b, e, now), k);
    }
    RunAnswers(b, e, now, k);
    RunSilentFrom(b, e, now, k);
    RunForwards(b, e, now, k);
  }

  /** A port coming up has heard nothing, waits three seconds for a bridge, and is
      an edge at once if configured so. */
  lemma RunComesUp(b: Bridge, e: Env, now: int, k: nat)
    requires Inv(b) && b.on && Fresh(b, e, k) && 0 < now
    ensures var p, q := b.ports[k], Run(b, e, now).ports[k];
      Silent(q, now + 3000) && q.operEdge == p.adminEdge && !q.agreed && (p.adminEdge ==> q.state == Forwarding)
  {
    EnteredAt(b, e, now, k);
    var p, m := b.ports[k], Entered(b, e, now);
    LinkComes(p, e.speedCost[k], now);
    var l := LinkStep(p, true, e.speedCost[k], now);
    assert EntersAt(b, k, e, now) == Ages(l, now) == l;
    AdmitAllReselects(b, |b.ports|, e, now, k);
    SelectSilent(m, k);
    SelectRole(m, k);
    RunAnswers(b, e, now, k);
    RunSilentFrom(b, e, now, k);
    RunAgreed(b, e, now, k);
    RunForwards(b, e, now, k);
  }

  /** Nothing is said to port k, and it stays live. */
  ghost predicate LeftAlone(b: Bridge, evs: seq<Event>, k: nat)
    requires k < |b.ports| && forall i :: 0 <= i < |evs| ==> EventFits(|b.ports|, evs[i])
  {
    (forall i :: 0 <= i <= |evs| ==> Steps(b, evs[..i]).ports[k].enabled) &&
    forall i :: 0 <= i < |evs| ==>
      SaysNothing(evs[i], k) &&
      (evs[i].EvRun? ==> Steps(b, evs[..i]).on && Live(Steps(b, evs[..i]), evs[i].env, k))
  }

  /**
   A port with nobody behind it forwards: through any history that says nothing
   to it, it is an edge from the first run three seconds after it came up, and
   forwards from then on.
   */
  lemma {:induction false} SilentIsEdge(b: Bridge, evs: seq<Event>, k: nat, t: int)
    requires Inv(b) && k < |b.ports| && (forall i :: 0 <= i < |evs| ==> EventFits(|b.ports|, evs[i]))
    requires Silent(b.ports[k], t) && t != 0 && !b.ports[k].operEdge && LeftAlone(b, evs, k)
    ensures var q := Steps(b, evs).ports[k];
      && Silent(q, t) && (q.operEdge ==> q.state == Forwarding)
      && (q.operEdge <==> exists i :: 0 <= i < |evs| && evs[i].EvRun? && evs[i].now >= t)
  {
    if evs != [] {
      var n := |evs| - 1;
      var before := evs[..n];
      forall i | 0 <= i <= n ensures before[..i] == evs[..i] {
      }
      SilentIsEdge(b, before, k, t);
      StepsKeepInv(b, before);
      var s := Steps(b, before);
      assert evs[..n + 1] == evs && Steps(b, evs[..n + 1]).ports[k].enabled;
      EdgeSeen(evs, t);
      if evs[n].EvRun? {
        RunSilent(s, evs[n].env, evs[n].now, k, t);
      } else {
        QuietKnows(s, evs[n], k);
      }
    }
  }

  lemma EdgeSeen(evs: seq<Event>, t: int)
    requires evs != []
    ensures var n := |evs| - 1; var before := evs[..n];
      (exists i :: 0 <= i < |evs| && evs[i].EvRun? && evs[i].now >= t) <==>
      ((exists i :: 0 <= i < |before| && before[i].EvRun? && before[i].now >= t) ||
       (evs[n].EvRun? && evs[n].now >= t))
  {
    var n := |evs| - 1;
    var before := evs[..n];
    if i :| 0 <= i < |before| && before[i].EvRun? && before[i].now >= t {
      assert evs[i] == before[i];
    }
    if i :| 0 <= i < |evs| && evs[i].EvRun? && evs[i].now >= t {
      assert i < n ==> before[i] == evs[i];
    }
  }

  // ----- sync -----

  /** A port is held back: not agreed with, no edge, and not forwarding. */
  predicate HeldBack(q: Port) {
    q.enabled && q.role == RoleDesignated && !q.operEdge && !q.agreed ==> q.state != Forwarding
  }

  /** A port whose turn comes after the sync stays down if it has to wait. */
  lemma TurnAfterSync(p: Port, x: Port, y: Port, now: int, fwd: int)
    requires Alike(Swept(p, true), x) && !(x.enabled && x.role == RoleRoot) && Alike(Moves(x, now, fwd), y) && 0 < fwd
    ensures y.enabled && y.role == RoleDesignated && !y.operEdge && !y.agreed ==> y.state == Discarding
  {
    SweptDown(p);
    if x.enabled && x.role == RoleDesignated {
      StepDown(x, now, fwd);
    }
  }

  lemma SweptDown(p: Port)
    ensures var q := Swept(p, true);
      q.enabled && q.role == RoleDesignated && !q.operEdge && !q.agreed ==> q.state == Discarding && q.fdUntil == 0
  {
  }

  lemma StepDown(x: Port, now: int, fwd: int)
    requires x.enabled && x.role == RoleDesignated && 0 < fwd
    ensures var y := DesignatedStep(x, now, fwd);
      !y.operEdge && !y.agreed && x.state == Discarding && x.fdUntil == 0 ==> y.state == Discarding
    ensures var y := DesignatedStep(x, now, fwd);
      y.agreed == x.agreed && (!y.operEdge ==> !x.operEdge)
    ensures var y := DesignatedStep(x, now, fwd);
      !y.operEdge && !y.agreed && x.state == Discarding ==> y.state != Forwarding
  {
  }

  /** A proposal on the root port: the bridge asks the others to sync. */
  lemma ProposalAsks(b: Bridge, e: Env, now: int, rk: nat)
    requires Inv(b) && b.on && Live(b, e, rk) && 0 < b.helloMs
    requires b.ports[rk].pending && Believable(b, b.ports[rk]) && SaysDesignated(b.ports[rk].msg) && Counts(b.ports[rk])
    requires b.ports[rk].msg.proposal && Run(b, e, now).rootKey == rk && Run(b, e, now).ports[rk].role == RoleRoot
    ensures Asks(Stopped(b, e, now)) && Stopped(b, e, now).rootKey == rk
  {
    HeardEnters(b, e, now, rk);
    ChosenKnown(b, e, now, rk);
    RunAnswers(b, e, now, rk);
    SameId(b, e, now, rk);
    StoppedAt(b, e, now, rk);
  }

  /**
   A root port that is proposed to holds every other port back: when the run is
   over each live designated port that is no edge and agreed with by nobody
   discards.
   */
  lemma ProposalSyncs(b: Bridge, e: Env, now: int, rk: nat, k: nat)
    requires Inv(b) && b.on && Live(b, e, rk) && 0 < b.helloMs && k < |b.ports| && k != rk
    requires b.ports[rk].pending && Believable(b, b.ports[rk]) && SaysDesignated(b.ports[rk].msg) && Counts(b.ports[rk])
    requires b.ports[rk].msg.proposal && Run(b, e, now).rootKey == rk && Run(b, e, now).ports[rk].role == RoleRoot
    requires 0 < Run(b, e, now).rootTimes.fwd
    ensures var q := Run(b, e, now).ports[k];
      q.enabled && q.role == RoleDesignated && !q.operEdge && !q.agreed ==> q.state == Discarding
  {
    ProposalAsks(b, e, now, rk);
    var s, t := Stopped(b, e, now), Started(b, e, now);
    StoppedOneRoot(b, e, now);
    var x, y := StartedAt(b, e, now, k);
    RunEnds(b, e, now, k);
    SendRemains(t.ports[k], e.tx[k], t.helloMs, now);
    SweptRole(s.ports[k], rk < k, x);
    if rk < k {
      TurnAfterSync(s.ports[k], x, y, now, s.rootTimes.fwd);
      assert Alike(y, t.ports[k]);
    } else {
      SweptDown(y);
    }
  }

  lemma SweptRole(p: Port, asks: bool, q: Port)
    requires Alike(Swept(p, asks), q)
    ensures q.role == p.role && q.enabled == p.enabled
  {
  }

  // ----- agreeing only once synced -----

  lemma RootAgrees(ports: seq<Port>, k: nat, j: nat)
    requires k < |ports| && j < |ports| && j != k && !ports[k].agree && RootStep(ports, k)[k].agree
    ensures Synced(Swept(ports[j], ports[k].proposed))
  {
    var ps := if ports[k].proposed then SyncAll(ports) else ports;
    assert ps[j] == Swept(ports[j], ports[k].proposed) && AllSynced(ps, k);
  }

  lemma RaiseAgrees(b: Bridge, k: nat, now: int, j: nat)
    requires k < |b.ports| && j < |b.ports| && j != k && b.ports[k].enabled && b.ports[k].role == RoleRoot
    requires !b.ports[k].agree && Raise(b, k, now).ports[k].agree
    ensures Synced(Swept(b.ports[j], b.ports[k].proposed))
  {
    var b' := b.(ports := RootStep(b.ports, k));
    ChangeAlike(b', k, false, now, k);
    assert Raise(b, k, now) == b' || Raise(b, k, now) == TopologyChange(b', k, false, now);
    RootAgrees(b.ports, k, j);
  }

  lemma SyncedDown(p: Port, asks: bool, m: Port, q: Port)
    requires Alike(p, m) && Synced(Swept(m, asks)) && Alike(Swept(p, asks), q)
    ensures HeldBack(q)
  {
    SweptAlike(p, m, asks);
  }

  lemma TurnDown(p: Port, asks: bool, m: Port, x: Port, y: Port, now: int, fwd: int)
    requires Alike(p, m) && Synced(Swept(m, asks)) && Alike(Swept(p, asks), x) && 0 < fwd
    requires !(x.enabled && x.role == RoleRoot) && Alike(Moves(x, now, fwd), y)
    ensures HeldBack(y)
  {
    SyncedDown(p, asks, m, x);
    if x.enabled && x.role == RoleDesignated {
      SyncedIs(p, asks, m, x);
      StepDown(x, now, fwd);
    }
  }

  lemma SyncedIs(p: Port, asks: bool, m: Port, x: Port)
    requires Alike(p, m) && Synced(Swept(m, asks)) && Alike(Swept(p, asks), x)
    ensures x.enabled && x.role == RoleDesignated && !x.operEdge && !x.agreed ==> x.state == Discarding
  {
    SweptAlike(p, m, asks);
  }

  /**
   A root port that comes to agree in a run does so with its bridge synced: when
   the run is over no live designated port forwards but as an edge or agreed with.
   */
  lemma AgreesSynced(b: Bridge, e: Env, now: int, rk: nat, k: nat)
    requires Inv(b) && b.on && rk < |b.ports| && k < |b.ports| && k != rk && EnvFits(e, |b.ports|)
    requires Run(b, e, now).rootKey == rk && Run(b, e, now).ports[rk].role == RoleRoot
    requires Run(b, e, now).ports[rk].enabled && Run(b, e, now).ports[rk].agree && !b.ports[rk].agree
    requires 0 < Run(b, e, now).rootTimes.fwd
    ensures HeldBack(Run(b, e, now).ports[k])
  {
    var s, t := Stopped(b, e, now), Started(b, e, now);
    StoppedOneRoot(b, e, now);
    RootAtTurn(b, e, now, rk);
    var m := RaiseAll(s, rk, now);
    RaiseAgrees(m, rk, now, k);
    var x, y := StartedAt(b, e, now, k);
    RunEnds(b, e, now, k);
    SendRemains(t.ports[k], e.tx[k], t.helloMs, now);
    if rk < k {
      RaiseBefore(s, rk, now, k);
      SweptRole(s.ports[k], Asks(s), x);
      TurnDown(s.ports[k], Asks(s), m.ports[k], x, y, now, s.rootTimes.fwd);
      assert Alike(y, t.ports[k]);
    } else {
      RaiseAfter(s, rk, now, k);
      RaiseAfter(s, |s.ports|, now, k);
      SyncedDown(RaiseAll(s, k + 1, now).ports[k], Asks(s), m.ports[k], t.ports[k]);
    }
  }

  /** The root port at its turn. */
  lemma RootAtTurn(b: Bridge, e: Env, now: int, rk: nat)
    requires Inv(b) && b.on && rk < |b.ports| && EnvFits(e, |b.ports|)
    requires Run(b, e, now).rootKey == rk && Run(b, e, now).ports[rk].role == RoleRoot
    requires Run(b, e, now).ports[rk].enabled && Run(b, e, now).ports[rk].agree && !b.ports[rk].agree
    ensures var s := Stopped(b, e, now); var m := RaiseAll(s, rk, now);
      && SameRoot(s, m) && s.rootKey == rk && m.ports[rk].enabled && m.ports[rk].role == RoleRoot && !m.ports[rk].agree
      && m.ports[rk].proposed == Asks(s) && Raise(m, rk, now).ports[rk].agree
  {
    var s, t := Stopped(b, e, now), Started(b, e, now);
    StoppedOneRoot(b, e, now);
    var x, y := StartedAt(b, e, now, rk);
    RunEnds(b, e, now, rk);
    SendRemains(t.ports[rk], e.tx[rk], t.helloMs, now);
    RaiseBefore(s, rk, now, rk);
    RaiseAfter(s, |s.ports|, now, rk);
    Unturned(s, rk, now);
    StoppedAgree(b, e, now, rk);
    var b1, b2, b3, b4 := RunPasses(b, e, now, rk);
  }

  lemma LinkAgree(p: Port, link: bool, speedCost: nat, now: int)
    ensures LinkStep(p, link, speedCost, now).agree ==> p.agree
  {
  }

  lemma ToldAgree(h: Port, v: Verdict, now: int, helloMs: int)
    ensures Told(h, v, now, helloMs).agree == h.agree
  {
  }

  lemma ListensAgree(p: Port, id: nat, rootPv: Vector, helloMs: int, now: int)
    ensures Listens(p, id, rootPv, helloMs, now).agree == p.agree
  {
    var h := Heed(p);
    assert h.agree == p.agree;
    ToldAgree(h, Judge(h, id, rootPv), now, helloMs);
  }

  /** Nothing before its turn makes a root port agree. */
  lemma StoppedAgree(b: Bridge, e: Env, now: int, k: nat)
    requires k < |b.ports| && EnvFits(e, |b.ports|) && Stopped(b, e, now).ports[k].enabled
    ensures Stopped(b, e, now).ports[k].role == RoleRoot && Stopped(b, e, now).ports[k].agree ==> b.ports[k].agree
  {
    StoppedAt(b, e, now, k);
    ChosenKnown(b, e, now, k);
    EnteredAt(b, e, now, k);
    LowerSilent(Chosen(b, e, now).ports[k], e.excluded[k]);
    EntersIs(b, k, e, now);
    LinkAgree(b.ports[k], e.link[k], e.speedCost[k], now);
    ListensAgree(LinkStep(b.ports[k], e.link[k], e.speedCost[k], now), b.id, b.rootPv, b.helloMs, now);
  }
}
