/**
 What a port makes of the BPDUs it hears: how long it believes them, how it
 answers, and what it lets through on the strength of them.
 */
module RstpHeard {
  import opened RstpVector
  import opened RstpState
  import opened RstpSafety
  import opened RstpTrace
  import opened RstpProgress

  /** A port that takes part in this run as it did in the last. */
  predicate Live(b: Bridge, e: Env, k: nat) {
    k < |b.ports| && EnvFits(e, |b.ports|) && b.ports[k].used && b.ports[k].enabled && !b.ports[k].bpduTripped &&
    e.link[k] && !e.excluded[k]
  }

  /** A BPDU worth judging: of a port not guarded, with a vector, not too old,
      and not the port's own come back. */
  predicate Believable(b: Bridge, p: Port) {
    !p.bpduGuard && p.msg.kind != TcnBpdu && p.msg.times.msgAge < p.msg.times.maxAge &&
    !(p.msg.vector.bridge == b.id && p.msg.vector.port == p.id)
  }

  /** Sent as designated: said so, or a configuration BPDU. */
  predicate SaysDesignated(m: Bpdu) {
    m.kind == ConfigBpdu || m.claim == ClaimDesignated
  }

  /** Better than what the port knows, or from whom it knows it. */
  predicate Counts(p: Port) {
    Less(p.msg.vector, p.pv) ||
    (p.info == InfoReceived && p.msg.vector.bridge == p.pv.bridge && p.msg.vector.port == p.pv.port)
  }

  /** What a port knows, and until when. */
  predicate Knows(p: Port, v: Vector, ts: Times, until: int) {
    p.info == InfoReceived && p.pv == v && p.pt == ts && p.rcvdUntil == until
  }

  // ----- the first pass -----

  lemma LiveEnters(b: Bridge, e: Env, now: int, k: nat)
    requires Live(b, e, k)
    ensures EntersAt(b, k, e, now) == Listens(Looked(b.ports[k], e.speedCost[k]), b.id, b.rootPv, b.helloMs, now)
  {
    var p := b.ports[k];
    assert LinkStep(p, e.link[k], e.speedCost[k], now).enabled;
    LinkHolds(p, e.link[k], e.speedCost[k], now);
  }

  /** The port that judges the BPDU. */
  function Judging(p: Port, speedCost: nat): Port {
    Heed(Looked(p, speedCost))
  }

  lemma JudgingIs(p: Port, speedCost: nat)
    ensures var h := Judging(p, speedCost);
      && h.enabled == p.enabled && h.msg == p.msg && h.pv == p.pv && h.info == p.info && h.role == p.role
      && h.id == p.id && h.pt == p.pt && h.state == p.state && h.agreed == p.agreed && h.agree == p.agree
      && h.proposed == p.proposed && h.fdUntil == p.fdUntil && h.rcvdUntil == p.rcvdUntil && !h.operEdge && h.heard
      && h.rootGuard == p.rootGuard && h.proposing == p.proposing && h.used == p.used && !h.pending
  {
  }

  lemma LiveHears(b: Bridge, e: Env, now: int, k: nat)
    requires Live(b, e, k) && b.ports[k].pending && Believable(b, b.ports[k])
    ensures var h := Judging(b.ports[k], e.speedCost[k]);
      EntersAt(b, k, e, now) == Ages(Told(h, Judge(h, b.id, b.rootPv), now, b.helloMs), now)
  {
    LiveEnters(b, e, now, k);
    var l := Looked(b.ports[k], e.speedCost[k]);
    assert l.enabled && l.pending && l.msg == b.ports[k].msg && !l.bpduGuard;
  }

  /** How long three hellos are. */
  function ThreeHellos(m: Bpdu, helloMs: int): int {
    3 * if m.times.hello > 0 then m.times.hello else helloMs
  }

  lemma JudgedCounts(h: Port, id: nat, rootPv: Vector)
    requires !(h.msg.vector.bridge == id && h.msg.vector.port == h.id) && SaysDesignated(h.msg) && Counts(h)
    ensures Judge(h, id, rootPv) == Superior || (Judge(h, id, rootPv) == Repeated && h.info == InfoReceived &&
            h.msg.vector == h.pv)
  {
  }

  lemma ToldCounts(h: Port, v: Verdict, now: int, helloMs: int)
    requires v == Superior || (v == Repeated && h.info == InfoReceived && h.msg.vector == h.pv)
    requires 0 < helloMs
    ensures var q := Ages(Told(h, v, now, helloMs), now);
      && Knows(q, h.msg.vector, h.msg.times, now + ThreeHellos(h.msg, helloMs)) && q.proposed == h.msg.proposal
      && q.heard == h.heard && q.operEdge == h.operEdge && q.agree == h.agree && q.enabled == h.enabled
      && q.pending == h.pending
  {
  }

  /** What selection leaves of what a port knows: all of it, unless it is
      designated, which makes it the bridge's own. */
  predicate KnownAfter(p: Port, q: Port) {
    && q.enabled == p.enabled && q.proposed == p.proposed && q.heard == p.heard && q.operEdge == p.operEdge
    && q.pending == p.pending && q.sendRstp == p.sendRstp && (q.agree ==> p.agree)
    && (q.role != RoleDesignated ==> q.info == p.info && q.pv == p.pv && q.pt == p.pt && q.rcvdUntil == p.rcvdUntil)
  }

  lemma AssignKnown(p: Port, isRoot: bool, dv: Vector, rt: Times)
    ensures KnownAfter(p, AssignRole(p, isRoot, dv, rt))
  {
  }

  lemma SyncKnown(p: Port, a: Port, c: Port, q: Port)
    requires KnownAfter(p, a) && (c == a || c == a.(agree := false)) && (q == c || q == SyncPort(c))
    ensures KnownAfter(p, q)
  {
  }

  lemma SelectKnown(b: Bridge, k: nat)
    requires k < |b.ports|
    ensures KnownAfter(b.ports[k], SelectRoles(b).ports[k])
  {
    SelectRolesAt(b, k);
    var c := Choose(b.id, b.ports, |b.ports|);
    var dv := DesignatedVector(c.best, b.id, b.ports[k]);
    var a := AssignRole(b.ports[k], k == c.key, dv, TimesFor(b, c.key));
    var moved := c.key != b.rootKey || c.best != b.rootPv;
    AssignKnown(b.ports[k], k == c.key, dv, TimesFor(b, c.key));
    SyncKnown(b.ports[k], a, if moved && k == c.key then a.(agree := false) else a, SelectRoles(b).ports[k]);
  }

  lemma ChosenKnown(b: Bridge, e: Env, now: int, k: nat)
    requires k < |b.ports| && EnvFits(e, |b.ports|)
    ensures KnownAfter(Entered(b, e, now).ports[k], Chosen(b, e, now).ports[k])
  {
    if Entered(b, e, now).reselect {
      SelectKnown(Entered(b, e, now), k);
    }
  }

  // ----- the rest of a run -----

  /** What the passes after selection leave alone, and how they answer a
      proposal. */
  predicate Answered(c: Port, q: Port) {
    && q.enabled == c.enabled && q.role == c.role && q.info == c.info && q.pv == c.pv && q.pt == c.pt
    && q.rcvdUntil == c.rcvdUntil && q.heard == c.heard && q.pending == c.pending && q.sendRstp == c.sendRstp
    && (c.heard && !c.operEdge ==> !q.operEdge)
    && (c.enabled && c.proposed && c.role != RoleDesignated && c.role != RoleDisabled ==> q.agree && !q.proposed)
  }

  lemma AnsweredFrom(c: Port, out: bool, x: Port, y: Port, z: Port, now: int, fwd: int, a: bool, d: bool, q: Port)
    requires Alike(Swept(LowerOf(c, out), a), x)
    requires if x.enabled && x.role == RoleRoot then Rooted(x, y) else Alike(Moves(x, now, fwd), y)
    requires Alike(Swept(y, d), z)
    requires q == z.(txWindow := q.txWindow, txCount := q.txCount, newInfo := q.newInfo, tcAck := q.tcAck,
                     helloNext := q.helloNext)
    ensures Answered(c, q)
  {
    StoppedAnswers(c, out);
    SweptAnswers(LowerOf(c, out), a, x);
    TurnAnswers(x, y, now, fwd);
    SweptAnswers(y, d, z);
  }

  /** The same in what is known and how it is answered. */
  predicate Untouched(p: Port, q: Port) {
    && q.enabled == p.enabled && q.role == p.role && q.info == p.info && q.pv == p.pv && q.pt == p.pt
    && q.rcvdUntil == p.rcvdUntil && q.heard == p.heard && q.pending == p.pending && q.sendRstp == p.sendRstp
    && (p.heard && !p.operEdge ==> !q.operEdge)
  }

  lemma StopAnswers(c: Port)
    ensures var s := Stop(c);
      && Untouched(c, s) && s.operEdge == c.operEdge
      && (c.proposed && c.role != RoleDisabled ==> s.agree && !s.proposed)
  {
  }

  lemma BlockAnswers(c: Port)
    ensures var s := c.(state := Discarding);
      Untouched(c, s) && s.operEdge == c.operEdge && s.agree == c.agree && s.proposed == c.proposed
  {
  }

  lemma StoppedAnswers(c: Port, out: bool)
    ensures var s := LowerOf(c, out);
      && Untouched(c, s) && s.operEdge == c.operEdge
      && (c.enabled && c.proposed && (c.role == RoleAlternate || c.role == RoleBackup) ==> s.agree && !s.proposed)
      && (c.role == RoleRoot ==> s.proposed == c.proposed)
  {
    if c.enabled && !Carries(c) {
      StopAnswers(c);
    } else if !c.enabled && c.used && !out {
      BlockAnswers(c);
    }
  }

  lemma SweptAnswers(p: Port, asks: bool, q: Port)
    requires Alike(Swept(p, asks), q)
    ensures Untouched(p, q) && q.proposed == p.proposed && q.agree == p.agree && q.operEdge == p.operEdge
  {
  }

  lemma StepAnswers(x: Port, now: int, fwd: int)
    ensures var y := DesignatedStep(x, now, fwd);
      Untouched(x, y) && y.proposed == x.proposed && y.agree == x.agree
  {
  }

  lemma RootAnswers(x: Port, agree: bool)
    ensures var y := RootedAs(x, agree); Untouched(x, y) && !y.proposed && y.agree == agree
  {
  }

  lemma AlikeAnswers(x: Port, m: Port, y: Port)
    requires Untouched(x, m) && Alike(m, y)
    ensures Untouched(x, y) && y.proposed == m.proposed && y.agree == m.agree
  {
  }

  lemma TurnAnswers(x: Port, y: Port, now: int, fwd: int)
    requires if x.enabled && x.role == RoleRoot then Rooted(x, y) else Alike(Moves(x, now, fwd), y)
    ensures Untouched(x, y)
    ensures if x.enabled && x.role == RoleRoot then !y.proposed && (x.proposed ==> y.agree)
            else y.proposed == x.proposed && y.agree == x.agree
  {
    if x.enabled && x.role == RoleRoot {
      RootAnswers(x, y.agree);
      AlikeAnswers(x, RootedAs(x, y.agree), y);
    } else if x.enabled && x.role == RoleDesignated {
      StepAnswers(x, now, fwd);
      AlikeAnswers(x, DesignatedStep(x, now, fwd), y);
    } else {
      AlikeAnswers(x, x, y);
    }
  }

  lemma RunAnswers(b: Bridge, e: Env, now: int, k: nat)
    requires Inv(b) && b.on && k < |b.ports| && EnvFits(e, |b.ports|)
    ensures Answered(Chosen(b, e, now).ports[k], Run(b, e, now).ports[k])
  {
    var s, t, q := Stopped(b, e, now), Started(b, e, now), Run(b, e, now).ports[k];
    var x, y := StartedAt(b, e, now, k);
    StoppedAt(b, e, now, k);
    RunEnds(b, e, now, k);
    SendRemains(t.ports[k], e.tx[k], t.helloMs, now);
    AnsweredFrom(Chosen(b, e, now).ports[k], e.excluded[k], x, y, t.ports[k], now, s.rootTimes.fwd,
                 Asks(s) && s.rootKey < k, Asks(s) && k < s.rootKey, q);
  }

  // ----- when selection is due -----

  /** The same in all that selection goes by. */
  predicate SameInfo(p: Port, q: Port) {
    q.enabled == p.enabled && q.info == p.info && q.pv == p.pv && q.pt == p.pt && q.cost == p.cost
  }

  lemma VectorReselects(b: Bridge, k: nat, now: int)
    requires k < |b.ports|
    ensures var r := RcvVector(b, k, now); !r.reselect ==> SameInfo(b.ports[k], r.ports[k])
  {
    var p := b.ports[k];
    var v := Judge(p, b.id, b.rootPv);
    var b' := b.(ports := b.ports[k := Told(p, v, now, b.helloMs)],
                 reselect := b.reselect || v == Looped || v == Superior || (v == Repeated && p.pt != p.msg.times));
    ChangeAlike(b', k, true, now, k);
    if v != Looped && v != Superior && (v == Repeated ==> p.pt == p.msg.times) {
      ToldInfo(p, v, now, b.helloMs);
    }
  }

  lemma ToldInfo(p: Port, v: Verdict, now: int, helloMs: int)
    requires v != Looped && v != Superior && (v == Repeated ==> p.pt == p.msg.times)
    ensures SameInfo(p, Told(p, v, now, helloMs))
  {
    var q := Told(p, v, now, helloMs);
    assert q.pv == p.pv && q.info == p.info;
    assert q.pt == p.pt && q.enabled == p.enabled && q.cost == p.cost;
  }

  lemma HearsReselects(b: Bridge, k: nat, now: int)
    requires k < |b.ports|
    ensures var r := Receive(b, k, now); !r.reselect ==> SameInfo(b.ports[k], r.ports[k])
  {
    var p := b.ports[k];
    if !p.bpduGuard {
      var b' := b.(ports := b.ports[k := Heed(p)], reselect := b.reselect || p.operEdge);
      assert SameInfo(p, Heed(p));
      if p.msg.kind == TcnBpdu {
        ChangeAlike(b', k, true, now, k);
      } else if p.msg.times.msgAge < p.msg.times.maxAge {
        VectorReselects(b', k, now);
      }
    }
  }

  lemma EnterReselects(b: Bridge, k: nat, link: bool, speedCost: nat, now: int)
    requires k < |b.ports|
    ensures var r := Enter(b, k, link, speedCost, now); !r.reselect ==> SameInfo(b.ports[k], r.ports[k])
  {
  }

  lemma ShutReselects(b: Bridge, k: nat)
    requires k < |b.ports|
    ensures var r := Exclude(b, k); !r.reselect ==> SameInfo(b.ports[k], r.ports[k])
  {
  }

  /** A turn that changes what selection goes by makes one due. */
  lemma AdmitReselects(b: Bridge, k: nat, e: Env, now: int)
    requires k < |b.ports| && EnvFits(e, |b.ports|)
    ensures var r := Admit(b, k, e, now); !r.reselect ==> SameInfo(b.ports[k], r.ports[k])
  {
    if b.ports[k].used && e.excluded[k] {
      ShutReselects(b, k);
    } else {
      EnterReselects(b, k, e.link[k], e.speedCost[k], now);
      var b1 := Enter(b, k, e.link[k], e.speedCost[k], now);
      if b1.ports[k].enabled {
        HearsReselects(b1, k, now);
        var b2 := if b1.ports[k].pending then Receive(b1, k, now) else b1;
        HearsAt(b1, k, now, k);
        AgesAt(b2, k, now, k);
      }
    }
  }

  lemma SameInfoOf(p: Port, m: Port, q: Port)
    requires (Alike(p, m) && SameInfo(m, q)) || (SameInfo(p, m) && Alike(m, q))
    ensures SameInfo(p, q)
  {
  }

  lemma NextReselects(b: Bridge, m: Bridge, t: nat, e: Env, now: int, k: nat)
    requires k < |b.ports| && t < |b.ports| == |m.ports| && EnvFits(e, |b.ports|)
    requires if k == t then Alike(b.ports[k], m.ports[k]) else !m.reselect ==> SameInfo(b.ports[k], m.ports[k])
    ensures var r := Admit(m, t, e, now); !r.reselect ==> SameInfo(b.ports[k], r.ports[k])
  {
    var r := Admit(m, t, e, now);
    AdmitAt(m, t, e, now, k);
    if !r.reselect {
      if k == t {
        AdmitReselects(m, k, e, now);
      }
      SameInfoOf(b.ports[k], m.ports[k], r.ports[k]);
    }
  }

  lemma {:induction false} AdmitAllReselects(b: Bridge, n: nat, e: Env, now: int, k: nat)
    requires k < n <= |b.ports| && EnvFits(e, |b.ports|)
    ensures var r := AdmitAll(b, n, e, now); !r.reselect ==> SameInfo(b.ports[k], r.ports[k])
  {
    var m := AdmitAll(b, n - 1, e, now);
    if k < n - 1 {
      AdmitAllReselects(b, n - 1, e, now, k);
    } else {
      AdmitAllAt(b, n - 1, e, now, k);
    }
    NextReselects(b, m, n - 1, e, now, k);
  }

  // ----- hearing a designated port -----

  /** The role selection gives a port, by what it knows. */
  predicate RoleBy(p: Port, q: Port, rootKey: int, rootPv: Vector, id: nat, k: nat) {
    var own := Vector(rootPv.root, rootPv.cost, id, p.id);
    && q.id == p.id && q.enabled == p.enabled && (q.role == RoleRoot <==> p.enabled && k == rootKey)
    && (q.role == RoleDisabled <==> !p.enabled)
    && (q.role == RoleDesignated <==> p.enabled && k != rootKey && !(p.info == InfoReceived && Less(p.pv, own)))
    && (q.role == RoleDesignated ==> q.info == InfoMine && q.pv == own)
    && (q.role == RoleBackup ==> p.pv.bridge == id) && (q.role == RoleAlternate ==> p.pv.bridge != id)
    && (k == rootKey ==> Candidate(id, p))
  }

  lemma SelectRole(b: Bridge, k: nat)
    requires k < |b.ports|
    ensures var r := SelectRoles(b); RoleBy(b.ports[k], r.ports[k], r.rootKey, r.rootPv, b.id, k)
  {
    SelectRolesAt(b, k);
    var c := Choose(b.id, b.ports, |b.ports|);
    ChosenIsCandidate(b.id, b.ports, |b.ports|);
    var a := AssignRole(b.ports[k], k == c.key, DesignatedVector(c.best, b.id, b.ports[k]), TimesFor(b, c.key));
    var moved := c.key != b.rootKey || c.best != b.rootPv;
    var cl := if moved && k == c.key then a.(agree := false) else a;
    AssignedRole(b.ports[k], a, cl, SelectRoles(b).ports[k], c.key, c.best, TimesFor(b, c.key), b.id, k);
  }

  lemma AssignedRole(p: Port, a: Port, c: Port, q: Port, rootKey: int, rootPv: Vector, rt: Times, id: nat, k: nat)
    requires k == rootKey ==> Candidate(id, p)
    requires a == AssignRole(p, k == rootKey, DesignatedVector(rootPv, id, p), rt)
    requires (c == a || c == a.(agree := false)) && (q == c || q == SyncPort(c))
    ensures RoleBy(p, q, rootKey, rootPv, id, k)
  {
    var dv := DesignatedVector(rootPv, id, p);
    AssignRoleKeeps(p, k == rootKey, dv, rt);
    AssignId(p, k == rootKey, dv, rt);
    SyncedRole(a, c, q);
    RoleByIs(p, q, rootKey, rootPv, id, k);
  }

  lemma RoleByIs(p: Port, q: Port, rootKey: int, rootPv: Vector, id: nat, k: nat)
    requires q.id == p.id && q.enabled == p.enabled && (k == rootKey ==> Candidate(id, p))
    requires q.role == RoleFor(p, k == rootKey, DesignatedVector(rootPv, id, p))
    requires q.role == RoleDesignated ==> q.info == InfoMine && q.pv == DesignatedVector(rootPv, id, p)
    ensures RoleBy(p, q, rootKey, rootPv, id, k)
  {
  }

  lemma AssignId(p: Port, isRoot: bool, dv: Vector, rt: Times)
    ensures AssignRole(p, isRoot, dv, rt).id == p.id
  {
  }

  lemma SyncedRole(a: Port, c: Port, q: Port)
    requires (c == a || c == a.(agree := false)) && (q == c || q == SyncPort(c))
    ensures q.role == a.role && q.info == a.info && q.pv == a.pv && q.id == a.id && q.enabled == a.enabled
  {
  }

  /** The bridge's own vector on a port. */
  function Own(r: Bridge, p: Port): Vector {
    Vector(r.rootPv.root, r.rootPv.cost, r.id, p.id)
  }

  lemma SameId(b: Bridge, e: Env, now: int, k: nat)
    requires Inv(b) && b.on && k < |b.ports| && EnvFits(e, |b.ports|)
    ensures var m, c, r := Entered(b, e, now), Chosen(b, e, now), Run(b, e, now);
      m.id == b.id && c.id == b.id && r.id == b.id && r.rootPv == c.rootPv && r.rootKey == c.rootKey
  {
    EnteredAt(b, e, now, k);
    StoppedAt(b, e, now, k);
    var x, y := StartedAt(b, e, now, k);
    RunEnds(b, e, now, k);
  }

  lemma HeardEnters(b: Bridge, e: Env, now: int, k: nat)
    requires Live(b, e, k) && b.ports[k].pending && Believable(b, b.ports[k]) && 0 < b.helloMs
    requires SaysDesignated(b.ports[k].msg) && Counts(b.ports[k])
    ensures var q, m := Entered(b, e, now).ports[k], b.ports[k].msg;
      && Knows(q, m.vector, m.times, now + ThreeHellos(m, b.helloMs)) && q.proposed == m.proposal
      && q.heard && !q.operEdge && q.enabled && !q.pending
  {
    EnteredAt(b, e, now, k);
    LiveHears(b, e, now, k);
    var p := b.ports[k];
    var h := Judging(p, e.speedCost[k]);
    JudgingIs(p, e.speedCost[k]);
    JudgedCounts(h, b.id, b.rootPv);
    ToldCounts(h, Judge(h, b.id, b.rootPv), now, b.helloMs);
  }

  /**
   A run that hears a believable BPDU from a designated port, better than what is
   known or from whoever said that, leaves the port knowing its vector and times
   for three hellos, an answered proposal and no edge; unless the port is
   designated, its bridge having no worse to offer.
   */
  lemma HeardDesignated(b: Bridge, e: Env, now: int, k: nat)
    requires Inv(b) && b.on && Live(b, e, k) && 0 < b.helloMs
    requires b.ports[k].pending && Believable(b, b.ports[k]) && SaysDesignated(b.ports[k].msg) && Counts(b.ports[k])
    ensures var m, r := b.ports[k].msg, Run(b, e, now);
      var q := r.ports[k];
      && q.enabled && q.heard && !q.operEdge && !q.pending
      && (q.role != RoleDesignated ==> Knows(q, m.vector, m.times, now + ThreeHellos(m, b.helloMs)))
      && (q.role != RoleDesignated && m.proposal ==> q.agree && !q.proposed)
      && (m.vector != b.ports[k].pv || b.ports[k].info != InfoReceived ==>
            (q.role == RoleDesignated <==> k != r.rootKey && !Less(m.vector, Own(r, q))))
  {
    HeardEnters(b, e, now, k);
    ChosenKnown(b, e, now, k);
    RunAnswers(b, e, now, k);
    SameId(b, e, now, k);
    var c := Chosen(b, e, now);
    AdmitAllReselects(b, |b.ports|, e, now, k);
    if Entered(b, e, now).reselect {
      SelectRole(Entered(b, e, now), k);
    } else {
      LiveRole(b, e, now, k);
    }
    RunId(b, e, now, k);
  }

  /** No run changes a port's id. */
  lemma RunId(b: Bridge, e: Env, now: int, k: nat)
    requires Inv(b) && b.on && k < |b.ports| && EnvFits(e, |b.ports|)
    ensures Run(b, e, now).ports[k].id == b.ports[k].id && Entered(b, e, now).ports[k].id == b.ports[k].id
  {
    var x, y := StartedAt(b, e, now, k);
    StoppedAt(b, e, now, k);
    RunEnds(b, e, now, k);
    AdmitAllPort(b, e, now, k);
    if Entered(b, e, now).reselect {
      SelectRole(Entered(b, e, now), k);
    }
    TurnId(Chosen(b, e, now).ports[k], e.excluded[k], x, y, now, Stopped(b, e, now).rootTimes.fwd,
           Asks(Stopped(b, e, now)) && Stopped(b, e, now).rootKey < k);
    SendRemains(Started(b, e, now).ports[k], e.tx[k], Started(b, e, now).helloMs, now);
  }

  lemma TurnId(c: Port, out: bool, x: Port, y: Port, now: int, fwd: int, a: bool)
    requires Alike(Swept(LowerOf(c, out), a), x)
    requires if x.enabled && x.role == RoleRoot then Rooted(x, y) else Alike(Moves(x, now, fwd), y)
    ensures y.id == c.id
  {
    StopId(c);
    if x.enabled && x.role == RoleDesignated {
      DesignatedStepKeeps(x, now, fwd);
    }
  }

  lemma StopId(c: Port)
    ensures Stop(c).id == c.id
  {
  }

  /** Where no selection was due, a live port has a role already. */
  lemma LiveRole(b: Bridge, e: Env, now: int, k: nat)
    requires Inv(b) && Live(b, e, k) && !Entered(b, e, now).reselect
    ensures Chosen(b, e, now).ports[k].role == b.ports[k].role != RoleDisabled
  {
    assert PortInv(b, k);
    AdmitAllPort(b, e, now, k);
  }

  // ----- for how long -----

  lemma SilentEnters(b: Bridge, e: Env, now: int, k: nat)
    requires Live(b, e, k) && !b.ports[k].pending
    ensures Alike(Ages(Looked(b.ports[k], e.speedCost[k]), now), Entered(b, e, now).ports[k])
  {
    EnteredAt(b, e, now, k);
    LiveEnters(b, e, now, k);
  }

  lemma AgedIs(p: Port, speedCost: nat, now: int, q: Port)
    requires Alike(Ages(Looked(p, speedCost), now), q)
    ensures q.enabled == p.enabled && q.pv == p.pv && q.pt == p.pt && q.rcvdUntil == p.rcvdUntil && q.id == p.id
    ensures q.info == if p.info == InfoReceived && now >= p.rcvdUntil then InfoAged else p.info
    ensures q.pending == p.pending && q.heard == p.heard && q.operEdge == p.operEdge && q.edgeUntil == p.edgeUntil
    ensures q.role == p.role && q.used == p.used && q.bpduTripped == p.bpduTripped && q.adminEdge == p.adminEdge
  {
  }

  /** What is known stays known until its time is over... */
  lemma RunHolds(b: Bridge, e: Env, now: int, k: nat)
    requires Inv(b) && b.on && Live(b, e, k) && !b.ports[k].pending && b.ports[k].info == InfoReceived
    requires now < b.ports[k].rcvdUntil
    ensures var p, q := b.ports[k], Run(b, e, now).ports[k];
      q.enabled && !q.pending && (q.role != RoleDesignated ==> Knows(q, p.pv, p.pt, p.rcvdUntil))
  {
    SilentEnters(b, e, now, k);
    AgedIs(b.ports[k], e.speedCost[k], now, Entered(b, e, now).ports[k]);
    ChosenKnown(b, e, now, k);
    RunAnswers(b, e, now, k);
  }

  /** ... and at the first run from then on the port is designated, and what it
      knows is what its bridge offers. */
  lemma RunAges(b: Bridge, e: Env, now: int, k: nat)
    requires Inv(b) && b.on && Live(b, e, k) && !b.ports[k].pending && b.ports[k].info == InfoReceived
    requires now >= b.ports[k].rcvdUntil
    ensures var r := Run(b, e, now);
      var q := r.ports[k]; q.role == RoleDesignated && q.info == InfoMine && q.pv == Own(r, q) && k != r.rootKey
  {
    SilentEnters(b, e, now, k);
    AgedIs(b.ports[k], e.speedCost[k], now, Entered(b, e, now).ports[k]);
    AdmitAllReselects(b, |b.ports|, e, now, k);
    SelectRole(Entered(b, e, now), k);
    RunAnswers(b, e, now, k);
    SameId(b, e, now, k);
    RunId(b, e, now, k);
  }

  /** An event that says nothing to port k. */
  predicate SaysNothing(ev: Event, k: nat) {
    match ev
    case EvRun(_, _) => true
    case EvRx(j, _) => j != k
    case EvIface(j, _) => j != k
    case EvPort(j, _) => j != k
    case EvSet(_) => true
  }

  lemma QuietKnows(b: Bridge, ev: Event, k: nat)
    requires !ev.EvRun? && EventFits(|b.ports|, ev) && k < |b.ports| && SaysNothing(ev, k)
    requires Step(b, ev).ports[k].enabled
    ensures Step(b, ev).ports[k] == b.ports[k]
  {
    match ev
    case EvRx(j, msg) =>
    case EvIface(j, switched) =>
    case EvPort(j, c) =>
    case EvSet(c) =>
  }

  /** Nothing is said to port k, it stays live and has another role than
      designated, and no run comes as late as t. */
  ghost predicate Believing(b: Bridge, evs: seq<Event>, k: nat, t: int)
    requires k < |b.ports| && forall i :: 0 <= i < |evs| ==> EventFits(|b.ports|, evs[i])
  {
    (forall i :: 0 <= i <= |evs| ==>
       Steps(b, evs[..i]).ports[k].enabled && Steps(b, evs[..i]).ports[k].role != RoleDesignated) &&
    forall i :: 0 <= i < |evs| ==>
      SaysNothing(evs[i], k) &&
      (evs[i].EvRun? ==> Steps(b, evs[..i]).on && Live(Steps(b, evs[..i]), evs[i].env, k) && evs[i].now < t)
  }

  /** Through any history that says nothing to the port it knows what it knew,
      while it is not its bridge's to speak for and the time is not over. */
  lemma {:induction false} InfoLives(b: Bridge, evs: seq<Event>, k: nat)
    requires Inv(b) && k < |b.ports| && (forall i :: 0 <= i < |evs| ==> EventFits(|b.ports|, evs[i]))
    requires b.ports[k].info == InfoReceived && !b.ports[k].pending && Believing(b, evs, k, b.ports[k].rcvdUntil)
    ensures var p, q := b.ports[k], Steps(b, evs).ports[k]; Knows(q, p.pv, p.pt, p.rcvdUntil) && !q.pending
  {
    if evs != [] {
      var n := |evs| - 1;
      var before := evs[..n];
      forall i | 0 <= i <= n ensures before[..i] == evs[..i] {
      }
      InfoLives(b, before, k);
      StepsKeepInv(b, before);
      var s := Steps(b, before);
      assert evs[..n + 1] == evs;
      assert Steps(b, evs[..n + 1]).ports[k].enabled && Steps(b, evs[..n + 1]).ports[k].role != RoleDesignated;
      if evs[n].EvRun? {
        RunHolds(s, evs[n].env, evs[n].now, k);
      } else {
        QuietKnows(s, evs[n], k);
      }
    }
  }

  /** Heard at t, it is known for three hellos, while nothing more is said to the
      port and it is not its bridge's to speak for. */
  lemma HeardLasts(b: Bridge, e: Env, t: int, evs: seq<Event>, k: nat)
    requires Inv(b) && b.on && Live(b, e, k) && 0 < b.helloMs
    requires b.ports[k].pending && Believable(b, b.ports[k]) && SaysDesignated(b.ports[k].msg) && Counts(b.ports[k])
    requires forall i :: 0 <= i < |evs| ==> EventFits(|b.ports|, evs[i])
    requires Believing(Run(b, e, t), evs, k, t + ThreeHellos(b.ports[k].msg, b.helloMs))
    ensures var m, q := b.ports[k].msg, Steps(Run(b, e, t), evs).ports[k];
      Knows(q, m.vector, m.times, t + ThreeHellos(m, b.helloMs))
  {
    var r := Run(b, e, t);
    HeardDesignated(b, e, t, k);
    RunKeepsInv(b, e, t);
    assert evs[..0] == [] && Steps(r, evs[..0]).ports[k].role != RoleDesignated;
    InfoLives(r, evs, k);
  }

  // ----- agreement and dispute -----

  /** What selection leaves of a port that stays designated with the same to
      offer. */
  lemma SelectSame(b: Bridge, k: nat)
    requires k < |b.ports| && b.ports[k].info == InfoMine
    requires b.ports[k].pv == DesignatedVector(Choose(b.id, b.ports, |b.ports|).best, b.id, b.ports[k])
    ensures var p, q := b.ports[k], SelectRoles(b).ports[k];
      q.agreed == p.agreed && (p.agreed ==> q.state == p.state) && q.operEdge == p.operEdge && q.heard == p.heard
  {
    SelectRolesAt(b, k);
    var c := Choose(b.id, b.ports, |b.ports|);
    var dv := DesignatedVector(c.best, b.id, b.ports[k]);
    var a := AssignRole(b.ports[k], k == c.key, dv, TimesFor(b, c.key));
    var moved := c.key != b.rootKey || c.best != b.rootPv;
    var cl := if moved && k == c.key then a.(agree := false) else a;
    AssignedSame(b.ports[k], a, cl, SelectRoles(b).ports[k], k == c.key, dv, TimesFor(b, c.key));
  }

  lemma AssignedSame(p: Port, a: Port, c: Port, q: Port, isRoot: bool, dv: Vector, rt: Times)
    requires p.info == InfoMine && p.pv == dv && a == AssignRole(p, isRoot, dv, rt)
    requires (c == a || c == a.(agree := false)) && (q == c || q == SyncPort(c))
    ensures q.agreed == p.agreed && (p.agreed ==> q.state == p.state) && q.operEdge == p.operEdge && q.heard == p.heard
  {
    AssignSame(p, isRoot, dv, rt);
    SyncedSame(a, c, q);
  }

  lemma AssignSame(p: Port, isRoot: bool, dv: Vector, rt: Times)
    requires p.info == InfoMine && p.pv == dv
    ensures var q := AssignRole(p, isRoot, dv, rt);
      q.agreed == p.agreed && q.state == p.state && q.operEdge == p.operEdge && q.heard == p.heard
  {
  }

  lemma SyncedSame(a: Port, c: Port, q: Port)
    requires (c == a || c == a.(agree := false)) && (q == c || q == SyncPort(c))
    ensures q.agreed == a.agreed && (a.agreed ==> q.state == a.state) && q.operEdge == a.operEdge && q.heard == a.heard
  {
  }

  lemma AgreementEnters(b: Bridge, e: Env, now: int, k: nat)
    requires Live(b, e, k) && b.ports[k].pending && Believable(b, b.ports[k])
    requires b.ports[k].role == RoleDesignated && b.ports[k].info == InfoMine
    requires var m := b.ports[k].msg;
      !SaysDesignated(m) && m.agreement && m.vector.root == b.rootPv.root
    ensures var p, q := b.ports[k], Entered(b, e, now).ports[k];
      q.agreed && q.role == RoleDesignated && q.info == InfoMine && q.pv == p.pv && q.id == p.id && q.enabled
  {
    EnteredAt(b, e, now, k);
    LiveHears(b, e, now, k);
    var h := Judging(b.ports[k], e.speedCost[k]);
    JudgingIs(b.ports[k], e.speedCost[k]);
    assert Judge(h, b.id, b.rootPv) == Agreement;
    ToldAgreement(h, now, b.helloMs);
  }

  lemma ToldAgreement(h: Port, now: int, helloMs: int)
    requires h.info == InfoMine
    ensures var q := Ages(Told(h, Agreement, now, helloMs), now);
      q.agreed && q.role == h.role && q.info == h.info && q.pv == h.pv && q.id == h.id && q.enabled == h.enabled
  {
  }

  /** A designated port that is sent an agreement naming its bridge's root
      forwards by the end of that run, if it still offers the same. */
  lemma AgreementOpens(b: Bridge, e: Env, now: int, k: nat)
    requires Inv(b) && b.on && Live(b, e, k) && b.ports[k].pending && Believable(b, b.ports[k])
    requires b.ports[k].role == RoleDesignated && b.ports[k].info == InfoMine
    requires var m := b.ports[k].msg;
      !SaysDesignated(m) && m.agreement && m.vector.root == b.rootPv.root
    requires var r := Run(b, e, now); r.ports[k].role == RoleDesignated && b.ports[k].pv == Own(r, b.ports[k])
    ensures var q := Run(b, e, now).ports[k]; q.agreed && q.state == Forwarding
  {
    RunAnswers(b, e, now, k);
    SameId(b, e, now, k);
    AgreementChosen(b, e, now, k);
    RunAgreed(b, e, now, k);
    RunForwards(b, e, now, k);
  }

  lemma AgreementChosen(b: Bridge, e: Env, now: int, k: nat)
    requires Live(b, e, k) && b.ports[k].pending && Believable(b, b.ports[k])
    requires b.ports[k].role == RoleDesignated && b.ports[k].info == InfoMine
    requires var m := b.ports[k].msg;
      !SaysDesignated(m) && m.agreement && m.vector.root == b.rootPv.root
    requires var c := Chosen(b, e, now);
      c.ports[k].role == RoleDesignated && b.ports[k].pv == Own(c, b.ports[k])
    ensures Chosen(b, e, now).ports[k].agreed && Chosen(b, e, now).ports[k].enabled
  {
    AgreementEnters(b, e, now, k);
    ChosenKnown(b, e, now, k);
    var m := Entered(b, e, now);
    if m.reselect {
      assert Chosen(b, e, now).rootPv == Choose(m.id, m.ports, |m.ports|).best && Chosen(b, e, now).id == m.id;
      SelectSame(m, k);
    }
  }

  /** No pass after selection changes what is agreed. */
  lemma RunAgreed(b: Bridge, e: Env, now: int, k: nat)
    requires Inv(b) && b.on && k < |b.ports| && EnvFits(e, |b.ports|)
    ensures Run(b, e, now).ports[k].agreed == Chosen(b, e, now).ports[k].agreed
  {
    var b1, b2, b3, b4 := RunPasses(b, e, now, k);
  }

  lemma DisputeEnters(b: Bridge, e: Env, now: int, k: nat)
    requires Live(b, e, k) && b.ports[k].pending && Believable(b, b.ports[k])
    requires b.ports[k].role == RoleDesignated && SaysDesignated(b.ports[k].msg) && b.ports[k].msg.learning
    requires !Counts(b.ports[k])
    ensures var q := Entered(b, e, now).ports[k];
      !q.agreed && q.state == Discarding && !q.operEdge && q.heard && q.enabled
  {
    EnteredAt(b, e, now, k);
    LiveHears(b, e, now, k);
    var h := Judging(b.ports[k], e.speedCost[k]);
    JudgingIs(b.ports[k], e.speedCost[k]);
    assert Judge(h, b.id, b.rootPv) == Disputed;
    ToldDisputed(h, now, b.helloMs);
  }

  lemma ToldDisputed(h: Port, now: int, helloMs: int)
    ensures var q := Ages(Told(h, Disputed, now, helloMs), now);
      !q.agreed && q.state == Discarding && q.operEdge == h.operEdge && q.heard == h.heard && q.enabled == h.enabled
  {
  }

  /** A port that starts its turn discarding, no edge and not agreed with, does
      not end it forwarding. */
  lemma TurnStaysDown(c: Port, out: bool, x: Port, y: Port, z: Port, now: int, fwd: int, a: bool, d: bool)
    requires Alike(Swept(LowerOf(c, out), a), x) && Alike(Moves(x, now, fwd), y) && Alike(Swept(y, d), z)
    requires c.enabled && c.role == RoleDesignated
    requires c.state == Discarding && !c.agreed && c.heard && !c.operEdge
    ensures z.state != Forwarding
  {
  }

  /** A designated port told by another that it is designated too, with worse
      to offer, and learns already, is not forwarding when the run is over. */
  lemma DisputeBlocks(b: Bridge, e: Env, now: int, k: nat)
    requires Inv(b) && b.on && Live(b, e, k) && b.ports[k].pending && Believable(b, b.ports[k])
    requires b.ports[k].role == RoleDesignated && SaysDesignated(b.ports[k].msg) && b.ports[k].msg.learning
    requires !Counts(b.ports[k]) && Run(b, e, now).ports[k].role == RoleDesignated
    ensures Run(b, e, now).ports[k].state != Forwarding && !Run(b, e, now).ports[k].agreed
  {
    DisputeEnters(b, e, now, k);
    var c, s, t := Chosen(b, e, now).ports[k], Stopped(b, e, now), Started(b, e, now);
    ChosenKnown(b, e, now, k);
    RunAnswers(b, e, now, k);
    RunAgreed(b, e, now, k);
    if Entered(b, e, now).reselect {
      SelectRolesPort(Entered(b, e, now), k);
    }
    var x, y := StartedAt(b, e, now, k);
    StoppedAt(b, e, now, k);
    RunEnds(b, e, now, k);
    SendRemains(t.ports[k], e.tx[k], t.helloMs, now);
    TurnStaysDown(c, e.excluded[k], x, y, t.ports[k], now, s.rootTimes.fwd, Asks(s) && s.rootKey < k,
                  Asks(s) && k < s.rootKey);
  }

  // ----- a BPDU come back -----

  /** The port's own BPDU, on that port. */
  predicate LoopedBack(b: Bridge, p: Port) {
    !p.bpduGuard && p.msg.kind != TcnBpdu && p.msg.times.msgAge < p.msg.times.maxAge &&
    p.msg.vector.bridge == b.id && p.msg.vector.port == p.id
  }

  lemma LoopEnters(b: Bridge, e: Env, now: int, k: nat)
    requires Live(b, e, k) && b.ports[k].pending && LoopedBack(b, b.ports[k]) && 0 < b.helloMs
    ensures var q, m := Entered(b, e, now).ports[k], b.ports[k].msg;
      q.info == InfoReceived && q.pv == m.vector && q.id == b.ports[k].id && q.enabled
    ensures b.ports[k].info == InfoMine ==> Entered(b, e, now).reselect
  {
    EnteredAt(b, e, now, k);
    LiveEnters(b, e, now, k);
    var l := Looked(b.ports[k], e.speedCost[k]);
    assert l.enabled && l.pending && l.msg == b.ports[k].msg && !l.bpduGuard;
    var h := Judging(b.ports[k], e.speedCost[k]);
    JudgingIs(b.ports[k], e.speedCost[k]);
    assert Judge(h, b.id, b.rootPv) == Looped;
    ToldLooped(h, now, b.helloMs);
    AdmitAllReselects(b, |b.ports|, e, now, k);
  }

  lemma ToldLooped(h: Port, now: int, helloMs: int)
    requires 0 < helloMs
    ensures var q := Ages(Told(h, Looped, now, helloMs), now);
      q.info == InfoReceived && q.pv == h.msg.vector && q.id == h.id && q.enabled == h.enabled
  {
  }

  /**
   A port that hears its own BPDU becomes a backup, and discards, exactly when
   the vector come back is better than what its bridge offers now: when the root
   has become worse in between. Otherwise it stays designated.
   */
  lemma LoopSeen(b: Bridge, e: Env, now: int, k: nat)
    requires Inv(b) && b.on && Live(b, e, k) && b.ports[k].pending && LoopedBack(b, b.ports[k]) && 0 < b.helloMs
    requires b.ports[k].info == InfoMine
    ensures var r := Run(b, e, now);
      var q := r.ports[k];
      && (q.role == RoleBackup && q.state == Discarding <==> Less(b.ports[k].msg.vector, Own(r, q)))
      && (!Less(b.ports[k].msg.vector, Own(r, q)) ==> q.role == RoleDesignated)
  {
    LoopEnters(b, e, now, k);
    SelectRole(Entered(b, e, now), k);
    RunAnswers(b, e, now, k);
    SameId(b, e, now, k);
    RunId(b, e, now, k);
    assert PortInv(b, k);
    RunPromises(b, e, now, k);
  }

  /** So one that comes back as it was sent goes unseen: the port stays designated
      and, the tree being quiet, goes on forwarding. */
  lemma LoopUnseen(b: Bridge, e: Env, now: int, k: nat)
    requires Inv(b) && b.on && Live(b, e, k) && b.ports[k].pending && LoopedBack(b, b.ports[k]) && 0 < b.helloMs
    requires Plain(b.ports[k]) && b.ports[k].state == Forwarding && b.ports[k].info == InfoMine
    requires Undisturbed(b, Run(b, e, now), k) && b.ports[k].msg.vector == b.ports[k].pv == Own(b, b.ports[k])
    ensures var q := Run(b, e, now).ports[k]; q.role == RoleDesignated && q.state == Forwarding
  {
    var r := Run(b, e, now);
    LoopSeen(b, e, now, k);
    SameId(b, e, now, k);
    RunId(b, e, now, k);
    LiveExactly(b, e, now, k);
    assert PortInv(b, k);
    RunPromises(b, e, now, k);
    RunForwards(b, e, now, k);
    if !r.ports[k].operEdge && !r.ports[k].agreed {
      RunMoves(b, e, now, k);
    }
  }

  /** The root bridge, with one port, which hears itself. */
  function Alone(): Bridge {
    var v := Vector(1, 0, 1, 1);
    var ts := Times(0, 20000, 2000, 15000);
    var m := Bpdu(RstBpdu, v, ts, false, true, ClaimDesignated, true, false);
    var p := Port(true, true, false, 20, false, false, false, false, false, 20, 1, RoleDesignated, Forwarding,
                  InfoMine, v, ts, false, false, false, false, true, false, false, true, 0, 0, 0, 0, 0, 0, 0, true, m);
    Bridge(true, 1, [p], Vector(1, 0, 1, 0), -1, ts, false, 2000, 20000, 15000, 0)
  }

  const WIRE := Env([true], [false], [20], [Sent])

  lemma AloneIs()
    ensures Inv(Alone()) && Live(Alone(), WIRE, 0) && LoopedBack(Alone(), Alone().ports[0])
  {
    assert PortInv(Alone(), 0);
  }

  lemma AloneChooses(m: Bridge)
    requires |m.ports| == 1 && m.id == 1 && !Candidate(1, m.ports[0])
    ensures var r := SelectRoles(m); r.rootKey == -1 && r.rootPv == Vector(1, 0, 1, 0)
  {
    assert Choose(m.id, m.ports, 0) == Choice(SelfVector(1), -1);
    assert Choose(m.id, m.ports, 1) == Choice(SelfVector(1), -1);
  }

  /** Its loop goes unseen. */
  lemma AloneLoops(now: int)
    ensures LoopedBack(Alone(), Alone().ports[0])
    ensures var q := Run(Alone(), WIRE, now).ports[0]; q.role == RoleDesignated && q.state == Forwarding
  {
    var b := Alone();
    AloneIs();
    LoopEnters(b, WIRE, now, 0);
    SameId(b, WIRE, now, 0);
    AloneChooses(Entered(b, WIRE, now));
    LoopUnseen(b, WIRE, now, 0);
  }
}
