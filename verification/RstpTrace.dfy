/**
 One port through one run, exactly: what each of the passes makes of it, up to
 whether it has news to tell and how long it announces a topology change.
 */
module RstpTrace {
  import opened RstpVector
  import opened RstpState
  import opened RstpSafety

  /** The same port, but that it may have more news to tell and a topology change
      to announce. */
  predicate Alike(p: Port, q: Port) {
    && q.used == p.used && q.enabled == p.enabled && q.adminEdge == p.adminEdge && q.cfgCost == p.cfgCost
    && q.bpduGuard == p.bpduGuard && q.rootGuard == p.rootGuard && q.bpduTripped == p.bpduTripped
    && q.rootBlocked == p.rootBlocked && q.operEdge == p.operEdge && q.cost == p.cost && q.id == p.id
    && q.role == p.role && q.state == p.state && q.info == p.info && q.pv == p.pv && q.pt == p.pt
    && q.proposing == p.proposing && q.proposed == p.proposed && q.agreed == p.agreed && q.agree == p.agree
    && q.sendRstp == p.sendRstp && q.tcAck == p.tcAck && q.heard == p.heard && q.rcvdUntil == p.rcvdUntil
    && q.fdUntil == p.fdUntil && q.helloNext == p.helloNext && q.edgeUntil == p.edgeUntil
    && q.txWindow == p.txWindow && q.txCount == p.txCount && q.pending == p.pending && q.msg == p.msg
    && (q.newInfo || !p.newInfo)
  }

  lemma AlikeTwice(p: Port, q: Port, r: Port)
    requires Alike(p, q) && Alike(q, r)
    ensures Alike(p, r)
  {
  }

  lemma TcAlike(p: Port, isSource: bool, rcvd: bool, now: int, helloMs: int)
    ensures Alike(p, TcPort(p, isSource, rcvd, now, helloMs))
  {
  }

  lemma ChangeAlike(b: Bridge, from: int, rcvd: bool, now: int, j: nat)
    requires j < |b.ports|
    ensures var r := TopologyChange(b, from, rcvd, now); SameRoot(b, r) && Alike(b.ports[j], r.ports[j])
    ensures TopologyChange(b, from, rcvd, now).reselect == b.reselect
  {
    TcAlike(b.ports[j], j == from, rcvd, now, b.helloMs);
    assert TopologyChange(b, from, rcvd, now).ports[j] == TcPort(b.ports[j], j == from, rcvd, now, b.helloMs);
  }

  // ----- the first pass -----

  /** A port and the BPDU waiting for it. */
  function Hears(p: Port, id: nat, rootPv: Vector, helloMs: int, now: int): Port {
    if p.bpduGuard then p.(pending := false, bpduTripped := true)
    else if p.msg.kind == TcnBpdu || p.msg.times.msgAge >= p.msg.times.maxAge then Heed(p)
    else Told(Heed(p), Judge(Heed(p), id, rootPv), now, helloMs)
  }

  function Ages(p: Port, now: int): Port {
    p.(info := if p.info == InfoReceived && now >= p.rcvdUntil then InfoAged else p.info)
  }

  function Shut(p: Port): Port {
    p.(enabled := false, info := if p.enabled then InfoDisabled else p.info, state := Forwarding)
  }

  lemma VectorAt(b: Bridge, k: nat, now: int, j: nat)
    requires k < |b.ports| && j < |b.ports|
    ensures var r := RcvVector(b, k, now); var p := b.ports[k];
      SameRoot(b, r) &&
      Alike(if j == k then Told(p, Judge(p, b.id, b.rootPv), now, b.helloMs) else b.ports[j], r.ports[j])
  {
    var p := b.ports[k];
    var v := Judge(p, b.id, b.rootPv);
    var b' := b.(ports := b.ports[k := Told(p, v, now, b.helloMs)],
                 reselect := b.reselect || v == Looped || v == Superior || (v == Repeated && p.pt != p.msg.times));
    if p.msg.tc && v != Looped {
      ChangeAlike(b', k, true, now, j);
    }
  }

  lemma HeardAt(b: Bridge, b': Bridge, k: nat, now: int, j: nat)
    requires k < |b.ports| && j < |b.ports|
    requires b' == b.(ports := b.ports[k := Heed(b.ports[k])], reselect := b'.reselect)
    requires b.reselect ==> b'.reselect
    ensures var r := RcvVector(b', k, now); var h := Heed(b.ports[k]);
      SameRoot(b, r) &&
      Alike(if j == k then Told(h, Judge(h, b.id, b.rootPv), now, b.helloMs) else b.ports[j], r.ports[j])
  {
    VectorAt(b', k, now, j);
  }

  lemma HearsAt(b: Bridge, k: nat, now: int, j: nat)
    requires k < |b.ports| && j < |b.ports|
    ensures var r := Receive(b, k, now);
      SameRoot(b, r) &&
      Alike(if j == k then Hears(b.ports[k], b.id, b.rootPv, b.helloMs, now) else b.ports[j], r.ports[j])
  {
    var p := b.ports[k];
    if !p.bpduGuard {
      var b' := b.(ports := b.ports[k := Heed(p)], reselect := b.reselect || p.operEdge);
      if p.msg.kind == TcnBpdu {
        ChangeAlike(b', k, true, now, j);
      } else if p.msg.times.msgAge < p.msg.times.maxAge {
        HeardAt(b, b', k, now, j);
      }
    }
  }

  lemma AgesAt(b: Bridge, k: nat, now: int, j: nat)
    requires k < |b.ports| && j < |b.ports|
    ensures var r := AgeOut(b, k, now);
      SameRoot(b, r) && r.ports[j] == if j == k then Ages(b.ports[k], now) else b.ports[j]
  {
  }

  lemma AgesAlike(p: Port, q: Port, now: int)
    requires Alike(p, q)
    ensures Alike(Ages(p, now), Ages(q, now))
  {
  }

  lemma LinkAlike(p: Port, q: Port, link: bool, speedCost: nat, now: int)
    requires Alike(p, q)
    ensures Alike(LinkStep(p, link, speedCost, now), LinkStep(q, link, speedCost, now))
  {
  }

  lemma HeedAlike(p: Port, q: Port)
    requires Alike(p, q)
    ensures Alike(Heed(p), Heed(q))
  {
  }

  lemma ToldAlike(p: Port, q: Port, v: Verdict, now: int, helloMs: int)
    requires Alike(p, q)
    ensures Alike(Told(p, v, now, helloMs), Told(q, v, now, helloMs))
  {
  }

  lemma HearsAlike(p: Port, q: Port, id: nat, rootPv: Vector, helloMs: int, now: int)
    requires Alike(p, q)
    ensures Alike(Hears(p, id, rootPv, helloMs, now), Hears(q, id, rootPv, helloMs, now))
  {
    HeedAlike(p, q);
    var g, h := Heed(p), Heed(q);
    assert Judge(g, id, rootPv) == Judge(h, id, rootPv);
    ToldAlike(g, h, Judge(g, id, rootPv), now, helloMs);
  }

  /** What follows once the link has been looked at. */
  function Listens(q: Port, id: nat, rootPv: Vector, helloMs: int, now: int): Port {
    if !q.enabled then q
    else Ages(if q.pending then Hears(q, id, rootPv, helloMs, now) else q, now)
  }

  lemma ListensAlike(p: Port, q: Port, id: nat, rootPv: Vector, helloMs: int, now: int)
    requires Alike(p, q)
    ensures Alike(Listens(p, id, rootPv, helloMs, now), Listens(q, id, rootPv, helloMs, now))
  {
    if p.enabled {
      if p.pending {
        HearsAlike(p, q, id, rootPv, helloMs, now);
        AgesAlike(Hears(p, id, rootPv, helloMs, now), Hears(q, id, rootPv, helloMs, now), now);
      } else {
        AgesAlike(p, q, now);
      }
    }
  }

  lemma ShutAlike(p: Port, q: Port)
    requires Alike(p, q)
    ensures Alike(Shut(p), Shut(q))
  {
  }

  function Enters(p: Port, id: nat, rootPv: Vector, helloMs: int, out: bool, link: bool, speedCost: nat, now: int): Port
  {
    if p.used && out then Shut(p) else Listens(LinkStep(p, link, speedCost, now), id, rootPv, helloMs, now)
  }

  lemma EntersAlike(p: Port, q: Port, id: nat, rootPv: Vector, helloMs: int, out: bool, link: bool, speedCost: nat,
                    now: int)
    requires Alike(p, q)
    ensures Alike(Enters(p, id, rootPv, helloMs, out, link, speedCost, now),
                  Enters(q, id, rootPv, helloMs, out, link, speedCost, now))
  {
    if p.used && out {
      ShutAlike(p, q);
    } else {
      LinkAlike(p, q, link, speedCost, now);
      ListensAlike(LinkStep(p, link, speedCost, now), LinkStep(q, link, speedCost, now), id, rootPv, helloMs, now);
    }
  }

  lemma ListensAt(b: Bridge, k: nat, now: int, j: nat)
    requires k < |b.ports| && j < |b.ports| && b.ports[k].enabled
    ensures var r := AgeOut(if b.ports[k].pending then Receive(b, k, now) else b, k, now);
      SameRoot(b, r) &&
      Alike(if j == k then Listens(b.ports[k], b.id, b.rootPv, b.helloMs, now) else b.ports[j], r.ports[j])
  {
    if b.ports[k].pending {
      HearsAt(b, k, now, j);
      AgesAt(Receive(b, k, now), k, now, j);
      if j == k {
        AgesAlike(Hears(b.ports[k], b.id, b.rootPv, b.helloMs, now), Receive(b, k, now).ports[k], now);
      }
    } else {
      AgesAt(b, k, now, j);
    }
  }

  function EntersAt(b: Bridge, k: nat, e: Env, now: int): Port
    requires k < |b.ports| && EnvFits(e, |b.ports|)
  {
    Enters(b.ports[k], b.id, b.rootPv, b.helloMs, e.excluded[k], e.link[k], e.speedCost[k], now)
  }

  /** A port's turn in the first pass: what it makes of that port, and of any
      other. */
  lemma AdmitAt(b: Bridge, k: nat, e: Env, now: int, j: nat)
    requires k < |b.ports| && j < |b.ports| && EnvFits(e, |b.ports|)
    ensures var r := Admit(b, k, e, now);
      SameRoot(b, r) &&
      Alike(if j == k then EntersAt(b, k, e, now) else b.ports[j], r.ports[j])
  {
    if !(b.ports[k].used && e.excluded[k]) {
      var b1 := Enter(b, k, e.link[k], e.speedCost[k], now);
      assert b1.ports[k] == LinkStep(b.ports[k], e.link[k], e.speedCost[k], now);
      if b1.ports[k].enabled {
        ListensAt(b1, k, now, j);
      }
    }
  }

  lemma EntersAtAlike(b: Bridge, m: Bridge, k: nat, e: Env, now: int)
    requires k < |b.ports| && EnvFits(e, |b.ports|) && SameRoot(b, m) && Alike(b.ports[k], m.ports[k])
    ensures Alike(EntersAt(b, k, e, now), EntersAt(m, k, e, now))
  {
    EntersAlike(b.ports[k], m.ports[k], b.id, b.rootPv, b.helloMs, e.excluded[k], e.link[k], e.speedCost[k], now);
  }

  predicate AlikeAt(b: Bridge, r: Bridge, j: nat) {
    j < |b.ports| && j < |r.ports| && Alike(b.ports[j], r.ports[j])
  }

  predicate OthersAlike(b: Bridge, r: Bridge, k: nat) {
    SameRoot(b, r) && forall j {:trigger AlikeAt(b, r, j)} :: 0 <= j < |b.ports| && j != k ==> AlikeAt(b, r, j)
  }

  predicate OwnAlike(b: Bridge, r: Bridge, k: nat, e: Env, now: int) {
    k < |b.ports| == |r.ports| && EnvFits(e, |b.ports|) && Alike(EntersAt(b, k, e, now), r.ports[k])
  }

  lemma AdmitAlike(b: Bridge, k: nat, e: Env, now: int)
    requires k < |b.ports| && EnvFits(e, |b.ports|)
    ensures OthersAlike(b, Admit(b, k, e, now), k) && OwnAlike(b, Admit(b, k, e, now), k, e, now)
  {
    AdmitAt(b, k, e, now, k);
    forall j | 0 <= j < |b.ports| && j != k ensures AlikeAt(b, Admit(b, k, e, now), j) {
      AdmitAt(b, k, e, now, j);
    }
  }

  /** Port n's turn, from one bridge of the sequence to the next. */
  predicate TurnAlike(bs: seq<Bridge>, n: nat, e: Env, now: int) {
    n + 1 < |bs| && OthersAlike(bs[n], bs[n + 1], n) && OwnAlike(bs[n], bs[n + 1], n, e, now)
  }

  lemma {:induction false} TurnsAlike(b: Bridge, n: nat, e: Env, now: int) returns (bs: seq<Bridge>)
    requires n <= |b.ports| && EnvFits(e, |b.ports|)
    ensures |bs| == n + 1 && bs[0] == b && bs[n] == AdmitAll(b, n, e, now)
    ensures forall i {:trigger TurnAlike(bs, i, e, now)} :: 0 <= i < n ==> TurnAlike(bs, i, e, now)
  {
    if n == 0 {
      bs := [b];
    } else {
      var before := TurnsAlike(b, n - 1, e, now);
      var m := before[n - 1];
      AdmitAlike(m, n - 1, e, now);
      bs := before + [Admit(m, n - 1, e, now)];
      forall i | 0 <= i < n ensures TurnAlike(bs, i, e, now) {
        assert i < n - 1 ==> TurnAlike(before, i, e, now);
      }
    }
  }

  /** Before its turn a port stays as it is... */
  lemma {:induction false} AlikeBefore(bs: seq<Bridge>, n: nat, k: nat, e: Env, now: int)
    requires n < |bs| && n <= k < |bs[0].ports|
    requires forall i {:trigger TurnAlike(bs, i, e, now)} :: 0 <= i < n ==> TurnAlike(bs, i, e, now)
    ensures SameRoot(bs[0], bs[n]) && Alike(bs[0].ports[k], bs[n].ports[k])
  {
    if n > 0 {
      AlikeBefore(bs, n - 1, k, e, now);
      assert TurnAlike(bs, n - 1, e, now);
      assert AlikeAt(bs[n - 1], bs[n], k);
      AlikeTwice(bs[0].ports[k], bs[n - 1].ports[k], bs[n].ports[k]);
    }
  }

  /** ... and after it too. */
  lemma {:induction false} AlikeAfter(bs: seq<Bridge>, n: nat, k: nat, e: Env, now: int)
    requires k < n < |bs| && k < |bs[0].ports| && EnvFits(e, |bs[0].ports|)
    requires forall i {:trigger TurnAlike(bs, i, e, now)} :: 0 <= i < n ==> TurnAlike(bs, i, e, now)
    ensures SameRoot(bs[0], bs[n]) && Alike(EntersAt(bs[0], k, e, now), bs[n].ports[k])
  {
    assert TurnAlike(bs, n - 1, e, now);
    if k == n - 1 {
      AlikeBefore(bs, k, k, e, now);
      EntersAtAlike(bs[0], bs[k], k, e, now);
      AlikeTwice(EntersAt(bs[0], k, e, now), EntersAt(bs[k], k, e, now), bs[n].ports[k]);
    } else {
      AlikeAfter(bs, n - 1, k, e, now);
      assert AlikeAt(bs[n - 1], bs[n], k);
      AlikeTwice(EntersAt(bs[0], k, e, now), bs[n - 1].ports[k], bs[n].ports[k]);
    }
  }

  /** The first pass. */
  lemma AdmitAllAt(b: Bridge, n: nat, e: Env, now: int, k: nat)
    requires n <= |b.ports| && k < |b.ports| && EnvFits(e, |b.ports|)
    ensures var r := AdmitAll(b, n, e, now);
      SameRoot(b, r) && if k < n then Alike(EntersAt(b, k, e, now), r.ports[k]) else Alike(b.ports[k], r.ports[k])
  {
    var bs := TurnsAlike(b, n, e, now);
    if k < n {
      AlikeAfter(bs, n, k, e, now);
    } else {
      AlikeBefore(bs, n, k, e, now);
    }
  }

  // ----- the second pass -----

  function LowerOf(p: Port, out: bool): Port {
    if p.enabled && !Carries(p) then Stop(p)
    else if !p.enabled && p.used && !out then p.(state := Discarding)
    else p
  }

  lemma {:induction false} LowerAllAt(b: Bridge, n: nat, e: Env, k: nat)
    requires n <= |b.ports| && k < |b.ports| && EnvFits(e, |b.ports|)
    ensures var r := LowerAll(b, n, e);
      SameRoot(b, r) && r.reselect == b.reselect &&
      r.ports[k] == if k < n then LowerOf(b.ports[k], e.excluded[k]) else b.ports[k]
  {
    if n > 0 {
      LowerAllAt(b, n - 1, e, k);
    }
  }

  // ----- the third pass -----

  /** The root port has been proposed to: the others must sync. */
  predicate Asks(b: Bridge) {
    0 <= b.rootKey < |b.ports| &&
    var p := b.ports[b.rootKey]; p.enabled && p.role == RoleRoot && p.proposed
  }

  predicate OneRoot(b: Bridge) {
    forall j :: 0 <= j < |b.ports| && b.ports[j].role == RoleRoot ==> j == b.rootKey
  }

  function Swept(p: Port, asks: bool): Port {
    if asks then SyncPort(p) else p
  }

  lemma SweptAlike(p: Port, q: Port, asks: bool)
    requires Alike(p, q)
    ensures Alike(Swept(p, asks), Swept(q, asks))
  {
  }

  lemma StepAlike(p: Port, q: Port, now: int, fwd: int)
    requires Alike(p, q)
    ensures Alike(DesignatedStep(p, now, fwd), DesignatedStep(q, now, fwd))
  {
  }

  /** A port's own turn, if it is designated. */
  function Moves(p: Port, now: int, fwd: int): Port {
    if p.enabled && p.role == RoleDesignated then DesignatedStep(p, now, fwd) else p
  }

  lemma MovesAlike(p: Port, q: Port, now: int, fwd: int)
    requires Alike(p, q)
    ensures Alike(Moves(p, now, fwd), Moves(q, now, fwd))
  {
    StepAlike(p, q, now, fwd);
  }

  function RootedAs(p: Port, agree: bool): Port {
    p.(proposed := false, agree := agree, state := Forwarding)
  }

  /** The root port when its turn is over. */
  predicate Rooted(p: Port, q: Port) {
    Alike(RootedAs(p, q.agree), q) && (p.agree || p.proposed ==> q.agree) && (q.agree && !p.agree ==> q.newInfo)
  }

  lemma SyncedAll(ports: seq<Port>, k: nat)
    ensures AllSynced(SyncAll(ports), k)
  {
  }

  lemma RootStepAt(ports: seq<Port>, k: nat, j: nat)
    requires k < |ports| && j < |ports|
    ensures var r := RootStep(ports, k);
      if j == k then Rooted(ports[k], r[k]) else r[j] == Swept(ports[j], ports[k].proposed)
  {
    SyncedAll(ports, k);
  }

  lemma RootedAlike(p: Port, q: Port, r: Port)
    requires Rooted(p, q) && Alike(q, r)
    ensures Rooted(p, r)
  {
    AlikeTwice(RootedAs(p, q.agree), q, r);
  }

  /** A turn in the third pass: the root port's... */
  lemma RootTurn(b: Bridge, k: nat, now: int, j: nat)
    requires k < |b.ports| && j < |b.ports| && b.ports[k].enabled && b.ports[k].role == RoleRoot
    ensures var r := Raise(b, k, now);
      SameRoot(b, r) && r.reselect == b.reselect &&
      if j == k then Rooted(b.ports[k], r.ports[k]) else Alike(Swept(b.ports[j], b.ports[k].proposed), r.ports[j])
  {
    var b' := b.(ports := RootStep(b.ports, k));
    RootStepAt(b.ports, k, j);
    ChangeAlike(b', k, false, now, j);
    var r := Raise(b, k, now);
    assert r == b' || r == TopologyChange(b', k, false, now);
    if j == k {
      RootedAlike(b.ports[k], b'.ports[k], r.ports[k]);
    }
  }

  /** ... and a designated port's. */
  lemma DesignatedTurn(b: Bridge, k: nat, now: int, j: nat)
    requires k < |b.ports| && j < |b.ports| && b.ports[k].enabled && b.ports[k].role == RoleDesignated
    ensures var r := Raise(b, k, now);
      SameRoot(b, r) && r.reselect == b.reselect &&
      Alike(if j == k then DesignatedStep(b.ports[k], now, b.rootTimes.fwd) else b.ports[j], r.ports[j])
  {
    var b' := b.(ports := b.ports[k := DesignatedStep(b.ports[k], now, b.rootTimes.fwd)]);
    ChangeAlike(b', k, false, now, j);
    var r := Raise(b, k, now);
    assert r == b' || r == TopologyChange(b', k, false, now);
  }

  lemma SweptKeeps(p: Port, asks: bool)
    ensures var q := Swept(p, asks);
      q.enabled == p.enabled && q.role == p.role && q.proposed == p.proposed && q.agree == p.agree
  {
  }

  /** The turn of a port that is no live root port. */
  lemma TurnOf(b: Bridge, k: nat, now: int, j: nat)
    requires k < |b.ports| && j < |b.ports| && !(b.ports[k].enabled && b.ports[k].role == RoleRoot)
    ensures var r := Raise(b, k, now);
      SameRoot(b, r) && r.reselect == b.reselect &&
      Alike(if j == k then Moves(b.ports[k], now, b.rootTimes.fwd) else b.ports[j], r.ports[j])
  {
    if b.ports[k].enabled && b.ports[k].role == RoleDesignated {
      DesignatedTurn(b, k, now, j);
    }
  }

  /** Does port t's turn sync the others? */
  predicate AsksAt(b: Bridge, t: nat) {
    Asks(b) && b.rootKey == t
  }

  /** Another port's turn. */
  lemma OtherTurn(b: Bridge, m: Bridge, t: nat, now: int, j: nat)
    requires t < |b.ports| && j < |b.ports| && j != t && OneRoot(b) && SameRoot(b, m)
    requires m.ports[t].enabled == b.ports[t].enabled && m.ports[t].role == b.ports[t].role
    requires m.ports[t].proposed == b.ports[t].proposed
    ensures var r := Raise(m, t, now);
      SameRoot(m, r) && r.reselect == m.reselect && Alike(Swept(m.ports[j], AsksAt(b, t)), r.ports[j])
  {
    if b.ports[t].enabled && b.ports[t].role == RoleRoot {
      RootTurn(m, t, now, j);
    } else {
      TurnOf(m, t, now, j);
    }
  }

  /** Up to its own turn a port is synced if the root port's came first and
      asked. */
  lemma {:induction false} RaiseBefore(b: Bridge, n: nat, now: int, k: nat)
    requires n <= k < |b.ports| && OneRoot(b)
    ensures var r := RaiseAll(b, n, now);
      SameRoot(b, r) && r.reselect == b.reselect && Alike(Swept(b.ports[k], Asks(b) && b.rootKey < n), r.ports[k])
    decreases n, 0
  {
    if n > 0 {
      var m := RaiseAll(b, n - 1, now);
      RaiseBefore(b, n - 1, now, k);
      Unturned(b, n - 1, now);
      OtherTurn(b, m, n - 1, now, k);
      SweptOnce(b.ports[k], m.ports[k], Raise(m, n - 1, now).ports[k], Asks(b) && b.rootKey < n - 1, AsksAt(b, n - 1));
    }
  }

  /** A port whose turn has not come is as live, and as much root or proposed
      to, as it was. */
  lemma Unturned(b: Bridge, n: nat, now: int)
    requires n < |b.ports| && OneRoot(b)
    ensures var r := RaiseAll(b, n, now);
      && SameRoot(b, r) && r.reselect == b.reselect && r.ports[n].enabled == b.ports[n].enabled
      && r.ports[n].role == b.ports[n].role && r.ports[n].proposed == b.ports[n].proposed
    decreases n, 1
  {
    RaiseBefore(b, n, now, n);
    SweptKeeps(b.ports[n], Asks(b) && b.rootKey < n);
  }

  /** Synced by one turn or another, at most one of which asks. */
  lemma SweptOnce(p: Port, m: Port, r: Port, a: bool, c: bool)
    requires Alike(Swept(p, a), m) && Alike(Swept(m, c), r) && !(a && c)
    ensures Alike(Swept(p, a || c), r)
  {
    SweptAlike(Swept(p, a), m, c);
    AlikeTwice(Swept(Swept(p, a), c), Swept(m, c), r);
  }

  /** And from then on, if it comes later. */
  lemma {:induction false} RaiseAfter(b: Bridge, n: nat, now: int, k: nat)
    requires k < n <= |b.ports| && OneRoot(b)
    ensures var y, r := RaiseAll(b, k + 1, now), RaiseAll(b, n, now);
      SameRoot(b, r) && r.reselect == b.reselect && SameRoot(b, y) &&
      Alike(Swept(y.ports[k], Asks(b) && k < b.rootKey < n), r.ports[k])
  {
    var m := RaiseAll(b, n - 1, now);
    Unturned(b, n - 1, now);
    if n > k + 1 {
      RaiseAfter(b, n - 1, now, k);
      OtherTurn(b, m, n - 1, now, k);
      SweptOnce(RaiseAll(b, k + 1, now).ports[k], m.ports[k], Raise(m, n - 1, now).ports[k],
                Asks(b) && k < b.rootKey < n - 1, AsksAt(b, n - 1));
    } else {
      TurnSame(m, k, now);
      assert !(k < b.rootKey < n);
    }
  }

  lemma TurnSame(b: Bridge, k: nat, now: int)
    requires k < |b.ports|
    ensures SameRoot(b, Raise(b, k, now)) && Raise(b, k, now).reselect == b.reselect
  {
    if b.ports[k].enabled && b.ports[k].role == RoleRoot {
      RootTurn(b, k, now, k);
    } else {
      TurnOf(b, k, now, k);
    }
  }

  /** The third pass: x is the port when its turn comes, y when it is over. */
  lemma RaiseAllAt(b: Bridge, now: int, k: nat) returns (x: Port, y: Port)
    requires k < |b.ports| && OneRoot(b)
    ensures Alike(Swept(b.ports[k], Asks(b) && b.rootKey < k), x)
    ensures if x.enabled && x.role == RoleRoot then Rooted(x, y) else Alike(Moves(x, now, b.rootTimes.fwd), y)
    ensures var r := RaiseAll(b, |b.ports|, now);
      SameRoot(b, r) && r.reselect == b.reselect && Alike(Swept(y, Asks(b) && k < b.rootKey), r.ports[k])
  {
    var m := RaiseAll(b, k, now);
    RaiseBefore(b, k, now, k);
    RaiseAfter(b, |b.ports|, now, k);
    x, y := m.ports[k], RaiseAll(b, k + 1, now).ports[k];
    if x.enabled && x.role == RoleRoot {
      RootTurn(m, k, now, k);
    } else {
      TurnOf(m, k, now, k);
    }
  }

  // ----- a whole run -----

  /** The bridge after the first pass, selection, and the second pass. */
  function Entered(b: Bridge, e: Env, now: int): (r: Bridge)
    requires EnvFits(e, |b.ports|)
    ensures |r.ports| == |b.ports|
  {
    AdmitAll(b, |b.ports|, e, now)
  }

  function Chosen(b: Bridge, e: Env, now: int): (r: Bridge)
    requires EnvFits(e, |b.ports|)
    ensures |r.ports| == |b.ports|
  {
    Settle(Entered(b, e, now))
  }

  function Stopped(b: Bridge, e: Env, now: int): (r: Bridge)
    requires EnvFits(e, |b.ports|)
    ensures |r.ports| == |b.ports|
  {
    LowerAll(Chosen(b, e, now), |b.ports|, e)
  }

  function Started(b: Bridge, e: Env, now: int): (r: Bridge)
    requires EnvFits(e, |b.ports|)
    ensures |r.ports| == |b.ports|
  {
    RaiseAll(Stopped(b, e, now), |b.ports|, now)
  }

  lemma StoppedOneRoot(b: Bridge, e: Env, now: int)
    requires Inv(b) && b.on && EnvFits(e, |b.ports|)
    ensures OneRoot(Stopped(b, e, now))
  {
    forall j | 0 <= j < |b.ports| && Stopped(b, e, now).ports[j].role == RoleRoot
      ensures j == Stopped(b, e, now).rootKey
    {
      assert PortInv(b, j);
      var b1, b2, b3, b4 := RunPasses(b, e, now, j);
      PassesPromise(b, b1, b2, b3, b4, Run(b, e, now), j, e);
    }
  }

  lemma EnteredAt(b: Bridge, e: Env, now: int, k: nat)
    requires k < |b.ports| && EnvFits(e, |b.ports|)
    ensures SameRoot(b, Entered(b, e, now)) && Alike(EntersAt(b, k, e, now), Entered(b, e, now).ports[k])
  {
    AdmitAllAt(b, |b.ports|, e, now, k);
  }

  lemma StoppedAt(b: Bridge, e: Env, now: int, k: nat)
    requires k < |b.ports| && EnvFits(e, |b.ports|)
    ensures var m, r := Chosen(b, e, now), Stopped(b, e, now);
      SameRoot(m, r) && r.ports[k] == LowerOf(m.ports[k], e.excluded[k])
  {
    LowerAllAt(Chosen(b, e, now), |b.ports|, e, k);
  }

  lemma StartedAt(b: Bridge, e: Env, now: int, k: nat) returns (x: Port, y: Port)
    requires Inv(b) && b.on && k < |b.ports| && EnvFits(e, |b.ports|)
    ensures var s, r := Stopped(b, e, now), Started(b, e, now);
      && Alike(Swept(s.ports[k], Asks(s) && s.rootKey < k), x)
      && (if x.enabled && x.role == RoleRoot then Rooted(x, y) else Alike(Moves(x, now, s.rootTimes.fwd), y))
      && SameRoot(s, r) && Alike(Swept(y, Asks(s) && k < s.rootKey), r.ports[k])
  {
    StoppedOneRoot(b, e, now);
    x, y := RaiseAllAt(Stopped(b, e, now), now, k);
  }

  lemma RunEnds(b: Bridge, e: Env, now: int, k: nat)
    requires b.on && k < |b.ports| && EnvFits(e, |b.ports|)
    ensures var s, r := Started(b, e, now), Run(b, e, now);
      SameRoot(s, r) && r.ports[k] == SendPort(s.ports[k], e.tx[k], s.helloMs, now)
  {
  }
}
