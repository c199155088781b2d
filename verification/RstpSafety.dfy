/**
 What every step of one bridge keeps, over any sequence of runs, received
 BPDUs and configuration changes: at most one root port, nothing learning or
 forwarding that is not root or designated, excluded interfaces forwarding, a
 tripped BPDU guard held, and no designated port forwarding into a new tree
 before it has agreed, become an edge or waited twice the forward delay.
 */
module RstpSafety {
  import opened RstpVector
  import opened RstpState

  // ----- the steps, and what holds between them -----

  datatype Event =
    | EvRun(env: Env, now: int)
    | EvRx(k: nat, msg: Bpdu)
    | EvIface(k: nat, switched: bool)
    | EvPort(k: nat, port: PortConfig)
    | EvSet(bridge: BridgeConfig)

  predicate EventFits(n: nat, ev: Event) {
    match ev
    case EvRun(env, _) => EnvFits(env, n)
    case EvRx(k, _) => k < n
    case EvIface(k, _) => k < n
    case EvPort(k, _) => k < n
    case EvSet(_) => true
  }

  function Step(b: Bridge, ev: Event): (r: Bridge)
    requires EventFits(|b.ports|, ev)
    ensures |r.ports| == |b.ports|
  {
    match ev
    case EvRun(env, now) => Run(b, env, now)
    case EvRx(k, msg) => Rx(b, k, msg)
    case EvIface(k, switched) => Iface(b, k, switched)
    case EvPort(k, c) => Configure(b, k, c)
    case EvSet(c) => Set(b, c)
  }

  function Steps(b: Bridge, evs: seq<Event>): (r: Bridge)
    requires forall i :: 0 <= i < |evs| ==> EventFits(|b.ports|, evs[i])
    ensures |r.ports| == |b.ports|
  {
    if evs == [] then b else Step(Steps(b, evs[..|evs| - 1]), evs[|evs| - 1])
  }

  /** One port, between steps: only the root key is root, a live port has a
      role, and what a designated port calls its own names the current root. */
  predicate PortInv(b: Bridge, k: nat)
    requires k < |b.ports|
  {
    var p := b.ports[k];
    && (p.role == RoleRoot ==> k == b.rootKey)
    && (p.enabled && !b.reselect ==> p.role != RoleDisabled)
    && (p.enabled && p.info == InfoMine ==>
          p.pv.root == b.rootPv.root && p.pv.cost == b.rootPv.cost && p.pv.bridge == b.id)
  }

  predicate Inv(b: Bridge) {
    b.ports != [] && -1 <= b.rootKey < |b.ports| && forall k {:trigger PortInv(b, k)} :: 0 <= k < |b.ports| ==>
      PortInv(b, k)
  }

  // ----- what a pass over one port may do to another -----

  /** The same in all that decides what a port does; timers of its BPDUs and of
      topology changes may differ. */
  predicate Same(p: Port, q: Port) {
    && q.used == p.used && q.enabled == p.enabled && q.bpduTripped == p.bpduTripped
    && q.operEdge == p.operEdge && q.id == p.id && q.role == p.role && q.state == p.state
    && q.info == p.info && q.pv == p.pv && q.agreed == p.agreed && q.fdUntil == p.fdUntil
    && q.pending == p.pending && q.msg == p.msg && q.rootGuard == p.rootGuard && q.bpduGuard == p.bpduGuard
  }

  predicate SameAt(b: Bridge, r: Bridge, j: nat) {
    j < |b.ports| && j < |r.ports| && Same(b.ports[j], r.ports[j])
  }

  predicate AllSame(b: Bridge, r: Bridge) {
    SameRoot(b, r) && forall j {:trigger SameAt(b, r, j)} :: 0 <= j < |b.ports| ==> SameAt(b, r, j)
  }

  predicate OthersSame(b: Bridge, r: Bridge, k: nat) {
    SameRoot(b, r) && forall j {:trigger SameAt(b, r, j)} :: 0 <= j < |b.ports| && j != k ==> SameAt(b, r, j)
  }

  /** The bridge-wide part that only selection and configuration change. */
  predicate SameRoot(b: Bridge, r: Bridge) {
    |r.ports| == |b.ports| && r.on == b.on && r.id == b.id && r.rootPv == b.rootPv && r.rootKey == b.rootKey &&
    r.rootTimes == b.rootTimes && (b.reselect ==> r.reselect) &&
    r.helloMs == b.helloMs && r.maxAgeMs == b.maxAgeMs && r.fwdMs == b.fwdMs
  }

  lemma TopologyChangeSame(b: Bridge, from: int, rcvd: bool, now: int)
    ensures AllSame(b, TopologyChange(b, from, rcvd, now))
    ensures TopologyChange(b, from, rcvd, now).reselect == b.reselect
  {
    var r := TopologyChange(b, from, rcvd, now);
    forall j | 0 <= j < |b.ports| ensures SameAt(b, r, j) {
      assert r.ports[j] == TcPort(b.ports[j], j == from, rcvd, now, b.helloMs);
    }
  }

  // ----- receiving -----

  /** What receiving keeps of the receiving port. */
  predicate ReceiveKeeps(p: Port, q: Port) {
    && q.role == p.role && q.enabled == p.enabled && q.used == p.used && q.id == p.id
    && (q.info == InfoMine ==> p.info == InfoMine && q.pv == p.pv)
    && (q.state == p.state || q.state == Discarding)
    && (p.fdUntil == q.fdUntil)
    && (q.operEdge ==> p.operEdge)
    && (p.bpduTripped ==> q.bpduTripped)
  }

  lemma ToldKeeps(p: Port, v: Verdict, now: int, helloMs: int)
    ensures ReceiveKeeps(p, Told(p, v, now, helloMs))
    ensures Told(p, v, now, helloMs).agreed ==> p.agreed || v == Agreement
  {
  }

  /** What receiving does, in the steps of the next two lemmas. */
  predicate Received(b: Bridge, r: Bridge, k: nat)
    requires k < |b.ports|
  {
    && OthersSame(b, r, k) && ReceiveKeeps(b.ports[k], r.ports[k])
    && (r.ports[k].agreed ==> b.ports[k].agreed || Agrees(b.ports[k], b.rootPv))
  }

  lemma ReceivedThenSame(b: Bridge, r: Bridge, s: Bridge, k: nat)
    requires k < |b.ports| && Received(b, r, k) && AllSame(r, s)
    ensures Received(b, s, k)
  {
    assert SameAt(r, s, k);
    forall j | 0 <= j < |b.ports| && j != k ensures SameAt(b, s, j) {
      assert SameAt(b, r, j) && SameAt(r, s, j);
    }
  }

  lemma RcvVectorKeeps(b: Bridge, k: nat, now: int)
    requires k < |b.ports|
    ensures Received(b, RcvVector(b, k, now), k)
  {
    var p := b.ports[k];
    var v := Judge(p, b.id, b.rootPv);
    var q := Told(p, v, now, b.helloMs);
    ToldKeeps(p, v, now, b.helloMs);
    var b' := b.(ports := b.ports[k := q],
                 reselect := b.reselect || v == Looped || v == Superior || (v == Repeated && p.pt != p.msg.times));
    OneChanged(b, k, q, b'.reselect);
    if p.msg.tc && v != Looped {
      TopologyChangeSame(b', k, true, now);
      ReceivedThenSame(b, b', TopologyChange(b', k, true, now), k);
    }
  }

  lemma HeedKeeps(p: Port)
    ensures ReceiveKeeps(p, Heed(p)) && Heed(p).agreed == p.agreed && Heed(p).msg == p.msg && Heed(p).role == p.role
  {
  }

  lemma ReceiveIsKept(b: Bridge, k: nat, now: int)
    requires k < |b.ports|
    ensures Received(b, Receive(b, k, now), k)
  {
    var p := b.ports[k];
    if p.bpduGuard {
      OneChanged(b, k, p.(pending := false, bpduTripped := true), true);
    } else {
      HeedKeeps(p);
      var b' := b.(ports := b.ports[k := Heed(p)], reselect := b.reselect || p.operEdge);
      OneChanged(b, k, Heed(p), b'.reselect);
      if p.msg.kind == TcnBpdu {
        TopologyChangeSame(b', k, true, now);
        ReceivedThenSame(b, b', TopologyChange(b', k, true, now), k);
      } else if p.msg.times.msgAge < p.msg.times.maxAge {
        RcvVectorKeeps(b', k, now);
        ReceivedTwice(b, b', RcvVector(b', k, now), k);
      }
    }
  }

  lemma ReceivedTwice(b: Bridge, r: Bridge, s: Bridge, k: nat)
    requires k < |b.ports| && Received(b, r, k) && Received(r, s, k)
    requires r.ports[k].msg == b.ports[k].msg
    ensures Received(b, s, k)
  {
    OthersSameTwice(b, r, s, k);
  }

  // ----- the first pass -----

  /** What the first pass makes of one port. */
  predicate Admitted(b: Bridge, r: Bridge, k: nat, e: Env)
    requires k < |b.ports| && EnvFits(e, |b.ports|)
  {
    SameRoot(b, r) &&
    var p, q, out := b.ports[k], r.ports[k], b.ports[k].used && e.excluded[k];
    && q.used == p.used && q.id == p.id && q.role == p.role
    && (out ==> !q.enabled && q.state == Forwarding)
    && (!out ==> q.state == p.state || q.state == Discarding)
    && (!out ==> (q.enabled <==> p.used && e.link[k] && !p.bpduTripped)) && (!p.used ==> q.state == p.state)
    && (!out && p.used && e.link[k] && p.bpduTripped ==> q.bpduTripped)
    && (q.enabled != p.enabled ==> r.reselect)
    && (q.enabled && q.info == InfoMine ==> p.enabled && p.info == InfoMine && q.pv == p.pv)
    && (p.enabled && q.enabled ==>
          q.fdUntil == p.fdUntil && (q.operEdge ==> p.operEdge) &&
          (q.agreed ==> p.agreed || (p.pending && Agrees(p, b.rootPv))))
  }

  lemma AdmittedSame(b: Bridge, b': Bridge, r: Bridge, r': Bridge, k: nat, e: Env)
    requires k < |b.ports| && EnvFits(e, |b.ports|)
    requires SameRoot(b, b') && Same(b.ports[k], b'.ports[k])
    requires Admitted(b', r, k, e)
    requires SameRoot(r, r') && Same(r.ports[k], r'.ports[k])
    ensures Admitted(b, r', k, e)
  {
  }

  lemma LinkStepKeeps(p: Port, link: bool, speedCost: nat, now: int)
    ensures var q := LinkStep(p, link, speedCost, now);
      && q.used == p.used && q.id == p.id && q.role == p.role && q.state == p.state && q.msg == p.msg
      && (q.enabled <==> p.used && link && !p.bpduTripped)
      && (p.used && link && p.bpduTripped ==> q.bpduTripped)
      && (q.enabled && q.info == InfoMine ==> p.enabled && p.info == InfoMine && q.pv == p.pv)
      && (q.enabled && p.enabled ==> q.fdUntil == p.fdUntil && q.operEdge == p.operEdge &&
                                     q.agreed == p.agreed && q.pending == p.pending)
  {
  }

  /** Receiving keeps what the link decided. */
  lemma AdmittedThenReceived(b: Bridge, r: Bridge, s: Bridge, k: nat, e: Env)
    requires k < |b.ports| && EnvFits(e, |b.ports|) && !(b.ports[k].used && e.excluded[k])
    requires Admitted(b, r, k, e) && r.ports[k].enabled && Received(r, s, k)
    requires r.ports[k].msg == b.ports[k].msg
    requires b.ports[k].enabled ==> b.ports[k].pending && r.ports[k].agreed == b.ports[k].agreed
    ensures Admitted(b, s, k, e)
  {
  }

  lemma AdmittedThenAged(b: Bridge, r: Bridge, k: nat, e: Env, now: int)
    requires k < |b.ports| && EnvFits(e, |b.ports|) && Admitted(b, r, k, e)
    ensures Admitted(b, AgeOut(r, k, now), k, e)
  {
  }

  lemma EnterAdmits(b: Bridge, k: nat, e: Env, now: int)
    requires k < |b.ports| && EnvFits(e, |b.ports|) && !(b.ports[k].used && e.excluded[k])
    ensures var r := Enter(b, k, e.link[k], e.speedCost[k], now);
      Admitted(b, r, k, e) && r.ports[k].msg == b.ports[k].msg &&
      (b.ports[k].enabled && r.ports[k].enabled ==>
         r.ports[k].pending == b.ports[k].pending && r.ports[k].agreed == b.ports[k].agreed)
  {
    LinkStepKeeps(b.ports[k], e.link[k], e.speedCost[k], now);
  }

  lemma AdmitOwn(b: Bridge, k: nat, e: Env, now: int)
    requires k < |b.ports| && EnvFits(e, |b.ports|)
    ensures Admitted(b, Admit(b, k, e, now), k, e)
  {
    if !(b.ports[k].used && e.excluded[k]) {
      EnterAdmits(b, k, e, now);
      var b' := Enter(b, k, e.link[k], e.speedCost[k], now);
      if b'.ports[k].enabled {
        if b'.ports[k].pending {
          ReceiveIsKept(b', k, now);
          AdmittedThenReceived(b, b', Receive(b', k, now), k, e);
          AdmittedThenAged(b, Receive(b', k, now), k, e, now);
        } else {
          AdmittedThenAged(b, b', k, e, now);
        }
      }
    }
  }

  lemma OneChanged(b: Bridge, k: nat, q: Port, rs: bool)
    requires k < |b.ports| && (b.reselect ==> rs)
    ensures OthersSame(b, b.(ports := b.ports[k := q], reselect := rs), k)
  {
  }

  lemma OthersSameTwice(b: Bridge, r: Bridge, s: Bridge, k: nat)
    requires OthersSame(b, r, k) && OthersSame(r, s, k)
    ensures OthersSame(b, s, k)
  {
    forall j | 0 <= j < |b.ports| && j != k ensures SameAt(b, s, j) {
      assert SameAt(b, r, j) && SameAt(r, s, j);
    }
  }

  lemma AdmitOthers(b: Bridge, k: nat, e: Env, now: int)
    requires k < |b.ports| && EnvFits(e, |b.ports|)
    ensures OthersSame(b, Admit(b, k, e, now), k)
  {
    if b.ports[k].used && e.excluded[k] {
      var r := Exclude(b, k);
      OneChanged(b, k, r.ports[k], r.reselect);
    } else {
      var b1 := Enter(b, k, e.link[k], e.speedCost[k], now);
      OneChanged(b, k, b1.ports[k], b1.reselect);
      if b1.ports[k].enabled {
        var b2 := if b1.ports[k].pending then Receive(b1, k, now) else b1;
        ReceiveIsKept(b1, k, now);
        OthersSameTwice(b, b1, b2, k);
        var b3 := AgeOut(b2, k, now);
        OneChanged(b2, k, b3.ports[k], b3.reselect);
        OthersSameTwice(b, b2, b3, k);
      }
    }
  }

  /** Port n's turn, from one bridge of the sequence to the next. */
  predicate Turn(bs: seq<Bridge>, n: nat, e: Env) {
    n + 1 < |bs| && n < |bs[n].ports| && EnvFits(e, |bs[n].ports|) &&
    OthersSame(bs[n], bs[n + 1], n) && Admitted(bs[n], bs[n + 1], n, e)
  }

  lemma {:induction false} AdmitTurns(b: Bridge, n: nat, e: Env, now: int) returns (bs: seq<Bridge>)
    requires n <= |b.ports| && EnvFits(e, |b.ports|)
    ensures |bs| == n + 1 && bs[0] == b && bs[n] == AdmitAll(b, n, e, now)
    ensures forall i {:trigger Turn(bs, i, e)} :: 0 <= i < n ==> Turn(bs, i, e)
  {
    if n == 0 {
      bs := [b];
    } else {
      var before := AdmitTurns(b, n - 1, e, now);
      var m := before[n - 1];
      AdmitOthers(m, n - 1, e, now);
      AdmitOwn(m, n - 1, e, now);
      bs := before + [Admit(m, n - 1, e, now)];
      forall i | 0 <= i < n ensures Turn(bs, i, e) {
        assert i < n - 1 ==> Turn(before, i, e);
      }
    }
  }

  /** Before its turn and after it, a port only sees timers change. */
  lemma {:induction false} AdmittedInTurn(bs: seq<Bridge>, n: nat, k: nat, e: Env)
    requires n < |bs| && k < |bs[0].ports| && EnvFits(e, |bs[0].ports|)
    requires forall i {:trigger Turn(bs, i, e)} :: 0 <= i < n ==> Turn(bs, i, e)
    ensures SameRoot(bs[0], bs[n])
    ensures if n <= k then Same(bs[0].ports[k], bs[n].ports[k]) else Admitted(bs[0], bs[n], k, e)
  {
    if n > 0 {
      AdmittedInTurn(bs, n - 1, k, e);
      assert Turn(bs, n - 1, e);
      if k == n - 1 {
        AdmittedSame(bs[0], bs[n - 1], bs[n], bs[n], k, e);
      } else {
        assert SameAt(bs[n - 1], bs[n], k);
        if k < n - 1 {
          AdmittedSame(bs[0], bs[0], bs[n - 1], bs[n], k, e);
        }
      }
    }
  }

  lemma AdmitAllPort(b: Bridge, e: Env, now: int, k: nat)
    requires k < |b.ports| && EnvFits(e, |b.ports|)
    ensures Admitted(b, AdmitAll(b, |b.ports|, e, now), k, e)
  {
    var bs := AdmitTurns(b, |b.ports|, e, now);
    AdmittedInTurn(bs, |b.ports|, k, e);
  }

  // ----- selection -----

  /** What selection makes of one port. */
  predicate SelectedPort(b: Bridge, r: Bridge, k: nat)
    requires k < |b.ports| == |r.ports|
  {
    var p, q := b.ports[k], r.ports[k];
    && -1 <= r.rootKey < |r.ports|
    && q.used == p.used && q.enabled == p.enabled && q.bpduTripped == p.bpduTripped && q.operEdge == p.operEdge
    && (q.role == RoleRoot ==> k == r.rootKey)
    && (q.role == RoleDisabled <==> !q.enabled)
    && (q.enabled && q.info == InfoMine ==>
          q.pv.root == r.rootPv.root && q.pv.cost == r.rootPv.cost && q.pv.bridge == r.id)
    && (q.state == p.state || (q.state == Discarding && q.fdUntil == 0))
    && (!q.enabled ==> q.state == p.state)
    && (q.fdUntil == p.fdUntil || q.fdUntil == 0)
    && (q.agreed ==> p.agreed)
    && (q.agreed && q.role == RoleDesignated ==> p.info == InfoMine && p.pv.root == r.rootPv.root)
    && (q.state == Learning && p.role == RoleDesignated && q.role == RoleDesignated ==> q.fdUntil == p.fdUntil)
  }

  lemma AssignRoleKeeps(p: Port, isRoot: bool, dv: Vector, rt: Times)
    ensures var q := AssignRole(p, isRoot, dv, rt);
      && q.used == p.used && q.enabled == p.enabled && q.bpduTripped == p.bpduTripped && q.operEdge == p.operEdge
      && q.role == RoleFor(p, isRoot, dv) && q.state == p.state && (q.agreed ==> p.agreed)
      && q.fdUntil == (if q.role == p.role then p.fdUntil else 0)
      && (q.role == RoleDesignated ==> q.info == InfoMine && q.pv == dv)
      && (q.role == RoleDesignated && (p.info != InfoMine || p.pv != dv) ==> !q.agreed)
      && (q.role != RoleDesignated ==> q.info == p.info)
  {
  }

  lemma SyncPortKeeps(p: Port)
    ensures var q := SyncPort(p);
      && q.used == p.used && q.enabled == p.enabled && q.bpduTripped == p.bpduTripped && q.operEdge == p.operEdge
      && q.id == p.id && q.role == p.role && q.info == p.info && q.pv == p.pv && q.agreed == p.agreed
      && ((q.state == p.state && q.fdUntil == p.fdUntil) || (q.state == Discarding && q.fdUntil == 0))
      && (p.enabled && p.role == RoleDesignated && !p.operEdge && !p.agreed ==> q.state == Discarding && q.fdUntil == 0)
      && (!p.enabled || p.role != RoleDesignated ==> q.state == p.state)
  {
  }

  lemma {:induction false} ChosenIsCandidate(id: nat, ports: seq<Port>, n: nat)
    requires n <= |ports|
    ensures var c := Choose(id, ports, n); c.key >= 0 ==> Candidate(id, ports[c.key])
  {
    if n > 0 {
      ChosenIsCandidate(id, ports, n - 1);
    }
  }

  /** One port through selection, step by step. */
  lemma SelectRolesAt(b: Bridge, k: nat)
    requires k < |b.ports|
    ensures var c := Choose(b.id, b.ports, |b.ports|);
      var a := AssignRole(b.ports[k], k == c.key, DesignatedVector(c.best, b.id, b.ports[k]), TimesFor(b, c.key));
      var moved := c.key != b.rootKey || c.best != b.rootPv;
      var cl := if moved && k == c.key then a.(agree := false) else a;
      SelectRoles(b).ports[k] == if moved then SyncPort(cl) else cl
  {
    var c := Choose(b.id, b.ports, |b.ports|);
    var ports := AssignRoles(b.id, b.ports, c, TimesFor(b, c.key));
    var moved := c.key != b.rootKey || c.best != b.rootPv;
    var cleared := if moved && c.key >= 0 then ports[c.key := ports[c.key].(agree := false)] else ports;
    assert SelectRoles(b).ports == if moved then SyncAll(cleared) else cleared;
  }

  /** A port whose agreement is cleared is otherwise the same. */
  lemma AgreeCleared(p: Port)
    ensures Same(p, p.(agree := false))
  {
  }

  /** A role assigned, and synced or not, is a port selected. */
  lemma AssignedIsSelected(b: Bridge, r: Bridge, k: nat, c: Choice, rt: Times, cl: Port)
    requires k < |b.ports| == |r.ports| && -1 <= c.key < |b.ports| && r.rootKey == c.key && r.rootPv == c.best &&
      r.id == b.id
    requires c.key == k ==> Candidate(b.id, b.ports[k])
    requires Same(AssignRole(b.ports[k], k == c.key, DesignatedVector(c.best, b.id, b.ports[k]), rt), cl)
    requires r.ports[k] == cl || r.ports[k] == SyncPort(cl)
    ensures SelectedPort(b, r, k)
  {
    var dv := DesignatedVector(c.best, b.id, b.ports[k]);
    AssignRoleKeeps(b.ports[k], k == c.key, dv, rt);
    SyncPortKeeps(cl);
  }

  lemma SelectRolesPort(b: Bridge, k: nat)
    requires k < |b.ports|
    ensures SelectedPort(b, SelectRoles(b), k)
  {
    var c := Choose(b.id, b.ports, |b.ports|);
    var rt := TimesFor(b, c.key);
    var a := AssignRole(b.ports[k], k == c.key, DesignatedVector(c.best, b.id, b.ports[k]), rt);
    ChosenIsCandidate(b.id, b.ports, |b.ports|);
    SelectRolesAt(b, k);
    AgreeCleared(a);
    var moved := c.key != b.rootKey || c.best != b.rootPv;
    AssignedIsSelected(b, SelectRoles(b), k, c, rt, if moved && k == c.key then a.(agree := false) else a);
  }

  /**
   When the root or its cost moves, every live designated port that is no edge
   is discarding when selection returns, agreed with nobody, and starts its
   forward delay afresh.
   */
  lemma RootChangeSyncs(b: Bridge, k: nat)
    requires k < |b.ports| && PortInv(b, k)
    ensures var r := SelectRoles(b);
      (r.rootPv.root != b.rootPv.root || r.rootPv.cost != b.rootPv.cost) &&
      r.ports[k].enabled && r.ports[k].role == RoleDesignated && !r.ports[k].operEdge ==>
        r.ports[k].state == Discarding && !r.ports[k].agreed && r.ports[k].fdUntil == 0
  {
    var c := Choose(b.id, b.ports, |b.ports|);
    var dv := DesignatedVector(c.best, b.id, b.ports[k]);
    var a := AssignRole(b.ports[k], k == c.key, dv, TimesFor(b, c.key));
    AssignRoleKeeps(b.ports[k], k == c.key, dv, TimesFor(b, c.key));
    SelectRolesAt(b, k);
    AgreeCleared(a);
    SyncPortKeeps(a);
    SyncPortKeeps(a.(agree := false));
  }

  // ----- the second pass -----

  /** The same port, but for its state, its forward delay and its handshake. */
  predicate Stays(p: Port, q: Port) {
    && q.used == p.used && q.enabled == p.enabled && q.bpduTripped == p.bpduTripped
    && q.id == p.id && q.role == p.role && q.info == p.info && q.pv == p.pv
    && q.agreed == p.agreed && (p.operEdge ==> q.operEdge)
  }

  /** What the second pass makes of one port. */
  predicate Lowered(b: Bridge, r: Bridge, k: nat, e: Env)
    requires k < |b.ports| && EnvFits(e, |b.ports|)
  {
    SameRoot(b, r) && r.reselect == b.reselect &&
    var p, q := b.ports[k], r.ports[k];
    && Stays(p, q) && q.operEdge == p.operEdge && q.fdUntil == p.fdUntil && q.agreed == p.agreed
    && q.state == if (p.enabled && !Carries(p)) || (!p.enabled && p.used && !e.excluded[k])
                  then Discarding else p.state
  }

  lemma StopKeeps(p: Port)
    ensures var q := Stop(p);
      Stays(p, q) && q.operEdge == p.operEdge && q.fdUntil == p.fdUntil && q.agreed == p.agreed && q.state == Discarding
  {
  }

  lemma LowerOwn(b: Bridge, k: nat, e: Env)
    requires k < |b.ports| && EnvFits(e, |b.ports|)
    ensures Lowered(b, Lower(b, k, e), k, e) && OthersSame(b, Lower(b, k, e), k)
  {
    var p := b.ports[k];
    if p.enabled && !Carries(p) {
      LowerStops(b, k, e);
    } else if !p.enabled && p.used && !e.excluded[k] {
      LowerBlocks(b, k, e);
    } else {
      LowerLeaves(b, k, e);
    }
  }

  lemma LowerStops(b: Bridge, k: nat, e: Env)
    requires k < |b.ports| && EnvFits(e, |b.ports|) && b.ports[k].enabled && !Carries(b.ports[k])
    ensures Lowered(b, Lower(b, k, e), k, e) && OthersSame(b, Lower(b, k, e), k)
  {
    StopKeeps(b.ports[k]);
    OneChanged(b, k, Stop(b.ports[k]), b.reselect);
  }

  lemma LowerBlocks(b: Bridge, k: nat, e: Env)
    requires k < |b.ports| && EnvFits(e, |b.ports|)
    requires !b.ports[k].enabled && b.ports[k].used && !e.excluded[k]
    ensures Lowered(b, Lower(b, k, e), k, e) && OthersSame(b, Lower(b, k, e), k)
  {
    OneChanged(b, k, b.ports[k].(state := Discarding), b.reselect);
  }

  lemma LowerLeaves(b: Bridge, k: nat, e: Env)
    requires k < |b.ports| && EnvFits(e, |b.ports|)
    requires b.ports[k].enabled ==> Carries(b.ports[k])
    requires !b.ports[k].enabled && b.ports[k].used ==> e.excluded[k]
    ensures Lowered(b, Lower(b, k, e), k, e) && OthersSame(b, Lower(b, k, e), k)
  {
    assert Lower(b, k, e) == b;
    AllUnchanged(b);
  }

  lemma AllUnchanged(b: Bridge)
    ensures AllSame(b, b)
  {
  }

  predicate LowerTurn(bs: seq<Bridge>, n: nat, e: Env) {
    n + 1 < |bs| && n < |bs[n].ports| && EnvFits(e, |bs[n].ports|) &&
    OthersSame(bs[n], bs[n + 1], n) && Lowered(bs[n], bs[n + 1], n, e)
  }

  lemma {:induction false} LowerTurns(b: Bridge, n: nat, e: Env) returns (bs: seq<Bridge>)
    requires n <= |b.ports| && EnvFits(e, |b.ports|)
    ensures |bs| == n + 1 && bs[0] == b && bs[n] == LowerAll(b, n, e)
    ensures forall i {:trigger LowerTurn(bs, i, e)} :: 0 <= i < n ==> LowerTurn(bs, i, e)
  {
    if n == 0 {
      bs := [b];
    } else {
      var before := LowerTurns(b, n - 1, e);
      var m := before[n - 1];
      LowerOwn(m, n - 1, e);
      bs := before + [Lower(m, n - 1, e)];
      forall i | 0 <= i < n ensures LowerTurn(bs, i, e) {
        assert i < n - 1 ==> LowerTurn(before, i, e);
      }
    }
  }

  lemma {:induction false} LoweredInTurn(bs: seq<Bridge>, n: nat, k: nat, e: Env)
    requires n < |bs| && k < |bs[0].ports| && EnvFits(e, |bs[0].ports|)
    requires forall i {:trigger LowerTurn(bs, i, e)} :: 0 <= i < n ==> LowerTurn(bs, i, e)
    ensures SameRoot(bs[0], bs[n]) && bs[n].reselect == bs[0].reselect
    ensures if n <= k then Same(bs[0].ports[k], bs[n].ports[k]) else Lowered(bs[0], bs[n], k, e)
  {
    if n > 0 {
      LoweredInTurn(bs, n - 1, k, e);
      assert LowerTurn(bs, n - 1, e);
      assert k != n - 1 ==> SameAt(bs[n - 1], bs[n], k);
    }
  }

  lemma LowerAllPort(b: Bridge, e: Env, k: nat)
    requires k < |b.ports| && EnvFits(e, |b.ports|)
    ensures Lowered(b, LowerAll(b, |b.ports|, e), k, e)
  {
    var bs := LowerTurns(b, |b.ports|, e);
    LoweredInTurn(bs, |b.ports|, k, e);
  }

  // ----- the third pass -----

  /** The same, or synced: what another port's turn may do. */
  predicate SyncedAt(b: Bridge, r: Bridge, j: nat) {
    j < |b.ports| && j < |r.ports| && (Same(b.ports[j], r.ports[j]) || Same(SyncPort(b.ports[j]), r.ports[j]))
  }

  /** What a port's own turn in the third pass makes of it. */
  function Becomes(p: Port, now: int, fwd: int): Port {
    if !p.enabled || !Carries(p) then p
    else if p.role == RoleRoot then p.(state := Forwarding)
    else DesignatedStep(p, now, fwd)
  }

  /** What one turn of the third pass makes of the bridge. */
  predicate Raised(b: Bridge, r: Bridge, k: nat, now: int) {
    k < |b.ports| && SameRoot(b, r) && r.reselect == b.reselect &&
    Same(Becomes(b.ports[k], now, b.rootTimes.fwd), r.ports[k]) &&
    forall j {:trigger SyncedAt(b, r, j)} :: 0 <= j < |b.ports| && j != k ==> SyncedAt(b, r, j)
  }

  predicate RaiseTurn(bs: seq<Bridge>, n: nat, now: int) {
    n + 1 < |bs| && Raised(bs[n], bs[n + 1], n, now)
  }

  lemma RootStepSame(ports: seq<Port>, k: nat)
    requires k < |ports|
    ensures Same(ports[k].(state := Forwarding), RootStep(ports, k)[k])
  {
  }

  lemma RaiseRoot(b: Bridge, k: nat, now: int)
    requires k < |b.ports| && b.ports[k].role == RoleRoot && b.ports[k].enabled
    ensures Raised(b, b.(ports := RootStep(b.ports, k)), k, now)
  {
    var r := b.(ports := RootStep(b.ports, k));
    assert Becomes(b.ports[k], now, b.rootTimes.fwd) == b.ports[k].(state := Forwarding);
    RootStepSame(b.ports, k);
    forall j | 0 <= j < |b.ports| && j != k ensures SyncedAt(b, r, j) {
      assert r.ports[j] == b.ports[j] || r.ports[j] == SyncPort(b.ports[j]);
    }
  }

  lemma RaiseDesignated(b: Bridge, k: nat, now: int)
    requires k < |b.ports| && b.ports[k].role == RoleDesignated && b.ports[k].enabled
    ensures Raised(b, b.(ports := b.ports[k := DesignatedStep(b.ports[k], now, b.rootTimes.fwd)]), k, now)
  {
  }

  lemma SameTwice(p: Port, q: Port, r: Port)
    requires Same(p, q) && Same(q, r)
    ensures Same(p, r)
  {
  }

  lemma SyncedThenSame(b: Bridge, r: Bridge, t: Bridge, j: nat)
    requires SyncedAt(b, r, j) && SameAt(r, t, j)
    ensures SyncedAt(b, t, j)
  {
    if Same(b.ports[j], r.ports[j]) {
      SameTwice(b.ports[j], r.ports[j], t.ports[j]);
    } else {
      SameTwice(SyncPort(b.ports[j]), r.ports[j], t.ports[j]);
    }
  }

  lemma RaisedThenSame(b: Bridge, r: Bridge, t: Bridge, k: nat, now: int)
    requires Raised(b, r, k, now) && AllSame(r, t) && t.reselect == r.reselect
    ensures Raised(b, t, k, now)
  {
    assert SameAt(r, t, k);
    SameTwice(Becomes(b.ports[k], now, b.rootTimes.fwd), r.ports[k], t.ports[k]);
    forall j | 0 <= j < |b.ports| && j != k ensures SyncedAt(b, t, j) {
      assert SyncedAt(b, r, j) && SameAt(r, t, j);
      SyncedThenSame(b, r, t, j);
    }
  }

  lemma RaiseOwn(b: Bridge, k: nat, now: int)
    requires k < |b.ports|
    ensures Raised(b, Raise(b, k, now), k, now)
  {
    var p := b.ports[k];
    if p.enabled && Carries(p) {
      var b' := b.(ports := if p.role == RoleRoot then RootStep(b.ports, k)
                            else b.ports[k := DesignatedStep(p, now, b.rootTimes.fwd)]);
      if p.role == RoleRoot {
        RaiseRoot(b, k, now);
      } else {
        RaiseDesignated(b, k, now);
      }
      TopologyChangeSame(b', k, false, now);
      RaisedThenSame(b, b', TopologyChange(b', k, false, now), k, now);
    }
  }

  lemma {:induction false} RaiseTurns(b: Bridge, n: nat, now: int) returns (bs: seq<Bridge>)
    requires n <= |b.ports|
    ensures |bs| == n + 1 && bs[0] == b && bs[n] == RaiseAll(b, n, now)
    ensures forall i {:trigger RaiseTurn(bs, i, now)} :: 0 <= i < n ==> RaiseTurn(bs, i, now)
  {
    if n == 0 {
      bs := [b];
    } else {
      var before := RaiseTurns(b, n - 1, now);
      var m := before[n - 1];
      RaiseOwn(m, n - 1, now);
      bs := before + [Raise(m, n - 1, now)];
      forall i | 0 <= i < n ensures RaiseTurn(bs, i, now) {
        assert i < n - 1 ==> RaiseTurn(before, i, now);
      }
    }
  }

  lemma SyncKeeps(b: Bridge, r: Bridge, j: nat)
    requires SyncedAt(b, r, j)
    ensures Stays(b.ports[j], r.ports[j])
    ensures r.ports[j].state == b.ports[j].state || r.ports[j].state == Discarding
    ensures !b.ports[j].enabled || b.ports[j].role != RoleDesignated ==> r.ports[j].state == b.ports[j].state
  {
    SyncPortKeeps(b.ports[j]);
  }

  lemma DesignatedStepKeeps(p: Port, now: int, fwd: int)
    ensures Stays(p, DesignatedStep(p, now, fwd))
  {
  }

  lemma BecomesKeeps(p: Port, now: int, fwd: int)
    ensures Stays(p, Becomes(p, now, fwd))
    ensures !p.enabled || !Carries(p) ==> Becomes(p, now, fwd).state == p.state
  {
    if p.enabled && p.role == RoleRoot {
      assert Becomes(p, now, fwd) == p.(state := Forwarding);
    } else if p.enabled && p.role == RoleDesignated {
      DesignatedStepKeeps(p, now, fwd);
      assert Becomes(p, now, fwd) == DesignatedStep(p, now, fwd);
    } else {
      assert Becomes(p, now, fwd) == p;
    }
  }

  /** No port changes sides in the third pass; a blocked one stays blocked. */
  lemma {:induction false} RaisedInTurn(bs: seq<Bridge>, n: nat, k: nat, now: int)
    requires n < |bs| && k < |bs[0].ports|
    requires forall i {:trigger RaiseTurn(bs, i, now)} :: 0 <= i < n ==> RaiseTurn(bs, i, now)
    ensures SameRoot(bs[0], bs[n]) && bs[n].reselect == bs[0].reselect
    ensures Stays(bs[0].ports[k], bs[n].ports[k])
    ensures !bs[0].ports[k].enabled || !Carries(bs[0].ports[k]) ==> bs[n].ports[k].state == bs[0].ports[k].state
  {
    if n > 0 {
      RaisedInTurn(bs, n - 1, k, now);
      assert RaiseTurn(bs, n - 1, now);
      if k == n - 1 {
        BecomesKeeps(bs[n - 1].ports[k], now, bs[n - 1].rootTimes.fwd);
      } else {
        assert SyncedAt(bs[n - 1], bs[n], k);
        SyncKeeps(bs[n - 1], bs[n], k);
      }
    }
  }

  lemma RaiseAllPort(b: Bridge, now: int, k: nat)
    requires k < |b.ports|
    ensures var r := RaiseAll(b, |b.ports|, now);
      && SameRoot(b, r) && r.reselect == b.reselect && Stays(b.ports[k], r.ports[k])
      && (!b.ports[k].enabled || !Carries(b.ports[k]) ==> r.ports[k].state == b.ports[k].state)
  {
    var bs := RaiseTurns(b, |b.ports|, now);
    RaisedInTurn(bs, |b.ports|, k, now);
  }

  lemma SendKeeps(p: Port, tx: Tx, helloMs: int, now: int)
    ensures Same(p, SendPort(p, tx, helloMs, now))
  {
  }

  // ----- one run -----

  /** What a run promises of one interface. */
  predicate RunPort(b: Bridge, r: Bridge, k: nat, e: Env)
    requires k < |b.ports| && EnvFits(e, |b.ports|) && |r.ports| == |b.ports|
  {
    var p, q := b.ports[k], r.ports[k];
    && q.used == p.used
    && (p.used && e.excluded[k] ==> q.state == Forwarding)
    && (p.used && !e.excluded[k] && q.state != Discarding ==> q.enabled && Carries(q))
    && (q.role == RoleRoot ==> k == r.rootKey)
    && (p.used && e.link[k] && !e.excluded[k] && p.bpduTripped ==> q.bpduTripped && q.state == Discarding)
  }

  /** Selection, if it is due. */
  predicate Settled(b: Bridge, r: Bridge, k: nat)
    requires k < |b.ports|
  {
    !r.reselect && |r.ports| == |b.ports| && r.on == b.on && r.id == b.id &&
    if b.reselect then SelectedPort(b, r, k) else r == b
  }

  lemma SettlePort(b: Bridge, k: nat)
    requires k < |b.ports|
    ensures Settled(b, Settle(b), k)
  {
    if b.reselect {
      SelectRolesPort(b, k);
    }
  }

  /** The passes of a run, one after another, seen from one port. */
  predicate Passes(b: Bridge, b1: Bridge, b2: Bridge, b3: Bridge, b4: Bridge, r: Bridge, k: nat, e: Env)
    requires k < |b.ports| && EnvFits(e, |b.ports|)
  {
    && Admitted(b, b1, k, e) && Settled(b1, b2, k) && Lowered(b2, b3, k, e)
    && SameRoot(b3, b4) && b4.reselect == b3.reselect && Stays(b3.ports[k], b4.ports[k])
    && (!b3.ports[k].enabled || !Carries(b3.ports[k]) ==> b4.ports[k].state == b3.ports[k].state)
    && SameRoot(b4, r) && r.reselect == b4.reselect && Same(b4.ports[k], r.ports[k])
  }

  lemma RunPasses(b: Bridge, e: Env, now: int, k: nat)
    returns (b1: Bridge, b2: Bridge, b3: Bridge, b4: Bridge)
    requires b.on && k < |b.ports| && EnvFits(e, |b.ports|)
    ensures b1 == AdmitAll(b, |b.ports|, e, now) && b2 == Settle(b1) && |b3.ports| == |b.ports|
    ensures b3 == LowerAll(b2, |b.ports|, e) && b4 == RaiseAll(b3, |b.ports|, now)
    ensures Passes(b, b1, b2, b3, b4, Run(b, e, now), k, e)
  {
    b1 := AdmitAll(b, |b.ports|, e, now);
    AdmitAllPort(b, e, now, k);
    b2 := Settle(b1);
    SettlePort(b1, k);
    b3 := LowerAll(b2, |b.ports|, e);
    LowerAllPort(b2, e, k);
    b4 := RaiseAll(b3, |b.ports|, now);
    RaiseAllPort(b3, now, k);
    SendKeeps(b4.ports[k], e.tx[k], b4.helloMs, now);
  }

  lemma PassesPromise(b: Bridge, b1: Bridge, b2: Bridge, b3: Bridge, b4: Bridge, r: Bridge, k: nat, e: Env)
    requires k < |b.ports| && EnvFits(e, |b.ports|) && PortInv(b, k) && Passes(b, b1, b2, b3, b4, r, k, e)
    ensures RunPort(b, r, k, e) && PortInv(r, k) && !r.reselect
    ensures -1 <= b.rootKey < |b.ports| ==> -1 <= r.rootKey < |r.ports|
  {
    assert b1.ports[k].enabled != b.ports[k].enabled ==> b1.reselect;
  }

  /**
   After a run: an interface MLAG keeps out forwards; any other that learns or
   forwards is live and root or designated; only the root key is root; a port
   whose BPDU guard has tripped discards while its link holds.
   */
  lemma RunPromises(b: Bridge, e: Env, now: int, k: nat)
    requires b.on && k < |b.ports| && EnvFits(e, |b.ports|) && PortInv(b, k)
    ensures RunPort(b, Run(b, e, now), k, e) && PortInv(Run(b, e, now), k) && !Run(b, e, now).reselect
    ensures -1 <= b.rootKey < |b.ports| ==> -1 <= Run(b, e, now).rootKey < |b.ports|
  {
    var b1, b2, b3, b4 := RunPasses(b, e, now, k);
    PassesPromise(b, b1, b2, b3, b4, Run(b, e, now), k, e);
  }

  // ----- every sequence of steps -----

  lemma RunKeepsInv(b: Bridge, e: Env, now: int)
    requires Inv(b) && EnvFits(e, |b.ports|)
    ensures Inv(Run(b, e, now))
  {
    if b.on {
      var r := Run(b, e, now);
      forall k | 0 <= k < |b.ports| ensures PortInv(r, k) {
        assert PortInv(b, k);
        RunPromises(b, e, now, k);
      }
      assert PortInv(b, 0);
      RunPromises(b, e, now, 0);
    }
  }

  lemma StepKeepsInv(b: Bridge, ev: Event)
    requires Inv(b) && EventFits(|b.ports|, ev)
    ensures Inv(Step(b, ev))
  {
    if ev.EvRun? {
      RunKeepsInv(b, ev.env, ev.now);
    } else {
      var r := Step(b, ev);
      forall k | 0 <= k < |b.ports| ensures PortInv(r, k) {
        assert PortInv(b, k);
      }
    }
  }

  /** A bridge just started: nothing switched, spanning tree off. */
  predicate Initial(b: Bridge) {
    b.ports != [] && !b.on && b.rootKey == -1 &&
    forall k :: 0 <= k < |b.ports| ==> !b.ports[k].enabled && b.ports[k].role == RoleDisabled
  }

  lemma InitialInv(b: Bridge)
    requires Initial(b)
    ensures Inv(b)
  {
    forall k | 0 <= k < |b.ports| ensures PortInv(b, k) {
    }
  }

  lemma {:induction false} StepsKeepInv(b: Bridge, evs: seq<Event>)
    requires Inv(b) && forall i :: 0 <= i < |evs| ==> EventFits(|b.ports|, evs[i])
    ensures Inv(Steps(b, evs))
  {
    if evs != [] {
      StepsKeepInv(b, evs[..|evs| - 1]);
      StepKeepsInv(Steps(b, evs[..|evs| - 1]), evs[|evs| - 1]);
    }
  }

  /** From start-up, after any history, every run keeps its promises. */
  lemma EveryRunIsSafe(b: Bridge, evs: seq<Event>, e: Env, now: int)
    requires Initial(b) && (forall i :: 0 <= i < |evs| ==> EventFits(|b.ports|, evs[i])) && EnvFits(e, |b.ports|)
    ensures var s := Steps(b, evs);
      s.on ==> forall k :: 0 <= k < |b.ports| ==> RunPort(s, Run(s, e, now), k, e)
  {
    InitialInv(b);
    StepsKeepInv(b, evs);
    var s := Steps(b, evs);
    forall k | 0 <= k < |b.ports| && s.on ensures RunPort(s, Run(s, e, now), k, e) {
      assert PortInv(s, k);
      RunPromises(s, e, now, k);
    }
  }

  // ----- BPDU guard -----

  /** Nothing in this step lets a tripped guard on port k go: no
      reconfiguration of the port, no lost link, no exclusion. */
  predicate GuardHeld(ev: Event, k: nat) {
    match ev
    case EvRun(env, _) => k < |env.link| && k < |env.excluded| && env.link[k] && !env.excluded[k]
    case EvRx(_, _) => true
    case EvIface(j, switched) => j != k || switched
    case EvPort(j, _) => j != k
    case EvSet(_) => true
  }

  lemma GuardQuietStep(b: Bridge, ev: Event, k: nat)
    requires !ev.EvRun? && EventFits(|b.ports|, ev) && GuardHeld(ev, k) && k < |b.ports|
    ensures b.ports[k].used ==> Step(b, ev).ports[k].used
    ensures Step(b, ev).ports[k].bpduTripped == b.ports[k].bpduTripped
  {
    match ev
    case EvRx(j, msg) =>
    case EvIface(j, switched) =>
    case EvPort(j, c) =>
    case EvSet(c) =>
  }

  lemma GuardStep(b: Bridge, ev: Event, k: nat)
    requires Inv(b) && EventFits(|b.ports|, ev) && GuardHeld(ev, k) && k < |b.ports|
    requires b.ports[k].used && b.ports[k].bpduTripped
    ensures var r := Step(b, ev);
      && r.ports[k].used && r.ports[k].bpduTripped
      && (ev.EvRun? && b.on ==> r.ports[k].state == Discarding)
  {
    if !ev.EvRun? {
      GuardQuietStep(b, ev, k);
    } else if b.on {
      assert PortInv(b, k);
      RunPromises(b, ev.env, ev.now, k);
    }
  }

  /** A tripped port stays tripped, and discards after every run, until its
      link drops or it is configured again. */
  lemma {:induction false} GuardHolds(b: Bridge, evs: seq<Event>, k: nat)
    requires Inv(b) && k < |b.ports| && b.ports[k].used && b.ports[k].bpduTripped
    requires forall i :: 0 <= i < |evs| ==> EventFits(|b.ports|, evs[i]) && GuardHeld(evs[i], k)
    ensures var r := Steps(b, evs);
      && r.ports[k].used && r.ports[k].bpduTripped
      && (evs != [] && evs[|evs| - 1].EvRun? && Steps(b, evs[..|evs| - 1]).on ==> r.ports[k].state == Discarding)
  {
    if evs != [] {
      var before := evs[..|evs| - 1];
      GuardHolds(b, before, k);
      StepsKeepInv(b, before);
      GuardStep(Steps(b, before), evs[|evs| - 1], k);
    }
  }

  // ----- the forward delay -----

  /** Designated, live and no edge. */
  predicate Plain(p: Port) {
    p.used && p.enabled && p.role == RoleDesignated && !p.operEdge
  }

  /** Since t0 it has not forwarded, and cannot before two waits of f are over. */
  predicate Waiting(p: Port, t0: int, f: int) {
    && p.state != Forwarding
    && (p.state == Discarding ==> p.fdUntil == 0 || p.fdUntil >= t0 + f)
    && (p.state == Learning ==> p.fdUntil >= t0 + 2 * f)
  }

  lemma WaitingSync(p: Port, t0: int, f: int)
    requires Waiting(p, t0, f)
    ensures Waiting(SyncPort(p), t0, f)
  {
  }

  lemma WaitingDesignated(p: Port, t0: int, f: int, now: int, fwd: int)
    requires Waiting(p, t0, f) && 0 < t0 <= now && 0 <= f <= fwd && now < t0 + 2 * f
    requires p.enabled && p.role == RoleDesignated
    ensures var q := DesignatedStep(p, now, fwd); Waiting(q, t0, f) || q.operEdge || q.agreed
  {
  }

  lemma WaitingBecomes(p: Port, t0: int, f: int, now: int, fwd: int)
    requires Waiting(p, t0, f) && 0 < t0 <= now && 0 <= f <= fwd && now < t0 + 2 * f
    requires p.enabled && p.role == RoleDesignated
    ensures var q := Becomes(p, now, fwd); Waiting(q, t0, f) || q.operEdge || q.agreed
  {
    WaitingDesignated(p, t0, f, now, fwd);
    assert Becomes(p, now, fwd) == DesignatedStep(p, now, fwd);
  }

  /** One turn of the third pass keeps a port's sides... */
  lemma TurnStays(bs: seq<Bridge>, n: nat, k: nat, now: int)
    requires RaiseTurn(bs, n, now) && k < |bs[n].ports|
    ensures k < |bs[n + 1].ports| && Stays(bs[n].ports[k], bs[n + 1].ports[k])
  {
    if k == n {
      BecomesKeeps(bs[n].ports[k], now, bs[n].rootTimes.fwd);
    } else {
      assert SyncedAt(bs[n], bs[n + 1], k);
      SyncKeeps(bs[n], bs[n + 1], k);
    }
  }

  /** Waiting, or excused. */
  predicate Waits(p: Port, t0: int, f: int) {
    Waiting(p, t0, f) || p.operEdge || p.agreed
  }

  lemma SameWaits(m: Port, q: Port, t0: int, f: int)
    requires Waits(m, t0, f) && Same(m, q)
    ensures Waits(q, t0, f)
  {
  }

  lemma WaitingOwn(p: Port, q: Port, t0: int, f: int, now: int, fwd: int)
    requires Waiting(p, t0, f) && 0 < t0 <= now && 0 <= f <= fwd && now < t0 + 2 * f
    requires p.enabled && p.role == RoleDesignated && Same(Becomes(p, now, fwd), q)
    ensures Waits(q, t0, f)
  {
    WaitingBecomes(p, t0, f, now, fwd);
    SameWaits(Becomes(p, now, fwd), q, t0, f);
  }

  lemma WaitingOther(p: Port, q: Port, t0: int, f: int)
    requires Waiting(p, t0, f) && (Same(p, q) || Same(SyncPort(p), q))
    ensures Waits(q, t0, f)
  {
    WaitingSync(p, t0, f);
    if Same(p, q) {
      SameWaits(p, q, t0, f);
    } else {
      SameWaits(SyncPort(p), q, t0, f);
    }
  }

  /** ... and keeps it waiting. */
  lemma WaitingTurn(bs: seq<Bridge>, n: nat, k: nat, now: int, t0: int, f: int)
    requires RaiseTurn(bs, n, now) && k < |bs[n].ports| && k < |bs[n + 1].ports|
    requires Waiting(bs[n].ports[k], t0, f) && bs[n].ports[k].enabled && bs[n].ports[k].role == RoleDesignated
    requires 0 < t0 <= now < t0 + 2 * f && f <= bs[n].rootTimes.fwd
    ensures var q := bs[n + 1].ports[k]; Waiting(q, t0, f) || q.operEdge || q.agreed
  {
    if k == n {
      WaitingOwn(bs[n].ports[k], bs[n + 1].ports[k], t0, f, now, bs[n].rootTimes.fwd);
    } else {
      assert SyncedAt(bs[n], bs[n + 1], k);
      WaitingOther(bs[n].ports[k], bs[n + 1].ports[k], t0, f);
    }
  }

  /** Through the third pass. */
  lemma {:induction false} WaitingInTurn(bs: seq<Bridge>, n: nat, k: nat, now: int, t0: int, f: int)
    requires n < |bs| && k < |bs[0].ports|
    requires forall i {:trigger RaiseTurn(bs, i, now)} :: 0 <= i < n ==> RaiseTurn(bs, i, now)
    requires Waiting(bs[0].ports[k], t0, f) && bs[0].ports[k].enabled && bs[0].ports[k].role == RoleDesignated
    requires 0 < t0 <= now < t0 + 2 * f && f <= bs[0].rootTimes.fwd
    ensures SameRoot(bs[0], bs[n]) && Stays(bs[0].ports[k], bs[n].ports[k])
    ensures var q := bs[n].ports[k]; Waiting(q, t0, f) || q.operEdge || bs[0].ports[k].agreed
  {
    RaisedInTurn(bs, n, k, now);
    if n > 0 {
      WaitingInTurn(bs, n - 1, k, now, t0, f);
      assert RaiseTurn(bs, n - 1, now);
      TurnStays(bs, n - 1, k, now);
      if Waiting(bs[n - 1].ports[k], t0, f) {
        WaitingTurn(bs, n - 1, k, now, t0, f);
      }
    }
  }

  /** Through a whole run: still waiting, or no longer plain, or agreed with. */
  lemma WaitingRun(b: Bridge, e: Env, now: int, k: nat, t0: int, f: int)
    requires b.on && k < |b.ports| && EnvFits(e, |b.ports|)
    requires Plain(b.ports[k]) && !b.ports[k].agreed && Waiting(b.ports[k], t0, f)
    requires 0 < t0 <= now < t0 + 2 * f && f <= Run(b, e, now).rootTimes.fwd
    ensures var q := Run(b, e, now).ports[k];
      && (Plain(q) && !q.agreed ==> Waiting(q, t0, f))
      && (Plain(q) && q.agreed ==> b.ports[k].pending && Agrees(b.ports[k], b.rootPv))
  {
    var b1, b2, b3, b4 := RunPasses(b, e, now, k);
    var bs := RaiseTurns(b3, |b.ports|, now);
    var q := Run(b, e, now).ports[k];
    if Plain(q) && b3.ports[k].enabled && b3.ports[k].role == RoleDesignated {
      assert Waiting(b3.ports[k], t0, f);
      WaitingInTurn(bs, |b.ports|, k, now, t0, f);
    }
  }

  lemma WaitingQuietStep(b: Bridge, ev: Event, k: nat, t0: int, f: int)
    requires !ev.EvRun? && EventFits(|b.ports|, ev) && k < |b.ports|
    requires Plain(b.ports[k]) && Waiting(b.ports[k], t0, f)
    ensures Plain(Step(b, ev).ports[k]) ==> Waiting(Step(b, ev).ports[k], t0, f)
  {
    match ev
    case EvRx(j, msg) =>
    case EvIface(j, switched) =>
    case EvPort(j, c) =>
    case EvSet(c) =>
  }

  /** Port k stays plain and agreed with nobody, all through. */
  ghost predicate PlainThroughout(b: Bridge, evs: seq<Event>, k: nat)
    requires k < |b.ports| && forall i :: 0 <= i < |evs| ==> EventFits(|b.ports|, evs[i])
  {
    forall i :: 0 <= i <= |evs| ==> Plain(Steps(b, evs[..i]).ports[k]) && !Steps(b, evs[..i]).ports[k].agreed
  }

  /** Every run comes before t0 + 2f, with a forward delay of at least f. */
  ghost predicate RunsBefore(b: Bridge, evs: seq<Event>, t0: int, f: int)
    requires forall i :: 0 <= i < |evs| ==> EventFits(|b.ports|, evs[i])
  {
    forall i :: 0 <= i < |evs| && evs[i].EvRun? ==>
      t0 <= evs[i].now < t0 + 2 * f && f <= Steps(b, evs[..i + 1]).rootTimes.fwd
  }

  /**
   A designated port that waits since t0 -- as `RunSyncs` leaves it -- does not
   forward, whatever is received or configured, while it stays designated and no
   edge, is agreed with by nobody, and two forward delays have not passed.
   */
  lemma {:induction false} ForwardDelay(b: Bridge, evs: seq<Event>, k: nat, t0: int, f: int)
    requires k < |b.ports| && 0 < t0 && 0 <= f && Waiting(b.ports[k], t0, f)
    requires forall i :: 0 <= i < |evs| ==> EventFits(|b.ports|, evs[i])
    requires PlainThroughout(b, evs, k) && RunsBefore(b, evs, t0, f)
    ensures Waiting(Steps(b, evs).ports[k], t0, f)
  {
    if evs != [] {
      var n := |evs| - 1;
      var before := evs[..n];
      forall i | 0 <= i <= n ensures before[..i] == evs[..i] {
      }
      ForwardDelay(b, before, k, t0, f);
      var s := Steps(b, before);
      assert evs[..n + 1] == evs;
      assert Plain(s.ports[k]) && !s.ports[k].agreed;
      assert Plain(Steps(b, evs[..n + 1]).ports[k]);
      if !evs[n].EvRun? {
        WaitingQuietStep(s, evs[n], k, t0, f);
      } else if s.on {
        WaitingRun(s, evs[n].env, evs[n].now, k, t0, f);
      }
    }
  }

  /** And the agreement that ends the wait names the root in force when the run
      is over: selection takes back one that does not. */
  lemma AgreementNamesRoot(b: Bridge, e: Env, now: int, k: nat)
    requires b.on && k < |b.ports| && EnvFits(e, |b.ports|) && PortInv(b, k)
    requires b.ports[k].enabled && !b.ports[k].agreed
    ensures var r := Run(b, e, now);
      var q := r.ports[k];
      q.enabled && q.role == RoleDesignated && q.agreed ==>
        b.ports[k].pending && Agrees(b.ports[k], b.rootPv) && b.ports[k].msg.vector.root == r.rootPv.root
  {
    var b1, b2, b3, b4 := RunPasses(b, e, now, k);
    PassesName(b, b1, b2, b3, b4, Run(b, e, now), k, e);
  }

  lemma PassesName(b: Bridge, b1: Bridge, b2: Bridge, b3: Bridge, b4: Bridge, r: Bridge, k: nat, e: Env)
    requires k < |b.ports| && EnvFits(e, |b.ports|) && PortInv(b, k) && Passes(b, b1, b2, b3, b4, r, k, e)
    requires b.ports[k].enabled && !b.ports[k].agreed
    ensures r.ports[k].enabled && r.ports[k].role == RoleDesignated && r.ports[k].agreed ==>
      b.ports[k].pending && Agrees(b.ports[k], b.rootPv) && b.ports[k].msg.vector.root == r.rootPv.root
  {
  }

  // ----- a change of root, and after -----

  /** The first pass keeps what selection starts from. */
  lemma AdmittedInv(b: Bridge, b1: Bridge, k: nat, e: Env)
    requires k < |b.ports| && EnvFits(e, |b.ports|) && PortInv(b, k) && Admitted(b, b1, k, e)
    ensures k < |b1.ports| && PortInv(b1, k)
  {
  }

  /** A port as selection leaves it starts waiting now, if it is plain when the
      run ends. */
  lemma SyncedWaits(b2: Bridge, b3: Bridge, b4: Bridge, k: nat, e: Env, now: int)
    requires k < |b2.ports| == |b3.ports| && EnvFits(e, |b2.ports|) && Lowered(b2, b3, k, e)
    requires b4 == RaiseAll(b3, |b3.ports|, now)
    requires var p := b2.ports[k];
      p.enabled && p.role == RoleDesignated && p.state == Discarding && !p.agreed && p.fdUntil == 0
    requires 0 < now && 0 < b3.rootTimes.fwd
    ensures k < |b4.ports| && (Waiting(b4.ports[k], now, b3.rootTimes.fwd) || b4.ports[k].operEdge)
  {
    var bs := RaiseTurns(b3, |b3.ports|, now);
    WaitingInTurn(bs, |b3.ports|, k, now, now, b3.rootTimes.fwd);
  }

  /** A run that changes the root or its cost leaves every plain port agreed
      with nobody, and waiting from then. */
  lemma RunSyncs(b: Bridge, e: Env, now: int, k: nat)
    requires b.on && k < |b.ports| && EnvFits(e, |b.ports|) && PortInv(b, k) && 0 < now
    requires var r := Run(b, e, now);
      && (r.rootPv.root != b.rootPv.root || r.rootPv.cost != b.rootPv.cost)
      && 0 < r.rootTimes.fwd && Plain(r.ports[k])
    ensures var r := Run(b, e, now); !r.ports[k].agreed && Waiting(r.ports[k], now, r.rootTimes.fwd)
  {
    var b1, b2, b3, b4 := RunPasses(b, e, now, k);
    AdmittedInv(b, b1, k, e);
    RootChangeSyncs(b1, k);
    SyncedWaits(b2, b3, b4, k, e, now);
  }

  /** Step i of this history is a run that port k has an agreement waiting for,
      naming the root in force when the run is over. */
  ghost predicate AgreedAt(b: Bridge, evs: seq<Event>, k: nat, i: nat)
    requires k < |b.ports| && i < |evs| && forall j :: 0 <= j < |evs| ==> EventFits(|b.ports|, evs[j])
  {
    var s := Steps(b, evs[..i]);
    && evs[i].EvRun? && s.ports[k].pending && Agrees(s.ports[k], s.rootPv)
    && s.ports[k].msg.vector.root == Steps(b, evs[..i + 1]).rootPv.root
  }

  lemma QuietAgrees(b: Bridge, ev: Event, k: nat)
    requires !ev.EvRun? && EventFits(|b.ports|, ev) && k < |b.ports|
    ensures Step(b, ev).ports[k].agreed ==> b.ports[k].agreed
  {
    match ev
    case EvRx(j, msg) =>
    case EvIface(j, switched) =>
    case EvPort(j, c) =>
    case EvSet(c) =>
  }

  ghost predicate StaysPlain(b: Bridge, evs: seq<Event>, k: nat)
    requires k < |b.ports| && forall i :: 0 <= i < |evs| ==> EventFits(|b.ports|, evs[i])
  {
    forall i :: 0 <= i <= |evs| ==> Plain(Steps(b, evs[..i]).ports[k])
  }

  /** The last of these steps does not bring an agreement, unless sent. */
  lemma StepAgrees(s: Bridge, ev: Event, k: nat)
    requires Inv(s) && EventFits(|s.ports|, ev) && k < |s.ports|
    requires Plain(s.ports[k]) && !s.ports[k].agreed && Plain(Step(s, ev).ports[k]) && Step(s, ev).ports[k].agreed
    ensures ev.EvRun? && s.ports[k].pending && Agrees(s.ports[k], s.rootPv)
    ensures s.ports[k].msg.vector.root == Step(s, ev).rootPv.root
  {
    if !ev.EvRun? {
      QuietAgrees(s, ev, k);
    } else {
      assert PortInv(s, k);
      AgreementNamesRoot(s, ev.env, ev.now, k);
    }
  }

  /** A plain port agreed with nobody stays so until it is sent an agreement. */
  lemma {:induction false} AgreedOrNot(b: Bridge, evs: seq<Event>, k: nat)
    requires Inv(b) && k < |b.ports| && !b.ports[k].agreed
    requires forall i :: 0 <= i < |evs| ==> EventFits(|b.ports|, evs[i])
    requires StaysPlain(b, evs, k)
    ensures PlainThroughout(b, evs, k) || exists i: nat :: i < |evs| && AgreedAt(b, evs, k, i)
  {
    if evs != [] {
      var n := |evs| - 1;
      var before := evs[..n];
      forall i | 0 <= i <= n ensures before[..i] == evs[..i] {
      }
      AgreedOrNot(b, before, k);
      if PlainThroughout(b, before, k) {
        assert evs[..n + 1] == evs;
        StepsKeepInv(b, before);
        var s := Steps(b, before);
        assert before[..n] == before;
        assert Plain(s.ports[k]) && !s.ports[k].agreed;
        if Steps(b, evs).ports[k].agreed {
          StepAgrees(s, evs[n], k);
          assert AgreedAt(b, evs, k, n);
        }
      } else {
        var i: nat :| i < n && AgreedAt(b, before, k, i);
        assert AgreedAt(b, evs, k, i);
      }
    }
  }

  /**
   After a run that changes the root or its cost, a port that stays designated
   and no edge does not forward before two forward delays have passed, whatever
   is received or configured, unless it was sent an agreement naming the root.
   */
  lemma RootChangeHolds(b: Bridge, e: Env, t0: int, evs: seq<Event>, k: nat, f: int)
    requires Inv(b) && b.on && k < |b.ports| && EnvFits(e, |b.ports|) && 0 < t0
    requires forall i :: 0 <= i < |evs| ==> EventFits(|b.ports|, evs[i])
    requires var r := Run(b, e, t0);
      && (r.rootPv.root != b.rootPv.root || r.rootPv.cost != b.rootPv.cost)
      && 0 < f <= r.rootTimes.fwd && StaysPlain(r, evs, k) && RunsBefore(r, evs, t0, f)
    ensures var r := Run(b, e, t0);
      Steps(r, evs).ports[k].state != Forwarding || exists i: nat :: i < |evs| && AgreedAt(r, evs, k, i)
  {
    var r := Run(b, e, t0);
    assert PortInv(b, k) && evs[..0] == [] && Plain(Steps(r, evs[..0]).ports[k]);
    RunSyncs(b, e, t0, k);
    RunKeepsInv(b, e, t0);
    AgreedOrNot(r, evs, k);
    if PlainThroughout(r, evs, k) {
      ForwardDelay(r, evs, k, t0, f);
    }
  }

  // ----- what a request means for the runs that follow -----

  /** After a run an interface is live exactly when it is switched, has link,
      is not kept out by MLAG and its BPDU guard had not tripped. */
  lemma LiveExactly(b: Bridge, e: Env, now: int, k: nat)
    requires b.on && k < |b.ports| && EnvFits(e, |b.ports|)
    ensures Run(b, e, now).ports[k].enabled <==>
            b.ports[k].used && e.link[k] && !e.excluded[k] && !b.ports[k].bpduTripped
  {
    var b1, b2, b3, b4 := RunPasses(b, e, now, k);
  }

  /** So configuring a port lets its guard go: it is live again with the next
      run, if it has link and is switched. */
  lemma ConfigureReleases(b: Bridge, c: PortConfig, e: Env, now: int, k: nat)
    requires b.on && k < |b.ports| && EnvFits(e, |b.ports|)
    ensures Run(Configure(b, k, c), e, now).ports[k].enabled <==>
            b.ports[k].used && e.link[k] && !e.excluded[k]
  {
    LiveExactly(Configure(b, k, c), e, now, k);
  }

  /** Not of the tree: not switched, and forwarding. */
  predicate OutOfTree(p: Port) {
    !p.used && p.state == Forwarding
  }

  lemma RunLeavesOut(b: Bridge, e: Env, now: int, k: nat)
    requires k < |b.ports| && EnvFits(e, |b.ports|) && OutOfTree(b.ports[k])
    ensures OutOfTree(Run(b, e, now).ports[k]) && (b.on ==> !Run(b, e, now).ports[k].enabled)
  {
    if b.on {
      var b1, b2, b3, b4 := RunPasses(b, e, now, k);
    }
  }

  /** An interface that leaves the tree forwards from then on, and no run counts
      it live, whatever else is received or configured, until it joins again. */
  lemma {:induction false} LeftForwards(b: Bridge, evs: seq<Event>, k: nat)
    requires k < |b.ports| && forall i :: 0 <= i < |evs| ==>
      EventFits(|b.ports|, evs[i]) && !(evs[i].EvIface? && evs[i].k == k)
    ensures OutOfTree(Steps(Iface(b, k, false), evs).ports[k])
    ensures evs != [] && evs[|evs| - 1].EvRun? && Steps(Iface(b, k, false), evs[..|evs| - 1]).on ==>
      !Steps(Iface(b, k, false), evs).ports[k].enabled
  {
    if evs != [] {
      var n := |evs| - 1;
      LeftForwards(b, evs[..n], k);
      var s := Steps(Iface(b, k, false), evs[..n]);
      match evs[n]
      case EvRun(e, now) => RunLeavesOut(s, e, now, k);
      case EvRx(j, m) =>
      case EvIface(j, switched) =>
      case EvPort(j, c) =>
      case EvSet(c) =>
    }
  }

  /** A waiting BPDU is all that is new about a port. */
  predicate OnlyWaits(p: Port, q: Port) {
    q == p.(pending := q.pending, msg := q.msg)
  }

  lemma HeldTwice(p: Port, m: Bpdu, m': Bpdu)
    requires m'.kind != TcnBpdu
    ensures Held(Held(p, m), m') == Held(p, m') && OnlyWaits(p, Held(p, m'))
  {
  }

  lemma PutTwice(ports: seq<Port>, k: nat, q: Port, r: Port)
    requires k < |ports|
    ensures ports[k := q][k := r] == ports[k := r]
  {
  }

  /** Only the last BPDU before a run counts: one that carries a vector replaces
      whatever was waiting, and nothing else changes until the run. */
  lemma LastBpduCounts(b: Bridge, k: nat, m: Bpdu, m': Bpdu)
    requires k < |b.ports| && m'.kind != TcnBpdu
    ensures Rx(Rx(b, k, m), k, m') == Rx(b, k, m')
    ensures forall j :: 0 <= j < |b.ports| ==> OnlyWaits(b.ports[j], Rx(b, k, m').ports[j])
  {
    var p := b.ports[k];
    HeldTwice(p, m, m');
    PutTwice(b.ports, k, Held(p, m), Held(p, m'));
  }
}
