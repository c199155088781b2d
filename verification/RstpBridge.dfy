/**
 The bridge as rstp.c keeps it: a table of ports and a few bridge-wide
 variables, changed in place. Every method is proved to do to the whole state
 exactly what its namesake in `RstpState` does to a value, so what
 `RstpSafety` and `RstpNetwork` prove of those functions holds of this class.
 */
module RstpBridge {
  import opened Wrappers
  import opened RstpVector
  import opened RstpState
  import RstpSafety
  import RstpHandshake

  class SpanningTree {
    const ports: array<Port>
    var on: bool
    var id: nat
    var rootPv: Vector
    var rootKey: int
    var rootTimes: Times
    var reselect: bool
    var helloMs: int
    var maxAgeMs: int
    var fwdMs: int
    var tcCount: nat

    ghost function View(): Bridge
      reads this, ports
    {
      Bridge(on, id, ports[..], rootPv, rootKey, rootTimes, reselect, helloMs, maxAgeMs, fwdMs, tcCount)
    }

    /** What holds between one step and the next. */
    ghost predicate Valid()
      reads this, ports
    {
      RstpSafety.Inv(View())
    }

    /** At start-up: off, with these ports and the default times. */
    constructor (table: seq<Port>, bridgeId: nat)
      requires table != []
      requires forall k :: 0 <= k < |table| ==> !table[k].enabled && table[k].role == RoleDisabled
      ensures fresh(ports) && Valid() && RstpSafety.Initial(View())
      ensures View() == Bridge(false, bridgeId, table, Vector(0, 0, 0, 0), -1, Times(0, 0, 0, 0), false,
                               2000, 20000, 15000, 0)
    {
      ports := new Port[|table|](i requires 0 <= i < |table| => table[i]);
      on, id, reselect := false, bridgeId, false;
      rootPv, rootKey, rootTimes := Vector(0, 0, 0, 0), -1, Times(0, 0, 0, 0);
      helloMs, maxAgeMs, fwdMs, tcCount := 2000, 20000, 15000, 0;
      new;
      assert ports[..] == table;
      RstpSafety.InitialInv(View());
    }

    /** One port replaced in the table. */
    lemma Replaced(before: seq<Port>, k: nat, p: Port)
      requires k < ports.Length == |before| && ports[k] == p
      requires forall j :: 0 <= j < ports.Length && j != k ==> ports[j] == before[j]
      ensures ports[..] == before[k := p]
    {
    }

    method SyncTree()
      modifies ports
      ensures ports[..] == SyncAll(old(ports[..]))
    {
      for k := 0 to ports.Length
        invariant forall j :: 0 <= j < ports.Length ==>
          ports[j] == if j < k then SyncPort(old(ports[j])) else old(ports[j])
      {
        var p := ports[k];
        if p.enabled && p.role == RoleDesignated && !p.operEdge && !p.agreed {
          ports[k] := p.(state := Discarding, fdUntil := 0);
        }
      }
    }

    method Synced(except: int) returns (r: bool)
      ensures r <==> AllSynced(ports[..], except)
    {
      for k := 0 to ports.Length
        invariant forall j :: 0 <= j < k && j != except ==> RstpState.Synced(ports[j])
      {
        var p := ports[k];
        if k != except && p.enabled && p.role == RoleDesignated && !p.operEdge && !p.agreed && p.state != Discarding {
          return false;
        }
      }
      return true;
    }

    /** The best root vector on offer, and the port that offers it. */
    method FindRoot() returns (best: Vector, bestKey: int)
      ensures Choice(best, bestKey) == Choose(id, ports[..], ports.Length)
    {
      best, bestKey := Vector(id, 0, id, 0), -1;
      for k := 0 to ports.Length
        invariant Choice(best, bestKey) == Choose(id, ports[..], k)
      {
        var p := ports[k];
        if p.enabled && p.info == InfoReceived && p.pv.bridge != id && !p.rootGuard {
          var cand := p.pv.(cost := (p.pv.cost + p.cost) % COST_RANGE);
          if Less(cand, best) || (cand == best && bestKey >= 0 && p.id < ports[bestKey].id) {
            best, bestKey := cand, k;
          }
        }
      }
    }

    /** The times of whoever is followed, one second older; or its own. */
    method FollowTimes(key: int)
      requires -1 <= key < ports.Length
      modifies this`rootTimes
      ensures rootTimes == TimesFor(old(View()), key)
    {
      if key < 0 {
        rootTimes := Times(0, maxAgeMs, helloMs, fwdMs);
      } else {
        rootTimes := ports[key].pt.(msgAge := ports[key].pt.msgAge + 1000);
      }
    }

    method SelectRoles()
      modifies this, ports
      ensures View() == RstpState.SelectRoles(old(View()))
    {
      var oldRoot, oldKey := rootPv, rootKey;
      var best, bestKey := FindRoot();
      FollowTimes(bestKey);
      rootPv, rootKey := best, bestKey;
      AssignAll();
      if bestKey != oldKey || rootPv != oldRoot {
        NewRoot();
      }
      reselect := false;
    }

    /** After the root moves: its port has to agree again, and the others sync. */
    method NewRoot()
      requires -1 <= rootKey < ports.Length
      modifies ports
      ensures ports[..] == SyncAll(if rootKey < 0 then old(ports[..])
                                   else old(ports[..])[rootKey := old(ports[rootKey]).(agree := false)])
    {
      ghost var before := ports[..];
      if rootKey >= 0 {
        ports[rootKey] := ports[rootKey].(agree := false);
        Replaced(before, rootKey, ports[rootKey]);
      }
      SyncTree();
    }

    method AssignAll()
      modifies ports
      ensures ports[..] == AssignRoles(id, old(ports[..]), Choice(rootPv, rootKey), rootTimes)
    {
      for k := 0 to ports.Length
        invariant forall j :: 0 <= j < ports.Length ==>
          ports[j] == if j >= k then old(ports[j])
                      else AssignRole(old(ports[j]), j == rootKey,
                                      DesignatedVector(rootPv, id, old(ports[j])), rootTimes)
      {
        ports[k] := Assigned(ports[k], k == rootKey, Vector(rootPv.root, rootPv.cost, id, ports[k].id), rootTimes);
      }
    }

    method TopologyChange(from: int, rcvd: bool, now: int)
      modifies this`tcCount, ports
      ensures View() == RstpState.TopologyChange(old(View()), from, rcvd, now)
    {
      var started := Announce(from, rcvd, now);
      if started || !rcvd {
        tcCount := tcCount + 1;
      }
    }

    method Announce(from: int, rcvd: bool, now: int) returns (started: bool)
      modifies ports
      ensures ports[..] == TcPorts(old(ports[..]), from, rcvd, now, helloMs)
      ensures started <==> SomeAnnounce(old(ports[..]), from, rcvd, now)
    {
      ghost var was := ports[..];
      started := false;
      for k := 0 to ports.Length
        modifies ports
        invariant forall j :: 0 <= j < ports.Length ==>
          ports[j] == if j < k then TcPort(was[j], j == from, rcvd, now, helloMs) else was[j]
        invariant started == SomeAnnounce(was[..k], from, rcvd, now)
      {
        OneMoreAnnounces(was, from, rcvd, now, k);
        var q, news := Announced(ports[k], k == from, rcvd, now, helloMs);
        started := started || news;
        ports[k] := q;
      }
      assert was[..ports.Length] == was;
    }

    method ReceiveVector(k: nat, now: int)
      requires k < ports.Length
      modifies this`reselect, this`tcCount, ports
      ensures View() == RcvVector(old(View()), k, now)
    {
      ghost var before := ports[..];
      var p := ports[k];
      var q, v := Judged(p, id, rootPv, helloMs, now);
      ports[k] := q;
      Replaced(before, k, q);
      if v == Looped || v == Superior || (v == Repeated && p.pt != p.msg.times) {
        reselect := true;
      }
      if p.msg.tc && v != Looped {
        TopologyChange(k, true, now);
      }
    }

    method Receive(k: nat, now: int)
      requires k < ports.Length
      modifies this`reselect, this`tcCount, ports
      ensures View() == RstpState.Receive(old(View()), k, now)
    {
      ghost var before := ports[..];
      var p := ports[k];
      if p.bpduGuard {
        ports[k] := p.(pending := false, bpduTripped := true);
        Replaced(before, k, ports[k]);
        reselect := true;
        return;
      }
      if p.operEdge {
        reselect := true;
      }
      var rst := p.msg.kind == RstBpdu;
      ports[k] := p.(pending := false, heard := true, operEdge := false, edgeUntil := 0, sendRstp := rst,
                     newInfo := p.newInfo || (rst && !p.sendRstp), tcAck := p.tcAck || p.msg.kind == TcnBpdu);
      Replaced(before, k, Heed(p));
      if p.msg.kind == TcnBpdu {
        TopologyChange(k, true, now);
      } else if p.msg.times.msgAge < p.msg.times.maxAge {
        ReceiveVector(k, now);
      }
    }

    method RootTransition(k: nat)
      requires k < ports.Length
      modifies ports
      ensures ports[..] == RootStep(old(ports[..]), k)
    {
      var p := ports[k];
      if p.proposed {
        SyncTree();
      }
      ghost var synced := ports[..];
      var agrees := false;
      if !p.agree {
        agrees := Synced(k);
      }
      ports[k] := p.(proposed := false, agree := p.agree || agrees, newInfo := p.newInfo || agrees,
                     state := Forwarding);
      Replaced(synced, k, ports[k]);
    }

    method Transition(k: nat, now: int)
      requires k < ports.Length
      modifies this`tcCount, ports
      ensures View() == Go(old(View()), k, now)
    {
      ghost var before := ports[..];
      var p := ports[k];
      if p.role == RoleRoot {
        RootTransition(k);
      } else {
        var q := Waited(p, now, rootTimes.fwd);
        ports[k] := q;
        Replaced(before, k, q);
      }
      if p.state != Forwarding && ports[k].state == Forwarding && !ports[k].operEdge {
        TopologyChange(k, false, now);
      }
    }

    method ExcludePort(k: nat)
      requires k < ports.Length
      modifies this`reselect, ports
      ensures View() == Exclude(old(View()), k)
    {
      ghost var before := ports[..];
      var p := ports[k];
      if p.enabled {
        reselect := true;
      }
      ports[k] := p.(enabled := false, info := if p.enabled then InfoDisabled else p.info, state := Forwarding);
      Replaced(before, k, ports[k]);
    }

    method EnterPort(k: nat, link: bool, speedCost: nat, now: int)
      requires k < ports.Length
      modifies this`reselect, ports
      ensures View() == Enter(old(View()), k, link, speedCost, now)
    {
      ghost var before := ports[..];
      var p := ports[k];
      var q := Linked(p, link, speedCost, now);
      if q.enabled != p.enabled || q.cost != p.cost {
        reselect := true;
      }
      ports[k] := q;
      Replaced(before, k, q);
    }

    method AdmitPort(k: nat, e: Env, now: int)
      requires k < ports.Length && EnvFits(e, ports.Length)
      modifies this`reselect, this`tcCount, ports
      ensures View() == Admit(old(View()), k, e, now)
    {
      if ports[k].used && e.excluded[k] {
        ExcludePort(k);
        return;
      }
      EnterPort(k, e.link[k], e.speedCost[k], now);
      if !ports[k].enabled {
        return;
      }
      if ports[k].pending {
        Receive(k, now);
      }
      Age(k, now);
    }

    method Age(k: nat, now: int)
      requires k < ports.Length
      modifies this`reselect, ports
      ensures View() == AgeOut(old(View()), k, now)
    {
      ghost var before := ports[..];
      if ports[k].info == InfoReceived && now >= ports[k].rcvdUntil {
        ports[k] := ports[k].(info := InfoAged);
        Replaced(before, k, ports[k]);
        reselect := true;
      }
    }

    method LowerPort(k: nat, e: Env)
      requires k < ports.Length && EnvFits(e, ports.Length)
      modifies ports
      ensures View() == Lower(old(View()), k, e)
    {
      ghost var before := ports[..];
      var p := ports[k];
      if p.enabled && !Carries(p) {
        var answers := p.proposed && p.role != RoleDisabled;
        ports[k] := p.(state := Discarding, agree := p.agree || answers, newInfo := p.newInfo || answers,
                       proposed := p.proposed && !answers);
        Replaced(before, k, ports[k]);
      } else if !p.enabled && p.used && !e.excluded[k] {
        ports[k] := p.(state := Discarding);
        Replaced(before, k, ports[k]);
      }
    }

    /** A run: what the bridge is, and what that promises of every interface --
        one MLAG keeps out forwards, any other that learns or forwards is live
        and root or designated, there is one root port, and a tripped guard holds. */
    method Run(e: Env, now: int) returns (out: seq<Option<Bpdu>>)
      requires Valid() && EnvFits(e, ports.Length)
      modifies this, ports
      ensures Valid() && View() == RstpState.Run(old(View()), e, now)
      ensures |out| == ports.Length
      ensures forall k :: 0 <= k < ports.Length ==> out[k] == RstpHandshake.RunSends(old(View()), e, now, k)
      ensures on ==> !reselect && forall k :: 0 <= k < ports.Length ==> RstpSafety.RunPort(old(View()), View(), k, e)
    {
      ghost var b := View();
      out := Passes(e, now);
      RstpSafety.RunKeepsInv(b, e, now);
      RunKept(b, e, now);
    }

    /** What must stop stops before what may start does. */
    method Passes(e: Env, now: int) returns (out: seq<Option<Bpdu>>)
      requires EnvFits(e, ports.Length)
      modifies this, ports
      ensures View() == RstpState.Run(old(View()), e, now)
      ensures |out| == ports.Length
      ensures forall k :: 0 <= k < ports.Length ==> out[k] == RstpHandshake.RunSends(old(View()), e, now, k)
    {
      if !on {
        return seq(ports.Length, i => None);
      }
      Admissions(e, now);
      if reselect {
        SelectRoles();
      }
      Lowers(e);
      Raises(now);
      out := Sending(e.tx, now);
    }

    method Admissions(e: Env, now: int)
      requires EnvFits(e, ports.Length)
      modifies this`reselect, this`tcCount, ports
      ensures View() == AdmitAll(old(View()), ports.Length, e, now)
    {
      for k := 0 to ports.Length
        invariant View() == AdmitAll(old(View()), k, e, now)
      {
        AdmitPort(k, e, now);
      }
    }

    method Lowers(e: Env)
      requires EnvFits(e, ports.Length)
      modifies ports
      ensures View() == LowerAll(old(View()), ports.Length, e)
    {
      for k := 0 to ports.Length
        invariant View() == LowerAll(old(View()), k, e)
      {
        LowerPort(k, e);
      }
    }

    method Raises(now: int)
      modifies this`tcCount, ports
      ensures View() == RaiseAll(old(View()), ports.Length, now)
    {
      for k := 0 to ports.Length
        invariant View() == RaiseAll(old(View()), k, now)
      {
        if ports[k].enabled && Carries(ports[k]) {
          Transition(k, now);
        }
      }
    }

    /** The last pass: at most so many BPDUs a second on each port. */
    method Sending(tx: seq<Tx>, now: int) returns (out: seq<Option<Bpdu>>)
      requires |tx| == ports.Length
      modifies ports
      ensures ports[..] == SendAll(old(ports[..]), tx, helloMs, now)
      ensures |out| == ports.Length && forall k :: 0 <= k < ports.Length ==>
        out[k] == if Speaks(old(ports[k]), tx[k], now)
                  then Some(RstpHandshake.BpduFrom(old(View()), old(ports[k]), now)) else None
    {
      out := [];
      for k := 0 to ports.Length
        invariant |out| == k
        invariant forall j :: 0 <= j < ports.Length ==>
          ports[j] == if j < k then SendPort(old(ports[j]), tx[j], helloMs, now) else old(ports[j])
        invariant forall j :: 0 <= j < k ==>
          out[j] == if Speaks(old(ports[j]), tx[j], now)
                    then Some(RstpHandshake.BpduFrom(old(View()), old(ports[j]), now)) else None
      {
        var due, speaks, count := Goes(ports[k], tx[k], now);
        if speaks {
          var m := Composed(ports[k], now);
          out := out + [Some(m)];
        } else {
          out := out + [None];
        }
        ports[k] := Spent(ports[k], due, speaks, count, tx[k], helloMs, now);
      }
    }

    /** send_bpdu: what the port says. */
    method Composed(p: Port, now: int) returns (m: Bpdu)
      ensures m == RstpHandshake.BpduFrom(View(), p, now)
    {
      var v := Vector(rootPv.root, rootPv.cost, id, p.id);
      var ts := Times(RstpHandshake.Carried(rootTimes.msgAge), RstpHandshake.Carried(rootTimes.maxAge),
                      RstpHandshake.Carried(helloMs), RstpHandshake.Carried(rootTimes.fwd));
      if !p.sendRstp {
        return Bpdu(ConfigBpdu, v, ts, now < p.tcUntil, false, ClaimUnknown, false, false);
      }
      var claim := if p.role == RoleRoot then ClaimRoot else if p.role == RoleDesignated then ClaimDesignated
                   else ClaimAltBackup;
      return Bpdu(RstBpdu, v, ts, now < p.tcUntil, p.proposing && p.role == RoleDesignated, claim,
                  p.state != Discarding, p.agree && p.role != RoleDesignated);
    }

    method Rx(k: nat, m: Bpdu)
      requires Valid() && k < ports.Length
      modifies ports
      ensures Valid() && View() == RstpState.Rx(old(View()), k, m)
    {
      RstpSafety.StepKeepsInv(View(), RstpSafety.EvRx(k, m));
      ghost var before := ports[..];
      if on && ports[k].enabled {
        var p := ports[k];
        ports[k] := p.(msg := if m.kind == TcnBpdu then p.msg.(kind := TcnBpdu) else m, pending := true);
        Replaced(before, k, ports[k]);
      }
    }

    method Iface(k: nat, switched: bool)
      requires Valid() && k < ports.Length
      modifies this`reselect, ports
      ensures Valid() && View() == RstpState.Iface(old(View()), k, switched)
    {
      RstpSafety.StepKeepsInv(View(), RstpSafety.EvIface(k, switched));
      ghost var before := ports[..];
      var p := ports[k];
      ports[k] := p.(used := switched, state := if switched && on then Discarding else Forwarding,
                     enabled := p.enabled && !switched, role := if switched then RoleDisabled else p.role);
      Replaced(before, k, ports[k]);
      reselect := true;
    }

    method Configure(k: nat, c: PortConfig)
      requires Valid() && k < ports.Length
      modifies this`reselect, ports
      ensures Valid() && View() == RstpState.Configure(old(View()), k, c)
    {
      RstpSafety.StepKeepsInv(View(), RstpSafety.EvPort(k, c));
      ghost var before := ports[..];
      var p := ports[k];
      ports[k] := p.(adminEdge := c.edge, cfgCost := c.cost, bpduGuard := c.bpduGuard, rootGuard := c.rootGuard,
                     bpduTripped := false, id := c.id,
                     operEdge := if !c.edge then false else if !p.heard then true else p.operEdge);
      Replaced(before, k, ports[k]);
      reselect := true;
    }

    method Set(request: BridgeConfig)
      requires Valid()
      modifies this, ports
      ensures Valid() && View() == RstpState.Set(old(View()), request)
    {
      RstpSafety.StepKeepsInv(View(), RstpSafety.EvSet(request));
      Reset(request);
    }

    method Reset(request: BridgeConfig)
      modifies this, ports
      ensures View() == RstpState.Set(old(View()), request)
    {
      var c := Defaulted(request);
      if !ValidTimes(c) {
        return;
      }
      if c.hello * 1000 != helloMs || c.fwd * 1000 != fwdMs || c.maxAge * 1000 != maxAgeMs {
        helloMs, fwdMs, maxAgeMs := c.hello * 1000, c.fwd * 1000, c.maxAge * 1000;
        reselect := true;
      }
      if c.id != id || c.on != on {
        id := c.id;
        for k := 0 to ports.Length
          modifies ports
          invariant forall j :: 0 <= j < ports.Length ==>
            ports[j] == if j < k then Restart(old(ports[j]), c.on) else old(ports[j])
        {
          var p := ports[k];
          ports[k] := p.(enabled := false, info := InfoDisabled, role := RoleDisabled, pending := false,
                         state := if !p.used then p.state else if c.on then Discarding else Forwarding);
        }
        rootPv, rootKey, on, reselect := Vector(0, 0, 0, 0), -1, c.on, true;
        assert ports[..] == RestartAll(old(ports[..]), c.on);
      }
    }
  }

  /** topology_change, for one port. */
  method Announced(p: Port, isSource: bool, rcvd: bool, now: int, helloMs: int) returns (q: Port, news: bool)
    ensures q == TcPort(p, isSource, rcvd, now, helloMs) && news == Announces(p, isSource, rcvd, now)
  {
    news := Starts(p, isSource, rcvd, now);
    q := p.(tcUntil := if news then now + helloMs + 1000 else p.tcUntil, newInfo := p.newInfo || news);
  }

  method Starts(p: Port, isSource: bool, rcvd: bool, now: int) returns (news: bool)
    ensures news == Announces(p, isSource, rcvd, now)
  {
    news := false;
    if p.enabled && !p.operEdge && !(rcvd && isSource) {
      if (p.role == RoleRoot || p.role == RoleDesignated) && now >= p.tcUntil {
        news := true;
      }
    }
  }

  /** select_roles, for one port: its role, whether the root guard holds it, and
      whether what it says becomes the bridge's own. */
  method RoleOf(p: Port, isRoot: bool, dv: Vector) returns (role: Role, blocked: bool, ours: bool)
    ensures role == RoleFor(p, isRoot, dv)
    ensures blocked == ((role == RoleAlternate || role == RoleBackup) && p.rootGuard)
    ensures ours == (role == RoleDesignated && (p.info != InfoMine || p.pv != dv))
  {
    role, blocked, ours := RoleDesignated, false, false;
    if !p.enabled {
      role := RoleDisabled;
    } else if isRoot {
      role := RoleRoot;
    } else if p.info == InfoReceived && Less(p.pv, dv) {
      role := if p.pv.bridge == dv.bridge then RoleBackup else RoleAlternate;
      blocked := p.rootGuard;
    } else if p.info != InfoMine || p.pv != dv {
      ours := true;
    }
  }

  method Updated(p: Port, role: Role, blocked: bool, ours: bool, dv: Vector, rt: Times) returns (q: Port)
    requires blocked == ((role == RoleAlternate || role == RoleBackup) && p.rootGuard)
    requires ours == (role == RoleDesignated && (p.info != InfoMine || p.pv != dv))
    ensures q == UpdateInfo(p, role, dv, rt)
  {
    q := p.(rootBlocked := blocked, pv := if ours then dv else p.pv, pt := if ours then rt else p.pt,
            info := if ours then InfoMine else p.info, agreed := p.agreed && !ours, newInfo := p.newInfo || ours);
  }

  method Assigned(p: Port, isRoot: bool, dv: Vector, rt: Times) returns (q: Port)
    ensures q == AssignRole(p, isRoot, dv, rt)
  {
    var role, blocked, ours := RoleOf(p, isRoot, dv);
    q := Updated(p, role, blocked, ours, dv, rt);
    q := Cast(q, role);
  }

  method Cast(p: Port, role: Role) returns (q: Port)
    ensures q == SetRole(p, role)
  {
    q := p;
    if role != p.role {
      q := p.(role := role, proposing := false, fdUntil := 0, newInfo := true, agree := p.agree && role == RoleRoot);
    }
  }

  /** receive, from where the BPDU is believable: what it is... */
  method Weighed(p: Port, id: nat, rootPv: Vector) returns (v: Verdict)
    ensures v == Judge(p, id, rootPv)
  {
    var m := p.msg;
    var same := p.info == InfoReceived && m.vector.bridge == p.pv.bridge && m.vector.port == p.pv.port;
    if m.vector.bridge == id && m.vector.port == p.id {
      v := Looped;
    } else if m.kind == ConfigBpdu || m.claim == ClaimDesignated {
      if Less(m.vector, p.pv) || (same && m.vector != p.pv) {
        v := Superior;
      } else if m.vector == p.pv && p.info == InfoReceived {
        v := Repeated;
      } else {
        v := if p.role == RoleDesignated && m.learning then Disputed else Inferior;
      }
    } else {
      v := if p.role == RoleDesignated && m.agreement && m.vector.root == rootPv.root then Agreement else Ignored;
    }
  }

  /** ... what is learned from it, and for how long... */
  method Learned(p: Port, v: Verdict, helloMs: int, now: int)
    returns (pv: Vector, pt: Times, info: Info, until: int, proposed: bool)
    ensures pv == if v == Superior || v == Looped then p.msg.vector else p.pv
    ensures info == if v == Superior || v == Looped then InfoReceived else p.info
    ensures pt == if v == Superior || v == Repeated then p.msg.times else p.pt
    ensures proposed == if v == Superior || v == Repeated then p.msg.proposal else p.proposed
    ensures until == if v == Looped then now + 3 * helloMs
                     else if v != Superior && v != Repeated then p.rcvdUntil
                     else if p.msg.times.hello <= 0 then now + 3 * helloMs else now + 3 * p.msg.times.hello
  {
    var m := p.msg;
    var hello := if m.times.hello > 0 then m.times.hello else helloMs;
    pv, pt, info, until, proposed := p.pv, p.pt, p.info, p.rcvdUntil, p.proposed;
    if v == Looped {
      pv, info, until := m.vector, InfoReceived, now + 3 * helloMs;
    } else if v == Superior {
      pv, pt, info, until, proposed := m.vector, m.times, InfoReceived, now + 3 * hello, m.proposal;
    } else if v == Repeated {
      pt, until, proposed := m.times, now + 3 * hello, m.proposal;
    }
  }

  /** ... and what comes of it at once. */
  method Judged(p: Port, id: nat, rootPv: Vector, helloMs: int, now: int) returns (q: Port, v: Verdict)
    ensures v == Judge(p, id, rootPv) && q == Told(p, v, now, helloMs)
  {
    v := Weighed(p, id, rootPv);
    var pv, pt, info, until, proposed := Learned(p, v, helloMs, now);
    q := p.(pv := pv, pt := pt, info := info, rcvdUntil := until, proposed := proposed,
            agreed := (p.agreed && v != Superior && v != Disputed) || v == Agreement,
            proposing := p.proposing && v != Agreement, state := if v == Disputed then Discarding else p.state,
            newInfo := p.newInfo || v == Disputed || v == Inferior);
  }

  /** transition, of a designated port: nothing heard for the migrate time makes
      it an edge... */
  method Found(p: Port, now: int) returns (edge: bool)
    ensures edge == EdgeNow(p, now)
  {
    edge := p.operEdge;
    if !edge && !p.heard && p.edgeUntil != 0 && now >= p.edgeUntil {
      edge := true;
    }
  }

  /** ... one that has to wait waits out the delay in hand, or starts one... */
  method Delayed(p: Port, now: int, fwd: int) returns (state: PortState, until: int)
    requires p.state != Forwarding
    ensures var due := WaitsUntil(p, now, fwd);
      && state == (if now < due then p.state else if p.state == Learning then Forwarding else Learning)
      && until == if now < due then due else now + fwd
  {
    state, until := p.state, p.fdUntil;
    if until == 0 {
      until := now + fwd;
    }
    if now >= until {
      state := if state == Discarding then Learning else Forwarding;
      until := now + fwd;
    }
  }

  /** ... and any other forwards. */
  method Waits(p: Port, edge: bool, now: int, fwd: int)
    returns (state: PortState, until: int, proposing: bool, news: bool)
    ensures var goes := p.state != Forwarding && (edge || p.agreed);
      var waits, due := p.state != Forwarding && !goes, WaitsUntil(p, now, fwd);
      var moves := waits && now >= due;
      && state == (if goes || (moves && p.state == Learning) then Forwarding else if moves then Learning else p.state)
      && until == (if moves then now + fwd else if waits then due else p.fdUntil)
      && proposing == (if waits then p.proposing || p.sendRstp else p.proposing && !goes)
      && news == (p.newInfo || (waits && p.sendRstp && !p.proposing))
  {
    state, until, proposing, news := p.state, p.fdUntil, p.proposing, p.newInfo;
    if state != Forwarding {
      if edge || p.agreed {
        state, proposing := Forwarding, false;
      } else {
        if p.sendRstp && !proposing {
          proposing, news := true, true;
        }
        state, until := Delayed(p, now, fwd);
      }
    }
  }

  method Waited(p: Port, now: int, fwd: int) returns (q: Port)
    ensures q == DesignatedStep(p, now, fwd)
  {
    var edge := Found(p, now);
    var state, until, proposing, news := Waits(p, edge, now, fwd);
    q := p.(operEdge := edge, proposing := proposing, newInfo := news, state := state, fdUntil := until);
  }

  /** The link, the guard and the cost of one port. */
  method Linked(p: Port, link: bool, speedCost: nat, now: int) returns (q: Port)
    ensures q == LinkStep(p, link, speedCost, now)
  {
    var up := p.used && link;
    var part := up && !p.bpduTripped;
    var comes, goes := part && !p.enabled, !part && p.enabled;
    var cost := if p.cfgCost > 0 then p.cfgCost else speedCost;
    q := p.(bpduTripped := up && p.bpduTripped, enabled := part, cost := if part then cost else p.cost,
            info := if comes then InfoAged else if goes then InfoDisabled else p.info, pending := p.pending && !goes,
            operEdge := if comes then p.adminEdge else p.operEdge, heard := p.heard && !comes,
            edgeUntil := if comes then now + MIGRATE_MS else p.edgeUntil, sendRstp := p.sendRstp || comes,
            helloNext := if comes then now else p.helloNext, agreed := p.agreed && !comes, agree := p.agree && !comes,
            proposed := p.proposed && !comes, proposing := p.proposing && !comes);
  }

  /** The last pass, for one port: whether a BPDU goes, and what is left. */
  method Due(p: Port, now: int) returns (due: bool)
    ensures due == (p.enabled && HasNews(p, now))
  {
    due := false;
    if p.enabled {
      match p.role
      case RoleDesignated => due := p.newInfo || now >= p.helloNext;
      case RoleRoot => due := (p.newInfo && p.sendRstp) || p.tcAck;
      case RoleAlternate => due := p.newInfo && p.agree && p.sendRstp;
      case RoleBackup => due := p.newInfo && p.agree && p.sendRstp;
      case RoleDisabled =>
    }
  }

  /** BPDUs sent in this second, begun afresh when one is over. */
  method Counted(p: Port, due: bool, now: int) returns (count: nat)
    requires due == (p.enabled && HasNews(p, now))
    ensures count == SentAlready(p, now)
  {
    count := p.txCount;
    if due && now - p.txWindow >= 1000 {
      count := 0;
    }
  }

  /** Does a BPDU go? At most so many a second, and only where there is a port. */
  method Goes(p: Port, tx: Tx, now: int) returns (due: bool, speaks: bool, count: nat)
    ensures due == (p.enabled && HasNews(p, now)) && speaks == Speaks(p, tx, now) && count == SentAlready(p, now)
  {
    due := Due(p, now);
    count := Counted(p, due, now);
    speaks := due && count < TX_HOLD && tx != NoPort;
  }

  lemma RunKept(b: Bridge, e: Env, now: int)
    requires RstpSafety.Inv(b) && EnvFits(e, |b.ports|)
    ensures var r := RstpState.Run(b, e, now);
      r.on ==> !r.reselect && forall k :: 0 <= k < |b.ports| ==> RstpSafety.RunPort(b, r, k, e)
  {
    if b.on {
      assert RstpSafety.PortInv(b, 0);
      RstpSafety.RunPromises(b, e, now, 0);
      forall k | 0 <= k < |b.ports| ensures RstpSafety.RunPort(b, RstpState.Run(b, e, now), k, e) {
        assert RstpSafety.PortInv(b, k);
        RstpSafety.RunPromises(b, e, now, k);
      }
    }
  }

  lemma OneMoreAnnounces(ports: seq<Port>, from: int, rcvd: bool, now: int, k: nat)
    requires k < |ports|
    ensures SomeAnnounce(ports[..k + 1], from, rcvd, now) <==>
            SomeAnnounce(ports[..k], from, rcvd, now) || Announces(ports[k], k == from, rcvd, now)
  {
    var a, b := ports[..k], ports[..k + 1];
    assert b[k] == ports[k] && forall i :: 0 <= i < k ==> a[i] == b[i];
    if SomeAnnounce(b, from, rcvd, now) {
      var i :| 0 <= i < |b| && Announces(b[i], i == from, rcvd, now);
      assert i < k ==> Announces(a[i], i == from, rcvd, now);
    }
    if SomeAnnounce(a, from, rcvd, now) {
      var i :| 0 <= i < |a| && Announces(a[i], i == from, rcvd, now);
      assert Announces(b[i], i == from, rcvd, now);
    }
  }
}
