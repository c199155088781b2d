/**
 What a bridge lets through, and when: the root port at once, a designated port
 at once as an edge or agreed with, and any other after two forward delays. A
 port nothing has been heard on for the migrate time is an edge.
 */
module RstpProgress {
  import opened RstpVector
  import opened RstpState
  import opened RstpSafety
  import opened RstpTrace

  // ----- after every run -----

  lemma TurnForwards(x: Port, y: Port, now: int, fwd: int, asks: bool)
    requires if x.enabled && x.role == RoleRoot then Rooted(x, y) else Alike(Moves(x, now, fwd), y)
    ensures var z := Swept(y, asks);
      z.enabled && (z.role == RoleRoot || (z.role == RoleDesignated && (z.operEdge || z.agreed))) ==>
      z.state == Forwarding
  {
  }

  lemma SendRemains(p: Port, tx: Tx, helloMs: int, now: int)
    ensures var q := SendPort(p, tx, helloMs, now);
      && q == p.(txWindow := q.txWindow, txCount := q.txCount, newInfo := q.newInfo, tcAck := q.tcAck,
                 helloNext := q.helloNext)
  {
  }

  /** After a run the root port forwards, and so does every live designated port
      that is an edge or agreed with. */
  lemma RunForwards(b: Bridge, e: Env, now: int, k: nat)
    requires Inv(b) && b.on && k < |b.ports| && EnvFits(e, |b.ports|)
    ensures var q := Run(b, e, now).ports[k];
      q.enabled && (q.role == RoleRoot || (q.role == RoleDesignated && (q.operEdge || q.agreed))) ==>
      q.state == Forwarding
  {
    var s := Stopped(b, e, now);
    var x, y := StartedAt(b, e, now, k);
    TurnForwards(x, y, now, s.rootTimes.fwd, Asks(s) && k < s.rootKey);
    RunEnds(b, e, now, k);
    SendRemains(Started(b, e, now).ports[k], e.tx[k], Started(b, e, now).helloMs, now);
  }

  // ----- through learning -----

  /** A BPDU that proposes, waiting or taken. */
  predicate ProposedTo(p: Port) {
    p.proposed || (p.pending && p.msg.proposal)
  }

  /** A BPDU from another port that learns, waiting. */
  predicate MayDispute(p: Port, id: nat) {
    p.pending && p.msg.learning && !(p.msg.vector.bridge == id && p.msg.vector.port == p.id)
  }

  /** A live port through the first pass. */
  predicate Undisputed(p: Port, q: Port, id: nat) {
    && q.role == p.role && q.fdUntil == p.fdUntil && (q.operEdge ==> p.operEdge)
    && (q.state == p.state || (q.state == Discarding && MayDispute(p, id)))
    && (q.proposed ==> ProposedTo(p))
  }

  lemma UndisputedTwice(p: Port, q: Port, r: Port, id: nat)
    requires Undisputed(p, q, id) && Alike(q, r)
    ensures Undisputed(p, r, id)
  {
  }

  lemma HearsUndisputed(p: Port, id: nat, rootPv: Vector, helloMs: int, now: int)
    requires p.pending
    ensures Undisputed(p, Hears(p, id, rootPv, helloMs, now), id)
  {
    var h := Heed(p);
    assert h.msg == p.msg && h.proposed == p.proposed && h.state == p.state && h.role == p.role;
    assert h.fdUntil == p.fdUntil && h.id == p.id && !h.operEdge;
    ToldUndisputed(h, Judge(h, id, rootPv), now, helloMs);
  }

  lemma ToldUndisputed(h: Port, v: Verdict, now: int, helloMs: int)
    ensures var q := Told(h, v, now, helloMs);
      && q.role == h.role && q.fdUntil == h.fdUntil && q.operEdge == h.operEdge
      && (q.state == h.state || (q.state == Discarding && v == Disputed))
      && (q.proposed ==> h.proposed || h.msg.proposal)
  {
  }

  lemma ListensUndisputed(p: Port, id: nat, rootPv: Vector, helloMs: int, now: int)
    ensures Undisputed(p, Listens(p, id, rootPv, helloMs, now), id)
  {
    if p.enabled && p.pending {
      HearsUndisputed(p, id, rootPv, helloMs, now);
    }
  }

  lemma ToldEnabled(h: Port, v: Verdict, now: int, helloMs: int)
    ensures Told(h, v, now, helloMs).enabled == h.enabled && Told(h, v, now, helloMs).used == h.used
  {
  }

  lemma HearsEnabled(p: Port, id: nat, rootPv: Vector, helloMs: int, now: int)
    ensures Hears(p, id, rootPv, helloMs, now).enabled == p.enabled
  {
    var h := Heed(p);
    assert h.enabled == p.enabled;
    ToldEnabled(h, Judge(h, id, rootPv), now, helloMs);
  }

  lemma ListensEnabled(p: Port, id: nat, rootPv: Vector, helloMs: int, now: int)
    ensures Listens(p, id, rootPv, helloMs, now).enabled == p.enabled
  {
    HearsEnabled(p, id, rootPv, helloMs, now);
  }

  /** A live port that stays so: the link is looked at, and the cost. */
  function Looked(p: Port, speedCost: nat): Port {
    p.(cost := PortCost(p, speedCost))
  }

  lemma LinkHolds(p: Port, link: bool, speedCost: nat, now: int)
    requires p.enabled && LinkStep(p, link, speedCost, now).enabled
    ensures p.used && link && !p.bpduTripped && LinkStep(p, link, speedCost, now) == Looked(p, speedCost)
  {
  }

  lemma EntersIs(b: Bridge, k: nat, e: Env, now: int)
    requires k < |b.ports| && EnvFits(e, |b.ports|) && EntersAt(b, k, e, now).enabled
    ensures !(b.ports[k].used && e.excluded[k]) && LinkStep(b.ports[k], e.link[k], e.speedCost[k], now).enabled
    ensures EntersAt(b, k, e, now) ==
            Listens(LinkStep(b.ports[k], e.link[k], e.speedCost[k], now), b.id, b.rootPv, b.helloMs, now)
  {
    var q := LinkStep(b.ports[k], e.link[k], e.speedCost[k], now);
    assert !Shut(b.ports[k]).enabled;
    ListensEnabled(q, b.id, b.rootPv, b.helloMs, now);
  }

  lemma EntersLive(b: Bridge, k: nat, e: Env, now: int)
    requires k < |b.ports| && EnvFits(e, |b.ports|) && b.ports[k].enabled && EntersAt(b, k, e, now).enabled
    ensures EntersAt(b, k, e, now) == Listens(Looked(b.ports[k], e.speedCost[k]), b.id, b.rootPv, b.helloMs, now)
  {
    EntersIs(b, k, e, now);
    LinkHolds(b.ports[k], e.link[k], e.speedCost[k], now);
  }

  lemma LookedUndisputed(p: Port, q: Port, speedCost: nat, id: nat)
    requires Undisputed(Looked(p, speedCost), q, id)
    ensures Undisputed(p, q, id)
  {
  }

  lemma EntersUndisputed(b: Bridge, k: nat, e: Env, now: int)
    requires k < |b.ports| && EnvFits(e, |b.ports|) && b.ports[k].enabled && EntersAt(b, k, e, now).enabled
    ensures Undisputed(b.ports[k], EntersAt(b, k, e, now), b.id)
  {
    EntersLive(b, k, e, now);
    var p := Looked(b.ports[k], e.speedCost[k]);
    ListensUndisputed(p, b.id, b.rootPv, b.helloMs, now);
    LookedUndisputed(b.ports[k], EntersAt(b, k, e, now), e.speedCost[k], b.id);
  }

  /** Selection, where the root stays and the port stays designated. */
  lemma ChosenUndisputed(b: Bridge, e: Env, now: int, k: nat)
    requires Inv(b) && b.on && k < |b.ports| && EnvFits(e, |b.ports|)
    requires Chosen(b, e, now).rootKey == b.rootKey && Chosen(b, e, now).rootPv == b.rootPv
    requires b.ports[k].enabled && Chosen(b, e, now).ports[k].enabled
    requires b.ports[k].role == Chosen(b, e, now).ports[k].role
    ensures Undisputed(b.ports[k], Chosen(b, e, now).ports[k], b.id)
  {
    var b1 := Entered(b, e, now);
    EnteredAt(b, e, now, k);
    if b1.reselect {
      SelectRolesAt(b1, k);
      var c := Choose(b1.id, b1.ports, |b1.ports|);
      SelectedUndisputed(b1.ports[k], k == c.key, DesignatedVector(c.best, b1.id, b1.ports[k]), TimesFor(b1, c.key));
    }
    EntersUndisputed(b, k, e, now);
    UndisputedTwice(b.ports[k], EntersAt(b, k, e, now), b1.ports[k], b.id);
  }

  lemma SelectedUndisputed(p: Port, isRoot: bool, dv: Vector, rt: Times)
    ensures var q := AssignRole(p, isRoot, dv, rt);
      && q.enabled == p.enabled && q.state == p.state && q.operEdge == p.operEdge && q.proposed == p.proposed
      && (q.role == p.role ==> q.fdUntil == p.fdUntil)
  {
  }

  lemma LinkProposed(p: Port, link: bool, speedCost: nat, now: int)
    ensures var q := LinkStep(p, link, speedCost, now);
      q.msg == p.msg && (q.pending ==> p.pending) && (q.proposed ==> p.proposed)
  {
  }

  lemma EntersProposed(b: Bridge, k: nat, e: Env, now: int)
    requires k < |b.ports| && EnvFits(e, |b.ports|) && EntersAt(b, k, e, now).enabled
    ensures EntersAt(b, k, e, now).proposed ==> ProposedTo(b.ports[k])
  {
    EntersIs(b, k, e, now);
    LinkProposed(b.ports[k], e.link[k], e.speedCost[k], now);
    ListensUndisputed(LinkStep(b.ports[k], e.link[k], e.speedCost[k], now), b.id, b.rootPv, b.helloMs, now);
  }

  lemma SyncProposed(a: Port, c: Port, q: Port)
    requires (c == a || c == a.(agree := false)) && (q == c || q == SyncPort(c))
    ensures q.proposed == a.proposed && q.enabled == a.enabled
  {
  }

  lemma SelectProposed(b: Bridge, k: nat)
    requires k < |b.ports|
    ensures SelectRoles(b).ports[k].proposed == b.ports[k].proposed
    ensures SelectRoles(b).ports[k].enabled == b.ports[k].enabled
  {
    SelectRolesAt(b, k);
    var c := Choose(b.id, b.ports, |b.ports|);
    var dv := DesignatedVector(c.best, b.id, b.ports[k]);
    var a := AssignRole(b.ports[k], k == c.key, dv, TimesFor(b, c.key));
    var moved := c.key != b.rootKey || c.best != b.rootPv;
    SelectedUndisputed(b.ports[k], k == c.key, dv, TimesFor(b, c.key));
    SyncProposed(a, if moved && k == c.key then a.(agree := false) else a, SelectRoles(b).ports[k]);
  }

  lemma ChosenProposed(b: Bridge, e: Env, now: int, k: nat)
    requires k < |b.ports| && EnvFits(e, |b.ports|) && Chosen(b, e, now).ports[k].enabled
    ensures Chosen(b, e, now).ports[k].proposed ==> ProposedTo(b.ports[k])
  {
    var b1 := Entered(b, e, now);
    EnteredAt(b, e, now, k);
    if b1.reselect {
      SelectProposed(b1, k);
    }
    EntersProposed(b, k, e, now);
  }

  /** Nothing about the tree holds port k back in this run: the root stays, it
      proposes nothing, and nobody disputes the port. */
  predicate Undisturbed(b: Bridge, r: Bridge, k: nat) {
    && k < |b.ports| && r.rootKey == b.rootKey && r.rootPv == b.rootPv
    && (0 <= b.rootKey < |b.ports| ==> !ProposedTo(b.ports[b.rootKey]))
    && !MayDispute(b.ports[k], b.id)
  }

  lemma NobodyAsks(b: Bridge, e: Env, now: int)
    requires b.ports != [] && EnvFits(e, |b.ports|) && Chosen(b, e, now).rootKey == b.rootKey
    requires 0 <= b.rootKey < |b.ports| ==> !ProposedTo(b.ports[b.rootKey])
    ensures !Asks(Stopped(b, e, now))
  {
    var rk := b.rootKey;
    StoppedAt(b, e, now, 0);
    if 0 <= rk < |b.ports| {
      StoppedAt(b, e, now, rk);
      var c := Chosen(b, e, now).ports[rk];
      assert LowerOf(c, e.excluded[rk]).role == c.role && LowerOf(c, e.excluded[rk]).enabled == c.enabled;
      assert c.role == RoleRoot ==> LowerOf(c, e.excluded[rk]).proposed == c.proposed;
      if c.enabled {
        ChosenProposed(b, e, now, rk);
      }
    }
  }

  /** When a wait ends, if not already under way. */
  function Due(p: Port, now: int, fwd: int): int {
    if p.fdUntil == 0 then now + fwd else p.fdUntil
  }

  /** A wait that is not over goes on; one that is over moves the port on. */
  predicate MovedOn(p: Port, q: Port, now: int, fwd: int) {
    && (p.state == Forwarding ==> q.state == Forwarding)
    && (p.state != Forwarding && now < Due(p, now, fwd) ==> q.state == p.state && q.fdUntil == Due(p, now, fwd))
    && (p.state == Discarding && now >= Due(p, now, fwd) ==> q.state == Learning && q.fdUntil == now + fwd)
    && (p.state == Learning && now >= Due(p, now, fwd) ==> q.state == Forwarding)
  }

  lemma TurnMovesOn(x: Port, y: Port, now: int, fwd: int)
    requires x.enabled && x.role == RoleDesignated && Alike(Moves(x, now, fwd), y) && !y.operEdge && !y.agreed
    ensures MovedOn(x, y, now, fwd)
  {
  }

  lemma SameMovedOn(p: Port, x: Port, y: Port, q: Port, now: int, fwd: int)
    requires x.state == p.state && x.fdUntil == p.fdUntil && q.state == y.state && q.fdUntil == y.fdUntil
    requires MovedOn(x, y, now, fwd)
    ensures MovedOn(p, q, now, fwd)
  {
  }

  /** One run of a plain port nobody agrees with: it waits out its forward
      delay, then learns, waits out another, and forwards. */
  lemma RunMoves(b: Bridge, e: Env, now: int, k: nat)
    requires Inv(b) && b.on && k < |b.ports| && EnvFits(e, |b.ports|)
    requires var r := Run(b, e, now);
      Undisturbed(b, r, k) && Plain(b.ports[k]) && Plain(r.ports[k]) && !r.ports[k].agreed
    ensures var r := Run(b, e, now); MovedOn(b.ports[k], r.ports[k], now, r.rootTimes.fwd)
  {
    var s, t, r := Stopped(b, e, now), Started(b, e, now), Run(b, e, now);
    var x, y := StartedAt(b, e, now, k);
    StoppedAt(b, e, now, k);
    RunEnds(b, e, now, k);
    SendRemains(t.ports[k], e.tx[k], t.helloMs, now);
    NobodyAsks(b, e, now);
    var c := Chosen(b, e, now).ports[k];
    RunSame(c, e.excluded[k], s.ports[k], x, y, r.ports[k], now, s.rootTimes.fwd);
    ChosenUndisputed(b, e, now, k);
    TurnMovesOn(x, y, now, s.rootTimes.fwd);
    SameMovedOn(b.ports[k], x, y, r.ports[k], now, s.rootTimes.fwd);
  }

  /** A port that ends plain was so when its turn came. */
  lemma RunSame(c: Port, out: bool, s: Port, x: Port, y: Port, q: Port, now: int, fwd: int)
    requires s == LowerOf(c, out) && Alike(s, x)
    requires if x.enabled && x.role == RoleRoot then Rooted(x, y) else Alike(Moves(x, now, fwd), y)
    requires q.enabled == y.enabled && q.role == y.role && q.operEdge == y.operEdge && q.agreed == y.agreed
    requires Plain(q)
    ensures c.enabled && c.role == RoleDesignated && c.state == x.state && c.fdUntil == x.fdUntil
    ensures x.enabled && x.role == RoleDesignated && !y.operEdge
  {
  }

  // ----- over a history -----

  /** Step i of a history, if it is a run, does not hold port k back, and comes
      with a forward delay of at most f. */
  ghost predicate RunClear(b: Bridge, evs: seq<Event>, k: nat, f: int, i: nat)
    requires i < |evs| && forall j :: 0 <= j < |evs| ==> EventFits(|b.ports|, evs[j])
  {
    var s, r := Steps(b, evs[..i]), Steps(b, evs[..i + 1]);
    evs[i].EvRun? ==> s.on && 0 < evs[i].now && Undisturbed(s, r, k) && 0 < r.rootTimes.fwd <= f
  }

  predicate InOrder(evs: seq<Event>) {
    forall i, j :: 0 <= i < j < |evs| && evs[i].EvRun? && evs[j].EvRun? ==> evs[i].now <= evs[j].now
  }

  /** A history that leaves port k plain, agreed with by nobody and undisturbed,
      its runs in order of time. */
  ghost predicate Clear(b: Bridge, evs: seq<Event>, k: nat, f: int)
    requires k < |b.ports| && forall j :: 0 <= j < |evs| ==> EventFits(|b.ports|, evs[j])
  {
    PlainThroughout(b, evs, k) && (forall i :: 0 <= i < |evs| ==> RunClear(b, evs, k, f, i)) && InOrder(evs)
  }

  lemma QuietStays(b: Bridge, ev: Event, k: nat)
    requires !ev.EvRun? && EventFits(|b.ports|, ev) && k < |b.ports| && Plain(Step(b, ev).ports[k])
    ensures Step(b, ev).ports[k].state == b.ports[k].state && Step(b, ev).ports[k].fdUntil == b.ports[k].fdUntil
  {
    match ev
    case EvRx(j, msg) =>
    case EvIface(j, switched) =>
    case EvPort(j, c) =>
    case EvSet(c) =>
  }

  /** How far a port is after n steps, three runs at x, y and z being steps
      i, j and l: waiting at most until x + f; then at least learning at y, until
      at most y + f; then forwarding at z. */
  predicate Level(p: Port, n: nat, i: nat, j: nat, l: nat, x: int, y: int, f: int) {
    if n <= i then p.state == Forwarding || p.fdUntil <= x + f
    else if n <= j then
      p.state == Forwarding ||
      (0 < p.fdUntil && (p.state == Discarding ==> p.fdUntil <= x + f) && (p.state == Learning ==> p.fdUntil <= y + f))
    else if n <= l then p.state == Forwarding || (p.state == Learning && 0 < p.fdUntil <= y + f)
    else p.state == Forwarding
  }

  lemma LevelUp(p: Port, q: Port, n: nat, i: nat, j: nat, l: nat, x: int, y: int, f: int, now: int, fwd: int)
    requires i < j < l && Level(p, n, i, j, l, x, y, f) && MovedOn(p, q, now, fwd) && 0 < fwd <= f && 0 < now
    requires x + f <= y && (n <= i ==> now <= x) && (n <= j ==> now <= y)
    requires (n == i ==> now == x) && (n == j ==> now == y) && (n == l ==> y + f <= now)
    ensures Level(q, n + 1, i, j, l, x, y, f)
  {
  }

  /** Three runs of a history: at x, at y one forward delay on, and another. */
  predicate Three(evs: seq<Event>, i: nat, j: nat, l: nat, f: int) {
    i < j < l < |evs| && evs[i].EvRun? && evs[j].EvRun? && evs[l].EvRun? &&
    evs[i].now + f <= evs[j].now && evs[j].now + f <= evs[l].now
  }

  lemma LevelRun(s: Bridge, ev: Event, k: nat, n: nat, i: nat, j: nat, l: nat, x: int, y: int, f: int)
    requires Inv(s) && s.on && k < |s.ports| && EventFits(|s.ports|, ev) && ev.EvRun?
    requires var r := Step(s, ev);
      Undisturbed(s, r, k) && Plain(s.ports[k]) && Plain(r.ports[k]) && !r.ports[k].agreed && 0 < r.rootTimes.fwd <= f
    requires i < j < l && Level(s.ports[k], n, i, j, l, x, y, f) && x + f <= y && 0 < ev.now
    requires (n <= i ==> ev.now <= x) && (n <= j ==> ev.now <= y)
    requires (n == i ==> ev.now == x) && (n == j ==> ev.now == y) && (n == l ==> y + f <= ev.now)
    ensures Level(Step(s, ev).ports[k], n + 1, i, j, l, x, y, f)
  {
    RunMoves(s, ev.env, ev.now, k);
    LevelUp(s.ports[k], Step(s, ev).ports[k], n, i, j, l, x, y, f, ev.now, Step(s, ev).rootTimes.fwd);
  }

  lemma LevelQuiet(s: Bridge, ev: Event, k: nat, n: nat, i: nat, j: nat, l: nat, x: int, y: int, f: int)
    requires k < |s.ports| && EventFits(|s.ports|, ev) && !ev.EvRun? && Plain(Step(s, ev).ports[k])
    requires n != i && n != j && n != l && Level(s.ports[k], n, i, j, l, x, y, f)
    ensures Level(Step(s, ev).ports[k], n + 1, i, j, l, x, y, f)
  {
    QuietStays(s, ev, k);
  }

  /** A history as the bridges it passes through. */
  ghost predicate Through(b: Bridge, evs: seq<Event>, ss: seq<Bridge>)
    requires forall j :: 0 <= j < |evs| ==> EventFits(|b.ports|, evs[j])
  {
    |ss| == |evs| + 1 && forall n {:trigger ss[n]} :: 0 <= n <= |evs| ==> ss[n] == Steps(b, evs[..n]) && Inv(ss[n])
  }

  lemma {:induction false} Bridges(b: Bridge, evs: seq<Event>) returns (ss: seq<Bridge>)
    requires Inv(b) && forall j :: 0 <= j < |evs| ==> EventFits(|b.ports|, evs[j])
    ensures Through(b, evs, ss)
  {
    if evs == [] {
      ss := [b];
    } else {
      var n := |evs| - 1;
      var before := Bridges(b, evs[..n]);
      StepsKeepInv(b, evs);
      ss := before + [Steps(b, evs)];
      forall i | 0 <= i <= |evs| ensures ss[i] == Steps(b, evs[..i]) && Inv(ss[i]) {
        assert evs[..|evs|] == evs;
        if i <= n {
          assert evs[..n][..i] == evs[..i] && ss[i] == before[i];
        }
      }
    }
  }

  /** Step n of a history, as the port sees it. */
  predicate ClearStep(ss: seq<Bridge>, evs: seq<Event>, n: nat, k: nat, f: int) {
    n < |evs| && n + 1 < |ss| && Inv(ss[n]) && k < |ss[n].ports| && EventFits(|ss[n].ports|, evs[n]) &&
    ss[n + 1] == Step(ss[n], evs[n]) && Plain(ss[n].ports[k]) && Plain(ss[n + 1].ports[k]) &&
    !ss[n + 1].ports[k].agreed &&
    (evs[n].EvRun? ==>
       ss[n].on && 0 < evs[n].now && Undisturbed(ss[n], ss[n + 1], k) && 0 < ss[n + 1].rootTimes.fwd <= f)
  }

  lemma ClearSteps(b: Bridge, evs: seq<Event>, ss: seq<Bridge>, n: nat, k: nat, f: int)
    requires k < |b.ports| && n < |evs| && (forall j :: 0 <= j < |evs| ==> EventFits(|b.ports|, evs[j]))
    requires Through(b, evs, ss) && Clear(b, evs, k, f)
    ensures ClearStep(ss, evs, n, k, f)
  {
    assert evs[..n + 1][..n] == evs[..n] && evs[..n + 1][n] == evs[n];
    assert ss[n] == Steps(b, evs[..n]) && ss[n + 1] == Steps(b, evs[..n + 1]);
    assert RunClear(b, evs, k, f, n);
  }

  lemma {:induction false} LevelAfter(ss: seq<Bridge>, evs: seq<Event>, k: nat, f: int, i: nat, j: nat, l: nat, n: nat)
    requires |ss| == |evs| + 1 && n <= |evs| && k < |ss[0].ports| && InOrder(evs) && Three(evs, i, j, l, f)
    requires forall m {:trigger ClearStep(ss, evs, m, k, f)} :: 0 <= m < |evs| ==> ClearStep(ss, evs, m, k, f)
    requires ss[0].ports[k].fdUntil <= evs[i].now + f
    ensures k < |ss[n].ports| && Level(ss[n].ports[k], n, i, j, l, evs[i].now, evs[j].now, f)
  {
    if n > 0 {
      LevelAfter(ss, evs, k, f, i, j, l, n - 1);
      assert ClearStep(ss, evs, n - 1, k, f);
      var s, ev := ss[n - 1], evs[n - 1];
      if ev.EvRun? {
        LevelRun(s, ev, k, n - 1, i, j, l, evs[i].now, evs[j].now, f);
      } else {
        LevelQuiet(s, ev, k, n - 1, i, j, l, evs[i].now, evs[j].now, f);
      }
    }
  }

  /**
   A designated port that is no edge and agreed with by nobody forwards in the
   end: in any history whose runs leave the root where it is, propose nothing and
   dispute nothing, it forwards from the third of any three runs a forward delay
   apart, whatever else is received or configured.
   */
  lemma Forwards(b: Bridge, evs: seq<Event>, k: nat, f: int, i: nat, j: nat, l: nat)
    requires Inv(b) && k < |b.ports| && (forall j :: 0 <= j < |evs| ==> EventFits(|b.ports|, evs[j]))
    requires Clear(b, evs, k, f) && Three(evs, i, j, l, f) && b.ports[k].fdUntil <= evs[i].now + f
    ensures Steps(b, evs).ports[k].state == Forwarding
  {
    var ss := Bridges(b, evs);
    assert evs[..0] == [] && evs[..|evs|] == evs;
    assert ss[0] == b && ss[|evs|] == Steps(b, evs);
    forall m | 0 <= m < |evs| ensures ClearStep(ss, evs, m, k, f) {
      ClearSteps(b, evs, ss, m, k, f);
    }
    LevelAfter(ss, evs, k, f, i, j, l, |evs|);
  }
}
