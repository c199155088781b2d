/**
 Two MLAG switches and the peer-link between them, for any one MLAG id.

 Each switch ticks: it says hello if one is due, then evaluates. Hellos travel
 each way in order and without loss, within a bounded delay. Everything else
 is free: halves come and go at any moment, even between the hello and the
 evaluation of one tick; the peer-link's and the heartbeat's state change at
 will; other ids ask for hellos whenever they like.

 What is shown of every run: the device behind the two halves never gets a
 flood by both; the pair elects one primary, presents one LACP system, and
 when the peer-link fails while heartbeats live exactly the secondary is shut.
 */
module MlagPair {
  import opened MlagState
  import opened MlagTicks

  /** gapMs: how long the thread sleeps between ticks; tickMs: the longest from
      one tick to the next; delayMs: the longest a hello is under way. */
  datatype Params = Params(helloMs: int, deadMs: int, settleMs: int, gapMs: int, tickMs: int, delayMs: int)

  predicate Sensible(p: Params) {
    0 < p.helloMs && 0 < p.gapMs <= p.tickMs && 0 <= p.delayMs
  }

  /** The longest from one hello to the next: the first tick it is due at. */
  function HelloGap(p: Params): int
    requires 0 < p.gapMs
  {
    Latest(p.helloMs - 1, p.gapMs, p.tickMs) + p.tickMs
  }

  /** The longest a side may go by an acknowledgement after the last one it was
      given: until the next hello, and then for as many of its peer's ticks as
      fit in that hello's delay and one tick of its own. */
  function Reach(p: Params): int
    requires 0 < p.gapMs
  {
    HelloGap(p) + Latest(p.delayMs + p.tickMs, p.gapMs, p.tickMs)
  }

  /** A half must stay put for longer than that. */
  predicate Timely(p: Params) {
    Sensible(p) && Reach(p) < p.settleMs
  }

  /** It is no more than a hello, two ticks and the delay. */
  lemma ReachBound(p: Params)
    requires Sensible(p)
    ensures Reach(p) < p.helloMs + 2 * p.tickMs + p.delayMs
  {
  }

  datatype Msg = Msg(prio: nat, mac: nat, entry: Entry, sentAt: int)

  /** A switch, and a record of what happened to it: when it last ticked, when
      it sent each of its hellos, how many it has received; and as of its last
      evaluation, how many it had received, whether the last acknowledged it,
      and since when it held the peer's half to be down. */
  datatype Side = Side(
    base: Base, half: Half, trigger: bool, nextHello: int,
    lastTick: int, sends: seq<int>, got: nat,
    evalAck: bool, evalGot: nat, evalDownSince: int)

  /** sides[x] sends into wire[x]; sides[1 - x] receives from it. */
  datatype Pair = Pair(now: int, sides: seq<Side>, wire: seq<seq<Msg>>)

  predicate Shaped(s: Pair) {
    |s.sides| == 2 && |s.wire| == 2
  }

  type Who = x: nat | x < 2

  /** What one tick reads of the world: the half when the hello is built and
      when the evaluation runs, and the peer-link and heartbeat. */
  datatype TickEnv = TickEnv(
    activeAtSend: bool, readyAtSend: bool, active: bool, ready: bool, reloading: bool,
    otherTrigger: bool, linkUp: bool, hbConfigured: bool, hbHeard: bool)

  datatype Step =
    | Advance(ms: nat)
    | Tick(x: Who, env: TickEnv)
    | Deliver(x: Who)

  predicate SaysHello(d: Side, e: TickEnv, now: int) {
    now >= d.nextHello || d.trigger || e.otherTrigger
  }

  function HelloOf(d: Side, e: TickEnv, now: int): Msg {
    Msg(d.base.prio, d.base.mac, EntryOf(d.half, d.base.shut, e.activeAtSend, e.readyAtSend), now)
  }

  function View(e: TickEnv, p: Params, now: int): LagView {
    LagView(e.active, e.ready, e.reloading, p.settleMs, now)
  }

  /** One pass of the thread: a hello and heartbeat if due, then evaluation. */
  function TickSide(d: Side, e: TickEnv, p: Params, now: int): Side {
    var hello := SaysHello(d, e, now);
    var b0 := d.base.(lastHb := if hello && e.hbHeard then now else d.base.lastHb);
    var b := BaseEvaluate(b0, e.linkUp, e.hbConfigured, p.deadMs, now);
    Side(b, HalfEvaluate(d.half, b.alive, b.shut, View(e, p, now)),
         (d.trigger && !hello) || Triggers(d.half, b.alive, b.shut, View(e, p, now)),
         if hello then now + p.helloMs else d.nextHello,
         now, if hello then d.sends + [now] else d.sends, d.got,
         d.half.peerAck, d.got, d.half.peerDownSince)
  }

  function RxSide(d: Side, m: Msg, now: int): Side {
    d.(base := BaseRx(d.base, m.prio, m.mac, now), half := HalfRx(d.half, Listed(m.entry), now), got := d.got + 1)
  }

  /** A step the timing allows: no tick before the thread has slept, and
      nobody's tick and no hello overdue. */
  predicate Allowed(s: Pair, st: Step, p: Params)
    requires Shaped(s)
  {
    match st
    case Advance(ms) =>
      (forall x :: 0 <= x < 2 ==> s.now + ms <= s.sides[x].lastTick + p.tickMs) &&
      (forall x, i :: 0 <= x < 2 && 0 <= i < |s.wire[x]| ==> s.now + ms <= s.wire[x][i].sentAt + p.delayMs)
    case Tick(x, _) => s.now >= s.sides[x].lastTick + p.gapMs
    case Deliver(x) => s.wire[1 - x] != []
  }

  function Next(s: Pair, st: Step, p: Params): Pair
    requires Shaped(s) && Allowed(s, st, p)
  {
    match st
    case Advance(ms) => s.(now := s.now + ms)
    case Tick(x, e) =>
      var d := s.sides[x];
      s.(sides := s.sides[x := TickSide(d, e, p, s.now)],
         wire := if SaysHello(d, e, s.now) then s.wire[x := s.wire[x] + [HelloOf(d, e, s.now)]] else s.wire)
    case Deliver(x) =>
      s.(sides := s.sides[x := RxSide(s.sides[x], s.wire[1 - x][0], s.now)],
         wire := s.wire[1 - x := s.wire[1 - x][1..]])
  }

  /** MLAG just turned on: nothing heard, nothing sent, nothing evaluated. */
  predicate FreshSide(d: Side, now: int, p: Params) {
    !d.base.heard && !d.base.alive && !d.base.shut && d.base.role == NoRole && !d.base.sysSet &&
    d.half == IDLE_HALF && d.nextHello == 0 && d.lastTick <= now <= d.lastTick + p.tickMs &&
    d.sends == [] && d.got == 0 && !d.evalAck && d.evalGot == 0
  }

  /** The two threads tick each in its own time. */
  predicate Start(s: Pair, p: Params) {
    Shaped(s) && s.now > 0 && s.wire == [[], []] && FreshSide(s.sides[0], s.now, p) &&
      FreshSide(s.sides[1], s.now, p) &&
    s.sides[0].base.mac != s.sides[1].base.mac
  }

  /** A run: states one after another, each by a step the timing allows. */
  ghost predicate IsRun(run: seq<Pair>, p: Params) {
    run != [] && Start(run[0], p) &&
    forall i :: 0 < i < |run| ==> StepAt(run, i, p)
  }

  ghost predicate StepAt(run: seq<Pair>, i: nat, p: Params)
    requires 0 < i < |run|
  {
    IsStep(run[i - 1], run[i], p)
  }

  ghost predicate IsStep(s: Pair, t: Pair, p: Params) {
    Shaped(s) && exists st :: Allowed(s, st, p) && Next(s, st, p) == t
  }

  // ----- a flood never reaches the device twice -----

  /** At its last evaluation this side carried, heard its peer, and let floods
      from the peer-link out of its half... */
  predicate Lifted(d: Side) {
    d.base.alive && d.half.localUp && d.half.block == Open
  }

  /** ... or let floods from its other ports out of its half. */
  predicate Released(d: Side) {
    d.base.alive && d.half.localUp && d.half.block != FromAll
  }

  /** No flood that enters one side leaves by its half and, over the peer-link,
      by the other half too. */
  predicate NoCopies(s: Pair)
    requires Shaped(s)
  {
    forall x :: 0 <= x < 2 ==> !(Lifted(s.sides[x]) && Released(s.sides[1 - x]))
  }

  // ----- the invariant -----

  /** Every hello was sent at a tick, none long after the one before. */
  predicate Spaced(sends: seq<int>, lastTick: int, p: Params)
    requires 0 < p.gapMs
  {
    (forall i :: 0 <= i < |sends| ==> OnGrid(lastTick - sends[i], p.gapMs, p.tickMs)) &&
    forall i :: 0 < i < |sends| ==> sends[i] - sends[i - 1] <= HelloGap(p)
  }

  /** Hellos keep coming: since the last no tick went by a due time. */
  predicate Sending(s: Pair, x: Who, p: Params)
    requires Shaped(s) && 0 < p.gapMs
  {
    var d := s.sides[x];
    && d.lastTick <= s.now <= d.lastTick + p.tickMs && Spaced(d.sends, d.lastTick, p)
    && (d.sends != [] ==> d.nextHello == d.sends[|d.sends| - 1] + p.helloMs && d.lastTick < d.nextHello)
  }

  /** The hellos under way are those sent and not received, none is overdue,
      and the first not received by the other's last evaluation was not overdue
      then. */
  predicate Flowing(s: Pair, x: Who, p: Params)
    requires Shaped(s)
  {
    var w, d, y := s.wire[x], s.sides[x], s.sides[1 - x];
    && y.evalGot <= y.got && |w| + y.got == |d.sends|
    && (forall i :: 0 <= i < |w| ==> w[i].sentAt == d.sends[y.got + i] && s.now <= w[i].sentAt + p.delayMs)
    && (y.evalGot < |d.sends| ==> y.lastTick <= d.sends[y.evalGot] + p.delayMs)
  }

  /** Every acknowledgement of x's that is under way, or was the last its peer
      received, or the last its peer evaluated, was sent no later than t. */
  predicate AcksBefore(s: Pair, x: Who, t: int)
    requires Shaped(s)
  {
    var w, sends, y := s.wire[x], s.sides[x].sends, s.sides[1 - x];
    && (forall i :: 0 <= i < |w| && w[i].entry.ack ==> w[i].sentAt <= t)
    && (y.half.peerAck ==> 0 < y.got <= |sends| && sends[y.got - 1] <= t)
    && (y.evalAck ==> 0 < y.evalGot <= |sends| && sends[y.evalGot - 1] <= t)
  }

  /** What x believes of the other half, and what it has therefore said. */
  predicate Believing(s: Pair, x: Who, p: Params)
    requires Shaped(s)
  {
    var d := s.sides[x];
    && (d.half.peerDownSince != 0 ==> d.half.peerUp == 0 && d.half.peerDownSince <= s.now &&
                                      AcksBefore(s, x, d.half.peerDownSince))
    && (Lifted(d) ==> d.evalDownSince != 0 && d.lastTick - d.evalDownSince >= p.settleMs &&
                      AcksBefore(s, x, d.evalDownSince))
    && (Released(d) ==> d.evalAck)
    && (d.evalAck ==> d.evalGot > 0)
    && (d.half.peerAck ==> d.got > 0)
  }

  predicate Inv(s: Pair, p: Params) {
    Shaped(s) && 0 < p.gapMs && s.now > 0 &&
    forall x {:trigger Sending(s, x, p)} :: 0 <= x < 2 ==> Sending(s, x, p) && Flowing(s, x, p) && Believing(s, x, p)
  }

  /** However long ago its last evaluated hello was sent, its peer's last tick
      is within reach of it. */
  lemma WithinReach(s: Pair, x: Who, p: Params)
    requires Shaped(s) && Sensible(p) && Sending(s, x, p) && Sending(s, 1 - x, p) && Flowing(s, x, p)
    requires s.sides[1 - x].evalGot > 0
    ensures s.sides[1 - x].evalGot <= |s.sides[x].sends|
    ensures s.sides[x].lastTick - s.sides[x].sends[s.sides[1 - x].evalGot - 1] <= Reach(p)
  {
    var d, y := s.sides[x], s.sides[1 - x];
    var i := y.evalGot - 1;
    if y.evalGot == |d.sends| {
      LatestIsBound(d.lastTick - d.sends[i], p.helloMs - 1, p.gapMs, p.tickMs);
      LatestNotNegative(p);
    } else {
      LatestIsBound(d.lastTick - d.sends[i + 1], p.delayMs + p.tickMs, p.gapMs, p.tickMs);
      assert d.sends[i + 1] - d.sends[i] <= HelloGap(p);
    }
  }

  lemma LatestNotNegative(p: Params)
    requires Sensible(p)
    ensures 0 <= Latest(p.delayMs + p.tickMs, p.gapMs, p.tickMs) && 0 <= Latest(p.helloMs - 1, p.gapMs, p.tickMs)
  {
    LatestOnGrid(p.delayMs + p.tickMs, p.gapMs, p.tickMs);
    LatestOnGrid(p.helloMs - 1, p.gapMs, p.tickMs);
  }

  lemma NotBoth(s: Pair, x: Who, p: Params)
    requires Shaped(s) && Timely(p)
    requires Sending(s, x, p) && Sending(s, 1 - x, p) && Flowing(s, x, p) && Believing(s, x, p) &&
      Believing(s, 1 - x, p)
    ensures !(Lifted(s.sides[x]) && Released(s.sides[1 - x]))
  {
    if s.sides[1 - x].evalGot > 0 {
      WithinReach(s, x, p);
    }
  }

  /** Under the invariant no flood is copied. */
  lemma InvIsSafe(s: Pair, p: Params)
    requires Timely(p) && Inv(s, p)
    ensures NoCopies(s)
  {
    assert Sending(s, 0, p) && Sending(s, 1, p);
    NotBoth(s, 0, p);
    NotBoth(s, 1, p);
  }

  lemma StartInv(s: Pair, p: Params)
    requires Start(s, p) && Sensible(p)
    ensures Inv(s, p)
  {
    forall x: Who ensures Sending(s, x, p) && Flowing(s, x, p) && Believing(s, x, p) {
    }
  }

  lemma AdvanceKeeps(s: Pair, ms: nat, p: Params)
    requires Inv(s, p) && Sensible(p) && Allowed(s, Advance(ms), p)
    ensures Inv(Next(s, Advance(ms), p), p)
  {
    var t := Next(s, Advance(ms), p);
    forall x: Who ensures Sending(t, x, p) && Flowing(t, x, p) && Believing(t, x, p) {
      assert Sending(s, x, p);
    }
  }

  // ----- a delivery -----

  lemma DeliverSending(s: Pair, x: Who, p: Params)
    requires Inv(s, p) && Sensible(p) && Allowed(s, Deliver(x), p)
    ensures var t := Next(s, Deliver(x), p); Sending(t, x, p) && Sending(t, 1 - x, p) && Flowing(t, x, p)
  {
    assert Sending(s, x, p) && Sending(s, 1 - x, p);
    var t := Next(s, Deliver(x), p);
    assert t.wire[x] == s.wire[x] && t.sides[1 - x] == s.sides[1 - x];
    assert t.sides[x].sends == s.sides[x].sends && t.sides[x].lastTick == s.sides[x].lastTick;
    assert t.sides[x].nextHello == s.sides[x].nextHello;
  }

  /** The hello delivered is the next received. */
  lemma DeliverFlowing(s: Pair, x: Who, p: Params)
    requires Inv(s, p) && Sensible(p) && Allowed(s, Deliver(x), p)
    ensures Flowing(Next(s, Deliver(x), p), 1 - x, p)
  {
    assert Sending(s, 1 - x, p);
    var t := Next(s, Deliver(x), p);
    var w, w' := s.wire[1 - x], t.wire[1 - x];
    assert w' == w[1..] && forall i :: 0 <= i < |w'| ==> w'[i] == w[i + 1];
    assert t.sides[x].got == s.sides[x].got + 1 && t.sides[1 - x] == s.sides[1 - x];
  }

  lemma DeliverBelieving(s: Pair, x: Who, p: Params)
    requires Inv(s, p) && Sensible(p) && Allowed(s, Deliver(x), p)
    ensures Believing(Next(s, Deliver(x), p), x, p)
  {
    assert Sending(s, x, p) && Sending(s, 1 - x, p);
    var t := Next(s, Deliver(x), p);
    assert t.wire[x] == s.wire[x] && t.sides[1 - x] == s.sides[1 - x];
    var d := s.sides[x];
    if d.half.peerDownSince == 0 && t.sides[x].half.peerDownSince != 0 {
      AllSentByNow(s, x, p);
    }
  }

  /** Nothing has been sent later than now. */
  lemma AllSentByNow(s: Pair, x: Who, p: Params)
    requires Inv(s, p) && Sensible(p)
    ensures AcksBefore(s, x, s.now)
  {
    assert Sending(s, x, p) && Sending(s, 1 - x, p);
    var d := s.sides[x];
    assert forall i :: 0 <= i < |d.sends| ==> OnGrid(d.lastTick - d.sends[i], p.gapMs, p.tickMs);
  }

  lemma DeliverAcks(s: Pair, x: Who, p: Params, t0: int)
    requires Inv(s, p) && Allowed(s, Deliver(x), p) && AcksBefore(s, 1 - x, t0)
    ensures AcksBefore(Next(s, Deliver(x), p), 1 - x, t0)
  {
    assert Sending(s, 1 - x, p);
    var t := Next(s, Deliver(x), p);
    assert t.sides[1 - x] == s.sides[1 - x] && t.wire[1 - x] == s.wire[1 - x][1..];
  }

  lemma DeliverBelievingPeer(s: Pair, x: Who, p: Params)
    requires Inv(s, p) && Sensible(p) && Allowed(s, Deliver(x), p)
    ensures Believing(Next(s, Deliver(x), p), 1 - x, p)
  {
    assert Sending(s, x, p) && Sending(s, 1 - x, p);
    var d := s.sides[1 - x];
    if d.half.peerDownSince != 0 {
      DeliverAcks(s, x, p, d.half.peerDownSince);
    }
    if Lifted(d) {
      DeliverAcks(s, x, p, d.evalDownSince);
    }
  }

  lemma DeliverKeeps(s: Pair, x: Who, p: Params)
    requires Inv(s, p) && Sensible(p) && Allowed(s, Deliver(x), p)
    ensures Inv(Next(s, Deliver(x), p), p)
  {
    DeliverSending(s, x, p);
    DeliverFlowing(s, x, p);
    DeliverBelieving(s, x, p);
    DeliverBelievingPeer(s, x, p);
    var t := Next(s, Deliver(x), p);
    forall z: Who ensures Sending(t, z, p) && Flowing(t, z, p) && Believing(t, z, p) {
      assert z == x || z == 1 - x;
    }
  }

  // ----- a tick -----

  /** A tick keeps to the grid... */
  lemma SpacedTick(sends: seq<int>, lastTick: int, now: int, p: Params)
    requires Sensible(p) && Spaced(sends, lastTick, p) && lastTick + p.gapMs <= now <= lastTick + p.tickMs
    ensures Spaced(sends, now, p)
  {
    forall i | 0 <= i < |sends| ensures OnGrid(now - sends[i], p.gapMs, p.tickMs) {
      NextTick(lastTick - sends[i], now - lastTick, p.gapMs, p.tickMs);
    }
  }

  /** ... and a hello follows the last within its gap. */
  lemma SpacedSend(sends: seq<int>, lastTick: int, now: int, p: Params)
    requires Sensible(p) && Spaced(sends, lastTick, p) && Spaced(sends, now, p) && now <= lastTick + p.tickMs
    requires sends != [] ==> lastTick < sends[|sends| - 1] + p.helloMs
    ensures Spaced(sends + [now], now, p)
  {
    if sends != [] {
      LatestIsBound(lastTick - sends[|sends| - 1], p.helloMs - 1, p.gapMs, p.tickMs);
    }
    var all := sends + [now];
    forall i | 0 < i < |all| ensures all[i] - all[i - 1] <= HelloGap(p) {
      assert i < |sends| ==> sends[i] - sends[i - 1] <= HelloGap(p);
    }
  }

  lemma TickSending(s: Pair, x: Who, e: TickEnv, p: Params)
    requires Inv(s, p) && Sensible(p) && Allowed(s, Tick(x, e), p)
    ensures var t := Next(s, Tick(x, e), p); Sending(t, x, p) && Sending(t, 1 - x, p)
  {
    assert Sending(s, x, p) && Sending(s, 1 - x, p);
    var t, d := Next(s, Tick(x, e), p), s.sides[x];
    assert t.sides[1 - x] == s.sides[1 - x];
    SpacedTick(d.sends, d.lastTick, s.now, p);
    SpacedSend(d.sends, d.lastTick, s.now, p);
  }

  lemma TickFlowing(s: Pair, x: Who, e: TickEnv, p: Params)
    requires Inv(s, p) && Sensible(p) && Allowed(s, Tick(x, e), p)
    ensures Flowing(Next(s, Tick(x, e), p), x, p)
  {
    assert Sending(s, x, p) && Sending(s, 1 - x, p);
    var t, d := Next(s, Tick(x, e), p), s.sides[x];
    assert t.sides[1 - x] == s.sides[1 - x];
    var w, w' := s.wire[x], t.wire[x];
    assert forall i :: 0 <= i < |w| ==> w'[i] == w[i];
    assert forall i :: 0 <= i < |d.sends| ==> t.sides[x].sends[i] == d.sends[i];
  }

  lemma TickFlowingPeer(s: Pair, x: Who, e: TickEnv, p: Params)
    requires Inv(s, p) && Sensible(p) && Allowed(s, Tick(x, e), p)
    ensures Flowing(Next(s, Tick(x, e), p), 1 - x, p)
  {
    assert Sending(s, 1 - x, p);
    var t := Next(s, Tick(x, e), p);
    assert t.wire[1 - x] == s.wire[1 - x] && t.sides[1 - x] == s.sides[1 - x];
    assert t.sides[x].got == s.sides[x].got == t.sides[x].evalGot;
    var w := s.wire[1 - x];
    assert w != [] ==> w[0].sentAt == s.sides[1 - x].sends[s.sides[x].got];
  }

  /** A side that has heard the other half go down, or has lifted its block,
      acknowledges nothing. */
  lemma TickAcks(s: Pair, x: Who, e: TickEnv, p: Params, t0: int)
    requires Shaped(s) && Allowed(s, Tick(x, e), p) && AcksBefore(s, x, t0)
    requires s.sides[x].half.peerUp == 0 || Lifted(s.sides[x])
    ensures AcksBefore(Next(s, Tick(x, e), p), x, t0)
  {
    var t := Next(s, Tick(x, e), p);
    assert t.sides[1 - x] == s.sides[1 - x];
    assert !HelloOf(s.sides[x], e, s.now).entry.ack;
  }

  /** What an evaluation decides rests on what the side knew. */
  lemma TickRests(d: Side, e: TickEnv, p: Params, now: int)
    ensures var q := TickSide(d, e, p, now);
      && (Lifted(q) ==> d.half.peerDownSince != 0 && now - d.half.peerDownSince >= p.settleMs)
      && (Released(q) ==> d.half.peerAck)
      && q.half.peerAck == d.half.peerAck && q.half.peerUp == d.half.peerUp
      && q.half.peerDownSince == d.half.peerDownSince && q.got == d.got && q.lastTick == now
      && q.evalAck == d.half.peerAck && q.evalGot == d.got && q.evalDownSince == d.half.peerDownSince
  {
  }

  lemma TickBelieving(s: Pair, x: Who, e: TickEnv, p: Params)
    requires Inv(s, p) && Sensible(p) && Allowed(s, Tick(x, e), p)
    ensures Believing(Next(s, Tick(x, e), p), x, p)
  {
    assert Sending(s, x, p) && Sending(s, 1 - x, p);
    TickRests(s.sides[x], e, p, s.now);
    if s.sides[x].half.peerDownSince != 0 {
      TickAcks(s, x, e, p, s.sides[x].half.peerDownSince);
    }
  }

  /** What the peer has said is not changed by evaluating it. */
  lemma TickAcksPeer(s: Pair, x: Who, e: TickEnv, p: Params, t0: int)
    requires Shaped(s) && Allowed(s, Tick(x, e), p) && AcksBefore(s, 1 - x, t0)
    ensures AcksBefore(Next(s, Tick(x, e), p), 1 - x, t0)
  {
    TickRests(s.sides[x], e, p, s.now);
    var t := Next(s, Tick(x, e), p);
    assert t.wire[1 - x] == s.wire[1 - x] && t.sides[1 - x] == s.sides[1 - x];
  }

  lemma TickBelievingPeer(s: Pair, x: Who, e: TickEnv, p: Params)
    requires Inv(s, p) && Sensible(p) && Allowed(s, Tick(x, e), p)
    ensures Believing(Next(s, Tick(x, e), p), 1 - x, p)
  {
    assert Sending(s, 1 - x, p);
    var d := s.sides[1 - x];
    assert Next(s, Tick(x, e), p).sides[1 - x] == d;
    if d.half.peerDownSince != 0 {
      TickAcksPeer(s, x, e, p, d.half.peerDownSince);
    }
    if Lifted(d) {
      TickAcksPeer(s, x, e, p, d.evalDownSince);
    }
  }

  lemma TickKeeps(s: Pair, x: Who, e: TickEnv, p: Params)
    requires Inv(s, p) && Sensible(p) && Allowed(s, Tick(x, e), p)
    ensures Inv(Next(s, Tick(x, e), p), p)
  {
    TickSending(s, x, e, p);
    TickFlowing(s, x, e, p);
    TickFlowingPeer(s, x, e, p);
    TickBelieving(s, x, e, p);
    TickBelievingPeer(s, x, e, p);
    var t := Next(s, Tick(x, e), p);
    forall z: Who ensures Sending(t, z, p) && Flowing(t, z, p) && Believing(t, z, p) {
      assert z == x || z == 1 - x;
    }
  }

  lemma StepKeeps(s: Pair, t: Pair, p: Params)
    requires Inv(s, p) && Sensible(p) && IsStep(s, t, p)
    ensures Inv(t, p)
  {
    var st :| Allowed(s, st, p) && Next(s, st, p) == t;
    match st
    case Advance(ms) => AdvanceKeeps(s, ms, p);
    case Tick(x, e) => TickKeeps(s, x, e, p);
    case Deliver(x) => DeliverKeeps(s, x, p);
  }

  /** In every state of every run no flood is copied, if a half must stay put
      for longer than an acknowledgement can be gone by. */
  lemma {:induction false} FloodsArriveOnce(run: seq<Pair>, p: Params, i: nat)
    requires IsRun(run, p) && Timely(p) && i < |run|
    ensures Inv(run[i], p) && NoCopies(run[i])
  {
    if i == 0 {
      StartInv(run[0], p);
    } else {
      FloodsArriveOnce(run, p, i - 1);
      assert StepAt(run, i, p);
      StepKeeps(run[i - 1], run[i], p);
    }
    InvIsSafe(run[i], p);
  }
}
