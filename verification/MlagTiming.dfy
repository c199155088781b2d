/**
 How long a half must stay put, exactly. If an acknowledgement can be gone by
 for as long as the settling time, there is a run in which a flood gets to the
 device twice: a half goes down and comes back at its side's last tick before
 the other lifts its block, its side still going by an acknowledgement from when
 it went. Every tick of that run follows the one before by at least the sleep and
 at most the longest tick.
 */
module MlagTiming {
  import opened MlagState
  import opened MlagTicks
  import opened MlagPair

  /** A side whose thread last ticked then. */
  function Idle(mac: nat, lastTick: int): Side {
    Side(Base(mac, 1, false, 0, 0, 0, 0, false, 0, NoRole, false, false, false), IDLE_HALF, false, 0,
         lastTick, [], 0, false, 0, 0)
  }

  function Begin(p: Params): Pair {
    Pair(1, [Idle(10, 1 - p.gapMs), Idle(20, 1)], [[], []])
  }

  /** The peer-link is up; the half is so at the hello and so at the
      evaluation; other ids ask for a hello or not. */
  function Look(activeAtSend: bool, readyAtSend: bool, active: bool, other: bool): TickEnv {
    TickEnv(activeAtSend, readyAtSend, active, true, false, other, true, false, false)
  }

  function Last(run: seq<Pair>): Pair
    requires run != []
  {
    run[|run| - 1]
  }

  /** One more step of a run. */
  lemma Extend(run: seq<Pair>, p: Params, st: Step) returns (longer: seq<Pair>)
    requires IsRun(run, p) && Shaped(Last(run)) && Allowed(Last(run), st, p)
    ensures IsRun(longer, p) && longer != [] && Last(longer) == Next(Last(run), st, p)
  {
    var s := Last(run);
    longer := run + [Next(s, st, p)];
    forall i | 0 < i < |longer| ensures StepAt(longer, i, p) {
      if i < |run| {
        assert StepAt(run, i, p);
      } else {
        assert IsStep(s, Next(s, st, p), p);
      }
    }
  }

  /** A side says hello and evaluates, and the other hears it. */
  lemma Talk(run: seq<Pair>, p: Params, x: Who, e: TickEnv) returns (longer: seq<Pair>)
    requires IsRun(run, p) && Shaped(Last(run)) && Last(run).wire[x] == []
    requires SaysHello(Last(run).sides[x], e, Last(run).now) && Last(run).now >= Last(run).sides[x].lastTick + p.gapMs
    ensures IsRun(longer, p) && longer != []
    ensures var s, t := Last(run), Last(longer);
      Shaped(t) && t.wire == s.wire && t.now == s.now && t.sides[x] == TickSide(s.sides[x], e, p, s.now) &&
      t.sides[1 - x] == RxSide(s.sides[1 - x], HelloOf(s.sides[x], e, s.now), s.now)
  {
    var s := Last(run);
    longer := Extend(run, p, Tick(x, e));
    assert Last(longer).wire[x] == [HelloOf(s.sides[x], e, s.now)];
    longer := Extend(longer, p, Deliver(1 - x));
    assert Last(longer).wire[x] == [];
  }

  // ----- the two sides while the second's half is down -----

  /** The first side: it carries, keeps the peer-link's floods off, has heard
      the peer's half go down at t0, and still has its acknowledgement. */
  predicate Watching(d: Side, t0: int) {
    d.base.heard && !d.base.shut && d.base.lastLink >= t0 && !d.trigger &&
    d.half.localUp && d.half.localUpSince <= t0 && d.half.localReady && d.half.peerUp == 0 && d.half.peerAck &&
    d.half.peerDownSince == t0 && d.half.block == FromPeerLink
  }

  /** The second: its half is down, and by an acknowledgement heard at t0 it may
      carry again. */
  predicate Lurking(d: Side, t0: int) {
    d.base.heard && !d.base.shut && d.base.lastLink == t0 &&
    !d.half.localUp && d.half.peerUp >= 1 && d.half.peerAck && d.half.peerDownSince == 0
  }

  /** What the first has said since t0 is still under way, none of it from
      before t2. */
  ghost predicate Stage(s: Pair, t0: int, t2: int, p: Params) {
    Shaped(s) && 0 < t0 <= s.now && s.wire[1] == [] &&
    Watching(s.sides[0], t0) && Lurking(s.sides[1], t0) && s.sides[0].nextHello >= t0 + p.helloMs &&
    forall i :: 0 <= i < |s.wire[0]| ==> s.wire[0][i].sentAt >= t2
  }

  const STEADY := Look(true, true, true, false)

  /** The half down, and the half come back once a hello, if one was due, has
      been sent. */
  const DOWN := TickEnv(false, false, false, false, false, false, true, false, false)
  const RISE := Look(false, false, true, false)

  lemma LurkingGoesOn(d: Side, t0: int, p: Params, now: int)
    requires Lurking(d, t0) && t0 <= now < t0 + p.deadMs
    ensures Lurking(TickSide(d, DOWN, p, now), t0) && HelloOf(d, DOWN, now).entry == Entry(0, true)
  {
  }

  lemma LurkingRises(d: Side, t0: int, p: Params, now: int)
    requires Lurking(d, t0) && t0 <= now < t0 + p.deadMs
    ensures Released(TickSide(d, RISE, p, now)) && HelloOf(d, RISE, now).entry == Entry(0, true)
  {
  }

  lemma WatchingGoesOn(d: Side, t0: int, p: Params, now: int)
    requires Watching(d, t0) && 0 < t0 <= now < t0 + p.deadMs && now < t0 + p.settleMs
    ensures Watching(TickSide(d, STEADY, p, now), t0)
    ensures SaysHello(d, STEADY, now) <==> now >= d.nextHello
  {
  }

  lemma WatchingHears(d: Side, t0: int, m: Msg, now: int)
    requires Watching(d, t0) && t0 <= now && m.entry == Entry(0, true) && 0 < t0
    ensures Watching(RxSide(d, m, now), t0)
  {
  }

  lemma WatchingLifts(d: Side, t0: int, p: Params, now: int)
    requires Watching(d, t0) && 0 < t0 && t0 + p.settleMs <= now < t0 + p.deadMs && 0 <= p.settleMs
    ensures Lifted(TickSide(d, STEADY, p, now))
  {
  }

  /** The second side's turn, at a time. */
  lemma SecondTurn(run: seq<Pair>, p: Params, t0: int, t2: int, at: int, e: TickEnv) returns (longer: seq<Pair>)
    requires IsRun(run, p) && Sensible(p) && Stage(Last(run), t0, t2, p) && Last(run).now <= at < t0 + p.deadMs
    requires Last(run).sides[1].lastTick + p.gapMs <= at <= Last(run).sides[1].lastTick + p.tickMs
    requires at <= Last(run).sides[0].lastTick + p.tickMs && at <= t2 + p.delayMs
    requires HelloOf(Last(run).sides[1], e, at).entry == Entry(0, true)
    ensures IsRun(longer, p) && longer != [] && Shaped(Last(longer)) && Last(longer).now == at
    ensures Last(longer).wire == Last(run).wire && Watching(Last(longer).sides[0], t0)
    ensures Last(longer).sides[0].lastTick == Last(run).sides[0].lastTick
    ensures Last(longer).sides[0].nextHello == Last(run).sides[0].nextHello
    ensures Last(longer).sides[1] == TickSide(Last(run).sides[1], e, p, at)
  {
    longer := Extend(run, p, Advance(at - Last(run).now));
    var s := Last(longer);
    WatchingHears(s.sides[0], t0, HelloOf(s.sides[1], e, at), at);
    if SaysHello(s.sides[1], e, at) {
      longer := Talk(longer, p, 1, e);
    } else {
      longer := Extend(longer, p, Tick(1, e));
      assert Last(longer).sides[0] == s.sides[0];
    }
  }

  /** The first side's turn, before it can lift: what it says stays under way. */
  lemma FirstTicks(run: seq<Pair>, p: Params, t0: int, t2: int, at: int) returns (longer: seq<Pair>)
    requires IsRun(run, p) && Sensible(p) && Stage(Last(run), t0, t2, p) && Last(run).now <= at < t0 + p.deadMs
    requires Last(run).sides[0].lastTick + p.gapMs <= at <= Last(run).sides[0].lastTick + p.tickMs
    requires at <= Last(run).sides[1].lastTick + p.tickMs && at <= t2 + p.delayMs
    requires at < t0 + p.settleMs && (at < t0 + p.helloMs || at >= t2)
    ensures IsRun(longer, p) && longer != [] && Stage(Last(longer), t0, t2, p) && Last(longer).now == at
    ensures Last(longer).sides[0].lastTick == at && Last(longer).sides[1].lastTick == Last(run).sides[1].lastTick
  {
    longer := Extend(run, p, Advance(at - Last(run).now));
    var s := Last(longer);
    WatchingGoesOn(s.sides[0], t0, p, at);
    longer := Extend(longer, p, Tick(0, STEADY));
    assert Last(longer).wire[1] == [] && Last(longer).sides[1] == s.sides[1];
  }

  /** Everything under way arrives; nobody has evaluated it yet. */
  lemma {:induction false} Arrive(run: seq<Pair>, p: Params) returns (longer: seq<Pair>)
    requires IsRun(run, p) && Shaped(Last(run)) && Last(run).wire[1] == [] && Released(Last(run).sides[1])
    ensures IsRun(longer, p) && longer != [] && Shaped(Last(longer)) && Last(longer).wire == [[], []]
    ensures Last(longer).now == Last(run).now && Last(longer).sides[0] == Last(run).sides[0]
    ensures Released(Last(longer).sides[1]) && Last(longer).sides[1].lastTick == Last(run).sides[1].lastTick
    decreases |Last(run).wire[0]|
  {
    if Last(run).wire[0] == [] {
      longer := run;
      assert Last(run).wire == [[], []];
    } else {
      longer := Extend(run, p, Deliver(1));
      longer := Arrive(longer, p);
    }
  }

  /** The first of these times no earlier than t. */
  function FirstFrom(ts: seq<int>, t: int): int
    requires ts != [] && t <= End(0, ts)
    decreases ts
  {
    if ts[0] >= t then ts[0] else FirstFrom(ts[1..], t)
  }

  lemma {:induction false} FirstFromIn(ts: seq<int>, t: int)
    requires ts != [] && t <= End(0, ts)
    ensures FirstFrom(ts, t) in ts && t <= FirstFrom(ts, t)
    decreases ts
  {
    if ts[0] < t {
      FirstFromIn(ts[1..], t);
    }
  }

  /** The first side's turn, once everything has arrived. */
  lemma FirstHears(run: seq<Pair>, p: Params, at: int) returns (longer: seq<Pair>)
    requires IsRun(run, p) && Shaped(Last(run)) && Last(run).wire[1] == [] && Released(Last(run).sides[1])
    requires Last(run).now <= at && Last(run).sides[0].lastTick + p.gapMs <= at
    requires at <= Last(run).sides[0].lastTick + p.tickMs && at <= Last(run).sides[1].lastTick + p.tickMs
    ensures IsRun(longer, p) && longer != [] && Shaped(Last(longer)) && Last(longer).now == at
    ensures Last(longer).wire[1] == [] && Released(Last(longer).sides[1])
    ensures Last(longer).sides[1].lastTick == Last(run).sides[1].lastTick
    ensures Last(longer).sides[0] == TickSide(Last(run).sides[0], STEADY, p, at)
  {
    longer := Arrive(run, p);
    longer := Extend(longer, p, Advance(at - Last(run).now));
    var s := Last(longer);
    longer := Extend(longer, p, Tick(0, STEADY));
    assert Last(longer).sides[1] == s.sides[1] && Last(longer).wire[1] == [];
  }

  /** The second side does not tick again: the first goes on until it lifts. */
  lemma {:induction false} Finish(run: seq<Pair>, p: Params, t0: int, ticks: seq<int>) returns (longer: seq<Pair>)
    requires IsRun(run, p) && Sensible(p) && 0 <= p.settleMs && Shaped(Last(run)) && 0 < t0 <= Last(run).now
    requires Last(run).wire[1] == [] && Watching(Last(run).sides[0], t0) && Released(Last(run).sides[1])
    requires ticks != [] && Last(run).now <= ticks[0]
    requires Timetable(Last(run).sides[0].lastTick, ticks, p.gapMs, p.tickMs)
    requires t0 + p.settleMs <= End(0, ticks) < t0 + p.deadMs
    requires FirstFrom(ticks, t0 + p.settleMs) <= Last(run).sides[1].lastTick + p.tickMs
    ensures IsRun(longer, p) && longer != [] && Shaped(Last(longer)) && !NoCopies(Last(longer))
    decreases |ticks|
  {
    Within(Last(run).sides[0].lastTick, ticks, p.gapMs, p.tickMs);
    var at := ticks[0];
    assert at in ticks;
    if at < t0 + p.settleMs {
      FirstFromIn(ticks[1..], t0 + p.settleMs);
    }
    longer := FirstHears(run, p, at);
    var d, t := Last(run).sides[0], Last(longer);
    if at >= t0 + p.settleMs {
      WatchingLifts(d, t0, p, at);
      assert Lifted(t.sides[0]) && Released(t.sides[1 - 0]);
    } else {
      WatchingGoesOn(d, t0, p, at);
      Within(at, ticks[1..], p.gapMs, p.tickMs);
      longer := Finish(longer, p, t0, ticks[1..]);
    }
  }

  /** The second side's half stays down... */
  lemma SecondWaits(run: seq<Pair>, p: Params, t0: int, t2: int, at: int) returns (longer: seq<Pair>)
    requires IsRun(run, p) && Sensible(p) && Stage(Last(run), t0, t2, p) && Last(run).now <= at < t0 + p.deadMs
    requires Last(run).sides[1].lastTick + p.gapMs <= at <= Last(run).sides[1].lastTick + p.tickMs
    requires at <= Last(run).sides[0].lastTick + p.tickMs && at <= t2 + p.delayMs
    ensures IsRun(longer, p) && longer != [] && Stage(Last(longer), t0, t2, p) && Last(longer).now == at
    ensures Last(longer).sides[1].lastTick == at && Last(longer).sides[0].lastTick == Last(run).sides[0].lastTick
  {
    LurkingGoesOn(Last(run).sides[1], t0, p, at);
    longer := SecondTurn(run, p, t0, t2, at, DOWN);
  }

  /** ... until its last tick before the first side lifts. */
  lemma SecondRises(run: seq<Pair>, p: Params, t0: int, t2: int, at: int, first: seq<int>) returns (longer: seq<Pair>)
    requires IsRun(run, p) && Sensible(p) && 0 <= p.settleMs && Stage(Last(run), t0, t2, p)
    requires Last(run).now <= at < t0 + p.deadMs
    requires Last(run).sides[1].lastTick + p.gapMs <= at <= Last(run).sides[1].lastTick + p.tickMs
    requires first != [] && at <= first[0] && at <= t2 + p.delayMs
    requires Timetable(Last(run).sides[0].lastTick, first, p.gapMs, p.tickMs)
    requires t0 + p.settleMs <= End(0, first) < t0 + p.deadMs
    requires FirstFrom(first, t0 + p.settleMs) <= at + p.tickMs
    ensures IsRun(longer, p) && longer != [] && Shaped(Last(longer)) && !NoCopies(Last(longer))
  {
    LurkingRises(Last(run).sides[1], t0, p, at);
    longer := SecondTurn(run, p, t0, t2, at, RISE);
    longer := Finish(longer, p, t0, first);
  }

  /** Both sides tick by their timetables, the second first where they tick
      together, until the first lifts its block. */
  lemma {:induction false} Play(run: seq<Pair>, p: Params, t0: int, t2: int, first: seq<int>, second: seq<int>)
    returns (longer: seq<Pair>)
    requires IsRun(run, p) && Sensible(p) && 0 <= p.settleMs && Stage(Last(run), t0, t2, p)
    requires Timetable(Last(run).sides[0].lastTick, first, p.gapMs, p.tickMs)
    requires first != [] && Last(run).now <= first[0]
    requires Timetable(Last(run).sides[1].lastTick, second, p.gapMs, p.tickMs)
    requires second != [] && Last(run).now <= second[0] && End(0, second) <= t2 + p.delayMs
    requires End(0, first) <= End(0, second) + p.tickMs
    requires t0 + p.settleMs <= End(0, first) < t0 + p.deadMs
    requires second[0] <= FirstFrom(first, t0 + p.settleMs)
    requires forall t :: t in first ==> t < t0 + p.helloMs || t >= t2
    ensures IsRun(longer, p) && longer != [] && Shaped(Last(longer)) && !NoCopies(Last(longer))
    decreases |first| + |second|
  {
    var d := Last(run).sides;
    Within(d[0].lastTick, first, p.gapMs, p.tickMs);
    Within(d[1].lastTick, second, p.gapMs, p.tickMs);
    FirstFromIn(first, t0 + p.settleMs);
    assert first[0] in first && second[0] in second;
    if second[0] > first[0] {
      assert forall t :: t in first[1..] ==> t in first;
      longer := FirstTicks(run, p, t0, t2, first[0]);
      longer := Play(longer, p, t0, t2, first[1..], second);
    } else if |second| == 1 || second[1] > FirstFrom(first, t0 + p.settleMs) {
      longer := SecondRises(run, p, t0, t2, second[0], first);
    } else {
      longer := SecondWaits(run, p, t0, t2, second[0]);
      longer := Play(longer, p, t0, t2, first, second[1..]);
    }
  }

  // ----- how it comes to that -----

  /** A side that has heard its peer just now, and its half. */
  predicate Hearing(d: Side, half: Half, now: int) {
    d.half == half && d.base.heard && !d.base.shut && d.base.lastLink == now
  }

  predicate Calm(s: Pair, now: int) {
    Shaped(s) && s.now == now && s.wire == [[], []]
  }

  /** One sleep in, the first side, ready, has greeted, and the second has
      carried, blocked, and acknowledged. */
  lemma Greeting(p: Params) returns (run: seq<Pair>)
    requires Sensible(p) && p.gapMs < p.deadMs
    ensures IsRun(run, p) && run != [] && Calm(Last(run), 1 + p.gapMs)
    ensures Hearing(Last(run).sides[0], Half(false, 0, true, 2, true, true, 0, Open, HoldNone), 1 + p.gapMs)
    ensures Last(run).sides[0].lastTick == 1 && Last(run).sides[1].lastTick == 1 + p.gapMs
    ensures Hearing(Last(run).sides[1], Half(true, 1 + p.gapMs, true, 1, true, false, 0, FromAll, HoldPeer), 1)
  {
    run := [Begin(p)];
    run := Talk(run, p, 0, Look(false, true, false, true));
    run := Extend(run, p, Advance(p.gapMs));
    run := Talk(run, p, 1, Look(true, true, true, true));
  }

  /** The first carries, and acknowledges; one sleep later again, and the
      second releases its floods. */
  lemma Carrying(run: seq<Pair>, p: Params) returns (longer: seq<Pair>)
    requires Sensible(p) && p.gapMs < p.deadMs && IsRun(run, p) && Calm(Last(run), 1 + p.gapMs)
    requires Hearing(Last(run).sides[0], Half(false, 0, true, 2, true, true, 0, Open, HoldNone), 1 + p.gapMs)
    requires Last(run).sides[0].lastTick == 1 && Last(run).sides[1].lastTick == 1 + p.gapMs
    requires Hearing(Last(run).sides[1], Half(true, 1 + p.gapMs, true, 1, true, false, 0, FromAll, HoldPeer), 1)
    ensures IsRun(longer, p) && longer != [] && Calm(Last(longer), 1 + 2 * p.gapMs)
    ensures var t1, a, b := 1 + 2 * p.gapMs, Last(longer).sides[0], Last(longer).sides[1];
      Hearing(a, Half(true, 1 + p.gapMs, true, 2, true, true, 0, FromPeerLink, HoldNone), 1 + p.gapMs) &&
      Hearing(b, Half(true, 1 + p.gapMs, true, 2, true, true, 0, FromAll, HoldPeer), t1) &&
      a.lastTick == t1 && b.lastTick == 1 + p.gapMs
  {
    longer := Talk(run, p, 0, Look(true, true, true, true));
    longer := Extend(longer, p, Advance(p.gapMs));
    longer := Talk(longer, p, 0, Look(true, true, true, true));
  }

  lemma Releasing(run: seq<Pair>, p: Params) returns (longer: seq<Pair>)
    requires Sensible(p) && p.gapMs < p.deadMs && IsRun(run, p) && Calm(Last(run), 1 + 2 * p.gapMs)
    requires Hearing(Last(run).sides[0],
                     Half(true, 1 + p.gapMs, true, 2, true, true, 0, FromPeerLink, HoldNone), 1 + p.gapMs)
    requires Hearing(Last(run).sides[1],
                     Half(true, 1 + p.gapMs, true, 2, true, true, 0, FromAll, HoldPeer), 1 + 2 * p.gapMs)
    requires Last(run).sides[0].lastTick == 1 + 2 * p.gapMs && Last(run).sides[1].lastTick == 1 + p.gapMs
    ensures IsRun(longer, p) && longer != [] && Calm(Last(longer), 1 + 3 * p.gapMs)
    ensures var t0, a, b := 1 + 3 * p.gapMs, Last(longer).sides[0], Last(longer).sides[1];
      Hearing(a, Half(true, 1 + p.gapMs, true, 2, true, true, 0, FromPeerLink, HoldNone), 1 + 2 * p.gapMs) &&
      Hearing(b, Half(true, 1 + p.gapMs, true, 2, true, true, 0, FromPeerLink, HoldNone), t0) && b.trigger &&
      a.lastTick == t0 && b.lastTick == 1 + 2 * p.gapMs && !a.trigger && a.nextHello == t0 + p.helloMs
  {
    longer := Talk(run, p, 1, Look(true, true, true, true));
    longer := Extend(longer, p, Advance(p.gapMs));
    longer := Talk(longer, p, 0, Look(true, true, true, true));
  }

  /** And the second's half goes down. */
  lemma Opening(p: Params, t2: int) returns (run: seq<Pair>)
    requires Sensible(p) && p.gapMs < p.deadMs
    ensures IsRun(run, p) && run != [] && Stage(Last(run), 1 + 3 * p.gapMs, t2, p)
    ensures var t0 := 1 + 3 * p.gapMs;
      Last(run).now == t0 && Last(run).sides[0].lastTick == t0 && Last(run).sides[1].lastTick == t0
  {
    run := Greeting(p);
    run := Carrying(run, p);
    run := Releasing(run, p);
    run := Talk(run, p, 1, DOWN);
  }

  // ----- the timetables -----

  /** The first side ticks as late as it can before its hello is due, then once
      more, saying it, and then as late as fits; the second makes its last tick
      one tick before that. */
  lemma Timetables(p: Params, t0: int) returns (first: seq<int>, second: seq<int>)
    requires Sensible(p)
    ensures Timetable(t0, first, p.gapMs, p.tickMs) && Timetable(t0, second, p.gapMs, p.tickMs)
    ensures first != [] && first[0] >= t0 && End(t0, first) == t0 + Reach(p) == End(t0, second) + p.tickMs
    ensures End(t0, second) <= t0 + HelloGap(p) + p.delayMs && second != [] && t0 <= second[0] <= first[0]
    ensures forall t :: t in first ==> t < t0 + p.helloMs || t >= t0 + HelloGap(p)
  {
    var g, m := p.gapMs, p.tickMs;
    var early, late := Latest(p.helloMs - 1, g, m), Latest(p.delayMs + m, g, m);
    LatestOnGrid(p.helloMs - 1, g, m);
    LatestOnGrid(p.delayMs + m, g, m);
    var t1 := t0 + early;
    var a := Plan(t0, early, g, m);
    var b := Plan(t1, late, g, m);
    var c := Plan(t1 + m, late, g, m);
    Joined(t0, a, b, g, m);
    assert ([t1 + m] + c)[1..] == c;
    Joined(t0, a, [t1 + m] + c, g, m);
    first, second := a + ([t1 + m] + c), a + b;
    SecondTicksOn(p);
    Within(t0, first, g, m);
    assert first[0] in first;
    assert a != [] ==> first[0] == a[0] == second[0];
    Kept(t0, a, c, t1 + m, p);
    Within(t0, second, g, m);
    assert second[0] in second;
  }

  /** Ticks up to one before the hello is due, and from the hello on. */
  lemma Kept(t0: int, a: seq<int>, c: seq<int>, t2: int, p: Params)
    requires Sensible(p) && Timetable(t0, a, p.gapMs, p.tickMs) && Timetable(t2, c, p.gapMs, p.tickMs)
    requires End(t0, a) < t0 + p.helloMs
    ensures forall t :: t in a + ([t2] + c) ==> t < t0 + p.helloMs || t >= t2
  {
    Within(t0, a, p.gapMs, p.tickMs);
    Within(t2, c, p.gapMs, p.tickMs);
  }

  lemma SecondTicksOn(p: Params)
    requires Sensible(p)
    ensures 0 < Latest(p.delayMs + p.tickMs, p.gapMs, p.tickMs)
  {
    CapGrows(0, p.delayMs + p.tickMs - p.gapMs, p.gapMs, p.tickMs);
  }

  /** A settling time within reach has a run with a flood copied. */
  lemma Copies(p: Params) returns (run: seq<Pair>)
    requires Sensible(p) && 0 <= p.settleMs <= Reach(p) < p.deadMs
    ensures IsRun(run, p) && run != [] && Shaped(Last(run)) && !NoCopies(Last(run))
  {
    var t0 := 1 + 3 * p.gapMs;
    var t2 := t0 + HelloGap(p);
    LatestNotNegative(p);
    run := Opening(p, t2);
    var first, second := Timetables(p, t0);
    FirstFromIn(first, t0 + p.settleMs);
    Within(t0, first, p.gapMs, p.tickMs);
    run := Play(run, p, t0, t2, first, second);
  }

  /** A dead time as the configuration has it, at least two hellos, is longer
      than the reach if a hello is no shorter than two ticks and the delay. */
  lemma DeadIsLonger(p: Params)
    requires Sensible(p) && 2 * p.helloMs <= p.deadMs && 2 * p.tickMs + p.delayMs <= p.helloMs
    ensures Reach(p) < p.deadMs
  {
    ReachBound(p);
  }

  /** No run of the pair copies a flood if and only if a half must stay put for
      longer than an acknowledgement can be gone by, its sender not being given
      up for dead sooner. */
  lemma SettlingIsExact(p: Params)
    requires Sensible(p) && 0 <= p.settleMs && Reach(p) < p.deadMs
    ensures (forall run, i :: IsRun(run, p) && 0 <= i < |run| ==> Shaped(run[i]) && NoCopies(run[i])) <==>
            Reach(p) < p.settleMs
  {
    if Reach(p) < p.settleMs {
      forall run, i | IsRun(run, p) && 0 <= i < |run| ensures Shaped(run[i]) && NoCopies(run[i]) {
        FloodsArriveOnce(run, p, i);
      }
    } else {
      var run := Copies(p);
      assert IsRun(run, p) && !NoCopies(run[|run| - 1]);
    }
  }

  /** With ticks on time every 200 ms, a hello a second and no delay, that is
      1200 ms. */
  lemma OnTime(p: Params)
    requires p.helloMs == 1000 && p.gapMs == 200 && p.tickMs == 200 && p.delayMs == 0
    ensures Reach(p) == 1200
  {
    assert Cap(999, 200, 200) == 800 by {
      assert Cap(199, 200, 200) == 0 && Cap(399, 200, 200) == 200 && Cap(599, 200, 200) == 400;
    }
    assert Cap(200, 200, 200) == 200;
  }
}
