/**
 What "stayed put" means, over every run of the pair: a block is lifted only if
 this half has been up, and the other said to be down, at every evaluation and in
 every hello of the settling time before. And what a side takes its peer to be is
 what the last hello said, while that is not too old.
 */
module MlagSettled {
  import opened MlagState
  import opened MlagPair

  // ----- this half -----

  /** Side x's half was down at t, or has been up only since. */
  predicate UpAfter(d: Side, t: int) {
    d.half.localUp ==> d.half.localUpSince >= t
  }

  /** And the other's was up at t, or has been down only since. */
  predicate DownAfter(d: Side, t: int) {
    d.half.peerDownSince == 0 || d.half.peerDownSince >= t
  }

  lemma TickUpAfter(d: Side, e: TickEnv, p: Params, now: int, t: int)
    requires UpAfter(d, t) && t <= now
    ensures UpAfter(TickSide(d, e, p, now), t)
    ensures Lifted(TickSide(d, e, p, now)) ==> now - t >= p.settleMs
  {
  }

  lemma TickDownAfter(d: Side, e: TickEnv, p: Params, now: int, t: int)
    requires DownAfter(d, t)
    ensures DownAfter(TickSide(d, e, p, now), t)
    ensures Lifted(TickSide(d, e, p, now)) ==> now - t >= p.settleMs
  {
  }

  lemma RxAfter(d: Side, m: Msg, now: int, t: int)
    requires t <= now
    ensures UpAfter(d, t) ==> UpAfter(RxSide(d, m, now), t)
    ensures DownAfter(d, t) ==> DownAfter(RxSide(d, m, now), t)
    ensures Lifted(RxSide(d, m, now)) ==> Lifted(d)
  {
  }

  /** A side is settled as of t: lifted only if that is long enough ago. */
  predicate Since(d: Side, t: int, p: Params, own: bool) {
    (if own then UpAfter(d, t) else DownAfter(d, t)) && (Lifted(d) ==> d.lastTick - t >= p.settleMs)
  }

  lemma StepSince(s: Pair, st: Step, p: Params, x: Who, t: int, own: bool)
    requires Shaped(s) && Allowed(s, st, p) && t <= s.now && Since(s.sides[x], t, p, own)
    ensures Shaped(Next(s, st, p)) && Since(Next(s, st, p).sides[x], t, p, own) && s.now <= Next(s, st, p).now
  {
    match st
    case Advance(ms) =>
    case Tick(y, e) =>
      if own {
        if y == x {
          TickUpAfter(s.sides[x], e, p, s.now, t);
        }
      } else if y == x {
        TickDownAfter(s.sides[x], e, p, s.now, t);
      }
    case Deliver(y) =>
      if y == x {
        RxAfter(s.sides[x], s.wire[1 - x][0], s.now, t);
      }
  }

  lemma {:induction false} RunSince(run: seq<Pair>, p: Params, i: nat, j: nat, x: Who, t: int, own: bool)
    requires IsRun(run, p) && i <= j < |run| && Shaped(run[i]) && t <= run[i].now && Since(run[i].sides[x], t, p, own)
    ensures Shaped(run[j]) && Since(run[j].sides[x], t, p, own) && run[i].now <= run[j].now
  {
    if i < j {
      RunSince(run, p, i, j - 1, x, t, own);
      assert StepAt(run, j, p);
      var st :| Allowed(run[j - 1], st, p) && Next(run[j - 1], st, p) == run[j];
      StepSince(run[j - 1], st, p, x, t, own);
    }
  }

  /**
   A block is lifted only once both halves have stayed put. In every run, a side
   that has lifted its block did so at least the settling time after any state of
   the run in which its own half was down at its last evaluation, and at least
   that after any in which the last hello said that the other was up.
   */
  lemma LiftIsSettled(run: seq<Pair>, p: Params, i: nat, j: nat, x: Who)
    requires IsRun(run, p) && i <= j < |run| && Shaped(run[i]) && Shaped(run[j]) && Lifted(run[j].sides[x])
    ensures !run[i].sides[x].half.localUp ==> run[j].sides[x].lastTick - run[i].sides[x].lastTick >= p.settleMs
    ensures run[i].sides[x].half.peerDownSince == 0 && !Lifted(run[i].sides[x]) ==>
      run[j].sides[x].lastTick - run[i].now >= p.settleMs
  {
    var d := run[i].sides[x];
    TicksArePast(run, p, i, x);
    if !d.half.localUp {
      RunSince(run, p, i, j, x, d.lastTick, true);
    }
    if d.half.peerDownSince == 0 && !Lifted(d) {
      RunSince(run, p, i, j, x, run[i].now, false);
    }
  }

  lemma {:induction false} TicksArePast(run: seq<Pair>, p: Params, i: nat, x: Who)
    requires IsRun(run, p) && i < |run|
    ensures Shaped(run[i]) && run[i].sides[x].lastTick <= run[i].now
  {
    if i > 0 {
      TicksArePast(run, p, i - 1, x);
      assert StepAt(run, i, p);
    }
  }

  /** No time since when the other is down, exactly while the last hello says that
      it is not. */
  lemma HelloSays(d: Side, m: Msg, now: int)
    requires now != 0
    ensures var h := RxSide(d, m, now).half;
      h.peerUp == m.entry.up && h.peerAck == m.entry.ack && (h.peerDownSince == 0 <==> m.entry.up > 0)
  {
  }

  // ----- the peer -----

  /** Side x received its last hello in the step to state j, and none since. */
  ghost predicate LastHello(run: seq<Pair>, p: Params, i: nat, j: nat, x: Who)
    requires i < |run|
  {
    && 0 < j <= i && Shaped(run[j - 1]) && Shaped(run[j]) && Allowed(run[j - 1], Deliver(x), p)
    && run[j] == Next(run[j - 1], Deliver(x), p) && Shaped(run[i])
    && run[i].sides[x].got == run[j].sides[x].got && run[i].sides[x].base.lastLink == run[j].now
    && run[i].sides[x].base.peerMac == run[j - 1].wire[1 - x][0].mac
    && run[i].sides[x].base.peerPrio == run[j - 1].wire[1 - x][0].prio
    && run[i].sides[x].half.peerUp == run[j - 1].wire[1 - x][0].entry.up
    && run[i].sides[x].half.peerAck == run[j - 1].wire[1 - x][0].entry.ack
  }

  /** In every run, a side has heard its peer exactly when it received a hello,
      and what it knows of the peer, and since when, is what the last one said. */
  lemma {:induction false} KnowsTheLastHello(run: seq<Pair>, p: Params, i: nat, x: Who)
    requires IsRun(run, p) && i < |run|
    ensures Shaped(run[i]) && (run[i].sides[x].base.heard <==> run[i].sides[x].got > 0)
    ensures run[i].sides[x].got > 0 ==> exists j: nat :: LastHello(run, p, i, j, x)
  {
    if i > 0 {
      KnowsTheLastHello(run, p, i - 1, x);
      assert StepAt(run, i, p);
      var st :| Allowed(run[i - 1], st, p) && Next(run[i - 1], st, p) == run[i];
      if st == Deliver(x) {
        assert LastHello(run, p, i, i, x);
      } else {
        KeptHello(run[i - 1], st, p, x);
        if run[i].sides[x].got > 0 {
          var j: nat :| LastHello(run, p, i - 1, j, x);
          StillLastHello(run, p, i, j, x);
        }
      }
    }
  }

  lemma StillLastHello(run: seq<Pair>, p: Params, i: nat, j: nat, x: Who)
    requires 0 < i < |run| && LastHello(run, p, i - 1, j, x) && Shaped(run[i])
    requires var d, q := run[i - 1].sides[x], run[i].sides[x];
      && q.got == d.got && q.base.lastLink == d.base.lastLink && q.base.peerMac == d.base.peerMac
      && q.base.peerPrio == d.base.peerPrio && q.half.peerUp == d.half.peerUp && q.half.peerAck == d.half.peerAck
    ensures LastHello(run, p, i, j, x)
  {
  }

  lemma KeptHello(s: Pair, st: Step, p: Params, x: Who)
    requires Shaped(s) && Allowed(s, st, p) && st != Deliver(x)
    ensures var d, q := s.sides[x], Next(s, st, p).sides[x];
      && q.got == d.got && q.base.heard == d.base.heard && q.base.lastLink == d.base.lastLink
      && q.base.peerMac == d.base.peerMac && q.base.peerPrio == d.base.peerPrio
      && q.half.peerUp == d.half.peerUp && q.half.peerAck == d.half.peerAck
  {
  }

  /** At its tick a side takes its peer to be alive exactly when the last hello is
      not too old and the peer-link is up; and to be alive elsewhere exactly when
      the last heartbeat, if any are configured, is not too old. */
  lemma AliveIs(d: Side, e: TickEnv, p: Params, now: int)
    ensures var b := TickSide(d, e, p, now).base;
      && (b.alive <==> d.base.heard && now - d.base.lastLink < p.deadMs && e.linkUp) && b.lastLink == d.base.lastLink
      && (b.hbAlive <==> e.hbConfigured && now - b.lastHb < p.deadMs)
      && b.lastHb == if SaysHello(d, e, now) && e.hbHeard then now else d.base.lastHb
  {
  }

  /** While both hear each other a half that carries lets out no flood at all
      until its peer has acknowledged it, and is held back just so long. */
  lemma HeldUntilAcknowledged(d: Side, e: TickEnv, p: Params, now: int)
    requires TickSide(d, e, p, now).base.alive && e.active
    ensures var h := TickSide(d, e, p, now).half;
      && (h.block == FromAll <==> !d.half.peerAck) && (!e.reloading ==> (h.held == HoldPeer <==> h.block == FromAll))
      && (e.reloading ==> h.held == HoldReload)
  {
  }

  /** A half's news is told at the next tick: that it came, went or is ready, or
      that its block changed. */
  lemma NewsTravels(d: Side, e: TickEnv, p: Params, now: int, e': TickEnv, later: int)
    ensures var q := TickSide(d, e, p, now);
      q.half.localUp != d.half.localUp || q.half.localReady != d.half.localReady || q.half.block != d.half.block ==>
      SaysHello(q, e', later)
  {
  }
}
