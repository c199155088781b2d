/**
 Who is primary, what the pair presents to LACP, and who is shut when the
 peer-link fails: over every run of the pair, whatever its timing.
 */
module MlagRoles {
  import opened MlagState
  import opened MlagPair

  /** Side x is configured to lead: by the smaller priority, or the smaller MAC
      if those are equal. */
  predicate Leads(s: Pair, x: Who)
    requires Shaped(s)
  {
    var d, y := s.sides[x].base, s.sides[1 - x].base;
    d.prio < y.prio || (d.prio == y.prio && d.mac < y.mac)
  }

  /** The role each side must have. */
  function Expected(s: Pair, x: Who): Role
    requires Shaped(s)
  {
    if Leads(s, x) then Primary else Secondary
  }

  /** The pair's LACP system: the primary's MAC. */
  function PairSystem(s: Pair): nat
    requires Shaped(s)
  {
    if Expected(s, 0) == Primary then s.sides[0].base.mac else s.sides[1].base.mac
  }

  /** One side knows its peer as it is, and while hearing it has the role and
      system that follow; it is shut only as a secondary whose peer-link is lost. */
  predicate SideKnows(s: Pair, x: Who)
    requires Shaped(s)
  {
    var d, y := s.sides[x].base, s.sides[1 - x].base;
    && (d.heard ==> d.peerMac == y.mac && d.peerPrio == y.prio)
    && (forall i :: 0 <= i < |s.wire[x]| ==> s.wire[x][i].mac == d.mac && s.wire[x][i].prio == d.prio)
    && (d.alive ==> d.heard && d.role == Expected(s, x) && d.sysId == PairSystem(s) && d.sysSet)
    && (d.shut <==> !d.alive && d.hbAlive && d.role == Secondary)
  }

  predicate Knows(s: Pair) {
    Shaped(s) && s.sides[0].base.mac != s.sides[1].base.mac && SideKnows(s, 0) && SideKnows(s, 1)
  }

  /** Exactly one side is primary. */
  lemma OnePrimary(s: Pair)
    requires Shaped(s) && s.sides[0].base.mac != s.sides[1].base.mac
    ensures Expected(s, 0) == Primary <==> Expected(s, 1) == Secondary
  {
  }

  /** A step changes neither MACs nor priorities. */
  predicate SamePeers(s: Pair, t: Pair) {
    Shaped(s) && Shaped(t) && forall x :: 0 <= x < 2 ==>
      t.sides[x].base.mac == s.sides[x].base.mac && t.sides[x].base.prio == s.sides[x].base.prio
  }

  lemma SamePeersExpected(s: Pair, t: Pair)
    requires SamePeers(s, t)
    ensures Expected(t, 0) == Expected(s, 0) && Expected(t, 1) == Expected(s, 1) && PairSystem(t) == PairSystem(s)
  {
  }

  lemma TickKnows(s: Pair, x: Who, e: TickEnv, p: Params)
    requires Knows(s) && Allowed(s, Tick(x, e), p)
    ensures var t := Next(s, Tick(x, e), p); SamePeers(s, t) && SideKnows(t, x) && SideKnows(t, 1 - x)
  {
    var t := Next(s, Tick(x, e), p);
    assert SamePeers(s, t);
    SamePeersExpected(s, t);
    OnePrimary(s);
    assert SideKnows(s, x) && SideKnows(s, 1 - x);
  }

  lemma DeliverKnows(s: Pair, x: Who, p: Params)
    requires Knows(s) && Allowed(s, Deliver(x), p)
    ensures var t := Next(s, Deliver(x), p); SamePeers(s, t) && SideKnows(t, x) && SideKnows(t, 1 - x)
  {
    var t := Next(s, Deliver(x), p);
    assert SamePeers(s, t);
    SamePeersExpected(s, t);
    assert SideKnows(s, x) && SideKnows(s, 1 - x);
  }

  lemma StepKnows(s: Pair, t: Pair, p: Params)
    requires Knows(s) && IsStep(s, t, p)
    ensures Knows(t) && SamePeers(s, t)
  {
    var st :| Allowed(s, st, p) && Next(s, st, p) == t;
    match st
    case Advance(ms) =>
    case Tick(x, e) => TickKnows(s, x, e, p);
    case Deliver(x) => DeliverKnows(s, x, p);
  }

  /**
   In every state of every run a side that hears its peer is primary exactly if it
   leads, by the numbers configured on the two; the LACP system it presents is then
   its own MAC, else its peer's; and it is shut exactly when it does not hear its
   peer on the peer-link, hears it elsewhere, and was secondary.
   */
  lemma {:induction false} RunKnows(run: seq<Pair>, p: Params, i: nat)
    requires IsRun(run, p) && i < |run|
    ensures Knows(run[i])
    ensures forall x: Who {:trigger Leads(run[i], x)} ::
      var d, y := run[i].sides[x].base, run[i].sides[1 - x].base;
      && (d.alive ==> (d.role == Primary <==> Leads(run[i], x)) && d.sysId == if Leads(run[i], x) then d.mac else y.mac)
      && (d.alive ==> d.role != NoRole) && (d.shut <==> !d.alive && d.hbAlive && d.role == Secondary)
  {
    if i > 0 {
      RunKnows(run, p, i - 1);
      assert StepAt(run, i, p);
      StepKnows(run[i - 1], run[i], p);
    }
    OnePrimary(run[i]);
    assert SideKnows(run[i], 0) && SideKnows(run[i], 1);
  }

  // ----- agreement, and a lost peer-link -----

  predicate SideAgreed(s: Pair, x: Who)
    requires Shaped(s)
  {
    s.sides[x].base.role == Expected(s, x) && s.sides[x].base.sysId == PairSystem(s) && s.sides[x].base.sysSet
  }

  /** One primary, one secondary, one LACP system. */
  predicate Agreed(s: Pair) {
    Shaped(s) && SideAgreed(s, 0) && SideAgreed(s, 1)
  }

  /** By its last evaluation a side hears its peer, over the peer-link or the
      management network. */
  predicate InTouch(d: Side) {
    d.base.alive || d.base.hbAlive
  }

  lemma TickAgreed(s: Pair, x: Who, e: TickEnv, p: Params)
    requires Knows(s) && Agreed(s) && Allowed(s, Tick(x, e), p) && InTouch(Next(s, Tick(x, e), p).sides[x])
    ensures Agreed(Next(s, Tick(x, e), p))
  {
    var t := Next(s, Tick(x, e), p);
    TickKnows(s, x, e, p);
    SamePeersExpected(s, t);
    assert SideAgreed(s, x) && SideAgreed(s, 1 - x);
    assert SideAgreed(t, x) && SideAgreed(t, 1 - x);
  }

  lemma StepAgreed(s: Pair, t: Pair, p: Params)
    requires Knows(s) && Agreed(s) && IsStep(s, t, p) && InTouch(t.sides[0]) && InTouch(t.sides[1])
    ensures Agreed(t)
  {
    var st :| Allowed(s, st, p) && Next(s, st, p) == t;
    StepKnows(s, t, p);
    SamePeersExpected(s, t);
    match st
    case Advance(ms) =>
    case Tick(x, e) => TickAgreed(s, x, e, p);
    case Deliver(x) => assert SideAgreed(s, x) && SideAgreed(t, x);
  }

  /** Who is shut, once both agree. */
  lemma AgreedShut(s: Pair, x: Who)
    requires Knows(s) && Agreed(s) && InTouch(s.sides[x])
    ensures s.sides[x].base.shut <==> Expected(s, x) == Secondary && !s.sides[x].base.alive
  {
    assert SideKnows(s, x) && SideAgreed(s, x);
  }

  lemma {:induction false} AgreementLasts(run: seq<Pair>, p: Params, i: nat, j: nat)
    requires IsRun(run, p) && i <= j < |run|
    requires forall k :: i <= k <= j ==> Shaped(run[k]) && InTouch(run[k].sides[0]) && InTouch(run[k].sides[1])
    requires Shaped(run[i]) && run[i].sides[0].base.alive && run[i].sides[1].base.alive
    ensures Knows(run[j]) && Agreed(run[j])
  {
    RunKnows(run, p, j);
    if i < j {
      AgreementLasts(run, p, i, j - 1);
      assert StepAt(run, j, p);
      StepAgreed(run[j - 1], run[j], p);
    } else {
      AliveAgreed(run[j]);
    }
  }

  /**
   Once both sides hear each other they agree, and go on agreeing for as long
   as each stays in touch: one primary, one system, and of the two exactly the
   secondary is shut while it has lost the peer-link.
   */
  lemma SplitBrain(run: seq<Pair>, p: Params, i: nat, j: nat)
    requires IsRun(run, p) && i <= j < |run|
    requires forall k :: i <= k <= j ==> Shaped(run[k]) && InTouch(run[k].sides[0]) && InTouch(run[k].sides[1])
    requires Shaped(run[i]) && run[i].sides[0].base.alive && run[i].sides[1].base.alive
    ensures Agreed(run[j])
    ensures Expected(run[j], 0) == Primary <==> Expected(run[j], 1) == Secondary
    ensures forall x: Who {:trigger Leads(run[j], x)} ::
      run[j].sides[x].base.shut <==> !Leads(run[j], x) && !run[j].sides[x].base.alive
  {
    AgreementLasts(run, p, i, j);
    OnePrimary(run[j]);
    AgreedShut(run[j], 0);
    AgreedShut(run[j], 1);
  }

  lemma AliveAgreed(s: Pair)
    requires Knows(s) && s.sides[0].base.alive && s.sides[1].base.alive
    ensures Agreed(s)
  {
    assert SideKnows(s, 0) && SideKnows(s, 1);
    assert SideAgreed(s, 0) && SideAgreed(s, 1);
  }

  // ----- what LACP is told -----

  datatype Actor = Actor(sys: nat, key: nat, port: nat)

  const MAX_PORT := 256

  /** nosaic_mlag_lacp and actor_of: system, key and port number of a member. */
  function ActorOf(b: Base, mlagId: nat, port: nat): Actor {
    Actor(if b.sysSet then b.sysId else b.mac, 0x100 + mlagId,
          (port + 1 + (if b.role == Secondary then 0x800 else 0)) % 0x1_0000)
  }

  /** A device sees one partner: same system and key from both sides, and no
      port number of one used by the other. */
  lemma OnePartner(s: Pair, mlagId: nat, port: nat, port': nat)
    requires Knows(s) && Agreed(s) && port < MAX_PORT && port' < MAX_PORT
    ensures var a, b := ActorOf(s.sides[0].base, mlagId, port), ActorOf(s.sides[1].base, mlagId, port');
      a.sys == b.sys && a.key == b.key && a.port != b.port
  {
    OnePrimary(s);
    assert SideAgreed(s, 0) && SideAgreed(s, 1);
  }
}
