/**
 Two bridges with one port each, switched on at the two ends of a link: the one
 with the smaller id proposes, the other agrees and forwards, and 200 ms later so
 does the first.
 */
module RstpMeet {
  import opened Wrappers
  import opened RstpVector
  import opened RstpState
  import opened RstpSafety
  import opened RstpTrace
  import opened RstpProgress
  import opened RstpHeard
  import opened RstpHandshake
  import opened RstpRequests
  import RstpAge

  const TIMES := Times(0, 20000, 2000, 15000)
  const NOTHING := Bpdu(ConfigBpdu, Vector(0, 0, 0, 0), TIMES, false, false, ClaimUnknown, false, false)

  /** A port that waits out its forward delay, taking its bridge for the root. */
  function Lone(id: nat): Port {
    Port(true, true, false, 20, false, false, false, false, false, 20, 1, RoleDesignated, Discarding, InfoMine,
         Vector(id, 0, id, 1), TIMES, false, false, false, false, true, false, false, false, 0, 16000, 0, 0, 4000, 0, 0,
         false, NOTHING)
  }

  function Start(id: nat): Bridge {
    Bridge(true, id, [Lone(id)], Vector(id, 0, id, 0), -1, TIMES, false, 2000, 20000, 15000, 0)
  }

  lemma StartIs(id: nat)
    ensures Joined(Start(id), 0)
  {
    assert PortInv(Start(id), 0);
  }

  /** What the first bridge sends: it is the root, and proposes. */
  function Proposal(): Bpdu {
    Bpdu(RstBpdu, Vector(1, 0, 1, 1), TIMES, false, true, ClaimDesignated, false, false)
  }

  lemma WholeTimes()
    ensures Carried(0) == 0 && Carried(20000) == 20000 && Carried(2000) == 2000 && Carried(15000) == 15000
  {
    RstpAge.WholeSeconds(0);
    RstpAge.WholeSeconds(20);
    RstpAge.WholeSeconds(2);
    RstpAge.WholeSeconds(15);
  }

  lemma First()
    ensures RunSends(Start(1), WIRE, 1000, 0) == Some(Proposal())
    ensures var r := Run(Start(1), WIRE, 1000);
      && r.on && r.id == 1 && r.rootPv == Vector(1, 0, 1, 0) && |r.ports| == 1 && r.helloMs == 2000
      && Plain(r.ports[0]) && r.ports[0].id == 1 && r.ports[0].info == InfoMine && r.ports[0].pv == Vector(1, 0, 1, 1)
      && !r.ports[0].bpduGuard && !r.ports[0].bpduTripped
  {
    var a := Start(1);
    assert AdmitAll(a, 0, WIRE, 1000) == a && AdmitAll(a, 1, WIRE, 1000) == a;
    assert LowerAll(a, 0, WIRE) == a && LowerAll(a, 1, WIRE) == a;
    var p := a.ports[0].(proposing := true, newInfo := true);
    assert DesignatedStep(a.ports[0], 1000, 15000) == p;
    assert RaiseAll(a, 0, 1000) == a && RaiseAll(a, 1, 1000) == a.(ports := [p]);
    WholeTimes();
  }

  /** The second, with that waiting for it. */
  function Told2(): Bridge {
    Rx(Start(2), 0, Proposal())
  }

  lemma SecondTakes()
    ensures |Told2().ports| == 1 && Taken(Told2(), 0, WIRE) && SaysDesignated(Told2().ports[0].msg)
    ensures MaySend(Told2().ports[0], WIRE.tx[0], 1100)
  {
    StartIs(2);
    RxIs(Start(2), 0, Proposal());
  }

  /** It follows the first. */
  lemma SecondFollows()
    ensures |Told2().ports| == 1
    ensures var r := Run(Told2(), WIRE, 1100); r.rootKey == 0 && r.ports[0].role == RoleRoot
  {
    SecondTakes();
    var b := Told2();
    var m := Entered(b, WIRE, 1100);
    HeardEnters(b, WIRE, 1100, 0);
    EnteredCost(b, WIRE, 1100, 0);
    EnteredGuard(b, WIRE, 1100, 0);
    AdmitAllReselects(b, 1, WIRE, 1100, 0);
    SameId(b, WIRE, 1100, 0);
    ChoosesIt(m.id, m.ports);
    SelectRole(m, 0);
    RunAnswers(b, WIRE, 1100, 0);
  }

  lemma ChoosesIt(id: nat, ports: seq<Port>)
    requires |ports| == 1 && id == 2 && Candidate(2, ports[0])
    requires ports[0].pv == Vector(1, 0, 1, 1) && ports[0].cost == 20
    ensures Choose(id, ports, 1).key == 0
  {
    assert Choose(id, ports, 0) == Choice(Vector(2, 0, 2, 0), -1);
    assert RootVector(ports[0]) == Vector(1, 20, 1, 1);
  }

  /** The first, with an agreement from the second waiting for it, goes on as the
      root. */
  lemma FirstStays(a: Bridge, m: Bpdu)
    requires Joined(a, 0) && a.id == 1 && a.rootPv == Vector(1, 0, 1, 0) && |a.ports| == 1 && Live(a, WIRE, 0)
    requires a.ports[0].pending && a.ports[0].msg == m && Believable(a, a.ports[0]) && a.ports[0].id == 1
    requires a.ports[0].role == RoleDesignated && a.ports[0].info == InfoMine && a.ports[0].pv == Vector(1, 0, 1, 1)
    requires !SaysDesignated(m) && m.agreement && m.vector.root == 1
    ensures var r := Run(a, WIRE, 1200); r.ports[0].role == RoleDesignated && a.ports[0].pv == Own(r, a.ports[0])
  {
    var e := Entered(a, WIRE, 1200);
    AgreementEnters(a, WIRE, 1200, 0);
    EnteredAt(a, WIRE, 1200, 0);
    SameId(a, WIRE, 1200, 0);
    RunAnswers(a, WIRE, 1200, 0);
    if e.reselect {
      SelectRole(e, 0);
      assert Choose(e.id, e.ports, 0) == Choice(Vector(1, 0, 1, 0), -1);
      assert Choose(e.id, e.ports, 1) == Choice(Vector(1, 0, 1, 0), -1);
    } else {
      LiveRole(a, WIRE, 1200, 0);
    }
  }

  /** Whatever is sent carries its bridge's times. */
  lemma SentTimes(b: Bridge, e: Env, now: int, k: nat)
    requires b.on && k < |b.ports| && EnvFits(e, |b.ports|) && RunSends(b, e, now, k).Some?
    ensures var m, ts := RunSends(b, e, now, k).value, Run(b, e, now).rootTimes;
      m.times.msgAge == Carried(ts.msgAge) && m.times.maxAge == Carried(ts.maxAge)
  {
    RunEnds(b, e, now, k);
  }

  lemma SecondTimes()
    ensures |Told2().ports| == 1 && Run(Told2(), WIRE, 1100).rootPv.root == 1
    ensures Run(Told2(), WIRE, 1100).rootTimes == Times(1000, 20000, 2000, 15000) && Run(Told2(), WIRE, 1100).id == 2
  {
    SecondTakes();
    SecondFollows();
    Follows(Told2(), WIRE, 1100, 0);
    SameId(Told2(), WIRE, 1100, 0);
  }

  /** What the second answers is fit to be believed. */
  lemma AnswerIs() returns (m: Bpdu)
    ensures |Told2().ports| == 1 && RunSends(Told2(), WIRE, 1100, 0) == Some(m)
    ensures m.kind == RstBpdu && m.agreement && !SaysDesignated(m) && m.vector.root == 1 && m.vector.bridge == 2
    ensures m.times.msgAge < m.times.maxAge
  {
    SecondTakes();
    SecondFollows();
    SecondTimes();
    Replies(Told2(), WIRE, 1100, 0);
    SentTimes(Told2(), WIRE, 1100, 0);
    m := RunSends(Told2(), WIRE, 1100, 0).value;
    RstpAge.WholeSeconds(1);
    WholeTimes();
  }

  /**
   The exchange of `RapidTransition`, from these two: the second's port is its root
   port and forwards after its run, and the first's after its next, at 1200 ms; its
   forward delay would have ended at 16 s.
   */
  lemma TwoBridgesMeet()
    ensures |Told2().ports| == 1 && Run(Told2(), WIRE, 1100).ports[0].role == RoleRoot
    ensures Run(Told2(), WIRE, 1100).ports[0].state == Forwarding
    ensures exists m2 :: RunSends(Told2(), WIRE, 1100, 0) == Some(m2) && FirstForwards(m2)
  {
    StartIs(1);
    StartIs(2);
    First();
    SecondTakes();
    SecondFollows();
    var a1 := Run(Start(1), WIRE, 1000);
    RunKeepsInv(Start(1), WIRE, 1000);
    var m2 := AnswerIs();
    RxIs(a1, 0, m2);
    var a2 := Rx(a1, 0, m2);
    HeldLive(a1, m2);
    FirstStays(a2, m2);
    RapidTransition(Start(1), WIRE, 1000, 0, Proposal(), Start(2), WIRE, 1100, 0, m2, WIRE, 1200);
    assert FirstForwards(m2);
  }

  lemma HeldLive(a: Bridge, m: Bpdu)
    requires Joined(a, 0) && |a.ports| == 1 && a.on && m.kind != TcnBpdu
    requires a.ports[0].used && a.ports[0].enabled && !a.ports[0].bpduTripped && !a.ports[0].bpduGuard
    ensures var r := Rx(a, 0, m); Live(r, WIRE, 0) && !r.ports[0].bpduGuard && |r.ports| == 1
  {
  }

  predicate FirstForwards(m2: Bpdu) {
    var r := Run(Start(1), WIRE, 1000);
    |r.ports| == 1 && Run(Rx(r, 0, m2), WIRE, 1200).ports[0].state == Forwarding
  }
}
