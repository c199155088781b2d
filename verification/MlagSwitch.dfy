/**
 The MLAG state of one switch as mlag.c keeps it -- the peer, a table of
 halves by MLAG id, the MAC list being received -- with the receive and
 evaluate passes that change it in place. Each is proved to do to every id
 what `MlagState`, and so the pair in `MlagPair`, does to one.
 */
module MlagSwitch {
  import opened MlagState
  import opened MlagFrame
  import opened MlagSync

  const MAX_ID := 1000

  /** What a hello's interface list says of an id: the last entry that names it. */
  function Reported(ifs: seq<IfEntry>, id: nat): Heard {
    if ifs == [] then Unlisted
    else
      var e := ifs[|ifs| - 1];
      if e.id == id then Listed(Entry(e.up, e.ack != 0)) else Reported(ifs[..|ifs| - 1], id)
  }

  /** Of an id, the last entry that names it counts; one that no entry names is
      not listed. */
  lemma {:induction false} ReportedIs(ifs: seq<IfEntry>, id: nat, i: nat)
    requires i < |ifs| ==> ifs[i].id == id
    requires forall j :: (if i < |ifs| then i + 1 else 0) <= j < |ifs| ==> ifs[j].id != id
    ensures Reported(ifs, id) == if i < |ifs| then Listed(Entry(ifs[i].up, ifs[i].ack != 0)) else Unlisted
  {
    if ifs != [] && i != |ifs| - 1 {
      var n := |ifs| - 1;
      ReportedIs(ifs[..n], id, if i < |ifs| then i else n);
    }
  }

  /** A half with what a hello says noted, before the time it went down. */
  function Noted(h: Half, e: Heard): Half {
    h.(peerUp := if e.Listed? then e.entry.up else 0, peerKnown := e.Listed?, peerAck := e.Listed? && e.entry.ack)
  }

  /** A MAC address as the number memcmp orders it by. */
  function MacNumber(mac: seq<Byte>): nat {
    if mac == [] then 0 else MacNumber(mac[..|mac| - 1]) * 256 + mac[|mac| - 1]
  }

  /** memcmp: the first byte that differs decides. */
  predicate BytesBefore(a: seq<Byte>, b: seq<Byte>)
    requires |a| == |b|
    decreases |a|
  {
    a != [] && (a[0] < b[0] || (a[0] == b[0] && BytesBefore(a[1..], b[1..])))
  }

  lemma {:induction false} BeforeByLast(a: seq<Byte>, b: seq<Byte>)
    requires |a| == |b| > 0
    ensures var n := |a| - 1;
      BytesBefore(a, b) <==> BytesBefore(a[..n], b[..n]) || (a[..n] == b[..n] && a[n] < b[n])
    decreases |a|
  {
    var n := |a| - 1;
    if n > 0 {
      BeforeByLast(a[1..], b[1..]);
      assert a[1..][..n - 1] == a[..n][1..] && b[1..][..n - 1] == b[..n][1..];
      assert a[..n] == [a[0]] + a[..n][1..] && b[..n] == [b[0]] + b[..n][1..];
    }
  }

  /** MAC addresses compare as the numbers do. */
  lemma {:induction false} MacOrder(a: seq<Byte>, b: seq<Byte>)
    requires |a| == |b|
    ensures MacNumber(a) < MacNumber(b) <==> BytesBefore(a, b)
    ensures MacNumber(a) == MacNumber(b) <==> a == b
    decreases |a|
  {
    if a != [] {
      var n := |a| - 1;
      MacOrder(a[..n], b[..n]);
      BeforeByLast(a, b);
      assert a == a[..n] + [a[n]] && b == b[..n] + [b[n]];
    }
  }

  /** What an evaluation sees of one LAG. */
  datatype LagState = LagState(active: bool, ready: bool)

  class Switch {
    var base: Base
    const halves: array<Half>     // by MLAG id
    var mlagOf: seq<nat>          // LAG to MLAG id, 0 for none
    var rx: Rx
    var trigger: bool

    /** An id belongs to at most one LAG, as nosaic_mlag_set_lag sees to. */
    ghost predicate Valid()
      reads this
    {
      halves.Length == MAX_ID + 1 &&
      (forall k :: 0 <= k < |mlagOf| ==> mlagOf[k] <= MAX_ID) &&
      forall i, j :: 0 <= i < j < |mlagOf| && mlagOf[i] != 0 ==> mlagOf[i] != mlagOf[j]
    }

    constructor (mac: nat, prio: nat, lags: seq<nat>)
      requires forall k :: 0 <= k < |lags| ==> lags[k] <= MAX_ID
      requires forall i, j :: 0 <= i < j < |lags| && lags[i] != 0 ==> lags[i] != lags[j]
      ensures Valid() && fresh(halves) && mlagOf == lags
      ensures forall id :: 0 <= id <= MAX_ID ==> halves[id] == IDLE_HALF
      ensures base == Base(mac, prio, false, 0, 0, 0, 0, false, 0, NoRole, false, false, false)
    {
      base := Base(mac, prio, false, 0, 0, 0, 0, false, 0, NoRole, false, false, false);
      halves := new Half[MAX_ID + 1](_ => IDLE_HALF);
      mlagOf, rx, trigger := lags, Rx(0, false, []), false;
    }

    /** memset, then the list: every half notes what this hello says of it. */
    method Note(ifs: seq<IfEntry>)
      requires Valid()
      modifies halves
      ensures forall id :: 1 <= id <= MAX_ID ==> halves[id] == Noted(old(halves[id]), Reported(ifs, id))
    {
      for id := 0 to MAX_ID + 1
        invariant forall j :: 0 <= j <= MAX_ID ==>
          halves[j] == if j < id then Noted(old(halves[j]), Unlisted) else old(halves[j])
      {
        halves[id] := halves[id].(peerUp := 0, peerKnown := false, peerAck := false);
      }
      for i := 0 to |ifs|
        invariant forall j :: 1 <= j <= MAX_ID ==> halves[j] == Noted(old(halves[j]), Reported(ifs[..i], j))
      {
        var e := ifs[i];
        assert ifs[..i + 1][..i] == ifs[..i];
        if 1 <= e.id <= MAX_ID {
          halves[e.id] := halves[e.id].(peerUp := e.up, peerKnown := true, peerAck := e.ack != 0);
        }
      }
      assert ifs[..|ifs|] == ifs;
    }

    /** mlag_rx, for a frame that arrived on the peer-link or elsewhere. */
    method Receive(f: seq<Byte>, onPeerLink: bool, now: int)
      requires Valid()
      modifies this, halves
      ensures Valid() && mlagOf == old(mlagOf) && trigger == old(trigger)
      ensures var m := Parse(f); var known := onPeerLink && !m.NotHandled? && !m.Ignored?;
        && base == (if !known then old(base)
                    else if m.Greeting? then BaseRx(old(base), m.prio, MacNumber(m.mac), now)
                    else BaseRx(old(base), m.hello.prio, MacNumber(m.hello.mac), now))
        && rx == (if known then RxFrame(old(rx), f) else old(rx))
        && forall id :: 1 <= id <= MAX_ID ==>
             halves[id] == if known && !m.Greeting? then HalfRx(old(halves[id]), Reported(m.hello.ifs, id), now)
                           else old(halves[id])
    {
      var m := Parse(f);
      if !onPeerLink || m.NotHandled? || m.Ignored? {
        return;
      }
      if m.Greeting? {
        base := base.(heard := true, lastLink := now, peerPrio := m.prio, peerMac := MacNumber(m.mac));
        return;
      }
      base := base.(heard := true, lastLink := now, peerPrio := m.hello.prio, peerMac := MacNumber(m.hello.mac));
      Note(m.hello.ifs);
      for id := 1 to MAX_ID + 1
        modifies halves
        invariant forall j :: 1 <= j <= MAX_ID ==>
          halves[j] == if j < id then HalfRx(old(halves[j]), Reported(m.hello.ifs, j), now)
                       else Noted(old(halves[j]), Reported(m.hello.ifs, j))
      {
        var h := halves[id];
        if h.peerKnown && h.peerUp == 0 {
          if h.peerDownSince == 0 {
            halves[id] := h.(peerDownSince := now);
          }
        } else {
          halves[id] := h.(peerDownSince := 0);
        }
      }
      rx := RxFrame(rx, f);
    }

    /** The per-id part of evaluate(), over every LAG that has one. */
    method EvaluateHalves(lags: seq<LagState>, reloading: bool, settleMs: int, now: int)
      requires Valid() && |lags| == |mlagOf|
      modifies this`trigger, halves
      ensures forall k :: 0 <= k < |lags| && mlagOf[k] != 0 ==>
        halves[mlagOf[k]] == HalfEvaluate(old(halves[mlagOf[k]]), base.alive, base.shut,
                                          LagView(lags[k].active, lags[k].ready, reloading, settleMs, now))
      ensures forall id :: 0 <= id <= MAX_ID && (id == 0 || id !in mlagOf) ==> halves[id] == old(halves[id])
      ensures trigger <==> (old(trigger) ||
        exists k :: 0 <= k < |lags| && mlagOf[k] != 0 &&
          Triggers(old(halves[mlagOf[k]]), base.alive, base.shut,
                   LagView(lags[k].active, lags[k].ready, reloading, settleMs, now)))
    {
      for k := 0 to |lags|
        invariant forall i :: 0 <= i < |lags| && mlagOf[i] != 0 ==>
          halves[mlagOf[i]] == if i < k
            then HalfEvaluate(old(halves[mlagOf[i]]), base.alive, base.shut,
                              LagView(lags[i].active, lags[i].ready, reloading, settleMs, now))
            else old(halves[mlagOf[i]])
        invariant forall id :: 0 <= id <= MAX_ID && (id == 0 || id !in mlagOf) ==> halves[id] == old(halves[id])
        invariant trigger <==> (old(trigger) ||
          exists i :: 0 <= i < k && mlagOf[i] != 0 &&
            Triggers(old(halves[mlagOf[i]]), base.alive, base.shut,
                     LagView(lags[i].active, lags[i].ready, reloading, settleMs, now)))
      {
        var id := mlagOf[k];
        if id != 0 {
          var h, news := EvaluateHalf(halves[id], base.alive, base.shut, lags[k], reloading, settleMs, now);
          if news {
            trigger := true;
          }
          halves[id] := h;
        }
      }
    }

    /** One half: since when it is up, what is kept off it, and whether there is
        news of it. */
    method EvaluateHalf(h: Half, alive: bool, shut: bool, lag: LagState, reloading: bool, settleMs: int, now: int)
      returns (q: Half, news: bool)
      ensures var v := LagView(lag.active, lag.ready, reloading, settleMs, now);
        q == HalfEvaluate(h, alive, shut, v) && news == Triggers(h, alive, shut, v)
    {
      var since := h.localUpSince;
      news := false;
      if lag.active != h.localUp {
        since := if lag.active then now else 0;
        news := true;
      }
      var single := h.peerDownSince != 0 && now - h.peerDownSince >= settleMs && lag.active && now - since >= settleMs;
      var block, hold := Open, HoldNone;
      if alive && lag.active && !shut && !h.peerAck {
        block, hold := FromAll, HoldPeer;
      } else if alive && !shut && !single {
        block := FromPeerLink;
      }
      if block != h.block || lag.ready != h.localReady {
        news := true;
      }
      if reloading {
        hold := HoldReload;
      }
      q := h.(localUp := lag.active, localUpSince := since, localReady := lag.ready, block := block, held := hold);
    }

    /** evaluate(): the peer and the roles first, then every half. */
    method Evaluate(linkUp: bool, hbConfigured: bool, deadMs: int,
                    lags: seq<LagState>, reloading: bool, settleMs: int, now: int)
      requires Valid() && |lags| == |mlagOf|
      modifies this`base, this`trigger, halves
      ensures base == BaseEvaluate(old(base), linkUp, hbConfigured, deadMs, now)
      ensures base.alive <==> old(base.heard) && now - old(base.lastLink) < deadMs && linkUp
      ensures base.alive ==>
        var leads := base.prio < base.peerPrio || (base.prio == base.peerPrio && base.mac < base.peerMac);
        base.role == (if leads then Primary else Secondary) && base.sysId == if leads then base.mac else base.peerMac
      ensures base.shut <==> !base.alive && hbConfigured && now - base.lastHb < deadMs && base.role == Secondary
      ensures forall k :: 0 <= k < |lags| && mlagOf[k] != 0 ==>
        halves[mlagOf[k]] == HalfEvaluate(old(halves[mlagOf[k]]), base.alive, base.shut,
                                          LagView(lags[k].active, lags[k].ready, reloading, settleMs, now))
      ensures forall id :: 0 <= id <= MAX_ID && (id == 0 || id !in mlagOf) ==> halves[id] == old(halves[id])
    {
      var alive := base.heard && now - base.lastLink < deadMs && linkUp;
      var hb := hbConfigured && now - base.lastHb < deadMs;
      var role, sysId := base.role, base.sysId;
      if !base.sysSet {
        sysId := base.mac;
      }
      if alive {
        var first := base.prio < base.peerPrio || (base.prio == base.peerPrio && base.mac < base.peerMac);
        role := if first then Primary else Secondary;
        sysId := if first then base.mac else base.peerMac;
      } else if !hb {
        role := NoRole;
      }
      base := base.(alive := alive, hbAlive := hb, role := role, sysSet := true, sysId := sysId,
                    shut := !alive && hb && role == Secondary);
      EvaluateHalves(lags, reloading, settleMs, now);
    }
  }
}
