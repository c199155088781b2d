/**
 Where a frame sent through a VLAN's routed interface goes: the members of the
 VLAN, narrowed to where the destination is known to be, to one port a LAG,
 and to what the spanning tree lets forward.
 */
module SviTx {
  import opened Wrappers

  newtype byte = x: int | 0 <= x < 256

  const MAX_PORT: nat := 256
  const MAX_LAGS: nat := 64

  /** Where the chip's address table has a destination. */
  datatype Place = OnPort(port: nat) | OnTrunk(lag: nat)

  /** claimed: which LAG has each port, 0 for none. dports: each LAG's
      distributing members. blocked: ports the spanning tree does not let forward. */
  datatype Ports = Ports(claimed: seq<nat>, dports: seq<seq<nat>>, blocked: set<nat>)

  /** A distributing member is a member. */
  ghost predicate Consistent(ps: Ports) {
    |ps.claimed| == MAX_PORT && |ps.dports| == MAX_LAGS + 1 &&
    (forall p :: 0 <= p < MAX_PORT ==> ps.claimed[p] <= MAX_LAGS) &&
    forall k, j :: 1 <= k <= MAX_LAGS && 0 <= j < |ps.dports[k]| ==>
      ps.dports[k][j] < MAX_PORT && ps.claimed[ps.dports[k][j]] == k
  }

  function LagOf(ps: Ports, p: nat): nat {
    if p < |ps.claimed| then ps.claimed[p] else 0
  }

  function Pick(ps: Ports, k: nat, hash: nat): Option<nat> {
    if 1 <= k <= MAX_LAGS && k < |ps.dports| && ps.dports[k] != []
    then Some(ps.dports[k][hash % |ps.dports[k]|]) else None
  }

  lemma PickClaimed(ps: Ports, k: nat, hash: nat)
    requires Consistent(ps) && Pick(ps, k, hash).Some?
    ensures LagOf(ps, Pick(ps, k, hash).value) == k && Pick(ps, k, hash).value < MAX_PORT
  {
  }

  /** Hashes one after another go to one distributing member after another. */
  lemma PickSpreads(ps: Ports, k: nat, j: nat)
    requires 1 <= k <= MAX_LAGS && k < |ps.dports| && j < |ps.dports[k]|
    ensures Pick(ps, k, j) == Some(ps.dports[k][j])
  {
  }

  // ----- which member of a LAG -----

  /** The first n bytes folded, in 32 bits. */
  function HashOf(buf: seq<byte>, n: nat): nat
    requires n <= |buf|
  {
    if n == 0 then 0 else (HashOf(buf, n - 1) * 31 + buf[n - 1] as nat) % 0x1_0000_0000
  }

  method FrameHash(buf: seq<byte>) returns (h: nat)
    requires |buf| >= 12
    ensures h == HashOf(buf, 12)
  {
    h := 0;
    for i := 0 to 12
      invariant h == HashOf(buf, i)
    {
      h := (h * 31 + buf[i] as nat) % 0x1_0000_0000;
    }
  }

  /** The bytes as the digits of a number in base 31. */
  function Base31(buf: seq<byte>, n: nat): nat
    requires n <= |buf|
  {
    if n == 0 then 0 else 31 * Base31(buf, n - 1) + buf[n - 1] as nat
  }

  /** Wrapping at every step is wrapping once. */
  lemma {:induction false} HashIs(buf: seq<byte>, n: nat)
    requires n <= |buf|
    ensures HashOf(buf, n) == Base31(buf, n) % 0x1_0000_0000
  {
    if n > 0 {
      HashIs(buf, n - 1);
      WrapOnce(Base31(buf, n - 1), buf[n - 1] as nat);
    }
  }

  lemma WrapOnce(x: nat, d: nat)
    ensures ((x % 0x1_0000_0000) * 31 + d) % 0x1_0000_0000 == (31 * x + d) % 0x1_0000_0000
  {
    var q, r := x / 0x1_0000_0000, x % 0x1_0000_0000;
    var y := r * 31 + d;
    assert 31 * x + d == 0x1_0000_0000 * (31 * q) + y;
    DropWhole(31 * q, y);
  }

  lemma DropWhole(q: nat, y: nat)
    ensures (0x1_0000_0000 * q + y) % 0x1_0000_0000 == y % 0x1_0000_0000
  {
  }

  /** Only the two addresses count: a conversation keeps to one member. */
  lemma {:induction false} SameConversation(a: seq<byte>, b: seq<byte>, n: nat)
    requires n <= |a| && n <= |b| && a[..n] == b[..n]
    ensures HashOf(a, n) == HashOf(b, n)
  {
    if n > 0 {
      assert a[n - 1] == a[..n][n - 1] && b[n - 1] == b[..n][n - 1];
      assert a[..n - 1] == a[..n][..n - 1] && b[..n - 1] == b[..n][..n - 1];
      SameConversation(a, b, n - 1);
    }
  }

  // ----- one copy a LAG -----

  /** LAG k has a port among these. */
  ghost predicate Touches(ps: Ports, ports: set<nat>, k: nat) {
    exists p :: p in ports && LagOf(ps, p) == k
  }

  /** Of these ports: those in no LAG, and each LAG's picked member. */
  ghost predicate Stays(ps: Ports, ports: set<nat>, hash: nat, p: nat) {
    p in ports && (LagOf(ps, p) == 0 || Pick(ps, LagOf(ps, p), hash) == Some(p))
  }

  /** LAG members are all dropped, then each LAG's pick is put back. */
  method FloodMask(ps: Ports, ports: set<nat>, hash: nat) returns (out: set<nat>)
    requires Consistent(ps)
    ensures forall p :: p in out <==> Stays(ps, ports, hash, p)
  {
    out := ports;
    var seen: set<nat> := {};
    var todo := ports;
    while todo != {}
      invariant todo <= ports
      invariant forall p :: p in out <==> p in ports && (p in todo || LagOf(ps, p) == 0)
      invariant forall k: nat :: k in seen <==> k != 0 && Touches(ps, ports - todo, k)
      decreases todo
    {
      var p :| p in todo;
      todo := todo - {p};
      assert ports - todo == (ports - todo - {p}) + {p};
      if LagOf(ps, p) != 0 {
        out := out - {p};
        seen := seen + {LagOf(ps, p)};
      }
      SeenNext(ps, ports - todo, p);
    }
    assert ports - todo == ports;
    var k := 1;
    while k <= MAX_LAGS
      invariant 1 <= k <= MAX_LAGS + 1
      invariant forall p :: p in out <==>
        p in ports && (LagOf(ps, p) == 0 || (LagOf(ps, p) < k && Pick(ps, LagOf(ps, p), hash) == Some(p)))
    {
      var pick := Pick(ps, k, hash);
      if pick.Some? {
        PickClaimed(ps, k, hash);
      }
      if k in seen && pick.Some? && pick.value in ports {
        out := out + {pick.value};
      } else if pick.Some? && pick.value in ports {
        assert Touches(ps, ports, k);
      }
      k := k + 1;
    }
  }

  lemma SeenNext(ps: Ports, done: set<nat>, p: nat)
    requires p in done
    ensures forall k :: Touches(ps, done, k) <==> Touches(ps, done - {p}, k) || k == LagOf(ps, p)
  {
    forall k ensures Touches(ps, done, k) <==> Touches(ps, done - {p}, k) || k == LagOf(ps, p) {
      if Touches(ps, done, k) && k != LagOf(ps, p) {
        var q :| q in done && LagOf(ps, q) == k;
        assert q in done - {p};
      }
    }
  }

  // ----- transmit -----

  datatype Sent = Sent(ports: set<nat>, untagged: set<nat>)

  predicate Multicast(buf: seq<byte>) {
    |buf| > 0 && buf[0] % 2 == 1
  }

  /** The one port a known unicast destination is behind, if that is a member. */
  function Known(ps: Ports, members: set<nat>, buf: seq<byte>, at: Option<Place>): Option<nat>
    requires |buf| >= 12
  {
    if Multicast(buf) || at.None? then None
    else
      var p := match at.value
        case OnPort(port) => Some(port)
        case OnTrunk(lag) => Pick(ps, lag, HashOf(buf, 12));
      if p.Some? && p.value in members then p else None
  }

  /** vlan: its members and untagged members, if it is a user VLAN. Nothing is
      sent when nothing is left. */
  method TxSvi(ps: Ports, vlan: Option<(set<nat>, set<nat>)>, buf: seq<byte>, at: Option<Place>)
    returns (r: Option<Sent>)
    requires Consistent(ps)
    ensures |buf| < 12 || vlan.None? ==> r.None?
    ensures r.Some? ==> r.value.ports != {} && r.value.ports <= vlan.value.0 && r.value.ports !! ps.blocked
    ensures r.Some? ==> r.value.untagged == r.value.ports * vlan.value.1
    ensures r.Some? ==> forall p, q ::
      p in r.value.ports && q in r.value.ports && LagOf(ps, p) == LagOf(ps, q) != 0 ==> p == q
    ensures |buf| >= 12 && vlan.Some? && Known(ps, vlan.value.0, buf, at).None? ==>
      forall p :: Reaches(r, p) <==> p !in ps.blocked && Stays(ps, vlan.value.0, HashOf(buf, 12), p)
    ensures |buf| >= 12 && vlan.Some? && Known(ps, vlan.value.0, buf, at).Some? ==>
      var p := Known(ps, vlan.value.0, buf, at).value;
      if p !in ps.blocked && Stays(ps, {p}, HashOf(buf, 12), p) then r.Some? && r.value.ports == {p} else r.None?
  {
    if |buf| < 12 || vlan.None? {
      return None;
    }
    var m, u := vlan.value.0, vlan.value.1;
    var pbm := m;
    var hash := FrameHash(buf);
    var p: Option<nat> := None;
    if buf[0] % 2 == 0 {
      if at.Some? {
        match at.value
        case OnPort(port) => p := Some(port);
        case OnTrunk(lag) => p := Pick(ps, lag, hash);
      }
      if p.Some? && p.value in m {
        pbm := {p.value};
      }
    }
    ghost var asked := pbm;
    pbm := FloodMask(ps, pbm, hash);
    pbm := Forwarding(ps, pbm);
    assert forall q :: q in pbm <==> q !in ps.blocked && Stays(ps, asked, hash, q);
    if pbm == {} {
      return None;
    }
    return Some(Sent(pbm, pbm * u));
  }

  predicate Reaches(r: Option<Sent>, p: nat) {
    r.Some? && p in r.value.ports
  }

  /** The spanning tree's say, port by port. */
  method Forwarding(ps: Ports, ports: set<nat>) returns (out: set<nat>)
    ensures out == ports - ps.blocked
  {
    out := ports;
    var todo := ports;
    while todo != {}
      invariant todo <= ports && forall q :: q in out <==> q in ports && (q in todo || q !in ps.blocked)
      decreases todo
    {
      var q :| q in todo;
      todo := todo - {q};
      if q in ps.blocked {
        out := out - {q};
      }
    }
  }

  /** Behind a trunk, or a port in no LAG: the flood mask leaves the one port
      alone. Learned on a LAG's member by itself it may be masked out -- exactly
      when the hash picks another. */
  lemma KnownStays(ps: Ports, members: set<nat>, buf: seq<byte>, at: Place)
    requires Consistent(ps) && |buf| >= 12 && Known(ps, members, buf, Some(at)).Some?
    ensures var p, h := Known(ps, members, buf, Some(at)).value, HashOf(buf, 12);
      (at.OnTrunk? ==> Stays(ps, {p}, h, p)) && (at.OnPort? && LagOf(ps, p) == 0 ==> Stays(ps, {p}, h, p)) &&
      (at.OnPort? && LagOf(ps, p) != 0 ==> (Stays(ps, {p}, h, p) <==> Pick(ps, LagOf(ps, p), h) == Some(p)))
  {
    if at.OnTrunk? {
      PickClaimed(ps, at.lag, HashOf(buf, 12));
    }
  }

  /** A LAG with a member in the VLAN: its one copy goes by its picked member,
      if that member is in the VLAN. */
  lemma OneCopy(ps: Ports, members: set<nat>, hash: nat, k: nat)
    requires Consistent(ps) && 1 <= k <= MAX_LAGS && Pick(ps, k, hash).Some?
    ensures forall p :: LagOf(ps, p) == k ==>
      (Stays(ps, members, hash, p) <==> p in members && Pick(ps, k, hash) == Some(p))
    ensures Stays(ps, members, hash, Pick(ps, k, hash).value) <==> Pick(ps, k, hash).value in members
  {
    PickClaimed(ps, k, hash);
  }

  /** Ports 1 and 2 in LAG 1, both distributing; a unicast frame whose hash is
      even, to a destination learned on port 2. */
  function TwoMembers(): Ports {
    Ports(seq(MAX_PORT, p => if p == 1 || p == 2 then 1 else 0),
          seq(MAX_LAGS + 1, k => if k == 1 then [1, 2] else []), {})
  }

  /** The hash picks port 1: the frame goes nowhere, though port 2 is up,
      forwarding and in the VLAN. */
  method SentNowhere() returns (r: Option<Sent>)
    ensures r.None?
  {
    var buf: seq<byte> := seq(12, _ => 0);
    ZeroHash(buf, 12);
    assert !Stays(TwoMembers(), {2}, 0, 2) by {
      assert TwoMembers().dports[1] == [1, 2];
    }
    r := TxSvi(TwoMembers(), Some(({1, 2}, {})), buf, Some(OnPort(2)));
  }

  lemma {:induction false} ZeroHash(buf: seq<byte>, n: nat)
    requires n <= |buf| && forall i :: 0 <= i < |buf| ==> buf[i] == 0
    ensures HashOf(buf, n) == 0
  {
    if n > 0 {
      ZeroHash(buf, n - 1);
    }
  }
}
