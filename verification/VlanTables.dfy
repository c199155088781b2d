/**
 The tables that say which interface is in which VLAN, and the one fact they
 all restate. An interface is a front-panel port (named by its tap's index) or
 a LAG (64 plus its number); a port in a LAG is kept by the LAG. `own` is the
 fact: for each interface, its VLANs and whether it is tagged there. The
 software's member and untagged bitmaps, the per-LAG records, the counters,
 the chip's VLAN table, the claims on ports and the chip's flood-block pairs
 must all agree with it.
 */
module VlanTables {

  const MAX_VID: nat := 4096
  const MAX_TAPS: nat := 64
  const MAX_LAGS: nat := 64
  const MAX_LAGM: nat := 16
  const NIFACE: nat := 129
  const LAG_SVC_BASE: nat := 4000

  datatype Lag = Lag(used: bool, m: seq<nat>)

  /** svc: each tap's service VLAN, where its port lives while routed.
      lagvl: 0 not in, 1 untagged, 2 tagged. chip, chipU: the chip's members
      and untagged members. */
  datatype Tables = Tables(svc: seq<nat>, user: set<nat>, members: seq<set<nat>>, untagged: seq<set<nat>>,
                           lagvl: seq<seq<nat>>, switched: seq<nat>, tunnel: seq<nat>,
                           lags: seq<Lag>, claimed: seq<nat>, pairs: set<(nat, nat)>,
                           chip: seq<set<nat>>, chipU: seq<set<nat>>)

  /** One interface's VLANs: true is tagged. */
  type Vlans = map<nat, bool>

  predicate Sized(t: Tables, own: seq<Vlans>) {
    |t.svc| <= MAX_TAPS && |t.members| == MAX_VID && |t.untagged| == MAX_VID &&
    |t.chip| == MAX_VID && |t.chipU| == MAX_VID && |t.switched| == NIFACE && |t.tunnel| == NIFACE &&
    |t.lagvl| == MAX_LAGS + 1 && (forall k :: 0 <= k <= MAX_LAGS ==> |t.lagvl[k]| == MAX_VID) &&
    |t.lags| == MAX_LAGS + 1 && |t.claimed| == |t.svc| && |own| == NIFACE
  }

  predicate LagVid(v: int) {
    LAG_SVC_BASE < v <= LAG_SVC_BASE + MAX_LAGS
  }

  /** Each tap has a service VLAN of its own, away from the LAGs'. */
  predicate Configured(svc: seq<nat>) {
    (forall i :: 0 <= i < |svc| ==> 1 <= svc[i] < MAX_VID && !LagVid(svc[i])) &&
    forall i, j :: 0 <= i < j < |svc| ==> svc[i] != svc[j]
  }

  predicate Reserved(svc: seq<nat>, v: int) {
    LagVid(v) || exists i :: 0 <= i < |svc| && svc[i] == v
  }

  predicate IsIface(t: Tables, key: int) {
    0 <= key < |t.svc| || MAX_TAPS < key < NIFACE
  }

  function LagKey(k: nat): nat { MAX_TAPS + k }

  function Svc(t: Tables, key: int): nat
    requires Sized0(t) && IsIface(t, key)
  {
    if key < MAX_TAPS then t.svc[key] else LAG_SVC_BASE + (key - MAX_TAPS)
  }

  predicate Sized0(t: Tables) { |t.svc| <= MAX_TAPS && |t.claimed| == |t.svc| }

  /** Which interface a port belongs to: its LAG, or itself. */
  function Keeper(t: Tables, i: nat): nat
    requires i < |t.claimed|
  {
    if t.claimed[i] != 0 then LagKey(t.claimed[i]) else i
  }

  /** Where the chip should have an interface's ports: in its VLANs, or if it
      has none in its service VLAN. */
  predicate InChip(vs: Vlans, svc: nat, v: nat) {
    if vs == map[] then v == svc else v in vs
  }

  predicate UntaggedInChip(vs: Vlans, svc: nat, v: nat) {
    if vs == map[] then v == svc else v in vs && !vs[v]
  }

  function Code(vs: Vlans, v: nat): nat {
    if v !in vs then 0 else if vs[v] then 2 else 1
  }

  ghost predicate OneNative(vs: Vlans) {
    forall v, w :: v in vs && w in vs && !vs[v] && !vs[w] ==> v == w
  }

  // ----- agreement, table by table -----

  /** Port i's bits for VLAN v, in software and in the chip. */
  predicate TapAgrees(t: Tables, own: seq<Vlans>, i: nat, v: nat) {
    Sized(t, own) && i < |t.svc| && v < MAX_VID && IsIface(t, Keeper(t, i)) &&
    var vs, svc := own[Keeper(t, i)], Svc(t, Keeper(t, i));
    (i in t.members[v] <==> v in vs) && (i in t.untagged[v] <==> v in vs && !vs[v]) &&
    (i in t.chip[v] <==> InChip(vs, svc, v)) && (i in t.chipU[v] <==> UntaggedInChip(vs, svc, v))
  }

  predicate LagAgrees(t: Tables, own: seq<Vlans>, k: nat, v: nat) {
    Sized(t, own) && 1 <= k <= MAX_LAGS && v < MAX_VID && t.lagvl[k][v] == Code(own[LagKey(k)], v)
  }

  /** One interface: its count, its user VLANs, its one native VLAN, and as a
      tunnel port nothing else. */
  ghost predicate IfaceAgrees(t: Tables, own: seq<Vlans>, key: nat) {
    Sized(t, own) && key < NIFACE && t.switched[key] == |own[key]| && OneNative(own[key]) &&
    (forall v :: v in own[key] ==> v in t.user) &&
    (t.tunnel[key] != 0 ==> own[key] == map[t.tunnel[key] := false])
  }

  /** A claim and the claimant's member list; a claimed port has no VLANs of its own. */
  predicate ClaimAgrees(t: Tables, own: seq<Vlans>, i: nat) {
    Sized(t, own) && i < |t.svc| && t.claimed[i] <= MAX_LAGS &&
    (t.claimed[i] != 0 ==> i in t.lags[t.claimed[i]].m && own[i] == map[])
  }

  ghost predicate Distinct(s: seq<nat>) {
    forall i, j :: 0 <= i < j < |s| ==> s[i] != s[j]
  }

  ghost predicate LagSound(t: Tables, own: seq<Vlans>, k: nat) {
    Sized(t, own) && 1 <= k <= MAX_LAGS && |t.lags[k].m| <= MAX_LAGM && Distinct(t.lags[k].m) &&
    (forall p :: p in t.lags[k].m ==> p < |t.svc| && t.claimed[p] == k) &&
    (!t.lags[k].used ==> t.lags[k].m == [] && own[LagKey(k)] == map[])
  }

  /** Members of one LAG, two different ones, and no other pair. */
  predicate PairAgrees(t: Tables, p: nat, q: nat) {
    p < |t.claimed| && q < |t.claimed| &&
    ((p, q) in t.pairs <==> p != q && t.claimed[p] == t.claimed[q] != 0)
  }

  ghost predicate UserSound(t: Tables) {
    Configured(t.svc) && forall v :: v in t.user ==> 1 <= v < MAX_VID - 1 && !Reserved(t.svc, v)
  }

  ghost predicate Agree(t: Tables, own: seq<Vlans>) {
    Sized(t, own) && UserSound(t) &&
    (forall i, v {:trigger TapAgrees(t, own, i, v)} :: 0 <= i < |t.svc| && 0 <= v < MAX_VID ==>
      TapAgrees(t, own, i, v)) &&
    (forall k, v {:trigger LagAgrees(t, own, k, v)} :: 1 <= k <= MAX_LAGS && 0 <= v < MAX_VID ==>
      LagAgrees(t, own, k, v)) &&
    (forall key {:trigger IfaceAgrees(t, own, key)} :: IsIface(t, key) ==> IfaceAgrees(t, own, key)) &&
    (forall i {:trigger ClaimAgrees(t, own, i)} :: 0 <= i < |t.svc| ==> ClaimAgrees(t, own, i)) &&
    (forall k {:trigger LagSound(t, own, k)} :: 1 <= k <= MAX_LAGS ==> LagSound(t, own, k)) &&
    (forall p, q {:trigger PairAgrees(t, p, q)} :: 0 <= p < |t.svc| && 0 <= q < |t.svc| ==> PairAgrees(t, p, q))
  }

  /** What agreement says of any port in any VLAN, without naming `own`: untagged
      is within members; the chip has it in its own service VLAN exactly when it
      is unclaimed and in no VLAN; and a LAG's member is exactly where the LAG's
      record says. */
  lemma AgreementMeans(t: Tables, own: seq<Vlans>, i: nat, v: nat)
    requires Agree(t, own) && i < |t.svc| && v < MAX_VID
    ensures t.claimed[i] <= MAX_LAGS
    ensures i in t.untagged[v] ==> i in t.members[v]
    ensures i in t.members[v] ==> v in t.user && i in t.chip[v]
    ensures v in t.user ==> (i in t.chip[v] <==> i in t.members[v]) && (i in t.chipU[v] <==> i in t.untagged[v])
    ensures v == t.svc[i] ==> (i in t.chip[v] <==> t.claimed[i] == 0 && t.switched[i] == 0)
    ensures t.claimed[i] != 0 ==>
      (i in t.members[v] <==> t.lagvl[t.claimed[i]][v] != 0) && (i in t.untagged[v] <==> t.lagvl[t.claimed[i]][v] == 1)
  {
    assert ClaimAgrees(t, own, i);
    var key := Keeper(t, i);
    assert TapAgrees(t, own, i, v) && IfaceAgrees(t, own, key);
    if t.claimed[i] != 0 {
      assert LagAgrees(t, own, t.claimed[i], v);
    }
    UserIsNoService(t, key, v);
    OnlyItsOwnService(t, i);
    assert |own[key]| == 0 <==> own[key] == map[];
  }

  lemma UserIsNoService(t: Tables, key: nat, v: nat)
    requires UserSound(t) && Sized0(t) && IsIface(t, key)
    ensures v in t.user ==> Svc(t, key) != v
  {
  }

  lemma OnlyItsOwnService(t: Tables, i: nat)
    requires UserSound(t) && Sized0(t) && i < |t.svc| && t.claimed[i] <= MAX_LAGS
    ensures t.claimed[i] != 0 ==> Svc(t, Keeper(t, i)) != t.svc[i]
    ensures t.svc[i] !in t.user
  {
  }

  // ----- leaving and joining one VLAN -----

  /** These are the ports that move with the interface. */
  predicate PortsOf(t: Tables, key: nat, ports: set<nat>) {
    forall i :: 0 <= i < |t.claimed| ==> (i in ports <==> Keeper(t, i) == key)
  }

  /** Out of a VLAN, and back into the service VLAN if it was the last. */
  function Left(t: Tables, key: nat, ports: set<nat>, v: nat): Tables
    requires Sized1(t) && IsIface(t, key) && v < MAX_VID && Svc(t, key) < MAX_VID
  {
    var n := if t.switched[key] > 0 then t.switched[key] - 1 else 0;
    var chip, chipU := Dropped(t.chip, v, ports), Dropped(t.chipU, v, ports);
    t.(members := Dropped(t.members, v, ports), untagged := Dropped(t.untagged, v, ports),
       lagvl := if key > MAX_TAPS then Recorded(t.lagvl, key - MAX_TAPS, v, 0) else t.lagvl,
       tunnel := if t.tunnel[key] == v then t.tunnel[key := 0] else t.tunnel,
       switched := t.switched[key := n],
       chip := if n > 0 then chip else Added(chip, Svc(t, key), ports),
       chipU := if n > 0 then chipU else Added(chipU, Svc(t, key), ports))
  }

  /** Into a VLAN, out of the service VLAN if it is the first. */
  function Entered(t: Tables, key: nat, ports: set<nat>, v: nat, tagged: bool): Tables
    requires Sized1(t) && IsIface(t, key) && v < MAX_VID && Svc(t, key) < MAX_VID
  {
    var first := t.switched[key] == 0;
    var chip := if first then Dropped(t.chip, Svc(t, key), ports) else t.chip;
    var chipU := if first then Dropped(t.chipU, Svc(t, key), ports) else t.chipU;
    t.(members := Added(t.members, v, ports),
       untagged := if tagged then t.untagged else Added(t.untagged, v, ports),
       lagvl := if key > MAX_TAPS then Recorded(t.lagvl, key - MAX_TAPS, v, if tagged then 2 else 1) else t.lagvl,
       switched := t.switched[key := t.switched[key] + 1],
       chip := Added(chip, v, ports), chipU := if tagged then chipU else Added(chipU, v, ports))
  }

  predicate Sized1(t: Tables) {
    |t.svc| <= MAX_TAPS && |t.claimed| == |t.svc| && |t.members| == MAX_VID && |t.untagged| == MAX_VID &&
    |t.chip| == MAX_VID && |t.chipU| == MAX_VID && |t.switched| == NIFACE && |t.tunnel| == NIFACE &&
    |t.lagvl| == MAX_LAGS + 1 && (forall k :: 0 <= k <= MAX_LAGS ==> |t.lagvl[k]| == MAX_VID)
  }

  function Dropped(table: seq<set<nat>>, v: nat, ports: set<nat>): (r: seq<set<nat>>)
    requires v < |table|
    ensures |r| == |table|
  {
    table[v := table[v] - ports]
  }

  function Added(table: seq<set<nat>>, v: nat, ports: set<nat>): (r: seq<set<nat>>)
    requires v < |table|
    ensures |r| == |table|
  {
    table[v := table[v] + ports]
  }

  function Recorded(lagvl: seq<seq<nat>>, k: nat, v: nat, code: nat): seq<seq<nat>>
    requires k < |lagvl| && v < |lagvl[k]|
  {
    var row: seq<nat> := lagvl[k][v := code];
    lagvl[k := row]
  }

  /** The interface's VLANs without one. */
  function Without(own: seq<Vlans>, key: nat, v: nat): seq<Vlans>
    requires key < |own|
  {
    own[key := own[key] - {v}]
  }

  function With(own: seq<Vlans>, key: nat, v: nat, tagged: bool): seq<Vlans>
    requires key < |own|
  {
    var vs: Vlans := own[key][v := tagged];
    own[key := vs]
  }

  /** Same taps, LAGs, claims, pairs: only VLAN membership of one interface moved. */
  lemma FrameAgrees(t: Tables, u: Tables, own: seq<Vlans>, own': seq<Vlans>, key: nat)
    requires Agree(t, own) && Sized(u, own') && IsIface(t, key) && own' == own[key := own'[key]]
    requires u.svc == t.svc && u.user == t.user && u.lags == t.lags && u.claimed == t.claimed && u.pairs == t.pairs
    requires key < |t.svc| ==> t.claimed[key] == 0
    requires key > MAX_TAPS ==> t.lags[key - MAX_TAPS].used
    requires IfaceAgrees(u, own', key)
    requires forall n :: 0 <= n < NIFACE && n != key ==> u.switched[n] == t.switched[n] && u.tunnel[n] == t.tunnel[n]
    requires forall i, v {:trigger TapAgrees(u, own', i, v)} :: 0 <= i < |t.svc| && 0 <= v < MAX_VID ==>
      TapAgrees(u, own', i, v)
    requires forall k, v {:trigger LagAgrees(u, own', k, v)} :: 1 <= k <= MAX_LAGS && 0 <= v < MAX_VID ==>
      LagAgrees(u, own', k, v)
    ensures Agree(u, own')
  {
    forall n | IsIface(u, n) ensures IfaceAgrees(u, own', n) {
      assert IfaceAgrees(t, own, n);
    }
    forall i | 0 <= i < |u.svc| ensures ClaimAgrees(u, own', i) {
      assert ClaimAgrees(t, own, i);
    }
    forall k | 1 <= k <= MAX_LAGS ensures LagSound(u, own', k) {
      assert LagSound(t, own, k);
    }
    forall p, q | 0 <= p < |u.svc| && 0 <= q < |u.svc| ensures PairAgrees(u, p, q) {
      assert PairAgrees(t, p, q);
    }
  }

  /** The interface may be named: a port no LAG has claimed, or a LAG that exists. */
  predicate Free(t: Tables, key: nat) {
    IsIface(t, key) && Sized0(t) && |t.lags| == MAX_LAGS + 1 &&
    (if key < |t.svc| then t.claimed[key] == 0 else t.lags[key - MAX_TAPS].used)
  }

  lemma MapWithout(m: Vlans, v: nat)
    requires v in m
    ensures |m - {v}| == |m| - 1
  {
    assert m == (m - {v})[v := m[v]];
  }

  lemma LeftAgrees(t: Tables, own: seq<Vlans>, key: nat, ports: set<nat>, v: nat)
    requires Agree(t, own) && Free(t, key) && PortsOf(t, key, ports) && v in own[key] && v < MAX_VID
    requires Svc(t, key) < MAX_VID
    ensures Agree(Left(t, key, ports, v), Without(own, key, v))
  {
    var u, own' := Left(t, key, ports, v), Without(own, key, v);
    assert IfaceAgrees(t, own, key);
    MapWithout(own[key], v);
    UserIsNoService(t, key, v);
    forall i, w | 0 <= i < |t.svc| && 0 <= w < MAX_VID ensures TapAgrees(u, own', i, w) {
      assert TapAgrees(t, own, i, w);
      LeftTap(t, own, key, ports, v, i, w);
    }
    forall k, w | 1 <= k <= MAX_LAGS && 0 <= w < MAX_VID ensures LagAgrees(u, own', k, w) {
      assert LagAgrees(t, own, k, w);
      LeftLag(t, own, key, ports, v, k, w);
    }
    FrameAgrees(t, u, own, own', key);
  }

  lemma LeftLag(t: Tables, own: seq<Vlans>, key: nat, ports: set<nat>, v: nat, k: nat, w: nat)
    requires Sized(t, own) && IsIface(t, key) && v < MAX_VID && Svc(t, key) < MAX_VID && LagAgrees(t, own, k, w)
    ensures LagAgrees(Left(t, key, ports, v), Without(own, key, v), k, w)
  {
  }

  lemma LeftTap(t: Tables, own: seq<Vlans>, key: nat, ports: set<nat>, v: nat, i: nat, w: nat)
    requires Sized(t, own) && IsIface(t, key) && PortsOf(t, key, ports) && v in own[key] && v < MAX_VID
    requires Svc(t, key) < MAX_VID && v != Svc(t, key) && TapAgrees(t, own, i, w) && t.switched[key] == |own[key]|
    ensures TapAgrees(Left(t, key, ports, v), Without(own, key, v), i, w)
  {
    MapWithout(own[key], v);
    var u, vs := Left(t, key, ports, v), own[key] - {v};
    assert |vs| == 0 <==> vs == map[];
    if Keeper(t, i) == key {
      assert i in u.chip[w] <==> (vs == map[] && w == Svc(t, key)) || w in vs;
      assert i in u.chipU[w] <==> (vs == map[] && w == Svc(t, key)) || (w in vs && !vs[w]);
    }
  }

  lemma EnteredAgrees(t: Tables, own: seq<Vlans>, key: nat, ports: set<nat>, v: nat, tagged: bool)
    requires Agree(t, own) && Free(t, key) && PortsOf(t, key, ports) && v !in own[key] && v < MAX_VID
    requires Svc(t, key) < MAX_VID && v in t.user && t.tunnel[key] == 0
    requires !tagged ==> forall w :: w in own[key] ==> own[key][w]
    ensures Agree(Entered(t, key, ports, v, tagged), With(own, key, v, tagged))
  {
    var u, own' := Entered(t, key, ports, v, tagged), With(own, key, v, tagged);
    assert IfaceAgrees(t, own, key);
    UserIsNoService(t, key, v);
    forall i, w | 0 <= i < |t.svc| && 0 <= w < MAX_VID ensures TapAgrees(u, own', i, w) {
      assert TapAgrees(t, own, i, w);
      EnteredTap(t, own, key, ports, v, tagged, i, w);
    }
    forall k, w | 1 <= k <= MAX_LAGS && 0 <= w < MAX_VID ensures LagAgrees(u, own', k, w) {
      assert LagAgrees(t, own, k, w);
      EnteredLag(t, own, key, ports, v, tagged, k, w);
    }
    FrameAgrees(t, u, own, own', key);
  }

  lemma EnteredLag(t: Tables, own: seq<Vlans>, key: nat, ports: set<nat>, v: nat, tagged: bool, k: nat, w: nat)
    requires Sized(t, own) && IsIface(t, key) && v < MAX_VID && Svc(t, key) < MAX_VID && LagAgrees(t, own, k, w)
    ensures LagAgrees(Entered(t, key, ports, v, tagged), With(own, key, v, tagged), k, w)
  {
  }

  lemma EnteredTap(t: Tables, own: seq<Vlans>, key: nat, ports: set<nat>, v: nat, tagged: bool, i: nat, w: nat)
    requires Sized(t, own) && IsIface(t, key) && PortsOf(t, key, ports) && v !in own[key] && v < MAX_VID
    requires Svc(t, key) < MAX_VID && v != Svc(t, key) && TapAgrees(t, own, i, w) && t.switched[key] == |own[key]|
    ensures TapAgrees(Entered(t, key, ports, v, tagged), With(own, key, v, tagged), i, w)
  {
    assert |own[key]| == 0 <==> own[key] == map[];
    var u, vs := Entered(t, key, ports, v, tagged), own[key];
    if Keeper(t, i) == key {
      assert i in u.chip[w] <==> w == v || (vs != map[] && w in vs);
      assert i in u.chipU[w] <==> (w == v && !tagged) || (vs != map[] && w in vs && !vs[w]);
    }
  }

  // ----- reading the tables -----

  /** How requests name an interface. */
  datatype Name = Port(i: nat) | Po(k: nat) | NoSuch

  predicate Known(t: Tables, name: Name) {
    match name
    case Port(i) => i < |t.svc|
    case Po(k) => 1 <= k <= MAX_LAGS && |t.lags| == MAX_LAGS + 1 && t.lags[k].used
    case NoSuch => false
  }

  function KeyOf(name: Name): nat {
    match name
    case Port(i) => i
    case Po(k) => LagKey(k)
    case NoSuch => 0
  }

  predicate Member(t: Tables, name: Name) {
    name.Port? && name.i < |t.claimed| && t.claimed[name.i] != 0
  }

  /** A LAG's own record says where it is; a port's bits do. */
  predicate InVlan(t: Tables, key: nat, v: nat)
    requires Sized1(t) && key < NIFACE && v < MAX_VID
  {
    if key > MAX_TAPS then t.lagvl[key - MAX_TAPS][v] != 0 else key in t.members[v]
  }

  predicate UntaggedIn(t: Tables, key: nat, v: nat)
    requires Sized1(t) && key < NIFACE && v < MAX_VID
  {
    if key > MAX_TAPS then t.lagvl[key - MAX_TAPS][v] == 1 else key in t.untagged[v]
  }

  function PortSetOf(t: Tables, key: nat): set<nat>
    requires |t.lags| == MAX_LAGS + 1 && key < NIFACE
  {
    if key > MAX_TAPS then Elements(t.lags[key - MAX_TAPS].m) else {key}
  }

  function Elements(s: seq<nat>): set<nat> {
    set p | p in s
  }

  lemma Reading(t: Tables, own: seq<Vlans>, key: nat)
    requires Agree(t, own) && Free(t, key)
    ensures PortsOf(t, key, PortSetOf(t, key)) && 1 <= Svc(t, key) < MAX_VID
    ensures forall v :: 0 <= v < MAX_VID ==> (InVlan(t, key, v) <==> v in own[key])
    ensures forall v :: 0 <= v < MAX_VID ==> (UntaggedIn(t, key, v) <==> v in own[key] && !own[key][v])
    ensures forall v :: v in own[key] ==> v in t.user && 1 <= v < MAX_VID - 1
    ensures t.switched[key] == |own[key]| && OneNative(own[key])
    ensures t.tunnel[key] != 0 ==> own[key] == map[t.tunnel[key] := false]
  {
    assert IfaceAgrees(t, own, key);
    forall i | 0 <= i < |t.claimed| ensures i in PortSetOf(t, key) <==> Keeper(t, i) == key {
      assert ClaimAgrees(t, own, i);
      if key > MAX_TAPS {
        assert LagSound(t, own, key - MAX_TAPS);
      }
    }
    forall v | 0 <= v < MAX_VID
      ensures (InVlan(t, key, v) <==> v in own[key]) && (UntaggedIn(t, key, v) <==> v in own[key] && !own[key][v])
    {
      if key > MAX_TAPS {
        assert LagAgrees(t, own, key - MAX_TAPS, v);
      } else {
        assert TapAgrees(t, own, key, v);
      }
    }
  }

  /** A member port a LAG's record puts in a VLAN its own bits do not: no
      assignment of VLANs to interfaces accounts for the tables. */
  lemma NoAccount(t: Tables, i: nat, v: nat, own: seq<Vlans>)
    requires Sized(t, own) && i < |t.svc| && 1 <= t.claimed[i] <= MAX_LAGS && v < MAX_VID
    requires t.lagvl[t.claimed[i]][v] != 0 && i !in t.members[v]
    ensures !Agree(t, own)
  {
    if Agree(t, own) {
      AgreementMeans(t, own, i, v);
      assert false;
    }
  }

  /** Port i is in a LAG that is in the VLAN. */
  predicate MemberIn(t: Tables, own: seq<Vlans>, i: nat, v: int) {
    Sized(t, own) && i < |t.svc| && 1 <= t.claimed[i] <= MAX_LAGS && v in own[LagKey(t.claimed[i])]
  }

  /** Port i is in a LAG that is in some other VLAN. */
  ghost predicate StrayIn(t: Tables, own: seq<Vlans>, i: nat, vid: int) {
    exists v :: v != vid && MemberIn(t, own, i, v)
  }

  ghost predicate Accounted(t: Tables) {
    exists own :: Agree(t, own)
  }

  // ----- what the operations do to an interface's VLANs -----

  /** Native in one VLAN, native in no other. */
  function Placed(vs: Vlans, vid: nat, tagged: bool): Vlans {
    if tagged then vs[vid := true] else (map v | v in vs && vs[v] :: true)[vid := false]
  }

  /** Those below n given up that are native, except vid. */
  function Cleared(vs: Vlans, vid: nat, n: nat): Vlans {
    map v | v in vs && !(v < n && v != vid && !vs[v]) :: vs[v]
  }

  /** Those below n given up, except vid. */
  function Emptied(vs: Vlans, vid: nat, n: nat): Vlans {
    map v | v in vs && !(v < n && v != vid) :: vs[v]
  }

  lemma UserInRange(t: Tables, v: nat)
    requires UserSound(t) && v in t.user
    ensures 1 <= v < MAX_VID - 1
  {
  }

  lemma ClearedNone(vs: Vlans, vid: nat, n: nat)
    requires forall v :: v in vs ==> v >= n
    ensures Cleared(vs, vid, n) == vs && Emptied(vs, vid, n) == vs
  {
  }

  lemma ClearedNext(vs: Vlans, vid: nat, n: nat)
    ensures Cleared(vs, vid, n + 1) == if n != vid && n in vs && !vs[n] then Cleared(vs, vid, n) - {n}
      else Cleared(vs, vid, n)
    ensures Emptied(vs, vid, n + 1) == if n != vid && n in vs then Emptied(vs, vid, n) - {n} else Emptied(vs, vid, n)
  {
  }

  lemma ClearedAll(vs: Vlans, vid: nat, n: nat)
    requires forall v :: v in vs ==> v < n
    ensures Cleared(vs, vid, n) == Natives(vs, vid)
    ensures Emptied(vs, vid, n) == if vid in vs then map[vid := vs[vid]] else map[]
  {
  }

  lemma InRange(t: Tables, own: seq<Vlans>, key: nat)
    requires Agree(t, own) && IsIface(t, key)
    ensures forall v :: v in own[key] ==> 1 <= v < MAX_VID - 1
  {
    assert IfaceAgrees(t, own, key);
  }

  /** A tunnel port is in its service VLAN, untagged, and no other. */
  lemma NotTunnel(t: Tables, own: seq<Vlans>, key: nat, v: nat)
    requires Agree(t, own) && IsIface(t, key) && v != 0
    ensures t.tunnel[key] != 0 ==> own[key] == map[t.tunnel[key] := false]
    ensures t.tunnel[key] == v ==> own[key] == map[v := false]
    ensures v in own[key] && t.tunnel[key] != 0 ==> v == t.tunnel[key]
  {
    assert IfaceAgrees(t, own, key);
  }

  function Natives(vs: Vlans, vid: nat): Vlans {
    map v | v in vs && (v == vid || vs[v]) :: vs[v]
  }

  /** However the interface stood in the VLAN, leaving it where it must and
      entering again places it. */
  lemma PlacedBy(vs: Vlans, vid: nat, tagged: bool)
    ensures var ws := if tagged then vs else Natives(vs, vid);
      (vid in ws && ws[vid] == tagged ==> ws == Placed(vs, vid, tagged)) &&
      (ws - {vid})[vid := tagged] == Placed(vs, vid, tagged) && ws[vid := tagged] == Placed(vs, vid, tagged) &&
      (!tagged ==> forall w :: w in ws && w != vid ==> ws[w])
  {
  }

  lemma MemberBits(t: Tables, own: seq<Vlans>, i: nat, v: nat)
    requires Agree(t, own) && i < |t.svc| && t.claimed[i] != 0 && v < MAX_VID
    ensures t.claimed[i] <= MAX_LAGS
    ensures MemberIn(t, own, i, v) <==> i in t.members[v]
    ensures MemberIn(t, own, i, v) <==> t.lagvl[t.claimed[i]][v] != 0
    ensures MemberIn(t, own, i, v) ==> v in t.user
    ensures IsIface(t, i) && Svc(t, i) < MAX_VID
  {
    AgreementMeans(t, own, i, v);
    assert TapAgrees(t, own, i, v) && LagAgrees(t, own, t.claimed[i], v);
  }

  lemma MemberRange(t: Tables, own: seq<Vlans>, i: nat)
    requires Agree(t, own) && i < |t.svc|
    ensures forall v :: MemberIn(t, own, i, v) ==> 1 <= v < MAX_VID - 1
  {
    assert ClaimAgrees(t, own, i);
    if t.claimed[i] != 0 {
      InRange(t, own, LagKey(t.claimed[i]));
    }
  }

  /** Marking an interface a tunnel port of the one VLAN it is in, or not one. */
  lemma Retunnel(t: Tables, own: seq<Vlans>, key: nat, vid: nat)
    requires Agree(t, own) && IsIface(t, key) && (vid == 0 || own[key] == map[vid := false])
    ensures Agree(t.(tunnel := t.tunnel[key := vid]), own)
  {
    var u := t.(tunnel := t.tunnel[key := vid]);
    forall i, v | 0 <= i < |u.svc| && 0 <= v < MAX_VID ensures TapAgrees(u, own, i, v) {
      assert TapAgrees(t, own, i, v);
    }
    forall k, v | 1 <= k <= MAX_LAGS && 0 <= v < MAX_VID ensures LagAgrees(u, own, k, v) {
      assert LagAgrees(t, own, k, v);
    }
    forall n | IsIface(u, n) ensures IfaceAgrees(u, own, n) {
      assert IfaceAgrees(t, own, n);
    }
    forall i | 0 <= i < |u.svc| ensures ClaimAgrees(u, own, i) {
      assert ClaimAgrees(t, own, i);
    }
    forall k | 1 <= k <= MAX_LAGS ensures LagSound(u, own, k) {
      assert LagSound(t, own, k);
    }
    forall p, q | 0 <= p < |u.svc| && 0 <= q < |u.svc| ensures PairAgrees(u, p, q) {
      assert PairAgrees(t, p, q);
    }
  }

  /** LAGs, claims and pairs the same, and every interface's VLANs: agreement
      is a matter of the bits and of which VLANs are the users'. */
  lemma SameOwners(t: Tables, u: Tables, own: seq<Vlans>)
    requires Agree(t, own) && Sized(u, own) && UserSound(u)
    requires u.svc == t.svc && u.lags == t.lags && u.claimed == t.claimed && u.pairs == t.pairs
    requires u.switched == t.switched && u.tunnel == t.tunnel && u.lagvl == t.lagvl
    requires forall n, v :: IsIface(t, n) && v in own[n] ==> v in u.user
    requires forall i, v {:trigger TapAgrees(u, own, i, v)} :: 0 <= i < |t.svc| && 0 <= v < MAX_VID ==>
      TapAgrees(u, own, i, v)
    ensures Agree(u, own)
  {
    forall k, v | 1 <= k <= MAX_LAGS && 0 <= v < MAX_VID ensures LagAgrees(u, own, k, v) {
      assert LagAgrees(t, own, k, v);
    }
    forall n | IsIface(u, n) ensures IfaceAgrees(u, own, n) {
      assert IfaceAgrees(t, own, n);
    }
    forall i | 0 <= i < |u.svc| ensures ClaimAgrees(u, own, i) {
      assert ClaimAgrees(t, own, i);
    }
    forall k | 1 <= k <= MAX_LAGS ensures LagSound(u, own, k) {
      assert LagSound(t, own, k);
    }
    forall p, q | 0 <= p < |u.svc| && 0 <= q < |u.svc| ensures PairAgrees(u, p, q) {
      assert PairAgrees(t, p, q);
    }
  }

  lemma NotUser(t: Tables, own: seq<Vlans>, n: nat, v: int)
    requires Agree(t, own) && IsIface(t, n) && v !in t.user
    ensures v !in own[n]
  {
    assert IfaceAgrees(t, own, n);
  }

  /** Nothing is in a VLAN that is neither a user's nor a service VLAN. */
  lemma Unused(t: Tables, own: seq<Vlans>, i: nat, v: nat)
    requires Agree(t, own) && i < |t.svc| && v < MAX_VID && !Reserved(t.svc, v)
    requires forall n :: IsIface(t, n) ==> v !in own[n]
    ensures i !in t.members[v] && i !in t.untagged[v] && i !in t.chip[v] && i !in t.chipU[v]
  {
    assert TapAgrees(t, own, i, v);
    assert ClaimAgrees(t, own, i);
  }

  lemma AddedVlan(t: Tables, own: seq<Vlans>, vid: nat, c: set<nat>, cu: set<nat>)
    requires Agree(t, own) && vid !in t.user && 1 <= vid < MAX_VID - 1 && !Reserved(t.svc, vid)
    requires (c == {} && cu == {}) || (c == t.chip[vid] && cu == t.chipU[vid])
    ensures Agree(t.(user := t.user + {vid}, members := t.members[vid := {}], untagged := t.untagged[vid := {}],
                     chip := t.chip[vid := c], chipU := t.chipU[vid := cu]), own)
  {
    var u := t.(user := t.user + {vid}, members := t.members[vid := {}], untagged := t.untagged[vid := {}],
                chip := t.chip[vid := c], chipU := t.chipU[vid := cu]);
    forall n | IsIface(t, n) ensures forall v :: v in own[n] ==> v in t.user {
      assert IfaceAgrees(t, own, n);
    }
    forall i, v | 0 <= i < |t.svc| && 0 <= v < MAX_VID ensures TapAgrees(u, own, i, v) {
      assert TapAgrees(t, own, i, v);
      Unused(t, own, i, vid);
    }
    SameOwners(t, u, own);
  }

  lemma RemovedVlan(t: Tables, own: seq<Vlans>, vid: nat, kept: bool)
    requires Agree(t, own) && vid in t.user && vid < MAX_VID && forall n :: IsIface(t, n) ==> vid !in own[n]
    ensures Agree(t.(user := t.user - {vid}, chip := if kept then t.chip else t.chip[vid := {}],
                     chipU := if kept then t.chipU else t.chipU[vid := {}]), own)
  {
    var u := t.(user := t.user - {vid}, chip := if kept then t.chip else t.chip[vid := {}],
                chipU := if kept then t.chipU else t.chipU[vid := {}]);
    forall n, v | IsIface(t, n) && v in own[n] ensures v in u.user {
      assert IfaceAgrees(t, own, n);
    }
    forall i, v | 0 <= i < |t.svc| && 0 <= v < MAX_VID ensures TapAgrees(u, own, i, v) {
      assert TapAgrees(t, own, i, v);
      Unused(t, own, i, vid);
    }
    SameOwners(t, u, own);
  }

  lemma LagIn(t: Tables, own: seq<Vlans>, k: nat, v: nat)
    requires Agree(t, own) && 1 <= k <= MAX_LAGS && v < MAX_VID
    ensures t.lagvl[k][v] != 0 <==> v in own[LagKey(k)]
    ensures v in own[LagKey(k)] ==> Free(t, LagKey(k))
  {
    assert LagAgrees(t, own, k, v) && LagSound(t, own, k);
  }

  lemma PortIn(t: Tables, own: seq<Vlans>, i: nat, v: nat)
    requires Agree(t, own) && i < |t.svc| && v < MAX_VID && forall n :: MAX_TAPS < n < NIFACE ==> v !in own[n]
    ensures i in t.members[v] <==> v in own[i]
    ensures v in own[i] ==> Free(t, i)
  {
    assert TapAgrees(t, own, i, v) && ClaimAgrees(t, own, i);
  }

  // ----- LAG members -----

  /** A pair of i and another of these, either way round. */
  predicate Across(i: nat, m: seq<nat>, p: nat, q: nat) {
    p != q && ((p == i && q in m) || (q == i && p in m))
  }

  /** j is port i, and a LAG's record puts it in VLAN v. */
  predicate Follows(record: seq<nat>, v: int, i: nat, j: nat) {
    j == i && 1 <= v < MAX_VID - 1 && v < |record| && record[v] != 0
  }

  /** Nothing but port i's own bits moved. */
  ghost predicate OthersStay(t: Tables, u: Tables, i: nat, v: nat)
  {
    v < |t.members| && v < |u.members| && v < |t.untagged| && v < |u.untagged| &&
    v < |t.chip| && v < |u.chip| && v < |t.chipU| && v < |u.chipU| &&
    (forall j :: j != i ==> (j in u.members[v] <==> j in t.members[v])) &&
    (forall j :: j != i ==> (j in u.untagged[v] <==> j in t.untagged[v])) &&
    (forall j :: j != i ==> (j in u.chip[v] <==> j in t.chip[v])) &&
    (forall j :: j != i ==> (j in u.chipU[v] <==> j in t.chipU[v]))
  }

  predicate SameBits(t: Tables, u: Tables, v: nat) {
    v < |t.members| && v < |u.members| && v < |t.untagged| && v < |u.untagged| &&
    v < |t.chip| && v < |u.chip| && v < |t.chipU| && v < |u.chipU| &&
    u.members[v] == t.members[v] && u.untagged[v] == t.untagged[v] && u.chip[v] == t.chip[v] && u.chipU[v] == t.chipU[v]
  }

  /** Everything that is not about ports in LAGs. */
  predicate SameElse(t: Tables, u: Tables) {
    u.svc == t.svc && u.user == t.user && u.lagvl == t.lagvl && u.switched == t.switched && u.tunnel == t.tunnel
  }

  /** LAG k's list is m, which is as before but for port i, in or out. */
  ghost predicate Relisted(t: Tables, u: Tables, k: nat, i: nat, now: bool) {
    1 <= k < |t.lags| && t.lags[k].used && |u.lags| == |t.lags| && u.lags == t.lags[k := u.lags[k]] &&
    u.lags[k].used && Distinct(u.lags[k].m) && |u.lags[k].m| <= MAX_LAGM &&
    forall p :: p in u.lags[k].m <==> if p == i then now else p in t.lags[k].m
  }

  /** A port joins LAG k or leaves it, its bits following: all agree again. */
  lemma Reclaimed(t: Tables, u: Tables, own: seq<Vlans>, k: nat, i: nat, now: bool)
    requires Agree(t, own) && SameElse(t, u) && Sized(u, own) && i < |t.svc| && own[i] == map[] && 1 <= k <= MAX_LAGS
    requires t.claimed[i] == 0 || t.claimed[i] == k
    requires u.claimed == t.claimed[i := if now then k else 0] && Relisted(t, u, k, i, now)
    requires forall v {:trigger OthersStay(t, u, i, v)} :: 0 <= v < MAX_VID ==> OthersStay(t, u, i, v)
    requires forall v {:trigger TapAgrees(u, own, i, v)} :: 0 <= v < MAX_VID ==> TapAgrees(u, own, i, v)
    requires forall p: nat, q: nat :: (p, q) in u.pairs <==>
      if Across(i, u.lags[k].m, p, q) || Across(i, t.lags[k].m, p, q) then now else (p, q) in t.pairs
    ensures Agree(u, own)
  {
    forall j, v | 0 <= j < |u.svc| && 0 <= v < MAX_VID ensures TapAgrees(u, own, j, v) {
      if j != i {
        assert TapAgrees(t, own, j, v) && OthersStay(t, u, i, v);
      }
    }
    forall l, v | 1 <= l <= MAX_LAGS && 0 <= v < MAX_VID ensures LagAgrees(u, own, l, v) {
      assert LagAgrees(t, own, l, v);
    }
    forall n | IsIface(u, n) ensures IfaceAgrees(u, own, n) {
      assert IfaceAgrees(t, own, n);
    }
    forall j | 0 <= j < |u.svc| ensures ClaimAgrees(u, own, j) {
      assert ClaimAgrees(t, own, j);
    }
    forall l | 1 <= l <= MAX_LAGS ensures LagSound(u, own, l) {
      ReclaimedLag(t, u, own, k, i, now, l);
    }
    forall p, q | 0 <= p < |u.svc| && 0 <= q < |u.svc| ensures PairAgrees(u, p, q) {
      ReclaimedPair(t, u, own, k, i, now, p, q);
    }
  }

  lemma ReclaimedLag(t: Tables, u: Tables, own: seq<Vlans>, k: nat, i: nat, now: bool, l: nat)
    requires Agree(t, own) && SameElse(t, u) && Sized(u, own) && i < |t.svc| && 1 <= k <= MAX_LAGS && 1 <= l <= MAX_LAGS
    requires t.claimed[i] == 0 || t.claimed[i] == k
    requires u.claimed == t.claimed[i := if now then k else 0] && Relisted(t, u, k, i, now)
    ensures LagSound(u, own, l)
  {
    assert LagSound(t, own, l);
    if l != k {
      assert u.lags[l] == t.lags[l];
    }
  }

  lemma ReclaimedPair(t: Tables, u: Tables, own: seq<Vlans>, k: nat, i: nat, now: bool, p: nat, q: nat)
    requires Agree(t, own) && SameElse(t, u) && Sized(u, own) && i < |t.svc| && 1 <= k <= MAX_LAGS
    requires t.claimed[i] == 0 || t.claimed[i] == k
    requires u.claimed == t.claimed[i := if now then k else 0] && Relisted(t, u, k, i, now)
    requires p < |u.svc| && q < |u.svc|
    requires (p, q) in u.pairs <==>
      if Across(i, u.lags[k].m, p, q) || Across(i, t.lags[k].m, p, q) then now else (p, q) in t.pairs
    ensures PairAgrees(u, p, q)
  {
    assert PairAgrees(t, p, q) && LagSound(t, own, k);
    assert ClaimAgrees(t, own, p) && ClaimAgrees(t, own, q);
  }

  /** A routed port's bits: in its own service VLAN, and no other. */
  lemma RoutedBits(t: Tables, own: seq<Vlans>, i: nat, v: nat)
    requires Agree(t, own) && i < |t.svc| && t.claimed[i] == 0 && own[i] == map[] && v < MAX_VID
    ensures i !in t.members[v] && i !in t.untagged[v]
    ensures (i in t.chip[v] <==> v == t.svc[i]) && (i in t.chipU[v] <==> v == t.svc[i])
  {
    assert TapAgrees(t, own, i, v);
  }

  /** A LAG's record, and its bits, for whoever is in it. */
  lemma LagBits(t: Tables, own: seq<Vlans>, k: nat, i: nat, v: nat)
    requires Agree(t, own) && 1 <= k <= MAX_LAGS && v < MAX_VID
    ensures Follows(t.lagvl[k], v, i, i) <==> v in own[LagKey(k)]
    ensures Follows(t.lagvl[k], v, i, i) && t.lagvl[k][v] == 1 <==> v in own[LagKey(k)] && !own[LagKey(k)][v]
    ensures t.switched[LagKey(k)] > 0 <==> own[LagKey(k)] != map[]
    ensures i < |t.svc| && t.claimed[i] == k ==> TapAgrees(t, own, i, v)
  {
    assert LagAgrees(t, own, k, v) && IfaceAgrees(t, own, LagKey(k));
    InRange(t, own, LagKey(k));
    assert |own[LagKey(k)]| == 0 <==> own[LagKey(k)] == map[];
    if i < |t.svc| {
      assert TapAgrees(t, own, i, v);
    }
  }

  /** An existing LAG, a routed port that is free to join it. */
  ghost predicate MayJoin(t: Tables, own: seq<Vlans>, k: nat, i: nat) {
    Sized(t, own) && 1 <= k <= MAX_LAGS && i < |t.svc| && t.lags[k].used && |t.lags[k].m| < MAX_LAGM &&
    t.claimed[i] == 0 && own[i] == map[]
  }

  lemma Appended(t: Tables, own: seq<Vlans>, k: nat, i: nat)
    requires Agree(t, own) && MayJoin(t, own, k, i)
    ensures Distinct(t.lags[k].m + [i]) && i !in t.lags[k].m
    ensures forall p :: p in t.lags[k].m + [i] <==> if p == i then true else p in t.lags[k].m
    ensures forall p, q :: Across(i, t.lags[k].m + [i], p, q) <==> Across(i, t.lags[k].m, p, q)
  {
    assert LagSound(t, own, k);
  }

  lemma SvcInRange(t: Tables, i: nat)
    requires UserSound(t) && i < |t.svc|
    ensures 1 <= t.svc[i] < MAX_VID
  {
  }

  /** Port i takes on LAG k's place in VLAN v, where the LAG is switched... */
  ghost predicate Took(t: Tables, u: Tables, k: nat, i: nat, v: nat) {
    Sized1(t) && Sized1(u) && 1 <= k <= MAX_LAGS && v < MAX_VID && OthersStay(t, u, i, v) &&
    var f := t.switched[LagKey(k)] > 0 && Follows(t.lagvl[k], v, i, i);
    (i in u.members[v] <==> i in t.members[v] || f) &&
    (i in u.untagged[v] <==> i in t.untagged[v] || (f && t.lagvl[k][v] == 1)) &&
    (i in u.chip[v] <==> i in t.chip[v] || f) &&
    (i in u.chipU[v] <==> i in t.chipU[v] || (f && t.lagvl[k][v] == 1))
  }

  /** ... or gives it up. */
  ghost predicate Gave(t: Tables, u: Tables, k: nat, i: nat, v: nat) {
    Sized1(t) && Sized1(u) && 1 <= k <= MAX_LAGS && v < MAX_VID && OthersStay(t, u, i, v) &&
    var f := t.switched[LagKey(k)] > 0 && Follows(t.lagvl[k], v, i, i);
    (i in u.members[v] <==> i in t.members[v] && !f) && (i in u.untagged[v] <==> i in t.untagged[v] && !f) &&
    (i in u.chip[v] <==> i in t.chip[v] && !f) && (i in u.chipU[v] <==> i in t.chipU[v] && !f)
  }

  /** Port i's bits after it took on what LAG k has, in VLAN v. */
  ghost predicate MovedIn(t: Tables, u: Tables, k: nat, i: nat, v: nat) {
    Sized1(t) && Sized1(u) && i < |t.svc| && 1 <= k <= MAX_LAGS && v < MAX_VID && OthersStay(t, u, i, v) &&
    var sw, f := t.switched[LagKey(k)] > 0, Follows(t.lagvl[k], v, i, i);
    (i in u.members[v] <==> i in t.members[v] || (sw && f)) &&
    (i in u.untagged[v] <==> i in t.untagged[v] || (sw && f && t.lagvl[k][v] == 1)) &&
    (i in u.chip[v] <==> (i in t.chip[v] && v != t.svc[i]) || (if sw then f else v == LAG_SVC_BASE + k)) &&
    (i in u.chipU[v] <==> (i in t.chipU[v] && v != t.svc[i]) ||
                          (if sw then f && t.lagvl[k][v] == 1 else v == LAG_SVC_BASE + k))
  }

  /** Its bits after it gave that up for its own service VLAN. */
  ghost predicate MovedOut(t: Tables, u: Tables, k: nat, i: nat, v: nat) {
    Sized1(t) && Sized1(u) && i < |t.svc| && 1 <= k <= MAX_LAGS && v < MAX_VID && OthersStay(t, u, i, v) &&
    var gone := if t.switched[LagKey(k)] > 0 then Follows(t.lagvl[k], v, i, i) else false;
    var routed := t.switched[LagKey(k)] == 0 && v == LAG_SVC_BASE + k;
    (i in u.members[v] <==> i in t.members[v] && !gone) && (i in u.untagged[v] <==> i in t.untagged[v] && !gone) &&
    (i in u.chip[v] <==> (i in t.chip[v] && !gone && !routed) || v == t.svc[i]) &&
    (i in u.chipU[v] <==> (i in t.chipU[v] && !gone && !routed) || v == t.svc[i])
  }

  lemma MovedInTap(t: Tables, u: Tables, own: seq<Vlans>, k: nat, i: nat, v: nat)
    requires Agree(t, own) && Sized(u, own) && MayJoin(t, own, k, i) && MovedIn(t, u, k, i, v)
    requires u.svc == t.svc && u.claimed == t.claimed[i := k]
    ensures TapAgrees(u, own, i, v)
  {
    RoutedBits(t, own, i, v);
    LagBits(t, own, k, i, v);
  }

  lemma MovedOutTap(t: Tables, u: Tables, own: seq<Vlans>, k: nat, i: nat, v: nat)
    requires Agree(t, own) && Sized(u, own) && 1 <= k <= MAX_LAGS && i < |t.svc| && t.claimed[i] == k && own[i] == map[]
    requires MovedOut(t, u, k, i, v) && u.svc == t.svc && u.claimed == t.claimed[i := 0]
    ensures TapAgrees(u, own, i, v)
  {
    LagBits(t, own, k, i, v);
    OnlyItsOwnService(t, i);
  }

  /** VLANs below v are done and the rest untouched; v is next. */
  ghost predicate TakenTo(t: Tables, u: Tables, k: nat, i: nat, v: nat) {
    (forall w {:trigger Took(t, u, k, i, w)} :: 0 <= w < v ==> Took(t, u, k, i, w)) &&
    (forall w {:trigger SameBits(t, u, w)} :: v <= w < MAX_VID ==> SameBits(t, u, w))
  }

  ghost predicate GivenTo(t: Tables, u: Tables, k: nat, i: nat, v: nat) {
    (forall w {:trigger Gave(t, u, k, i, w)} :: 0 <= w < v ==> Gave(t, u, k, i, w)) &&
    (forall w {:trigger SameBits(t, u, w)} :: v <= w < MAX_VID ==> SameBits(t, u, w))
  }

  lemma TookOne(t: Tables, u: Tables, x: Tables, k: nat, i: nat, v: nat)
    requires Sized1(t) && Sized1(u) && Sized1(x) && 1 <= k <= MAX_LAGS && 1 <= v < MAX_VID - 1
    requires TakenTo(t, u, k, i, v) && t.switched[LagKey(k)] > 0
    requires x == if t.lagvl[k][v] == 0 then u
                  else u.(members := Added(u.members, v, {i}), chip := Added(u.chip, v, {i}),
                          untagged := if t.lagvl[k][v] == 1 then Added(u.untagged, v, {i}) else u.untagged,
                          chipU := if t.lagvl[k][v] == 1 then Added(u.chipU, v, {i}) else u.chipU)
    ensures TakenTo(t, x, k, i, v + 1)
  {
    forall w | 0 <= w < MAX_VID ensures if w <= v then Took(t, x, k, i, w) else SameBits(t, x, w) {
      if w < v {
        assert Took(t, u, k, i, w);
      } else {
        assert SameBits(t, u, w);
      }
    }
  }

  lemma GaveOne(t: Tables, u: Tables, x: Tables, k: nat, i: nat, v: nat)
    requires Sized1(t) && Sized1(u) && Sized1(x) && 1 <= k <= MAX_LAGS && 1 <= v < MAX_VID - 1
    requires GivenTo(t, u, k, i, v) && t.switched[LagKey(k)] > 0
    requires x == if t.lagvl[k][v] == 0 then u
                  else u.(members := Dropped(u.members, v, {i}), chip := Dropped(u.chip, v, {i}),
                          untagged := Dropped(u.untagged, v, {i}), chipU := Dropped(u.chipU, v, {i}))
    ensures GivenTo(t, x, k, i, v + 1)
  {
    forall w | 0 <= w < MAX_VID ensures if w <= v then Gave(t, x, k, i, w) else SameBits(t, x, w) {
      if w < v {
        assert Gave(t, u, k, i, w);
      } else {
        assert SameBits(t, u, w);
      }
    }
  }

  lemma MovedInBy(t: Tables, t1: Tables, t2: Tables, u: Tables, k: nat, i: nat, v: nat)
    requires Sized1(t) && 1 <= k <= MAX_LAGS && i < |t.svc| && t.svc[i] < MAX_VID && v < MAX_VID
    requires t1 == t.(chip := Dropped(t.chip, t.svc[i], {i}), chipU := Dropped(t.chipU, t.svc[i], {i}))
    requires Took(t1, t2, k, i, v)
    requires u == if t.switched[LagKey(k)] > 0 then t2
                  else t2.(chip := Added(t2.chip, LAG_SVC_BASE + k, {i}),
                    chipU := Added(t2.chipU, LAG_SVC_BASE + k, {i}))
    ensures MovedIn(t, u, k, i, v)
  {
  }

  /** Removal as the source does it: the last takes the place of the one gone. */
  function SwapOut(m: seq<nat>, j: nat): seq<nat>
    requires j < |m|
  {
    m[j := m[|m| - 1]][..|m| - 1]
  }

  lemma SwappedOut(m: seq<nat>, j: nat)
    requires j < |m| && Distinct(m)
    ensures Distinct(SwapOut(m, j)) && |SwapOut(m, j)| == |m| - 1
    ensures forall p :: p in SwapOut(m, j) <==> p in m && p != m[j]
  {
    var r := SwapOut(m, j);
    forall p | p in m && p != m[j] ensures p in r {
      var x :| 0 <= x < |m| && m[x] == p;
      assert r[if x == |m| - 1 then j else x] == p;
    }
  }

  /** A member of LAG k: in its list, claimed by it, with no VLANs of its own. */
  lemma MemberIs(t: Tables, own: seq<Vlans>, k: nat, j: nat)
    requires Agree(t, own) && 1 <= k <= MAX_LAGS && j < |t.lags[k].m|
    ensures t.lags[k].used && t.lags[k].m[j] < |t.svc| && t.claimed[t.lags[k].m[j]] == k
    ensures own[t.lags[k].m[j]] == map[] && Distinct(t.lags[k].m) && |t.lags[k].m| <= MAX_LAGM
  {
    assert LagSound(t, own, k);
    assert t.lags[k].m[j] in t.lags[k].m;
    assert ClaimAgrees(t, own, t.lags[k].m[j]);
  }

  lemma ClaimMeans(t: Tables, own: seq<Vlans>, k: nat, p: nat)
    requires Agree(t, own) && 1 <= k <= MAX_LAGS && p < |t.svc|
    ensures t.claimed[p] == k <==> p in t.lags[k].m
    ensures t.claimed[p] == 0 && t.switched[p] == 0 ==> own[p] == map[]
    ensures Distinct(t.lags[k].m) && |t.lags[k].m| <= MAX_LAGM
  {
    assert ClaimAgrees(t, own, p) && LagSound(t, own, k) && IfaceAgrees(t, own, p);
  }

  // ----- a request for a LAG's members -----

  /** This name may be a member of LAG k: a port of ours that no other LAG has
      and that is not switched. */
  predicate Eligible(t: Tables, k: nat, name: Name) {
    name.Port? && name.i < |t.svc| && name.i < |t.claimed| && name.i < |t.switched| &&
    (t.claimed[name.i] == k || (t.claimed[name.i] == 0 && t.switched[name.i] == 0))
  }

  predicate Acceptable(t: Tables, k: nat, want: seq<Name>) {
    1 <= k <= MAX_LAGS && |t.lags| == MAX_LAGS + 1 && t.lags[k].used && |want| <= MAX_LAGM &&
    (forall j :: 0 <= j < |want| ==> Eligible(t, k, want[j])) &&
    forall i, j :: 0 <= i < j < |want| ==> want[i] != want[j]
  }

  /** As many distinct entries as there are, no more than they are drawn from. */
  lemma {:induction false} FewerThan(m: seq<nat>, s: seq<nat>)
    requires Distinct(m) && forall p :: p in m ==> p in s
    ensures |m| <= |s|
    decreases |s|
  {
    assert m != [] ==> m[0] in m;
    if s != [] {
      var x, rest := s[0], s[1..];
      if x in m {
        var j: nat :| j < |m| && m[j] == x;
        SwappedOut(m, j);
        FewerThan(SwapOut(m, j), rest);
      } else {
        FewerThan(m, rest);
      }
    }
  }

  /** A LAG that does not exist yet has nothing: making it changes no fact. */
  lemma Created(t: Tables, own: seq<Vlans>, k: nat)
    requires Agree(t, own) && 1 <= k <= MAX_LAGS && !t.lags[k].used
    ensures Agree(t.(lags := t.lags[k := Lag(true, [])]), own)
  {
    var u := t.(lags := t.lags[k := Lag(true, [])]);
    assert LagSound(t, own, k);
    SameButUsed(t, u, own, k);
  }

  lemma Removed(t: Tables, own: seq<Vlans>, k: nat)
    requires Agree(t, own) && 1 <= k <= MAX_LAGS && t.lags[k].m == [] && own[LagKey(k)] == map[]
    ensures Agree(t.(lags := t.lags[k := Lag(false, [])]), own)
  {
    SameButUsed(t, t.(lags := t.lags[k := Lag(false, [])]), own, k);
  }

  lemma SameButUsed(t: Tables, u: Tables, own: seq<Vlans>, k: nat)
    requires Agree(t, own) && 1 <= k <= MAX_LAGS && t.lags[k].m == [] && own[LagKey(k)] == map[]
    requires u == t.(lags := u.lags) && |u.lags| == |t.lags| && u.lags == t.lags[k := u.lags[k]] && u.lags[k].m == []
    ensures Agree(u, own)
  {
    forall i, v | 0 <= i < |u.svc| && 0 <= v < MAX_VID ensures TapAgrees(u, own, i, v) {
      assert TapAgrees(t, own, i, v);
    }
    forall l, v | 1 <= l <= MAX_LAGS && 0 <= v < MAX_VID ensures LagAgrees(u, own, l, v) {
      assert LagAgrees(t, own, l, v);
    }
    forall n | IsIface(u, n) ensures IfaceAgrees(u, own, n) {
      assert IfaceAgrees(t, own, n);
    }
    forall i | 0 <= i < |u.svc| ensures ClaimAgrees(u, own, i) {
      assert ClaimAgrees(t, own, i);
    }
    forall l | 1 <= l <= MAX_LAGS ensures LagSound(u, own, l) {
      assert LagSound(t, own, l);
    }
    forall p, q | 0 <= p < |u.svc| && 0 <= q < |u.svc| ensures PairAgrees(u, p, q) {
      assert PairAgrees(t, p, q);
    }
  }

  /** A port asked for is no less eligible once the leavers have gone. */
  lemma StillEligible(t: Tables, u: Tables, own: seq<Vlans>, k: nat, p: nat)
    requires Agree(t, own) && Agree(u, own) && 1 <= k <= MAX_LAGS && u.svc == t.svc
    requires Eligible(t, k, Port(p)) && (p in t.lags[k].m ==> p in u.lags[k].m)
    requires p < |u.claimed| && (t.claimed[p] != k ==> u.claimed[p] == t.claimed[p])
    requires u.switched == t.switched
    ensures Eligible(u, k, Port(p))
  {
    ClaimMeans(t, own, k, p);
    ClaimMeans(u, own, k, p);
  }

  lemma NoneInLag(t: Tables, own: seq<Vlans>, k: nat)
    requires Agree(t, own) && 1 <= k <= MAX_LAGS && own[LagKey(k)] == map[]
    ensures t.lagvl[k := seq(MAX_VID, _ => 0)] == t.lagvl && t.switched[LagKey(k) := 0] == t.switched
  {
    forall v | 0 <= v < MAX_VID ensures t.lagvl[k][v] == 0 {
      assert LagAgrees(t, own, k, v);
    }
    assert t.lagvl[k] == seq(MAX_VID, _ => 0);
    assert IfaceAgrees(t, own, LagKey(k));
  }

  /** At the start: no user VLANs, no LAGs, every port in its service VLAN. */
  function Fresh(svc: seq<nat>): Tables {
    var zeros := seq(MAX_VID, _ => 0);
    var home := seq(MAX_VID, v requires 0 <= v < MAX_VID => set i | 0 <= i < |svc| && svc[i] == v);
    Tables(svc, {}, seq(MAX_VID, _ => {}), seq(MAX_VID, _ => {}), seq(MAX_LAGS + 1, _ => zeros), seq(NIFACE, _ => 0),
           seq(NIFACE, _ => 0), seq(MAX_LAGS + 1, _ => Lag(false, [])), seq(|svc|, _ => 0), {}, home, home)
  }

  lemma FreshAgrees(svc: seq<nat>)
    requires Configured(svc) && |svc| <= MAX_TAPS
    ensures Agree(Fresh(svc), seq(NIFACE, _ => map[]))
  {
    var t, own := Fresh(svc), seq(NIFACE, _ => map[]);
    forall i, v | 0 <= i < |svc| && 0 <= v < MAX_VID ensures TapAgrees(t, own, i, v) {
    }
    forall k, v | 1 <= k <= MAX_LAGS && 0 <= v < MAX_VID ensures LagAgrees(t, own, k, v) {
    }
    forall n | IsIface(t, n) ensures IfaceAgrees(t, own, n) {
    }
    forall i | 0 <= i < |svc| ensures ClaimAgrees(t, own, i) {
    }
    forall k | 1 <= k <= MAX_LAGS ensures LagSound(t, own, k) {
    }
    forall p, q | 0 <= p < |svc| && 0 <= q < |svc| ensures PairAgrees(t, p, q) {
    }
  }

  // ----- agreement in the tables' own terms -----

  /** An interface's VLANs as its record or its bits have them. */
  function VlanSet(t: Tables, key: nat): set<nat>
    requires Sized1(t) && key < NIFACE
  {
    set v: nat | v < MAX_VID && InVlan(t, key, v)
  }

  /** Of any interface that may be named: `switched` counts its user VLANs, at
      most one of them is untagged, and as a tunnel port it is in its service
      VLAN, untagged, and in nothing else. */
  lemma IfaceMeans(t: Tables, own: seq<Vlans>, key: nat, v: nat, w: nat)
    requires Agree(t, own) && Free(t, key) && v < MAX_VID && w < MAX_VID
    ensures t.switched[key] == |VlanSet(t, key)| && VlanSet(t, key) <= t.user
    ensures UntaggedIn(t, key, v) && UntaggedIn(t, key, w) ==> v == w
    ensures t.tunnel[key] != 0 ==> VlanSet(t, key) == {t.tunnel[key]} && (UntaggedIn(t, key, v) <==> v == t.tunnel[key])
  {
    Reading(t, own, key);
    assert VlanSet(t, key) == own[key].Keys;
  }

  /** Of any two ports: a claim names the one LAG whose list the port is in,
      and the chip blocks floods between two exactly when they are different
      members of one LAG. */
  lemma ClaimsMean(t: Tables, own: seq<Vlans>, p: nat, q: nat, k: nat, l: nat)
    requires Agree(t, own) && p < |t.svc| && q < |t.svc| && 1 <= k <= MAX_LAGS && 1 <= l <= MAX_LAGS
    ensures t.claimed[p] == k <==> p in t.lags[k].m
    ensures p in t.lags[k].m && p in t.lags[l].m ==> k == l
    ensures (p, q) in t.pairs <==> p != q && exists n :: 1 <= n <= MAX_LAGS && p in t.lags[n].m && q in t.lags[n].m
  {
    forall n | 1 <= n <= MAX_LAGS
      ensures (t.claimed[p] == n <==> p in t.lags[n].m) && (t.claimed[q] == n <==> q in t.lags[n].m) {
      ClaimMeans(t, own, n, p);
      ClaimMeans(t, own, n, q);
    }
    assert PairAgrees(t, p, q) && ClaimAgrees(t, own, p);
  }
}
