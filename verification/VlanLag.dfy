/**
 The VLAN and LAG operations on the tables of `VlanTables`, one field a table.
 Each keeps every table agreeing with `own`, and states what it does to `own`
 and to the LAGs' member lists; the tables follow.
 */
module VlanLag {
  import opened VlanTables

  class Switching {
    const svc: seq<nat>
    var user: set<nat>
    var members: seq<set<nat>>
    var untagged: seq<set<nat>>
    var lagvl: seq<seq<nat>>
    var switched: seq<nat>
    var tunnel: seq<nat>
    var lags: seq<Lag>
    var claimed: seq<nat>
    var pairs: set<(nat, nat)>
    var chip: seq<set<nat>>
    var chipU: seq<set<nat>>
    ghost var own: seq<Vlans>

    function View(): Tables
      reads this
    {
      Tables(svc, user, members, untagged, lagvl, switched, tunnel, lags, claimed, pairs, chip, chipU)
    }

    ghost predicate Valid()
      reads this
    {
      Agree(View(), own)
    }

    /** A LAG's own record of its place in a VLAN. */
    method Note(key: nat, vid: nat, code: nat)
      requires key > MAX_TAPS ==> key - MAX_TAPS < |lagvl| && vid < |lagvl[key - MAX_TAPS]|
      modifies this`lagvl
      ensures lagvl == if key > MAX_TAPS then Recorded(old(lagvl), key - MAX_TAPS, vid, code) else old(lagvl)
    {
      if key > MAX_TAPS {
        lagvl := Recorded(lagvl, key - MAX_TAPS, vid, code);
      }
    }

    constructor (services: seq<nat>)
      requires Configured(services) && |services| <= MAX_TAPS
      ensures Valid() && View() == Fresh(services) && own == seq(NIFACE, _ => map[])
    {
      var t := Fresh(services);
      svc, user, members, untagged, lagvl := services, {}, t.members, t.untagged, t.lagvl;
      switched, tunnel, lags, claimed, pairs := t.switched, t.tunnel, t.lags, t.claimed, {};
      chip, chipU := t.chip, t.chipU;
      own := seq(NIFACE, _ => map[]);
      FreshAgrees(services);
    }

    /** One VLAN fewer for an interface; with none left it is routed again. */
    method Leave(key: nat, ports: set<nat>, vid: nat)
      requires Sized1(View()) && IsIface(View(), key) && vid < MAX_VID && Svc(View(), key) < MAX_VID
      modifies this`members, this`untagged, this`lagvl, this`switched, this`tunnel, this`chip, this`chipU
      ensures View() == Left(old(View()), key, ports, vid)
    {
      var home := Svc(View(), key);
      DropPorts(ports, vid);
      Note(key, vid, 0);
      if tunnel[key] == vid {
        tunnel := tunnel[key := 0];
      }
      if switched[key] > 0 {
        switched := switched[key := switched[key] - 1];
      }
      if switched[key] > 0 {
        return;
      }
      chip, chipU := Added(chip, home, ports), Added(chipU, home, ports);
    }

    method AddPorts(ports: set<nat>, vid: nat, tagged: bool)
      requires vid < |members| && vid < |untagged| && vid < |chip| && vid < |chipU|
      modifies this`members, this`untagged, this`chip, this`chipU
      ensures chip == Added(old(chip), vid, ports) && members == Added(old(members), vid, ports)
      ensures chipU == if tagged then old(chipU) else Added(old(chipU), vid, ports)
      ensures untagged == if tagged then old(untagged) else Added(old(untagged), vid, ports)
    {
      chip, members := Added(chip, vid, ports), Added(members, vid, ports);
      if !tagged {
        chipU, untagged := Added(chipU, vid, ports), Added(untagged, vid, ports);
      }
    }

    method DropPorts(ports: set<nat>, vid: nat)
      requires vid < |members| && vid < |untagged| && vid < |chip| && vid < |chipU|
      modifies this`members, this`untagged, this`chip, this`chipU
      ensures chip == Dropped(old(chip), vid, ports) && members == Dropped(old(members), vid, ports)
      ensures chipU == Dropped(old(chipU), vid, ports) && untagged == Dropped(old(untagged), vid, ports)
    {
      chip, chipU := Dropped(chip, vid, ports), Dropped(chipU, vid, ports);
      members, untagged := Dropped(members, vid, ports), Dropped(untagged, vid, ports);
    }

    /** Put it into one, out of its service VLAN if it was routed. */
    method Enter(key: nat, ports: set<nat>, vid: nat, tagged: bool)
      requires Sized1(View()) && IsIface(View(), key) && vid < MAX_VID && Svc(View(), key) < MAX_VID
      modifies this`members, this`untagged, this`lagvl, this`switched, this`chip, this`chipU
      ensures View() == Entered(old(View()), key, ports, vid, tagged)
    {
      var home, first := Svc(View(), key), switched[key] == 0;
      chip := if first then Dropped(chip, home, ports) else chip;
      chipU := if first then Dropped(chipU, home, ports) else chipU;
      AddPorts(ports, vid, tagged);
      Note(key, vid, if tagged then 2 else 1);
      switched := switched[key := switched[key] + 1];
    }

    /** One VLAN fewer, every table still agreeing. */
    method LeaveOne(key: nat, vid: nat)
      requires Valid() && Free(View(), key) && vid in own[key]
      modifies this`members, this`untagged, this`lagvl, this`switched, this`tunnel, this`chip, this`chipU, this`own
      ensures Valid() && own == Without(old(own), key, vid)
      ensures tunnel == if old(tunnel[key]) == vid then old(tunnel)[key := 0] else old(tunnel)
    {
      ghost var t := View();
      Reading(t, own, key);
      LeftAgrees(t, own, key, PortSetOf(t, key), vid);
      Leave(key, PortSetOf(View(), key), vid);
      own := Without(own, key, vid);
    }

    /** One VLAN more. */
    method EnterOne(key: nat, vid: nat, tagged: bool)
      requires Valid() && Free(View(), key) && vid !in own[key] && vid in user && tunnel[key] == 0
      requires !tagged ==> forall w :: w in own[key] ==> own[key][w]
      modifies this`members, this`untagged, this`lagvl, this`switched, this`chip, this`chipU, this`own
      ensures Valid() && own == With(old(own), key, vid, tagged)
    {
      ghost var t := View();
      Reading(t, own, key);
      UserInRange(t, vid);
      EnteredAgrees(t, own, key, PortSetOf(t, key), vid, tagged);
      Enter(key, PortSetOf(View(), key), vid, tagged);
      own := With(own, key, vid, tagged);
    }

    /** In this VLAN? And untagged there? Read from the tables. */
    method Look(key: nat, vid: nat) returns (within: bool, native: bool)
      requires Valid() && Free(View(), key) && vid < MAX_VID
      ensures within == (vid in own[key]) && native == (vid in own[key] && !own[key][vid])
      ensures within ==> vid in user
    {
      Reading(View(), own, key);
      within, native := InVlan(View(), key, vid), UntaggedIn(View(), key, vid);
    }

    /** One native VLAN an interface: its others are given up. */
    method GiveUpNatives(key: nat, vid: nat)
      requires Valid() && Free(View(), key) && (tunnel[key] == 0 || tunnel[key] == vid)
      modifies this`members, this`untagged, this`lagvl, this`switched, this`tunnel, this`chip, this`chipU, this`own
      ensures Valid() && own == old(own)[key := Cleared(old(own[key]), vid, MAX_VID - 1)] && tunnel == old(tunnel)
    {
      var v := 1;
      ghost var was := own;
      InRange(View(), own, key);
      ClearedNone(own[key], vid, 1);
      while v < MAX_VID - 1
        invariant 1 <= v <= MAX_VID - 1 && Valid() && tunnel == old(tunnel)
        invariant own == was[key := Cleared(was[key], vid, v)]
      {
        var within, native := Look(key, v);
        ClearedNext(was[key], vid, v);
        if v != vid && v in user && within && native {
          NotTunnel(View(), own, key, v);
          LeaveOne(key, v);
        }
        v := v + 1;
      }
    }

    /** Into a VLAN, tagged or native; the locked part. */
    method Place(key: nat, vid: nat, tagged: bool)
      requires Valid() && Free(View(), key) && vid in user && (tunnel[key] == 0 || tunnel[key] == vid)
      modifies this`members, this`untagged, this`lagvl, this`switched, this`tunnel, this`chip, this`chipU, this`own
      ensures Valid() && own == old(own)[key := Placed(old(own[key]), vid, tagged)]
      ensures tunnel == if tagged && old(tunnel[key]) == vid then old(tunnel)[key := 0] else old(tunnel)
    {
      ghost var vs := own[key];
      UserInRange(View(), vid);
      InRange(View(), own, key);
      if !tagged {
        GiveUpNatives(key, vid);
        ClearedAll(vs, vid, MAX_VID - 1);
      }
      PlacedBy(vs, vid, tagged);
      var was, native := Look(key, vid);
      NotTunnel(View(), own, key, vid);
      if was && native == !tagged {
        return;
      }
      if was {
        LeaveOne(key, vid);
      }
      EnterOne(key, vid, tagged);
    }

    /** A port a LAG has claimed is refused: the LAG joins instead. */
    method PortSet(name: Name, vid: int, tagged: bool) returns (ok: bool)
      requires Valid()
      modifies this
      ensures Valid()
      ensures ok <==> Known(old(View()), name) && !Member(old(View()), name) && vid in old(user) &&
                      (old(tunnel[KeyOf(name)]) == 0 || old(tunnel[KeyOf(name)]) == vid)
      ensures !ok ==> View() == old(View()) && own == old(own)
      ensures ok ==> own == old(own)[KeyOf(name) := Placed(old(own[KeyOf(name)]), vid, tagged)]
      ensures ok ==> user == old(user) && lags == old(lags) && claimed == old(claimed) && pairs == old(pairs)
      ensures ok ==> tunnel == if tagged && old(tunnel[KeyOf(name)]) == vid then old(tunnel)[KeyOf(name) := 0]
        else old(tunnel)
    {
      if !Known(View(), name) || Member(View(), name) {
        return false;
      }
      var key := KeyOf(name);
      if vid !in user {
        return false;
      }
      if tunnel[key] != 0 && tunnel[key] != vid {
        return false;
      }
      Place(key, vid, tagged);
      return true;
    }

    /** Out of every VLAN but one. */
    method LeaveOthers(key: nat, vid: nat)
      requires Valid() && Free(View(), key)
      modifies this`members, this`untagged, this`lagvl, this`switched, this`tunnel, this`chip, this`chipU, this`own
      ensures Valid() && own == old(own)[key := Emptied(old(own[key]), vid, MAX_VID - 1)]
      ensures forall n :: 0 <= n < NIFACE && n != key ==> tunnel[n] == old(tunnel[n])
      ensures tunnel[key] == 0 || tunnel[key] == old(tunnel[key]) == vid
    {
      var v := 1;
      ghost var was := own;
      InRange(View(), own, key);
      ClearedNone(own[key], vid, 1);
      NotTunnel(View(), own, key, 1);
      while v < MAX_VID - 1
        invariant 1 <= v <= MAX_VID - 1 && Valid()
        invariant own == was[key := Emptied(was[key], vid, v)]
        invariant forall n :: 0 <= n < NIFACE && n != key ==> tunnel[n] == old(tunnel[n])
        invariant tunnel[key] == 0 || tunnel[key] == old(tunnel[key])
      {
        var within, native := Look(key, v);
        ClearedNext(was[key], vid, v);
        if v != vid && v in user && within {
          LeaveOne(key, v);
        }
        v := v + 1;
      }
      ClearedAll(was[key], vid, v);
      NotTunnel(View(), own, key, 1);
      assert tunnel[key] != 0 ==> tunnel[key] in own[key];
    }

    method PortDel(name: Name, vid: int) returns (ok: bool)
      requires Valid()
      modifies this
      ensures ok <==> Known(old(View()), name)
      ensures !ok || vid !in old(user) ==> View() == old(View()) && own == old(own)
      ensures ok && !Member(old(View()), name) ==>
        own == if vid in old(user) && vid in old(own[KeyOf(name)]) then Without(old(own), KeyOf(name), vid)
          else old(own)
      ensures Accounted(View()) <==> Valid()
      ensures Valid() <==> !(name.Port? && MemberIn(old(View()), old(own), name.i, vid))
    {
      if !Known(View(), name) {
        return false;
      }
      ok := true;
      var key := KeyOf(name);
      if vid !in user {
        ghost var t := View();
        if Member(t, name) {
          assert ClaimAgrees(t, own, name.i);
          assert IfaceAgrees(t, own, Keeper(t, name.i));
        }
        return;
      }
      UserInRange(View(), vid);
      if name.Port? && claimed[key] != 0 {
        DelMember(key, vid);
      } else {
        var within, native := Look(key, vid);
        if within {
          LeaveOne(key, vid);
        }
      }
    }

    /** A member port taken out of a VLAN by itself: if its LAG is in it, the
        tables part company. */
    method DelMember(i: nat, vid: nat)
      requires Valid() && i < |svc| && claimed[i] != 0 && vid in user && vid < MAX_VID
      modifies this`members, this`untagged, this`lagvl, this`switched, this`tunnel, this`chip, this`chipU
      ensures Accounted(View()) <==> !MemberIn(old(View()), own, i, vid)
      ensures !MemberIn(old(View()), own, i, vid) ==> View() == old(View())
    {
      ghost var t := View();
      assert ClaimAgrees(t, own, i);
      AgreementMeans(t, own, i, vid);
      assert TapAgrees(t, own, i, vid);
      if InVlan(View(), i, vid) {
        Leave(i, {i}, vid);
        forall own' ensures !Agree(View(), own') {
          if Sized(View(), own') {
            NoAccount(View(), i, vid, own');
          }
        }
      }
    }

    /** The same for a port a LAG has claimed: it leaves its LAG's VLANs alone,
        and the tables part company if there were any. */
    method LeaveOthersMember(i: nat, vid: nat)
      requires Valid() && i < |svc| && claimed[i] != 0
      modifies this`members, this`untagged, this`lagvl, this`switched, this`tunnel, this`chip, this`chipU
      ensures Accounted(View()) <==> !StrayIn(old(View()), own, i, vid)
      ensures !StrayIn(old(View()), own, i, vid) ==> View() == old(View())
    {
      ghost var t := View();
      assert ClaimAgrees(t, own, i);
      var v := 1;
      while v < MAX_VID - 1
        invariant 1 <= v <= MAX_VID - 1 && Sized(View(), own) && claimed == t.claimed
        invariant forall k :: 0 <= k <= MAX_LAGS ==> lagvl[k] == t.lagvl[k]
        invariant forall w :: v <= w < MAX_VID ==> members[w] == t.members[w]
        invariant forall w :: 1 <= w < v && w != vid && MemberIn(t, own, i, w) ==> i !in members[w]
        invariant (forall w :: 1 <= w < v && w != vid ==> !MemberIn(t, own, i, w)) ==> View() == t
      {
        MemberBits(t, own, i, v);
        if v != vid && v in user && InVlan(View(), i, v) {
          Leave(i, {i}, v);
        }
        v := v + 1;
      }
      MemberRange(t, own, i);
      if w: nat :| w != vid && MemberIn(t, own, i, w) {
        MemberBits(t, own, i, w);
        forall own' ensures !Agree(View(), own') {
          if Sized(View(), own') {
            NoAccount(View(), i, w, own');
          }
        }
      }
    }

    /** A QinQ customer port: one VLAN, untagged, its only membership. */
    method Tunnel(name: Name, svid: int) returns (ok: bool)
      requires Valid()
      modifies this
      ensures ok <==> Known(old(View()), name) && svid in old(user) && !Member(old(View()), name)
      ensures ok ==> own == old(own)[KeyOf(name) := map[svid := false]] && tunnel == old(tunnel)[KeyOf(name) := svid]
      ensures ok ==> user == old(user) && lags == old(lags) && claimed == old(claimed) && pairs == old(pairs)
      ensures Valid() <==> Accounted(View())
      ensures Valid() <==> !(svid in old(user) && name.Port? && StrayIn(old(View()), old(own), name.i, svid))
      ensures !ok && Valid() ==> View() == old(View()) && own == old(own)
    {
      if !Known(View(), name) || svid !in user {
        return false;
      }
      var key := KeyOf(name);
      if Member(View(), name) {
        LeaveOthersMember(key, svid);
        return false;
      }
      TunnelFree(key, svid);
      return true;
    }

    method TunnelFree(key: nat, svid: nat)
      requires Valid() && Free(View(), key) && svid in user
      modifies this`members, this`untagged, this`lagvl, this`switched, this`tunnel, this`chip, this`chipU, this`own
      ensures Valid() && own == old(own)[key := map[svid := false]] && tunnel == old(tunnel)[key := svid]
    {
      ghost var was := own;
      InRange(View(), own, key);
      LeaveOthers(key, svid);
      ClearedAll(was[key], svid, MAX_VID - 1);
      Retunnel(View(), own, key, 0);
      tunnel := tunnel[key := 0];
      Place(key, svid, false);
      Retunnel(View(), own, key, svid);
      tunnel := tunnel[key := svid];
    }

    /** `exists`: the chip has the VLAN already. Anything but VLAN 1 it has is
        the datapath's own, and refused. */
    method VlanAdd(vid: int, existing: bool) returns (ok: bool)
      requires Valid()
      modifies this
      ensures Valid() && own == old(own)
      ensures ok <==> 1 <= vid < MAX_VID - 1 && !Reserved(svc, vid) && (vid in old(user) || !existing || vid == 1)
      ensures user == if ok then old(user) + {vid} else old(user)
      ensures lags == old(lags) && claimed == old(claimed) && pairs == old(pairs) && tunnel == old(tunnel)
    {
      if vid < 1 || vid >= MAX_VID - 1 {
        return false;
      }
      if Reserved(svc, vid) {
        return false;
      }
      if vid in user {
        assert user == user + {vid};
        return true;
      }
      if existing && vid != 1 {
        return false;
      }
      AddedVlan(View(), own, vid, if existing then chip[vid] else {}, if existing then chipU[vid] else {});
      assert chip == chip[vid := chip[vid]] && chipU == chipU[vid := chipU[vid]];
      if !existing {
        chip, chipU := chip[vid := {}], chipU[vid := {}];
      }
      members, untagged := members[vid := {}], untagged[vid := {}];
      user := user + {vid};
      return true;
    }

    /** The LAGs that are in it leave. */
    method LagsLeave(vid: nat)
      requires Valid() && vid in user
      modifies this`members, this`untagged, this`lagvl, this`switched, this`tunnel, this`chip, this`chipU, this`own
      ensures Valid()
      ensures forall n :: 0 <= n < NIFACE ==> own[n] == if n > MAX_TAPS then old(own[n]) - {vid} else old(own[n])
      ensures forall n :: 0 <= n < NIFACE ==> tunnel[n] == old(tunnel[n]) || (old(tunnel[n]) == vid && tunnel[n] == 0)
    {
      UserInRange(View(), vid);
      var k := 1;
      while k <= MAX_LAGS
        invariant 1 <= k <= MAX_LAGS + 1 && Valid()
        invariant forall n :: 0 <= n < NIFACE ==>
          own[n] == if MAX_TAPS < n < LagKey(k) then old(own[n]) - {vid} else old(own[n])
        invariant forall n :: 0 <= n < NIFACE ==>
          tunnel[n] == old(tunnel[n]) || (old(tunnel[n]) == vid && tunnel[n] == 0)
      {
        LagIn(View(), own, k, vid);
        if lagvl[k][vid] != 0 {
          LeaveOne(LagKey(k), vid);
        }
        k := k + 1;
      }
    }

    /** After them the ports that are members in their own right. */
    method PortsLeave(vid: nat)
      requires Valid() && vid in user && forall n :: MAX_TAPS < n < NIFACE ==> vid !in own[n]
      modifies this`members, this`untagged, this`lagvl, this`switched, this`tunnel, this`chip, this`chipU, this`own
      ensures Valid()
      ensures forall n :: 0 <= n < NIFACE ==> own[n] == if n < |svc| then old(own[n]) - {vid} else old(own[n])
      ensures forall n :: 0 <= n < NIFACE ==> tunnel[n] == old(tunnel[n]) || (old(tunnel[n]) == vid && tunnel[n] == 0)
    {
      UserInRange(View(), vid);
      var m := members[vid];
      var i := 0;
      forall n | 0 <= n < |svc| ensures n in m <==> vid in own[n] {
        PortIn(View(), own, n, vid);
      }
      while i < |svc|
        invariant 0 <= i <= |svc| && Valid() && forall n :: MAX_TAPS < n < NIFACE ==> vid !in own[n]
        invariant forall n :: 0 <= n < NIFACE ==> own[n] == if n < i then old(own[n]) - {vid} else old(own[n])
        invariant forall n :: 0 <= n < NIFACE ==>
          tunnel[n] == old(tunnel[n]) || (old(tunnel[n]) == vid && tunnel[n] == 0)
      {
        if i in m {
          PortIn(View(), own, i, vid);
          LeaveOne(i, vid);
        }
        i := i + 1;
      }
    }

    /** `routed`: it has a routed interface, which must go first. */
    method VlanDel(vid: int, routed: bool) returns (ok: bool)
      requires Valid()
      modifies this
      ensures Valid()
      ensures ok <==> vid !in old(user) || !routed
      ensures ok ==> user == old(user) - {vid}
      ensures !ok || vid !in old(user) ==> View() == old(View()) && own == old(own)
      ensures ok ==> forall n :: IsIface(old(View()), n) ==> own[n] == old(own[n]) - {vid}
      ensures lags == old(lags) && claimed == old(claimed) && pairs == old(pairs)
    {
      if vid !in user {
        forall n | IsIface(View(), n) ensures own[n] == own[n] - {vid} {
          NotUser(View(), own, n, vid);
        }
        assert user - {vid} == user;
        return true;
      }
      if routed {
        return false;
      }
      UserInRange(View(), vid);
      LagsLeave(vid);
      PortsLeave(vid);
      RemovedVlan(View(), own, vid, vid == 1);
      user := user - {vid};
      if vid != 1 {
        chip, chipU := chip[vid := {}], chipU[vid := {}];
      }
      return true;
    }

    /** Floods between a member and each of the others: blocked, or not. */
    method FloodBlock(k: nat, i: nat, on: bool)
      requires k < |lags|
      modifies this`pairs
      ensures forall p: nat, q: nat :: (p, q) in pairs <==>
        if Across(i, lags[k].m, p, q) then on else (p, q) in old(pairs)
    {
      var j := 0;
      while j < |lags[k].m|
        invariant 0 <= j <= |lags[k].m|
        invariant forall p: nat, q: nat :: (p, q) in pairs <==>
          if Across(i, lags[k].m[..j], p, q) then on else (p, q) in old(pairs)
      {
        var x := lags[k].m[j];
        assert lags[k].m[..j + 1] == lags[k].m[..j] + [x];
        if x != i {
          if on {
            pairs := pairs + {(i, x), (x, i)};
          } else {
            pairs := pairs - {(i, x), (x, i)};
          }
        }
        j := j + 1;
      }
      assert lags[k].m[..j] == lags[k].m;
    }

    /** A new member takes on its LAG's VLANs, if the LAG is switched. */
    method TakeOn(k: nat, i: nat) returns (sw: bool)
      requires Sized1(View()) && 1 <= k <= MAX_LAGS
      modifies this`members, this`untagged, this`chip, this`chipU
      ensures sw == (switched[LagKey(k)] > 0) && Sized1(View())
      ensures forall v {:trigger Took(old(View()), View(), k, i, v)} :: 0 <= v < MAX_VID ==>
        Took(old(View()), View(), k, i, v)
    {
      ghost var t := View();
      sw := switched[LagKey(k)] > 0;
      if sw {
        var v := 1;
        while v < MAX_VID - 1
          invariant 1 <= v <= MAX_VID - 1 && Sized1(View())
          invariant TakenTo(t, View(), k, i, v)
        {
          ghost var u := View();
          if lagvl[k][v] != 0 {
            AddPorts({i}, v, lagvl[k][v] != 1);
          }
          TookOne(t, u, View(), k, i, v);
          v := v + 1;
        }
        assert SameBits(t, View(), v);
      }
    }

    /** A member that leaves gives them up. */
    method GiveUp(k: nat, i: nat) returns (sw: bool)
      requires Sized1(View()) && 1 <= k <= MAX_LAGS
      modifies this`members, this`untagged, this`chip, this`chipU
      ensures sw == (switched[LagKey(k)] > 0) && Sized1(View())
      ensures forall v {:trigger Gave(old(View()), View(), k, i, v)} :: 0 <= v < MAX_VID ==>
        Gave(old(View()), View(), k, i, v)
    {
      ghost var t := View();
      sw := switched[LagKey(k)] > 0;
      if sw {
        var v := 1;
        while v < MAX_VID - 1
          invariant 1 <= v <= MAX_VID - 1 && Sized1(View())
          invariant GivenTo(t, View(), k, i, v)
        {
          ghost var u := View();
          if lagvl[k][v] != 0 {
            DropPorts({i}, v);
          }
          GaveOne(t, u, View(), k, i, v);
          v := v + 1;
        }
        assert SameBits(t, View(), v);
      }
    }

    /** Its bits leave its service VLAN and follow the LAG's. */
    method MoveIn(k: nat, i: nat)
      requires Sized1(View()) && 1 <= k <= MAX_LAGS && i < |svc| && svc[i] < MAX_VID
      modifies this`members, this`untagged, this`chip, this`chipU
      ensures Sized1(View())
      ensures forall v {:trigger MovedIn(old(View()), View(), k, i, v)} :: 0 <= v < MAX_VID ==>
        MovedIn(old(View()), View(), k, i, v)
    {
      ghost var t := View();
      chip, chipU := Dropped(chip, svc[i], {i}), Dropped(chipU, svc[i], {i});
      ghost var t1 := View();
      var sw := TakeOn(k, i);
      ghost var t2 := View();
      if !sw {
        chip, chipU := Added(chip, LAG_SVC_BASE + k, {i}), Added(chipU, LAG_SVC_BASE + k, {i});
      }
      forall v | 0 <= v < MAX_VID ensures MovedIn(t, View(), k, i, v) {
        assert Took(t1, t2, k, i, v);
        MovedInBy(t, t1, t2, View(), k, i, v);
      }
    }

    /** Its bits stop following the LAG's and go back to its service VLAN. */
    method MoveOut(k: nat, i: nat)
      requires Sized1(View()) && 1 <= k <= MAX_LAGS && i < |svc| && svc[i] < MAX_VID
      modifies this`members, this`untagged, this`chip, this`chipU
      ensures Sized1(View())
      ensures forall v {:trigger MovedOut(old(View()), View(), k, i, v)} :: 0 <= v < MAX_VID ==>
        MovedOut(old(View()), View(), k, i, v)
    {
      ghost var t := View();
      var sw := GiveUp(k, i);
      ghost var t1 := View();
      if !sw {
        chip, chipU := Dropped(chip, LAG_SVC_BASE + k, {i}), Dropped(chipU, LAG_SVC_BASE + k, {i});
      }
      chip, chipU := Added(chip, svc[i], {i}), Added(chipU, svc[i], {i});
      forall v | 0 <= v < MAX_VID ensures MovedOut(t, View(), k, i, v) {
        assert Gave(t, t1, k, i, v);
      }
    }

    /** A routed port joins a LAG, as its last member. */
    method MemberJoin(k: nat, i: nat)
      requires Valid() && MayJoin(View(), own, k, i)
      modifies this`members, this`untagged, this`chip, this`chipU, this`claimed, this`pairs, this`lags
      ensures Valid() && claimed == old(claimed)[i := k]
      ensures lags == old(lags)[k := Lag(true, old(lags[k].m) + [i])]
    {
      ghost var t := View();
      SvcInRange(t, i);
      Appended(t, own, k, i);
      MoveIn(k, i);
      ghost var t1 := View();
      claimed := claimed[i := k];
      FloodBlock(k, i, true);
      lags := lags[k := Lag(true, lags[k].m + [i])];
      ghost var u := View();
      forall v | 0 <= v < MAX_VID ensures OthersStay(t, u, i, v) && TapAgrees(u, own, i, v) {
        assert MovedIn(t, t1, k, i, v);
        assert MovedIn(t, u, k, i, v);
        MovedInTap(t, u, own, k, i, v);
      }
      Reclaimed(t, u, own, k, i, true);
    }

    /** Member j of a LAG leaves it. */
    method MemberLeave(k: nat, j: nat)
      requires Valid() && 1 <= k <= MAX_LAGS && j < |lags[k].m|
      modifies this`members, this`untagged, this`chip, this`chipU, this`claimed, this`pairs, this`lags
      ensures Valid()
      ensures old(lags[k].m[j]) < |svc| && claimed == old(claimed)[old(lags[k].m[j]) := 0]
      ensures lags == old(lags)[k := Lag(true, SwapOut(old(lags[k].m), j))]
    {
      ghost var t := View();
      MemberIs(t, own, k, j);
      SwappedOut(lags[k].m, j);
      var i := lags[k].m[j];
      SvcInRange(t, i);
      lags := lags[k := Lag(true, SwapOut(lags[k].m, j))];
      ghost var t0 := View();
      MoveOut(k, i);
      ghost var t1 := View();
      FloodBlock(k, i, false);
      claimed := claimed[i := 0];
      ghost var u := View();
      forall v | 0 <= v < MAX_VID ensures OthersStay(t, u, i, v) && TapAgrees(u, own, i, v) {
        assert MovedOut(t0, t1, k, i, v);
        assert MovedOut(t, u, k, i, v);
        MovedOutTap(t, u, own, k, i, v);
      }
      Reclaimed(t, u, own, k, i, false);
    }

    /** The whole request looked at, with nothing touched yet. */
    method CheckMembers(k: nat, want: seq<Name>) returns (ok: bool, ports: seq<nat>)
      requires Valid() && 1 <= k <= MAX_LAGS && lags[k].used
      ensures ok <==> Acceptable(View(), k, want)
      ensures ok ==> |ports| == |want| && forall j :: 0 <= j < |want| ==> want[j] == Port(ports[j])
    {
      ports := [];
      if |want| > MAX_LAGM {
        return false, [];
      }
      var i := 0;
      while i < |want|
        invariant 0 <= i <= |want| && |ports| == i
        invariant forall j :: 0 <= j < i ==> want[j] == Port(ports[j]) && Eligible(View(), k, want[j])
        invariant forall x, y :: 0 <= x < y < i ==> want[x] != want[y]
      {
        if !want[i].Port? || want[i].i >= |svc| {
          return false, [];
        }
        var p := want[i].i;
        if p in ports {
          var x :| 0 <= x < i && ports[x] == p;
          assert want[x] == want[i];
          return false, [];
        }
        if claimed[p] != 0 && claimed[p] != k {
          return false, [];
        }
        if claimed[p] == 0 && switched[p] > 0 {
          return false, [];
        }
        forall x | 0 <= x < i ensures want[x] != want[i] {
          assert ports[x] in ports;
        }
        ports := ports + [p];
        i := i + 1;
      }
      ok := true;
    }

    /** Members not asked for leave; the rest stay. */
    method Leavers(k: nat, ports: seq<nat>)
      requires Valid() && 1 <= k <= MAX_LAGS && lags[k].used
      modifies this`members, this`untagged, this`chip, this`chipU, this`claimed, this`pairs, this`lags
      ensures Valid() && |lags| == old(|lags|) && lags == old(lags)[k := lags[k]] && lags[k].used
      ensures forall p :: p in lags[k].m <==> p in old(lags[k].m) && p in ports
      ensures forall p :: 0 <= p < |svc| && old(claimed[p]) != k ==> claimed[p] == old(claimed[p])
    {
      ghost var t := View();
      var i := 0;
      while i < |lags[k].m|
        invariant |lags| == |t.lags| && lags == t.lags[k := lags[k]] && lags[k].used
        invariant 0 <= i <= |lags[k].m| && Valid()
        invariant forall j :: 0 <= j < i ==> lags[k].m[j] in ports
        invariant forall p :: p in lags[k].m ==> p in t.lags[k].m
        invariant forall p :: p in t.lags[k].m && p in ports ==> p in lags[k].m
        invariant forall p :: 0 <= p < |svc| && t.claimed[p] != k ==> claimed[p] == t.claimed[p]
        decreases |lags[k].m| - i
      {
        if lags[k].m[i] in ports {
          i := i + 1;
        } else {
          ghost var m := lags[k].m;
          MemberIs(View(), own, k, i);
          assert m[i] in m;
          ClaimMeans(t, own, k, m[i]);
          SwappedOut(m, i);
          MemberLeave(k, i);
        }
      }
    }

    /** Ports asked for that are not yet members join. */
    method Joiners(k: nat, ports: seq<nat>)
      requires Valid() && 1 <= k <= MAX_LAGS && lags[k].used && |ports| <= MAX_LAGM
      requires forall p :: p in ports ==> Eligible(View(), k, Port(p))
      requires forall p :: p in lags[k].m ==> p in ports
      modifies this`members, this`untagged, this`chip, this`chipU, this`claimed, this`pairs, this`lags
      ensures Valid() && |lags| == old(|lags|) && lags == old(lags)[k := lags[k]] && lags[k].used
      ensures forall p :: p in lags[k].m <==> p in ports
      ensures forall p :: 0 <= p < |svc| && p !in ports ==> claimed[p] == old(claimed[p])
    {
      ghost var t := View();
      var j := 0;
      while j < |ports|
        invariant 0 <= j <= |ports| && Valid() && |lags| == |t.lags| && lags == t.lags[k := lags[k]] && lags[k].used
        invariant forall p :: p in lags[k].m ==> p in ports
        invariant forall x :: 0 <= x < j ==> ports[x] in lags[k].m
        invariant forall p :: p in ports ==> Eligible(View(), k, Port(p))
        invariant forall p :: 0 <= p < |svc| && p !in ports ==> claimed[p] == t.claimed[p]
      {
        var i := ports[j];
        assert i in ports;
        if i !in lags[k].m {
          assert Eligible(View(), k, Port(i));
          ClaimMeans(View(), own, k, i);
          FewerThan(lags[k].m + [i], ports);
          MemberJoin(k, i);
        }
        j := j + 1;
      }
    }

    /** All or nothing: refused with nothing changed, or the members are
        exactly the ports asked for. */
    method LagMembers(name: Name, want: seq<Name>) returns (ok: bool)
      requires Valid()
      modifies this
      ensures Valid() && own == old(own)
      ensures ok <==> name.Po? && Acceptable(old(View()), name.k, want)
      ensures !ok ==> View() == old(View())
      ensures ok ==> name.k < |old(lags)| && |lags| == old(|lags|) && lags == old(lags)[name.k := lags[name.k]]
      ensures ok ==> lags[name.k].used
      ensures ok ==> forall p :: p in lags[name.k].m <==> Port(p) in want
      ensures user == old(user) && tunnel == old(tunnel) && switched == old(switched)
    {
      if !name.Po? || !(1 <= name.k <= MAX_LAGS) || !lags[name.k].used {
        return false;
      }
      var k := name.k;
      var ports;
      ghost var t := View();
      ok, ports := CheckMembers(k, want);
      if !ok {
        return;
      }
      forall p ensures p in ports <==> Port(p) in want {
        if p in ports {
          var x :| 0 <= x < |ports| && ports[x] == p;
          assert want[x] == Port(p);
        }
        if Port(p) in want {
          var x :| 0 <= x < |want| && want[x] == Port(p);
          assert ports[x] == p;
        }
      }
      Leavers(k, ports);
      forall p | p in ports ensures Eligible(View(), k, Port(p)) {
        StillEligible(t, View(), own, k, p);
      }
      Joiners(k, ports);
    }

    /** A LAG that exists already is left as it is. */
    method LagAdd(name: Name) returns (ok: bool)
      requires Valid()
      modifies this`lags
      ensures Valid()
      ensures ok <==> name.Po? && 1 <= name.k <= MAX_LAGS
      ensures lags == if ok && !old(lags)[name.k].used then old(lags)[name.k := Lag(true, [])] else old(lags)
    {
      if !name.Po? || !(1 <= name.k <= MAX_LAGS) {
        return false;
      }
      if lags[name.k].used {
        return true;
      }
      Created(View(), own, name.k);
      lags := lags[name.k := Lag(true, [])];
      return true;
    }

    /** Before a LAG is removed it gives up all its VLANs. */
    method Forget(k: nat)
      requires Valid() && 1 <= k <= MAX_LAGS && lags[k].used
      modifies this`members, this`untagged, this`lagvl, this`switched, this`tunnel, this`chip, this`chipU, this`own
      ensures Valid() && own == old(own)[LagKey(k) := map[]]
      ensures forall n :: 0 <= n < NIFACE && n != LagKey(k) ==> tunnel[n] == old(tunnel[n])
    {
      var v := 1;
      ghost var was, key := own, LagKey(k);
      InRange(View(), own, key);
      ClearedNone(own[key], 0, 1);
      while v < MAX_VID - 1
        invariant 1 <= v <= MAX_VID - 1 && Valid()
        invariant own == was[key := Emptied(was[key], 0, v)]
        invariant forall n :: 0 <= n < NIFACE && n != key ==> tunnel[n] == old(tunnel[n])
      {
        LagIn(View(), own, k, v);
        ClearedNext(was[key], 0, v);
        if lagvl[k][v] != 0 {
          LeaveOne(LagKey(k), v);
        }
        v := v + 1;
      }
      ClearedAll(was[key], 0, v);
      NoneInLag(View(), own, k);
      lagvl := lagvl[k := seq(MAX_VID, _ => 0)];
      switched := switched[LagKey(k) := 0];
    }

    /** Its ports are routed ports again, and nothing else has changed. */
    method LagDel(name: Name)
      requires Valid()
      modifies this
      ensures Valid()
      ensures !Known(old(View()), name) || !name.Po? ==> View() == old(View()) && own == old(own)
      ensures Known(old(View()), name) && name.Po? ==>
        lags == old(lags)[name.k := Lag(false, [])] && own == old(own)[LagKey(name.k) := map[]] && user == old(user)
    {
      if !name.Po? || !(1 <= name.k <= MAX_LAGS) || !lags[name.k].used {
        return;
      }
      var k := name.k;
      Forget(k);
      while |lags[k].m| > 0
        invariant |lags| == old(|lags|) && lags == old(lags)[k := lags[k]] && lags[k].used && Valid()
        invariant own == old(own)[LagKey(k) := map[]] && user == old(user)
        decreases |lags[k].m|
      {
        MemberLeave(k, |lags[k].m| - 1);
      }
      Removed(View(), own, k);
      lags := lags[k := Lag(false, [])];
    }
  }

  /** A LAG of two ports. */
  method Bundle() returns (t: Switching)
    ensures fresh(t) && t.Valid() && t.svc == [10, 11] && t.user == {} && t.claimed[0] == 1
    ensures t.lags[1].used && t.tunnel[LagKey(1)] == 0
  {
    t := new Switching([10, 11]);
    var ok := t.LagAdd(Po(1));
    ok := t.LagMembers(Po(1), [Port(0), Port(1)]);
    assert ok && Port(0) in [Port(0), Port(1)];
    ClaimMeans(t.View(), t.own, 1, 0);
  }

  /** The same in VLAN 100, and VLAN 200 beside it. */
  method Bundled() returns (t: Switching)
    ensures fresh(t) && t.Valid() && t.svc == [10, 11] && t.user == {100, 200}
    ensures t.claimed[0] == 1 && MemberIn(t.View(), t.own, 0, 100)
  {
    t := Bundle();
    NotReserved();
    var ok := t.VlanAdd(100, false);
    ok := t.VlanAdd(200, false);
    ok := t.PortSet(Po(1), 100, true);
    assert ok;
  }

  lemma NotReserved()
    ensures !Reserved([10, 11], 100) && !Reserved([10, 11], 200)
  {
  }

  /** Taking one of its ports out by its own name leaves tables that nothing
      accounts for. */
  method MemberTakenOut() returns (t: Switching)
    ensures fresh(t) && !Accounted(t.View())
  {
    t := Bundled();
    var ok := t.PortDel(Port(0), 100);
  }

  /** And so does making one a tunnel port of the other VLAN. */
  method MemberTunnelled() returns (t: Switching)
    ensures fresh(t) && !Accounted(t.View())
  {
    t := Bundled();
    assert StrayIn(t.View(), t.own, 0, 200);
    var ok := t.Tunnel(Port(0), 200);
  }
}
