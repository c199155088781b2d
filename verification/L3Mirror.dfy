/**
 The route cache and the chip's tables, updated in place as `poll_routes` and
 what it calls do.
 */
module L3Mirror {
  import opened Masks
  import opened L3Routes

  datatype Entry = Entry(key: Key, eg: int, seen: bool)
  datatype Group = Group(members: seq<int>, id: int)

  /** What an egress number stands for: a group's members, or itself. */
  function Denotes(made: map<int, seq<int>>, eg: int): seq<int> {
    if eg in made then made[eg] else [eg]
  }

  function Lists(groups: seq<Group>): seq<seq<int>> {
    seq(|groups|, i requires 0 <= i < |groups| => groups[i].members)
  }

  predicate RecordedAt(es: seq<Entry>, k: Key, j: nat) {
    j < |es| && es[j].key == k
  }

  ghost predicate Recorded(es: seq<Entry>, k: Key) {
    exists j: nat :: RecordedAt(es, k, j)
  }

  ghost predicate Unique(es: seq<Entry>) {
    forall i, j :: 0 <= i < j < |es| ==> es[i].key != es[j].key
  }

  predicate InChip(chip: map<Key, int>, e: Entry) {
    e.key in chip && chip[e.key] == e.eg
  }

  /** The chip holds the cached routes and no others. */
  ghost predicate Mirrors(es: seq<Entry>, chip: map<Key, int>) {
    (forall j :: 0 <= j < |es| ==> InChip(chip, es[j])) && forall k :: k in chip ==> Recorded(es, k)
  }

  /** Exactly what has been asked for so far is marked seen, as asked. */
  ghost predicate Progress(es: seq<Entry>, made: map<int, seq<int>>, w: map<Key, seq<int>>) {
    (forall j :: 0 <= j < |es| ==>
      (es[j].seen <==> es[j].key in w) && (es[j].seen ==> Denotes(made, es[j].eg) == w[es[j].key])) &&
    forall k :: k in w ==> Recorded(es, k)
  }

  /** Each cached group is in the chip with its members, one a member list. */
  ghost predicate GroupsSound(groups: seq<Group>, made: map<int, seq<int>>, next: int) {
    |groups| <= MAX_ECMP && GROUP_BASE <= next &&
    (forall i :: 0 <= i < |groups| ==> groups[i].id in made && made[groups[i].id] == groups[i].members) &&
    (forall id :: id in made ==> GROUP_BASE <= id < next) && L3Routes.Distinct(Lists(groups))
  }

  lemma SetEntry(es: seq<Entry>, chip: map<Key, int>, made: map<int, seq<int>>, w: map<Key, seq<int>>, j: nat,
                 eg: int, egs: seq<int>)
    requires Unique(es) && Mirrors(es, chip) && Progress(es, made, w) && j < |es| && Denotes(made, eg) == egs
    ensures var es' := es[j := Entry(es[j].key, eg, true)];
      Unique(es') && Mirrors(es', chip[es[j].key := eg]) && Progress(es', made, w[es[j].key := egs])
  {
    var key, es' := es[j].key, es[j := Entry(es[j].key, eg, true)];
    forall k | k in chip[key := eg] || k in w[key := egs] ensures Recorded(es', k) {
      if k == key {
        assert RecordedAt(es', k, j);
      } else {
        assert Recorded(es, k);
        var x: nat :| RecordedAt(es, k, x);
        assert RecordedAt(es', k, x);
      }
    }
  }

  lemma AddEntry(es: seq<Entry>, chip: map<Key, int>, made: map<int, seq<int>>, w: map<Key, seq<int>>, key: Key,
                 eg: int, egs: seq<int>)
    requires Mirrors(es, chip) && Progress(es, made, w) && !Recorded(es, key) && Denotes(made, eg) == egs
    ensures Progress(es + [Entry(key, eg, true)], made, w[key := egs])
  {
    var es' := es + [Entry(key, eg, true)];
    assert forall j :: 0 <= j < |es| ==> es'[j] == es[j] && RecordedAt(es, es[j].key, j);
    OneMoreKey(es, Entry(key, eg, true));
  }

  /** Made groups stay as they are: what was asked for still stands. */
  lemma StillProgress(es: seq<Entry>, made: map<int, seq<int>>, made': map<int, seq<int>>, w: map<Key, seq<int>>)
    requires Progress(es, made, w) && KnownAll(es, made)
    requires forall id :: id < GROUP_BASE || id in made ==> Denotes(made', id) == Denotes(made, id)
    ensures Progress(es, made', w)
  {
    assert forall j :: 0 <= j < |es| ==> Known(made, es[j].eg);
  }

  predicate Known(made: map<int, seq<int>>, eg: int) {
    eg < GROUP_BASE || eg in made
  }

  ghost predicate KnownAll(es: seq<Entry>, made: map<int, seq<int>>) {
    forall j {:trigger es[j]} :: 0 <= j < |es| ==> Known(made, es[j].eg)
  }

  /** A route the chip took and the cache had no room for: no longer a mirror. */
  lemma Unrecorded(es: seq<Entry>, chip: map<Key, int>, key: Key, eg: int)
    requires !Recorded(es, key)
    ensures !Mirrors(es, chip[key := eg])
  {
    assert key in chip[key := eg];
  }

  class RouteCache {
    const rt: array<Entry>
    var nrt: nat
    var chip: map<Key, int>
    var groups: seq<Group>
    var made: map<int, seq<int>>
    var next: int

    ghost predicate Valid()
      reads this, rt
    {
      rt.Length == MAX_RT && nrt <= MAX_RT && Unique(rt[..nrt]) && GroupsSound(groups, made, next) &&
      KnownAll(rt[..nrt], made)
    }

    constructor ()
      ensures Valid() && fresh(rt) && nrt == 0 && chip == map[] && groups == []
    {
      rt := new Entry[MAX_RT](_ => Entry(Key(0, 0), 0, false));
      nrt, chip, groups, made, next := 0, map[], [], map[], GROUP_BASE;
    }

    method Find(key: Key) returns (idx: int)
      requires Valid()
      ensures -1 <= idx < nrt
      ensures idx >= 0 ==> RecordedAt(rt[..nrt], key, idx)
      ensures idx < 0 ==> !Recorded(rt[..nrt], key)
    {
      var i := 0;
      while i < nrt
        invariant 0 <= i <= nrt && forall j :: 0 <= j < i ==> rt[j].key != key
      {
        if rt[i].key == key {
          return i;
        }
        i := i + 1;
      }
      return -1;
    }

    /** The group of these next hops, made if it is new and there is room. */
    method EcmpFind(members: seq<int>) returns (ok: bool, eg: int)
      requires Valid() && |members| > 1
      modifies this`groups, this`made, this`next
      ensures Valid() && (ok ==> eg in made)
      ensures ok <==> members in old(Lists(groups)) || |old(groups)| < MAX_ECMP
      ensures Lists(groups) == if members in old(Lists(groups)) || !ok then old(Lists(groups))
        else old(Lists(groups)) + [members]
      ensures ok ==> Denotes(made, eg) == members
      ensures forall id :: id < GROUP_BASE || id in old(made) ==> Denotes(made, id) == old(Denotes(made, id))
    {
      var i := 0;
      while i < |groups|
        invariant 0 <= i <= |groups| && forall j :: 0 <= j < i ==> groups[j].members != members
      {
        if groups[i].members == members {
          assert Lists(groups)[i] == members;
          return true, groups[i].id;
        }
        i := i + 1;
      }
      assert forall j :: 0 <= j < |groups| ==> Lists(groups)[j] != members;
      if |groups| >= MAX_ECMP {
        return false, 0;
      }
      ghost var was := groups;
      eg := next;
      made := made[eg := members];
      next := next + 1;
      groups := groups + [Group(members, eg)];
      assert Lists(groups) == Lists(was) + [members];
      return true, eg;
    }

    /** A route already recorded: seen, and moved if its egress is another. */
    method Refresh(idx: nat, eg: int, ghost egs: seq<int>, ghost w: map<Key, seq<int>>)
      requires Valid() && idx < nrt && Denotes(made, eg) == egs && Known(made, eg)
      modifies this`chip, rt
      ensures Valid() && rt[..nrt] == old(rt[..nrt])[idx := Entry(old(rt[idx].key), eg, true)]
      ensures old(Mirrors(rt[..nrt], chip) && Progress(rt[..nrt], made, w)) ==>
        Mirrors(rt[..nrt], chip) && Progress(rt[..nrt], made, w[old(rt[idx].key) := egs])
      ensures old(Strayed(rt[..nrt], chip)) ==> Strayed(rt[..nrt], chip)
    {
      ghost var es, key := rt[..nrt], rt[idx].key;
      ghost var updated := es[idx := Entry(key, eg, true)];
      assert RecordedAt(es, key, idx);
      SameKeys(es, updated);
      if Strayed(es, chip) {
        StaysStrayed(es, chip, updated, chip, key);
        StaysStrayed(es, chip, updated, chip[key := eg], key);
      }
      if Mirrors(es, chip) && Progress(es, made, w) {
        SetEntry(es, chip, made, w, idx, eg, egs);
        assert InChip(chip, es[idx]);
        assert es[idx].eg == eg ==> chip == chip[key := eg];
      }
      Reindexed(es, idx, eg);
      rt[idx] := rt[idx].(seen := true);
      if rt[idx].eg != eg {
        chip := chip[rt[idx].key := eg];
        rt[idx] := rt[idx].(eg := eg);
      }
      assert rt[..nrt] == updated;
    }

    /** A route not recorded: added to the chip, and to the cache if there is
        room. The chip refuses a prefix it has. */
    method Install(key: Key, eg: int, ghost egs: seq<int>, ghost w: map<Key, seq<int>>)
      requires Valid() && !Recorded(rt[..nrt], key) && Denotes(made, eg) == egs && Known(made, eg)
      modifies this`nrt, this`chip, rt
      ensures Valid() && (rt[..nrt] == old(rt[..nrt]) || rt[..nrt] == old(rt[..nrt]) + [Entry(key, eg, true)])
      ensures old(Mirrors(rt[..nrt], chip)) ==> (Mirrors(rt[..nrt], chip) <==> old(nrt) < MAX_RT)
      ensures old(Mirrors(rt[..nrt], chip) && Progress(rt[..nrt], made, w)) && old(nrt) < MAX_RT ==>
        Progress(rt[..nrt], made, w[key := egs])
      ensures old(Strayed(rt[..nrt], chip)) ==> Strayed(rt[..nrt], chip)
      ensures old(Mirrors(rt[..nrt], chip)) && old(nrt) == MAX_RT ==> Strayed(rt[..nrt], chip)
    {
      ghost var es := rt[..nrt];
      if key in chip {
        return;
      }
      OneMoreKey(es, Entry(key, eg, true));
      if Strayed(es, chip) {
        StaysStrayed(es, chip, es, chip[key := eg], key);
        StaysStrayed(es, chip, es + [Entry(key, eg, true)], chip[key := eg], key);
      }
      ghost var was := chip;
      chip := chip[key := eg];
      if nrt < MAX_RT {
        Extended(es, Entry(key, eg, true));
        if Mirrors(es, was) && Progress(es, made, w) {
          AddEntry(es, was, made, w, key, eg, egs);
        }
        if Mirrors(es, was) {
          MirrorsAdded(es, was, key, eg);
        }
        rt[nrt] := Entry(key, eg, true);
        nrt := nrt + 1;
        assert rt[..nrt] == es + [Entry(key, eg, true)];
      } else {
        Unrecorded(es, was, key, eg);
      }
    }

    /** The hops that resolve: with a gateway, through an interface of ours. */
    method Resolve(hops: seq<Hop>, nh: map<Hop, int>) returns (member: seq<int>)
      ensures member == Resolved(hops, nh)
    {
      member := [];
      var i := 0;
      while i < |hops|
        invariant 0 <= i <= |hops| && member == Resolved(hops[..i], nh)
      {
        assert hops[..i + 1][..i] == hops[..i];
        if hops[i].gw != 0 && hops[i] in nh {
          member := member + [nh[hops[i]]];
        }
        i := i + 1;
      }
      assert hops[..i] == hops;
    }

    /** One egress for the hops that resolved: itself, or their group. */
    method Egress(member: seq<int>) returns (ok: bool, eg: int)
      requires Valid() && member != [] && (|member| == 1 ==> member[0] < GROUP_BASE)
      modifies this`groups, this`made, this`next
      ensures Valid() && (ok ==> Denotes(made, eg) == member && Known(made, eg))
      ensures ok <==> |member| == 1 || member in old(Lists(groups)) || |old(groups)| < MAX_ECMP
      ensures Lists(groups) == if |member| == 1 || member in old(Lists(groups)) || !ok then old(Lists(groups))
                               else old(Lists(groups)) + [member]
      ensures forall id :: id < GROUP_BASE || id in old(made) ==> Denotes(made, id) == old(Denotes(made, id))
    {
      if |member| == 1 {
        return true, member[0];
      }
      ok, eg := EcmpFind(member);
    }

    /** One route of the kernel's. `room` bounds the prefixes there may be. */
    method RouteOne(r: Route, nh: map<Hop, int>, ghost w: map<Key, seq<int>>, ghost room: set<Key>,
                    ghost base: set<Key>)
      requires Valid() && r.plen <= 32 && SingleEgress(nh)
      modifies this, rt
      ensures Valid()
      ensures Lists(groups) == Ask((w, old(Lists(groups))), KeyOf(r), Resolved(r.hops, nh)).1
      ensures (old(OnTrack(rt[..nrt], chip, made, w, room)) &&
               (forall k :: k in Ask((w, old(Lists(groups))), KeyOf(r), Resolved(r.hops, nh)).0 ==> k in room)) ==>
        OnTrack(rt[..nrt], chip, made, Ask((w, old(Lists(groups))), KeyOf(r), Resolved(r.hops, nh)).0, room)
      ensures old(Whichever(rt[..nrt], chip, made, w, base)) ==>
        Whichever(rt[..nrt], chip, made, Ask((w, old(Lists(groups))), KeyOf(r), Resolved(r.hops, nh)).0, base)
    {
      var key := KeyOf(r);
      var member := Resolve(r.hops, nh);
      if member == [] {
        return;
      }
      ResolvedSingle(r.hops, nh);
      ghost var es, was := rt[..nrt], made;
      var ok, eg := Egress(member);
      if Progress(es, was, w) {
        StillProgress(es, was, made, w);
      }
      if !ok {
        return;
      }
      Put(key, eg, member, w, room, base);
    }

    method Put(key: Key, eg: int, ghost egs: seq<int>, ghost w: map<Key, seq<int>>, ghost room: set<Key>,
               ghost base: set<Key>)
      requires Valid() && Denotes(made, eg) == egs && Known(made, eg)
      modifies this`nrt, this`chip, rt
      ensures Valid()
      ensures old(OnTrack(rt[..nrt], chip, made, w, room)) && key in room ==>
        OnTrack(rt[..nrt], chip, made, w[key := egs], room)
      ensures old(Whichever(rt[..nrt], chip, made, w, base)) ==> Whichever(rt[..nrt], chip, made, w[key := egs], base)
    {
      ghost var es := rt[..nrt];
      var idx := Find(key);
      if idx >= 0 {
        SameKeys(es, es[idx := Entry(key, eg, true)]);
        Refresh(idx, eg, egs, w);
      } else {
        OneMoreKey(es, Entry(key, eg, true));
        if OnTrack(es, chip, made, w, room) && key in room {
          RoomFor(es, key, room);
        }
        Install(key, eg, egs, w);
      }
    }

    /** The kernel's list, route by route. */
    method Walk(list: seq<Route>, nh: map<Hop, int>, ghost room: set<Key>, ghost base: set<Key>)
      requires Valid() && SingleEgress(nh) && forall i :: 0 <= i < |list| ==> list[i].plen <= 32
      modifies this, rt
      ensures Valid() && Lists(groups) == Asked(list, nh, old(Lists(groups))).1
      ensures (old(OnTrack(rt[..nrt], chip, made, map[], room)) &&
        Asked(list, nh, old(Lists(groups))).0.Keys <= room) ==>
        OnTrack(rt[..nrt], chip, made, Asked(list, nh, old(Lists(groups))).0, room)
      ensures old(Whichever(rt[..nrt], chip, made, map[], base)) ==>
        Whichever(rt[..nrt], chip, made, Asked(list, nh, old(Lists(groups))).0, base)
    {
      ghost var lists := Lists(groups);
      ghost var either := Whichever(rt[..nrt], chip, made, map[], base);
      ghost var good := OnTrack(rt[..nrt], chip, made, map[], room) && Asked(list, nh, lists).0.Keys <= room;
      var i := 0;
      while i < |list|
        invariant 0 <= i <= |list| && Valid() && Lists(groups) == Asked(list[..i], nh, lists).1
        invariant good ==> OnTrack(rt[..nrt], chip, made, Asked(list[..i], nh, lists).0, room)
        invariant either ==> Whichever(rt[..nrt], chip, made, Asked(list[..i], nh, lists).0, base)
      {
        assert list[..i + 1][..i] == list[..i];
        AskedGrows(list, nh, lists, i + 1);
        RouteOne(list[i], nh, Asked(list[..i], nh, lists).0, room, base);
        i := i + 1;
      }
      assert list[..i] == list;
    }

    /** A poll. The cache still mirrors the chip exactly when every prefix cached
        or asked for fitted it; the chip then shows exactly what the list asks
        for. With each prefix listed once, that is what resolves exactly when
        the groups fit too. */
    method Poll(list: seq<Route>, nh: map<Hop, int>)
      requires Valid() && Mirrors(rt[..nrt], chip) && Resting(rt[..nrt]) && SingleEgress(nh)
      requires forall i :: 0 <= i < |list| ==> list[i].plen <= 32
      modifies this, rt
      ensures Valid() && Lists(groups) == Asked(list, nh, old(Lists(groups))).1
      ensures Mirrors(rt[..nrt], chip) <==> old(Fits(rt[..nrt], Asked(list, nh, Lists(groups)).0))
      ensures Mirrors(rt[..nrt], chip) ==>
        Resting(rt[..nrt]) && Shows(chip, made, Asked(list, nh, old(Lists(groups))).0)
      ensures Mirrors(rt[..nrt], chip) && OnceEach(list) ==>
        (Shows(chip, made, Resolvable(list, nh)) <==> |Elements(old(Lists(groups))) + Sets(list, nh)| <= MAX_ECMP)
      ensures Mirrors(rt[..nrt], chip) && OnceEach(list) ==>
        (|Elements(old(Lists(groups))) + Sets(list, nh)| <= MAX_ECMP ==> Routed(list, nh, chip, made))
    {
      ghost var lists, es := Lists(groups), rt[..nrt];
      ghost var w := Asked(list, nh, lists).0;
      ghost var room := KeySet(es) + w.Keys;
      if Fits(es, w) {
        StartsOnTrack(es, chip, made, w);
      }
      AllRecorded(es);
      Walk(list, nh, room, KeySet(es));
      ghost var done := rt[..nrt];
      if !Fits(es, w) && !Strayed(done, chip) {
        AllFitted(done, made, w, KeySet(es));
        assert false;
      }
      Sweep();
      Concluded(es, done, rt[..nrt], chip, made, list, nh, lists);
      if OnceEach(list) && Shows(chip, made, Resolvable(list, nh)) {
        ShowsRoutes(list, nh, chip, made);
      }
    }

    method Unmark(i: nat)
      requires i < nrt <= rt.Length
      modifies rt
      ensures rt[..nrt] == old(rt[..nrt])[i := old(rt[i]).(seen := false)]
    {
      rt[i] := rt[i].(seen := false);
    }

    method Withdraw(i: nat)
      requires i < nrt <= rt.Length
      modifies this`nrt, this`chip, rt
      ensures nrt == old(nrt) - 1 && chip == old(chip) - {old(rt[i]).key}
      ensures rt[..nrt] == SwapOut(old(rt[..nrt]), i)
    {
      chip := chip - {rt[i].key};
      rt[i] := rt[nrt - 1];
      nrt := nrt - 1;
    }

    /** An entry nobody saw goes, and the last one fills its place; the others
        lose their mark for the next poll. */
    method SweepLoop(ghost es: seq<Entry>, ghost was: map<Key, int>)
      requires nrt <= rt.Length == MAX_RT && es == rt[..nrt] && was == chip && Unique(es) && KnownAll(es, made)
      modifies this`nrt, this`chip, rt
      ensures nrt <= MAX_RT && Sweeping(es, was, made, rt[..nrt], chip, nrt)
    {
      var i := 0;
      while i < nrt
        invariant 0 <= i <= nrt <= MAX_RT && Sweeping(es, was, made, rt[..nrt], chip, i)
        decreases nrt - i
      {
        ghost var cs := rt[..nrt];
        if rt[i].seen {
          StepUnmarked(es, was, made, cs, chip, i);
          Unmark(i);
          i := i + 1;
        } else {
          StepWithdrawn(es, was, made, cs, chip, i);
          Withdraw(i);
        }
      }
    }

    method Sweep()
      requires Valid()
      modifies this`nrt, this`chip, rt
      ensures Valid() && Swept(old(rt[..nrt]), rt[..nrt])
      ensures old(Mirrors(rt[..nrt], chip)) ==> Mirrors(rt[..nrt], chip)
      ensures old(Strayed(rt[..nrt], chip)) ==> Strayed(rt[..nrt], chip)
    {
      ghost var es, was := rt[..nrt], chip;
      SweepLoop(es, was);
      SweptAll(es, rt[..nrt]);
    }
  }

  /** Between polls nothing is marked. */
  ghost predicate Resting(es: seq<Entry>) {
    forall j :: 0 <= j < |es| ==> !es[j].seen
  }

  /** The chip has exactly these prefixes, each by exactly these next hops. */
  ghost predicate Shows(chip: map<Key, int>, made: map<int, seq<int>>, w: map<Key, seq<int>>) {
    (forall k :: k in chip <==> k in w) && forall k :: k in w ==> k in chip && Denotes(made, chip[k]) == w[k]
  }

  /** Route i of the list, in the chip if any of its hops can be had, and then by
      the egresses of all that can, in order. */
  ghost predicate RoutedAt(list: seq<Route>, nh: map<Hop, int>, chip: map<Key, int>, made: map<int, seq<int>>, i: nat)
    requires i < |list| && list[i].plen <= 32
  {
    var k := Key(list[i].dst, Mask(list[i].plen));
    (k in chip <==> exists j :: 0 <= j < |list[i].hops| && Usable(list[i].hops[j], nh)) &&
    (k in chip ==> EgressesOf(list[i].hops, nh, Denotes(made, chip[k])))
  }

  /** The chip routes the list: each prefix of it so, and no other at all. */
  ghost predicate Routed(list: seq<Route>, nh: map<Hop, int>, chip: map<Key, int>, made: map<int, seq<int>>) {
    (forall i :: 0 <= i < |list| ==> list[i].plen <= 32 && RoutedAt(list, nh, chip, made, i)) &&
    forall k :: k in chip ==> exists j: nat :: ListedAt(list, k, j)
  }

  lemma ShowsRoutes(list: seq<Route>, nh: map<Hop, int>, chip: map<Key, int>, made: map<int, seq<int>>)
    requires OnceEach(list) && Shows(chip, made, Resolvable(list, nh))
    ensures Routed(list, nh, chip, made)
  {
    forall i | 0 <= i < |list| ensures RoutedAt(list, nh, chip, made, i) {
      ResolvableAt(list, nh, i);
      ResolvedEgresses(list[i].hops, nh);
    }
    forall k | k in chip ensures exists j: nat :: ListedAt(list, k, j) {
      ResolvableListed(list, nh, k);
    }
  }

  /** Every prefix cached or asked for, together, within the cache. */
  ghost predicate Fits(es: seq<Entry>, w: map<Key, seq<int>>) {
    |KeySet(es) + w.Keys| <= MAX_RT
  }

  lemma {:induction false} AskedGrows(list: seq<Route>, nh: map<Hop, int>, groups: seq<seq<int>>, i: nat)
    requires i <= |list| && forall i :: 0 <= i < |list| ==> list[i].plen <= 32
    ensures Asked(list[..i], nh, groups).0.Keys <= Asked(list, nh, groups).0.Keys
    decreases |list| - i
  {
    if i < |list| {
      assert list[..i + 1][..i] == list[..i];
      AskedGrows(list, nh, groups, i + 1);
    } else {
      assert list[..i] == list;
    }
  }

  lemma InKeySet(es: seq<Entry>, k: Key)
    requires Recorded(es, k)
    ensures k in KeySet(es)
  {
    var j: nat :| RecordedAt(es, k, j);
    assert es[j] in es;
  }

  lemma StartsOnTrack(es: seq<Entry>, chip: map<Key, int>, made: map<int, seq<int>>, w: map<Key, seq<int>>)
    requires Mirrors(es, chip) && Resting(es) && Fits(es, w)
    ensures OnTrack(es, chip, made, map[], KeySet(es) + w.Keys)
  {
    forall k | Recorded(es, k) ensures k in KeySet(es) {
      InKeySet(es, k);
    }
  }

  lemma AllRecorded(es: seq<Entry>)
    ensures forall k :: k in KeySet(es) ==> Recorded(es, k)
  {
    forall k | k in KeySet(es) ensures Recorded(es, k) {
      var e :| e in es && e.key == k;
      var j: nat :| j < |es| && es[j] == e;
      assert RecordedAt(es, k, j);
    }
  }

  lemma ShowsOne(chip: map<Key, int>, made: map<int, seq<int>>, w: map<Key, seq<int>>, v: map<Key, seq<int>>)
    requires Shows(chip, made, w)
    ensures Shows(chip, made, v) <==> v == w
  {
    if Shows(chip, made, v) {
      assert forall k :: k in v <==> k in w;
      assert forall k :: k in v ==> v[k] == w[k];
    }
  }

  /** What the sweep leaves, once it is known whether the prefixes fitted. */
  lemma Concluded(es: seq<Entry>, done: seq<Entry>, cs: seq<Entry>, chip: map<Key, int>, made: map<int, seq<int>>,
                  list: seq<Route>, nh: map<Hop, int>, lists: seq<seq<int>>)
    requires (forall i :: 0 <= i < |list| ==> list[i].plen <= 32) && L3Routes.Distinct(lists) && |lists| <= MAX_ECMP
    requires Swept(done, cs)
    requires var w := Asked(list, nh, lists).0;
      if Fits(es, w) then Progress(done, made, w) && Mirrors(cs, chip) else Strayed(cs, chip)
    ensures var w := Asked(list, nh, lists).0;
      && (Mirrors(cs, chip) <==> Fits(es, w))
      && (Mirrors(cs, chip) ==> Resting(cs) && Shows(chip, made, w))
      && (Mirrors(cs, chip) && OnceEach(list) ==>
            (Shows(chip, made, Resolvable(list, nh)) <==> |Elements(lists) + Sets(list, nh)| <= MAX_ECMP))
  {
    var w := Asked(list, nh, lists).0;
    if Fits(es, w) {
      SweptShows(done, cs, chip, made, w);
      ShowsOne(chip, made, w, Resolvable(list, nh));
      if OnceEach(list) {
        GroupLimitIsExact(list, nh, lists);
      }
    } else {
      StrayedIsNoMirror(cs, chip);
    }
  }

  /** On track and swept: the chip shows what was asked for. */
  lemma SweptShows(es: seq<Entry>, cs: seq<Entry>, chip: map<Key, int>, made: map<int, seq<int>>, w: map<Key, seq<int>>)
    requires Progress(es, made, w) && Swept(es, cs) && Mirrors(cs, chip)
    ensures Shows(chip, made, w) && Resting(cs)
  {
    forall j | 0 <= j < |cs| ensures !cs[j].seen && cs[j].key in w && Denotes(made, cs[j].eg) == w[cs[j].key] {
      assert cs[j] in cs;
      var e := cs[j].(seen := true);
      var x :| 0 <= x < |es| && es[x] == e;
    }
    forall k | k in chip ensures k in w {
      assert Recorded(cs, k);
      var j: nat :| RecordedAt(cs, k, j);
    }
    forall k | k in w ensures k in chip && Denotes(made, chip[k]) == w[k] {
      assert Recorded(es, k);
      var x: nat :| RecordedAt(es, k, x);
      var e := es[x].(seen := false);
      assert e.(seen := true) == es[x];
      assert e in cs;
      var j :| 0 <= j < |cs| && cs[j] == e;
      assert InChip(chip, cs[j]);
    }
  }

  /** The first i have been kept, unmarked; the rest are yet to be looked at;
      nothing seen has been lost. */
  ghost predicate SweptTo(es: seq<Entry>, cs: seq<Entry>, i: nat) {
    i <= |cs| && (forall j :: 0 <= j < i ==> !cs[j].seen && cs[j].(seen := true) in es) &&
    (forall j :: i <= j < |cs| ==> cs[j] in es) &&
    forall e :: e in es && e.seen ==> e.(seen := false) in cs[..i] || e in cs[i..]
  }

  ghost predicate Sweeping(es: seq<Entry>, was: map<Key, int>, made: map<int, seq<int>>, cs: seq<Entry>,
                           chip: map<Key, int>, i: nat) {
    Unique(cs) && KnownAll(cs, made) && SweptTo(es, cs, i) && (Mirrors(es, was) ==> Mirrors(cs, chip)) &&
    (Strayed(es, was) ==> Strayed(cs, chip))
  }

  lemma StepUnmarked(es: seq<Entry>, was: map<Key, int>, made: map<int, seq<int>>, cs: seq<Entry>,
                     chip: map<Key, int>, i: nat)
    requires Sweeping(es, was, made, cs, chip, i) && i < |cs| && cs[i].seen
    ensures Sweeping(es, was, made, cs[i := cs[i].(seen := false)], chip, i + 1)
  {
    Unmarked(es, cs, chip, i);
    SameKeys(cs, cs[i := cs[i].(seen := false)]);
  }

  lemma StepWithdrawn(es: seq<Entry>, was: map<Key, int>, made: map<int, seq<int>>, cs: seq<Entry>,
                      chip: map<Key, int>, i: nat)
    requires Sweeping(es, was, made, cs, chip, i) && i < |cs| && !cs[i].seen
    ensures Sweeping(es, was, made, SwapOut(cs, i), chip - {cs[i].key}, i)
  {
    WithdrawnSwept(es, cs, i);
    if Mirrors(es, was) {
      WithdrawnMirrors(cs, chip, i);
    }
    if Strayed(es, was) {
      StaysStrayedWithdrawn(cs, chip, i);
    }
  }

  /** Exactly those that were seen, unmarked. */
  ghost predicate Swept(es: seq<Entry>, cs: seq<Entry>) {
    forall e :: e in cs <==> !e.seen && e.(seen := true) in es
  }

  lemma SweptAll(es: seq<Entry>, cs: seq<Entry>)
    requires SweptTo(es, cs, |cs|)
    ensures Swept(es, cs)
  {
    assert cs[..|cs|] == cs;
    forall e: Entry | !e.seen && e.(seen := true) in es ensures e in cs {
      var s := e.(seen := true);
      assert s.(seen := false) == e;
    }
  }

  lemma Unmarked(es: seq<Entry>, cs: seq<Entry>, chip: map<Key, int>, i: nat)
    requires SweptTo(es, cs, i) && i < |cs| && cs[i].seen && Unique(cs)
    ensures var c := cs[i := cs[i].(seen := false)];
      SweptTo(es, c, i + 1) && Unique(c) && (Mirrors(cs, chip) ==> Mirrors(c, chip))
  {
    var c := cs[i := cs[i].(seen := false)];
    assert cs[i].(seen := false).(seen := true) == cs[i];
    assert c[..i + 1] == cs[..i] + [c[i]] && c[i + 1..] == cs[i + 1..] && cs[i..] == [cs[i]] + cs[i + 1..];
    SameKeys(cs, c);
  }

  function SwapOut(cs: seq<Entry>, i: nat): (c: seq<Entry>)
    requires i < |cs|
    ensures |c| == |cs| - 1 && forall j :: 0 <= j < |c| ==> c[j] == cs[if j == i then |c| else j]
  {
    cs[i := cs[|cs| - 1]][..|cs| - 1]
  }

  lemma WithdrawnSwept(es: seq<Entry>, cs: seq<Entry>, i: nat)
    requires SweptTo(es, cs, i) && i < |cs| && !cs[i].seen
    ensures SweptTo(es, SwapOut(cs, i), i)
  {
    var n, c := |cs| - 1, SwapOut(cs, i);
    assert c[..i] == cs[..i];
    forall e | e in cs[i..] && e != cs[i] ensures e in c[i..] {
      var j :| i <= j < |cs| && cs[j] == e;
      assert c[if j == n then i else j] == e;
    }
  }

  lemma WithdrawnMirrors(cs: seq<Entry>, chip: map<Key, int>, i: nat)
    requires i < |cs| && Unique(cs) && Mirrors(cs, chip)
    ensures Mirrors(SwapOut(cs, i), chip - {cs[i].key})
  {
    var n, c := |cs| - 1, SwapOut(cs, i);
    forall k | k in chip - {cs[i].key} ensures Recorded(c, k) {
      assert Recorded(cs, k);
      var j: nat :| RecordedAt(cs, k, j);
      assert RecordedAt(c, k, if j == n then i else j);
    }
  }

  /** The chip has a route the cache has no record of. */
  ghost predicate Strayed(es: seq<Entry>, chip: map<Key, int>) {
    exists k :: k in chip && !Recorded(es, k)
  }

  lemma StrayedIsNoMirror(es: seq<Entry>, chip: map<Key, int>)
    requires Strayed(es, chip)
    ensures !Mirrors(es, chip)
  {
  }

  /** Either it has, or the cache mirrors the chip, is up to date with what was
      asked for, and still has all of `base`. */
  ghost predicate Whichever(es: seq<Entry>, chip: map<Key, int>, made: map<int, seq<int>>, w: map<Key, seq<int>>,
                            base: set<Key>) {
    Strayed(es, chip) || (Mirrors(es, chip) && Progress(es, made, w) && forall k :: k in base ==> Recorded(es, k))
  }

  /** A route with no record stays without one while others come. */
  lemma StaysStrayed(es: seq<Entry>, chip: map<Key, int>, es': seq<Entry>, chip': map<Key, int>, key: Key)
    requires Strayed(es, chip) && (Recorded(es, key) || key !in chip) && chip.Keys <= chip'.Keys
    requires forall k :: Recorded(es', k) ==> Recorded(es, k) || k == key
    ensures Strayed(es', chip')
  {
    var k :| k in chip && !Recorded(es, k);
    assert k in chip' && !Recorded(es', k);
  }

  lemma StaysStrayedWithdrawn(cs: seq<Entry>, chip: map<Key, int>, i: nat)
    requires i < |cs| && Strayed(cs, chip)
    ensures Strayed(SwapOut(cs, i), chip - {cs[i].key})
  {
    var k :| k in chip && !Recorded(cs, k);
    assert RecordedAt(cs, cs[i].key, i);
    assert k in chip - {cs[i].key};
    if Recorded(SwapOut(cs, i), k) {
      var j: nat :| RecordedAt(SwapOut(cs, i), k, j);
      assert RecordedAt(cs, k, if j == i then |cs| - 1 else j);
    }
  }

  /** Had no route strayed, every prefix would have fitted. */
  lemma AllFitted(es: seq<Entry>, made: map<int, seq<int>>, w: map<Key, seq<int>>, base: set<Key>)
    requires Unique(es) && |es| <= MAX_RT && Progress(es, made, w) && forall k :: k in base ==> Recorded(es, k)
    ensures |base + w.Keys| <= MAX_RT
  {
    KeyCount(es);
    forall k | k in base + w.Keys ensures k in KeySet(es) {
      InKeySet(es, k);
    }
    Fewer(base + w.Keys, KeySet(es));
  }

  ghost predicate SingleEgress(nh: map<Hop, int>) {
    forall h :: h in nh ==> nh[h] < GROUP_BASE
  }

  lemma ResolvedSingle(hops: seq<Hop>, nh: map<Hop, int>)
    requires SingleEgress(nh)
    ensures forall e :: e in Resolved(hops, nh) ==> e < GROUP_BASE
    ensures |Resolved(hops, nh)| == 1 ==> Resolved(hops, nh)[0] < GROUP_BASE
  {
    ResolvedFew(hops, nh);
    if |Resolved(hops, nh)| == 1 {
      assert Resolved(hops, nh)[0] in Resolved(hops, nh);
    }
  }

  /** The cache mirrors the chip, is up to date with what was asked for, and
      there is room for all there may be. */
  ghost predicate OnTrack(es: seq<Entry>, chip: map<Key, int>, made: map<int, seq<int>>, w: map<Key, seq<int>>,
                          room: set<Key>) {
    Mirrors(es, chip) && Progress(es, made, w) && |room| <= MAX_RT && forall k :: Recorded(es, k) ==> k in room
  }

  function KeySet(es: seq<Entry>): set<Key> {
    set e | e in es :: e.key
  }

  lemma {:induction false} KeyCount(es: seq<Entry>)
    requires Unique(es)
    ensures |KeySet(es)| == |es|
  {
    if es != [] {
      var n := |es| - 1;
      KeyCount(es[..n]);
      assert es == es[..n] + [es[n]];
      assert KeySet(es) == KeySet(es[..n]) + {es[n].key};
    }
  }

  lemma {:induction false} Fewer(a: set<Key>, b: set<Key>)
    requires a <= b
    ensures |a| <= |b|
  {
    if a != {} {
      var x :| x in a;
      Fewer(a - {x}, b - {x});
    }
  }

  /** A prefix not recorded, where all there may be fit: there is room for it. */
  lemma RoomFor(es: seq<Entry>, key: Key, room: set<Key>)
    requires Unique(es) && !Recorded(es, key) && key in room && |room| <= MAX_RT
    requires forall k :: Recorded(es, k) ==> k in room
    ensures |es| < MAX_RT
  {
    KeyCount(es);
    forall k | k in KeySet(es) ensures k in room && k != key {
      var e :| e in es && e.key == k;
      var j: nat :| j < |es| && es[j] == e;
      assert RecordedAt(es, k, j);
    }
    Fewer(KeySet(es), room - {key});
  }

  lemma Reindexed(es: seq<Entry>, idx: nat, eg: int)
    requires Unique(es) && idx < |es|
    ensures Unique(es[idx := Entry(es[idx].key, eg, true)])
  {
  }

  lemma Extended(es: seq<Entry>, e: Entry)
    requires Unique(es) && !Recorded(es, e.key)
    ensures Unique(es + [e])
  {
    assert forall j :: 0 <= j < |es| ==> RecordedAt(es, es[j].key, j);
  }

  lemma MirrorsAdded(es: seq<Entry>, chip: map<Key, int>, key: Key, eg: int)
    requires Mirrors(es, chip) && !Recorded(es, key)
    ensures Mirrors(es + [Entry(key, eg, true)], chip[key := eg])
  {
    var es' := es + [Entry(key, eg, true)];
    assert forall j :: 0 <= j < |es| ==> es'[j] == es[j] && RecordedAt(es, es[j].key, j);
    OneMoreKey(es, Entry(key, eg, true));
  }

  lemma SameKeys(a: seq<Entry>, b: seq<Entry>)
    requires |a| == |b| && forall j :: 0 <= j < |a| ==> a[j].key == b[j].key
    ensures forall k :: Recorded(a, k) <==> Recorded(b, k)
  {
    forall k ensures Recorded(a, k) <==> Recorded(b, k) {
      if Recorded(a, k) {
        var j: nat :| RecordedAt(a, k, j);
        assert RecordedAt(b, k, j);
      }
      if Recorded(b, k) {
        var j: nat :| RecordedAt(b, k, j);
        assert RecordedAt(a, k, j);
      }
    }
  }

  lemma OneMoreKey(a: seq<Entry>, e: Entry)
    ensures forall k :: Recorded(a + [e], k) <==> Recorded(a, k) || k == e.key
  {
    forall k ensures Recorded(a + [e], k) <==> Recorded(a, k) || k == e.key {
      if Recorded(a, k) {
        var j: nat :| RecordedAt(a, k, j);
        assert RecordedAt(a + [e], k, j);
      }
      if k == e.key {
        assert RecordedAt(a + [e], k, |a|);
      }
      if Recorded(a + [e], k) && k != e.key {
        var j: nat :| RecordedAt(a + [e], k, j);
        assert RecordedAt(a, k, j);
      }
    }
  }

  // ----- one route too many -----

  const LAST_HOP := Hop(1, 1)

  function Plain(n: nat): Route {
    Route(n + 1, 32, [LAST_HOP])
  }

  function Plenty(): seq<Route> {
    seq(MAX_RT + 1, n requires 0 <= n < MAX_RT + 1 => Plain(n))
  }

  ghost predicate AllPlain(list: seq<Route>) {
    forall i :: 0 <= i < |list| ==> list[i] == Plain(i)
  }

  lemma PlainResolves(n: nat)
    ensures Resolved(Plain(n).hops, map[LAST_HOP := 7]) == [7]
  {
    assert Plain(n).hops[..0] == [];
    assert Resolved([], map[LAST_HOP := 7]) == [];
  }

  lemma AskOne(before: (map<Key, seq<int>>, seq<seq<int>>), key: Key)
    ensures Ask(before, key, [7]) == (before.0[key := [7]], before.1)
  {
  }

  lemma OneKeyMore(w: map<Key, seq<int>>, key: Key)
    requires key !in w
    ensures |w[key := [7]].Keys| == |w.Keys| + 1
  {
    assert w[key := [7]].Keys == w.Keys + {key};
  }

  ghost predicate KeysBelow(w: map<Key, seq<int>>, n: nat) {
    |w.Keys| == n && forall k :: k in w ==> k.dst <= n
  }

  /** As many plain routes, as many prefixes asked for. */
  lemma {:induction false} ManyKeys(list: seq<Route>)
    requires AllPlain(list)
    ensures KeysBelow(Asked(list, map[LAST_HOP := 7], []).0, |list|)
  {
    if list != [] {
      var n := |list| - 1;
      var before := Asked(list[..n], map[LAST_HOP := 7], []);
      ManyKeys(list[..n]);
      PlainResolves(n);
      AskedLast(list, map[LAST_HOP := 7], []);
      AskOne(before, KeyOf(Plain(n)));
      OneKeyMore(before.0, KeyOf(Plain(n)));
    }
  }

  lemma PlentyIsTooMany()
    ensures AllPlain(Plenty()) && Receivable(Plenty()) && !Fits([], Asked(Plenty(), map[LAST_HOP := 7], []).0)
  {
    ManyKeys(Plenty());
    var w := Asked(Plenty(), map[LAST_HOP := 7], []).0;
    assert KeySet([]) + w.Keys == w.Keys;
  }

  /** From a fresh start, one listing of 1025 routes through one next hop: the
      chip has a route the cache does not. */
  method TooManyRoutes() returns (cache: RouteCache)
    ensures Receivable(Plenty())
    ensures fresh(cache) && fresh(cache.rt) && cache.Valid() && !Mirrors(cache.rt[..cache.nrt], cache.chip)
  {
    PlentyIsTooMany();
    cache := new RouteCache();
    assert cache.rt[..0] == [] && Lists([]) == [];
    cache.Poll(Plenty(), map[LAST_HOP := 7]);
  }
}
