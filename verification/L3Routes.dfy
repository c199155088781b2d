/**
 The mirror of the kernel's IPv4 routes in the chip. A poll walks the kernel's
 list, programs what resolves, and sweeps out what it did not see; multipath
 routes go through a cache of ECMP groups.
 */
module L3Routes {
  import opened Masks

  const MAX_RT: nat := 1024
  const MAX_ECMP: nat := 64

  /** ECMP group numbers and single egress numbers never collide. */
  const GROUP_BASE: int := 200000

  // ----- the kernel's side -----

  /** gw 0: no gateway given. */
  datatype Hop = Hop(gw: nat, ifindex: int)
  datatype Route = Route(dst: nat, plen: nat, hops: seq<Hop>)

  datatype Key = Key(dst: nat, mask: nat)

  function KeyOf(r: Route): Key
    requires r.plen <= 32
  {
    Key(r.dst, Mask(r.plen))
  }

  /** The egress objects of the hops that resolve, in order. */
  function Resolved(hops: seq<Hop>, nh: map<Hop, int>): seq<int> {
    if hops == [] then []
    else
      var h := hops[|hops| - 1];
      Resolved(hops[..|hops| - 1], nh) + if h.gw != 0 && h in nh then [nh[h]] else []
  }

  // ----- what resolving is -----

  /** A hop that can be had: with a gateway, and an egress for it. */
  predicate Usable(h: Hop, nh: map<Hop, int>) {
    h.gw != 0 && h in nh
  }

  /** at lists, in order, exactly the places of the usable hops. */
  predicate UsablePlaces(hops: seq<Hop>, nh: map<Hop, int>, at: seq<nat>) {
    && (forall j :: 0 <= j < |at| ==> at[j] < |hops| && Usable(hops[at[j]], nh))
    && (forall i, j :: 0 <= i < j < |at| ==> at[i] < at[j])
    && (forall i :: 0 <= i < |hops| && Usable(hops[i], nh) ==> i in at)
  }

  /** egs are the egresses of the usable hops, all of them, in order. */
  ghost predicate EgressesOf(hops: seq<Hop>, nh: map<Hop, int>, egs: seq<int>) {
    exists at: seq<nat> :: UsablePlaces(hops, nh, at) && |at| == |egs| && Leads(hops, nh, egs, at)
  }

  predicate Leads(hops: seq<Hop>, nh: map<Hop, int>, egs: seq<int>, at: seq<nat>)
    requires |at| == |egs| && UsablePlaces(hops, nh, at)
  {
    forall j :: 0 <= j < |at| ==> egs[j] == nh[hops[at[j]]]
  }

  lemma PlacesGrow(hops: seq<Hop>, nh: map<Hop, int>, before: seq<nat>, at: seq<nat>)
    requires hops != [] && UsablePlaces(hops[..|hops| - 1], nh, before)
    requires at == if Usable(hops[|hops| - 1], nh) then before + [|hops| - 1] else before
    ensures UsablePlaces(hops, nh, at)
  {
    var n := |hops| - 1;
    var front := hops[..n];
    forall j | 0 <= j < |at| ensures at[j] < |hops| && Usable(hops[at[j]], nh) {
      if j < |before| {
        assert front[before[j]] == hops[before[j]];
      }
    }
    forall i | 0 <= i < |hops| && Usable(hops[i], nh) ensures i in at {
      if i < n {
        assert front[i] == hops[i] && i in before;
      } else {
        assert at[|at| - 1] == n;
      }
    }
  }

  /** Resolving finds just those. */
  lemma {:induction false} ResolvedIs(hops: seq<Hop>, nh: map<Hop, int>) returns (at: seq<nat>)
    ensures UsablePlaces(hops, nh, at) && |at| == |Resolved(hops, nh)| && Leads(hops, nh, Resolved(hops, nh), at)
  {
    if hops == [] {
      at := [];
    } else {
      var n := |hops| - 1;
      var front := hops[..n];
      var before := ResolvedIs(front, nh);
      at := if Usable(hops[n], nh) then before + [n] else before;
      PlacesGrow(hops, nh, before, at);
      forall j | 0 <= j < |at| ensures Resolved(hops, nh)[j] == nh[hops[at[j]]] {
        if j < |before| {
          assert Resolved(front, nh)[j] == nh[front[before[j]]] && front[before[j]] == hops[at[j]];
        }
      }
    }
  }

  lemma ResolvedEgresses(hops: seq<Hop>, nh: map<Hop, int>)
    ensures EgressesOf(hops, nh, Resolved(hops, nh))
    ensures Resolved(hops, nh) != [] <==> exists i :: 0 <= i < |hops| && Usable(hops[i], nh)
  {
    var at := ResolvedIs(hops, nh);
    if i :| 0 <= i < |hops| && Usable(hops[i], nh) {
      assert i in at;
    }
    if at != [] {
      assert Usable(hops[at[0]], nh);
    }
  }

  lemma ResolvedFew(hops: seq<Hop>, nh: map<Hop, int>)
    ensures forall e :: e in Resolved(hops, nh) ==> exists h :: h in hops && h in nh && h.gw != 0 && nh[h] == e
  {
    var at := ResolvedIs(hops, nh);
    forall e | e in Resolved(hops, nh) ensures exists h :: h in hops && h in nh && h.gw != 0 && nh[h] == e {
      var j :| 0 <= j < |at| && Resolved(hops, nh)[j] == e;
      assert hops[at[j]] in hops && nh[hops[at[j]]] == e;
    }
  }

  /** What a listing asks of the chip, and the groups there are once it is
      done: the last resolvable listing of a prefix has it, and a new set of
      next hops can be had only while there is room for its group. */
  function Asked(list: seq<Route>, nh: map<Hop, int>, groups: seq<seq<int>>): (map<Key, seq<int>>, seq<seq<int>>)
    requires forall i :: 0 <= i < |list| ==> list[i].plen <= 32
  {
    if list == [] then (map[], groups)
    else
      var before := Asked(list[..|list| - 1], nh, groups);
      var r := list[|list| - 1];
      Ask(before, KeyOf(r), Resolved(r.hops, nh))
  }

  function Ask(before: (map<Key, seq<int>>, seq<seq<int>>), key: Key, egs: seq<int>)
    : (map<Key, seq<int>>, seq<seq<int>>)
  {
    if egs == [] then before
    else if |egs| == 1 || egs in before.1 then (before.0[key := egs], before.1)
    else if |before.1| >= MAX_ECMP then before
    else (before.0[key := egs], before.1 + [egs])
  }

  /** The same with no limit on groups: just what resolves. */
  function Resolvable(list: seq<Route>, nh: map<Hop, int>): map<Key, seq<int>>
    requires forall i :: 0 <= i < |list| ==> list[i].plen <= 32
  {
    if list == [] then map[]
    else
      var before := Resolvable(list[..|list| - 1], nh);
      var r := list[|list| - 1];
      var egs := Resolved(r.hops, nh);
      if egs == [] then before else before[KeyOf(r) := egs]
  }

  /** The distinct multipath sets a listing needs. */
  function Sets(list: seq<Route>, nh: map<Hop, int>): set<seq<int>> {
    if list == [] then {}
    else
      var egs := Resolved(list[|list| - 1].hops, nh);
      Sets(list[..|list| - 1], nh) + if |egs| > 1 then {egs} else {}
  }

  function Elements(s: seq<seq<int>>): set<seq<int>> {
    set x | x in s
  }

  ghost predicate Distinct(s: seq<seq<int>>) {
    forall i, j :: 0 <= i < j < |s| ==> s[i] != s[j]
  }

  lemma {:induction false} DistinctCount(s: seq<seq<int>>)
    requires Distinct(s)
    ensures |Elements(s)| == |s|
  {
    if s != [] {
      var n := |s| - 1;
      DistinctCount(s[..n]);
      assert Elements(s) == Elements(s[..n]) + {s[n]};
    }
  }

  lemma FewGroups(s: seq<seq<int>>, all: set<seq<int>>, x: seq<int>)
    requires Distinct(s) && Elements(s) <= all && x in all && x !in s && |all| <= MAX_ECMP
    ensures |s| < MAX_ECMP
  {
    DistinctCount(s);
    var rest := all - {x};
    assert Elements(s) <= rest;
    Subset(Elements(s), rest);
  }

  lemma {:induction false} Subset(a: set<seq<int>>, b: set<seq<int>>)
    requires a <= b
    ensures |a| <= |b|
  {
    if a != {} {
      var x :| x in a;
      Subset(a - {x}, b - {x});
    }
  }

  /** Within the group limit, what is asked is exactly what resolves. */
  lemma {:induction false} WithinLimit(list: seq<Route>, nh: map<Hop, int>, groups: seq<seq<int>>, all: set<seq<int>>)
    requires forall i :: 0 <= i < |list| ==> list[i].plen <= 32
    requires Distinct(groups) && Elements(groups) + Sets(list, nh) <= all && |all| <= MAX_ECMP
    ensures Asked(list, nh, groups).0 == Resolvable(list, nh)
    ensures Distinct(Asked(list, nh, groups).1) && Elements(Asked(list, nh, groups).1) <= all
  {
    if list != [] {
      var front := list[..|list| - 1];
      WithinLimit(front, nh, groups, all);
      var egs, before := Resolved(list[|list| - 1].hops, nh), Asked(front, nh, groups);
      if |egs| > 1 && egs !in before.1 {
        assert egs in Sets(list, nh);
        FewGroups(before.1, all, egs);
      }
    }
  }

  // ----- the limit, exactly -----

  /** Each prefix is listed once, as the kernel lists them. */
  ghost predicate OnceEach(list: seq<Route>) {
    (forall i :: 0 <= i < |list| ==> list[i].plen <= 32) &&
    forall i, j :: 0 <= i < j < |list| ==> KeyOf(list[i]) != KeyOf(list[j])
  }

  /** One listing adds its own set to the groups, or nothing. */
  lemma AskGroups(before: (map<Key, seq<int>>, seq<seq<int>>), key: Key, egs: seq<int>)
    requires Distinct(before.1) && |before.1| <= MAX_ECMP
    ensures var after := Ask(before, key, egs);
      Distinct(after.1) && |after.1| <= MAX_ECMP && Elements(before.1) <= Elements(after.1) &&
      forall x :: x in after.1 ==> x in before.1 || (x == egs && |egs| > 1)
  {
  }

  lemma {:induction false} GroupsGrow(list: seq<Route>, nh: map<Hop, int>, groups: seq<seq<int>>)
    requires forall i :: 0 <= i < |list| ==> list[i].plen <= 32
    requires Distinct(groups) && |groups| <= MAX_ECMP
    ensures var all := Asked(list, nh, groups).1;
      Distinct(all) && |all| <= MAX_ECMP && Elements(groups) <= Elements(all)
  {
    if list != [] {
      var n := |list| - 1;
      GroupsGrow(list[..n], nh, groups);
      AskGroups(Asked(list[..n], nh, groups), KeyOf(list[n]), Resolved(list[n].hops, nh));
    }
  }

  lemma {:induction false} NotAsked(list: seq<Route>, nh: map<Hop, int>, groups: seq<seq<int>>, k: Key)
    requires forall i :: 0 <= i < |list| ==> list[i].plen <= 32 && KeyOf(list[i]) != k
    ensures k !in Asked(list, nh, groups).0
  {
    if list != [] {
      NotAsked(list[..|list| - 1], nh, groups, k);
    }
  }

  lemma AskedLast(list: seq<Route>, nh: map<Hop, int>, groups: seq<seq<int>>)
    requires list != [] && forall i :: 0 <= i < |list| ==> list[i].plen <= 32
    ensures var r := list[|list| - 1];
      Asked(list, nh, groups) == Ask(Asked(list[..|list| - 1], nh, groups), KeyOf(r), Resolved(r.hops, nh))
  {
  }

  lemma AskRefuses(before: (map<Key, seq<int>>, seq<seq<int>>), key: Key, egs: seq<int>)
    requires |egs| > 1 && egs !in Ask(before, key, egs).1
    ensures Ask(before, key, egs) == before
  {
  }

  lemma AskKeeps(before: (map<Key, seq<int>>, seq<seq<int>>), key: Key, egs: seq<int>, k: Key, x: seq<int>)
    requires k != key
    ensures k in Ask(before, key, egs).0 <==> k in before.0
    ensures x in before.1 ==> x in Ask(before, key, egs).1
  {
  }

  /** A listing whose set never got a group was not programmed... */
  lemma {:induction false} Refused(list: seq<Route>, nh: map<Hop, int>, groups: seq<seq<int>>, i: nat)
    requires OnceEach(list) && i < |list| && |Resolved(list[i].hops, nh)| > 1
    requires Resolved(list[i].hops, nh) !in Asked(list, nh, groups).1
    ensures KeyOf(list[i]) !in Asked(list, nh, groups).0
  {
    var n, x := |list| - 1, Resolved(list[i].hops, nh);
    var front := list[..n];
    var before := Asked(front, nh, groups);
    AskedLast(list, nh, groups);
    if i < n {
      AskKeeps(before, KeyOf(list[n]), Resolved(list[n].hops, nh), KeyOf(list[i]), x);
      Refused(front, nh, groups, i);
    } else {
      AskRefuses(before, KeyOf(list[n]), x);
      NotAsked(front, nh, groups, KeyOf(list[n]));
    }
  }

  /** ... though it resolves. */
  lemma {:induction false} ResolvableHas(list: seq<Route>, nh: map<Hop, int>, i: nat)
    requires (forall i :: 0 <= i < |list| ==> list[i].plen <= 32) && i < |list| && Resolved(list[i].hops, nh) != []
    ensures KeyOf(list[i]) in Resolvable(list, nh)
  {
    if i < |list| - 1 {
      ResolvableHas(list[..|list| - 1], nh, i);
    }
  }

  lemma {:induction false} SetFrom(list: seq<Route>, nh: map<Hop, int>, x: seq<int>) returns (i: nat)
    requires x in Sets(list, nh)
    ensures i < |list| && Resolved(list[i].hops, nh) == x && |x| > 1
  {
    var n := |list| - 1;
    if |Resolved(list[n].hops, nh)| > 1 && x == Resolved(list[n].hops, nh) {
      i := n;
    } else {
      i := SetFrom(list[..n], nh, x);
    }
  }

  /** Past the limit some set got no group. */
  lemma SomeRefused(list: seq<Route>, nh: map<Hop, int>, groups: seq<seq<int>>) returns (x: seq<int>)
    requires (forall i :: 0 <= i < |list| ==> list[i].plen <= 32) && Distinct(groups) && |groups| <= MAX_ECMP
    requires |Elements(groups) + Sets(list, nh)| > MAX_ECMP
    ensures x in Sets(list, nh) && x !in Asked(list, nh, groups).1
  {
    var all, got := Elements(groups) + Sets(list, nh), Asked(list, nh, groups).1;
    GroupsGrow(list, nh, groups);
    DistinctCount(got);
    if all <= Elements(got) {
      Subset(all, Elements(got));
      assert false;
    }
    x :| x in all && x !in Elements(got);
  }

  /** What is programmed is exactly what resolves if and only if the groups
      there are and those the listing needs fit the group cache together. */
  lemma GroupLimitIsExact(list: seq<Route>, nh: map<Hop, int>, groups: seq<seq<int>>)
    requires OnceEach(list) && Distinct(groups) && |groups| <= MAX_ECMP
    ensures Asked(list, nh, groups).0 == Resolvable(list, nh) <==> |Elements(groups) + Sets(list, nh)| <= MAX_ECMP
  {
    if |Elements(groups) + Sets(list, nh)| <= MAX_ECMP {
      WithinLimit(list, nh, groups, Elements(groups) + Sets(list, nh));
    } else {
      var x := SomeRefused(list, nh, groups);
      var i := SetFrom(list, nh, x);
      Refused(list, nh, groups, i);
      ResolvableHas(list, nh, i);
    }
  }

  /** With each prefix listed once, it has what its own hops resolve to, if any
      does; and no other prefix has anything. */
  lemma {:induction false} ResolvableAt(list: seq<Route>, nh: map<Hop, int>, i: nat)
    requires OnceEach(list) && i < |list|
    ensures var k, egs := KeyOf(list[i]), Resolved(list[i].hops, nh);
      (k in Resolvable(list, nh) <==> egs != []) && (egs != [] ==> Resolvable(list, nh)[k] == egs)
  {
    var n := |list| - 1;
    var front := list[..n];
    if i < n {
      ResolvableAt(front, nh, i);
    } else {
      NotResolvable(front, nh, KeyOf(list[n]));
    }
  }

  lemma {:induction false} NotResolvable(list: seq<Route>, nh: map<Hop, int>, k: Key)
    requires forall i :: 0 <= i < |list| ==> list[i].plen <= 32 && KeyOf(list[i]) != k
    ensures k !in Resolvable(list, nh)
  {
    if list != [] {
      NotResolvable(list[..|list| - 1], nh, k);
    }
  }

  predicate ListedAt(list: seq<Route>, k: Key, j: nat) {
    j < |list| && list[j].plen <= 32 && KeyOf(list[j]) == k
  }

  /** Only what is listed is resolved. */
  lemma ResolvableListed(list: seq<Route>, nh: map<Hop, int>, k: Key)
    requires (forall i :: 0 <= i < |list| ==> list[i].plen <= 32) && k in Resolvable(list, nh)
    ensures exists j: nat :: ListedAt(list, k, j)
  {
    if forall j: nat :: !ListedAt(list, k, j) {
      forall i | 0 <= i < |list| ensures list[i].plen <= 32 && KeyOf(list[i]) != k {
        assert !ListedAt(list, k, i);
      }
      NotResolvable(list, nh, k);
    }
  }

  // ----- one past the limit -----

  /** Route n of 65, through one of nine neighbours and one of eight others. */
  function Nth(n: nat): Route {
    Route(n + 1, 32, [Hop(1 + n % 9, 1), Hop(10 + n / 9, 1)])
  }

  function SixtyFive(): seq<Route> {
    seq(65, n requires 0 <= n < 65 => Nth(n))
  }

  /** Seventeen neighbours on one interface, each with its egress. */
  function Hops(): map<Hop, int> {
    map h: Hop | h in set g: nat | 1 <= g <= 17 :: Hop(g, 1) :: h.gw
  }

  /** As the kernel's listing reaches the mirror: real destinations, at most
      eight next hops, each with a gateway and an interface. */
  predicate Receivable(list: seq<Route>) {
    forall i :: 0 <= i < |list| ==>
      list[i].dst != 0 && 0 < |list[i].hops| <= 8 &&
      forall j :: 0 <= j < |list[i].hops| ==> list[i].hops[j].gw != 0 && list[i].hops[j].ifindex > 0
  }

  lemma NthResolves(n: nat)
    requires n < 65
    ensures Resolved(Nth(n).hops, Hops()) == [1 + n % 9, 10 + n / 9]
  {
    var hops, first := Nth(n).hops, Hop(1 + n % 9, 1);
    assert hops[..1] == [first] && [first][..0] == [];
    assert Resolved([], Hops()) == [];
    assert Resolved([first], Hops()) == [1 + n % 9];
  }

  /** Which route a set is that of. */
  function Number(x: seq<int>): int
    requires |x| == 2
  {
    9 * (x[1] - 10) + x[0] - 1
  }

  /** That many different sets. */
  lemma {:induction false} ManySets(list: seq<Route>, n: nat)
    requires n <= 65 && list == SixtyFive()[..n]
    ensures |Sets(list, Hops())| == n && forall x :: x in Sets(list, Hops()) ==> |x| == 2 && Number(x) < n
  {
    if n > 0 {
      var front := SixtyFive()[..n - 1];
      assert list[..n - 1] == front && list[n - 1] == Nth(n - 1);
      ManySets(front, n - 1);
      NthResolves(n - 1);
      assert Number([1 + (n - 1) % 9, 10 + (n - 1) / 9]) == n - 1;
    }
  }

  lemma ListedOnce()
    ensures OnceEach(SixtyFive()) && Receivable(SixtyFive())
  {
    var list := SixtyFive();
    assert forall n :: 0 <= n < 65 ==> list[n] == Nth(n) && list[n].dst == n + 1;
  }

  /** Sixty-five routes over seventeen neighbours, with as many sets of next
      hops, all of which resolve: not all are programmed. */
  lemma OneTooMany()
    ensures OnceEach(SixtyFive()) && Receivable(SixtyFive()) && |Hops()| <= 64
    ensures Asked(SixtyFive(), Hops(), []).0 != Resolvable(SixtyFive(), Hops())
  {
    ListedOnce();
    HopCount();
    AllSets();
    GroupLimitIsExact(SixtyFive(), Hops(), []);
  }

  lemma AllSets()
    ensures |Elements([]) + Sets(SixtyFive(), Hops())| == 65
  {
    var list := SixtyFive();
    assert list[..65] == list;
    ManySets(list, 65);
    assert Elements([]) + Sets(list, Hops()) == Sets(list, Hops());
  }

  lemma HopCount()
    ensures |Hops()| == 17
  {
    var ks := set g: nat | 1 <= g <= 17 :: Hop(g, 1);
    assert Hops().Keys == ks;
    CountTo(17);
  }

  lemma {:induction false} CountTo(n: nat)
    ensures |set g: nat | 1 <= g <= n :: Hop(g, 1)| == n
  {
    var all := set g: nat | 1 <= g <= n :: Hop(g, 1);
    if n > 0 {
      var fewer := set g: nat | 1 <= g <= n - 1 :: Hop(g, 1);
      CountTo(n - 1);
      assert all == fewer + {Hop(n, 1)};
    }
  }
}
