/**
 The graph a settled network of bridges leaves behind: links, what leaving by
 each end costs, each bridge's root and root path cost, and the end it has
 chosen towards the root. What is proved here needs nothing else of a bridge.
 */
module RstpGraph {
  import opened RstpVector

  /** Port k of bridge b. */
  datatype End = End(b: nat, k: nat)

  datatype Graph = Graph(
    ids: seq<nat>,          // bridge ids
    peer: map<End, End>,    // the end across each link, both ways
    hop: map<End, nat>,     // what leaving by an end costs
    root: seq<nat>,         // the root each bridge follows
    cost: seq<nat>,         // and its cost to it
    up: map<nat, End>)      // the root port of a bridge that has one

  ghost predicate Linked(g: Graph, e: End) {
    e.b < |g.ids| && e in g.hop && g.hop[e] > 0 && e in g.peer && g.peer[e] != e &&
    g.peer[e] in g.peer && g.peer[g.peer[e]] == e && g.peer[e].b < |g.ids|
  }

  ghost predicate WellFormed(g: Graph) {
    && |g.root| == |g.ids| && |g.cost| == |g.ids|
    && (forall e {:trigger g.peer[e]} :: e in g.peer ==> Linked(g, e))
  }

  /** (root, cost) of one no worse than that of another. */
  predicate NoWorse(r: nat, c: nat, r': nat, c': nat) {
    r < r' || (r == r' && c <= c')
  }

  // ----- walks -----

  /** A walk leaves by each end in turn and arrives at the bridge across. */
  ghost predicate IsWalk(g: Graph, w: seq<End>, from: nat, to: nat) {
    if w == [] then from == to
    else w[0] in g.peer && w[0] in g.hop && w[0].b == from && IsWalk(g, w[1..], g.peer[w[0]].b, to)
  }

  /** What the ends a walk leaves by cost in all. */
  ghost function WalkCost(g: Graph, w: seq<End>): nat {
    if w == [] then 0 else (if w[0] in g.hop then g.hop[w[0]] else 0) + WalkCost(g, w[1..])
  }

  ghost predicate LeavesEachOnce(w: seq<End>) {
    forall i, j :: 0 <= i < j < |w| ==> w[i].b != w[j].b
  }

  /** No walk that leaves a bridge at most once costs 2^32 or more. */
  ghost predicate CostsBounded(g: Graph) {
    forall w, from, to :: IsWalk(g, w, from, to) && LeavesEachOnce(w) ==> WalkCost(g, w) < COST_RANGE
  }

  ghost predicate Reaches(g: Graph, from: nat, to: nat) {
    exists w :: IsWalk(g, w, from, to)
  }

  ghost predicate Connected(g: Graph) {
    forall i, j :: 0 <= i < |g.ids| && 0 <= j < |g.ids| ==> Reaches(g, i, j)
  }

  lemma {:induction false} WalkAppend(g: Graph, w: seq<End>, e: End, from: nat)
    requires e in g.peer && e in g.hop && IsWalk(g, w, from, e.b)
    ensures IsWalk(g, w + [e], from, g.peer[e].b)
  {
    if w != [] {
      WalkAppend(g, w[1..], e, g.peer[w[0]].b);
      assert (w + [e])[1..] == w[1..] + [e];
    }
  }

  /** The rest of a walk is a walk from where it leaves next. */
  lemma {:induction false} WalkSuffix(g: Graph, w: seq<End>, j: nat, from: nat, to: nat)
    requires IsWalk(g, w, from, to) && j < |w|
    ensures IsWalk(g, w[j..], w[j].b, to)
  {
    if j > 0 {
      WalkSuffix(g, w[1..], j - 1, g.peer[w[0]].b, to);
      assert w[1..][j - 1..] == w[j..];
    }
  }

  /** Where a walk arrives is where it leaves next. */
  lemma {:induction false} WalkStep(g: Graph, w: seq<End>, from: nat, to: nat, i: nat)
    requires IsWalk(g, w, from, to) && i < |w|
    ensures w[0].b == from && w[i] in g.peer
    ensures g.peer[w[i]].b == if i + 1 < |w| then w[i + 1].b else to
  {
    if i > 0 {
      WalkStep(g, w[1..], g.peer[w[0]].b, to, i - 1);
      assert w[1..][i - 1] == w[i];
      assert i + 1 < |w| ==> w[1..][i] == w[i + 1];
    }
  }

  // ----- what every bridge's own choice says -----

  /** A bridge with a root port follows its parent's root, at the parent's cost
      plus the port's, in 32 bits. */
  ghost predicate HasParent(g: Graph, b: nat)
    requires WellFormed(g)
  {
    b < |g.ids| && b in g.up && g.up[b].b == b && g.up[b] in g.peer && Linked(g, g.up[b]) &&
    g.root[b] == g.root[g.peer[g.up[b]].b] &&
    g.cost[b] == (g.cost[g.peer[g.up[b]].b] + g.hop[g.up[b]]) % COST_RANGE
  }

  /** Its own root, at no cost, or the child of a parent; never worse than
      being its own root. */
  ghost predicate Placed(g: Graph, b: nat)
    requires WellFormed(g)
  {
    && b < |g.ids| && g.cost[b] < COST_RANGE
    && NoWorse(g.root[b], g.cost[b], g.ids[b], 0)
    && (if b in g.up then HasParent(g, b) else g.root[b] == g.ids[b] && g.cost[b] == 0)
  }

  /** Across a link, this side does no worse than going through the other. */
  ghost predicate Relaxed(g: Graph, e: End)
    requires WellFormed(g)
  {
    Linked(g, e) &&
    NoWorse(g.root[e.b], g.cost[e.b], g.root[g.peer[e].b], g.cost[g.peer[e].b] + g.hop[e])
  }

  ghost predicate AllPlaced(g: Graph) {
    WellFormed(g) && forall b {:trigger Placed(g, b)} :: 0 <= b < |g.ids| ==> Placed(g, b)
  }

  ghost predicate AllRelaxed(g: Graph) {
    WellFormed(g) && forall e {:trigger Relaxed(g, e)} :: e in g.peer ==> Relaxed(g, e)
  }

  // ----- following root ports always ends at a root -----

  /** A walk that leaves every bridge by its root port. */
  ghost predicate RootHops(g: Graph, w: seq<End>, from: nat, to: nat) {
    IsWalk(g, w, from, to) && forall i :: 0 <= i < |w| ==> w[i].b in g.up && w[i] == g.up[w[i].b]
  }

  lemma RootHopsAppend(g: Graph, w: seq<End>, from: nat, b: nat)
    requires RootHops(g, w, from, b) && LeavesEachOnce(w)
    requires b in g.up && g.up[b].b == b && g.up[b] in g.peer && g.up[b] in g.hop
    requires forall i :: 0 <= i < |w| ==> w[i].b != b
    ensures RootHops(g, w + [g.up[b]], from, g.peer[g.up[b]].b) && LeavesEachOnce(w + [g.up[b]])
  {
    WalkAppend(g, w, g.up[b], from);
  }

  lemma RootHopsSuffix(g: Graph, w: seq<End>, j: nat, from: nat, to: nat)
    requires RootHops(g, w, from, to) && LeavesEachOnce(w) && j < |w|
    ensures RootHops(g, w[j..], w[j].b, to) && LeavesEachOnce(w[j..])
  {
    WalkSuffix(g, w, j, from, to);
  }

  lemma CostAdds(c: nat, up: nat, top: nat, hop: nat, rest: nat)
    requires c == (up + hop) % COST_RANGE && up == (top + rest) % COST_RANGE
    ensures c == (top + (hop + rest)) % COST_RANGE
  {
    var q := (top + rest) / COST_RANGE;
    assert top + (hop + rest) == (up + hop) + q * COST_RANGE;
  }

  /** Along root ports the root stays the same and the cost adds up, mod 2^32. */
  lemma {:induction false} RootHopsCost(g: Graph, w: seq<End>, from: nat, to: nat)
    requires AllPlaced(g) && RootHops(g, w, from, to) && from < |g.ids|
    ensures to < |g.ids| && g.root[from] == g.root[to]
    ensures g.cost[from] == (g.cost[to] + WalkCost(g, w)) % COST_RANGE
  {
    assert Placed(g, from);
    if w != [] {
      assert w[0] == g.up[from] && HasParent(g, from);
      var up := g.peer[w[0]].b;
      RootHopsCost(g, w[1..], up, to);
      CostAdds(g.cost[from], g.cost[up], g.cost[to], g.hop[w[0]], WalkCost(g, w[1..]));
    }
  }

  /** Distinct numbers below n are at most n. */
  lemma {:induction false} Pigeonhole(s: seq<nat>, n: nat)
    requires forall i :: 0 <= i < |s| ==> s[i] < n
    requires forall i, j :: 0 <= i < j < |s| ==> s[i] != s[j]
    ensures |s| <= n
  {
    if s != [] {
      assert s[0] < n;
      if exists k :: 0 <= k < |s| && s[k] == n - 1 {
        var k :| 0 <= k < |s| && s[k] == n - 1;
        Pigeonhole(s[..k] + s[k + 1..], n - 1);
      } else {
        Pigeonhole(s, n - 1);
      }
    }
  }

  /** A circle of root ports would have to cost a multiple of 2^32. */
  lemma NoCircle(g: Graph, w: seq<End>, b: nat)
    requires AllPlaced(g) && CostsBounded(g)
    requires RootHops(g, w, b, b) && b < |g.ids| && LeavesEachOnce(w)
    ensures w == []
  {
    RootHopsCost(g, w, b, b);
    assert Placed(g, b);
    assert WalkCost(g, w) < COST_RANGE;
  }

  /** One more hop up arrives somewhere new. */
  lemma ClimbStep(g: Graph, w: seq<End>, s: nat, b: nat)
    requires AllPlaced(g) && CostsBounded(g)
    requires RootHops(g, w, s, b) && LeavesEachOnce(w) && b in g.up && b < |g.ids|
    requires forall i :: 0 <= i < |w| ==> w[i].b != b
    ensures HasParent(g, b)
    ensures var e := g.up[b];
      RootHops(g, w + [e], s, g.peer[e].b) && LeavesEachOnce(w + [e]) &&
      forall i :: 0 <= i < |w + [e]| ==> (w + [e])[i].b != g.peer[e].b
  {
    assert Placed(g, b);
    var e := g.up[b];
    RootHopsAppend(g, w, s, b);
    var w1, up := w + [e], g.peer[e].b;
    forall j | 0 <= j < |w1| ensures w1[j].b != up {
      if w1[j].b == up {
        RootHopsSuffix(g, w1, j, s, up);
        NoCircle(g, w1[j..], up);
        assert false;
      }
    }
  }

  /** From any bridge, root ports lead to a bridge that has none. */
  lemma {:induction false} Climb(g: Graph, w: seq<End>, s: nat, b: nat) returns (w': seq<End>, r: nat)
    requires AllPlaced(g) && CostsBounded(g)
    requires RootHops(g, w, s, b) && LeavesEachOnce(w) && b < |g.ids|
    requires forall i :: 0 <= i < |w| ==> w[i].b != b && w[i].b < |g.ids|
    ensures RootHops(g, w', s, r) && LeavesEachOnce(w') && r < |g.ids| && r !in g.up
    decreases |g.ids| - |w|
  {
    Pigeonhole(seq(|w|, i requires 0 <= i < |w| => w[i].b) + [b], |g.ids|);
    if b !in g.up {
      return w, b;
    }
    ClimbStep(g, w, s, b);
    w', r := Climb(g, w + [g.up[b]], s, g.peer[g.up[b]].b);
  }

  /** Every bridge's cost is that of some walk to a bridge that is its own root. */
  lemma RootWalk(g: Graph, b: nat) returns (w: seq<End>, r: nat)
    requires AllPlaced(g) && CostsBounded(g) && b < |g.ids|
    ensures RootHops(g, w, b, r) && LeavesEachOnce(w) && r < |g.ids| && r !in g.up
    ensures g.root[b] == g.root[r] == g.ids[r] && g.cost[b] == WalkCost(g, w)
  {
    w, r := Climb(g, [], b, b);
    RootHopsCost(g, w, b, r);
    assert Placed(g, r);
    assert WalkCost(g, w) < COST_RANGE;
  }

  /** So no cost ever wrapped: a child costs its parent's cost and its port's. */
  lemma ChildCost(g: Graph, b: nat)
    requires AllPlaced(g) && CostsBounded(g) && b < |g.ids| && b in g.up
    ensures HasParent(g, b) && g.cost[b] == g.cost[g.peer[g.up[b]].b] + g.hop[g.up[b]]
  {
    assert Placed(g, b);
    var w, r := RootWalk(g, b);
    assert w[0] == g.up[b];
    var up := g.peer[w[0]].b;
    RootHopsCost(g, w[1..], up, r);
    assert Placed(g, r) && Placed(g, up);
  }

  // ----- costs are optimal -----

  lemma {:induction false} WalkRelaxed(g: Graph, w: seq<End>, from: nat, to: nat)
    requires AllRelaxed(g) && IsWalk(g, w, from, to) && from < |g.ids|
    ensures to < |g.ids| && NoWorse(g.root[from], g.cost[from], g.root[to], g.cost[to] + WalkCost(g, w))
  {
    if w != [] {
      assert Relaxed(g, w[0]);
      WalkRelaxed(g, w[1..], g.peer[w[0]].b, to);
    }
  }

  ghost predicate SmallestId(g: Graph, r: nat) {
    r < |g.ids| && forall b :: 0 <= b < |g.ids| ==> g.ids[r] <= g.ids[b]
  }

  ghost predicate DistinctIds(g: Graph) {
    forall i, j :: 0 <= i < j < |g.ids| ==> g.ids[i] != g.ids[j]
  }

  /** Every choice made, every link relaxed, and everything reachable. */
  ghost predicate Stable(g: Graph) {
    AllPlaced(g) && AllRelaxed(g) && CostsBounded(g) && Connected(g) && DistinctIds(g)
  }

  /** All bridges agree: the root is the smallest bridge id, and has no root port. */
  lemma RootAgreed(g: Graph, r: nat, b: nat)
    requires Stable(g) && SmallestId(g, r) && b < |g.ids|
    ensures g.root[b] == g.ids[r] && g.cost[r] == 0
    ensures b !in g.up <==> b == r
  {
    var w, s := RootWalk(g, b);
    var x, y := RootWalk(g, r);
    assert Placed(g, r) && Placed(g, b);
    assert Reaches(g, b, r);
    var v :| IsWalk(g, v, b, r);
    WalkRelaxed(g, v, b, r);
    if r in g.up {
      ChildCost(g, r);
    }
  }

  /** No walk to the root is cheaper than the cost a bridge claims... */
  ghost predicate Cheapest(g: Graph, b: nat, r: nat)
    requires b < |g.cost|
  {
    forall v :: IsWalk(g, v, b, r) ==> g.cost[b] <= WalkCost(g, v)
  }

  /** ... and a walk by root ports costs exactly that. */
  ghost predicate TreeReaches(g: Graph, b: nat, r: nat)
    requires b < |g.cost|
  {
    exists w :: RootHops(g, w, b, r) && WalkCost(g, w) == g.cost[b]
  }

  lemma RootPath(g: Graph, r: nat, b: nat)
    requires Stable(g) && SmallestId(g, r) && b < |g.ids|
    ensures Cheapest(g, b, r) && TreeReaches(g, b, r)
  {
    var w, s := RootWalk(g, b);
    RootAgreed(g, r, b);
    RootAgreed(g, r, s);
    forall v | IsWalk(g, v, b, r) ensures g.cost[b] <= WalkCost(g, v) {
      WalkRelaxed(g, v, b, r);
    }
  }

  // ----- root ports close no loop -----

  /** This end is its bridge's root port. */
  ghost predicate GoesUp(g: Graph, e: End) {
    e.b in g.up && g.up[e.b] == e
  }

  /** A link some bridge reaches the root by. */
  ghost predicate TreeLink(g: Graph, e: End) {
    e in g.peer && (GoesUp(g, e) || GoesUp(g, g.peer[e]))
  }

  /** A place on the walk whose bridge no other on the walk outcosts. */
  lemma {:induction false} Dearest(g: Graph, w: seq<End>) returns (m: nat)
    requires w != [] && forall i :: 0 <= i < |w| ==> w[i].b < |g.cost|
    ensures m < |w| && forall i :: 0 <= i < |w| ==> g.cost[w[i].b] <= g.cost[w[m].b]
  {
    if |w| == 1 {
      m := 0;
    } else {
      var rest := w[..|w| - 1];
      m := Dearest(g, rest);
      assert forall i :: 0 <= i < |rest| ==> rest[i] == w[i];
      assert forall i :: 0 <= i < |rest| ==> g.cost[w[i].b] <= g.cost[rest[m].b];
      if g.cost[w[|w| - 1].b] > g.cost[w[m].b] {
        m := |w| - 1;
      }
    }
  }

  /** The position before m round a closed walk. */
  function Before(w: seq<End>, m: nat): nat
    requires m < |w|
  {
    if m == 0 then |w| - 1 else m - 1
  }

  /** A closed walk over tree links cannot come round without turning straight
      back: at its dearest bridge it arrives and leaves by that bridge's root port. */
  lemma TurnsBack(g: Graph, w: seq<End>, b: nat) returns (m: nat)
    requires AllPlaced(g) && CostsBounded(g) && w != [] && IsWalk(g, w, b, b)
    requires forall i :: 0 <= i < |w| ==> TreeLink(g, w[i])
    ensures m < |w| && w[Before(w, m)] in g.peer && w[m] == g.peer[w[Before(w, m)]]
  {
    forall i | 0 <= i < |w| ensures Linked(g, w[i]) {
      assert g.peer[w[i]] == g.peer[w[i]];
    }
    m := Dearest(g, w);
    var i := Before(w, m);
    WalkStep(g, w, b, b, m);
    WalkStep(g, w, b, b, i);
    assert g.peer[w[i]].b == w[m].b;
    if GoesUp(g, w[i]) {
      ChildCost(g, w[i].b);
    }
    if !GoesUp(g, w[m]) {
      ChildCost(g, g.peer[w[m]].b);
    }
  }

  /** A closed walk over tree links turns straight back somewhere. */
  ghost predicate Loopless(g: Graph) {
    forall w, b :: w != [] && IsWalk(g, w, b, b) && (forall i :: 0 <= i < |w| ==> TreeLink(g, w[i])) ==>
      exists m :: 0 <= m < |w| && w[Before(w, m)] in g.peer && w[m] == g.peer[w[Before(w, m)]]
  }

  lemma StableIsLoopless(g: Graph)
    requires AllPlaced(g) && CostsBounded(g)
    ensures Loopless(g)
  {
    forall w, b | w != [] && IsWalk(g, w, b, b) && (forall i :: 0 <= i < |w| ==> TreeLink(g, w[i]))
      ensures exists m :: 0 <= m < |w| && w[Before(w, m)] in g.peer && w[m] == g.peer[w[Before(w, m)]]
    {
      var m := TurnsBack(g, w, b);
      assert TreeLink(g, w[Before(w, m)]);
    }
  }

  /** One root, the smallest id; cheapest paths to it, by root ports; no loop. */
  ghost predicate IsSpanningTree(g: Graph, r: nat)
    requires |g.root| == |g.cost| == |g.ids| && r < |g.ids|
  {
    && (forall b :: 0 <= b < |g.ids| ==>
          g.root[b] == g.ids[r] && Cheapest(g, b, r) && TreeReaches(g, b, r) && (b !in g.up <==> b == r))
    && Loopless(g)
  }

  lemma StableIsTree(g: Graph, r: nat)
    requires Stable(g) && SmallestId(g, r)
    ensures IsSpanningTree(g, r)
  {
    forall b | 0 <= b < |g.ids|
      ensures g.root[b] == g.ids[r] && Cheapest(g, b, r) && TreeReaches(g, b, r) && (b !in g.up <==> b == r)
    {
      RootAgreed(g, r, b);
      RootPath(g, r, b);
    }
    StableIsLoopless(g);
  }
}
