/**
 Priority vectors of the spanning tree: a root, what it costs to reach it, and
 the bridge and port that say so, in 8, 4, 8 and 2 bytes of a BPDU.
 The datapath compares them with memcmp; here they are compared field by
 field, and `WireOrder` shows that the two comparisons agree.
 */
module RstpVector {

  datatype Vector = Vector(root: nat, cost: nat, bridge: nat, port: nat)

  const ID_RANGE: nat := 0x1_0000_0000_0000_0000
  const COST_RANGE: nat := 0x1_0000_0000
  const PORT_RANGE: nat := 0x1_0000

  /** Every field fits the bytes the BPDU gives it. */
  predicate Fits(v: Vector) {
    v.root < ID_RANGE && v.cost < COST_RANGE && v.bridge < ID_RANGE && v.port < PORT_RANGE
  }

  /** a is better than b: smaller root, then cost, then bridge, then port. */
  predicate Less(a: Vector, b: Vector) {
    a.root < b.root ||
    (a.root == b.root &&
     (a.cost < b.cost ||
      (a.cost == b.cost &&
       (a.bridge < b.bridge || (a.bridge == b.bridge && a.port < b.port)))))
  }

  // ----- the wire form -----

  function BigEndian(v: nat, n: nat): (s: seq<nat>)
    ensures |s| == n
  {
    if n == 0 then [] else BigEndian(v / 256, n - 1) + [v % 256]
  }

  function Wire(v: Vector): seq<nat> {
    BigEndian(v.root, 8) + BigEndian(v.cost, 4) + BigEndian(v.bridge, 8) + BigEndian(v.port, 2)
  }

  /** memcmp: the difference of the first bytes that differ, 0 if none do. */
  function MemCmp(a: seq<nat>, b: seq<nat>): int
    requires |a| == |b|
  {
    if a == [] then 0 else if a[0] != b[0] then a[0] - b[0] else MemCmp(a[1..], b[1..])
  }

  function Pow256(n: nat): nat {
    if n == 0 then 1 else 256 * Pow256(n - 1)
  }

  lemma {:induction false} MemCmpConcat(a: seq<nat>, b: seq<nat>, c: seq<nat>, d: seq<nat>)
    requires |a| == |b| && |c| == |d|
    ensures MemCmp(a + c, b + d) == if MemCmp(a, b) != 0 then MemCmp(a, b) else MemCmp(c, d)
  {
    if a == [] {
      assert a + c == c && b + d == d;
    } else {
      assert (a + c)[1..] == a[1..] + c && (b + d)[1..] == b[1..] + d;
      MemCmpConcat(a[1..], b[1..], c, d);
    }
  }

  /** Big-endian bytes of equal length compare as the numbers do. */
  lemma {:induction false} BigEndianOrder(x: nat, y: nat, n: nat)
    requires x < Pow256(n) && y < Pow256(n)
    ensures MemCmp(BigEndian(x, n), BigEndian(y, n)) < 0 <==> x < y
    ensures MemCmp(BigEndian(x, n), BigEndian(y, n)) == 0 <==> x == y
  {
    if n > 0 {
      BigEndianOrder(x / 256, y / 256, n - 1);
      MemCmpConcat(BigEndian(x / 256, n - 1), BigEndian(y / 256, n - 1), [x % 256], [y % 256]);
      assert MemCmp([x % 256], [y % 256]) == x % 256 - y % 256;
    }
  }

  lemma Ranges()
    ensures Pow256(2) == PORT_RANGE && Pow256(4) == COST_RANGE && Pow256(8) == ID_RANGE
  {
    assert Pow256(2) == 65536;
    assert Pow256(4) == 65536 * Pow256(2);
    assert Pow256(6) == 65536 * Pow256(4);
    assert Pow256(8) == 65536 * Pow256(6);
  }

  /** memcmp over the 22 bytes orders vectors exactly as `Less` does. */
  lemma WireOrder(a: Vector, b: Vector)
    requires Fits(a) && Fits(b)
    ensures MemCmp(Wire(a), Wire(b)) < 0 <==> Less(a, b)
    ensures MemCmp(Wire(a), Wire(b)) == 0 <==> a == b
  {
    Ranges();
    BigEndianOrder(a.root, b.root, 8);
    BigEndianOrder(a.cost, b.cost, 4);
    BigEndianOrder(a.bridge, b.bridge, 8);
    BigEndianOrder(a.port, b.port, 2);
    var r, r' := BigEndian(a.root, 8), BigEndian(b.root, 8);
    var c, c' := BigEndian(a.cost, 4), BigEndian(b.cost, 4);
    var d, d' := BigEndian(a.bridge, 8), BigEndian(b.bridge, 8);
    var p, p' := BigEndian(a.port, 2), BigEndian(b.port, 2);
    MemCmpConcat(r, r', c, c');
    MemCmpConcat(r + c, r' + c', d, d');
    MemCmpConcat(r + c + d, r' + c' + d', p, p');
  }
}
