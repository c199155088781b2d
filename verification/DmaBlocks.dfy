/**
 The DMA pool as its blocks from low addresses to high, each a 64-byte header
 and its payload, tiling the region. Allocation takes the first fit and splits it;
 freeing merges with the neighbours. `DmaPool` keeps the same list linked
 through headers in the region itself.
 */
module DmaBlocks {

  const HDR: nat := 64
  const SIZE_RANGE: nat := 0x1_0000_0000_0000_0000

  /** A block's payload bytes, whether it is free, and the statistics slot of
      the name that holds it. */
  datatype Blk = Blk(size: nat, free: bool, owner: nat)

  /** round64, in the 64 bits of a size_t. */
  function Round64(n: nat): nat {
    ((n + 63) % SIZE_RANGE) / 64 * 64
  }

  /** Rounding up never loses a byte -- short of the last 63 sizes, which wrap
      round to nothing. */
  lemma Round64Holds(n: nat)
    requires n < SIZE_RANGE
    ensures Round64(n) % 64 == 0
    ensures n <= Round64(n) <==> n <= SIZE_RANGE - 64
    ensures n <= SIZE_RANGE - 64 ==> Round64(n) < n + 64
    ensures n > SIZE_RANGE - 64 ==> Round64(n) == 0
  {
  }

  // ----- the tiling -----

  function Span(bs: seq<Blk>): nat {
    if bs == [] then 0 else Span(bs[..|bs| - 1]) + HDR + bs[|bs| - 1].size
  }

  /** Where block i's header lies. */
  function Offset(bs: seq<Blk>, i: nat): nat
    requires i <= |bs|
  {
    Span(bs[..i])
  }

  /** The payload handed out for block i. */
  function Payload(bs: seq<Blk>, i: nat): nat
    requires i < |bs|
  {
    Offset(bs, i) + HDR
  }

  ghost predicate NoFreeNeighbours(bs: seq<Blk>) {
    forall i :: 0 <= i < |bs| - 1 ==> !(bs[i].free && bs[i + 1].free)
  }

  /** Blocks tile the region exactly, all but the last in multiples of 64 and
      the last never empty; no two neighbours are free; what is free belongs to nobody. */
  ghost predicate Tiles(bs: seq<Blk>, len: nat) {
    bs != [] && Span(bs) == len && NoFreeNeighbours(bs) &&
    Multiples(bs) && bs[|bs| - 1].size >= 64 &&
    (forall i :: 0 <= i < |bs| && bs[i].free ==> bs[i].owner == 0)
  }

  lemma {:induction false} SpanConcat(a: seq<Blk>, b: seq<Blk>)
    ensures Span(a + b) == Span(a) + Span(b)
  {
    if b == [] {
      assert a + b == a;
    } else {
      assert (a + b)[..|a + b| - 1] == a + b[..|b| - 1];
      SpanConcat(a, b[..|b| - 1]);
    }
  }

  lemma Span1(b: Blk)
    ensures Span([b]) == HDR + b.size
  {
    assert [b][..0] == [];
  }

  lemma OffsetNext(bs: seq<Blk>, i: nat)
    requires i < |bs|
    ensures Offset(bs, i + 1) == Offset(bs, i) + HDR + bs[i].size
  {
    assert bs[..i + 1][..i] == bs[..i];
  }

  lemma {:induction false} OffsetMonotone(bs: seq<Blk>, i: nat, j: nat)
    requires i <= j <= |bs|
    ensures Offset(bs, i) + HDR * (j - i) <= Offset(bs, j)
    ensures i < j ==> Payload(bs, i) + bs[i].size <= Offset(bs, j)
    decreases j - i
  {
    if i < j {
      OffsetNext(bs, i);
      OffsetMonotone(bs, i + 1, j);
    }
  }

  /** Payloads lie in the region, start on 64-byte boundaries and do not overlap. */
  lemma {:induction false} PayloadsApart(bs: seq<Blk>, len: nat, i: nat)
    requires Tiles(bs, len) && i < |bs|
    ensures Payload(bs, i) % 64 == 0 && Payload(bs, i) + bs[i].size <= len
    ensures forall j :: i < j < |bs| ==> Payload(bs, i) + bs[i].size + HDR <= Payload(bs, j)
  {
    OffsetAligned(bs, i);
    assert bs[..|bs|] == bs;
    OffsetMonotone(bs, i, |bs|);
    forall j | i < j < |bs| ensures Payload(bs, i) + bs[i].size + HDR <= Payload(bs, j) {
      OffsetMonotone(bs, i, j);
    }
  }

  lemma {:induction false} OffsetAligned(bs: seq<Blk>, i: nat)
    requires i < |bs| && forall j :: 0 <= j < |bs| - 1 ==> bs[j].size % 64 == 0
    ensures Offset(bs, i) % 64 == 0
  {
    if i > 0 {
      OffsetAligned(bs, i - 1);
      OffsetNext(bs, i - 1);
    }
  }

  /** Blocks are told apart by where they start. */
  lemma OffsetsDistinct(bs: seq<Blk>, i: nat, j: nat)
    requires i < |bs| && j < |bs| && Offset(bs, i) == Offset(bs, j)
    ensures i == j
  {
    if i < j {
      OffsetMonotone(bs, i, j);
    } else if j < i {
      OffsetMonotone(bs, j, i);
    }
  }

  // ----- allocating -----

  predicate Fits(b: Blk, want: nat) {
    b.free && b.size >= want
  }

  /** The first block that fits, or the end of the list. */
  function FirstFit(bs: seq<Blk>, want: nat): (i: nat)
    ensures i <= |bs|
    ensures i < |bs| ==> Fits(bs[i], want)
    ensures forall j :: 0 <= j < i ==> !Fits(bs[j], want)
  {
    if bs == [] then 0 else if Fits(bs[0], want) then 0 else 1 + FirstFit(bs[1..], want)
  }

  predicate Splits(b: Blk, want: nat) {
    b.size >= want + HDR + 64
  }

  /** Block i taken for an owner, its tail split off if that is worth having. */
  function Take(bs: seq<Blk>, i: nat, want: nat, owner: nat): seq<Blk>
    requires i < |bs|
  {
    var b := bs[i];
    if Splits(b, want) then bs[..i] + [Blk(want, false, owner), Blk(b.size - want - HDR, true, 0)] + bs[i + 1..]
    else bs[i := Blk(b.size, false, owner)]
  }

  /** A run of blocks replaced by another of the same span. */
  lemma Replaced(bs: seq<Blk>, i: nat, j: nat, mid: seq<Blk>)
    requires i <= j <= |bs| && Span(mid) == Span(bs[i..j])
    ensures Span(bs[..i] + mid + bs[j..]) == Span(bs)
    ensures forall k :: 0 <= k <= i ==> Offset(bs[..i] + mid + bs[j..], k) == Offset(bs, k)
  {
    assert bs == bs[..i] + bs[i..j] + bs[j..];
    SpanConcat(bs[..i] + bs[i..j], bs[j..]);
    SpanConcat(bs[..i], bs[i..j]);
    SpanConcat(bs[..i] + mid, bs[j..]);
    SpanConcat(bs[..i], mid);
    forall k | 0 <= k <= i ensures Offset(bs[..i] + mid + bs[j..], k) == Offset(bs, k) {
      assert (bs[..i] + mid + bs[j..])[..k] == bs[..k];
    }
  }

  lemma Span2(a: Blk, b: Blk)
    ensures Span([a, b]) == HDR + a.size + HDR + b.size
  {
    assert [a, b] == [a] + [b];
    SpanConcat([a], [b]);
    Span1(a);
    Span1(b);
  }

  lemma TakeNeighbours(bs: seq<Blk>, i: nat, want: nat, owner: nat)
    requires NoFreeNeighbours(bs) && i < |bs| && bs[i].free
    ensures NoFreeNeighbours(Take(bs, i, want, owner))
  {
    var r, d := Take(bs, i, want, owner), if Splits(bs[i], want) then 1 else 0;
    forall k | 0 <= k < |r| - 1 ensures !(r[k].free && r[k + 1].free) {
      if k < i {
        assert r[k] == bs[k] && (k + 1 < i ==> r[k + 1] == bs[k + 1]);
      } else if k > i {
        assert r[k + 1] == bs[k - d + 1] && !(bs[k - d].free && bs[k - d + 1].free);
        assert r[k] == bs[k - d] || (k == i + d && bs[k - d].free);
      }
    }
  }

  /** A block replaced by as many bytes' worth. */
  lemma InPlace(bs: seq<Blk>, i: nat, mid: seq<Blk>, r: seq<Blk>)
    requires i < |bs| && Span(mid) == Span([bs[i]]) && r == bs[..i] + mid + bs[i + 1..]
    ensures Span(r) == Span(bs) && i <= |r| && Offset(r, i) == Offset(bs, i)
  {
    assert bs[i..i + 1] == [bs[i]];
    Replaced(bs, i, i + 1, mid);
  }

  lemma CutIs(bs: seq<Blk>, i: nat, want: nat, owner: nat) returns (mid: seq<Blk>)
    requires i < |bs|
    ensures Take(bs, i, want, owner) == bs[..i] + mid + bs[i + 1..] && Span(mid) == Span([bs[i]])
  {
    var b := bs[i];
    Span1(b);
    if Splits(b, want) {
      mid := [Blk(want, false, owner), Blk(b.size - want - HDR, true, 0)];
      Span2(mid[0], mid[1]);
    } else {
      mid := [Blk(b.size, false, owner)];
      Span1(mid[0]);
    }
  }

  /** Sizes stay in multiples of 64, and what is free belongs to nobody. */
  lemma TakeSizes(bs: seq<Blk>, i: nat, want: nat, owner: nat)
    requires i < |bs| && Fits(bs[i], want) && want % 64 == 0 && Multiples(bs) && bs[|bs| - 1].size >= 64
    requires forall k :: 0 <= k < |bs| && bs[k].free ==> bs[k].owner == 0
    ensures var r := Take(bs, i, want, owner);
      r != [] && Multiples(r) && r[|r| - 1].size >= 64 && forall k :: 0 <= k < |r| && r[k].free ==> r[k].owner == 0
  {
    var r := Take(bs, i, want, owner);
    if Splits(bs[i], want) {
      assert forall k :: 0 <= k < |r| && k != i && k != i + 1 ==> r[k] == bs[if k < i then k else k - 1];
    }
  }

  lemma TakeTiles(bs: seq<Blk>, len: nat, i: nat, want: nat, owner: nat)
    requires Tiles(bs, len) && i < |bs| && Fits(bs[i], want) && want % 64 == 0
    ensures Tiles(Take(bs, i, want, owner), len)
    ensures Offset(Take(bs, i, want, owner), i) == Offset(bs, i)
  {
    TakeNeighbours(bs, i, want, owner);
    TakeSizes(bs, i, want, owner);
    var mid := CutIs(bs, i, want, owner);
    InPlace(bs, i, mid, Take(bs, i, want, owner));
  }

  function Largest(bs: seq<Blk>): nat {
    if bs == [] then 0
    else
      var m := Largest(bs[..|bs| - 1]);
      if bs[|bs| - 1].free && bs[|bs| - 1].size > m then bs[|bs| - 1].size else m
  }

  function FreeBytes(bs: seq<Blk>): nat {
    if bs == [] then 0
    else FreeBytes(bs[..|bs| - 1]) + if bs[|bs| - 1].free then bs[|bs| - 1].size else 0
  }

  function FreeBlocks(bs: seq<Blk>): nat {
    if bs == [] then 0 else FreeBlocks(bs[..|bs| - 1]) + if bs[|bs| - 1].free then 1 else 0
  }

  /** Every byte is in use, free, or the header of a free block. */
  lemma {:induction false} EveryByte(bs: seq<Blk>, len: nat)
    requires Span(bs) == len
    ensures Total(bs, UsedBytes) + FreeBytes(bs) + HDR * FreeBlocks(bs) == len
  {
    if bs != [] {
      EveryByte(bs[..|bs| - 1], len - HDR - bs[|bs| - 1].size);
    }
  }

  lemma {:induction false} LargestIsMax(bs: seq<Blk>)
    ensures forall i :: 0 <= i < |bs| && bs[i].free ==> bs[i].size <= Largest(bs)
    ensures Largest(bs) > 0 ==> exists i :: 0 <= i < |bs| && bs[i].free && bs[i].size == Largest(bs)
  {
    if bs != [] {
      var t := bs[..|bs| - 1];
      LargestIsMax(t);
      assert forall i :: 0 <= i < |t| ==> t[i] == bs[i];
      if Largest(bs) == Largest(t) && Largest(t) > 0 {
        var i :| 0 <= i < |t| && t[i].free && t[i].size == Largest(t);
        assert bs[i].free && bs[i].size == Largest(bs);
      }
    }
  }

  /** A request can be met exactly when it is no larger than the largest free block. */
  lemma FitsIffLargest(bs: seq<Blk>, want: nat)
    requires want > 0
    ensures FirstFit(bs, want) < |bs| <==> want <= Largest(bs)
  {
    LargestIsMax(bs);
  }

  // ----- freeing -----

  function Joined(a: Blk, b: Blk): Blk {
    Blk(a.size + HDR + b.size, true, 0)
  }

  /** Block i takes in the one after it, if that is free. */
  function MergeNext(bs: seq<Blk>, i: nat): seq<Blk>
    requires i < |bs|
  {
    if i + 1 < |bs| && bs[i + 1].free then bs[..i] + [Joined(bs[i], bs[i + 1])] + bs[i + 2..] else bs
  }

  function Release(bs: seq<Blk>, i: nat): seq<Blk>
    requires i < |bs|
  {
    bs[i := Blk(bs[i].size, true, 0)]
  }

  /** Block i given back: merged forwards, then backwards. */
  function Give(bs: seq<Blk>, i: nat): seq<Blk>
    requires i < |bs|
  {
    var r := MergeNext(Release(bs, i), i);
    if i > 0 && bs[i - 1].free then MergeNext(r, i - 1) else r
  }

  /** The run of blocks that become one when block i is given back. */
  function Low(bs: seq<Blk>, i: nat): nat
    requires i < |bs|
  {
    if i > 0 && bs[i - 1].free then i - 1 else i
  }

  function High(bs: seq<Blk>, i: nat): (h: nat)
    requires i < |bs|
    ensures i < h <= |bs|
  {
    if i + 1 < |bs| && bs[i + 1].free then i + 2 else i + 1
  }

  /** The one block they become. */
  function Whole(bs: seq<Blk>, i: nat): Blk
    requires i < |bs|
  {
    var n := if i + 1 < |bs| && bs[i + 1].free then bs[i].size + HDR + bs[i + 1].size else bs[i].size;
    Blk(if i > 0 && bs[i - 1].free then bs[i - 1].size + HDR + n else n, true, 0)
  }

  lemma MergeForward(bs: seq<Blk>, i: nat)
    requires i < |bs|
    ensures MergeNext(Release(bs, i), i) ==
            bs[..i] + [Blk(if High(bs, i) == i + 2 then bs[i].size + HDR + bs[i + 1].size else bs[i].size, true, 0)]
            + bs[High(bs, i)..]
  {
    var r := Release(bs, i);
    assert r[..i] == bs[..i];
    if High(bs, i) == i + 2 {
      assert r[i + 1] == bs[i + 1] && r[i + 2..] == bs[i + 2..];
    } else {
      assert r == bs[..i] + [r[i]] + bs[i + 1..];
    }
  }

  /** A merge, with the list in its parts. */
  lemma MergeParts(a: seq<Blk>, x: Blk, y: Blk, rest: seq<Blk>)
    requires y.free
    ensures MergeNext(a + [x] + [y] + rest, |a|) == a + [Joined(x, y)] + rest
  {
    var s := a + [x] + [y] + rest;
    assert s[|a|] == x && s[|a| + 1] == y && s[..|a|] == a && s[|a| + 2..] == rest;
  }

  lemma GiveForm(bs: seq<Blk>, i: nat)
    requires i < |bs|
    ensures Give(bs, i) == bs[..Low(bs, i)] + [Whole(bs, i)] + bs[High(bs, i)..]
  {
    MergeForward(bs, i);
    if i > 0 && bs[i - 1].free {
      var hi := High(bs, i);
      var y := Blk(if hi == i + 2 then bs[i].size + HDR + bs[i + 1].size else bs[i].size, true, 0);
      assert bs[..i] == bs[..i - 1] + [bs[i - 1]];
      MergeParts(bs[..i - 1], bs[i - 1], y, bs[hi..]);
    }
  }

  lemma WholeSpan(bs: seq<Blk>, i: nat)
    requires i < |bs|
    ensures Span([Whole(bs, i)]) == Span(bs[Low(bs, i)..High(bs, i)])
  {
    var lo, hi := Low(bs, i), High(bs, i);
    var run := bs[lo..hi];
    Span1(Whole(bs, i));
    if lo == i {
      SpanUpTo2(run);
    } else {
      assert run == [bs[i - 1]] + bs[i..hi];
      SpanConcat([bs[i - 1]], bs[i..hi]);
      Span1(bs[i - 1]);
      SpanUpTo2(bs[i..hi]);
    }
  }

  lemma SpanUpTo2(s: seq<Blk>)
    requires 1 <= |s| <= 2
    ensures Span(s) == HDR + s[0].size + if |s| == 2 then HDR + s[1].size else 0
  {
    if |s| == 2 {
      assert s == [s[0], s[1]];
      Span2(s[0], s[1]);
    } else {
      assert s == [s[0]];
      Span1(s[0]);
    }
  }

  /** A free block among neighbours that are not leaves no free neighbours. */
  lemma FreeBetween(a: seq<Blk>, w: Blk, b: seq<Blk>)
    requires NoFreeNeighbours(a) && NoFreeNeighbours(b)
    requires a != [] ==> !a[|a| - 1].free
    requires b != [] ==> !b[0].free
    ensures NoFreeNeighbours(a + [w] + b)
  {
    var r := a + [w] + b;
    forall i | 0 <= i < |r| - 1 ensures !(r[i].free && r[i + 1].free) {
      if i < |a| {
        assert r[i] == a[i];
      } else {
        assert r[i + 1] == b[i - |a|];
        assert i > |a| ==> r[i] == b[i - |a| - 1];
      }
    }
  }

  lemma GiveNeighbours(bs: seq<Blk>, i: nat)
    requires NoFreeNeighbours(bs) && i < |bs| && !bs[i].free
    ensures NoFreeNeighbours(Give(bs, i))
  {
    var lo, hi := Low(bs, i), High(bs, i);
    GiveForm(bs, i);
    var a, b := bs[..lo], bs[hi..];
    assert lo > 0 ==> a[lo - 1] == bs[lo - 1] && !bs[lo - 1].free;
    assert hi < |bs| ==> b[0] == bs[hi] && !bs[hi].free;
    FreeBetween(a, Whole(bs, i), b);
  }

  predicate Multiples(bs: seq<Blk>) {
    forall i :: 0 <= i < |bs| - 1 ==> bs[i].size % 64 == 0
  }

  lemma WholeMultiple(bs: seq<Blk>, i: nat)
    requires Multiples(bs) && i < |bs| && High(bs, i) < |bs|
    ensures Whole(bs, i).size % 64 == 0
  {
    var forward := High(bs, i) == i + 2;
    assert bs[i].size % 64 == 0;
    if forward {
      assert bs[i + 1].size % 64 == 0;
      Add64(bs[i].size, bs[i + 1].size);
    }
    if i > 0 {
      assert bs[i - 1].size % 64 == 0;
      Add64(bs[i - 1].size, if forward then bs[i].size + HDR + bs[i + 1].size else bs[i].size);
    }
  }

  lemma Add64(a: nat, b: nat)
    requires a % 64 == 0 && b % 64 == 0
    ensures (a + HDR + b) % 64 == 0
  {
  }

  lemma GiveMultiples(bs: seq<Blk>, i: nat)
    requires Multiples(bs) && i < |bs|
    ensures Multiples(Give(bs, i))
  {
    var lo, hi, w := Low(bs, i), High(bs, i), Whole(bs, i);
    GiveForm(bs, i);
    var r := bs[..lo] + [w] + bs[hi..];
    forall k | 0 <= k < |r| - 1 ensures r[k].size % 64 == 0 {
      if k < lo {
        assert r[k] == bs[k];
      } else if k == lo {
        WholeMultiple(bs, i);
      } else {
        assert r[k] == bs[k - lo - 1 + hi];
      }
    }
  }

  lemma GiveTiles(bs: seq<Blk>, len: nat, i: nat)
    requires Tiles(bs, len) && i < |bs| && !bs[i].free
    ensures Tiles(Give(bs, i), len)
  {
    var lo, hi, w := Low(bs, i), High(bs, i), Whole(bs, i);
    GiveForm(bs, i);
    WholeSpan(bs, i);
    Replaced(bs, lo, hi, [w]);
    GiveNeighbours(bs, i);
    GiveMultiples(bs, i);
  }

  /** Freeing what was just allocated restores the list exactly. */
  lemma TakeGive(bs: seq<Blk>, len: nat, i: nat, want: nat, owner: nat)
    requires Tiles(bs, len) && i < |bs| && Fits(bs[i], want)
    ensures i < |Take(bs, i, want, owner)| && Give(Take(bs, i, want, owner), i) == bs
  {
    var b, t := bs[i], Take(bs, i, want, owner);
    assert i > 0 ==> t[i - 1] == bs[i - 1] && !bs[i - 1].free;
    var r := Release(t, i);
    if Splits(b, want) {
      assert r[i + 1] == Blk(b.size - want - HDR, true, 0) && r[i].size == want;
      assert Joined(r[i], r[i + 1]) == b;
      assert r[..i] == bs[..i] && r[i + 2..] == bs[i + 1..];
    } else {
      assert r == bs;
      assert i + 1 < |bs| ==> !bs[i + 1].free;
    }
  }

  lemma FirstTwo(bs: seq<Blk>)
    requires NoFreeNeighbours(bs) && |bs| > 1
    ensures !bs[0].free || !bs[1].free
  {
    assert bs[0 + 1] == bs[1];
  }

  /** With nothing live there is one block, the whole region. */
  lemma AllFreeIsOne(bs: seq<Blk>, len: nat)
    requires Tiles(bs, len) && forall i :: 0 <= i < |bs| ==> bs[i].free
    ensures len >= HDR && bs == [Blk(len - HDR, true, 0)]
  {
    if |bs| > 1 {
      FirstTwo(bs);
      assert false;
    }
    assert bs == [bs[0]];
    Span1(bs[0]);
  }

  // ----- totals -----

  /** What the pool keeps count of: bytes in use, headers and all; and per
      name, payload bytes and blocks held. */
  datatype Measure = UsedBytes | Held(owner: nat) | Count(owner: nat)

  function Weigh(m: Measure, b: Blk): nat {
    if b.free then 0
    else match m
      case UsedBytes => HDR + b.size
      case Held(o) => if b.owner == o then b.size else 0
      case Count(o) => if b.owner == o then 1 else 0
  }

  function Total(bs: seq<Blk>, m: Measure): nat {
    if bs == [] then 0 else Total(bs[..|bs| - 1], m) + Weigh(m, bs[|bs| - 1])
  }

  lemma {:induction false} TotalConcat(a: seq<Blk>, b: seq<Blk>, m: Measure)
    ensures Total(a + b, m) == Total(a, m) + Total(b, m)
  {
    if b == [] {
      assert a + b == a;
    } else {
      assert (a + b)[..|a + b| - 1] == a + b[..|b| - 1];
      TotalConcat(a, b[..|b| - 1], m);
    }
  }

  lemma {:induction false} TotalFree(bs: seq<Blk>, m: Measure)
    requires forall i :: 0 <= i < |bs| ==> bs[i].free
    ensures Total(bs, m) == 0
  {
    if bs != [] {
      TotalFree(bs[..|bs| - 1], m);
    }
  }

  /** Three stretches of a list. */
  lemma TotalSplit(bs: seq<Blk>, i: nat, j: nat, m: Measure)
    requires i <= j <= |bs|
    ensures Total(bs, m) == Total(bs[..i], m) + Total(bs[i..j], m) + Total(bs[j..], m)
  {
    assert bs == bs[..i] + bs[i..j] + bs[j..];
    TotalConcat(bs[..i] + bs[i..j], bs[j..], m);
    TotalConcat(bs[..i], bs[i..j], m);
  }

  lemma Total1(b: Blk, m: Measure)
    ensures Total([b], m) == Weigh(m, b)
  {
    assert [b][..0] == [];
  }

  lemma TotalReplaced(bs: seq<Blk>, i: nat, j: nat, mid: seq<Blk>, m: Measure)
    requires i <= j <= |bs|
    ensures Total(bs[..i] + mid + bs[j..], m) + Total(bs[i..j], m) == Total(bs, m) + Total(mid, m)
  {
    TotalSplit(bs, i, j, m);
    TotalConcat(bs[..i] + mid, bs[j..], m);
    TotalConcat(bs[..i], mid, m);
  }

  lemma Total2(a: Blk, b: Blk, m: Measure)
    ensures Total([a, b], m) == Weigh(m, a) + Weigh(m, b)
  {
    assert [a, b] == [a] + [b];
    TotalConcat([a], [b], m);
    Total1(a, m);
    Total1(b, m);
  }

  /** One free block replaced by others. */
  lemma TotalInPlace(bs: seq<Blk>, i: nat, mid: seq<Blk>, m: Measure)
    requires i < |bs| && bs[i].free
    ensures Total(bs[..i] + mid + bs[i + 1..], m) == Total(bs, m) + Total(mid, m)
  {
    assert bs[i..i + 1] == [bs[i]];
    Total1(bs[i], m);
    TotalReplaced(bs, i, i + 1, mid, m);
  }

  /** Taking a block adds that block's weight and nothing else. */
  lemma TakeTotals(bs: seq<Blk>, i: nat, want: nat, owner: nat, m: Measure)
    requires i < |bs| && bs[i].free
    ensures i < |Take(bs, i, want, owner)|
    ensures Total(Take(bs, i, want, owner), m) == Total(bs, m) + Weigh(m, Take(bs, i, want, owner)[i])
  {
    if Splits(bs[i], want) {
      SplitTotals(bs, i, want, owner, m);
    } else {
      WholeTotals(bs, i, want, owner, m);
    }
  }

  lemma SplitTotals(bs: seq<Blk>, i: nat, want: nat, owner: nat, m: Measure)
    requires i < |bs| && bs[i].free && Splits(bs[i], want)
    ensures i < |Take(bs, i, want, owner)|
    ensures Total(Take(bs, i, want, owner), m) == Total(bs, m) + Weigh(m, Take(bs, i, want, owner)[i])
  {
    var t, rest := Blk(want, false, owner), Blk(bs[i].size - want - HDR, true, 0);
    Total2(t, rest, m);
    TotalInPlace(bs, i, [t, rest], m);
  }

  lemma WholeTotals(bs: seq<Blk>, i: nat, want: nat, owner: nat, m: Measure)
    requires i < |bs| && bs[i].free && !Splits(bs[i], want)
    ensures i < |Take(bs, i, want, owner)|
    ensures Total(Take(bs, i, want, owner), m) == Total(bs, m) + Weigh(m, Take(bs, i, want, owner)[i])
  {
    var t := Blk(bs[i].size, false, owner);
    Total1(t, m);
    TotalInPlace(bs, i, [t], m);
    assert Take(bs, i, want, owner) == bs[..i] + [t] + bs[i + 1..];
  }

  /** Giving one back takes its weight away and nothing else. */
  lemma GiveTotals(bs: seq<Blk>, i: nat, m: Measure)
    requires i < |bs| && !bs[i].free
    ensures Total(Give(bs, i), m) + Weigh(m, bs[i]) == Total(bs, m)
  {
    var lo, hi, w := Low(bs, i), High(bs, i), Whole(bs, i);
    GiveForm(bs, i);
    TotalReplaced(bs, lo, hi, [w], m);
    Total1(w, m);
    RunShape(bs, i);
    RunTotal(bs[lo..hi], i - lo, m);
  }

  lemma RunShape(bs: seq<Blk>, i: nat)
    requires i < |bs|
    ensures var run, k := bs[Low(bs, i)..High(bs, i)], i - Low(bs, i);
      k < |run| && run[k] == bs[i] && forall j :: 0 <= j < |run| && j != k ==> run[j].free
  {
  }

  /** A run with one live block weighs what that block does. */
  lemma RunTotal(run: seq<Blk>, k: nat, m: Measure)
    requires k < |run| && forall j :: 0 <= j < |run| && j != k ==> run[j].free
    ensures Total(run, m) == Weigh(m, run[k])
  {
    TotalSplit(run, k, k + 1, m);
    assert run[k..k + 1] == [run[k]];
    Total1(run[k], m);
    TotalFree(run[..k], m);
    TotalFree(run[k + 1..], m);
  }

  // ----- what is live -----

  /** Block i is live and its payload is at p. */
  predicate LiveBlock(bs: seq<Blk>, i: nat, p: nat) {
    i < |bs| && !bs[i].free && Payload(bs, i) == p
  }

  ghost predicate Live(bs: seq<Blk>, p: nat) {
    exists i: nat :: LiveBlock(bs, i, p)
  }

  lemma OffsetAfter(bs: seq<Blk>, i: nat, j: nat, mid: seq<Blk>, k: nat)
    requires i <= j <= k <= |bs| && Span(mid) == Span(bs[i..j])
    ensures var r := bs[..i] + mid + bs[j..];
      k - j + i + |mid| <= |r| && Offset(r, k - j + i + |mid|) == Offset(bs, k)
  {
    var r := bs[..i] + mid + bs[j..];
    var k' := k - j + i + |mid|;
    assert r[..k'] == bs[..i] + mid + bs[j..k];
    assert bs[..k] == bs[..i] + bs[i..j] + bs[j..k];
    Span3(bs[..i], mid, bs[j..k]);
    Span3(bs[..i], bs[i..j], bs[j..k]);
  }

  lemma Span3(a: seq<Blk>, b: seq<Blk>, c: seq<Blk>)
    ensures Span(a + b + c) == Span(a) + Span(b) + Span(c)
  {
    SpanConcat(a + b, c);
    SpanConcat(a, b);
  }

  /** Outside a run replaced by a free block, what was live still is... */
  lemma LiveKept(bs: seq<Blk>, lo: nat, hi: nat, w: Blk, k: nat, p: nat)
    requires lo <= hi <= |bs| && Span([w]) == Span(bs[lo..hi])
    requires LiveBlock(bs, k, p) && (k < lo || k >= hi)
    ensures Live(bs[..lo] + [w] + bs[hi..], p)
  {
    var r := bs[..lo] + [w] + bs[hi..];
    Replaced(bs, lo, hi, [w]);
    if k < lo {
      assert r[k] == bs[k] && LiveBlock(r, k, p);
    } else {
      OffsetAfter(bs, lo, hi, [w], k);
      assert r[k - hi + lo + 1] == bs[k] && LiveBlock(r, k - hi + lo + 1, p);
    }
  }

  /** ... and nothing else is. */
  lemma LiveWas(bs: seq<Blk>, lo: nat, hi: nat, w: Blk, k: nat, p: nat) returns (k': nat)
    requires lo <= hi <= |bs| && Span([w]) == Span(bs[lo..hi]) && w.free
    requires LiveBlock(bs[..lo] + [w] + bs[hi..], k, p)
    ensures LiveBlock(bs, k', p) && (k' < lo || k' >= hi)
  {
    var r := bs[..lo] + [w] + bs[hi..];
    Replaced(bs, lo, hi, [w]);
    assert k != lo;
    k' := if k < lo then k else k - lo - 1 + hi;
    assert r[k] == bs[k'];
    if k > lo {
      OffsetAfter(bs, lo, hi, [w], k');
    }
  }

  /** Giving block i back makes its payload, and no other, no longer live. */
  lemma GiveLive(bs: seq<Blk>, i: nat, p: nat)
    requires i < |bs| && !bs[i].free
    ensures Live(Give(bs, i), p) <==> Live(bs, p) && p != Payload(bs, i)
  {
    var lo, hi, w := Low(bs, i), High(bs, i), Whole(bs, i);
    GiveForm(bs, i);
    WholeSpan(bs, i);
    if Live(bs, p) && p != Payload(bs, i) {
      var k: nat :| LiveBlock(bs, k, p);
      LiveKept(bs, lo, hi, w, k, p);
    }
    if Live(Give(bs, i), p) {
      var k: nat :| LiveBlock(Give(bs, i), k, p);
      var k' := LiveWas(bs, lo, hi, w, k, p);
      if p == Payload(bs, i) {
        OffsetsDistinct(bs, i, k');
      }
    }
  }

  /** Taking block i makes its payload live, and changes no other. */
  lemma TakeLive(bs: seq<Blk>, len: nat, i: nat, want: nat, owner: nat, p: nat)
    requires Tiles(bs, len) && i < |bs| && Fits(bs[i], want) && want % 64 == 0
    ensures Live(Take(bs, i, want, owner), p) <==> Live(bs, p) || p == Payload(bs, i)
  {
    var t := Take(bs, i, want, owner);
    TakeTiles(bs, len, i, want, owner);
    TakeGive(bs, len, i, want, owner);
    GiveLive(t, i, p);
    assert !t[i].free && LiveBlock(t, i, Payload(t, i));
  }
}
