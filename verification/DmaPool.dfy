/**
 The allocator itself: a doubly linked list of headers, each living in the
 region in the 64 bytes before the payload it describes. `hdr` is that part of
 the region's memory, by offset; a stored header carries the magic number, and
 an offset without one holds something else. Every operation is proved to do
 to the block list and the accounts what `DmaLedger` says.
 */
module DmaPool {
  import opened Wrappers
  import opened DmaBlocks
  import opened DmaLedger

  const NULL := -1

  datatype Header = Header(free: bool, size: nat, next: int, prev: int, owner: nat)

  /** The header of block i of a list, links and all. */
  function HeaderOf(bs: seq<Blk>, i: nat): Header
    requires i < |bs|
  {
    Header(bs[i].free, bs[i].size, if i + 1 < |bs| then Offset(bs, i + 1) else NULL,
           if i > 0 then Offset(bs, i - 1) else NULL, bs[i].owner)
  }

  /** Memory holds block i's header where block i starts. */
  predicate HeaderAt(hdr: map<nat, Header>, bs: seq<Blk>, i: nat) {
    i < |bs| && Offset(bs, i) in hdr && hdr[Offset(bs, i)] == HeaderOf(bs, i)
  }

  predicate StartsAt(bs: seq<Blk>, i: nat, a: nat) {
    i < |bs| && Offset(bs, i) == a
  }

  ghost predicate Starts(bs: seq<Blk>, a: nat) {
    exists i: nat :: StartsAt(bs, i, a)
  }

  /** Memory holds the headers of these blocks, and no others. */
  ghost predicate Depicts(hdr: map<nat, Header>, bs: seq<Blk>) {
    (forall i: nat {:trigger HeaderAt(hdr, bs, i)} :: i < |bs| ==> HeaderAt(hdr, bs, i)) &&
    (forall a {:trigger Starts(bs, a)} :: a in hdr ==> Starts(bs, a))
  }

  /** Writing over one header: the list is the same but for that block. */
  lemma WriteHeader(hdr: map<nat, Header>, bs: seq<Blk>, i: nat, b: Blk)
    requires Depicts(hdr, bs) && i < |bs| && b.size == bs[i].size
    ensures Depicts(hdr[Offset(bs, i) := HeaderOf(bs, i).(free := b.free, owner := b.owner)], bs[i := b])
  {
    var cs, a := bs[i := b], Offset(bs, i);
    var hdr' := hdr[a := HeaderOf(bs, i).(free := b.free, owner := b.owner)];
    forall k: nat | k <= |bs| ensures Offset(cs, k) == Offset(bs, k) {
      SameOffsets(bs, i, b, k);
    }
    forall k: nat | k < |cs| ensures HeaderAt(hdr', cs, k) {
      assert HeaderAt(hdr, bs, k);
      if Offset(bs, k) == a {
        OffsetsDistinct(bs, k, i);
      }
    }
    forall x | x in hdr' ensures Starts(cs, x) {
      if x == a {
        assert StartsAt(cs, i, x);
      } else {
        assert Starts(bs, x);
        var k: nat :| StartsAt(bs, k, x);
        assert StartsAt(cs, k, x);
      }
    }
  }

  lemma SameOffsets(bs: seq<Blk>, i: nat, b: Blk, k: nat)
    requires i < |bs| && b.size == bs[i].size && k <= |bs|
    ensures Offset(bs[i := b], k) == Offset(bs, k)
  {
    var cs := bs[i := b];
    if k <= i {
      assert cs[..k] == bs[..k];
    } else {
      assert cs[..k] == bs[..i] + [b] + bs[i + 1..k] && bs[..k] == bs[..i] + [bs[i]] + bs[i + 1..k];
      SpanConcat(bs[..i] + [b], bs[i + 1..k]);
      SpanConcat(bs[..i], [b]);
      SpanConcat(bs[..i] + [bs[i]], bs[i + 1..k]);
      SpanConcat(bs[..i], [bs[i]]);
      Span1(b);
      Span1(bs[i]);
    }
  }

  /** Block i cut in two, the second part a new block. */
  function Cut(bs: seq<Blk>, i: nat, want: nat): seq<Blk>
    requires i < |bs| && Splits(bs[i], want)
  {
    bs[..i] + [bs[i].(size := want), Blk(bs[i].size - want - HDR, true, 0)] + bs[i + 1..]
  }

  /** Offsets around a cut: as before, with the new block's put in. */
  lemma CutOffsets(bs: seq<Blk>, i: nat, want: nat, k: nat)
    requires i < |bs| && Splits(bs[i], want) && k <= |bs| + 1
    ensures Offset(Cut(bs, i, want), k) ==
            if k <= i then Offset(bs, k) else if k == i + 1 then Offset(bs, i) + HDR + want else Offset(bs, k - 1)
  {
    var mid := [bs[i].(size := want), Blk(bs[i].size - want - HDR, true, 0)];
    var cs := Cut(bs, i, want);
    assert bs[i..i + 1] == [bs[i]];
    Span1(bs[i]);
    Span2(mid[0], mid[1]);
    Replaced(bs, i, i + 1, mid);
    OffsetNext(cs, i);
    if k >= i + 2 {
      OffsetAfter(bs, i, i + 1, mid, k - 1);
    }
  }

  function CutHeaders(hdr: map<nat, Header>, bs: seq<Blk>, i: nat, want: nat): map<nat, Header>
    requires i < |bs| && Splits(bs[i], want)
  {
    var b, h := Offset(bs, i), HeaderOf(bs, i);
    var n := b + HDR + want;
    var h1 := hdr[n := Header(true, h.size - want - HDR, h.next, b, 0)];
    var h2 := if h.next >= 0 && h.next in h1 then h1[h.next := h1[h.next].(prev := n)] else h1;
    h2[b := h.(next := n, size := want)]
  }

  lemma CutDepicts(hdr: map<nat, Header>, bs: seq<Blk>, i: nat, want: nat)
    requires Depicts(hdr, bs) && i < |bs| && Splits(bs[i], want)
    ensures Depicts(CutHeaders(hdr, bs, i, want), Cut(bs, i, want))
  {
    var cs, hdr' := Cut(bs, i, want), CutHeaders(hdr, bs, i, want);
    forall k: nat | k < |cs| ensures HeaderAt(hdr', cs, k) {
      CutHeader(hdr, bs, i, want, k);
    }
    forall x | x in hdr' ensures Starts(cs, x) {
      CutStarts(hdr, bs, i, want, x);
    }
  }

  lemma CutStarts(hdr: map<nat, Header>, bs: seq<Blk>, i: nat, want: nat, x: nat)
    requires Depicts(hdr, bs) && i < |bs| && Splits(bs[i], want) && x in CutHeaders(hdr, bs, i, want)
    ensures Starts(Cut(bs, i, want), x)
  {
    var cs := Cut(bs, i, want);
    if x == Offset(bs, i) + HDR + want {
      CutOffsets(bs, i, want, i + 1);
      assert StartsAt(cs, i + 1, x);
    } else {
      assert HeaderAt(hdr, bs, i);
      assert Starts(bs, x);
      var k: nat :| StartsAt(bs, k, x);
      CutOffsets(bs, i, want, if k <= i then k else k + 1);
      assert StartsAt(cs, if k <= i then k else k + 1, x);
    }
  }

  /** The new block starts where no block did. */
  lemma NewStart(bs: seq<Blk>, i: nat, want: nat, k: nat)
    requires i < |bs| && Splits(bs[i], want) && k < |bs|
    ensures Offset(bs, k) != Offset(bs, i) + HDR + want
  {
    if k <= i {
      OffsetMonotone(bs, k, i);
    } else {
      OffsetMonotone(bs, i + 1, k);
      OffsetNext(bs, i);
    }
  }

  lemma Apart(bs: seq<Blk>, i: nat, j: nat)
    requires i < |bs| && j < |bs| && i != j
    ensures Offset(bs, i) != Offset(bs, j)
  {
    if Offset(bs, i) == Offset(bs, j) {
      OffsetsDistinct(bs, i, j);
    }
  }

  /** What block j's header becomes in a cut, by block... */
  function Halved(bs: seq<Blk>, i: nat, want: nat, j: nat): Header
    requires i < |bs| && j < |bs|
  {
    var h := HeaderOf(bs, j);
    if j == i then h.(size := want, next := Offset(bs, i) + HDR + want)
    else if j == i + 1 then h.(prev := Offset(bs, i) + HDR + want)
    else h
  }

  /** ... which is what the writes store... */
  lemma CutWrites(hdr: map<nat, Header>, bs: seq<Blk>, i: nat, want: nat, j: nat)
    requires Depicts(hdr, bs) && i < |bs| && Splits(bs[i], want) && j < |bs|
    ensures Offset(bs, j) in CutHeaders(hdr, bs, i, want)
    ensures CutHeaders(hdr, bs, i, want)[Offset(bs, j)] == Halved(bs, i, want, j)
  {
    assert HeaderAt(hdr, bs, j);
    NewStart(bs, i, want, j);
    if j != i {
      Apart(bs, j, i);
    }
    if i + 1 < |bs| {
      assert HeaderAt(hdr, bs, i + 1);
      NewStart(bs, i, want, i + 1);
      if j != i + 1 {
        Apart(bs, j, i + 1);
      }
    }
  }

  lemma CutWritesNew(hdr: map<nat, Header>, bs: seq<Blk>, i: nat, want: nat)
    requires i < |bs| && Splits(bs[i], want)
    ensures var n := Offset(bs, i) + HDR + want;
      n in CutHeaders(hdr, bs, i, want) &&
      CutHeaders(hdr, bs, i, want)[n] == Header(true, bs[i].size - want - HDR, HeaderOf(bs, i).next, Offset(bs, i), 0)
  {
    NewStart(bs, i, want, i);
    if i + 1 < |bs| {
      NewStart(bs, i, want, i + 1);
    }
  }

  /** ... and what the cut list calls for. */
  lemma CutHeaderOf(bs: seq<Blk>, i: nat, want: nat, k: nat)
    requires i < |bs| && Splits(bs[i], want) && k <= |bs|
    ensures HeaderOf(Cut(bs, i, want), k) ==
            if k == i + 1 then Header(true, bs[i].size - want - HDR, HeaderOf(bs, i).next, Offset(bs, i), 0)
            else Halved(bs, i, want, if k <= i then k else k - 1)
  {
    var cs := Cut(bs, i, want);
    CutOffsets(bs, i, want, if k + 1 <= |bs| then k + 1 else k);
    CutOffsets(bs, i, want, if k > 0 then k - 1 else 0);
    assert cs[k] == if k < i then bs[k] else if k == i then bs[i].(size := want)
                    else if k == i + 1 then Blk(bs[i].size - want - HDR, true, 0) else bs[k - 1];
  }

  lemma CutHeader(hdr: map<nat, Header>, bs: seq<Blk>, i: nat, want: nat, k: nat)
    requires Depicts(hdr, bs) && i < |bs| && Splits(bs[i], want) && k <= |bs|
    ensures HeaderAt(CutHeaders(hdr, bs, i, want), Cut(bs, i, want), k)
  {
    CutOffsets(bs, i, want, k);
    CutHeaderOf(bs, i, want, k);
    if k == i + 1 {
      CutWritesNew(hdr, bs, i, want);
    } else {
      CutWrites(hdr, bs, i, want, if k <= i then k else k - 1);
    }
  }

  lemma JoinedSpan(bs: seq<Blk>, i: nat)
    requires i + 1 < |bs|
    ensures Span([Joined(bs[i], bs[i + 1])]) == Span(bs[i..i + 2])
  {
    assert bs[i..i + 2] == [bs[i], bs[i + 1]];
    Span2(bs[i], bs[i + 1]);
    Span1(Joined(bs[i], bs[i + 1]));
  }

  /** Offsets around a merge: as before, with the absorbed block's left out. */
  lemma MergeOffsets(bs: seq<Blk>, i: nat, k: nat)
    requires i + 1 < |bs| && bs[i + 1].free && k < |bs|
    ensures Offset(MergeNext(bs, i), k) == if k <= i then Offset(bs, k) else Offset(bs, k + 1)
  {
    var mid := [Joined(bs[i], bs[i + 1])];
    JoinedSpan(bs, i);
    if k <= i {
      Replaced(bs, i, i + 2, mid);
    } else {
      OffsetAfter(bs, i, i + 2, mid, k + 1);
    }
  }

  /** Block i's header absorbs the next: its size and link grow, the block
      after that links back to it, and the absorbed one loses its magic. */
  function MergeHeaders(hdr: map<nat, Header>, bs: seq<Blk>, i: nat): map<nat, Header>
    requires i + 1 < |bs|
  {
    var b, n := Offset(bs, i), Offset(bs, i + 1);
    var hb, hn := HeaderOf(bs, i), HeaderOf(bs, i + 1);
    var h1 := hdr[b := hb.(size := hb.size + HDR + hn.size, next := hn.next)];
    var h2 := if hn.next >= 0 && hn.next in h1 then h1[hn.next := h1[hn.next].(prev := b)] else h1;
    h2 - {n}
  }

  lemma MergeDepicts(hdr: map<nat, Header>, bs: seq<Blk>, i: nat)
    requires Depicts(hdr, bs) && i + 1 < |bs| && bs[i].free && bs[i].owner == 0 && bs[i + 1].free
    ensures Depicts(MergeHeaders(hdr, bs, i), MergeNext(bs, i))
  {
    var cs, hdr' := MergeNext(bs, i), MergeHeaders(hdr, bs, i);
    forall k: nat | k < |cs| ensures HeaderAt(hdr', cs, k) {
      MergeHeader(hdr, bs, i, k);
    }
    forall x | x in hdr' ensures Starts(cs, x) {
      MergeStarts(hdr, bs, i, x);
    }
  }

  lemma MergeStarts(hdr: map<nat, Header>, bs: seq<Blk>, i: nat, x: nat)
    requires Depicts(hdr, bs) && i + 1 < |bs| && bs[i + 1].free && x in MergeHeaders(hdr, bs, i)
    ensures Starts(MergeNext(bs, i), x)
  {
    var cs := MergeNext(bs, i);
    assert HeaderAt(hdr, bs, i);
    assert Starts(bs, x);
    var k: nat :| StartsAt(bs, k, x);
    MergeOffsets(bs, i, if k <= i then k else k - 1);
    assert StartsAt(cs, if k <= i then k else k - 1, x);
  }

  /** What block j's header becomes in a merge, by block... */
  function Merged(bs: seq<Blk>, i: nat, j: nat): Header
    requires i + 1 < |bs| && j < |bs|
  {
    var h := HeaderOf(bs, j);
    if j == i then h.(size := h.size + HDR + bs[i + 1].size, next := HeaderOf(bs, i + 1).next)
    else if j == i + 2 then h.(prev := Offset(bs, i))
    else h
  }

  /** ... which is what the writes store... */
  lemma MergeWrites(hdr: map<nat, Header>, bs: seq<Blk>, i: nat, j: nat)
    requires Depicts(hdr, bs) && i + 1 < |bs| && j < |bs| && j != i + 1
    ensures Offset(bs, j) in MergeHeaders(hdr, bs, i)
    ensures MergeHeaders(hdr, bs, i)[Offset(bs, j)] == Merged(bs, i, j)
  {
    assert HeaderAt(hdr, bs, j);
    Apart(bs, j, i + 1);
    if j != i {
      Apart(bs, j, i);
    }
    if i + 2 < |bs| {
      assert HeaderAt(hdr, bs, i + 2);
      Apart(bs, i, i + 2);
      if j != i + 2 {
        Apart(bs, j, i + 2);
      }
    }
  }

  lemma MergedBlock(bs: seq<Blk>, i: nat, k: nat)
    requires i + 1 < |bs| && bs[i + 1].free && k + 1 < |bs|
    ensures |MergeNext(bs, i)| == |bs| - 1
    ensures MergeNext(bs, i)[k] == if k < i then bs[k] else if k == i then Joined(bs[i], bs[i + 1]) else bs[k + 1]
  {
  }

  lemma MergedNext(bs: seq<Blk>, i: nat, k: nat)
    requires i + 1 < |bs| && bs[i + 1].free && k + 1 < |bs| == |MergeNext(bs, i)| + 1
    ensures HeaderOf(MergeNext(bs, i), k).next == Merged(bs, i, if k <= i then k else k + 1).next
  {
    var cs := MergeNext(bs, i);
    if k + 2 < |bs| {
      MergeOffsets(bs, i, k + 1);
      assert HeaderOf(cs, k).next == if k < i then Offset(bs, k + 1) else Offset(bs, k + 2);
    } else {
      assert HeaderOf(cs, k).next == NULL;
    }
  }

  lemma MergedPrev(bs: seq<Blk>, i: nat, k: nat)
    requires i + 1 < |bs| && bs[i + 1].free && k + 1 < |bs| == |MergeNext(bs, i)| + 1
    ensures HeaderOf(MergeNext(bs, i), k).prev == Merged(bs, i, if k <= i then k else k + 1).prev
  {
    if k > 0 {
      MergeOffsets(bs, i, k - 1);
    }
  }

  /** ... and what the merged list calls for. */
  lemma MergedHeader(bs: seq<Blk>, i: nat, k: nat)
    requires i + 1 < |bs| && bs[i].free && bs[i].owner == 0 && bs[i + 1].free && k + 1 < |bs|
    ensures |MergeNext(bs, i)| == |bs| - 1
    ensures HeaderOf(MergeNext(bs, i), k) == Merged(bs, i, if k <= i then k else k + 1)
  {
    MergedBlock(bs, i, k);
    MergedNext(bs, i, k);
    MergedPrev(bs, i, k);
  }

  lemma MergeHeader(hdr: map<nat, Header>, bs: seq<Blk>, i: nat, k: nat)
    requires Depicts(hdr, bs) && i + 1 < |bs| && bs[i].free && bs[i].owner == 0 && bs[i + 1].free && k + 1 < |bs|
    ensures HeaderAt(MergeHeaders(hdr, bs, i), MergeNext(bs, i), k)
  {
    MergeOffsets(bs, i, k);
    MergedHeader(bs, i, k);
    MergeWrites(hdr, bs, i, if k <= i then k else k + 1);
  }

  lemma FirstFitIs(bs: seq<Blk>, want: nat, i: nat)
    requires i <= |bs| && (i < |bs| ==> Fits(bs[i], want)) && forall j :: 0 <= j < i ==> !Fits(bs[j], want)
    ensures FirstFit(bs, want) == i
  {
  }

  lemma FindLiveIs(bs: seq<Blk>, ptr: nat, i: nat)
    requires LiveBlock(bs, i, ptr)
    ensures FindLive(bs, ptr, 0) == i
  {
    var k := FindLive(bs, ptr, 0);
    if k < |bs| {
      OffsetsDistinct(bs, i, k);
    }
  }

  /** An address Free refuses is no live payload. */
  lemma Refused(hdr: map<nat, Header>, bs: seq<Blk>, len: nat, ptr: nat)
    requires Depicts(hdr, bs) && Tiles(bs, len)
    requires ptr < HDR || ptr >= len || ptr - HDR !in hdr || hdr[ptr - HDR].free
    ensures FindLive(bs, ptr, 0) == |bs|
  {
    var k := FindLive(bs, ptr, 0);
    if k < |bs| {
      assert HeaderAt(hdr, bs, k);
      PayloadsApart(bs, len, k);
      if ptr >= len {
        EveryPayloadInside(bs, len, k);
      }
      assert false;
    }
  }

  /** Even an empty payload starts short of the end: the last is never empty. */
  lemma EveryPayloadInside(bs: seq<Blk>, len: nat, k: nat)
    requires Tiles(bs, len) && k < |bs|
    ensures Payload(bs, k) < len
  {
    assert bs[..|bs|] == bs;
    OffsetMonotone(bs, k, |bs| - 1);
    OffsetNext(bs, |bs| - 1);
  }

  lemma BlockInside(bs: seq<Blk>, len: nat, i: nat)
    requires Tiles(bs, len) && i < |bs|
    ensures bs[i].size + HDR <= len
  {
    PayloadsApart(bs, len, i);
  }

  lemma Headers(hdr: map<nat, Header>, bs: seq<Blk>, i: nat)
    requires Depicts(hdr, bs) && i < |bs|
    ensures Offset(bs, i) in hdr && hdr[Offset(bs, i)] == HeaderOf(bs, i)
  {
    assert HeaderAt(hdr, bs, i);
  }

  lemma SizesInRange(p: Pool)
    requires Balanced(p) && p.len <= SIZE_RANGE / 2
    ensures p.blocks != [] && p.stats != []
    ensures forall i :: 0 <= i < |p.blocks| ==> p.blocks[i].size < SIZE_RANGE - HDR - 64
  {
    forall i | 0 <= i < |p.blocks| ensures p.blocks[i].size < SIZE_RANGE - HDR - 64 {
      BlockInside(p.blocks, p.len, i);
    }
  }

  /** An address Free accepts is a live payload. */
  lemma LiveAt(hdr: map<nat, Header>, bs: seq<Blk>, ptr: nat) returns (i: nat)
    requires Depicts(hdr, bs) && ptr >= HDR && ptr - HDR in hdr && !hdr[ptr - HDR].free
    ensures LiveBlock(bs, i, ptr)
  {
    assert Starts(bs, ptr - HDR);
    i :| StartsAt(bs, i, ptr - HDR);
    Headers(hdr, bs, i);
  }

  /** A live block's bytes are all accounted for: giving them back takes no
      count below zero. */
  lemma RefundExact(p: Pool, i: nat)
    requires Balanced(p) && i < |p.blocks| && !p.blocks[i].free
    ensures HDR + p.blocks[i].size <= p.used && p.blocks[i].owner < |p.stats|
    ensures p.blocks[i].size <= p.stats[p.blocks[i].owner].outstanding
    ensures forall k :: 0 <= k < |p.blocks| && p.blocks[k].free ==> p.blocks[k].owner == 0
  {
    GiveTotals(p.blocks, i, UsedBytes);
    GiveTotals(p.blocks, i, Held(p.blocks[i].owner));
    assert SlotBalances(p, p.blocks[i].owner);
  }

  /** Freeing block i takes no count below zero. */
  lemma FreeIs(p: Pool, ptr: nat, i: nat)
    requires Balanced(p) && LiveBlock(p.blocks, i, ptr)
    ensures HDR + p.blocks[i].size <= p.used && p.blocks[i].owner < |p.stats|
    ensures DmaLedger.Free(p, ptr) == Returned(p, i)
    ensures forall k :: 0 <= k < |p.blocks| && p.blocks[k].free ==> p.blocks[k].owner == 0
  {
    FindLiveIs(p.blocks, ptr, i);
    RefundExact(p, i);
  }

  class Allocator {
    var mapped: bool
    var len: nat
    var head: int
    var hdr: map<nat, Header>
    var used: nat
    var peak: nat
    var fails: nat
    var stats: seq<Stat>
    ghost var blocks: seq<Blk>

    ghost function View(): Pool
      reads this
    {
      Pool(len, blocks, used, peak, fails, stats)
    }

    ghost predicate Valid()
      reads this
    {
      if mapped then
        Depicts(hdr, blocks) && Balanced(View()) && head == 0 && len <= SIZE_RANGE / 2
      else head == NULL
    }

    /** Nothing is mapped when the region cannot hold one block. No object is
        larger than half the address space. */
    constructor (base: bool, length: nat)
      requires length <= SIZE_RANGE / 2
      ensures Valid() && (mapped <==> base && length >= HDR + 64)
      ensures mapped ==> View() == DmaLedger.Init(length)
    {
      used, peak, fails := 0, 0, 0;
      if !base || length < HDR + 64 {
        mapped, len, head, hdr, stats, blocks := false, 0, NULL, map[], [], [];
      } else {
        mapped, len, head := true, length, 0;
        hdr := map[0 := Header(true, length - HDR, NULL, NULL, 0)];
        stats := [Stat("(other)", 0, 0, 0, 0, 0)];
        blocks := [Blk(length - HDR, true, 0)];
        InitBalanced(length);
        var bs: seq<Blk> := [Blk(length - HDR, true, 0)];
        assert bs[..0] == [];
        assert StartsAt(bs, 0, 0);
      }
    }

    /** The name's statistics slot, made if it is new and there is room. */
    method StatIndex(name: string) returns (idx: nat)
      modifies this`stats
      ensures stats == WithSlot(old(stats), name) && idx == SlotOf(old(stats), name)
    {
      var n := SlotName(name);
      var i := 0;
      while i < |stats|
        invariant 0 <= i <= |stats| && stats == old(stats)
        invariant forall j :: 0 <= j < i ==> stats[j].name != n
      {
        if stats[i].name == n {
          return i;
        }
        i := i + 1;
      }
      if |stats| < MAX_NAMES {
        stats := stats + [Stat(n, 0, 0, 0, 0, 0)];
        return i;
      }
      return 0;
    }

    /** Free bytes and the largest free block, by walking the links. */
    method FreeSurvey() returns (total: nat, largest: nat)
      requires Valid()
      ensures mapped ==> largest == DmaBlocks.Largest(blocks) && total == FreeBytes(blocks)
      ensures !mapped ==> largest == 0 && total == 0
    {
      total, largest := 0, 0;
      var b := head;
      ghost var i: nat := if mapped then 0 else |blocks|;
      while b != NULL
        invariant mapped ==> i <= |blocks| && b == if i < |blocks| then Offset(blocks, i) else NULL
        invariant !mapped ==> b == NULL && total == 0 && largest == 0
        invariant mapped ==> largest == DmaBlocks.Largest(blocks[..i]) && total == FreeBytes(blocks[..i])
        decreases |blocks| - i
      {
        Headers(hdr, blocks, i);
        assert blocks[..i + 1][..i] == blocks[..i];
        if hdr[b].free {
          total := total + hdr[b].size;
          if hdr[b].size > largest {
            largest := hdr[b].size;
          }
        }
        b := hdr[b].next;
        i := i + 1;
      }
      assert blocks[..|blocks|] == blocks;
    }

    /** The first fit by walking the links. */
    method Find(want: nat) returns (b: int)
      requires mapped && Depicts(hdr, blocks) && head == 0 && blocks != []
      ensures var i := FirstFit(blocks, want); b == if i < |blocks| then Offset(blocks, i) else NULL
    {
      b := head;
      ghost var i: nat := 0;
      while b != NULL
        invariant i <= |blocks| && b == if i < |blocks| then Offset(blocks, i) else NULL
        invariant forall j :: 0 <= j < i ==> !Fits(blocks[j], want)
        decreases |blocks| - i
      {
        Headers(hdr, blocks, i);
        if hdr[b].free && hdr[b].size >= want {
          FirstFitIs(blocks, want, i);
          return;
        }
        b := hdr[b].next;
        i := i + 1;
      }
      FirstFitIs(blocks, want, i);
    }

    /** The tail of block i becomes a block of its own. */
    method Split(b: nat, want: nat, ghost i: nat)
      requires Depicts(hdr, blocks) && i < |blocks| && b == Offset(blocks, i) && Splits(blocks[i], want)
      modifies this`hdr, this`blocks
      ensures Depicts(hdr, blocks) && blocks == Cut(old(blocks), i, want)
    {
      Headers(hdr, blocks, i);
      CutDepicts(hdr, blocks, i, want);
      if i + 1 < |blocks| {
        Headers(hdr, blocks, i + 1);
        NewStart(blocks, i, want, i);
        Apart(blocks, i, i + 1);
      }
      NewStart(blocks, i, want, i);
      var n := b + HDR + want;
      ghost var was := hdr;
      hdr := hdr[n := Header(true, hdr[b].size - want - HDR, hdr[b].next, b, 0)];
      if hdr[n].next != NULL {
        hdr := hdr[hdr[n].next := hdr[hdr[n].next].(prev := n)];
      }
      hdr := hdr[b := hdr[b].(next := n, size := want)];
      assert hdr == CutHeaders(was, blocks, i, want);
      blocks := Cut(blocks, i, want);
    }

    /** Block i, free, takes in the free block after it. */
    method Absorb(b: nat, n: nat, ghost i: nat)
      requires Depicts(hdr, blocks) && i + 1 < |blocks| && b == Offset(blocks, i) && n == Offset(blocks, i + 1)
      requires blocks[i].free && blocks[i].owner == 0 && blocks[i + 1].free
      modifies this`hdr, this`blocks
      ensures Depicts(hdr, blocks) && blocks == MergeNext(old(blocks), i)
    {
      Headers(hdr, blocks, i);
      Headers(hdr, blocks, i + 1);
      Apart(blocks, i, i + 1);
      if i + 2 < |blocks| {
        Headers(hdr, blocks, i + 2);
        Apart(blocks, i, i + 2);
        Apart(blocks, i + 1, i + 2);
      }
      MergeDepicts(hdr, blocks, i);
      ghost var was := hdr;
      hdr := hdr[b := hdr[b].(size := hdr[b].size + HDR + hdr[n].size, next := hdr[n].next)];
      if hdr[n].next != NULL {
        hdr := hdr[hdr[n].next := hdr[hdr[n].next].(prev := b)];
      }
      hdr := hdr - {n};
      assert hdr == MergeHeaders(was, blocks, i);
      blocks := MergeNext(blocks, i);
    }

    /** Block i, a fit, taken for an owner and split where that is worth it. */
    method Claim(b: nat, want: nat, idx: nat, ghost i: nat)
      requires Depicts(hdr, blocks) && i < |blocks| && b == Offset(blocks, i)
      requires Fits(blocks[i], want) && blocks[i].size < SIZE_RANGE - HDR - 64
      modifies this`hdr, this`blocks
      ensures Depicts(hdr, blocks) && blocks == Take(old(blocks), i, want, idx)
      ensures b in hdr && i < |blocks| && hdr[b].size == blocks[i].size
    {
      ghost var was := blocks;
      Headers(hdr, blocks, i);
      if hdr[b].size >= (want + HDR + 64) % SIZE_RANGE {
        Split(b, want, i);
        CutOffsets(was, i, want, i);
        Headers(hdr, blocks, i);
      }
      WriteHeader(hdr, blocks, i, Blk(blocks[i].size, false, idx));
      hdr := hdr[b := hdr[b].(free := false, owner := idx)];
      blocks := blocks[i := Blk(blocks[i].size, false, idx)];
      assert blocks == Take(was, i, want, idx);
    }

    method Book(size: nat, idx: nat)
      requires idx < |stats|
      modifies this`used, this`peak, this`stats
      ensures used == old(used) + HDR + size && peak == Max(old(peak), used)
      ensures stats == old(stats)[idx := Charge(old(stats)[idx], size)]
    {
      used := used + HDR + size;
      if used > peak {
        peak := used;
      }
      stats := stats[idx := stats[idx].(allocs := stats[idx].allocs + 1,
                                        outstanding := stats[idx].outstanding + size)];
      if stats[idx].outstanding > stats[idx].peak {
        stats := stats[idx := stats[idx].(peak := stats[idx].outstanding)];
      }
    }

    /** The allocation and its accounts, given that the list is sound. */
    method Serve(want: nat, idx: nat) returns (ret: Option<nat>)
      requires mapped && Depicts(hdr, blocks) && head == 0 && blocks != [] && idx < |stats|
      requires forall i :: 0 <= i < |blocks| ==> blocks[i].size < SIZE_RANGE - HDR - 64
      modifies this`hdr, this`blocks, this`used, this`peak, this`fails, this`stats
      ensures Depicts(hdr, blocks) && View() == Grant(old(View()), idx, want)
      ensures var i := FirstFit(old(blocks), want);
        ret == if i < |old(blocks)| then Some(Payload(old(blocks), i)) else None
    {
      var b := Find(want);
      if b == NULL {
        fails := fails + 1;
        stats := stats[idx := stats[idx].(fails := stats[idx].fails + 1)];
        return None;
      }
      ghost var i := FirstFit(blocks, want);
      Claim(b, want, idx, i);
      Book(hdr[b].size, idx);
      ret := Some(b + HDR);
    }

    /** First fit, zero or more bytes, for a name. */
    method Alloc(size: nat, name: string) returns (ret: Option<nat>)
      requires Valid() && size < SIZE_RANGE
      modifies this
      ensures Valid() && mapped == old(mapped)
      ensures old(mapped) ==> View() == DmaLedger.Alloc(old(View()), size, name)
      ensures ret == if old(mapped) then Allocated(old(View()), size) else None
      ensures !old(mapped) ==> View() == old(View())
    {
      if !mapped {
        return None;
      }
      AllocBalanced(View(), size, name);
      SizesInRange(View());
      var idx := StatIndex(name);
      ret := Serve(Want(size), idx);
    }

    /** A live block given back, and its accounts. */
    method TakeBack(b: nat, ghost i: nat)
      requires Depicts(hdr, blocks) && i < |blocks| && b == Offset(blocks, i)
      requires HDR + blocks[i].size <= used && blocks[i].owner < |stats|
      requires forall k :: 0 <= k < |blocks| && blocks[k].free ==> blocks[k].owner == 0
      modifies this`hdr, this`blocks, this`used, this`stats
      ensures Depicts(hdr, blocks) && View() == Returned(old(View()), i)
    {
      Headers(hdr, blocks, i);
      used := used - (HDR + hdr[b].size);
      stats := stats[hdr[b].owner := Refund(stats[hdr[b].owner], hdr[b].size)];
      Release(b, i);
    }

    /** Gives a payload back; NULL and anything that is not a live payload
        change nothing. */
    method Free(ptr: int)
      requires Valid()
      modifies this
      ensures Valid() && mapped == old(mapped)
      ensures View() == if old(mapped) && ptr >= 0 then DmaLedger.Free(old(View()), ptr) else old(View())
    {
      if ptr < 0 || !mapped {
        return;
      }
      if ptr < HDR || ptr >= len || ptr - HDR !in hdr || hdr[ptr - HDR].free {
        Refused(hdr, blocks, len, ptr);
        return;
      }
      ghost var i := LiveAt(hdr, blocks, ptr);
      FreeBalanced(View(), ptr);
      FreeIs(View(), ptr, i);
      TakeBack(ptr - HDR, i);
    }

    /** Block i marked free and merged forwards, then backwards. */
    method Release(b: nat, ghost i: nat)
      requires Depicts(hdr, blocks) && i < |blocks| && b == Offset(blocks, i)
      requires forall k :: 0 <= k < |blocks| && blocks[k].free ==> blocks[k].owner == 0
      modifies this`hdr, this`blocks
      ensures Depicts(hdr, blocks) && blocks == Give(old(blocks), i)
    {
      Headers(hdr, blocks, i);
      WriteHeader(hdr, blocks, i, Blk(blocks[i].size, true, 0));
      SameOffsets(blocks, i, Blk(blocks[i].size, true, 0), i);
      hdr := hdr[b := hdr[b].(free := true, owner := 0)];
      blocks := DmaBlocks.Release(blocks, i);
      Headers(hdr, blocks, i);
      var n := hdr[b].next;
      if i + 1 < |blocks| {
        Headers(hdr, blocks, i + 1);
      }
      if n != NULL && hdr[n].free {
        MergeOffsets(blocks, i, i);
        Absorb(b, n, i);
      }
      Headers(hdr, blocks, i);
      n := hdr[b].prev;
      if i > 0 {
        Headers(hdr, blocks, i - 1);
      }
      if n != NULL && hdr[n].free {
        Absorb(n, b, i - 1);
      }
    }

    method Largest() returns (largest: nat)
      requires Valid()
      ensures largest == if mapped then DmaBlocks.Largest(blocks) else 0
    {
      var total;
      total, largest := FreeSurvey();
    }
  }
}
