/**
 The pool with its accounts: bytes in use, high-water marks and per-name
 statistics, over every sequence of allocations and frees.
 */
module DmaLedger {
  import opened Wrappers
  import opened DmaBlocks

  const MAX_NAMES: nat := 64
  const NAME_LEN: nat := 31

  datatype Stat = Stat(name: string, outstanding: nat, peak: nat, allocs: nat, frees: nat, fails: nat)

  datatype Pool = Pool(len: nat, blocks: seq<Blk>, used: nat, peak: nat, fails: nat, stats: seq<Stat>)

  function Max(a: nat, b: nat): nat { if a < b then b else a }

  // ----- names -----

  /** A missing name is "?"; a long one counts by its first 31 characters. */
  function SlotName(name: string): string {
    if name == "" then "?" else if |name| > NAME_LEN then name[..NAME_LEN] else name
  }

  function FindSlot(stats: seq<Stat>, name: string): (i: nat)
    ensures i <= |stats|
    ensures i < |stats| ==> stats[i].name == name
    ensures forall j :: 0 <= j < i ==> stats[j].name != name
  {
    if stats == [] || stats[0].name == name then 0 else 1 + FindSlot(stats[1..], name)
  }

  /** The table with a slot for the name, if there is room for one. */
  function WithSlot(stats: seq<Stat>, name: string): seq<Stat> {
    if FindSlot(stats, SlotName(name)) == |stats| && |stats| < MAX_NAMES
    then stats + [Stat(SlotName(name), 0, 0, 0, 0, 0)] else stats
  }

  /** Which slot that is: slot 0 takes what there is no room for. */
  function SlotOf(stats: seq<Stat>, name: string): nat {
    var i := FindSlot(stats, SlotName(name));
    if i < |stats| then i else if |stats| < MAX_NAMES then |stats| else 0
  }

  // ----- the operations -----

  function Init(len: nat): Pool
    requires len >= HDR + 64
  {
    Pool(len, [Blk(len - HDR, true, 0)], 0, 0, 0, [Stat("(other)", 0, 0, 0, 0, 0)])
  }

  /** A request's bytes: at least one, in whole 64s. */
  function Want(size: nat): nat {
    Round64(if size == 0 then 1 else size)
  }

  function Charge(st: Stat, bytes: nat): Stat {
    st.(allocs := st.allocs + 1, outstanding := st.outstanding + bytes,
        peak := Max(st.peak, st.outstanding + bytes))
  }

  function Refund(st: Stat, bytes: nat): Stat {
    st.(frees := st.frees + 1, outstanding := if bytes <= st.outstanding then st.outstanding - bytes else 0)
  }

  /** A request for so many bytes on slot o's account, met or refused. */
  function Grant(p: Pool, o: nat, want: nat): Pool
    requires o < |p.stats|
  {
    var i := FirstFit(p.blocks, want);
    if i == |p.blocks| then
      p.(fails := p.fails + 1, stats := p.stats[o := p.stats[o].(fails := p.stats[o].fails + 1)])
    else
      var blocks := Take(p.blocks, i, want, o);
      var used := p.used + HDR + blocks[i].size;
      p.(blocks := blocks, used := used, peak := Max(p.peak, used),
         stats := p.stats[o := Charge(p.stats[o], blocks[i].size)])
  }

  /** The same by name. */
  function Granted(p: Pool, want: nat, name: string): Pool
    requires p.stats != []
  {
    Grant(p.(stats := WithSlot(p.stats, name)), SlotOf(p.stats, name), want)
  }

  function Alloc(p: Pool, size: nat, name: string): Pool
    requires p.stats != []
  {
    Granted(p, Want(size), name)
  }

  /** What it returns: the payload of the first fit, or nothing. */
  function Allocated(p: Pool, size: nat): Option<nat> {
    var i := FirstFit(p.blocks, Want(size));
    if i == |p.blocks| then None else Some(Payload(p.blocks, i))
  }

  /** The live block whose payload is at ptr, or the end of the list. */
  function FindLive(bs: seq<Blk>, ptr: nat, i: nat): (k: nat)
    requires i <= |bs|
    ensures i <= k <= |bs|
    ensures k < |bs| ==> LiveBlock(bs, k, ptr)
    ensures k == |bs| ==> forall j :: i <= j < |bs| ==> !LiveBlock(bs, j, ptr)
    decreases |bs| - i
  {
    if i == |bs| || LiveBlock(bs, i, ptr) then i else FindLive(bs, ptr, i + 1)
  }

  /** Block i and its bytes given back. */
  function Returned(p: Pool, i: nat): Pool
    requires i < |p.blocks|
  {
    var b := p.blocks[i];
    p.(blocks := Give(p.blocks, i),
       used := if HDR + b.size <= p.used then p.used - (HDR + b.size) else 0,
       stats := if b.owner < |p.stats| then p.stats[b.owner := Refund(p.stats[b.owner], b.size)] else p.stats)
  }

  /** An address that is no live payload -- null, outside, inside a block, or
      free already -- is refused and changes nothing. */
  function Free(p: Pool, ptr: nat): Pool {
    var i := FindLive(p.blocks, ptr, 0);
    if i == |p.blocks| then p else Returned(p, i)
  }

  // ----- what every operation keeps -----

  /** One name's account agrees with the blocks it holds. */
  predicate SlotBalances(p: Pool, o: nat) {
    o < |p.stats| &&
    p.stats[o].outstanding == Total(p.blocks, Held(o)) &&
    p.stats[o].allocs == p.stats[o].frees + Total(p.blocks, Count(o)) &&
    p.stats[o].outstanding <= p.stats[o].peak
  }

  ghost predicate Balanced(p: Pool) {
    && Tiles(p.blocks, p.len)
    && p.used == Total(p.blocks, UsedBytes) && p.used <= p.peak
    && 1 <= |p.stats| <= MAX_NAMES
    && (forall o {:trigger SlotBalances(p, o)} :: 0 <= o < |p.stats| ==> SlotBalances(p, o))
    && (forall i :: 0 <= i < |p.blocks| && !p.blocks[i].free ==> p.blocks[i].owner < |p.stats|)
    && (forall i, j :: 0 <= i < j < |p.stats| ==> p.stats[i].name != p.stats[j].name)
  }

  lemma InitBalanced(len: nat)
    requires len >= HDR + 64
    ensures Balanced(Init(len))
  {
    var p := Init(len);
    Span1(p.blocks[0]);
    TotalFree(p.blocks, UsedBytes);
    TotalFree(p.blocks, Held(0));
    TotalFree(p.blocks, Count(0));
    assert SlotBalances(p, 0);
  }

  /** A slot nobody holds anything by weighs nothing. */
  lemma {:induction false} NobodyHolds(bs: seq<Blk>, o: nat)
    requires forall i :: 0 <= i < |bs| && !bs[i].free ==> bs[i].owner != o
    ensures Total(bs, Held(o)) == 0 && Total(bs, Count(o)) == 0
  {
    if bs != [] {
      NobodyHolds(bs[..|bs| - 1], o);
    }
  }

  /** Making room for a name changes no account. */
  lemma WithSlotBalanced(p: Pool, name: string)
    requires Balanced(p)
    ensures SlotOf(p.stats, name) < |WithSlot(p.stats, name)| && Balanced(p.(stats := WithSlot(p.stats, name)))
  {
    var stats := WithSlot(p.stats, name);
    var q := p.(stats := stats);
    forall o | 0 <= o < |stats| ensures SlotBalances(q, o) {
      if o < |p.stats| {
        assert SlotBalances(p, o) && stats[o] == p.stats[o];
      } else {
        NobodyHolds(p.blocks, o);
      }
    }
  }

  lemma WantRounds(size: nat)
    ensures Want(size) % 64 == 0
  {
  }

  lemma TakeOwners(bs: seq<Blk>, i: nat, want: nat, o: nat, n: nat)
    requires i < |bs| && o < n && forall k :: 0 <= k < |bs| && !bs[k].free ==> bs[k].owner < n
    ensures forall k :: 0 <= k < |Take(bs, i, want, o)| && !Take(bs, i, want, o)[k].free ==>
      Take(bs, i, want, o)[k].owner < n
  {
  }

  lemma AllocBlocksBalanced(p: Pool, o: nat, i: nat, want: nat)
    requires Balanced(p) && o < |p.stats| && i < |p.blocks| && Fits(p.blocks[i], want) && want % 64 == 0
    ensures i < |Take(p.blocks, i, want, o)|
    ensures var blocks := Take(p.blocks, i, want, o);
      var used := p.used + HDR + blocks[i].size;
      Balanced(p.(blocks := blocks, used := used, peak := Max(p.peak, used),
                  stats := p.stats[o := Charge(p.stats[o], blocks[i].size)]))
  {
    var blocks := Take(p.blocks, i, want, o);
    TakeTiles(p.blocks, p.len, i, want, o);
    TakeOwners(p.blocks, i, want, o, |p.stats|);
    TakeTotals(p.blocks, i, want, o, UsedBytes);
    var used := p.used + HDR + blocks[i].size;
    var q := p.(blocks := blocks, used := used, peak := Max(p.peak, used),
                stats := p.stats[o := Charge(p.stats[o], blocks[i].size)]);
    forall s | 0 <= s < |q.stats| ensures SlotBalances(q, s) {
      assert SlotBalances(p, s);
      TakeTotals(p.blocks, i, want, o, Held(s));
      TakeTotals(p.blocks, i, want, o, Count(s));
    }
  }

  lemma FailBalanced(p: Pool, o: nat)
    requires Balanced(p) && o < |p.stats|
    ensures Balanced(p.(fails := p.fails + 1, stats := p.stats[o := p.stats[o].(fails := p.stats[o].fails + 1)]))
  {
    var q := p.(fails := p.fails + 1, stats := p.stats[o := p.stats[o].(fails := p.stats[o].fails + 1)]);
    forall s | 0 <= s < |q.stats| ensures SlotBalances(q, s) {
      assert SlotBalances(p, s);
    }
  }

  lemma GrantBalanced(p: Pool, o: nat, want: nat)
    requires Balanced(p) && o < |p.stats| && want % 64 == 0
    ensures Balanced(Grant(p, o, want)) && Grant(p, o, want).len == p.len
  {
    var i := FirstFit(p.blocks, want);
    if i == |p.blocks| {
      FailBalanced(p, o);
    } else {
      AllocBlocksBalanced(p, o, i, want);
    }
  }

  lemma AllocBalanced(p: Pool, size: nat, name: string)
    requires Balanced(p)
    ensures Balanced(Alloc(p, size, name)) && Alloc(p, size, name).len == p.len
  {
    WithSlotBalanced(p, name);
    WantRounds(size);
    GrantBalanced(p.(stats := WithSlot(p.stats, name)), SlotOf(p.stats, name), Want(size));
  }

  lemma FreeBalanced(p: Pool, ptr: nat)
    requires Balanced(p)
    ensures Balanced(Free(p, ptr)) && Free(p, ptr).len == p.len
  {
    var i := FindLive(p.blocks, ptr, 0);
    if i < |p.blocks| {
      var b, q := p.blocks[i], Free(p, ptr);
      GiveTiles(p.blocks, p.len, i);
      GiveTotals(p.blocks, i, UsedBytes);
      forall s | 0 <= s < |q.stats| ensures SlotBalances(q, s) {
        assert SlotBalances(p, s);
        GiveTotals(p.blocks, i, Held(s));
        GiveTotals(p.blocks, i, Count(s));
      }
      GiveOwners(p.blocks, i, |p.stats|);
    }
  }

  lemma GiveOwners(bs: seq<Blk>, i: nat, n: nat)
    requires i < |bs| && forall k :: 0 <= k < |bs| && !bs[k].free ==> bs[k].owner < n
    ensures forall k :: 0 <= k < |Give(bs, i)| && !Give(bs, i)[k].free ==> Give(bs, i)[k].owner < n
  {
    GiveForm(bs, i);
    var lo, hi, r := Low(bs, i), High(bs, i), Give(bs, i);
    forall k | 0 <= k < |r| && !r[k].free ensures r[k].owner < n {
      assert k != lo && r[k] == if k < lo then bs[k] else bs[k - lo - 1 + hi];
    }
  }

  // ----- every sequence of operations -----

  datatype Op = OpAlloc(size: nat, name: string) | OpFree(ptr: nat)

  function Apply(p: Pool, op: Op): Pool
    requires p.stats != []
  {
    match op
    case OpAlloc(size, name) => Alloc(p, size, name)
    case OpFree(ptr) => Free(p, ptr)
  }

  /** The states a history passes through. */
  ghost predicate IsHistory(hist: seq<Pool>, ops: seq<Op>) {
    |hist| == |ops| + 1 && forall i :: 0 <= i < |ops| ==>
      hist[i].stats != [] && hist[i + 1] == Apply(hist[i], ops[i])
  }

  /** After any history the blocks tile the region and every account balances. */
  lemma {:induction false} AlwaysBalanced(hist: seq<Pool>, ops: seq<Op>, n: nat)
    requires IsHistory(hist, ops) && Balanced(hist[0]) && n <= |ops|
    ensures Balanced(hist[n]) && hist[n].len == hist[0].len
  {
    if n > 0 {
      AlwaysBalanced(hist, ops, n - 1);
      match ops[n - 1]
      case OpAlloc(size, name) => AllocBalanced(hist[n - 1], size, name);
      case OpFree(ptr) => FreeBalanced(hist[n - 1], ptr);
    }
  }

  // ----- what the figures say -----

  lemma GrantUsed(p: Pool, o: nat, want: nat)
    requires o < |p.stats|
    ensures var r := Grant(p, o, want);
      r.peak == Max(p.peak, r.used) || (r.peak == p.peak && r.used == p.used)
  {
  }

  /** The pool's peak is the most that was ever in use at once. */
  lemma {:induction false} PeakReached(hist: seq<Pool>, ops: seq<Op>, n: nat, len: nat)
    requires IsHistory(hist, ops) && len >= HDR + 64 && hist[0] == Init(len) && n <= |ops|
    ensures forall i :: 0 <= i <= n ==> hist[i].used <= hist[n].peak
    ensures exists i :: 0 <= i <= n && hist[i].used == hist[n].peak
  {
    if n > 0 {
      PeakReached(hist, ops, n - 1, len);
      var p, r := hist[n - 1], hist[n];
      var x :| 0 <= x <= n - 1 && hist[x].used == p.peak;
      if ops[n - 1].OpAlloc? {
        var name := ops[n - 1].name;
        GrantUsed(p.(stats := WithSlot(p.stats, name)), SlotOf(p.stats, name), Want(ops[n - 1].size));
      }
      assert hist[if r.peak == p.peak then x else n].used == r.peak;
    }
  }

  /** How many of the first n requests were on slot o's account, and met or not. */
  ghost function Tally(hist: seq<Pool>, ops: seq<Op>, n: nat, o: nat, met: bool): nat
    requires |hist| == |ops| + 1 && n <= |ops|
  {
    if n == 0 then 0
    else
      var op := ops[n - 1];
      var counts := op.OpAlloc? && SlotOf(hist[n - 1].stats, op.name) == o &&
                    Allocated(hist[n - 1], op.size).Some? == met;
      Tally(hist, ops, n - 1, o, met) + if counts then 1 else 0
  }

  /** A name's figures are the requests made in it: so many met, so many refused. */
  lemma {:induction false} Tallied(hist: seq<Pool>, ops: seq<Op>, n: nat, len: nat, o: nat)
    requires IsHistory(hist, ops) && len >= HDR + 64 && hist[0] == Init(len) && n <= |ops|
    ensures hist[n].stats != []
    ensures o < |hist[n].stats| ==>
      hist[n].stats[o].allocs == Tally(hist, ops, n, o, true) && hist[n].stats[o].fails == Tally(hist, ops, n, o, false)
    ensures o >= |hist[n].stats| ==> Tally(hist, ops, n, o, true) == 0 && Tally(hist, ops, n, o, false) == 0
  {
    if n > 0 {
      Tallied(hist, ops, n - 1, len, o);
      var p, op := hist[n - 1], ops[n - 1];
      if op.OpAlloc? {
        AllocTally(p, op.size, op.name, o);
      } else {
        FreeTally(p, op.ptr, o);
      }
    }
  }

  /** How many of the first n requests were refused. */
  ghost function Refusals(hist: seq<Pool>, ops: seq<Op>, n: nat): nat
    requires |hist| == |ops| + 1 && n <= |ops|
  {
    if n == 0 then 0
    else
      var op := ops[n - 1];
      Refusals(hist, ops, n - 1) + if op.OpAlloc? && Allocated(hist[n - 1], op.size).None? then 1 else 0
  }

  /** The pool's failures are all of those. */
  lemma {:induction false} FailuresCounted(hist: seq<Pool>, ops: seq<Op>, n: nat, len: nat)
    requires IsHistory(hist, ops) && len >= HDR + 64 && hist[0] == Init(len) && n <= |ops|
    ensures hist[n].fails == Refusals(hist, ops, n)
  {
    if n > 0 {
      FailuresCounted(hist, ops, n - 1, len);
    }
  }

  lemma AllocTally(p: Pool, size: nat, name: string, o: nat)
    requires p.stats != []
    ensures var r, s := Alloc(p, size, name), SlotOf(p.stats, name);
      && |p.stats| <= |r.stats| && s < |r.stats|
      && (o < |r.stats| ==>
            var was := if o < |p.stats| then p.stats[o] else Stat("", 0, 0, 0, 0, 0);
            && r.stats[o].allocs == was.allocs + (if o == s && Allocated(p, size).Some? then 1 else 0)
            && r.stats[o].fails == was.fails + (if o == s && Allocated(p, size).None? then 1 else 0))
  {
  }

  lemma FreeTally(p: Pool, ptr: nat, o: nat)
    ensures var r := Free(p, ptr);
      && |r.stats| == |p.stats|
      && (o < |p.stats| ==> r.stats[o].allocs == p.stats[o].allocs && r.stats[o].fails == p.stats[o].fails)
  {
  }

  /** Block i is free and large enough, and none below it is. */
  predicate LowestFit(bs: seq<Blk>, i: int, want: nat) {
    0 <= i < |bs| && bs[i].free && bs[i].size >= want &&
    forall j :: 0 <= j < i ==> !bs[j].free || bs[j].size < want
  }

  /** An allocation succeeds exactly when its rounded size is at most the
      largest free block; it takes the lowest block that fits. */
  lemma AllocSucceeds(p: Pool, size: nat)
    requires size <= SIZE_RANGE - 64
    ensures Allocated(p, size).Some? <==> Want(size) <= Largest(p.blocks)
    ensures Allocated(p, size).Some? ==>
      exists i :: LowestFit(p.blocks, i, Want(size)) && Allocated(p, size) == Some(Payload(p.blocks, i))
    ensures Max(size, 1) <= Want(size)
  {
    Round64Holds(if size == 0 then 1 else size);
    FitsIffLargest(p.blocks, Want(size));
    var i := FirstFit(p.blocks, Want(size));
    assert i < |p.blocks| ==> LowestFit(p.blocks, i, Want(size));
  }

  /** A size within 63 of the top wraps: it is granted the lowest free block
      there is, cut down to nothing if it can be split and whole if it cannot. */
  lemma HugeAllocWraps(p: Pool, size: nat, name: string)
    requires SIZE_RANGE - 64 < size < SIZE_RANGE && p.stats != []
    ensures Want(size) == 0
    ensures Allocated(p, size).Some? <==> exists i :: 0 <= i < |p.blocks| && p.blocks[i].free
    ensures Allocated(p, size).Some? ==> exists i :: HugeGrant(p, size, name, i)
  {
    Round64Holds(size);
    var i := FirstFit(p.blocks, 0);
    assert i < |p.blocks| ==> HugeGrant(p, size, name, i);
  }

  /** The largest size there is, asked of a fresh pool of 1 KiB: granted, and
      empty. */
  lemma LargestOfAll(name: string)
    ensures Allocated(Init(1024), SIZE_RANGE - 1) == Some(HDR)
    ensures Alloc(Init(1024), SIZE_RANGE - 1, name).blocks[0] == Blk(0, false, SlotOf(Init(1024).stats, name))
  {
    Round64Holds(SIZE_RANGE - 1);
    var p := Init(1024);
    assert p.blocks[0].free && FirstFit(p.blocks, 0) == 0 && p.blocks[..0] == [];
  }

  /** The lowest free block, and what is left of it when it is granted. */
  predicate HugeGrant(p: Pool, size: nat, name: string, i: int)
    requires p.stats != []
  {
    LowestFit(p.blocks, i, 0) && Allocated(p, size) == Some(Payload(p.blocks, i)) &&
    i < |Alloc(p, size, name).blocks| &&
    Alloc(p, size, name).blocks[i].size == if p.blocks[i].size >= HDR + 64 then 0 else p.blocks[i].size
  }

  /** The new payload is the one thing that becomes live. */
  lemma AllocMakesLive(p: Pool, size: nat, name: string, ptr: nat)
    requires Balanced(p)
    ensures Live(Alloc(p, size, name).blocks, ptr) <==> Live(p.blocks, ptr) || Allocated(p, size) == Some(ptr)
  {
    WantRounds(size);
    var i := FirstFit(p.blocks, Want(size));
    if i < |p.blocks| {
      TakeLive(p.blocks, p.len, i, Want(size), SlotOf(p.stats, name), ptr);
    }
  }

  /** Freeing a live payload is the one thing that ends its life; any other
      address changes nothing. */
  lemma FreeEndsLife(p: Pool, ptr: nat, q: nat)
    requires Balanced(p)
    ensures Live(Free(p, ptr).blocks, q) <==> Live(p.blocks, q) && q != ptr
    ensures !Live(p.blocks, ptr) ==> Free(p, ptr) == p
  {
    var i := FindLive(p.blocks, ptr, 0);
    if i < |p.blocks| {
      GiveLive(p.blocks, i, q);
      assert Live(p.blocks, ptr);
    } else {
      assert !Live(p.blocks, ptr);
    }
  }

  /** A repeated free changes nothing. */
  lemma FreeTwice(p: Pool, ptr: nat)
    requires Balanced(p)
    ensures Free(Free(p, ptr), ptr) == Free(p, ptr)
  {
    FreeBalanced(p, ptr);
    FreeEndsLife(p, ptr, ptr);
    FreeEndsLife(Free(p, ptr), ptr, ptr);
  }

  /** Freeing what was just allocated restores the blocks, and the bytes in use. */
  lemma AllocFree(p: Pool, size: nat, name: string)
    requires Balanced(p) && Allocated(p, size).Some?
    ensures var q := Free(Alloc(p, size, name), Allocated(p, size).value);
      q.blocks == p.blocks && q.used == p.used
  {
    WantRounds(size);
    var i, o := FirstFit(p.blocks, Want(size)), SlotOf(p.stats, name);
    var a := Alloc(p, size, name);
    TakeTiles(p.blocks, p.len, i, Want(size), o);
    TakeGive(p.blocks, p.len, i, Want(size), o);
    assert LiveBlock(a.blocks, i, Allocated(p, size).value);
    var k := FindLive(a.blocks, Allocated(p, size).value, 0);
    if k < |a.blocks| {
      OffsetsDistinct(a.blocks, i, k);
    }
  }

  function FreeEach(p: Pool, order: seq<nat>): Pool
    decreases order
  {
    if order == [] then p else FreeEach(Free(p, order[0]), order[1..])
  }

  lemma NothingLive(p: Pool)
    requires Balanced(p) && forall q :: !Live(p.blocks, q)
    ensures p.used == 0 && p.len >= HDR && p.blocks == [Blk(p.len - HDR, true, 0)]
  {
    forall i | 0 <= i < |p.blocks| ensures p.blocks[i].free {
      if !p.blocks[i].free {
        assert LiveBlock(p.blocks, i, Payload(p.blocks, i));
        assert Live(p.blocks, Payload(p.blocks, i));
        assert false;
      }
    }
    AllFreeIsOne(p.blocks, p.len);
    TotalFree(p.blocks, UsedBytes);
  }

  lemma StillLive(p: Pool, order: seq<nat>)
    requires Balanced(p) && order != [] && forall q :: Live(p.blocks, q) ==> q in order
    ensures forall q :: Live(Free(p, order[0]).blocks, q) ==> q in order[1..]
  {
    forall q | Live(Free(p, order[0]).blocks, q) ensures q in order[1..] {
      FreeEndsLife(p, order[0], q);
    }
  }

  /** The first of them freed, and what that leaves to do. */
  lemma FreeFirst(p: Pool, order: seq<nat>) returns (n: Pool)
    requires Balanced(p) && order != [] && forall q :: Live(p.blocks, q) ==> q in order
    ensures Balanced(n) && n.len == p.len && forall q :: Live(n.blocks, q) ==> q in order[1..]
    ensures FreeEach(p, order) == FreeEach(n, order[1..])
  {
    n := Free(p, order[0]);
    FreeBalanced(p, order[0]);
    StillLive(p, order);
  }

  ghost predicate Emptied(p: Pool, len: nat) {
    Balanced(p) && p.len == len && forall q :: !Live(p.blocks, q)
  }

  lemma {:induction false} FreeEachEmpties(p: Pool, order: seq<nat>)
    requires Balanced(p) && forall q :: Live(p.blocks, q) ==> q in order
    ensures Emptied(FreeEach(p, order), p.len)
    decreases order
  {
    if order != [] {
      var n := FreeFirst(p, order);
      FreeEachEmpties(n, order[1..]);
    }
  }

  /** Every live payload freed, in whatever order, leaves the one block the
      pool began with. */
  lemma FreeAll(p: Pool, order: seq<nat>)
    requires Balanced(p) && forall q :: Live(p.blocks, q) ==> q in order
    ensures FreeEach(p, order).used == 0
    ensures p.len >= HDR && FreeEach(p, order).blocks == [Blk(p.len - HDR, true, 0)]
  {
    FreeEachEmpties(p, order);
    NothingLive(FreeEach(p, order));
  }
}
