/**
 MAC sync: the sender's list cut into chunks, the receiver's reassembly, and
 what `apply_sync` then makes of the entries installed in the chip.
 */
module MlagSync {
  import opened MlagFrame

  const MAX_SYNC := 4096

  // ----- chunks out -----

  /** How many frames a list of n takes; an empty one still takes a frame. */
  function Chunks(n: nat): nat {
    if n == 0 then 1 else (n + PER_FRAME - 1) / PER_FRAME
  }

  function Min(a: nat, b: nat): nat { if a < b then a else b }

  function ChunkOf(mine: seq<Smac>, c: nat): seq<Smac>
    requires c < Chunks(|mine|)
  {
    var first := Min(c * PER_FRAME, |mine|);
    mine[first..Min(first + PER_FRAME, |mine|)]
  }

  /** Chunk c of the list, as the hello that carries it says. */
  function ChunkHello(h: Hello, mine: seq<Smac>, gen: nat, c: nat): Hello
    requires c < Chunks(|mine|) && |mine| <= MAX_SYNC
  {
    h.(gen := gen % 0x1_0000, chunk := c, chunks := Chunks(|mine|), macs := ChunkOf(mine, c))
  }

  predicate ListFits(mine: seq<Smac>) {
    |mine| <= MAX_SYNC && forall i :: 0 <= i < |mine| ==> SmacFits(mine[i])
  }

  /** Every chunk is a hello the frame can hold. */
  lemma ChunkFits(h: Hello, mine: seq<Smac>, gen: nat, c: nat)
    requires HelloFits(h) && ListFits(mine) && c < Chunks(|mine|)
    ensures HelloFits(ChunkHello(h, mine, gen, c))
  {
  }

  /** send_frames: the frames of one generation, in order. */
  method SendFrames(h: Hello, mine: seq<Smac>, gen: nat) returns (frames: seq<seq<Byte>>)
    requires HelloFits(h) && ListFits(mine)
    ensures |frames| == Chunks(|mine|)
    ensures forall c :: 0 <= c < |frames| ==>
      HelloFits(ChunkHello(h, mine, gen, c)) && frames[c] == Frame(ChunkHello(h, mine, gen, c))
  {
    frames := [];
    var f := new Byte[1500](_ => 0);
    var chunks := Chunks(|mine|);
    for c := 0 to chunks
      invariant |frames| == c
      invariant forall i :: 0 <= i < c ==>
        HelloFits(ChunkHello(h, mine, gen, i)) && frames[i] == Frame(ChunkHello(h, mine, gen, i))
    {
      ChunkFits(h, mine, gen, c);
      var len := BuildFrame(f, ChunkHello(h, mine, gen, c));
      frames := frames + [f[..len]];
    }
  }

  // ----- chunks in -----

  /** The set being received: its generation, whether it is complete, and the
      MACs so far. */
  datatype Rx = Rx(gen: nat, complete: bool, macs: seq<Smac>)

  /** mlag_rx's part in it. A chunk 0 starts a new set; others count only for
      the set under way. */
  function RxChunk(r: Rx, h: Hello): Rx {
    var r0 := if h.chunk == 0 then Rx(h.gen, false, []) else r;
    if h.gen == r0.gen && !r0.complete then
      Rx(r0.gen, h.chunk + 1 == h.chunks, r0.macs + h.macs[..Min(|h.macs|, MAX_SYNC - Min(|r0.macs|, MAX_SYNC))])
    else r0
  }

  /** A frame off the wire. */
  function RxFrame(r: Rx, f: seq<Byte>): Rx {
    match Parse(f)
    case Whole(h) => RxChunk(r, h)
    case NoMacs(h) => if h.chunk == 0 then Rx(h.gen, false, []) else r
    case _ => r
  }

  function RxAll(r: Rx, frames: seq<seq<Byte>>): Rx {
    if frames == [] then r else RxFrame(RxAll(r, frames[..|frames| - 1]), frames[|frames| - 1])
  }

  /** The first c chunks are the list's first c * PER_FRAME entries. */
  lemma ChunkJoins(mine: seq<Smac>, c: nat)
    requires c < Chunks(|mine|)
    ensures mine[..Min(c * PER_FRAME, |mine|)] + ChunkOf(mine, c) == mine[..Min((c + 1) * PER_FRAME, |mine|)]
    ensures c + 1 == Chunks(|mine|) ==> Min((c + 1) * PER_FRAME, |mine|) == |mine|
  {
    assert (c + 1) * PER_FRAME == c * PER_FRAME + PER_FRAME;
  }

  /** What has arrived after n chunks. */
  function Arrived(mine: seq<Smac>, gen: nat, n: nat): Rx {
    Rx(gen % 0x1_0000, n == Chunks(|mine|), mine[..Min(n * PER_FRAME, |mine|)])
  }

  lemma RxOwnFrame(r: Rx, m: Hello)
    requires HelloFits(m)
    ensures RxFrame(r, Frame(m)) == RxChunk(r, m)
  {
    ParseBuilt(m, []);
    assert Frame(m) + [] == Frame(m);
  }

  /** The next chunk of the set under way -- or a chunk 0, over anything. */
  lemma NextChunk(r: Rx, h: Hello, mine: seq<Smac>, gen: nat, c: nat)
    requires |mine| <= MAX_SYNC && c < Chunks(|mine|)
    requires c > 0 ==> r == Arrived(mine, gen, c)
    ensures RxChunk(r, ChunkHello(h, mine, gen, c)) == Arrived(mine, gen, c + 1)
  {
    ChunkJoins(mine, c);
    var m, got := ChunkOf(mine, c), mine[..Min(c * PER_FRAME, |mine|)];
    assert |got| + |m| <= |mine| && m[..|m|] == m;
    assert c == 0 ==> got == [] && [] + m == m;
  }

  /** Received in order and without loss, whatever was received before, the
      chunks reassemble to the sender's list, complete at the last and not before. */
  lemma {:induction false} Reassembled(r: Rx, h: Hello, mine: seq<Smac>, gen: nat, frames: seq<seq<Byte>>, n: nat)
    requires HelloFits(h) && ListFits(mine) && 0 < n <= |frames| == Chunks(|mine|)
    requires forall c :: 0 <= c < |frames| ==>
      HelloFits(ChunkHello(h, mine, gen, c)) && frames[c] == Frame(ChunkHello(h, mine, gen, c))
    ensures RxAll(r, frames[..n]) == Arrived(mine, gen, n)
    ensures n == |frames| ==> frames[..n] == frames && Arrived(mine, gen, n) == Rx(gen % 0x1_0000, true, mine)
  {
    var c := n - 1;
    var before := RxAll(r, frames[..c]);
    RxAllLast(r, frames, n);
    if c > 0 {
      Reassembled(r, h, mine, gen, frames, c);
    }
    RxOwnFrame(before, ChunkHello(h, mine, gen, c));
    NextChunk(before, h, mine, gen, c);
    AllArrived(mine, gen);
    assert frames[..|frames|] == frames;
  }

  lemma RxAllLast(r: Rx, frames: seq<seq<Byte>>, n: nat)
    requires 0 < n <= |frames|
    ensures RxAll(r, frames[..n]) == RxFrame(RxAll(r, frames[..n - 1]), frames[n - 1])
  {
    assert frames[..n][..n - 1] == frames[..n - 1] && frames[..n][n - 1] == frames[n - 1];
  }

  lemma AllArrived(mine: seq<Smac>, gen: nat)
    requires |mine| <= MAX_SYNC
    ensures Arrived(mine, gen, Chunks(|mine|)) == Rx(gen % 0x1_0000, true, mine)
  {
    ChunkJoins(mine, Chunks(|mine|) - 1);
    assert mine[..|mine|] == mine;
  }

  // ----- applied -----

  /** What smac_find compares: the MAC and the VLAN, not the MLAG id. */
  datatype Key = Key(mac: seq<Byte>, vid: nat)

  function KeyOf(m: Smac): Key {
    Key(m.mac, m.vid)
  }

  ghost function Keys(s: seq<Smac>): set<Key> {
    set i | 0 <= i < |s| :: KeyOf(s[i])
  }

  ghost predicate DistinctKeys(s: seq<Smac>) {
    forall i, j :: 0 <= i < j < |s| ==> KeyOf(s[i]) != KeyOf(s[j])
  }

  method Find(s: seq<Smac>, m: Smac) returns (at: int)
    ensures -1 <= at < |s|
    ensures at >= 0 ==> KeyOf(s[at]) == KeyOf(m)
    ensures at < 0 <==> KeyOf(m) !in Keys(s)
  {
    for i := 0 to |s|
      invariant forall j :: 0 <= j < i ==> KeyOf(s[j]) != KeyOf(m)
    {
      if KeyOf(s[i]) == KeyOf(m) {
        return i;
      }
    }
    return -1;
  }

  lemma SubsetCount(a: set<Key>, b: set<Key>)
    requires a <= b
    ensures |a| <= |b|
  {
    if a != {} {
      var k :| k in a;
      SubsetCount(a - {k}, b - {k});
    }
  }

  lemma {:induction false} KeysCount(s: seq<Smac>)
    requires DistinctKeys(s)
    ensures |Keys(s)| == |s|
  {
    if s != [] {
      var t, k := s[..|s| - 1], KeyOf(s[|s| - 1]);
      KeysCount(t);
      KeysSnoc(s);
      assert k !in Keys(t);
    }
  }

  lemma {:induction false} KeysBound(s: seq<Smac>)
    ensures |Keys(s)| <= |s|
  {
    if s != [] {
      KeysBound(s[..|s| - 1]);
      KeysSnoc(s);
    }
  }

  lemma KeysSnoc(s: seq<Smac>)
    requires s != []
    ensures Keys(s) == Keys(s[..|s| - 1]) + {KeyOf(s[|s| - 1])}
  {
    var t := s[..|s| - 1];
    forall k | k in Keys(s) ensures k in Keys(t) + {KeyOf(s[|s| - 1])} {
      var i :| 0 <= i < |s| && k == KeyOf(s[i]);
      assert i < |t| ==> t[i] == s[i];
    }
    forall k | k in Keys(t) ensures k in Keys(s) {
      var i :| 0 <= i < |t| && k == KeyOf(t[i]);
      assert s[i] == t[i];
    }
  }

  /** Where an address is reached from here: the trunk of this switch's half,
      or the peer-link. An id with no destination cannot be installed. */
  type Dest = nat

  /** Only entries of the list wanted have been added, at the end. */
  ghost predicate Grown(was: seq<Smac>, now: seq<Smac>, want: seq<Smac>) {
    |was| <= |now| && now[..|was|] == was && forall j :: |was| <= j < |now| ==> now[j] in want
  }

  lemma GrownMore(was: seq<Smac>, now: seq<Smac>, w: Smac, want: seq<Smac>)
    requires Grown(was, now, want) && w in want
    ensures Grown(was, now + [w], want)
  {
    assert (now + [w])[..|was|] == now[..|was|];
  }

  /** The chip sends the first i addresses wanted where they are reached. */
  ghost predicate Pointed(chip: map<Key, Dest>, want: seq<Smac>, dests: map<nat, Dest>, i: nat) {
    forall j {:trigger want[j]} :: 0 <= j < i && j < |want| && want[j].id in dests ==>
      KeyOf(want[j]) in chip && chip[KeyOf(want[j])] == dests[want[j].id]
  }

  lemma PointedNext(chip: map<Key, Dest>, want: seq<Smac>, dests: map<nat, Dest>, i: nat)
    requires DistinctKeys(want) && i < |want| && want[i].id in dests && Pointed(chip, want, dests, i)
    ensures Pointed(chip[KeyOf(want[i]) := dests[want[i].id]], want, dests, i + 1)
  {
  }

  /** apply_sync's table of installed entries, and the chip's own. */
  class SyncTable {
    const installed: array<Smac>
    var n: nat
    var chip: map<Key, Dest>

    ghost predicate Valid()
      reads this, installed
    {
      n <= installed.Length == MAX_SYNC && DistinctKeys(installed[..n]) && chip.Keys == Keys(installed[..n])
    }

    constructor ()
      ensures Valid() && fresh(installed) && n == 0 && chip == map[]
    {
      installed := new Smac[MAX_SYNC](_ => Smac([], 0, 0));
      n, chip := 0, map[];
    }

    /** An entry out of the chip, the last one taking its place. */
    method RemoveAt(i: nat)
      requires Valid() && i < n
      modifies this, installed
      ensures Valid() && n == old(n) - 1
      ensures installed[..n] == old(installed[..n])[i := old(installed[n - 1])][..n]
      ensures Keys(installed[..n]) == old(Keys(installed[..n])) - {old(KeyOf(installed[i]))}
      ensures chip == old(chip) - {old(KeyOf(installed[i]))}
    {
      ghost var before := installed[..n];
      Swapped(before, i);
      chip := chip - {KeyOf(installed[i])};
      installed[i] := installed[n - 1];
      n := n - 1;
      assert installed[..n] == before[i := before[n]][..n];
    }

    /** The first i of what is left are listed; nothing listed has gone. */
    ghost predicate Withdrawing(was: seq<Smac>, chip0: map<Key, Dest>, want: seq<Smac>, i: nat)
      reads this, installed
    {
      i <= n && Valid() && (forall m :: m in installed[..n] ==> m in was) &&
      (forall j :: 0 <= j < i ==> KeyOf(installed[j]) in Keys(want)) &&
      Keys(was) * Keys(want) <= Keys(installed[..n]) <= Keys(was) &&
      forall k :: k in chip ==> k in chip0 && chip[k] == chip0[k]
    }

    method WithdrawOne(ghost was: seq<Smac>, ghost chip0: map<Key, Dest>, ghost want: seq<Smac>, i: nat)
      requires i < n && Withdrawing(was, chip0, want, i) && KeyOf(installed[i]) !in Keys(want)
      modifies this, installed
      ensures Withdrawing(was, chip0, want, i) && n == old(n) - 1
    {
      ghost var before := installed[..n];
      Swapped(before, i);
      RemoveAt(i);
      assert forall j :: 0 <= j < i ==> installed[..n][j] == before[j];
    }

    /** What the peer no longer lists goes. */
    method Withdraw(want: seq<Smac>)
      requires Valid()
      modifies this, installed
      ensures Valid()
      ensures Keys(installed[..n]) == old(Keys(installed[..n])) * Keys(want)
      ensures forall m :: m in installed[..n] ==> m in old(installed[..n])
      ensures forall k :: k in chip ==> k in old(chip) && chip[k] == old(chip[k])
    {
      ghost var was, chip0 := installed[..n], chip;
      var i := 0;
      while i < n
        invariant Withdrawing(was, chip0, want, i)
        decreases n - i
      {
        var at := Find(want, installed[i]);
        if at < 0 {
          WithdrawOne(was, chip0, want, i);
        } else {
          i := i + 1;
        }
      }
      KeysWithin(installed[..n], want);
    }

    /** An address the chip has been given, recorded unless it is already. */
    method Record(w: Smac, ghost want: seq<Smac>)
      requires n <= installed.Length == MAX_SYNC && DistinctKeys(installed[..n]) && |want| <= MAX_SYNC
      requires Keys(installed[..n]) <= Keys(want) && w in want
      modifies this`n, installed
      ensures n <= MAX_SYNC && DistinctKeys(installed[..n])
      ensures Keys(installed[..n]) == old(Keys(installed[..n])) + {KeyOf(w)}
      ensures installed[..n] == old(installed[..n]) || installed[..n] == old(installed[..n]) + [w]
    {
      var at := Find(installed[..n], w);
      if at < 0 {
        Room(installed[..n], w, want);
        ghost var before := installed[..n];
        installed[n] := w;
        n := n + 1;
        assert installed[..n] == before + [w];
        KeysSnoc(before + [w]);
        assert (before + [w])[..|before|] == before;
      }
    }

    /** The first i of the list are in. */
    ghost predicate Installing(was: seq<Smac>, want: seq<Smac>, dests: map<nat, Dest>, i: nat)
      requires i <= |want|
      reads this, installed
    {
      Valid() && Grown(was, installed[..n], want) && Keys(installed[..n]) <= Keys(want) &&
      Keys(installed[..n]) == Keys(was) + Reachable(want[..i], dests) &&
      (DistinctKeys(want) ==> Pointed(chip, want, dests, i))
    }

    method InstallOne(want: seq<Smac>, dests: map<nat, Dest>, i: nat, ghost was: seq<Smac>)
      requires |want| <= MAX_SYNC && i < |want| && Installing(was, want, dests, i)
      modifies this, installed
      ensures Installing(was, want, dests, i + 1)
    {
      var w := want[i];
      InKeys(want, w);
      ReachableSnoc(want, dests, i);
      if w.id in dests {
        if DistinctKeys(want) {
          PointedNext(chip, want, dests, i);
        }
        GrownMore(was, installed[..n], w, want);
        chip := chip[KeyOf(w) := dests[w.id]];
        Record(w, want);
      }
    }

    /** What the peer lists is installed, and recorded once. */
    method Install(want: seq<Smac>, dests: map<nat, Dest>)
      requires Valid() && |want| <= MAX_SYNC && Keys(installed[..n]) <= Keys(want)
      modifies this, installed
      ensures Valid() && Grown(old(installed[..n]), installed[..n], want)
      ensures Keys(installed[..n]) == old(Keys(installed[..n])) + Reachable(want, dests)
      ensures DistinctKeys(want) ==> Pointed(chip, want, dests, |want|)
    {
      ghost var was := installed[..n];
      for i := 0 to |want|
        invariant Installing(was, want, dests, i)
      {
        InstallOne(want, dests, i, was);
      }
      assert want[..|want|] == want;
    }

    /** apply_sync, for a complete set. */
    method ApplySync(want: seq<Smac>, dests: map<nat, Dest>)
      requires Valid() && |want| <= MAX_SYNC
      modifies this, installed
      ensures Valid()
      ensures Keys(installed[..n]) == old(Keys(installed[..n])) * Keys(want) + Reachable(want, dests)
      ensures Reachable(want, dests) == Keys(want) ==> Keys(installed[..n]) == Keys(want) == chip.Keys
      ensures KeptOrListed(old(installed[..n]), installed[..n], want)
      ensures DistinctKeys(want) ==> Pointed(chip, want, dests, |want|)
    {
      ghost var was := installed[..n];
      Withdraw(want);
      ghost var kept := installed[..n];
      Install(want, dests);
      assert kept <= installed[..n];
      KeptOrNew(was, kept, installed[..n], want);
    }
  }

  /** An entry whose key was installed before is the one installed before,
      MLAG id and all; any other is as the peer lists it. */
  ghost predicate KeptOrListed(was: seq<Smac>, now: seq<Smac>, want: seq<Smac>) {
    forall i :: 0 <= i < |now| ==> if KeyOf(now[i]) in Keys(was) then now[i] in was else now[i] in want
  }

  lemma KeptOrNew(was: seq<Smac>, kept: seq<Smac>, now: seq<Smac>, want: seq<Smac>)
    requires kept <= now && DistinctKeys(now) && Keys(kept) == Keys(was) * Keys(want)
    requires forall m :: m in kept ==> m in was
    requires forall i :: |kept| <= i < |now| ==> now[i] in want
    ensures KeptOrListed(was, now, want)
  {
    forall i | 0 <= i < |now| ensures if KeyOf(now[i]) in Keys(was) then now[i] in was else now[i] in want {
      if i < |kept| {
        assert now[i] == kept[i];
        InKeys(was, kept[i]);
      } else {
        InKeys(want, now[i]);
        NotAgain(kept, now, i);
      }
    }
  }

  /** The keys that can be installed: listed with an id that has a destination. */
  ghost function Reachable(want: seq<Smac>, dests: map<nat, Dest>): set<Key> {
    set i | 0 <= i < |want| && want[i].id in dests :: KeyOf(want[i])
  }

  lemma ReachableSnoc(want: seq<Smac>, dests: map<nat, Dest>, i: nat)
    requires i < |want|
    ensures Reachable(want[..i + 1], dests) ==
            Reachable(want[..i], dests) + (if want[i].id in dests then {KeyOf(want[i])} else {})
  {
    var a, b := want[..i], want[..i + 1];
    forall k | k in Reachable(a, dests) ensures k in Reachable(b, dests) {
      var j :| 0 <= j < |a| && a[j].id in dests && k == KeyOf(a[j]);
      assert b[j] == a[j];
    }
    forall k | k in Reachable(b, dests)
      ensures k in Reachable(a, dests) || (want[i].id in dests && k == KeyOf(want[i]))
    {
      var j :| 0 <= j < |b| && b[j].id in dests && k == KeyOf(b[j]);
      assert j < i ==> a[j] == b[j];
    }
    assert b[i] == want[i];
  }

  lemma InKeys(s: seq<Smac>, m: Smac)
    requires m in s
    ensures KeyOf(m) in Keys(s)
  {
    var i :| 0 <= i < |s| && s[i] == m;
  }

  lemma KeysWithin(s: seq<Smac>, want: seq<Smac>)
    requires forall i :: 0 <= i < |s| ==> KeyOf(s[i]) in Keys(want)
    ensures Keys(s) <= Keys(want)
  {
  }

  lemma NotAgain(kept: seq<Smac>, now: seq<Smac>, i: nat)
    requires kept <= now && DistinctKeys(now) && |kept| <= i < |now|
    ensures KeyOf(now[i]) !in Keys(kept)
  {
    forall j | 0 <= j < |kept| ensures KeyOf(kept[j]) != KeyOf(now[i]) {
      assert now[j] == kept[j];
    }
  }

  /** Replacing an entry by the last, and dropping the last, removes its key alone. */
  lemma Swapped(s: seq<Smac>, i: nat)
    requires i < |s| && DistinctKeys(s)
    ensures var t := s[i := s[|s| - 1]][..|s| - 1];
      DistinctKeys(t) && Keys(t) == Keys(s) - {KeyOf(s[i])} && forall m :: m in t ==> m in s
  {
    var last := |s| - 1;
    var t := s[i := s[last]][..last];
    forall k | k in Keys(s) && k != KeyOf(s[i]) ensures k in Keys(t) {
      var j :| 0 <= j < |s| && k == KeyOf(s[j]);
      if j == last {
        assert t[i] == s[last];
      } else {
        assert t[j] == s[j];
      }
    }
    forall k | k in Keys(t) ensures k in Keys(s) && k != KeyOf(s[i]) {
      var j :| 0 <= j < |t| && k == KeyOf(t[j]);
      assert t[j] == if j == i then s[last] else s[j];
    }
  }

  /** A listed key not yet recorded finds room. */
  lemma Room(s: seq<Smac>, w: Smac, want: seq<Smac>)
    requires DistinctKeys(s) && Keys(s) <= Keys(want) && w in want && KeyOf(w) !in Keys(s) && |want| <= MAX_SYNC
    ensures |s| < MAX_SYNC
    ensures DistinctKeys(s + [w])
  {
    InKeys(want, w);
    var t := s + [w];
    forall i | 0 <= i < |s| ensures KeyOf(s[i]) != KeyOf(w) {
      InKeys(s, s[i]);
    }
    KeysSnoc(t);
    assert t[..|s|] == s;
    KeysCount(t);
    KeysBound(want);
    SubsetCount(Keys(t), Keys(want));
  }

  /** The recorded entries are all as the peer lists them exactly when no key
      that stayed had its MLAG id changed: smac_find looks at the key alone. */
  lemma IdsFollow(was: seq<Smac>, now: seq<Smac>, want: seq<Smac>)
    requires DistinctKeys(was) && Keys(now) == Keys(want) && KeptOrListed(was, now, want)
    ensures (forall i :: 0 <= i < |now| ==> now[i] in want) <==>
            (forall m :: m in was && KeyOf(m) in Keys(want) ==> m in want)
  {
    forall i | 0 <= i < |now| ensures KeyOf(now[i]) in Keys(want) {
      InKeys(now, now[i]);
    }
    if forall i :: 0 <= i < |now| ==> now[i] in want {
      forall m | m in was && KeyOf(m) in Keys(want) ensures m in want {
        var k := KeyOf(m);
        var i :| 0 <= i < |now| && k == KeyOf(now[i]);
        InKeys(was, m);
        SameEntry(was, m, now[i]);
      }
    }
  }

  lemma SameEntry(s: seq<Smac>, a: Smac, b: Smac)
    requires DistinctKeys(s) && a in s && b in s && KeyOf(a) == KeyOf(b)
    ensures a == b
  {
    var i :| 0 <= i < |s| && s[i] == a;
    var j :| 0 <= j < |s| && s[j] == b;
    assert i == j;
  }

  /** An address installed for one id and listed for another: it stays for the
      first. */
  method StaleId() returns (t: SyncTable, want: seq<Smac>)
    ensures fresh(t) && t.Valid() && Keys(t.installed[..t.n]) == Keys(want)
    ensures exists i :: 0 <= i < t.n && t.installed[i] !in want
  {
    var mac: seq<Byte> := [2, 0, 0, 0, 0, 1];
    var first, second := Smac(mac, 10, 1), Smac(mac, 10, 2);
    t := new SyncTable();
    AllReachable(first);
    t.ApplySync([first], map[1 := 5, 2 := 6]);
    ghost var was := t.installed[..t.n];
    want := [second];
    AllReachable(second);
    SameKey(first, second);
    t.ApplySync(want, map[1 := 5, 2 := 6]);
    StaysStale(was, t.installed[..t.n], first, second);
  }

  lemma AllReachable(m: Smac)
    requires m.id == 1 || m.id == 2
    ensures Reachable([m], map[1 := 5, 2 := 6]) == Keys([m]) == {KeyOf(m)}
  {
    InKeys([m], m);
    assert [m][0] == m;
  }

  lemma SameKey(a: Smac, b: Smac)
    requires a.mac == b.mac && a.vid == b.vid
    ensures Keys([a]) == Keys([b])
  {
    InKeys([a], a);
    InKeys([b], b);
  }

  lemma StaysStale(was: seq<Smac>, now: seq<Smac>, first: Smac, second: Smac)
    requires first != second && KeyOf(first) == KeyOf(second)
    requires KeptOrListed(was, now, [second]) && Keys(now) == Keys([second]) && Keys(was) == Keys([first])
    requires forall m :: m in was ==> m == first
    ensures exists i :: 0 <= i < |now| && now[i] !in [second]
  {
    assert KeyOf([second][0]) in Keys([second]);
    var i :| 0 <= i < |now| && KeyOf(now[i]) == KeyOf(second);
    assert KeyOf([first][0]) in Keys([first]);
    assert KeyOf(now[i]) in Keys(was) && now[i] in was;
  }
}
