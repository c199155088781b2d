/**
 MLAG control frames, byte by byte: a hello with one chunk of the MAC list.
 `BuildFrame` fills the transmit buffer the way send_frames does; `Parse`
 reads a received frame the way mlag_rx does; `ParseBuilt` is the round trip.
 */
module MlagFrame {

  type Byte = x: nat | x < 256

  datatype Smac = Smac(mac: seq<Byte>, vid: nat, id: nat)
  datatype IfEntry = IfEntry(id: nat, up: Byte, ack: Byte)

  datatype Hello = Hello(
    prio: nat, mac: seq<Byte>, sys: seq<Byte>, ifs: seq<IfEntry>,
    gen: nat, chunk: Byte, chunks: Byte, macs: seq<Smac>)

  const PER_FRAME := 120
  const MAX_LAGS := 64
  const CTL_DA: seq<Byte> := [0x01, 0x80, 0xc2, 0x00, 0x00, 0x0e]
  const MAGIC: seq<Byte> := [0x4e, 0x4d, 0x4c, 0x47]   // "NMLG"

  predicate Fits16(v: nat) { v < 0x1_0000 }

  predicate SmacFits(m: Smac) {
    |m.mac| == 6 && Fits16(m.vid) && Fits16(m.id)
  }

  /** What a sender can say: sixteen-bit fields, at most 64 LAGs and a chunk of MACs. */
  predicate HelloFits(h: Hello) {
    Fits16(h.prio) && |h.mac| == 6 && |h.sys| == 6 && |h.ifs| <= MAX_LAGS &&
    (forall i :: 0 <= i < |h.ifs| ==> Fits16(h.ifs[i].id)) && Fits16(h.gen) &&
    |h.macs| <= PER_FRAME && forall i :: 0 <= i < |h.macs| ==> SmacFits(h.macs[i])
  }

  // ----- the bytes -----

  function Put16(v: nat): (s: seq<Byte>)
    requires Fits16(v)
    ensures |s| == 2 && Get16(s, 0) == v
  {
    [v / 256, v % 256]
  }

  function Get16(s: seq<Byte>, i: nat): nat
    requires i + 2 <= |s|
  {
    var hi: nat, lo: nat := s[i], s[i + 1];
    hi * 256 + lo
  }

  function IfBytes(e: IfEntry): (s: seq<Byte>)
    requires Fits16(e.id)
    ensures |s| == 4
  {
    Put16(e.id) + [e.up, e.ack]
  }

  function IfsBytes(es: seq<IfEntry>): (s: seq<Byte>)
    requires forall i :: 0 <= i < |es| ==> Fits16(es[i].id)
    ensures |s| == 4 * |es|
  {
    if es == [] then [] else IfsBytes(es[..|es| - 1]) + IfBytes(es[|es| - 1])
  }

  function SmacBytes(m: Smac): (s: seq<Byte>)
    requires SmacFits(m)
    ensures |s| == 10
  {
    m.mac + Put16(m.vid) + Put16(m.id)
  }

  function SmacsBytes(ms: seq<Smac>): (s: seq<Byte>)
    requires forall i :: 0 <= i < |ms| ==> SmacFits(ms[i])
    ensures |s| == 10 * |ms|
  {
    if ms == [] then [] else SmacsBytes(ms[..|ms| - 1]) + SmacBytes(ms[|ms| - 1])
  }

  /** Destination, source and type. */
  function EtherBytes(h: Hello): (s: seq<Byte>)
    requires HelloFits(h)
    ensures |s| == 14
  {
    CTL_DA + h.mac + [0x88, 0xb5]
  }

  /** Magic, version 2, priority, MAC, system id: 20 bytes. */
  function HeadBytes(h: Hello): (s: seq<Byte>)
    requires HelloFits(h)
    ensures |s| == 20
  {
    MAGIC + [2, 0] + Put16(h.prio) + h.mac + h.sys
  }

  function ChunkBytes(h: Hello): (s: seq<Byte>)
    requires HelloFits(h)
    ensures |s| == 6
  {
    Put16(h.gen) + [h.chunk, h.chunks] + Put16(|h.macs|)
  }

  function Payload(h: Hello): (s: seq<Byte>)
    requires HelloFits(h)
    ensures |s| == 28 + 4 * |h.ifs| + 10 * |h.macs|
  {
    HeadBytes(h) + Put16(|h.ifs|) + IfsBytes(h.ifs) + ChunkBytes(h) + SmacsBytes(h.macs)
  }

  function Frame(h: Hello): (s: seq<Byte>)
    requires HelloFits(h)
    ensures |s| == 42 + 4 * |h.ifs| + 10 * |h.macs|
    ensures |s| <= 1498
  {
    EtherBytes(h) + Payload(h)
  }

  // ----- building -----

  method CopyIn(f: array<Byte>, at: nat, s: seq<Byte>)
    requires at + |s| <= f.Length
    modifies f
    ensures f[..at] == old(f[..at]) && f[at..at + |s|] == s && f[at + |s|..] == old(f[at + |s|..])
    ensures f[..at + |s|] == old(f[..at]) + s
  {
    for i := 0 to |s|
      invariant forall j :: 0 <= j < f.Length ==>
        f[j] == if at <= j < at + i then s[j - at] else old(f[j])
    {
      f[at + i] := s[i];
    }
  }

  method Append(f: array<Byte>, at: nat, s: seq<Byte>) returns (len: nat)
    requires at + |s| <= f.Length
    modifies f
    ensures len == at + |s| && f[..len] == old(f[..at]) + s
  {
    CopyIn(f, at, s);
    len := at + |s|;
  }

  method AppendIfs(f: array<Byte>, at: nat, ifs: seq<IfEntry>) returns (len: nat)
    requires at + 4 * |ifs| <= f.Length && forall i :: 0 <= i < |ifs| ==> Fits16(ifs[i].id)
    modifies f
    ensures len == at + 4 * |ifs| && f[..len] == old(f[..at]) + IfsBytes(ifs)
  {
    len := at;
    for k := 0 to |ifs|
      invariant len == at + 4 * k && f[..len] == old(f[..at]) + IfsBytes(ifs[..k])
    {
      assert ifs[..k + 1][..k] == ifs[..k];
      len := Append(f, len, IfBytes(ifs[k]));
    }
    assert ifs[..|ifs|] == ifs;
  }

  method AppendSmacs(f: array<Byte>, at: nat, macs: seq<Smac>) returns (len: nat)
    requires at + 10 * |macs| <= f.Length && forall i :: 0 <= i < |macs| ==> SmacFits(macs[i])
    modifies f
    ensures len == at + 10 * |macs| && f[..len] == old(f[..at]) + SmacsBytes(macs)
  {
    len := at;
    for i := 0 to |macs|
      invariant len == at + 10 * i && f[..len] == old(f[..at]) + SmacsBytes(macs[..i])
    {
      assert macs[..i + 1][..i] == macs[..i];
      len := Append(f, len, SmacBytes(macs[i]));
    }
    assert macs[..|macs|] == macs;
  }

  /** One frame into the transmit buffer; never past byte 1498 of its 1500. */
  method BuildFrame(f: array<Byte>, h: Hello) returns (len: nat)
    requires f.Length == 1500 && HelloFits(h)
    modifies f
    ensures len <= 1498 && f[..len] == Frame(h)
  {
    len := Append(f, 0, EtherBytes(h));
    len := Append(f, len, HeadBytes(h));
    len := Append(f, len, Put16(|h.ifs|));
    len := AppendIfs(f, len, h.ifs);
    len := Append(f, len, ChunkBytes(h));
    len := AppendSmacs(f, len, h.macs);
    Joined(EtherBytes(h), HeadBytes(h), Put16(|h.ifs|), IfsBytes(h.ifs), ChunkBytes(h), SmacsBytes(h.macs));
  }

  lemma Joined(a: seq<Byte>, b: seq<Byte>, c: seq<Byte>, d: seq<Byte>, e: seq<Byte>, f: seq<Byte>)
    ensures [] + a + b + c + d + e + f == a + (b + c + d + e + f)
  {
  }

  // ----- parsing -----

  /** Bytes an interface takes: version 1 has no acknowledgement, and is taken
      as always having given it. */
  function IfSize(version: Byte): nat {
    if version >= 2 then 4 else 3
  }

  function ReadIf(p: seq<Byte>, at: nat, version: Byte): IfEntry
    requires at + IfSize(version) <= |p|
  {
    if version >= 2 then IfEntry(Get16(p, at), p[at + 2], p[at + 3])
    else IfEntry(Get16(p, at), if p[at + 2] != 0 then 2 else 0, 1)
  }

  function ReadSmac(p: seq<Byte>, at: nat): Smac
    requires at + 10 <= |p|
  {
    Smac(p[at..at + 6], Get16(p, at + 6), Get16(p, at + 8))
  }

  function ReadIfs(p: seq<Byte>, at: nat, n: nat, version: Byte): (r: seq<IfEntry>)
    requires at + n * IfSize(version) <= |p|
    ensures |r| == n
  {
    if n == 0 then []
    else ReadIfs(p, at, n - 1, version) + [ReadIf(p, at + (n - 1) * IfSize(version), version)]
  }

  function ReadSmacs(p: seq<Byte>, at: nat, n: nat): (r: seq<Smac>)
    requires at + 10 * n <= |p|
    ensures |r| == n
  {
    if n == 0 then [] else ReadSmacs(p, at, n - 1) + [ReadSmac(p, at + 10 * (n - 1))]
  }

  /** What mlag_rx makes of a frame: not for it; ignored; a greeting whose lists
      do not fit, of which only the greeting counts; one whose MAC list does
      not fit, which still counts as the chunk it says it is; or all of it. */
  datatype Parsed =
    | NotHandled
    | Ignored
    | Greeting(prio: nat, mac: seq<Byte>, sys: seq<Byte>)
    | NoMacs(hello: Hello)
    | Whole(hello: Hello)

  /** Frames arrive with or without the tag the chip punts them with. */
  function TypeOffset(f: seq<Byte>): nat
    requires |f| >= 20
  {
    if f[12] == 0x81 && f[13] == 0x00 then 16 else 12
  }

  function Parse(f: seq<Byte>): Parsed {
    if |f| < 20 || f[..6] != CTL_DA then NotHandled
    else if Get16(f, TypeOffset(f)) != 0x88b5 then NotHandled
    else ParsePayload(f[TypeOffset(f) + 2..])
  }

  function ParsePayload(p: seq<Byte>): Parsed {
    if |p| < 26 || p[..4] != MAGIC || (p[4] != 1 && p[4] != 2) then Ignored
    else
      var nifs := Get16(p, 20);
      var at := 22 + nifs * IfSize(p[4]);
      if |p| < at + 6 then Greeting(Get16(p, 6), p[8..14], p[14..20])
      else
        var n := Get16(p, at + 4);
        var h := Hello(Get16(p, 6), p[8..14], p[14..20], ReadIfs(p, 22, nifs, p[4]),
                       Get16(p, at), p[at + 2], p[at + 3], []);
        if |p| - (at + 6) < 10 * n then NoMacs(h) else Whole(h.(macs := ReadSmacs(p, at + 6, n)))
  }

  // ----- the round trip -----

  lemma Get16At(p: seq<Byte>, i: nat, v: nat)
    requires Fits16(v) && i + 2 <= |p| && p[i..i + 2] == Put16(v)
    ensures Get16(p, i) == v
  {
    assert p[i..i + 2][0] == p[i] && p[i..i + 2][1] == p[i + 1];
  }

  /** A slice of a slice. */
  lemma Slice(p: seq<Byte>, at: nat, n: nat, i: nat, j: nat)
    requires i <= j <= n && at + n <= |p|
    ensures p[at..at + n][i..j] == p[at + i..at + j]
  {
    var s, t := p[at..at + n][i..j], p[at + i..at + j];
    assert forall k :: 0 <= k < |s| ==> s[k] == t[k];
  }

  lemma ReadIfAt(p: seq<Byte>, at: nat, e: IfEntry)
    requires Fits16(e.id) && at + 4 <= |p| && p[at..at + 4] == IfBytes(e)
    ensures ReadIf(p, at, 2) == e
  {
    Slice(p, at, 4, 0, 2);
    assert IfBytes(e)[0..2] == Put16(e.id);
    Get16At(p, at, e.id);
    assert p[at..at + 4][2] == p[at + 2] && p[at..at + 4][3] == p[at + 3];
  }

  lemma IfsSnoc(es: seq<IfEntry>)
    requires es != [] && forall i :: 0 <= i < |es| ==> Fits16(es[i].id)
    ensures IfsBytes(es) == IfsBytes(es[..|es| - 1]) + IfBytes(es[|es| - 1])
    ensures |IfsBytes(es[..|es| - 1])| == 4 * (|es| - 1)
  {
  }

  lemma {:induction false} ReadIfsAt(p: seq<Byte>, at: nat, es: seq<IfEntry>)
    requires forall i :: 0 <= i < |es| ==> Fits16(es[i].id)
    requires at + 4 * |es| <= |p| && p[at..at + 4 * |es|] == IfsBytes(es)
    ensures ReadIfs(p, at, |es|, 2) == es
  {
    if es != [] {
      var before, last, n := es[..|es| - 1], es[|es| - 1], 4 * |es|;
      IfsSnoc(es);
      SplitSlice(p, at, IfsBytes(before), IfBytes(last));
      ReadIfsAt(p, at, before);
      ReadIfAt(p, at + n - 4, last);
    }
  }

  lemma ReadSmacAt(p: seq<Byte>, at: nat, m: Smac)
    requires SmacFits(m) && at + 10 <= |p| && p[at..at + 10] == SmacBytes(m)
    ensures ReadSmac(p, at) == m
  {
    var b := SmacBytes(m);
    assert b[0..6] == m.mac && b[6..8] == Put16(m.vid) && b[8..10] == Put16(m.id);
    Slice(p, at, 10, 0, 6);
    Slice(p, at, 10, 6, 8);
    Slice(p, at, 10, 8, 10);
    Get16At(p, at + 6, m.vid);
    Get16At(p, at + 8, m.id);
  }

  /** A slice that is two parts, taken apart. */
  lemma SplitSlice(p: seq<Byte>, at: nat, a: seq<Byte>, b: seq<Byte>)
    requires at + |a| + |b| <= |p| && p[at..at + |a| + |b|] == a + b
    ensures p[at..at + |a|] == a && p[at + |a|..at + |a| + |b|] == b
  {
    var s := p[at..at + |a| + |b|];
    assert s[..|a|] == a && s[|a|..] == b;
    assert s[..|a|] == p[at..at + |a|] && s[|a|..] == p[at + |a|..at + |a| + |b|];
  }

  lemma SmacsSnoc(ms: seq<Smac>)
    requires ms != [] && forall i :: 0 <= i < |ms| ==> SmacFits(ms[i])
    ensures SmacsBytes(ms) == SmacsBytes(ms[..|ms| - 1]) + SmacBytes(ms[|ms| - 1])
    ensures |SmacsBytes(ms[..|ms| - 1])| == 10 * (|ms| - 1)
  {
  }

  lemma ReadSmacsLast(p: seq<Byte>, at: nat, n: nat)
    requires 0 < n && at + 10 * n <= |p|
    ensures ReadSmacs(p, at, n) == ReadSmacs(p, at, n - 1) + [ReadSmac(p, at + 10 * (n - 1))]
  {
  }

  lemma ReadSmacsMore(p: seq<Byte>, at: nat, before: seq<Smac>, last: Smac)
    requires (forall i :: 0 <= i < |before| ==> SmacFits(before[i])) && SmacFits(last)
    requires at + 10 * |before| + 10 <= |p| && ReadSmacs(p, at, |before|) == before
    requires p[at + 10 * |before|..at + 10 * |before| + 10] == SmacBytes(last)
    ensures ReadSmacs(p, at, |before| + 1) == before + [last]
  {
    ReadSmacAt(p, at + 10 * |before|, last);
    ReadSmacsLast(p, at, |before| + 1);
  }

  lemma {:induction false} ReadSmacsAt(p: seq<Byte>, at: nat, ms: seq<Smac>)
    requires forall i :: 0 <= i < |ms| ==> SmacFits(ms[i])
    requires |SmacsBytes(ms)| == 10 * |ms| && at + |SmacsBytes(ms)| <= |p|
    requires p[at..at + |SmacsBytes(ms)|] == SmacsBytes(ms)
    ensures ReadSmacs(p, at, |ms|) == ms
  {
    if ms != [] {
      var before, last := ms[..|ms| - 1], ms[|ms| - 1];
      SmacsSnoc(ms);
      var a, b := SmacsBytes(before), SmacBytes(last);
      assert |a| == 10 * |before| && |b| == 10 && SmacsBytes(ms) == a + b;
      SplitSlice(p, at, a, b);
      ReadSmacsAt(p, at, before);
      ReadSmacsMore(p, at, before, last);
      assert ms == before + [last];
    }
  }

  /** The fixed fields of a payload, at their offsets. */
  lemma ReadHead(h: Hello, p: seq<Byte>)
    requires HelloFits(h) && |p| >= 26 && p[0..20] == HeadBytes(h) && p[20..22] == Put16(|h.ifs|)
    ensures p[..4] == MAGIC && p[4] == 2 && Get16(p, 6) == h.prio && p[8..14] == h.mac && p[14..20] == h.sys
    ensures Get16(p, 20) == |h.ifs|
  {
    var b := HeadBytes(h);
    assert b[0..4] == MAGIC && b[4] == 2 && b[6..8] == Put16(h.prio) && b[8..14] == h.mac && b[14..20] == h.sys;
    Slice(p, 0, 20, 0, 4);
    Slice(p, 0, 20, 6, 8);
    Slice(p, 0, 20, 8, 14);
    Slice(p, 0, 20, 14, 20);
    Get16At(p, 6, h.prio);
    Get16At(p, 20, |h.ifs|);
  }

  lemma ReadChunk(h: Hello, p: seq<Byte>, at: nat)
    requires HelloFits(h) && at + 6 <= |p| && p[at..at + 6] == ChunkBytes(h)
    ensures Get16(p, at) == h.gen && p[at + 2] == h.chunk && p[at + 3] == h.chunks && Get16(p, at + 4) == |h.macs|
  {
    var b := ChunkBytes(h);
    assert b[0..2] == Put16(h.gen) && b[4..6] == Put16(|h.macs|);
    assert p[at..at + 6][2] == p[at + 2] && p[at..at + 6][3] == p[at + 3];
    Slice(p, at, 6, 0, 2);
    Slice(p, at, 6, 4, 6);
    Get16At(p, at, h.gen);
    Get16At(p, at + 4, |h.macs|);
  }

  /** The parts of a payload, each where it belongs. */
  predicate HasParts(p: seq<Byte>, h: Hello)
    requires HelloFits(h)
  {
    var n, m := 4 * |h.ifs|, 10 * |h.macs|;
    && |p| >= 28 + n + m && p[0..20] == HeadBytes(h) && p[20..22] == Put16(|h.ifs|)
    && p[22..22 + n] == IfsBytes(h.ifs) && p[22 + n..28 + n] == ChunkBytes(h)
    && p[28 + n..28 + n + m] == SmacsBytes(h.macs)
  }

  lemma ReadLists(p: seq<Byte>, h: Hello)
    requires HelloFits(h) && HasParts(p, h)
    ensures ReadIfs(p, 22, |h.ifs|, 2) == h.ifs && ReadSmacs(p, 28 + 4 * |h.ifs|, |h.macs|) == h.macs
  {
    ReadIfsAt(p, 22, h.ifs);
    ReadSmacsAt(p, 28 + 4 * |h.ifs|, h.macs);
  }

  /** A payload with room for its lists, read field by field. */
  lemma ReadWhole(p: seq<Byte>, nifs: nat, at: nat, n: nat)
    requires |p| >= 26 && p[..4] == MAGIC && p[4] == 2 && Get16(p, 20) == nifs && at == 22 + 4 * nifs
    requires |p| >= at + 6 && Get16(p, at + 4) == n && |p| >= at + 6 + 10 * n
    ensures ParsePayload(p) == Whole(Hello(Get16(p, 6), p[8..14], p[14..20], ReadIfs(p, 22, nifs, 2),
                                           Get16(p, at), p[at + 2], p[at + 3], ReadSmacs(p, at + 6, n)))
  {
  }

  lemma ParseParts(p: seq<Byte>, h: Hello)
    requires HelloFits(h) && HasParts(p, h)
    ensures ParsePayload(p) == Whole(h)
  {
    var at := 22 + 4 * |h.ifs|;
    ReadHead(h, p);
    ReadChunk(h, p, at);
    ReadLists(p, h);
    ReadWhole(p, |h.ifs|, at, |h.macs|);
  }

  /** A payload, whatever padding follows it, parses to what was built. */
  lemma ParsePayloadBuilt(h: Hello, pad: seq<Byte>)
    requires HelloFits(h)
    ensures ParsePayload(Payload(h) + pad) == Whole(h)
  {
    assert HasParts(Payload(h) + pad, h);
    ParseParts(Payload(h) + pad, h);
  }

  /** A frame whose type field is the control protocol's, and what follows it. */
  lemma ParseTyped(f: seq<Byte>, head: seq<Byte>, rest: seq<Byte>)
    requires |head| == 14 || |head| == 18
    requires f == head + rest && |f| >= 20 && head[..6] == CTL_DA
    requires |head| == 18 <==> head[12] == 0x81 && head[13] == 0x00
    requires head[|head| - 2] == 0x88 && head[|head| - 1] == 0xb5
    ensures Parse(f) == ParsePayload(rest)
  {
    assert f[..6] == head[..6];
    assert f[|head|..] == rest;
  }

  /** A frame as sent, padded or not. */
  lemma ParseBuilt(h: Hello, pad: seq<Byte>)
    requires HelloFits(h)
    ensures Parse(Frame(h) + pad) == Whole(h)
  {
    ParsePayloadBuilt(h, pad);
    var head, rest := EtherBytes(h), Payload(h) + pad;
    assert Frame(h) + pad == head + rest;
    assert head[..6] == CTL_DA;
    ParseTyped(Frame(h) + pad, head, rest);
  }

  /** And with the tag the chip punts it with. */
  lemma ParsePunted(h: Hello, pad: seq<Byte>, tag: seq<Byte>)
    requires HelloFits(h) && |tag| == 4 && tag[0] == 0x81 && tag[1] == 0x00
    ensures Parse(CTL_DA + h.mac + tag + [0x88, 0xb5] + Payload(h) + pad) == Whole(h)
  {
    ParsePayloadBuilt(h, pad);
    var head, rest := CTL_DA + h.mac + tag + [0x88, 0xb5], Payload(h) + pad;
    assert head + Payload(h) + pad == head + rest;
    TaggedHead(h, tag);
    ParseTyped(head + rest, head, rest);
  }

  lemma TaggedHead(h: Hello, tag: seq<Byte>)
    requires HelloFits(h) && |tag| == 4 && tag[0] == 0x81 && tag[1] == 0x00
    ensures var head := CTL_DA + h.mac + tag + [0x88, 0xb5];
      |head| == 18 && head[..6] == CTL_DA && head[12] == 0x81 && head[13] == 0x00 &&
      head[16] == 0x88 && head[17] == 0xb5
  {
  }

  // ----- other frames -----

  /** Entry i of a list is read from its own place: four bytes each, or three in
      version 1, which says up or not and always acknowledges. */
  lemma {:induction false} EntryAt(p: seq<Byte>, at: nat, n: nat, version: Byte, i: nat)
    requires at + n * IfSize(version) <= |p| && i < n
    ensures (version == 1 ==> at + 3 * i + 3 <= |p|) && (version == 2 ==> at + 4 * i + 4 <= |p|)
    ensures version == 1 ==>
      ReadIfs(p, at, n, version)[i] == IfEntry(Get16(p, at + 3 * i), if p[at + 3 * i + 2] == 0 then 0 else 2, 1)
    ensures version == 2 ==>
      ReadIfs(p, at, n, version)[i] == IfEntry(Get16(p, at + 4 * i), p[at + 4 * i + 2], p[at + 4 * i + 3])
    decreases n
  {
    if i < n - 1 {
      EntryAt(p, at, n - 1, version, i);
    }
  }

  /** Whatever is taken for a hello is addressed to the control protocol, of its
      type, with its magic number and a version that is known. */
  lemma OnlyOurs(f: seq<Byte>)
    requires !Parse(f).NotHandled? && !Parse(f).Ignored?
    ensures |f| >= 40 && f[..6] == [0x01, 0x80, 0xc2, 0x00, 0x00, 0x0e]
    ensures var at := if f[12] == 0x81 && f[13] == 0x00 then 16 else 12;
      && f[at] == 0x88 && f[at + 1] == 0xb5 && |f| >= at + 28
      && f[at + 2..at + 6] == [0x4e, 0x4d, 0x4c, 0x47] && (f[at + 6] == 1 || f[at + 6] == 2)
  {
    var at := TypeOffset(f);
    var p := f[at + 2..];
    assert p[..4] == f[at + 2..at + 6] && p[4] == f[at + 6];
  }
}
