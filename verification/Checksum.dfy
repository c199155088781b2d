/**
 The one's-complement checksum written into a neighbour advertisement the
 gateway generates and into the neighbour-discovery messages an SVI rewrites
 to come from its own address. Frames are byte arrays, edited in place; the
 running sum is 32 bits wide.
 */
module Checksum {

  newtype byte = x: int | 0 <= x < 256
  newtype uint32 = x: int | 0 <= x < 0x1_0000_0000

  const ICMP6: nat := 58

  // ----- the sum -----

  /** The big-endian 16-bit words below i, added up. */
  function Words(s: seq<byte>, i: nat): nat
    requires i <= |s| && i % 2 == 0
  {
    if i == 0 then 0 else Words(s, i - 2) + 256 * s[i - 2] as nat + s[i - 1] as nat
  }

  /** All of them, an odd last byte counting as the high half of a word. */
  function Sum16(s: seq<byte>): nat {
    if |s| % 2 == 0 then Words(s, |s|) else Words(s, |s| - 1) + 256 * s[|s| - 1] as nat
  }

  lemma {:induction false} WordsBound(s: seq<byte>, i: nat)
    requires i <= |s| && i % 2 == 0
    ensures Words(s, i) <= i / 2 * 65535
  {
    if i > 0 {
      WordsBound(s, i - 2);
    }
  }

  lemma {:induction false} WordsLocal(s: seq<byte>, t: seq<byte>, i: nat)
    requires i <= |s| && i <= |t| && i % 2 == 0 && forall j :: 0 <= j < i ==> s[j] == t[j]
    ensures Words(s, i) == Words(t, i)
  {
    if i > 0 {
      WordsLocal(s, t, i - 2);
    }
  }

  /** A word put where zero was adds itself to the sum. */
  lemma {:induction false} WordsWith(s: seq<byte>, t: seq<byte>, at: nat, i: nat)
    requires i <= |s| == |t| && i % 2 == 0 && at % 2 == 0 && at + 1 < |s| && s[at] == 0 && s[at + 1] == 0
    requires forall j :: 0 <= j < |s| && j != at && j != at + 1 ==> s[j] == t[j]
    ensures Words(t, i) == Words(s, i) + if at < i then 256 * t[at] as nat + t[at + 1] as nat else 0
  {
    if i > 0 {
      WordsWith(s, t, at, i - 2);
    }
  }

  lemma SumWith(s: seq<byte>, t: seq<byte>, at: nat)
    requires |s| == |t| && at % 2 == 0 && at + 1 < |s| && s[at] == 0 && s[at + 1] == 0
    requires forall j :: 0 <= j < |s| && j != at && j != at + 1 ==> s[j] == t[j]
    ensures Sum16(t) == Sum16(s) + 256 * t[at] as nat + t[at + 1] as nat
  {
    WordsWith(s, t, at, if |s| % 2 == 0 then |s| else |s| - 1);
  }

  // ----- folding -----

  /** Carries added back until none is left. */
  function Folded(n: nat): (r: nat)
    ensures r <= 0xffff && r % 0xffff == n % 0xffff && (r == 0 <==> n == 0)
    decreases n
  {
    if n <= 0xffff then n
    else
      FoldStep(n);
      Folded(n % 0x10000 + n / 0x10000)
  }

  lemma FoldStep(n: nat)
    requires n > 0xffff
    ensures 0 < n % 0x10000 + n / 0x10000 < n
    ensures (n % 0x10000 + n / 0x10000) % 0xffff == n % 0xffff
  {
    var q, r := n / 0x10000, n % 0x10000;
    assert n == (q + r) + 0xffff * q;
    ModPlus(q + r, q);
  }

  lemma {:induction false} ModPlus(a: nat, k: nat)
    ensures (a + 0xffff * k) % 0xffff == a % 0xffff
  {
    if k > 0 {
      ModPlus(a, k - 1);
      assert (a + 0xffff * k) == (a + 0xffff * (k - 1)) + 0xffff;
    }
  }

  /** The checksum rule: a sum with the complement of its folding folds to
      all ones. */
  lemma ComplementFolds(n: nat)
    requires n > 0
    ensures Folded(n + (0xffff - Folded(n))) == 0xffff
  {
    var c := 0xffff - Folded(n);
    var k := n / 0xffff;
    assert n == 0xffff * k + n % 0xffff;
    assert n + c == 0xffff * (if Folded(n) == 0xffff then k else k + 1);
    ModPlus(0, if Folded(n) == 0xffff then k else k + 1);
  }

  /** What a receiver adds up: source and destination, length, next header,
      and the message. */
  function MessageSum(f: seq<byte>, plen: nat): nat
    requires 54 + plen <= |f|
  {
    Sum16(f[22..54]) + plen + ICMP6 + Sum16(f[54..54 + plen])
  }

  /** Section 2.3 of RFC 4443: the message verifies. */
  predicate Verifies(f: seq<byte>, plen: nat)
    requires 54 + plen <= |f|
  {
    Folded(MessageSum(f, plen)) == 0xffff
  }

  // ----- in place -----

  /** The loop that folds: it ends, and 32 bits hold it throughout. */
  method Fold(n: uint32) returns (r: uint32)
    ensures r as nat == Folded(n as nat)
  {
    r := n;
    while r / 0x10000 != 0
      invariant Folded(r as nat) == Folded(n as nat)
      decreases r
    {
      FoldStep(r as nat);
      r := r % 0x10000 + r / 0x10000;
    }
  }

  /** Whole words of the n bytes at off, added to a sum that has room. */
  method AddWords(f: array<byte>, off: nat, n: nat, start: uint32) returns (sum: uint32)
    requires off + n <= f.Length && n % 2 == 0 && start as nat + n / 2 * 65535 < 0x1_0000_0000
    ensures sum as nat == start as nat + Words(f[off..off + n], n)
  {
    sum := start;
    var i := 0;
    ghost var s := f[off..off + n];
    while i < n
      invariant 0 <= i <= n && i % 2 == 0 && sum as nat == start as nat + Words(s, i)
    {
      WordsBound(s, i);
      assert s[i] == f[off + i] && s[i + 1] == f[off + i + 1];
      sum := sum + (f[off + i] as uint32 * 256 + f[off + i + 1] as uint32);
      i := i + 2;
    }
  }

  /** The message as it stands, added up; the widest one fits 32 bits. */
  method Total(f: array<byte>, plen: nat) returns (sum: uint32)
    requires plen <= 0xffff && 54 + plen <= f.Length
    ensures sum as nat == MessageSum(f[..], plen)
  {
    ghost var s := f[..];
    ghost var head, msg := s[22..54], s[54..54 + plen];
    var even := plen - plen % 2;
    sum := AddWords(f, 22, 32, 0);
    WordsBound(head, 32);
    sum := sum + plen as uint32 + ICMP6 as uint32;
    sum := AddWords(f, 54, even, sum);
    WordsLocal(f[54..54 + even], msg, even);
    WordsBound(msg, even);
    if plen % 2 == 1 {
      sum := sum + f[54 + plen - 1] as uint32 * 256;
    }
  }

  /** The checksum put into a message that has zeroes there. */
  method Seal(f: array<byte>, plen: nat)
    requires 24 <= plen <= 0xffff && 54 + plen <= f.Length && f[56] == 0 && f[57] == 0
    modifies f
    ensures Verifies(f[..], plen)
    ensures forall j :: 0 <= j < f.Length && j != 56 && j != 57 ==> f[j] == old(f[j])
  {
    ghost var s := f[..];
    var sum := Total(f, plen);
    ComplementFolds(sum as nat);
    sum := Fold(sum);
    sum := 0xffff - sum;
    f[56] := (sum / 256) as byte;
    f[57] := (sum % 256) as byte;
    ghost var t := f[..];
    assert t[22..54] == s[22..54];
    SumWith(s[54..54 + plen], t[54..54 + plen], 2);
  }

  method Copy(f: array<byte>, at: nat, bytes: seq<byte>)
    requires at + |bytes| <= f.Length
    modifies f
    ensures forall j :: 0 <= j < f.Length ==>
      f[j] == if at <= j < at + |bytes| then bytes[j - at] else old(f[j])
  {
    for i := 0 to |bytes|
      invariant forall j :: 0 <= j < f.Length ==> f[j] == if at <= j < at + i then bytes[j - at] else old(f[j])
    {
      f[at + i] := bytes[i];
    }
  }

  // ----- the gateway's neighbour advertisement -----

  function Ethernet(dstMac: seq<byte>, vmac: seq<byte>): seq<byte> {
    dstMac + vmac + [0x86, 0xdd]
  }

  function Ipv6(target: seq<byte>, dstIp: seq<byte>): seq<byte> {
    [0x60, 0, 0, 0, 0, 32, 58, 255] + target + dstIp
  }

  function Icmp6(target: seq<byte>, vmac: seq<byte>, solicited: bool): seq<byte> {
    [136, 0, 0, 0, if solicited then 0xe0 else 0xa0, 0, 0, 0] + target + [2, 1] + vmac
  }

  /** The frame, its checksum aside: Ethernet, IPv6 from the gateway address
      with hop limit 255, and an advertisement with router and override set
      and one option, the gateway's MAC. */
  function Advertisement(target: seq<byte>, dstIp: seq<byte>, dstMac: seq<byte>, vmac: seq<byte>,
                         solicited: bool): seq<byte> {
    Ethernet(dstMac, vmac) + Ipv6(target, dstIp) + Icmp6(target, vmac, solicited)
  }

  /** Its fields, where a host looks for them. */
  lemma AdvertisementFields(target: seq<byte>, dstIp: seq<byte>, dstMac: seq<byte>, vmac: seq<byte>, solicited: bool)
    requires |target| == 16 && |dstIp| == 16 && |dstMac| == 6 && |vmac| == 6
    ensures var f := Advertisement(target, dstIp, dstMac, vmac, solicited);
      && |f| == 86 && f[0..6] == dstMac && f[6..12] == vmac && f[12..14] == [0x86, 0xdd]
      && f[14] / 16 == 6 && f[18..20] == [0, 32] && f[20] == 58 && f[21] == 255
      && f[22..38] == target && f[38..54] == dstIp && f[54] == 136 && f[55] == 0
      && f[58] / 128 == 1 && f[58] / 64 % 2 == (if solicited then 1 else 0) && f[58] / 32 % 2 == 1 && f[58] % 32 == 0
      && f[62..78] == target && f[78] == 2 && f[79] == 1 && f[80..86] == vmac
  {
    var e, i, c := Ethernet(dstMac, vmac), Ipv6(target, dstIp), Icmp6(target, vmac, solicited);
    var f := Advertisement(target, dstIp, dstMac, vmac, solicited);
    assert f == e + i + c && |e| == 14 && |i| == 40 && |c| == 32;
    assert f[0..6] == e[0..6] == dstMac && f[6..12] == e[6..12] == vmac && f[12..14] == e[12..14];
    assert f[22..38] == i[8..24] == target && f[38..54] == i[24..40] == dstIp;
    assert f[62..78] == c[8..24] == target && f[80..86] == c[26..32] == vmac;
  }

  /** Equal but for the two checksum bytes. */
  ghost predicate SameButSum(s: seq<byte>, t: seq<byte>) {
    |s| == |t| && forall j :: 0 <= j < |s| && j != 56 && j != 57 ==> s[j] == t[j]
  }

  predicate Zero(f: array<byte>, lo: nat, hi: nat)
    requires lo <= hi <= f.Length
    reads f
  {
    forall j :: lo <= j < hi ==> f[j] == 0
  }

  /** Only this stretch of the frame is written. */
  twostate predicate Elsewhere(f: array<byte>, lo: nat, hi: nat)
    reads f
  {
    forall j :: 0 <= j < f.Length && !(lo <= j < hi) ==> f[j] == old(f[j])
  }

  method PutEthernet(out: array<byte>, dstMac: seq<byte>, vmac: seq<byte>)
    requires out.Length >= 86 && |dstMac| == 6 && |vmac| == 6
    modifies out
    ensures out[..14] == Ethernet(dstMac, vmac) && Elsewhere(out, 0, 14)
  {
    Copy(out, 0, dstMac);
    Copy(out, 6, vmac);
    out[12], out[13] := 0x86, 0xdd;
  }

  method PutIpv6(out: array<byte>, target: seq<byte>, dstIp: seq<byte>)
    requires out.Length >= 86 && |target| == 16 && |dstIp| == 16 && Zero(out, 14, 54)
    modifies out
    ensures out[14..54] == Ipv6(target, dstIp) && Elsewhere(out, 14, 54)
  {
    out[14] := 0x60;
    out[18], out[19], out[20], out[21] := 0, 32, 58, 255;
    Copy(out, 22, target);
    Copy(out, 38, dstIp);
  }

  method PutIcmp6(out: array<byte>, target: seq<byte>, vmac: seq<byte>, solicited: bool)
    requires out.Length >= 86 && |target| == 16 && |vmac| == 6 && Zero(out, 54, 86)
    modifies out
    ensures out[54..86] == Icmp6(target, vmac, solicited) && Elsewhere(out, 54, 86)
  {
    out[54] := 136;
    out[58] := if solicited then 0xe0 else 0xa0;
    Copy(out, 62, target);
    out[78], out[79] := 2, 1;
    Copy(out, 80, vmac);
  }

  method GwNa(out: array<byte>, target: seq<byte>, dstIp: seq<byte>, dstMac: seq<byte>, vmac: seq<byte>,
              solicited: bool)
    returns (n: nat)
    requires out.Length >= 86 && |target| == 16 && |dstIp| == 16 && |dstMac| == 6 && |vmac| == 6
    modifies out
    ensures n == 86 && SameButSum(out[..86], Advertisement(target, dstIp, dstMac, vmac, solicited))
    ensures Verifies(out[..86], 32)
    ensures Elsewhere(out, 0, 86)
  {
    Copy(out, 0, seq(86, _ => 0));
    PutEthernet(out, dstMac, vmac);
    PutIpv6(out, target, dstIp);
    assert out[..14] == Ethernet(dstMac, vmac);
    PutIcmp6(out, target, vmac, solicited);
    assert out[..14] == Ethernet(dstMac, vmac) && out[14..54] == Ipv6(target, dstIp);
    assert out[..86] == out[..14] + out[14..54] + out[54..86];
    assert out[54..86][2] == 0 && out[54..86][3] == 0;
    ghost var s := out[..86];
    Seal(out, 32);
    assert out[..][22..54] == out[..86][22..54] && out[..][54..86] == out[..86][54..86];
    return 86;
  }

  // ----- an SVI's neighbour discovery, from its own address -----

  /** The link-local address a MAC stands for, by the EUI-64 rule. */
  function LinkLocal(mac: seq<byte>): seq<byte>
    requires |mac| == 6
  {
    [0xfe, 0x80, 0, 0, 0, 0, 0, 0, FlipLocal(mac[0]), mac[1], mac[2], 0xff, 0xfe, mac[3], mac[4], mac[5]]
  }

  /** The universal/local bit of a MAC's first byte, turned over. */
  function FlipLocal(b: byte): byte {
    if b / 2 % 2 == 0 then b + 2 else b - 2
  }

  /** It turns over that bit and no other, so the address tells its MAC. */
  lemma LinkLocalIs(mac: seq<byte>, i: nat)
    requires |mac| == 6 && i < 6
    ensures var a := LinkLocal(mac);
      && |a| == 16 && a[..8] == [0xfe, 0x80, 0, 0, 0, 0, 0, 0] && a[11] == 0xff && a[12] == 0xfe
      && (i == 0 ==> a[8] / 4 == mac[0] / 4 && a[8] % 2 == mac[0] % 2 && a[8] / 2 % 2 != mac[0] / 2 % 2)
      && (i > 0 ==> a[if i < 3 then 8 + i else 10 + i] == mac[i])
  {
  }

  function PayloadLength(f: seq<byte>): nat
    requires |f| >= 20
  {
    256 * f[18] as nat + f[19] as nat
  }

  /** A solicitation or advertisement from a gateway address, all there. */
  predicate Rewrites(f: seq<byte>, len: nat, gateways: set<seq<byte>>) {
    78 <= len <= |f| && f[12] == 0x86 && f[13] == 0xdd && f[20] == 58 && (f[54] == 135 || f[54] == 136) &&
    f[22..38] in gateways && 24 <= PayloadLength(f) && 54 + PayloadLength(f) <= len
  }

  /** The rewritten message is from the SVI's own address, verifies, and is
      otherwise the same; any other frame is left alone. */
  method NdFromOwn(f: array<byte>, len: nat, mac: seq<byte>, gateways: set<seq<byte>>)
    requires len <= f.Length && |mac| == 6
    modifies f
    ensures !Rewrites(old(f[..]), len, gateways) ==> f[..] == old(f[..])
    ensures Rewrites(old(f[..]), len, gateways) ==>
      f[22..38] == LinkLocal(mac) && 54 + PayloadLength(f[..]) <= f.Length && Verifies(f[..], PayloadLength(f[..])) &&
      forall j :: 0 <= j < f.Length && !(22 <= j < 38) && j != 56 && j != 57 ==> f[j] == old(f[j])
  {
    if len < 78 || f[12] != 0x86 || f[13] != 0xdd || f[20] != 58 || (f[54] != 135 && f[54] != 136) ||
      f[22..38] !in gateways {
      assert len >= 78 ==> f[..][22..38] == f[22..38];
      return;
    }
    assert f[..][22..38] == f[22..38];
    var plen := 256 * f[18] as nat + f[19] as nat;
    if plen < 24 || 54 + plen > len {
      return;
    }
    Copy(f, 22, LinkLocal(mac));
    f[56], f[57] := 0, 0;
    assert f[22..38] == LinkLocal(mac);
    Seal(f, plen);
    assert f[22..38] == LinkLocal(mac);
  }
}
