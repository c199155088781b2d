/**
 What a rule's text means, word by word, for every spelling the parser takes:
 each clause says something, and the rule is what the last clause of each kind
 said. The parser accepts exactly the texts that say something, and reads them so.
 */
module AclGrammar {
  import opened Wrappers
  import opened Masks
  import opened AclBits
  import opened AclText
  import opened AclRules

  // ----- words -----

  predicate AllSep(s: string) {
    forall i :: 0 <= i < |s| ==> Sep(s[i])
  }

  /** The text up to its second word: separators, a word, and the rest. */
  predicate Leading(s: string, lead: string, w: string, rest: string) {
    s == lead + w + rest && AllSep(lead) && Clean(w) && (rest == "" || Sep(rest[0]))
  }

  /** These words, with blanks and tabs before, between and after. */
  ghost predicate SpacedOut(s: string, ws: seq<string>)
    decreases |ws|
  {
    if ws == [] then AllSep(s)
    else exists lead, rest :: Leading(s, lead, ws[0], rest) && SpacedOut(rest, ws[1..])
  }

  lemma OneMoreWord(s: string, lead: string, w: string, rest: string, ws: seq<string>)
    requires Leading(s, lead, w, rest) && SpacedOut(rest, ws)
    ensures SpacedOut(s, [w] + ws)
  {
    var all := [w] + ws;
    assert all[1..] == ws && Leading(s, lead, all[0], rest) && SpacedOut(rest, all[1..]);
  }

  lemma OneMoreBlank(c: char, s: string, ws: seq<string>)
    requires Sep(c) && SpacedOut(s, ws)
    ensures SpacedOut([c] + s, ws)
  {
    if ws != [] {
      var lead, rest :| Leading(s, lead, ws[0], rest) && SpacedOut(rest, ws[1..]);
      assert [c] + (lead + ws[0] + rest) == ([c] + lead) + ws[0] + rest;
      assert Leading([c] + s, [c] + lead, ws[0], rest);
    }
  }

  lemma {:induction false} TokensSpaced(s: string)
    ensures SpacedOut(s, Tokens(s))
    decreases |s|
  {
    if s != "" {
      if Sep(s[0]) {
        TokensSpaced(s[1..]);
        OneMoreBlank(s[0], s[1..], Tokens(s[1..]));
        assert s == [s[0]] + s[1..];
      } else {
        var n := WordLen(s);
        TokensSpaced(s[n..]);
        assert s == "" + s[..n] + s[n..];
        OneMoreWord(s, "", s[..n], s[n..], Tokens(s[n..]));
      }
    }
  }

  lemma {:induction false} TokensSkip(lead: string, s: string)
    requires AllSep(lead)
    ensures Tokens(lead + s) == Tokens(s)
  {
    if lead != "" {
      TokensSkip(lead[1..], s);
      assert (lead + s)[1..] == lead[1..] + s;
    } else {
      assert lead + s == s;
    }
  }

  lemma {:induction false} SpacedTokens(s: string, ws: seq<string>)
    requires SpacedOut(s, ws)
    ensures Tokens(s) == ws
    decreases |ws|
  {
    if ws == [] {
      TokensSkip(s, "");
      assert s + "" == s;
    } else {
      var lead, rest :| Leading(s, lead, ws[0], rest) && SpacedOut(rest, ws[1..]);
      var t := ws[0] + rest;
      assert s == lead + t;
      TokensSkip(lead, t);
      WordLenIs(ws[0], rest);
      assert t[..|ws[0]|] == ws[0] && t[|ws[0]|..] == rest && !Sep(t[0]);
      SpacedTokens(rest, ws[1..]);
    }
  }

  /** The words of a text are those it is made of, however they are spaced. */
  lemma TokensAre(s: string, ws: seq<string>)
    ensures Tokens(s) == ws <==> SpacedOut(s, ws)
  {
    TokensSpaced(s);
    if SpacedOut(s, ws) {
      SpacedTokens(s, ws);
    }
  }

  // ----- numbers -----

  predicate Blanks(s: string) {
    forall i :: 0 <= i < |s| ==> IsSpace(s[i])
  }

  /** Blanks, a sign or none, and digits. */
  predicate SpeltAs(s: string, blanks: string, sign: string, digits: string) {
    s == blanks + sign + digits && Blanks(blanks) && (sign == "" || sign == "+" || sign == "-") && Digits(digits)
  }

  /** A number as the C library reads one: in digits, after blanks and a sign if
      there are any, a minus only before nought; nothing at all is nought. */
  ghost predicate Spells(s: string, n: nat) {
    (s == "" && n == 0) ||
    exists blanks, sign, digits ::
      SpeltAs(s, blanks, sign, digits) && Value(digits) == n && (sign == "-" ==> n == 0)
  }

  lemma {:induction false} Skipped(s: string) returns (blanks: string)
    ensures s == blanks + SkipSpace(s) && Blanks(blanks) && (SkipSpace(s) != "" ==> !IsSpace(SkipSpace(s)[0]))
  {
    if s != "" && IsSpace(s[0]) {
      var rest := Skipped(s[1..]);
      blanks := [s[0]] + rest;
      assert s == [s[0]] + s[1..];
    } else {
      blanks := "";
    }
  }

  lemma {:induction false} SkipBlanks(blanks: string, rest: string)
    requires Blanks(blanks) && (rest != "" ==> !IsSpace(rest[0]))
    ensures SkipSpace(blanks + rest) == rest
  {
    if blanks != "" {
      SkipBlanks(blanks[1..], rest);
      assert (blanks + rest)[1..] == blanks[1..] + rest;
    } else {
      assert blanks + rest == rest;
    }
  }

  /** What is left after the blanks: a sign, if any, and digits. */
  lemma SignAndDigits(t: string) returns (sign: string, u: string)
    ensures t == sign + u && (sign == "" || sign == "+" || sign == "-")
    ensures (sign != "") == (t != "" && (t[0] == '+' || t[0] == '-'))
    ensures u == if t != "" && (t[0] == '+' || t[0] == '-') then t[1..] else t
  {
    if t != "" && (t[0] == '+' || t[0] == '-') {
      sign, u := [t[0]], t[1..];
    } else {
      sign, u := "", t;
    }
  }

  lemma NumberParts(s: string, max: nat, sign: string, u: string)
    requires s != "" && Number(s, max).Some?
    requires var t := SkipSpace(s);
      && (sign == "-" ==> t != "" && t[0] == '-')
      && u == if t != "" && (t[0] == '+' || t[0] == '-') then t[1..] else t
    ensures Digits(u) && Number(s, max) == Some(Value(u)) && Value(u) <= max && (sign == "-" ==> Value(u) == 0)
  {
  }

  lemma Assembled(s: string, blanks: string, t: string, sign: string, u: string)
    requires s == blanks + t && t == sign + u && Blanks(blanks) && Digits(u)
    requires sign == "" || sign == "+" || sign == "-"
    ensures SpeltAs(s, blanks, sign, u)
  {
    assert blanks + (sign + u) == blanks + sign + u;
  }

  lemma NumberSpells(s: string, max: nat)
    requires Number(s, max).Some?
    ensures Number(s, max).value <= max && Spells(s, Number(s, max).value)
  {
    if s != "" {
      var blanks := Skipped(s);
      var sign, u := SignAndDigits(SkipSpace(s));
      NumberParts(s, max, sign, u);
      Assembled(s, blanks, SkipSpace(s), sign, u);
    }
  }

  lemma SpelledIs(s: string, blanks: string, sign: string, digits: string, max: nat)
    requires SpeltAs(s, blanks, sign, digits) && (sign == "-" ==> Value(digits) == 0)
    ensures Number(s, max) == if Value(digits) <= max then Some(Value(digits)) else None
  {
    var t := sign + digits;
    assert Digit(digits[0]) && s == blanks + t && t != "";
    assert !IsSpace(t[0]);
    SkipBlanks(blanks, t);
    assert sign != "" ==> t[1..] == digits;
    assert sign == "" ==> t == digits;
  }

  /** The parser reads a number exactly when it is spelt so and within bounds. */
  lemma NumberIs(s: string, max: nat, n: nat)
    ensures Number(s, max) == Some(n) <==> n <= max && Spells(s, n)
  {
    if Number(s, max).Some? {
      NumberSpells(s, max);
    }
    if n <= max && Spells(s, n) && s != "" {
      var blanks, sign, digits :|
        SpeltAs(s, blanks, sign, digits) && Value(digits) == n && (sign == "-" ==> n == 0);
      SpelledIs(s, blanks, sign, digits, max);
    }
  }

  // ----- prefixes -----

  lemma {:induction false} AndOnes(w: nat, a: nat)
    requires a < Pow2(w)
    ensures And(a, Hi(w, w)) == a
  {
    if a != 0 {
      var m := Hi(w, w);
      assert m == Pow2(w) - 1 && m / 2 == Hi(w - 1, w - 1) && m % 2 == 1;
      AndOnes(w - 1, a / 2);
    }
  }

  lemma {:induction false} AndSwaps(a: nat, b: nat)
    ensures And(a, b) == And(b, a)
  {
    if a != 0 && b != 0 {
      AndSwaps(a / 2, b / 2);
    }
  }

  /** A number without its last k bits: halved so many times. */
  function Without(a: nat, k: nat): nat
    decreases k
  {
    if k == 0 then a else Without(a / 2, k - 1)
  }

  /** The first n of a word's bits, the others clear. */
  function FirstBits(w: nat, n: nat, a: nat): nat
    requires n <= w
  {
    Without(a, w - n) * Pow2(w - n)
  }

  /** Masking a word keeps its first n bits. */
  lemma {:induction false} AndHi(w: nat, n: nat, a: nat)
    requires n <= w && a < Pow2(w)
    ensures And(a, Hi(w, n)) == FirstBits(w, n, a)
    decreases w
  {
    if n == w {
      AndOnes(w, a);
      assert Pow2(0) == 1;
    } else {
      Pow2Order(w - n, w);
      assert Pow2(w) == 2 * Pow2(w - 1) && Pow2(w - n) == 2 * Pow2(w - n - 1);
      assert Hi(w, n) / 2 == Hi(w - 1, n) && Hi(w, n) % 2 == 0;
      AndHi(w - 1, n, a / 2);
      TimesTwo(Without(a, w - n), Pow2(w - n - 1));
      AndEven(a, Hi(w, n));
    }
  }

  /** A mask is the first n bits of all ones. */
  lemma OnesMasked(w: nat, n: nat)
    requires n <= w
    ensures Hi(w, n) == FirstBits(w, n, Hi(w, w))
  {
    AndHi(w, n, Hi(w, w));
    AndOnes(w, Hi(w, n));
    AndSwaps(Hi(w, n), Hi(w, w));
  }

  lemma TimesTwo(q: nat, p: nat)
    ensures 2 * (q * p) == q * (2 * p)
  {
  }

  lemma AndEven(a: nat, b: nat)
    requires b % 2 == 0
    ensures And(a, b) == 2 * And(a / 2, b / 2)
  {
  }

  /** The address and the length of a prefix as written: a length after a slash,
      or all of the address. */
  ghost predicate Written(s: string, addr: string, len: nat, max: nat) {
    && len <= max && '/' !in addr
    && ((s == addr && len == max) || exists t :: s == addr + "/" + t && Spells(t, len))
  }

  lemma SplitWritten(s: string, max: nat)
    ensures Split(s, max).Some? ==> Written(s, Split(s, max).value.0, Split(s, max).value.1, max)
  {
    var i := Slash(s);
    if i < |s| && Split(s, max).Some? {
      var t := s[i + 1..];
      NumberIs(t, max, Split(s, max).value.1);
      assert s == s[..i] + "/" + t;
    }
  }

  lemma WrittenSplit(s: string, addr: string, len: nat, max: nat)
    requires Written(s, addr, len, max)
    ensures Split(s, max) == Some((addr, len))
  {
    if '/' in s {
      var t :| s == addr + "/" + t && Spells(t, len);
      assert s[|addr|] == '/' && forall j :: 0 <= j < |addr| ==> s[j] == addr[j] && s[j] != '/';
      assert Slash(s) == |addr| && s[|addr| + 1..] == t && s[..|addr|] == addr;
      NumberIs(t, max, len);
    }
  }

  /** s, as much of it as the parser looks at, is an IPv4 address and a length,
      and p the address's first bits under a mask of as many. */
  ghost predicate Prefix4(env: Env, s: string, p: Prefix) {
    exists addr, len: nat :: Written(Fit(s, 39), addr, len, 32) && Is4(env, addr, len, p)
  }

  predicate Is4(env: Env, addr: string, len: nat, p: Prefix)
    requires len <= 32
  {
    env.pton4(addr).Some? && p == V4(FirstBits(32, len, env.pton4(addr).value), FirstBits(32, len, 0xffff_ffff))
  }

  lemma MaskedIs4(a: nat, len: nat)
    requires a < WORD && len <= 32
    ensures And(a, Mask(len)) == FirstBits(32, len, a) && Mask(len) == FirstBits(32, len, 0xffff_ffff)
  {
    Mask32(len);
    AndHi(32, len, a);
    OnesMasked(32, len);
    assert Pow2(0) == 1;
  }

  /** What is read of an IPv4 prefix, exactly. */
  lemma ParsePrefix4Is(env: Env, s: string, p: Prefix)
    requires Inverse(env)
    ensures ParsePrefix4(env, s) == Some(p) <==> Prefix4(env, s, p)
  {
    var buf := Fit(s, 39);
    SplitWritten(buf, 32);
    if ParsePrefix4(env, s) == Some(p) {
      var parts := Split(buf, 32).value;
      MaskedIs4(env.pton4(parts.0).value, parts.1);
      assert Is4(env, parts.0, parts.1, p);
    }
    if Prefix4(env, s, p) {
      var addr, len: nat :| Written(buf, addr, len, 32) && Is4(env, addr, len, p);
      WrittenSplit(buf, addr, len, 32);
      MaskedIs4(env.pton4(addr).value, len);
    }
  }

  /** The same for sixteen bytes: those within the length, the one it ends in cut
      to as many bits, the rest clear. */
  function FirstBits6(len: nat, a: seq<nat>): (r: seq<nat>)
    requires |a| == 16
    ensures |r| == 16
  {
    seq(16, i requires 0 <= i < 16 =>
      if 8 * i + 8 <= len then a[i] else if len <= 8 * i then 0 else FirstBits(8, len - 8 * i, a[i]))
  }

  ghost predicate Prefix6(env: Env, s: string, p: Prefix) {
    exists addr, len: nat :: Written(Fit(s, 63), addr, len, 128) && Is6(env, addr, len, p)
  }

  predicate Is6(env: Env, addr: string, len: nat, p: Prefix) {
    env.pton6(addr).Some? && |env.pton6(addr).value| == 16 &&
    p == V6(FirstBits6(len, env.pton6(addr).value), FirstBits6(len, seq(16, i => 255)))
  }

  lemma MaskedByte(len: nat, i: nat, a: nat)
    requires a < 256
    ensures And(a, Hi(8, Covered(len, i))) ==
            if 8 * i + 8 <= len then a else if len <= 8 * i then 0 else FirstBits(8, len - 8 * i, a)
  {
    Pow2Byte();
    AndHi(8, Covered(len, i), a);
    assert Pow2(0) == 1;
  }

  lemma OnesByte(len: nat, i: nat)
    ensures Hi(8, Covered(len, i)) ==
            if 8 * i + 8 <= len then 255 else if len <= 8 * i then 0 else FirstBits(8, len - 8 * i, 255)
  {
    Pow2Byte();
    assert Pow2(0) == 1 && Hi(8, 8) == 255;
    OnesMasked(8, Covered(len, i));
  }

  lemma MaskedIs6(a: seq<nat>, len: nat)
    requires |a| == 16 && Bytes(a)
    ensures And6(a, Mask6(len)) == FirstBits6(len, a) && Mask6(len) == FirstBits6(len, seq(16, i => 255))
  {
    forall i | 0 <= i < 16
      ensures And6(a, Mask6(len))[i] == FirstBits6(len, a)[i] && Mask6(len)[i] == FirstBits6(len, seq(16, i => 255))[i]
    {
      MaskedByte(len, i, a[i]);
      OnesByte(len, i);
    }
  }

  /** What is read of an IPv6 prefix, exactly. */
  lemma ParsePrefix6Is(env: Env, s: string, p: Prefix)
    requires Inverse(env)
    ensures ParsePrefix6(env, s) == Some(p) <==> Prefix6(env, s, p)
  {
    var buf := Fit(s, 63);
    SplitWritten(buf, 128);
    if ParsePrefix6(env, s) == Some(p) {
      var parts := Split(buf, 128).value;
      MaskedIs6(env.pton6(parts.0).value, parts.1);
      assert Is6(env, parts.0, parts.1, p);
    }
    if Prefix6(env, s, p) {
      var addr, len: nat :| Written(buf, addr, len, 128) && Is6(env, addr, len, p);
      WrittenSplit(buf, addr, len, 128);
      MaskedIs6(env.pton6(addr).value, len);
    }
  }

  /** An address by itself is that host: no bit of it is left out. */
  lemma BareAddress(env: Env, s: string)
    requires Inverse(env) && '/' !in s
    ensures |s| <= 39 && env.pton4(s).Some? ==> ParsePrefix4(env, s) == Some(V4(env.pton4(s).value, 0xffff_ffff))
    ensures |s| <= 63 && env.pton6(s).Some? ==>
      ParsePrefix6(env, s) == Some(V6(env.pton6(s).value, seq(16, i => 255)))
  {
    if |s| <= 39 && env.pton4(s).Some? {
      assert Pow2(0) == 1;
      var p := V4(env.pton4(s).value, 0xffff_ffff);
      assert Written(Fit(s, 39), s, 32, 32) && Is4(env, s, 32, p);
      ParsePrefix4Is(env, s, p);
    }
    if |s| <= 63 && env.pton6(s).Some? {
      var a := env.pton6(s).value;
      assert FirstBits6(128, a) == a && FirstBits6(128, seq(16, i => 255)) == seq(16, i => 255);
      var p := V6(a, seq(16, i => 255));
      assert Written(Fit(s, 63), s, 128, 128) && Is6(env, s, 128, p);
      ParsePrefix6Is(env, s, p);
    }
  }

  /** A slash with nothing after it is taken for a length of nought: every
      address there is. */
  lemma NothingAfterSlash(env: Env, addr: string)
    requires Inverse(env) && '/' !in addr && |addr| < 39 && env.pton4(addr).Some?
    ensures ParsePrefix4(env, addr + "/") == Some(V4(0, 0))
  {
    var s, a := addr + "/", env.pton4(addr).value;
    assert s == addr + "/" + "" && Spells("", 0) && Written(s, addr, 0, 32);
    Pow2Word();
    AllGone(32, a);
    AllGone(32, 0xffff_ffff);
    assert Is4(env, addr, 0, V4(0, 0));
    ParsePrefix4Is(env, s, V4(0, 0));
  }

  lemma {:induction false} AllGone(k: nat, a: nat)
    requires a < Pow2(k)
    ensures Without(a, k) == 0
  {
    if k > 0 {
      AllGone(k - 1, a / 2);
    }
  }

  // ----- clauses -----

  /** What one clause of a rule says. */
  datatype Clause =
    | FamilyIs(six: bool)
    | ComesIn(port: nat)
    | ProtoIs(proto: nat)
    | FromPrefix(prefix: Prefix)
    | ToPrefix(prefix: Prefix)
    | FromPort(l4: nat)
    | ToPort(l4: nat)

  /** The protocols that have names, and those. */
  const PROTOCOLS: set<(string, nat)> :=
    {("icmp", 1), ("igmp", 2), ("tcp", 6), ("udp", 17), ("gre", 47), ("esp", 50), ("ah", 51), ("icmpv6", 58),
     ("icmp6", 58), ("ospf", 89), ("vrrp", 112), ("sctp", 132)}

  ghost predicate ProtoCalled(s: string, n: nat) {
    (s, n) in PROTOCOLS || (n <= 255 && Spells(s, n) && forall m :: (s, m) !in PROTOCOLS)
  }

  /** The first port of that name is that one. */
  ghost predicate PortCalled(taps: seq<(string, nat)>, s: string, port: nat) {
    exists i :: 0 <= i < |taps| && taps[i] == (s, port) && forall j :: 0 <= j < i ==> taps[j].0 != s
  }

  /** A colon makes a prefix IPv6. */
  ghost predicate PrefixCalled(env: Env, s: string, p: Prefix) {
    if ':' in s then Prefix6(env, s, p) else Prefix4(env, s, p)
  }

  /** How many words a clause takes. */
  function Words(c: Clause): nat {
    if c.FamilyIs? then 1 else 2
  }

  /** These words say that. */
  ghost predicate Says(env: Env, ws: seq<string>, c: Clause)
    requires |ws| == Words(c)
  {
    match c
    case FamilyIs(six) => if six then ws[0] == "ipv6" || ws[0] == "ip6" else ws[0] == "ipv4" || ws[0] == "ip"
    case ComesIn(port) => ws[0] == "in" && PortCalled(env.taps, ws[1], port)
    case ProtoIs(proto) => ws[0] == "proto" && ProtoCalled(ws[1], proto)
    case FromPrefix(prefix) => ws[0] == "src" && PrefixCalled(env, ws[1], prefix)
    case ToPrefix(prefix) => ws[0] == "dst" && PrefixCalled(env, ws[1], prefix)
    case FromPort(l4) => ws[0] == "sport" && l4 <= 65535 && Spells(ws[1], l4)
    case ToPort(l4) => ws[0] == "dport" && l4 <= 65535 && Spells(ws[1], l4)
  }

  /** Words saying one clause after another. */
  ghost predicate SaysAll(env: Env, ws: seq<string>, cs: seq<Clause>)
    decreases |cs|
  {
    if cs == [] then ws == []
    else
      Words(cs[0]) <= |ws| && Says(env, ws[..Words(cs[0])], cs[0]) && SaysAll(env, ws[Words(cs[0])..], cs[1..])
  }

  /** The family a clause is about, if any. */
  function About(c: Clause): nat {
    match c
    case FamilyIs(six) => if six then 6 else 4
    case FromPrefix(p) => if p.V4? then 4 else 6
    case ToPrefix(p) => if p.V4? then 4 else 6
    case _ => 0
  }

  /** No two clauses are about different families. */
  ghost predicate OneFamily(cs: seq<Clause>) {
    forall i, j :: 0 <= i < |cs| && 0 <= j < |cs| && About(cs[i]) != 0 && About(cs[j]) != 0 ==>
      About(cs[i]) == About(cs[j])
  }

  // ----- one clause read -----

  /** A rule once a clause has been heard. */
  function Heard(r: Rule, c: Clause): Rule {
    var f := r.(family := if About(c) == 0 then r.family else About(c));
    match c
    case FamilyIs(_) => f
    case ComesIn(port) => f.(inPort := Some(port))
    case ProtoIs(proto) => f.(proto := Some(proto))
    case FromPrefix(p) => f.(src := Some(p))
    case ToPrefix(p) => f.(dst := Some(p))
    case FromPort(n) => f.(sport := Some(n))
    case ToPort(n) => f.(dport := Some(n))
  }

  lemma {:induction false} PortByNameIs(taps: seq<(string, nat)>, s: string, port: nat)
    ensures PortByName(taps, s) == Some(port) <==> PortCalled(taps, s, port)
  {
    if taps != [] {
      PortByNameIs(taps[1..], s, port);
      if PortCalled(taps, s, port) && taps[0].0 != s {
        var i :| 0 <= i < |taps| && taps[i] == (s, port) && forall j :: 0 <= j < i ==> taps[j].0 != s;
        assert taps[1..][i - 1] == (s, port) && forall j :: 0 <= j < i - 1 ==> taps[1..][j].0 != s;
      }
      if taps[0].0 != s && PortCalled(taps[1..], s, port) {
        var i :| 0 <= i < |taps[1..]| && taps[1..][i] == (s, port) && forall j :: 0 <= j < i ==> taps[1..][j].0 != s;
        assert taps[i + 1] == (s, port) && forall j :: 0 <= j < i + 1 ==> taps[j].0 != s;
      }
    }
  }

  lemma KnownProtoIs(s: string, n: nat)
    ensures KnownProto(s) == Some(n) <==> (s, n) in PROTOCOLS
  {
  }

  lemma ProtoNumberIs(s: string, n: nat)
    ensures ProtoNumber(s) == Some(n) <==> ProtoCalled(s, n)
  {
    NumberIs(s, 255, n);
    KnownProtoIs(s, n);
    if KnownProto(s).Some? {
      KnownProtoIs(s, KnownProto(s).value);
    }
    forall m: nat | (s, m) in PROTOCOLS ensures KnownProto(s) == Some(m) {
      KnownProtoIs(s, m);
    }
  }

  lemma PrefixIs(env: Env, s: string, p: Prefix)
    requires Inverse(env)
    ensures (if FamilyOf(s) == 6 then ParsePrefix6(env, s) else ParsePrefix4(env, s)) == Some(p) <==>
            PrefixCalled(env, s, p)
    ensures PrefixCalled(env, s, p) ==> (p.V6? <==> ':' in s)
  {
    ParsePrefix4Is(env, s, p);
    ParsePrefix6Is(env, s, p);
  }

  /** A clause a rule may hear: not about another family. */
  predicate Fitting(r: Rule, c: Clause) {
    About(c) == 0 || r.family == 0 || r.family == About(c)
  }

  lemma FieldSays(env: Env, r: Rule, tok: string, arg: string) returns (c: Clause)
    requires Inverse(env) && Field(env, r, tok, arg).Ok?
    ensures !c.FamilyIs? && Says(env, [tok, arg], c) && Fitting(r, c) && Field(env, r, tok, arg).rule == Heard(r, c)
  {
    if tok == "in" {
      c := ComesIn(PortByName(env.taps, arg).value);
      PortByNameIs(env.taps, arg, c.port);
    } else if tok == "proto" {
      c := ProtoIs(ProtoNumber(arg).value);
      ProtoNumberIs(arg, c.proto);
    } else if tok == "src" || tok == "dst" {
      var p := (if FamilyOf(arg) == 6 then ParsePrefix6(env, arg) else ParsePrefix4(env, arg)).value;
      PrefixIs(env, arg, p);
      c := if tok == "src" then FromPrefix(p) else ToPrefix(p);
    } else {
      var n := Number(arg, 65535).value;
      NumberIs(arg, 65535, n);
      c := if tok == "sport" then FromPort(n) else ToPort(n);
    }
  }

  lemma PrefixHeard(r: Rule, source: bool, p: Prefix)
    ensures var f := r.(family := FamilyAfter(0, Some(p)));
      Heard(r, if source then FromPrefix(p) else ToPrefix(p)) ==
      if source then f.(src := Some(p)) else f.(dst := Some(p))
  {
  }

  lemma PrefixSaid(env: Env, r: Rule, source: bool, arg: string, p: Prefix)
    requires Inverse(env) && PrefixCalled(env, arg, p) && Fitting(r, FromPrefix(p))
    ensures SetPrefix(env, r, source, arg) == Ok(Heard(r, if source then FromPrefix(p) else ToPrefix(p)))
  {
    PrefixIs(env, arg, p);
    assert FamilyOf(arg) == FamilyAfter(0, Some(p));
    PrefixSet(env, r, source, arg, p);
    PrefixHeard(r, source, p);
  }

  lemma SaysField(env: Env, r: Rule, tok: string, arg: string, c: Clause)
    requires Inverse(env) && !c.FamilyIs? && Says(env, [tok, arg], c) && Fitting(r, c)
    ensures Field(env, r, tok, arg) == Ok(Heard(r, c))
  {
    match c
    case ComesIn(port) => PortByNameIs(env.taps, arg, port);
    case ProtoIs(proto) => ProtoNumberIs(arg, proto);
    case FromPrefix(p) => PrefixSaid(env, r, true, arg, p);
    case ToPrefix(p) => PrefixSaid(env, r, false, arg, p);
    case FromPort(n) => NumberIs(arg, 65535, n);
    case ToPort(n) => NumberIs(arg, 65535, n);
  }

  lemma NoFamilyWord(env: Env, tok: string, arg: string, c: Clause)
    requires !c.FamilyIs? && Says(env, [tok, arg], c)
    ensures !Family4(tok) && !Family6(tok)
  {
  }

  /** One clause off the front. */
  lemma ClauseRead(env: Env, r: Rule, ws: seq<string>, c: Clause)
    requires Inverse(env) && Words(c) <= |ws| && Says(env, ws[..Words(c)], c) && Fitting(r, c)
    ensures Fields(env, r, ws) == Fields(env, Heard(r, c), ws[Words(c)..])
  {
    if c.FamilyIs? {
      FamilyRead(r, ws[0], c);
    } else {
      assert ws[..2] == [ws[0], ws[1]];
      SaysField(env, r, ws[0], ws[1], c);
      NoFamilyWord(env, ws[0], ws[1], c);
    }
  }

  lemma FamilyRead(r: Rule, w: string, c: Clause)
    requires c.FamilyIs? && (if c.six then Family6(w) else Family4(w)) && Fitting(r, c)
    ensures (Family4(w) <==> !c.six) && SetFamily(r, if Family4(w) then 4 else 6, w) == Ok(Heard(r, c))
  {
  }

  lemma FieldsFirst(env: Env, r: Rule, ws: seq<string>)
    requires ws != [] && Fields(env, r, ws).Ok?
    ensures if Family4(ws[0]) || Family6(ws[0]) then r.family == 0 || r.family == (if Family4(ws[0]) then 4 else 6)
            else |ws| >= 2 && Field(env, r, ws[0], ws[1]).Ok?
  {
  }

  lemma SaysFamily(env: Env, r: Rule, ws: seq<string>, six: bool)
    requires ws != [] && (if six then Family6(ws[0]) else Family4(ws[0]))
    requires r.family == 0 || r.family == if six then 6 else 4
    ensures Says(env, ws[..1], FamilyIs(six)) && Fitting(r, FamilyIs(six))
  {
  }

  lemma SaysMatch(env: Env, r: Rule, ws: seq<string>) returns (c: Clause)
    requires Inverse(env) && |ws| >= 2 && Field(env, r, ws[0], ws[1]).Ok?
    ensures Words(c) == 2 && Says(env, ws[..2], c) && Fitting(r, c)
  {
    c := FieldSays(env, r, ws[0], ws[1]);
    assert ws[..2] == [ws[0], ws[1]];
  }

  /** And what the front says, where it is read. */
  lemma ClauseSaid(env: Env, r: Rule, ws: seq<string>) returns (c: Clause)
    requires Inverse(env) && ws != [] && Fields(env, r, ws).Ok?
    ensures Words(c) <= |ws| && Says(env, ws[..Words(c)], c) && Fitting(r, c)
  {
    FieldsFirst(env, r, ws);
    if Family4(ws[0]) || Family6(ws[0]) {
      c := FamilyIs(!Family4(ws[0]));
      SaysFamily(env, r, ws, !Family4(ws[0]));
    } else {
      c := SaysMatch(env, r, ws);
    }
  }

  // ----- clause after clause -----

  function HeardAll(r: Rule, cs: seq<Clause>): Rule
    decreases |cs|
  {
    if cs == [] then r else HeardAll(Heard(r, cs[0]), cs[1..])
  }

  predicate FittingAll(r: Rule, cs: seq<Clause>)
    decreases |cs|
  {
    cs == [] || (Fitting(r, cs[0]) && FittingAll(Heard(r, cs[0]), cs[1..]))
  }

  lemma Prepended(env: Env, ws: seq<string>, c: Clause, rest: seq<Clause>)
    requires Words(c) <= |ws| && Says(env, ws[..Words(c)], c) && SaysAll(env, ws[Words(c)..], rest)
    ensures SaysAll(env, ws, [c] + rest)
  {
    assert ([c] + rest)[1..] == rest;
  }

  lemma {:induction false} FieldsSay(env: Env, r: Rule, ws: seq<string>) returns (cs: seq<Clause>)
    requires Inverse(env) && Fields(env, r, ws).Ok?
    ensures SaysAll(env, ws, cs) && FittingAll(r, cs) && Fields(env, r, ws).rule == HeardAll(r, cs)
    decreases |ws|
  {
    if ws == [] {
      cs := [];
    } else {
      var c := ClauseSaid(env, r, ws);
      ClauseRead(env, r, ws, c);
      var rest := FieldsSay(env, Heard(r, c), ws[Words(c)..]);
      cs := [c] + rest;
      Prepended(env, ws, c, rest);
      assert cs[1..] == rest;
    }
  }

  lemma {:induction false} SayFields(env: Env, r: Rule, ws: seq<string>, cs: seq<Clause>)
    requires Inverse(env) && SaysAll(env, ws, cs) && FittingAll(r, cs)
    ensures Fields(env, r, ws) == Ok(HeardAll(r, cs))
    decreases |cs|
  {
    if cs != [] {
      SayFields(env, Heard(r, cs[0]), ws[Words(cs[0])..], cs[1..]);
      ClauseRead(env, r, ws, cs[0]);
    }
  }

  // ----- what it comes to -----

  /** What the last clause to say it says. */
  function Said<T>(cs: seq<Clause>, f: Clause -> Option<T>): Option<T> {
    if cs == [] then None
    else if f(cs[|cs| - 1]).Some? then f(cs[|cs| - 1])
    else Said(cs[..|cs| - 1], f)
  }

  function InOf(c: Clause): Option<nat> { if c.ComesIn? then Some(c.port) else None }
  function ProtoOf(c: Clause): Option<nat> { if c.ProtoIs? then Some(c.proto) else None }
  function SrcOf(c: Clause): Option<Prefix> { if c.FromPrefix? then Some(c.prefix) else None }
  function DstOf(c: Clause): Option<Prefix> { if c.ToPrefix? then Some(c.prefix) else None }
  function SportOf(c: Clause): Option<nat> { if c.FromPort? then Some(c.l4) else None }
  function DportOf(c: Clause): Option<nat> { if c.ToPort? then Some(c.l4) else None }
  function FamilyNamed(c: Clause): Option<nat> { if About(c) == 0 then None else Some(About(c)) }

  /** The rule the clauses make: IPv4 if none is about a family. */
  function Meaning(deny: bool, cs: seq<Clause>): Rule {
    var family := Said(cs, FamilyNamed);
    Rule(deny, if family.None? then 4 else family.value, Said(cs, InOf), Said(cs, ProtoOf), Said(cs, SrcOf),
         Said(cs, DstOf), Said(cs, SportOf), Said(cs, DportOf))
  }

  lemma {:induction false} HeardLast(r: Rule, cs: seq<Clause>)
    requires cs != []
    ensures HeardAll(r, cs) == Heard(HeardAll(r, cs[..|cs| - 1]), cs[|cs| - 1])
    decreases |cs|
  {
    var n := |cs| - 1;
    if n > 0 {
      HeardLast(Heard(r, cs[0]), cs[1..]);
      assert cs[1..][..n - 1] == cs[..n][1..];
    }
  }

  lemma {:induction false} HeardIsMeant(deny: bool, cs: seq<Clause>)
    ensures var r, family := HeardAll(Blank(deny), cs), Said(cs, FamilyNamed);
      r.(family := 4) == Meaning(deny, cs).(family := 4) && r.family == if family.None? then 0 else family.value
  {
    if cs != [] {
      HeardLast(Blank(deny), cs);
      HeardIsMeant(deny, cs[..|cs| - 1]);
    }
  }

  lemma {:induction false} FittingIs(r: Rule, cs: seq<Clause>)
    ensures FittingAll(r, cs) <==>
            OneFamily(cs) &&
            (r.family != 0 ==> forall i :: 0 <= i < |cs| && About(cs[i]) != 0 ==> About(cs[i]) == r.family)
    decreases |cs|
  {
    if cs != [] {
      var q, rest := Heard(r, cs[0]), cs[1..];
      FittingIs(q, rest);
      assert forall i :: 0 <= i < |rest| ==> rest[i] == cs[i + 1];
      if FittingAll(r, cs) {
        OneFamilyFrom(cs, q.family);
      }
    }
  }

  lemma OneFamilyFrom(cs: seq<Clause>, family: nat)
    requires cs != [] && OneFamily(cs[1..]) && (About(cs[0]) != 0 ==> family == About(cs[0]))
    requires family != 0 ==> forall i :: 0 <= i < |cs[1..]| && About(cs[1..][i]) != 0 ==> About(cs[1..][i]) == family
    ensures OneFamily(cs)
  {
    assert forall i :: 1 <= i < |cs| ==> cs[1..][i - 1] == cs[i];
  }

  /** A text as the parser looks at it: an action, and words that say clauses,
      about one family, with L4 ports only for TCP or UDP. */
  ghost predicate Means(env: Env, text: string, deny: bool, cs: seq<Clause>) {
    var ws := Tokens(Fit(text, MAX_TEXT - 1));
    && ws != [] && ws[0] == (if deny then "deny" else "permit") && SaysAll(env, ws[1..], cs) && OneFamily(cs)
    && (Said(cs, SportOf).Some? || Said(cs, DportOf).Some? ==>
          Said(cs, ProtoOf) == Some(6) || Said(cs, ProtoOf) == Some(17))
  }

  lemma FinishIs(deny: bool, cs: seq<Clause>)
    ensures var r := HeardAll(Blank(deny), cs);
      Finish(r) == if (Said(cs, SportOf).Some? || Said(cs, DportOf).Some?) && Said(cs, ProtoOf) != Some(6) &&
                      Said(cs, ProtoOf) != Some(17) then Bad(PortsNeedProto) else Ok(Meaning(deny, cs))
  {
    HeardIsMeant(deny, cs);
    var r := HeardAll(Blank(deny), cs);
    AboutNotZero(cs);
    assert r.(family := if r.family == 0 then 4 else r.family) == Meaning(deny, cs);
  }

  lemma {:induction false} AboutNotZero(cs: seq<Clause>)
    ensures Said(cs, FamilyNamed) != Some(0)
  {
    if cs != [] {
      AboutNotZero(cs[..|cs| - 1]);
    }
  }

  /**
   The parser, exactly: it takes a text exactly when that says clauses about one
   family, with L4 ports only for TCP or UDP; and the rule is what the last clause
   of each kind says, whatever way it is spelt.
   */
  lemma ParseIs(env: Env, text: string, r: Rule)
    requires Inverse(env)
    ensures Parse(env, text) == Ok(r) <==> exists deny, cs :: Means(env, text, deny, cs) && r == Meaning(deny, cs)
  {
    var ws := Tokens(Fit(text, MAX_TEXT - 1));
    if Parse(env, text) == Ok(r) {
      var deny := ws[0] == "deny";
      var cs := FieldsSay(env, Blank(deny), ws[1..]);
      FittingIs(Blank(deny), cs);
      FinishIs(deny, cs);
      assert Means(env, text, deny, cs) && r == Meaning(deny, cs);
    }
    if deny, cs :| Means(env, text, deny, cs) && r == Meaning(deny, cs) {
      FittingIs(Blank(deny), cs);
      SayFields(env, Blank(deny), ws[1..], cs);
      FinishIs(deny, cs);
    }
  }
}
