/**
 The parser's and the printer's loops, against the functions of `AclRules`.
 */
module AclParser {
  import opened Masks
  import opened Wrappers
  import opened AclBits
  import opened AclText
  import opened AclRules
  import opened AclCanon

  /** strtok_r, called until there are no more words. */
  method Tokenise(s: string) returns (ws: seq<string>)
    ensures ws == Tokens(s)
  {
    ws := [];
    var i := 0;
    while i < |s|
      invariant 0 <= i <= |s| && ws + Tokens(s[i..]) == Tokens(s)
    {
      ghost var rest := s[i..];
      if Sep(s[i]) {
        assert rest[1..] == s[i + 1..];
        i := i + 1;
      } else {
        var j := i;
        while j < |s| && !Sep(s[j])
          invariant i <= j <= |s| && forall k :: i <= k < j ==> !Sep(s[k])
          decreases |s| - j
        {
          j := j + 1;
        }
        WordEnds(rest, j - i);
        assert rest[..j - i] == s[i..j] && rest[j - i..] == s[j..];
        ws := ws + [s[i..j]];
        i := j;
      }
    }
  }

  lemma WordEnds(s: string, n: nat)
    requires n <= |s| && (forall k :: 0 <= k < n ==> !Sep(s[k])) && (n < |s| ==> Sep(s[n]))
    ensures WordLen(s) == n
  {
  }

  // ----- words with a meaning -----

  lemma {:induction false} SkipFrom(s: string, i: nat)
    requires i <= |s| && forall k :: 0 <= k < i ==> IsSpace(s[k])
    ensures SkipSpace(s) == SkipSpace(s[i..])
  {
    if i > 0 {
      assert s[i - 1..][1..] == s[i..];
      SkipFrom(s, i - 1);
    } else {
      assert s[0..] == s;
    }
  }

  lemma ValueMore(s: string, i: nat, j: nat)
    requires i <= j < |s| && forall k :: i <= k <= j ==> Digit(s[k])
    ensures Digit(s[j]) && Value(s[i..j + 1]) == 10 * Value(s[i..j]) + (s[j] - '0') as nat
  {
    var t := s[i..j + 1];
    assert t[..|t| - 1] == s[i..j] && t[|t| - 1] == s[j];
  }

  /** strtol over a whole string: blanks, a sign, digits, and nothing after. */
  method ReadNumber(s: string, max: nat) returns (r: Option<nat>)
    ensures r == Number(s, max)
  {
    if s == "" {
      return Some(0);
    }
    var i := 0;
    while i < |s| && IsSpace(s[i])
      invariant 0 <= i <= |s| && forall k :: 0 <= k < i ==> IsSpace(s[k])
    {
      i := i + 1;
    }
    SkipFrom(s, i);
    ghost var t := s[i..];
    assert SkipSpace(s) == t;
    var minus, signed := false, false;
    if i < |s| && (s[i] == '+' || s[i] == '-') {
      signed, minus := true, s[i] == '-';
      i := i + 1;
    }
    ghost var u := if signed then t[1..] else t;
    assert u == s[i..];
    var ok, v := ReadDigits(s, i);
    assert ok == Digits(u);
    if !ok || (minus && v > 0) || v > max {
      return None;
    }
    return Some(v);
  }

  method ReadDigits(s: string, from: nat) returns (ok: bool, v: nat)
    requires from <= |s|
    ensures ok == Digits(s[from..])
    ensures ok ==> v == Value(s[from..])
  {
    v := 0;
    var j := from;
    while j < |s| && Digit(s[j])
      invariant from <= j <= |s| && (forall k :: from <= k < j ==> Digit(s[k])) && v == Value(s[from..j])
    {
      ValueMore(s, from, j);
      v := 10 * v + (s[j] - '0') as nat;
      j := j + 1;
    }
    ok := from < j && j == |s|;
    assert s[from..|s|] == s[from..];
    if j < |s| {
      assert s[from..][j - from] == s[j];
    }
  }

  /** port_by_name: the first port of that name. */
  method FindPort(taps: seq<(string, nat)>, name: string) returns (r: Option<nat>)
    ensures r == PortByName(taps, name)
  {
    var i := 0;
    while i < |taps|
      invariant 0 <= i <= |taps| && PortByName(taps, name) == PortByName(taps[i..], name)
    {
      if taps[i].0 == name {
        return Some(taps[i].1);
      }
      assert taps[i..][1..] == taps[i + 1..];
      i := i + 1;
    }
    return None;
  }

  const KNOWN: seq<(string, nat)> :=
    [("icmp", 1), ("igmp", 2), ("tcp", 6), ("udp", 17), ("gre", 47), ("esp", 50), ("ah", 51), ("icmpv6", 58),
     ("icmp6", 58), ("ospf", 89), ("vrrp", 112), ("sctp", 132)]

  predicate NotAmong(s: string, i: nat) {
    forall j :: 0 <= j < i && j < |KNOWN| ==> KNOWN[j].0 != s
  }

  lemma KnownAt(s: string, i: nat)
    requires i <= |KNOWN| && NotAmong(s, i)
    ensures i < |KNOWN| && KNOWN[i].0 == s ==> KnownProto(s) == Some(KNOWN[i].1)
    ensures i == |KNOWN| ==> KnownProto(s).None?
  {
    assert i > 0 ==> KNOWN[0].0 != s;
    assert i > 1 ==> KNOWN[1].0 != s;
    assert i > 2 ==> KNOWN[2].0 != s;
    assert i > 3 ==> KNOWN[3].0 != s;
    assert i > 4 ==> KNOWN[4].0 != s;
    assert i > 5 ==> KNOWN[5].0 != s;
    assert i > 6 ==> KNOWN[6].0 != s;
    assert i > 7 ==> KNOWN[7].0 != s;
    assert i > 8 ==> KNOWN[8].0 != s;
    assert i > 9 ==> KNOWN[9].0 != s;
    assert i > 10 ==> KNOWN[10].0 != s;
    assert i > 11 ==> KNOWN[11].0 != s;
  }

  /** proto_number: a name, or a number. */
  method ReadProto(s: string) returns (r: Option<nat>)
    ensures r == ProtoNumber(s)
  {
    var i := 0;
    while i < |KNOWN|
      invariant 0 <= i <= |KNOWN| && NotAmong(s, i)
    {
      KnownAt(s, i);
      if KNOWN[i].0 == s {
        return Some(KNOWN[i].1);
      }
      i := i + 1;
    }
    KnownAt(s, i);
    r := ReadNumber(s, 255);
  }

  /** The address part of a prefix and its length. */
  method ReadParts(buf: string, max: nat) returns (parts: Option<(string, nat)>)
    ensures parts == Split(buf, max)
  {
    var i := 0;
    while i < |buf| && buf[i] != '/'
      invariant 0 <= i <= |buf| && forall k :: 0 <= k < i ==> buf[k] != '/'
    {
      i := i + 1;
    }
    assert Slash(buf) == i;
    if i == |buf| {
      return Some((buf, max));
    }
    var len := ReadNumber(buf[i + 1..], max);
    return if len.None? then None else Some((buf[..i], len.value));
  }

  method ReadPrefix4(env: Env, s: string) returns (r: Option<Prefix>)
    ensures r == ParsePrefix4(env, s)
  {
    var parts := ReadParts(Fit(s, 39), 32);
    if parts.None? || parts.value.1 > 32 {
      return None;
    }
    var a := env.pton4(parts.value.0);
    if a.None? {
      return None;
    }
    var mask := if parts.value.1 == 0 then 0 else (0xffff_ffff * Pow2(32 - parts.value.1)) % WORD;
    return Some(V4(And(a.value, mask), mask));
  }

  /** Address and mask, byte after byte. */
  method ReadPrefix6(env: Env, s: string) returns (r: Option<Prefix>)
    ensures r == ParsePrefix6(env, s)
  {
    var parts := ReadParts(Fit(s, 63), 128);
    if parts.None? {
      return None;
    }
    var a, len := env.pton6(parts.value.0), parts.value.1;
    if a.None? || |a.value| != 16 {
      return None;
    }
    var addr, mask := [], [];
    for i := 0 to 16
      invariant |addr| == |mask| == i
      invariant forall j :: 0 <= j < i ==> mask[j] == Mask6(len)[j] && addr[j] == And6(a.value, Mask6(len))[j]
    {
      var bits := len as int - i * 8;
      var m := if bits >= 8 then Hi(8, 8) else if bits <= 0 then Hi(8, 0) else Hi(8, bits);
      mask := mask + [m];
      addr := addr + [And(a.value[i], m)];
    }
    assert mask == Mask6(len) && addr == And6(a.value, Mask6(len));
    return Some(V6(addr, mask));
  }

  /** src or dst. */
  method ReadSide(env: Env, r: Rule, source: bool, arg: string) returns (p: Parsed)
    ensures p == SetPrefix(env, r, source, arg)
  {
    var six := ':' in arg;
    p := SetFamily(r, if six then 6 else 4, arg);
    if p.Bad? {
      return;
    }
    var prefix;
    if six {
      prefix := ReadPrefix6(env, arg);
    } else {
      prefix := ReadPrefix4(env, arg);
    }
    if prefix.None? {
      return Bad(NoPrefix(arg));
    }
    return if source then Ok(p.rule.(src := prefix)) else Ok(p.rule.(dst := prefix));
  }

  /** A keyword and its argument. */
  method ReadField(env: Env, r: Rule, tok: string, arg: string) returns (p: Parsed)
    ensures p == Field(env, r, tok, arg)
  {
    if tok == "in" {
      var port := FindPort(env.taps, arg);
      p := if port.None? then Bad(NoSuchPort(arg)) else Ok(r.(inPort := port));
    } else if tok == "proto" {
      var n := ReadProto(arg);
      p := if n.None? then Bad(NoProtocol(arg)) else Ok(r.(proto := n));
    } else if tok == "src" {
      p := ReadSide(env, r, true, arg);
    } else if tok == "dst" {
      p := ReadSide(env, r, false, arg);
    } else if tok == "sport" {
      var n := ReadNumber(arg, 65535);
      p := if n.None? then Bad(NoL4Port(arg)) else Ok(r.(sport := n));
    } else if tok == "dport" {
      var n := ReadNumber(arg, 65535);
      p := if n.None? then Bad(NoL4Port(arg)) else Ok(r.(dport := n));
    } else {
      p := Bad(NoKeyword(tok));
    }
  }

  // ----- a rule -----

  /** A rule filled in from its text, word by word. */
  method ParseRule(env: Env, text: string) returns (p: Parsed)
    ensures p == Parse(env, text)
  {
    var ws := Tokenise(Fit(text, MAX_TEXT - 1));
    if ws == [] {
      return Bad(Empty);
    }
    var r;
    if ws[0] == "permit" {
      r := Blank(false);
    } else if ws[0] == "deny" {
      r := Blank(true);
    } else {
      return Bad(NoAction(ws[0]));
    }
    p := ReadFields(env, r, ws[1..]);
    if p.Bad? {
      return;
    }
    r := p.rule;
    if r.family == 0 {
      r := r.(family := 4);
    }
    if (r.sport.Some? || r.dport.Some?) && r.proto != Some(6) && r.proto != Some(17) {
      return Bad(PortsNeedProto);
    }
    return Ok(r);
  }

  method ReadFields(env: Env, start: Rule, ws: seq<string>) returns (p: Parsed)
    ensures p == Fields(env, start, ws)
  {
    var r, i := start, 0;
    while i < |ws|
      invariant 0 <= i <= |ws| && Fields(env, r, ws[i..]) == Fields(env, start, ws)
    {
      ghost var rest := ws[i..];
      var f: Parsed;
      if Family4(ws[i]) {
        f := SetFamily(r, 4, ws[i]);
        assert rest[1..] == ws[i + 1..];
        i := i + 1;
      } else if Family6(ws[i]) {
        f := SetFamily(r, 6, ws[i]);
        assert rest[1..] == ws[i + 1..];
        i := i + 1;
      } else if i + 1 == |ws| {
        return Bad(NeedsValue(ws[i]));
      } else {
        f := ReadField(env, r, ws[i], ws[i + 1]);
        assert rest[2..] == ws[i + 2..];
        i := i + 2;
      }
      if f.Bad? {
        return f;
      }
      r := f.rule;
    }
    return Ok(r);
  }

  /** prefix_len4: the mask shifted out of a 32-bit word. */
  method PrefixLen4(mask: nat) returns (n: nat)
    requires mask < WORD
    ensures n == LengthOf(V4(0, mask))
  {
    Pow2Word();
    Pow2Half();
    n := 0;
    var m: nat := mask;
    while m >= 0x8000_0000
      invariant m < WORD && n + LeadingOnes(32, m) == LeadingOnes(32, mask)
      decreases m
    {
      n := n + 1;
      m := (2 * m) % WORD;
    }
  }

  lemma Pow2Half()
    ensures Pow2(31) == 0x8000_0000
  {
    Pow2Word();
  }

  /** prefix_len6: the same, byte after byte. */
  method PrefixLen6(mask: seq<nat>) returns (n: nat)
    requires |mask| == 16 && Bytes(mask)
    ensures n == LengthOf(V6([], mask))
  {
    Pow2Byte();
    n := 0;
    var i := 0;
    while i < 16
      invariant 0 <= i <= 16 && n == Ones6(mask, i)
    {
      var b: nat := mask[i];
      while b >= 128
        invariant b < 256 && n + LeadingOnes(8, b) == Ones6(mask, i) + LeadingOnes(8, mask[i])
        decreases b
      {
        n := n + 1;
        b := (2 * b) % 256;
      }
      i := i + 1;
    }
  }

  // ----- printing -----

  /** What rule_text has written: the buffer, and how many characters it would
      have taken to write it all. */
  datatype Written = Written(buf: string, n: nat)

  /** The buffer holds what fits of the text so far. */
  ghost predicate Holds(w: Written, text: string) {
    w == Written(Fit(text, MAX_TEXT - 1), |text|)
  }

  /** snprintf at the text's end, into what is left of the buffer. There is
      never less than nothing left. */
  method Emit(w: Written, piece: string, ghost text: string) returns (v: Written)
    requires Holds(w, text) && |text| <= MAX_TEXT
    ensures Holds(v, text + piece)
  {
    var room := MAX_TEXT - w.n;
    var buf := if room == 0 then w.buf else w.buf + Fit(piece, room - 1);
    v := Written(buf, w.n + |piece|);
  }

  lemma JoinPart(ws: seq<string>, word: string, value: Option<string>)
    requires ws != []
    ensures Join(ws + Part(word, value)) == Join(ws) + if value.None? then "" else " " + word + " " + value.value
  {
    if value.Some? {
      JoinMore(ws, word);
      JoinMore(ws + [word], value.value);
      assert ws + Part(word, value) == ws + [word] + [value.value];
    } else {
      assert ws + Part(word, value) == ws;
    }
  }

  method Append(w: Written, word: string, value: Option<string>, ghost ws: seq<string>) returns (v: Written)
    requires ws != [] && Holds(w, Join(ws)) && |Join(ws)| <= MAX_TEXT
    ensures Holds(v, Join(ws + Part(word, value))) && |Join(ws)| <= |Join(ws + Part(word, value))|
  {
    JoinPart(ws, word, value);
    v := w;
    if value.Some? {
      v := Emit(w, " " + word + " " + value.value, Join(ws));
      assert Join(ws) + (" " + word + " " + value.value) == Join(ws + Part(word, value));
    } else {
      assert Join(ws) + "" == Join(ws);
    }
  }

  /** A text only grows. */
  lemma Grows(ws: seq<string>, more: seq<string>)
    requires ws != []
    ensures |Join(ws)| <= |Join(ws + more)|
  {
    JoinWidth(ws);
    JoinWidth(ws + more);
    WidthConcat(ws, more);
  }

  lemma Grouped(ws: seq<string>, a: seq<string>, b: seq<string>, c: seq<string>, d: seq<string>)
    ensures ws + a + b + c + d == ws + (a + (b + (c + (d + []))))
  {
  }

  lemma Grouped2(ws: seq<string>, a: seq<string>, b: seq<string>, c: seq<string>)
    ensures ws + a + b + c == ws + (a + (b + c))
  {
  }

  method AppendEnds(env: Env, r: Rule, w: Written, ghost ws: seq<string>) returns (v: Written)
    requires ws != [] && Holds(w, Join(ws)) && |Join(ws + Ends(env, r))| <= MAX_TEXT
    ensures Holds(v, Join(ws + Ends(env, r)))
  {
    ghost var a, b := Part("src", PrefixWordOf(env, r.src)), Part("dst", PrefixWordOf(env, r.dst));
    ghost var c, d := Part("sport", NumberWord(r.sport)), Part("dport", NumberWord(r.dport));
    Grouped(ws, a, b, c, d);
    Grows(ws + a + b + c, d);
    Grows(ws + a + b, c);
    Grows(ws + a, b);
    Grows(ws, a);
    v := Append(w, "src", PrefixWordOf(env, r.src), ws);
    v := Append(v, "dst", PrefixWordOf(env, r.dst), ws + a);
    v := Append(v, "sport", NumberWord(r.sport), ws + a + b);
    v := Append(v, "dport", NumberWord(r.dport), ws + a + b + c);
  }

  method AppendMatches(env: Env, r: Rule, w: Written, ghost ws: seq<string>) returns (v: Written)
    requires ws != [] && Holds(w, Join(ws)) && |Join(ws + Matches(env, r))| <= MAX_TEXT
    ensures Holds(v, Join(ws + Matches(env, r)))
  {
    ghost var a, b := Part("in", InText(env, r)), Part("proto", ProtoWord(r));
    Grouped2(ws, a, b, Ends(env, r));
    Grows(ws + a + b, Ends(env, r));
    Grows(ws + a, b);
    Grows(ws, a);
    v := Append(w, "in", InText(env, r), ws);
    v := Append(v, "proto", ProtoWord(r), ws + a);
    v := AppendEnds(env, r, v, ws + a + b);
  }

  function Head(r: Rule): seq<string> {
    [if r.deny then "deny" else "permit"] + if r.family == 6 then ["ipv6"] else []
  }

  method HeadText(r: Rule) returns (out: string)
    ensures out == Join(Head(r)) && |out| <= 11
  {
    out := if r.deny then "deny" else "permit";
    JoinOne(out);
    if r.family == 6 {
      JoinMore([out], "ipv6");
      out := out + " " + "ipv6";
    }
  }

  lemma JoinOne(w: string)
    ensures Join([w]) == w && [w] + [] == [w]
  {
  }

  /** The rule's text, part by part, in a buffer that may be one character
      short. */
  method RuleText(env: Env, r: Rule) returns (out: string)
    requires Inverse(env) && Named(env.taps) && Sound(env, r)
    ensures out == Canon(env, r)
  {
    TextLimit(env, r);
    var head := HeadText(r);
    var w := Emit(Written("", 0), head, "");
    assert "" + head == Join(Head(r));
    w := AppendMatches(env, r, w, Head(r));
    out := w.buf;
  }
}
