/**
 A rule's canonical text: how long it is, what the buffer keeps of it, and what
 that parses to.
 */
module AclCanon {
  import opened Wrappers
  import opened AclBits
  import opened AclText
  import opened AclRules

  /** The text as its buffer has it. */
  function Canon(env: Env, r: Rule): string {
    Fit(Text(env, r), MAX_TEXT - 1)
  }

  // ----- words -----

  ghost predicate AllClean(ws: seq<string>) {
    forall i :: 0 <= i < |ws| ==> Clean(ws[i])
  }

  /** A value to print is one word. */
  predicate CleanValue(value: Option<string>) {
    value.Some? ==> Clean(value.value)
  }

  lemma Keywords()
    ensures Clean("in") && Clean("proto") && Clean("src") && Clean("dst") && Clean("sport") && Clean("dport")
    ensures Clean("deny") && Clean("permit") && Clean("ipv6") && Clean("ip6")
  {
  }

  lemma ValuesClean(env: Env, r: Rule)
    requires Inverse(env) && Named(env.taps) && Sound(env, r)
    ensures CleanValue(InText(env, r)) && CleanValue(ProtoWord(r))
    ensures CleanValue(PrefixWordOf(env, r.src)) && CleanValue(PrefixWordOf(env, r.dst))
    ensures CleanValue(NumberWord(r.sport)) && CleanValue(NumberWord(r.dport))
  {
    if r.inPort.Some? {
      PortRoundTrip(env.taps, r.inPort.value);
    }
    if r.proto.Some? {
      ProtoRoundTrip(r.proto.value);
    }
    if r.src.Some? {
      PrefixRoundTrip(env, r.src.value);
    }
    if r.dst.Some? {
      PrefixRoundTrip(env, r.dst.value);
    }
    if r.sport.Some? {
      DecimalPlain(r.sport.value);
    }
    if r.dport.Some? {
      DecimalPlain(r.dport.value);
    }
  }

  lemma PartClean(word: string, value: Option<string>, rest: seq<string>)
    requires Clean(word) && CleanValue(value) && AllClean(rest)
    ensures AllClean(Part(word, value) + rest)
  {
  }

  lemma MatchesClean(env: Env, r: Rule)
    requires Inverse(env) && Named(env.taps) && Sound(env, r)
    ensures AllClean(Matches(env, r))
  {
    ValuesClean(env, r);
    Keywords();
    var d := Part("dport", NumberWord(r.dport)) + [];
    var c := Part("sport", NumberWord(r.sport)) + d;
    var b := Part("dst", PrefixWordOf(env, r.dst)) + c;
    PartClean("dport", NumberWord(r.dport), []);
    PartClean("sport", NumberWord(r.sport), d);
    PartClean("dst", PrefixWordOf(env, r.dst), c);
    PartClean("src", PrefixWordOf(env, r.src), b);
    PartClean("proto", ProtoWord(r), Ends(env, r));
    PartClean("in", InText(env, r), Part("proto", ProtoWord(r)) + Ends(env, r));
  }

  lemma PrintedClean(env: Env, r: Rule)
    requires Inverse(env) && Named(env.taps) && Sound(env, r)
    ensures AllClean(Printed(env, r))
  {
    MatchesClean(env, r);
    Keywords();
  }

  /** A text that fits, by its words. */
  lemma ParseWords(env: Env, text: string, deny: bool, rest: seq<string>, f: Rule)
    requires |text| < MAX_TEXT && Tokens(text) == [if deny then "deny" else "permit"] + rest
    requires Fields(env, Blank(deny), rest) == Ok(f)
    ensures Parse(env, text) == Finish(f)
  {
    var ws := Tokens(text);
    assert Fit(text, MAX_TEXT - 1) == text && ws[0] == (if deny then "deny" else "permit") && ws[1..] == rest;
  }

  /** A text that fits parses to the rule it was printed from. */
  lemma FittingParse(env: Env, r: Rule)
    requires Inverse(env) && Named(env.taps) && Sound(env, r) && |Text(env, r)| < MAX_TEXT
    ensures Canon(env, r) == Text(env, r) && Parse(env, Text(env, r)) == Ok(r)
  {
    PrintedClean(env, r);
    TokensJoin(Printed(env, r));
    HeadParse(env, r);
    assert Printed(env, r) == [if r.deny then "deny" else "permit"] + Printed(env, r)[1..];
    ParseWords(env, Text(env, r), r.deny, Printed(env, r)[1..], r.(family := Said(r)));
  }

  // ----- lengths -----

  /** Characters a list of words takes, each with a blank before it. */
  function Width(ws: seq<string>): nat {
    if ws == [] then 0 else 1 + |ws[0]| + Width(ws[1..])
  }

  lemma {:induction false} WidthConcat(a: seq<string>, b: seq<string>)
    ensures Width(a + b) == Width(a) + Width(b)
  {
    if a == [] {
      assert a + b == b;
    } else {
      assert (a + b)[1..] == a[1..] + b;
      WidthConcat(a[1..], b);
    }
  }

  lemma {:induction false} JoinWidth(ws: seq<string>)
    requires ws != []
    ensures |Join(ws)| + 1 == Width(ws)
  {
    if |ws| > 1 {
      JoinWidth(ws[1..]);
    } else {
      assert ws[1..] == [];
    }
  }

  /** What a keyword and its value take. */
  function Taken(word: string, value: Option<string>): nat {
    if value.None? then 0 else 2 + |word| + |value.value|
  }

  lemma PartWidth(word: string, value: Option<string>, rest: seq<string>)
    ensures Width(Part(word, value) + rest) == Taken(word, value) + Width(rest)
  {
    WidthConcat(Part(word, value), rest);
    if value.Some? {
      assert Part(word, value)[1..] == [value.value] && [value.value][1..] == [];
    }
  }

  /** The action, and the family if it must be said. */
  function HeadTaken(r: Rule): nat {
    (if r.deny then 5 else 7) + if r.family == 6 then 5 else 0
  }

  /** Protocol and L4 ports. */
  function L4Taken(r: Rule): nat {
    Taken("proto", ProtoWord(r)) + Taken("sport", NumberWord(r.sport)) + Taken("dport", NumberWord(r.dport))
  }

  lemma MatchesWidth(env: Env, r: Rule)
    ensures Width(Matches(env, r)) == Taken("in", InText(env, r)) + Taken("src", PrefixWordOf(env, r.src)) +
                                      Taken("dst", PrefixWordOf(env, r.dst)) + L4Taken(r)
  {
    var d := Part("dport", NumberWord(r.dport)) + [];
    var c := Part("sport", NumberWord(r.sport)) + d;
    PartWidth("dport", NumberWord(r.dport), []);
    PartWidth("sport", NumberWord(r.sport), d);
    PartWidth("dst", PrefixWordOf(env, r.dst), c);
    PartWidth("src", PrefixWordOf(env, r.src), Part("dst", PrefixWordOf(env, r.dst)) + c);
    PartWidth("proto", ProtoWord(r), Ends(env, r));
    PartWidth("in", InText(env, r), Part("proto", ProtoWord(r)) + Ends(env, r));
  }

  lemma HeadWidth(r: Rule)
    ensures Width([if r.deny then "deny" else "permit"] + if r.family == 6 then ["ipv6"] else []) == HeadTaken(r)
  {
    var a := [if r.deny then "deny" else "permit"];
    WidthConcat(a, if r.family == 6 then ["ipv6"] else []);
    assert a[1..] == [] && ["ipv6"][1..] == [];
  }

  lemma TextLength(env: Env, r: Rule)
    ensures |Text(env, r)| + 1 ==
            HeadTaken(r) + Taken("in", InText(env, r)) + Taken("src", PrefixWordOf(env, r.src)) +
            Taken("dst", PrefixWordOf(env, r.dst)) + L4Taken(r)
  {
    var head := [if r.deny then "deny" else "permit"] + if r.family == 6 then ["ipv6"] else [];
    HeadWidth(r);
    MatchesWidth(env, r);
    WidthConcat(head, Matches(env, r));
    JoinWidth(Printed(env, r));
  }

  // ----- the longest rules -----

  /** Everything said, everything in full, and a name as long as they come. */
  predicate Overlong(env: Env, r: Rule) {
    !r.deny && r.family == 6 && (r.proto == Some(6) || r.proto == Some(17)) && LongName(env, r.inPort) &&
    LongPrefix(env, r.src) && LongPrefix(env, r.dst) && LongPort(r.sport) && LongPort(r.dport)
  }

  predicate LongName(env: Env, port: Option<nat>) {
    port.Some? && |PortName(env.taps, port.value)| == IFNAMSIZ - 1
  }

  predicate LongPrefix(env: Env, p: Option<Prefix>) {
    p.Some? && |AddressText(env, p.value)| == 39 && 100 <= LengthOf(p.value)
  }

  predicate LongPort(n: Option<nat>) {
    n.Some? && 10000 <= n.value
  }

  lemma ThreeDigits(n: nat)
    requires n < 1000
    ensures |Decimal(n)| <= 3 && (|Decimal(n)| == 3 <==> 100 <= n)
  {
    DecimalLength(n);
    if 100 <= n {
      assert |Decimal(n / 100)| == 1 && |Decimal(n / 10)| == 2;
    }
  }

  lemma FiveDigits(n: nat)
    requires n < 100000
    ensures |Decimal(n)| <= 5 && (|Decimal(n)| == 5 <==> 10000 <= n)
  {
    DecimalLength(n);
    DecimalLength1(n);
    if 10000 <= n {
      ThreeDigits(n / 100);
      assert |Decimal(n / 10)| == 4;
    }
  }

  lemma PrefixTaken(env: Env, family: nat, p: Option<Prefix>)
    requires Inverse(env) && PrefixSound(family, p)
    ensures var value := PrefixWordOf(env, p);
      Taken("src", value) == Taken("dst", value) <= 48 && (Taken("src", value) == 48 <==> LongPrefix(env, p))
  {
    if p.Some? {
      var len: nat :| Canon4(p.value, len) || Canon6(p.value, len);
      LengthIs(p.value, len);
      AddressPlain(env, p.value, len);
      ThreeDigits(len);
    }
  }

  lemma PortTaken(n: Option<nat>)
    requires n.Some? ==> n.value <= 65535
    ensures var value := NumberWord(n);
      Taken("sport", value) == Taken("dport", value) <= 12 && (Taken("sport", value) == 12 <==> LongPort(n))
  {
    if n.Some? {
      FiveDigits(n.value);
    }
  }

  lemma NameTaken(env: Env, r: Rule)
    requires Named(env.taps) && Drafted(env, r)
    ensures Taken("in", InText(env, r)) <= 19 && (Taken("in", InText(env, r)) == 19 <==> LongName(env, r.inPort))
  {
    if r.inPort.Some? {
      PortRoundTrip(env.taps, r.inPort.value);
    }
  }

  /** L4 ports go with TCP or UDP alone, whose names are short. */
  lemma L4TakenMost(env: Env, r: Rule)
    requires Sound(env, r)
    ensures L4Taken(r) <= 34
    ensures L4Taken(r) == 34 <==> (r.proto == Some(6) || r.proto == Some(17)) && LongPort(r.sport) && LongPort(r.dport)
  {
    PortTaken(r.sport);
    PortTaken(r.dport);
    if r.proto.Some? {
      ProtoRoundTrip(r.proto.value);
    }
  }

  /** The canonical text of a rule that parsed is at most one character too
      long for its buffer, and that exactly when nothing in it could be
      longer. */
  lemma TextLimit(env: Env, r: Rule)
    requires Inverse(env) && Named(env.taps) && Sound(env, r)
    ensures |Text(env, r)| <= MAX_TEXT && (|Text(env, r)| == MAX_TEXT <==> Overlong(env, r))
  {
    TextLength(env, r);
    NameTaken(env, r);
    PrefixTaken(env, r.family, r.src);
    PrefixTaken(env, r.family, r.dst);
    L4TakenMost(env, r);
  }

  // ----- what the buffer keeps -----

  lemma {:induction false} JoinMore(ws: seq<string>, w: string)
    requires ws != []
    ensures Join(ws + [w]) == Join(ws) + " " + w
  {
    if |ws| == 1 {
      assert ws + [w] == [ws[0], w] && (ws + [w])[1..] == [w];
    } else {
      assert (ws + [w])[1..] == ws[1..] + [w];
      JoinMore(ws[1..], w);
    }
  }

  /** The rule with the last digit of its destination port gone. */
  function Cut(r: Rule): Rule
    requires r.dport.Some?
  {
    r.(dport := Some(r.dport.value / 10))
  }

  /** All the words but the destination port. */
  function Before(env: Env, r: Rule): seq<string> {
    [if r.deny then "deny" else "permit"] + (if r.family == 6 then ["ipv6"] else []) +
    Part("in", InText(env, r)) + Part("proto", ProtoWord(r)) + Part("src", PrefixWordOf(env, r.src)) +
    Part("dst", PrefixWordOf(env, r.dst)) + Part("sport", NumberWord(r.sport)) + ["dport"]
  }

  lemma Regrouped(h: seq<string>, a: seq<string>, b: seq<string>, c: seq<string>, d: seq<string>, e: seq<string>,
                  w: string)
    ensures h + (a + (b + (c + (d + (e + (["dport", w] + [])))))) == h + a + b + c + d + e + ["dport"] + [w]
  {
    var t := ["dport", w];
    assert t + [] == ["dport"] + [w];
    assert d + (e + t) == d + e + t;
    assert a + (b + (c + (d + e + t))) == a + b + c + d + e + t;
  }

  lemma LastWord(env: Env, r: Rule)
    requires r.dport.Some?
    ensures Text(env, r) == Join(Before(env, r)) + " " + Decimal(r.dport.value)
  {
    var head := [if r.deny then "deny" else "permit"] + (if r.family == 6 then ["ipv6"] else []);
    Regrouped(head, Part("in", InText(env, r)), Part("proto", ProtoWord(r)), Part("src", PrefixWordOf(env, r.src)),
              Part("dst", PrefixWordOf(env, r.dst)), Part("sport", NumberWord(r.sport)), Decimal(r.dport.value));
    JoinMore(Before(env, r), Decimal(r.dport.value));
  }

  lemma CutSound(env: Env, r: Rule)
    requires Sound(env, r) && Overlong(env, r)
    ensures Sound(env, Cut(r)) && !Overlong(env, Cut(r)) && Before(env, Cut(r)) == Before(env, r)
  {
  }

  /** A number that does not fit by one digit is left without it. */
  lemma LastDigit(s: string, d: nat, max: nat)
    requires 10 <= d && |s + Decimal(d)| == max + 1
    ensures Fit(s + Decimal(d), max) == s + Decimal(d / 10)
  {
    assert s + Decimal(d) == s + Decimal(d / 10) + ['0' + (d % 10) as char];
  }

  /** An overlong rule's text in its buffer is the text of another rule. */
  lemma CutText(env: Env, r: Rule)
    requires Inverse(env) && Named(env.taps) && Sound(env, r) && Overlong(env, r)
    ensures Canon(env, r) == Text(env, Cut(r)) && Sound(env, Cut(r)) && !Overlong(env, Cut(r))
  {
    TextLimit(env, r);
    CutSound(env, r);
    LastWord(env, r);
    LastWord(env, Cut(r));
    LastDigit(Join(Before(env, r)) + " ", r.dport.value, MAX_TEXT - 1);
  }

  /** The canonical text as written parses to the rule it was printed from
      exactly when that rule is not overlong; an overlong one comes back with
      another destination port. */
  lemma PrintParse(env: Env, r: Rule)
    requires Inverse(env) && Named(env.taps) && Sound(env, r)
    ensures Parse(env, Canon(env, r)) == Ok(r) <==> !Overlong(env, r)
    ensures Overlong(env, r) ==> Parse(env, Canon(env, r)) == Ok(Cut(r))
  {
    TextLimit(env, r);
    if Overlong(env, r) {
      CutText(env, r);
      TextLimit(env, Cut(r));
      FittingParse(env, Cut(r));
    } else {
      FittingParse(env, r);
    }
  }

  /** For every text that parses: its canonical form as written parses to the
      same rule exactly when that is not overlong, and is its own canonical
      form either way. */
  lemma RoundTrip(env: Env, text: string)
    requires Inverse(env) && Named(env.taps) && Parse(env, text).Ok?
    ensures var canon := Canon(env, Parse(env, text).rule);
      (Parse(env, canon) == Parse(env, text) <==> !Overlong(env, Parse(env, text).rule)) &&
      Parse(env, canon).Ok? && Canon(env, Parse(env, canon).rule) == canon
  {
    ParsedSound(env, text);
    var r := Parse(env, text).rule;
    PrintParse(env, r);
    if Overlong(env, r) {
      CutText(env, r);
      TextLimit(env, Cut(r));
    }
  }

  // ----- overlong rules can be asked for -----

  /** A rule's words, the family spelt the shorter way. */
  function Terse(env: Env, r: Rule): string {
    Join(["permit", "ip6"] + Matches(env, r))
  }

  lemma TerseLength(env: Env, r: Rule)
    requires Inverse(env) && Named(env.taps) && Sound(env, r) && Overlong(env, r)
    ensures |Terse(env, r)| == MAX_TEXT - 1
  {
    TextLimit(env, r);
    TextLength(env, r);
    MatchesWidth(env, r);
    var head := ["permit", "ip6"];
    WidthConcat(head, Matches(env, r));
    assert head[1..] == ["ip6"] && ["ip6"][1..] == [];
    JoinWidth(head + Matches(env, r));
  }

  lemma TerseWords(env: Env, r: Rule)
    requires Inverse(env) && Named(env.taps) && Sound(env, r)
    ensures Tokens(Terse(env, r)) == ["permit", "ip6"] + Matches(env, r)
  {
    MatchesClean(env, r);
    Keywords();
    TokensJoin(["permit", "ip6"] + Matches(env, r));
  }

  lemma TerseFields(env: Env, r: Rule)
    requires Inverse(env) && Named(env.taps) && Sound(env, r) && !r.deny && r.family == 6
    ensures Fields(env, Blank(false), ["ip6"] + Matches(env, r)) == Ok(r)
  {
    MatchesParse(env, r);
    FamilyStep(env, false, "ip6", Matches(env, r));
  }

  lemma Regroup(a: string, b: string, ws: seq<string>)
    ensures [a, b] + ws == [a] + ([b] + ws)
  {
  }

  lemma FinishSound(env: Env, r: Rule)
    requires Sound(env, r)
    ensures Finish(r) == Ok(r)
  {
  }

  /** So spelt, an overlong rule fits the parser's buffer and parses. */
  lemma TerseParses(env: Env, r: Rule)
    requires Inverse(env) && Named(env.taps) && Sound(env, r) && Overlong(env, r)
    ensures |Terse(env, r)| == MAX_TEXT - 1 && Parse(env, Terse(env, r)) == Ok(r)
  {
    TerseLength(env, r);
    TerseWords(env, r);
    TerseFields(env, r);
    FinishSound(env, r);
    Regroup("permit", "ip6", Matches(env, r));
    ParseWords(env, Terse(env, r), false, ["ip6"] + Matches(env, r), r);
  }

  // ----- one of them -----

  const FULL: nat := 128

  /** TCP between one address and itself, all its bits set, on the last ports
      there are. */
  function Longest(port: nat): Rule {
    var host := V6(Mask6(FULL), Mask6(FULL));
    Rule(false, 6, Some(port), Some(6), Some(host), Some(host), Some(65535), Some(65535))
  }

  lemma {:induction false} AndSelf(a: nat)
    ensures And(a, a) == a
  {
    if a != 0 {
      AndSelf(a / 2);
    }
  }

  lemma HostCanon()
    ensures Canon6(V6(Mask6(FULL), Mask6(FULL)), FULL)
  {
    Mask6Bytes(FULL);
    var m := Mask6(FULL);
    forall i | 0 <= i < 16 ensures And6(m, m)[i] == m[i] {
      AndSelf(m[i]);
    }
    assert And6(m, m) == m;
  }

  /** On a port whose name has fifteen characters it can be asked for, and is
      written, and read back, with destination port 6553. */
  lemma PortLost(env: Env, port: nat)
    requires Inverse(env) && Named(env.taps) && HasPort(env.taps, port)
    requires |PortName(env.taps, port)| == IFNAMSIZ - 1 && |env.ntop6(Mask6(FULL))| == 39
    ensures var r := Longest(port);
      Parse(env, Terse(env, r)) == Ok(r) && Parse(env, Canon(env, r)) == Ok(r.(dport := Some(6553)))
  {
    HostCanon();
    LengthIs(V6(Mask6(FULL), Mask6(FULL)), FULL);
    TerseParses(env, Longest(port));
    PrintParse(env, Longest(port));
  }
}
