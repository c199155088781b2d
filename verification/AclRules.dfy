/**
 An access rule, its parser and its canonical text.
 */
module AclRules {
  import opened Wrappers
  import opened AclBits
  import opened AclText

  const MAX_TEXT: nat := 160
  const IFNAMSIZ: nat := 16

  /** family 0 while parsing: not yet said. */
  datatype Rule = Rule(deny: bool, family: nat, inPort: Option<nat>, proto: Option<nat>, src: Option<Prefix>,
                       dst: Option<Prefix>, sport: Option<nat>, dport: Option<nat>)

  /** What was wrong, and the word it was wrong in. */
  datatype Error = Empty | NoAction(w: string) | TwoFamilies(w: string) | NeedsValue(w: string) | NoSuchPort(w: string)
    | NoProtocol(w: string) | NoPrefix(w: string) | NoL4Port(w: string) | NoKeyword(w: string) | PortsNeedProto

  datatype Parsed = Ok(rule: Rule) | Bad(error: Error)

  // ----- protocols and ports -----

  function KnownProto(s: string): Option<nat> {
    if s == "icmp" then Some(1) else if s == "igmp" then Some(2) else if s == "tcp" then Some(6)
    else if s == "udp" then Some(17) else if s == "gre" then Some(47) else if s == "esp" then Some(50)
    else if s == "ah" then Some(51) else if s == "icmpv6" then Some(58) else if s == "icmp6" then Some(58)
    else if s == "ospf" then Some(89) else if s == "vrrp" then Some(112) else if s == "sctp" then Some(132)
    else None
  }

  function ProtoNumber(s: string): Option<nat> {
    if KnownProto(s).Some? then KnownProto(s) else Number(s, 255)
  }

  function ProtoName(n: nat): Option<string> {
    if n == 1 then Some("icmp") else if n == 2 then Some("igmp") else if n == 6 then Some("tcp")
    else if n == 17 then Some("udp") else if n == 47 then Some("gre") else if n == 50 then Some("esp")
    else if n == 51 then Some("ah") else if n == 58 then Some("icmpv6") else if n == 89 then Some("ospf")
    else if n == 112 then Some("vrrp") else if n == 132 then Some("sctp") else None
  }

  function ProtoText(n: nat): string {
    if ProtoName(n).Some? then ProtoName(n).value else Decimal(n)
  }

  lemma NameKnown(n: nat)
    ensures ProtoName(n).Some? ==> KnownProto(ProtoName(n).value) == Some(n)
  {
  }

  lemma NameClean(n: nat)
    ensures ProtoName(n).Some? ==> Clean(ProtoName(n).value) && |ProtoName(n).value| <= 6
  {
  }

  /** No protocol's name begins with a digit. */
  lemma DigitsUnknown(s: string)
    requires s != "" && Digit(s[0])
    ensures KnownProto(s).None?
  {
  }

  lemma ProtoRoundTrip(n: nat)
    requires n <= 255
    ensures ProtoNumber(ProtoText(n)) == Some(n) && Clean(ProtoText(n)) && |ProtoText(n)| <= 6
  {
    if ProtoName(n).Some? {
      NameKnown(n);
      NameClean(n);
    } else {
      DecimalDigits(n);
      DecimalPlain(n);
      NumberDecimal(n, 255);
      DigitsUnknown(Decimal(n));
    }
  }

  function PortByName(taps: seq<(string, nat)>, name: string): Option<nat> {
    if taps == [] then None else if taps[0].0 == name then Some(taps[0].1) else PortByName(taps[1..], name)
  }

  function PortName(taps: seq<(string, nat)>, port: nat): string {
    if taps == [] then "?" else if taps[0].1 == port then taps[0].0 else PortName(taps[1..], port)
  }

  /** Each port has one name and each name one port; a name is a word, of as
      many characters as an interface's can have. */
  ghost predicate Named(taps: seq<(string, nat)>) {
    (forall i, j :: 0 <= i < j < |taps| ==> taps[i].0 != taps[j].0 && taps[i].1 != taps[j].1) &&
    forall i :: 0 <= i < |taps| ==> Clean(taps[i].0) && |taps[i].0| < IFNAMSIZ
  }

  ghost predicate HasPort(taps: seq<(string, nat)>, port: nat) {
    exists i :: 0 <= i < |taps| && taps[i].1 == port
  }

  lemma {:induction false} PortRoundTrip(taps: seq<(string, nat)>, port: nat)
    requires Named(taps) && HasPort(taps, port)
    ensures PortByName(taps, PortName(taps, port)) == Some(port)
    ensures exists i :: 0 <= i < |taps| && taps[i] == (PortName(taps, port), port)
  {
    if taps[0].1 != port {
      var i :| 0 <= i < |taps| && taps[i].1 == port;
      assert taps[1..][i - 1] == taps[i];
      PortRoundTrip(taps[1..], port);
      var j :| 0 <= j < |taps[1..]| && taps[1..][j] == (PortName(taps[1..], port), port);
      assert taps[j + 1] == (PortName(taps, port), port);
    }
  }

  lemma {:induction false} FoundPort(taps: seq<(string, nat)>, name: string)
    ensures PortByName(taps, name).Some? ==> HasPort(taps, PortByName(taps, name).value)
  {
    if taps != [] {
      FoundPort(taps[1..], name);
      if taps[0].0 != name && PortByName(taps, name).Some? {
        var p := PortByName(taps, name).value;
        var i :| 0 <= i < |taps[1..]| && taps[1..][i].1 == p;
        assert taps[i + 1].1 == p;
      }
    }
  }

  // ----- parsing -----

  /** The family said, unless another was. */
  function SetFamily(r: Rule, fam: nat, why: string): Parsed {
    if r.family == 0 || r.family == fam then Ok(r.(family := fam)) else Bad(TwoFamilies(why))
  }

  function SetPrefix(env: Env, r: Rule, source: bool, arg: string): Parsed {
    var f := SetFamily(r, FamilyOf(arg), arg);
    if f.Bad? then f
    else
      var p := if FamilyOf(arg) == 6 then ParsePrefix6(env, arg) else ParsePrefix4(env, arg);
      if p.None? then Bad(NoPrefix(arg))
      else if source then Ok(f.rule.(src := p)) else Ok(f.rule.(dst := p))
  }

  function Field(env: Env, r: Rule, tok: string, arg: string): Parsed {
    if tok == "in" then
      var p := PortByName(env.taps, arg);
      if p.None? then Bad(NoSuchPort(arg)) else Ok(r.(inPort := p))
    else if tok == "proto" then
      var p := ProtoNumber(arg);
      if p.None? then Bad(NoProtocol(arg)) else Ok(r.(proto := p))
    else if tok == "src" || tok == "dst" then SetPrefix(env, r, tok == "src", arg)
    else if tok == "sport" then
      var p := Number(arg, 65535);
      if p.None? then Bad(NoL4Port(arg)) else Ok(r.(sport := p))
    else if tok == "dport" then
      var p := Number(arg, 65535);
      if p.None? then Bad(NoL4Port(arg)) else Ok(r.(dport := p))
    else Bad(NoKeyword(tok))
  }

  predicate Family4(w: string) { w == "ipv4" || w == "ip" }
  predicate Family6(w: string) { w == "ipv6" || w == "ip6" }

  function Fields(env: Env, r: Rule, ws: seq<string>): Parsed
    decreases |ws|
  {
    if ws == [] then Ok(r)
    else if Family4(ws[0]) || Family6(ws[0]) then
      var f := SetFamily(r, if Family4(ws[0]) then 4 else 6, ws[0]);
      if f.Bad? then f else Fields(env, f.rule, ws[1..])
    else if |ws| == 1 then Bad(NeedsValue(ws[0]))
    else
      var f := Field(env, r, ws[0], ws[1]);
      if f.Bad? then f else Fields(env, f.rule, ws[2..])
  }

  function Blank(deny: bool): Rule {
    Rule(deny, 0, None, None, None, None, None, None)
  }

  function Finish(r: Rule): Parsed {
    var s := r.(family := if r.family == 0 then 4 else r.family);
    if (s.sport.Some? || s.dport.Some?) && s.proto != Some(6) && s.proto != Some(17) then Bad(PortsNeedProto) else Ok(s)
  }

  function Parse(env: Env, text: string): Parsed {
    var ws := Tokens(Fit(text, MAX_TEXT - 1));
    if ws == [] then Bad(Empty)
    else if ws[0] != "permit" && ws[0] != "deny" then Bad(NoAction(ws[0]))
    else
      var f := Fields(env, Blank(ws[0] == "deny"), ws[1..]);
      if f.Bad? then f else Finish(f.rule)
  }

  // ----- printing -----

  /** A keyword and its value, if there is one. */
  function Part(word: string, value: Option<string>): seq<string> {
    if value.None? then [] else [word, value.value]
  }

  function InText(env: Env, r: Rule): Option<string> {
    if r.inPort.None? then None else Some(PortName(env.taps, r.inPort.value))
  }

  function ProtoWord(r: Rule): Option<string> {
    if r.proto.None? then None else Some(ProtoText(r.proto.value))
  }

  function PrefixWordOf(env: Env, p: Option<Prefix>): Option<string> {
    if p.None? then None else Some(PrefixText(env, p.value))
  }

  function NumberWord(n: Option<nat>): Option<string> {
    if n.None? then None else Some(Decimal(n.value))
  }

  /** What a rule matches on, always spelt in this order. */
  function Matches(env: Env, r: Rule): seq<string> {
    Part("in", InText(env, r)) + (Part("proto", ProtoWord(r)) + Ends(env, r))
  }

  function Ends(env: Env, r: Rule): seq<string> {
    Part("src", PrefixWordOf(env, r.src)) + (Part("dst", PrefixWordOf(env, r.dst)) +
    (Part("sport", NumberWord(r.sport)) + (Part("dport", NumberWord(r.dport)) + [])))
  }

  function Printed(env: Env, r: Rule): seq<string> {
    [if r.deny then "deny" else "permit"] + (if r.family == 6 then ["ipv6"] else []) + Matches(env, r)
  }

  function Text(env: Env, r: Rule): string {
    Join(Printed(env, r))
  }

  // ----- what parses -----

  ghost predicate PrefixSound(family: nat, p: Option<Prefix>) {
    p.Some? ==> Canonical(p.value) && family == (if p.value.V4? then 4 else 6)
  }

  ghost predicate Drafted(env: Env, r: Rule) {
    (r.family == 0 || r.family == 4 || r.family == 6) &&
    (r.inPort.Some? ==> HasPort(env.taps, r.inPort.value)) && (r.proto.Some? ==> r.proto.value <= 255) &&
    PrefixSound(r.family, r.src) && PrefixSound(r.family, r.dst) &&
    (r.sport.Some? ==> r.sport.value <= 65535) && (r.dport.Some? ==> r.dport.value <= 65535)
  }

  /** A rule as a successful parse leaves it. */
  ghost predicate Sound(env: Env, r: Rule) {
    Drafted(env, r) && r.family != 0 &&
    (r.sport.Some? || r.dport.Some? ==> r.proto == Some(6) || r.proto == Some(17))
  }

  lemma NumberBound(s: string, max: nat)
    ensures Number(s, max).Some? ==> Number(s, max).value <= max
  {
  }

  lemma SetPrefixDrafted(env: Env, r: Rule, source: bool, arg: string)
    requires Inverse(env) && Drafted(env, r) && SetPrefix(env, r, source, arg).Ok?
    ensures Drafted(env, SetPrefix(env, r, source, arg).rule)
  {
    ParsedCanonical(env, arg);
  }

  lemma NumberDrafted(env: Env, r: Rule, arg: string)
    requires Drafted(env, r)
    ensures ProtoNumber(arg).Some? ==> Drafted(env, r.(proto := ProtoNumber(arg)))
    ensures Number(arg, 65535).Some? ==>
      Drafted(env, r.(sport := Number(arg, 65535))) && Drafted(env, r.(dport := Number(arg, 65535)))
  {
    NumberBound(arg, 255);
    NumberBound(arg, 65535);
  }

  lemma FieldDrafted(env: Env, r: Rule, tok: string, arg: string)
    requires Inverse(env) && Drafted(env, r) && Field(env, r, tok, arg).Ok?
    ensures Drafted(env, Field(env, r, tok, arg).rule)
  {
    if tok == "in" {
      FoundPort(env.taps, arg);
    } else if tok == "src" || tok == "dst" {
      SetPrefixDrafted(env, r, tok == "src", arg);
    } else {
      NumberDrafted(env, r, arg);
    }
  }

  lemma {:induction false} FieldsDrafted(env: Env, r: Rule, ws: seq<string>)
    requires Inverse(env) && Drafted(env, r) && Fields(env, r, ws).Ok?
    ensures Drafted(env, Fields(env, r, ws).rule)
    decreases |ws|
  {
    if ws != [] {
      if Family4(ws[0]) || Family6(ws[0]) {
        FieldsDrafted(env, SetFamily(r, if Family4(ws[0]) then 4 else 6, ws[0]).rule, ws[1..]);
      } else {
        FieldDrafted(env, r, ws[0], ws[1]);
        FieldsDrafted(env, Field(env, r, ws[0], ws[1]).rule, ws[2..]);
      }
    }
  }

  lemma ParsedSound(env: Env, text: string)
    requires Inverse(env) && Parse(env, text).Ok?
    ensures Sound(env, Parse(env, text).rule)
  {
    var ws := Tokens(Fit(text, MAX_TEXT - 1));
    FieldsDrafted(env, Blank(ws[0] == "deny"), ws[1..]);
  }

  // ----- printing and parsing again -----

  /** One part of a text, read. */
  lemma PartStep(env: Env, r: Rule, word: string, value: Option<string>, rest: seq<string>, s: Rule)
    requires !Family4(word) && !Family6(word)
    requires if value.None? then s == r else Field(env, r, word, value.value) == Ok(s)
    ensures Fields(env, r, Part(word, value) + rest) == Fields(env, s, rest)
  {
    if value.None? {
      assert Part(word, value) + rest == rest;
    } else {
      var ws := Part(word, value) + rest;
      assert ws[0] == word && ws[1] == value.value && ws[2..] == rest;
    }
  }

  /** The family once this prefix has been read. */
  function FamilyAfter(family: nat, p: Option<Prefix>): nat {
    if p.None? then family else if p.value.V4? then 4 else 6
  }

  lemma PrefixStep(env: Env, r: Rule, source: bool, p: Option<Prefix>, rest: seq<string>)
    requires Inverse(env) && (p.Some? ==> Canonical(p.value))
    requires p.Some? ==> r.family == 0 || r.family == FamilyAfter(0, p)
    requires if source then r.src.None? else r.dst.None?
    ensures var s := r.(family := FamilyAfter(r.family, p),
                        src := if source then p else r.src, dst := if source then r.dst else p);
      Fields(env, r, Part(if source then "src" else "dst", PrefixWordOf(env, p)) + rest) == Fields(env, s, rest)
  {
    var s := r.(family := FamilyAfter(r.family, p),
                src := if source then p else r.src, dst := if source then r.dst else p);
    if p.Some? {
      PrefixField(env, r, source, p.value);
    }
    PartStep(env, r, if source then "src" else "dst", PrefixWordOf(env, p), rest, s);
  }

  lemma FieldIsPrefix(env: Env, r: Rule, source: bool, arg: string)
    ensures Field(env, r, if source then "src" else "dst", arg) == SetPrefix(env, r, source, arg)
  {
  }

  /** A word that parses to a prefix of the rule's family, set. */
  lemma PrefixSet(env: Env, r: Rule, source: bool, s: string, p: Prefix)
    requires FamilyOf(s) == FamilyAfter(0, Some(p)) && (r.family == 0 || r.family == FamilyOf(s))
    requires (if p.V4? then ParsePrefix4(env, s) else ParsePrefix6(env, s)) == Some(p)
    ensures var f := r.(family := FamilyOf(s));
      SetPrefix(env, r, source, s) == Ok(if source then f.(src := Some(p)) else f.(dst := Some(p)))
  {
  }

  /** A printed prefix, read into the rule. */
  lemma PrefixField(env: Env, r: Rule, source: bool, p: Prefix)
    requires Inverse(env) && Canonical(p) && (r.family == 0 || r.family == FamilyAfter(0, Some(p)))
    ensures var f := r.(family := FamilyAfter(0, Some(p)));
      Field(env, r, if source then "src" else "dst", PrefixText(env, p)) ==
      Ok(if source then f.(src := Some(p)) else f.(dst := Some(p)))
  {
    PrefixRoundTrip(env, p);
    FieldIsPrefix(env, r, source, PrefixText(env, p));
    PrefixSet(env, r, source, PrefixText(env, p), p);
  }

  lemma InStep(env: Env, r: Rule, port: Option<nat>, rest: seq<string>)
    requires Named(env.taps) && (port.Some? ==> HasPort(env.taps, port.value)) && r.inPort.None?
    ensures var value := if port.None? then None else Some(PortName(env.taps, port.value));
      Fields(env, r, Part("in", value) + rest) == Fields(env, r.(inPort := port), rest)
  {
    if port.Some? {
      PortRoundTrip(env.taps, port.value);
    }
    PartStep(env, r, "in", if port.None? then None else Some(PortName(env.taps, port.value)), rest, r.(inPort := port));
  }

  lemma ProtoStep(env: Env, r: Rule, n: Option<nat>, rest: seq<string>)
    requires (n.Some? ==> n.value <= 255) && r.proto.None?
    ensures var value := if n.None? then None else Some(ProtoText(n.value));
      Fields(env, r, Part("proto", value) + rest) == Fields(env, r.(proto := n), rest)
  {
    if n.Some? {
      ProtoRoundTrip(n.value);
    }
    PartStep(env, r, "proto", if n.None? then None else Some(ProtoText(n.value)), rest, r.(proto := n));
  }

  lemma PortStep(env: Env, r: Rule, source: bool, n: Option<nat>, rest: seq<string>)
    requires (n.Some? ==> n.value <= 65535) && (if source then r.sport.None? else r.dport.None?)
    ensures var s := if source then r.(sport := n) else r.(dport := n);
      Fields(env, r, Part(if source then "sport" else "dport", NumberWord(n)) + rest) == Fields(env, s, rest)
  {
    if n.Some? {
      NumberDecimal(n.value, 65535);
    }
    var s := if source then r.(sport := n) else r.(dport := n);
    PartStep(env, r, if source then "sport" else "dport", NumberWord(n), rest, s);
  }

  /** The family the printed words have said by the end: IPv4 goes without
      saying. */
  function Said(r: Rule): nat {
    if r.family == 6 then 6 else FamilyAfter(FamilyAfter(0, r.src), r.dst)
  }

  lemma EndsParse(env: Env, r: Rule)
    requires Inverse(env) && Sound(env, r)
    ensures var r2 := r.(family := if r.family == 6 then 6 else 0,
                         src := None, dst := None, sport := None, dport := None);
      Fields(env, r2, Ends(env, r)) == Ok(r.(family := Said(r)))
  {
    var d := Part("dport", NumberWord(r.dport)) + [];
    var c := Part("sport", NumberWord(r.sport)) + d;
    var b := Part("dst", PrefixWordOf(env, r.dst)) + c;
    var r2 := r.(family := if r.family == 6 then 6 else 0, src := None, dst := None, sport := None, dport := None);
    PrefixStep(env, r2, true, r.src, b);
    var r3 := r2.(family := FamilyAfter(r2.family, r.src), src := r.src);
    PrefixStep(env, r3, false, r.dst, c);
    var r4 := r3.(family := FamilyAfter(r3.family, r.dst), dst := r.dst);
    PortStep(env, r4, true, r.sport, d);
    var r5 := r4.(sport := r.sport);
    PortStep(env, r5, false, r.dport, []);
    assert r5.(dport := r.dport) == r.(family := Said(r));
  }

  lemma MatchesParse(env: Env, r: Rule)
    requires Inverse(env) && Named(env.taps) && Sound(env, r)
    ensures Fields(env, Blank(r.deny).(family := if r.family == 6 then 6 else 0), Matches(env, r)) ==
            Ok(r.(family := Said(r)))
  {
    var r0 := Blank(r.deny).(family := if r.family == 6 then 6 else 0);
    InStep(env, r0, r.inPort, Part("proto", ProtoWord(r)) + Ends(env, r));
    var r1 := r0.(inPort := r.inPort);
    ProtoStep(env, r1, r.proto, Ends(env, r));
    EndsParse(env, r);
  }

  lemma FamilyStep(env: Env, deny: bool, word: string, rest: seq<string>)
    requires Family6(word) && !Family4(word)
    ensures Fields(env, Blank(deny), [word] + rest) == Fields(env, Blank(deny).(family := 6), rest)
  {
    var ws := [word] + rest;
    assert ws[0] == word && ws[1..] == rest;
    assert SetFamily(Blank(deny), 6, word) == Ok(Blank(deny).(family := 6));
  }

  lemma PrintedTail(env: Env, r: Rule)
    ensures Printed(env, r)[1..] == if r.family == 6 then ["ipv6"] + Matches(env, r) else Matches(env, r)
  {
  }

  lemma HeadParse(env: Env, r: Rule)
    requires Inverse(env) && Named(env.taps) && Sound(env, r)
    ensures Fields(env, Blank(r.deny), Printed(env, r)[1..]) == Ok(r.(family := Said(r)))
  {
    MatchesParse(env, r);
    PrintedTail(env, r);
    if r.family == 6 {
      FamilyStep(env, r.deny, "ipv6", Matches(env, r));
    } else {
      assert Blank(r.deny).(family := 0) == Blank(r.deny);
    }
  }
}
