/**
 Words, numbers and prefixes as the rule language spells them.
 */
module AclText {
  import opened Wrappers
  import opened Masks
  import opened AclBits

  // ----- words -----

  predicate Sep(c: char) { c == ' ' || c == '\t' }

  predicate Clean(w: string) {
    w != "" && forall i :: 0 <= i < |w| ==> !Sep(w[i])
  }

  function WordLen(s: string): (n: nat)
    ensures n <= |s| && (forall i :: 0 <= i < n ==> !Sep(s[i])) && (n < |s| ==> Sep(s[n]))
  {
    if s == "" || Sep(s[0]) then 0 else 1 + WordLen(s[1..])
  }

  /** The words of a text, as strtok_r over blanks and tabs has them. */
  function Tokens(s: string): seq<string>
    decreases |s|
  {
    if s == "" then []
    else if Sep(s[0]) then Tokens(s[1..])
    else [s[..WordLen(s)]] + Tokens(s[WordLen(s)..])
  }

  function Join(ws: seq<string>): string {
    if ws == [] then "" else if |ws| == 1 then ws[0] else ws[0] + " " + Join(ws[1..])
  }

  lemma WordLenIs(w: string, rest: string)
    requires Clean(w) && (rest == "" || Sep(rest[0]))
    ensures WordLen(w + rest) == |w|
  {
    assert forall i :: 0 <= i < |w| ==> (w + rest)[i] == w[i];
    assert rest != "" ==> (w + rest)[|w|] == rest[0];
  }

  /** Words written with single blanks between them are read back. */
  lemma {:induction false} TokensJoin(ws: seq<string>)
    requires forall i :: 0 <= i < |ws| ==> Clean(ws[i])
    ensures Tokens(Join(ws)) == ws
  {
    if ws != [] {
      var w, rest := ws[0], if |ws| == 1 then "" else " " + Join(ws[1..]);
      assert Join(ws) == w + rest;
      WordLenIs(w, rest);
      assert (w + rest)[..|w|] == w && (w + rest)[|w|..] == rest;
      if |ws| > 1 {
        TokensJoin(ws[1..]);
        assert rest[1..] == Join(ws[1..]);
      }
    }
  }

  // ----- numbers -----

  predicate IsSpace(c: char) {
    c == ' ' || c == '\t' || c == '\n' || c == '\r' || c == 11 as char || c == 12 as char
  }

  function SkipSpace(s: string): string {
    if s != "" && IsSpace(s[0]) then SkipSpace(s[1..]) else s
  }

  predicate Digit(c: char) { '0' <= c <= '9' }

  predicate Digits(s: string) {
    s != "" && forall i :: 0 <= i < |s| ==> Digit(s[i])
  }

  function Value(s: string): nat
    requires forall i :: 0 <= i < |s| ==> Digit(s[i])
  {
    if s == "" then 0
    else
      assert Digit(s[|s| - 1]);
      10 * Value(s[..|s| - 1]) + (s[|s| - 1] - '0') as nat
  }

  /** strtol over a whole string, within 0 to max: blanks and a sign are
      allowed in front, and the empty string is 0. */
  function Number(s: string, max: nat): Option<nat> {
    if s == "" then Some(0)
    else
      var t := SkipSpace(s);
      var signed := t != "" && (t[0] == '+' || t[0] == '-');
      var u := if signed then t[1..] else t;
      if !Digits(u) then None
      else if signed && t[0] == '-' && Value(u) > 0 then None
      else if Value(u) > max then None
      else Some(Value(u))
  }

  function Decimal(n: nat): string {
    if n < 10 then ['0' + n as char] else Decimal(n / 10) + ['0' + (n % 10) as char]
  }

  lemma {:induction false} DecimalDigits(n: nat)
    ensures Digits(Decimal(n)) && Value(Decimal(n)) == n
  {
    if n < 10 {
      assert Decimal(n)[..0] == "";
    } else {
      DecimalDigits(n / 10);
      var s := Decimal(n);
      assert s[..|s| - 1] == Decimal(n / 10);
      assert Value(s) == 10 * Value(s[..|s| - 1]) + (s[|s| - 1] - '0') as nat;
    }
  }

  lemma NumberDecimal(n: nat, max: nat)
    ensures Number(Decimal(n), max) == if n <= max then Some(n) else None
  {
    DecimalDigits(n);
    var s := Decimal(n);
    assert Digit(s[0]);
    assert SkipSpace(s) == s;
  }

  lemma DecimalLength(n: nat)
    ensures 1 <= |Decimal(n)|
    ensures n < 100 ==> |Decimal(n)| <= 2
    ensures n < 1000 ==> |Decimal(n)| <= 3
    ensures n < 100000 ==> |Decimal(n)| <= 5
  {
    assert n < 1000 ==> n / 10 < 100;
    if n >= 10 {
      DecimalLength1(n / 10);
    }
  }

  lemma DecimalLength1(n: nat)
    ensures n < 10 ==> |Decimal(n)| == 1
    ensures n < 100 ==> |Decimal(n)| <= 2
    ensures n < 10000 ==> |Decimal(n)| <= 4
  {
    if n >= 10 {
      assert |Decimal(n / 10)| <= 3 || n >= 10000 by {
        if n < 10000 && n / 10 >= 10 {
          assert |Decimal(n / 10)| == |Decimal(n / 100)| + 1;
          if n / 100 >= 10 {
            assert |Decimal(n / 100)| == |Decimal(n / 1000)| + 1;
          }
        }
      }
    }
  }

  // ----- prefixes -----

  /** An address and its mask, as the chip takes them. */
  datatype Prefix = V4(addr: nat, mask: nat) | V6(addr6: seq<nat>, mask6: seq<nat>)

  /** The switch's ports by name, and the C library's address conversions. */
  datatype Env = Env(taps: seq<(string, nat)>, pton4: string -> Option<nat>, pton6: string -> Option<seq<nat>>,
                     ntop6: seq<nat> -> string)

  function Slash(s: string): (i: nat)
    ensures i <= |s| && (i < |s| ==> s[i] == '/') && forall j :: 0 <= j < i ==> s[j] != '/'
  {
    if s == "" || s[0] == '/' then 0 else 1 + Slash(s[1..])
  }

  /** What fits a buffer of so many characters and a terminator. */
  function Fit(s: string, n: nat): string {
    if |s| <= n then s else s[..n]
  }

  /** The address part and the length after the slash, max if there is none. */
  function Split(buf: string, max: nat): Option<(string, nat)> {
    var i := Slash(buf);
    if i == |buf| then Some((buf, max))
    else
      var len := Number(buf[i + 1..], max);
      if len.None? then None else Some((buf[..i], len.value))
  }

  function ParsePrefix4(env: Env, s: string): Option<Prefix> {
    var parts := Split(Fit(s, 39), 32);
    if parts.None? || parts.value.1 > 32 then None
    else
      var a := env.pton4(parts.value.0);
      if a.None? then None else Some(V4(And(a.value, Mask(parts.value.1)), Mask(parts.value.1)))
  }

  function ParsePrefix6(env: Env, s: string): Option<Prefix> {
    var parts := Split(Fit(s, 63), 128);
    if parts.None? then None
    else
      var a := env.pton6(parts.value.0);
      if a.None? || |a.value| != 16 then None
      else Some(V6(And6(a.value, Mask6(parts.value.1)), Mask6(parts.value.1)))
  }

  function Quad(a: nat): string {
    Decimal(a / 0x100_0000) + "." + Decimal(a / 0x1_0000 % 256) + "." +
    Decimal(a / 0x100 % 256) + "." + Decimal(a % 256)
  }

  /** The family is in the spelling: a colon is IPv6. */
  function FamilyOf(s: string): nat {
    if ':' in s then 6 else 4
  }

  predicate Plain(s: string) {
    Clean(s) && '/' !in s
  }

  /** The conversions are inverses on what is printed, and what is printed is
      one word with no slash, with colons exactly for IPv6. */
  ghost predicate Inverse(env: Env) {
    (forall a: nat :: a < WORD ==> env.pton4(Quad(a)) == Some(a)) &&
    (forall s :: env.pton4(s).Some? ==> env.pton4(s).value < WORD) &&
    (forall s :: env.pton6(s).Some? ==> |env.pton6(s).value| == 16 && Bytes(env.pton6(s).value)) &&
    (forall a :: |a| == 16 && Bytes(a) ==>
      env.pton6(env.ntop6(a)) == Some(a) && Plain(env.ntop6(a)) && ':' in env.ntop6(a) && |env.ntop6(a)| <= 39)
  }

  // ----- printing prefixes -----

  /** A prefix as parsing leaves one: a mask of some length, and an address
      with nothing outside it. */
  predicate Canon4(p: Prefix, len: nat) {
    p.V4? && len <= 32 && p.mask == Mask(len) && p.addr < WORD && And(p.addr, p.mask) == p.addr
  }

  predicate Canon6(p: Prefix, len: nat) {
    p.V6? && len <= 128 && p.mask6 == Mask6(len) &&
    |p.addr6| == 16 && Bytes(p.addr6) && And6(p.addr6, p.mask6) == p.addr6
  }

  ghost predicate Canonical(p: Prefix) {
    exists len: nat :: Canon4(p, len) || Canon6(p, len)
  }

  lemma Mask32(len: nat)
    requires len <= 32
    ensures Mask(len) == Hi(32, len) && Pow2(32) == WORD
  {
    Pow2Word();
    MaskValue(len);
  }

  /** The length, counted back from the mask. */
  function LengthOf(p: Prefix): nat {
    match p
    case V4(_, mask) => Pow2Word(); if mask < WORD then LeadingOnes(32, mask) else 0
    case V6(_, mask6) => if |mask6| == 16 && Bytes(mask6) then Ones6(mask6, 16) else 0
  }

  lemma LengthIs(p: Prefix, len: nat)
    requires Canon4(p, len) || Canon6(p, len)
    ensures LengthOf(p) == len
  {
    if p.V4? {
      Mask32(len);
      LeadingOnesOf(32, len);
    } else {
      Ones6Of(len, 16);
    }
  }

  function AddressText(env: Env, p: Prefix): string {
    match p
    case V4(addr, _) => Quad(addr)
    case V6(addr6, _) => env.ntop6(addr6)
  }

  function PrefixText(env: Env, p: Prefix): string {
    AddressText(env, p) + "/" + Decimal(LengthOf(p))
  }

  lemma QuadPlain(a: nat)
    requires a < WORD
    ensures Plain(Quad(a)) && ':' !in Quad(a) && |Quad(a)| <= 15
  {
    DecimalPlain(a / 0x100_0000);
    DecimalPlain(a / 0x1_0000 % 256);
    DecimalPlain(a / 0x100 % 256);
    DecimalPlain(a % 256);
  }

  lemma DecimalPlain(n: nat)
    ensures Plain(Decimal(n)) && ':' !in Decimal(n)
    ensures n < 1000 ==> |Decimal(n)| <= 3
    ensures n < 100000 ==> |Decimal(n)| <= 5
  {
    DecimalDigits(n);
    DecimalLength(n);
    forall i | 0 <= i < |Decimal(n)| ensures !Sep(Decimal(n)[i]) && Decimal(n)[i] != '/' && Decimal(n)[i] != ':' {
      assert Digit(Decimal(n)[i]);
    }
  }

  lemma SplitText(addr: string, len: nat, max: nat)
    requires '/' !in addr && len <= max
    ensures Split(addr + "/" + Decimal(len), max) == Some((addr, len))
  {
    var s := addr + "/" + Decimal(len);
    assert s[|addr|] == '/' && forall j :: 0 <= j < |addr| ==> s[j] == addr[j];
    assert Slash(s) == |addr|;
    assert s[|addr| + 1..] == Decimal(len) && s[..|addr|] == addr;
    NumberDecimal(len, max);
  }

  lemma AddressPlain(env: Env, p: Prefix, len: nat)
    requires Inverse(env) && (Canon4(p, len) || Canon6(p, len))
    ensures Plain(AddressText(env, p)) && |AddressText(env, p)| <= 39
    ensures ':' in AddressText(env, p) <==> p.V6?
    ensures p.V4? ==> |AddressText(env, p)| <= 15
  {
    if p.V4? {
      QuadPlain(p.addr);
    }
  }

  lemma PrefixWord(addr: string, len: nat)
    requires Plain(addr) && |addr| <= 39 && len <= 128
    ensures var s := addr + "/" + Decimal(len); Clean(s) && |s| <= |addr| + 4 && (':' in s <==> ':' in addr)
  {
    DecimalPlain(len);
  }

  lemma Parse4(env: Env, p: Prefix, len: nat)
    requires Inverse(env) && Canon4(p, len)
    ensures |Quad(p.addr)| <= 15 && ParsePrefix4(env, Quad(p.addr) + "/" + Decimal(len)) == Some(p)
  {
    QuadPlain(p.addr);
    PrefixWord(Quad(p.addr), len);
    SplitText(Quad(p.addr), len, 32);
  }

  lemma Parse6(env: Env, p: Prefix, len: nat)
    requires Inverse(env) && Canon6(p, len)
    ensures ParsePrefix6(env, env.ntop6(p.addr6) + "/" + Decimal(len)) == Some(p)
  {
    PrefixWord(env.ntop6(p.addr6), len);
    SplitText(env.ntop6(p.addr6), len, 128);
  }

  /** A printed prefix is one word of its family, and reads back as itself. */
  lemma PrefixRoundTrip(env: Env, p: Prefix)
    requires Inverse(env) && Canonical(p)
    ensures var s := PrefixText(env, p);
      Clean(s) && |s| <= 43 && FamilyOf(s) == (if p.V4? then 4 else 6) &&
      (if p.V4? then ParsePrefix4(env, s) else ParsePrefix6(env, s)) == Some(p)
  {
    var len: nat :| Canon4(p, len) || Canon6(p, len);
    LengthIs(p, len);
    AddressPlain(env, p, len);
    PrefixWord(AddressText(env, p), len);
    if p.V4? {
      Parse4(env, p, len);
    } else {
      Parse6(env, p, len);
    }
  }

  /** Whatever parses is canonical. */
  lemma ParsedCanonical(env: Env, s: string)
    requires Inverse(env)
    ensures ParsePrefix4(env, s).Some? ==> Canonical(ParsePrefix4(env, s).value) && ParsePrefix4(env, s).value.V4?
    ensures ParsePrefix6(env, s).Some? ==> Canonical(ParsePrefix6(env, s).value) && ParsePrefix6(env, s).value.V6?
  {
    var p4, p6 := ParsePrefix4(env, s), ParsePrefix6(env, s);
    if p4.Some? {
      var parts := Split(Fit(s, 39), 32).value;
      AndTwice(env.pton4(parts.0).value, Mask(parts.1));
      assert Canon4(p4.value, parts.1);
    }
    if p6.Some? {
      var parts := Split(Fit(s, 63), 128).value;
      SplitMax(Fit(s, 63), 128);
      And6Twice(env.pton6(parts.0).value, Mask6(parts.1));
      assert Canon6(p6.value, parts.1);
    }
  }

  lemma SplitMax(buf: string, max: nat)
    ensures Split(buf, max).Some? ==> Split(buf, max).value.1 <= max
  {
  }
}
