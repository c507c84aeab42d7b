/**
 * The IPv4 texts of the static network configurations: an address in
 * dotted-quad form ("192.168.4.1") and an address with its prefix length
 * ("192.168.4.1/24"). Parsing accepts exactly the canonical form: four
 * decimal octets without leading zeros, and a prefix length from 0 to 32.
 */
module Ipv4 {
  import opened Ints
  import opened Wrappers
  import opened Text

  type Quad = s: seq<U8> | |s| == 4 witness [0, 0, 0, 0]

  type PrefixLen = x: int | 0 <= x <= 32

  datatype Addr = Addr(octets: Quad)

  /** An address with the length of its network prefix, as `a.b.c.d/len` denotes it. */
  datatype Cidr = Cidr(address: Addr, prefixLen: PrefixLen)

  /** One octet: one to three digits, no leading zero, at most 255. */
  function ParseOctet(s: string): Option<U8> {
    if 1 <= |s| <= 3 && Canonical(s) && DigitsValue(s) < U8_LIMIT then Some(DigitsValue(s)) else None
  }

  /** The octet parser accepts only the decimal form of what it returns. */
  lemma OctetExact(s: string)
    requires ParseOctet(s).Some?
    ensures Decimal(ParseOctet(s).value) == s
  {
    CanonicalRoundTrip(s);
  }

  /** `n` octets separated by dots, and nothing else. */
  function ParseOctets(s: string, n: nat): (r: Option<seq<U8>>)
    requires n >= 1
    ensures r.Some? ==> |r.value| == n
    decreases n
  {
    var k := SpanDigits(s);
    match ParseOctet(s[..k])
    case None => None
    case Some(v) =>
      if n == 1 then (if k == |s| then Some([v]) else None)
      else if k < |s| && s[k] == '.' then
        match ParseOctets(s[k + 1..], n - 1)
        case None => None
        case Some(more) => Some([v] + more)
      else None
  }

  /** The octets written in decimal, separated by dots. */
  function ShowOctets(xs: seq<U8>): string
    requires |xs| >= 1
    decreases |xs|
  {
    if |xs| == 1 then Decimal(xs[0]) else Decimal(xs[0]) + ("." + ShowOctets(xs[1..]))
  }

  function ParseAddr(s: string): Option<Addr> {
    match ParseOctets(s, 4)
    case None => None
    case Some(xs) => Some(Addr(xs))
  }

  /** The `Display` form of an address. */
  function ShowAddr(a: Addr): string {
    ShowOctets(a.octets)
  }

  /** The index of the first `c` in `s`, or `|s|`. */
  function IndexOf(s: string, c: char): (i: nat)
    ensures i <= |s| && (i < |s| ==> s[i] == c)
    ensures forall j | 0 <= j < i :: s[j] != c
  {
    if s == [] || s[0] == c then 0 else 1 + IndexOf(s[1..], c)
  }

  /** An address, a slash and a prefix length of one or two digits. */
  function ParseCidr(s: string): Option<Cidr> {
    var i := IndexOf(s, '/');
    if i == |s| then None
    else
      var len := s[i + 1..];
      if 1 <= |len| <= 2 && Canonical(len) && DigitsValue(len) <= 32 then
        match ParseAddr(s[..i])
        case None => None
        case Some(a) => Some(Cidr(a, DigitsValue(len)))
      else None
  }

  /**
   * The `Display` form of a CIDR block: the address's dotted quad, then a
   * slash, the first in the text, then the prefix length in decimal.
   */
  function ShowCidr(c: Cidr): (s: string)
    ensures var a := ShowAddr(c.address);
      IndexOf(s, '/') == |a| < |s| && s[..|a|] == a && s[|a| + 1..] == Decimal(c.prefixLen)
  {
    var a, len := ShowAddr(c.address), Decimal(c.prefixLen);
    ShowOctetsNoSlash(c.address.octets);
    IndexOfAt(a, "/" + len, '/');
    Joined(a, '/', len);
    a + ("/" + len)
  }

  /** A written octet reads back. */
  lemma DecimalOctet(v: U8)
    ensures ParseOctet(Decimal(v)) == Some(v)
  {
    DecimalLength(v, 3);
    DecimalRoundTrip(v);
  }

  /** `a`, then the character `c`, then `b`: each piece is found again by position. */
  lemma Joined(a: string, c: char, b: string)
    ensures var s := a + ([c] + b);
      |s| == |a| + 1 + |b| && s[..|a|] == a && s[|a|] == c && s[|a| + 1..] == b
  {
  }

  /** Any text is what comes before position `k`, the character at `k`, and the rest. */
  lemma Split(s: string, k: nat)
    requires k < |s|
    ensures s == s[..k] + ([s[k]] + s[k + 1..])
  {
  }

  /** The parse of `n >= 2` octets: one octet, a dot, and `n - 1` more. */
  lemma OctetsStep(s: string, n: nat, v: U8, more: seq<U8>)
    requires n >= 2
    requires var k := SpanDigits(s);
      k < |s| && s[k] == '.' && ParseOctet(s[..k]) == Some(v) && ParseOctets(s[k + 1..], n - 1) == Some(more)
    ensures ParseOctets(s, n) == Some([v] + more)
  {
  }

  /** An accepted text of `n >= 2` octets: the first octet's digits, a dot, and the rest. */
  lemma OctetsSplit(s: string, n: nat) returns (d: string, rest: string, v: U8, more: seq<U8>)
    requires n >= 2 && ParseOctets(s, n).Some?
    ensures s == d + ("." + rest) && ParseOctet(d) == Some(v) && ParseOctets(rest, n - 1) == Some(more)
    ensures ParseOctets(s, n).value == [v] + more
  {
    var k := SpanDigits(s);
    assert ParseOctet(s[..k]).Some? && k < |s| && s[k] == '.';
    d, rest := s[..k], s[k + 1..];
    v, more := ParseOctet(d).value, ParseOctets(rest, n - 1).value;
    Split(s, k);
  }

  lemma {:induction false} OctetsRoundTrip(xs: seq<U8>)
    requires |xs| >= 1
    ensures ParseOctets(ShowOctets(xs), |xs|) == Some(xs)
    decreases |xs|
  {
    if |xs| == 1 {
      LastOctet(xs[0]);
      assert [xs[0]] == xs;
    } else {
      OctetsRoundTrip(xs[1..]);
      ParseOctetsCons(xs[0], ShowOctets(xs[1..]), |xs|, xs[1..]);
      ShowOctetsCons(xs);
    }
  }

  lemma ShowOctetsCons(xs: seq<U8>)
    requires |xs| >= 2
    ensures ShowOctets(xs) == Decimal(xs[0]) + ("." + ShowOctets(xs[1..]))
    ensures [xs[0]] + xs[1..] == xs
  {
  }

  lemma LastOctet(v: U8)
    ensures ParseOctets(Decimal(v), 1) == Some([v])
  {
    var d := Decimal(v);
    DecimalOctet(v);
    SpanDecimal(v, "");
    assert d + "" == d;
    assert d[..|d|] == d;
  }

  /** Reading an octet, a dot and the remaining octets. */
  lemma ParseOctetsCons(v: U8, rest: string, n: nat, more: seq<U8>)
    requires n >= 2
    requires ParseOctets(rest, n - 1) == Some(more)
    ensures ParseOctets(Decimal(v) + ("." + rest), n) == Some([v] + more)
  {
    DecimalOctet(v);
    ParseDigitsCons(Decimal(v), rest, n, v, more);
  }

  lemma ParseDigitsCons(d: string, rest: string, n: nat, v: U8, more: seq<U8>)
    requires n >= 2 && AllDigits(d)
    requires ParseOctet(d) == Some(v) && ParseOctets(rest, n - 1) == Some(more)
    ensures ParseOctets(d + ("." + rest), n) == Some([v] + more)
  {
    SpanDigitsOf(d, "." + rest);
    Joined(d, '.', rest);
    OctetsStep(d + ("." + rest), n, v, more);
  }

  /** A text without a slash. */
  predicate NoSlash(s: string) {
    forall j | 0 <= j < |s| :: s[j] != '/'
  }

  lemma {:induction false} ShowOctetsNoSlash(xs: seq<U8>)
    requires |xs| >= 1
    ensures NoSlash(ShowOctets(xs))
    decreases |xs|
  {
    var d := Decimal(xs[0]);
    if |xs| > 1 {
      var tail := ShowOctets(xs[1..]);
      ShowOctetsNoSlash(xs[1..]);
      ShowOctetsCons(xs);
      NoSlashJoined(d, '.', tail);
    }
  }

  lemma NoSlashJoined(a: string, c: char, b: string)
    requires AllDigits(a) && c != '/' && NoSlash(b)
    ensures NoSlash(a + ([c] + b))
  {
    var s := a + ([c] + b);
    forall j | 0 <= j < |s|
      ensures s[j] != '/'
    {
      if j < |a| {
        assert s[j] == a[j];
      } else if j > |a| {
        assert s[j] == b[j - |a| - 1];
      }
    }
  }

  /** The parser accepts only what `ShowOctets` writes. */
  lemma {:induction false} OctetsExact(s: string, n: nat)
    requires n >= 1 && ParseOctets(s, n).Some?
    ensures ShowOctets(ParseOctets(s, n).value) == s
    decreases n
  {
    if n == 1 {
      OneOctetExact(s);
    } else {
      var d, rest, v, more := OctetsSplit(s, n);
      OctetsExact(rest, n - 1);
      OctetExact(d);
      ShowCons(v, more);
    }
  }

  lemma OneOctetExact(s: string)
    requires ParseOctets(s, 1).Some?
    ensures ShowOctets(ParseOctets(s, 1).value) == s
  {
    var k := SpanDigits(s);
    var v := ParseOctet(s[..k]).value;
    assert k == |s| && ParseOctets(s, 1).value == [v];
    assert s[..k] == s;
    OctetExact(s);
  }

  lemma ShowCons(v: U8, more: seq<U8>)
    requires |more| >= 1
    ensures ShowOctets([v] + more) == Decimal(v) + ("." + ShowOctets(more))
  {
    ShowOctetsCons([v] + more);
    assert ([v] + more)[1..] == more;
  }

  /** Writing an address and reading it back gives the address. */
  lemma AddrRoundTrip(a: Addr)
    ensures ParseAddr(ShowAddr(a)) == Some(a)
  {
    OctetsRoundTrip(a.octets);
  }

  /** Every text the address parser accepts is the written form of what it returns. */
  lemma AddrExact(s: string)
    requires ParseAddr(s).Some?
    ensures ShowAddr(ParseAddr(s).value) == s
  {
    OctetsExact(s, 4);
  }

  /** The parse of an address, a slash and a prefix length. */
  lemma CidrOf(s: string, i: nat, a: Addr, p: PrefixLen)
    requires IndexOf(s, '/') == i < |s|
    requires var len := s[i + 1..]; 1 <= |len| <= 2 && Canonical(len) && DigitsValue(len) == p
    requires ParseAddr(s[..i]) == Some(a)
    ensures ParseCidr(s) == Some(Cidr(a, p))
  {
  }

  lemma CidrSplit(s: string)
    requires ParseCidr(s).Some?
    ensures var i := IndexOf(s, '/');
      var len := s[i + 1..];
      i < |s| && s[i] == '/' && Canonical(len) && ParseAddr(s[..i]).Some? &&
      ParseCidr(s).value == Cidr(ParseAddr(s[..i]).value, DigitsValue(len))
  {
  }

  lemma CidrRoundTrip(c: Cidr)
    ensures ParseCidr(ShowCidr(c)) == Some(c)
  {
    ShowOctetsNoSlash(c.address.octets);
    CidrPrefix(c.prefixLen);
    AddrRoundTrip(c.address);
    CidrJoin(ShowAddr(c.address), Decimal(c.prefixLen), c.address, c.prefixLen);
  }

  /** An address text without a slash, a slash and a canonical prefix length. */
  lemma CidrJoin(a: string, len: string, addr: Addr, p: PrefixLen)
    requires NoSlash(a) && ParseAddr(a) == Some(addr)
    requires 1 <= |len| <= 2 && Canonical(len) && DigitsValue(len) == p
    ensures ParseCidr(a + ("/" + len)) == Some(Cidr(addr, p))
  {
    IndexOfAt(a, "/" + len, '/');
    Joined(a, '/', len);
    CidrOf(a + ("/" + len), |a|, addr, p);
  }

  lemma CidrPrefix(p: PrefixLen)
    ensures 1 <= |Decimal(p)| <= 2 && Canonical(Decimal(p)) && DigitsValue(Decimal(p)) == p
  {
    DecimalLength(p, 2);
    DecimalRoundTrip(p);
  }

  lemma IndexOfAt(a: string, b: string, c: char)
    requires (forall j | 0 <= j < |a| :: a[j] != c) && b != [] && b[0] == c
    ensures IndexOf(a + b, c) == |a|
  {
    assert (a + b)[|a|] == c;
    assert forall j | 0 <= j < |a| :: (a + b)[j] == a[j];
  }

  lemma CidrExact(s: string)
    requires ParseCidr(s).Some?
    ensures ShowCidr(ParseCidr(s).value) == s
  {
    var i := IndexOf(s, '/');
    var len := s[i + 1..];
    CidrSplit(s);
    AddrExact(s[..i]);
    CanonicalRoundTrip(len);
    Split(s, i);
  }
}
