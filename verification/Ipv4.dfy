/**
 IPv4 addresses and CIDR blocks as text and as numbers: net.ParseIP, net.ParseCIDR,
 net.SplitHostPort and IPNet.Contains, for dotted-quad text (RFC 4632, section 3.1).
 */
module Ipv4 {
  import opened Wrappers
  import opened Text

  /** An address block: `addr` as written, of which the first `len` bits count. */
  datatype Cidr = Cidr(addr: nat, len: nat)

  function Pow2(n: nat): (p: nat)
    ensures p >= 1
  {
    if n == 0 then 1 else 2 * Pow2(n - 1)
  }

  const MAX := 0x1_0000_0000

  ghost predicate IsAddr(ip: int) { 0 <= ip < MAX }

  ghost predicate ValidCidr(c: Cidr) { IsAddr(c.addr) && c.len <= 32 }

  /** Same first `len` bits. */
  predicate Contains(c: Cidr, ip: nat)
    requires c.len <= 32
  {
    ip / Pow2(32 - c.len) == c.addr / Pow2(32 - c.len)
  }

  /** The block's first address: the one written, with the bits behind the first `len` cleared. */
  function Base(c: Cidr): int
    requires c.len <= 32
  {
    c.addr / Pow2(32 - c.len) * Pow2(32 - c.len)
  }

  /** The 2^(32 - len) addresses from the base on. */
  predicate InRange(c: Cidr, ip: nat)
    requires c.len <= 32
  {
    Base(c) <= ip < Base(c) + Pow2(32 - c.len)
  }

  lemma MulMonotone(x: nat, y: nat, m: nat)
    requires x <= y
    ensures x * m <= y * m
  {
    assert y * m == x * m + (y - x) * m;
  }

  lemma MulCancels(x: nat, y: nat, m: nat)
    requires x * m < (y + 1) * m
    ensures x <= y
  {
    if y + 1 <= x { MulMonotone(y + 1, x, m); }
  }

  lemma QuotientOf(q: nat, d: nat, m: nat)
    requires d < m
    ensures (q * m + d) / m == q
  {
    var b := q * m + d;
    var r := b / m;
    assert b == r * m + b % m;
    assert (q + 1) * m == q * m + m && (r + 1) * m == r * m + m;
    MulCancels(r, q, m);
    MulCancels(q, r, m);
  }

  lemma SameQuotient(a: nat, b: nat, m: nat)
    requires m >= 1
    ensures b / m == a / m <==> a / m * m <= b < a / m * m + m
  {
    var q := a / m;
    if b / m == q {
      assert b == q * m + b % m;
    }
    if q * m <= b < q * m + m {
      QuotientOf(q, b - q * m, m);
    }
  }

  /** A block is a range of addresses. */
  lemma ContainsRange(c: Cidr, ip: nat)
    requires c.len <= 32
    ensures Contains(c, ip) <==> InRange(c, ip)
  {
    SameQuotient(c.addr, ip, Pow2(32 - c.len));
  }

  lemma HalfQuotient(a: nat, m: nat)
    requires m >= 1
    ensures a / (2 * m) == a / m / 2
  {
    var x := a / m;
    var y, d := x / 2, x % 2 * m + a % m;
    assert a == x * m + a % m && x == 2 * y + x % 2;
    assert x * m == y * (2 * m) + x % 2 * m;
    assert x % 2 == 0 || x % 2 == 1;
    QuotientOf(y, d, 2 * m);
  }

  /** A shorter prefix only adds addresses, and the longest leaves just the one written. */
  lemma {:induction false} ShorterHoldsMore(c: Cidr, len: nat, ip: nat)
    requires len <= c.len <= 32 && Contains(c, ip)
    ensures Contains(c.(len := len), ip)
    ensures c.len == 32 ==> ip == c.addr
    decreases c.len
  {
    assert Pow2(0) == 1;
    if len < c.len {
      var m := Pow2(32 - c.len);
      HalfQuotient(ip, m);
      HalfQuotient(c.addr, m);
      ShorterHoldsMore(c.(len := c.len - 1), len, ip);
    }
  }

  /** 0 to 255 without leading zeros. */
  function ParseOctet(s: string): Option<nat> {
    if 1 <= |s| <= 3 && AllDigits(s) && (|s| == 1 || s[0] != '0') && NatOf(s) <= 255
    then Some(NatOf(s)) else None
  }

  function ParseIp(s: string): (r: Option<nat>)
    ensures r.Some? ==> IsAddr(r.value)
  {
    var parts := Split(s, '.');
    if |parts| != 4 then None
    else
      var a, b, c, d := ParseOctet(parts[0]), ParseOctet(parts[1]), ParseOctet(parts[2]), ParseOctet(parts[3]);
      if a.Some? && b.Some? && c.Some? && d.Some?
      then Some(((a.value * 256 + b.value) * 256 + c.value) * 256 + d.value) else None
  }

  function ParseCidr(s: string): (r: Option<Cidr>)
    ensures r.Some? ==> ValidCidr(r.value)
  {
    var i := IndexOf(s, '/');
    if i == |s| then None
    else
      var ip, n := ParseIp(s[..i]), ParseNat(s[i + 1..]);
      if ip.Some? && n.Some? && n.value <= 32 then Some(Cidr(ip.value, n.value)) else None
  }

  /** Does CIDR text cover an address? Unparsable text covers nothing. */
  predicate Covers(text: string, ip: nat) {
    ParseCidr(text).Some? && Contains(ParseCidr(text).value, ip)
  }

  /** As a range of addresses. */
  lemma CoversRange(text: string, ip: nat)
    ensures Covers(text, ip) <==> ParseCidr(text).Some? && InRange(ParseCidr(text).value, ip)
  {
    if ParseCidr(text).Some? { ContainsRange(ParseCidr(text).value, ip); }
  }

  /** net.SplitHostPort, unbracketed. */
  function SplitHostPort(s: string): Option<(string, string)> {
    var i := LastIndexOf(s, ':');
    if i < 0 then None
    else
      var host, port := s[..i], s[i + 1..];
      if ':' in host || '[' in s || ']' in s then None else Some((host, port))
  }

  /** 127.0.0.0/8 */
  predicate IsLoopback(ip: nat) { ip / 0x100_0000 == 127 }

  /** ip.IsPrivate() || ip.IsLinkLocalUnicast() || ip.IsLoopback() */
  predicate IsPrivateOrLinkLocal(ip: nat) {
    || ip / 0x100_0000 == 10
    || ip / 0x10_0000 == 172 * 16 + 1
    || ip / 0x1_0000 == 192 * 256 + 168
    || ip / 0x1_0000 == 169 * 256 + 254
    || IsLoopback(ip)
  }

  lemma {:induction false} ParseIpHasNoSlash(s: string)
    requires ParseIp(s).Some?
    ensures forall k | 0 <= k < |s| :: s[k] == '.' || IsDigit(s[k])
  {
    SplitParts(s, '.');
    var parts := Split(s, '.');
    forall k | 0 <= k < |s| && s[k] != '.' ensures IsDigit(s[k]) {
      var part :| part in parts && s[k] in part;
      assert AllDigits(part);
    }
  }

  /** Every character that is not a separator is in one of the parts. */
  lemma {:induction false} SplitParts(s: string, sep: char)
    ensures forall k | 0 <= k < |s| && s[k] != sep :: exists part :: part in Split(s, sep) && s[k] in part
    decreases |s|
  {
    var i := IndexOf(s, sep);
    if i < |s| {
      SplitParts(s[i + 1..], sep);
      forall k | 0 <= k < |s| && s[k] != sep ensures exists part :: part in Split(s, sep) && s[k] in part {
        if k < i {
          assert s[k] == s[..i][k];
          assert s[..i] in Split(s, sep);
        } else {
          assert s[k] == s[i + 1..][k - i - 1];
          var part :| part in Split(s[i + 1..], sep) && s[k] in part;
          assert part in Split(s, sep);
        }
      }
    } else {
      assert s in Split(s, sep);
    }
  }

  /** Appending "/32" to an address gives the block of exactly that address. */
  lemma HostBlock(host: string)
    requires ParseIp(host).Some?
    ensures ParseCidr(host + "/32") == Some(Cidr(ParseIp(host).value, 32))
  {
    ParseIpHasNoSlash(host);
    var s := host + "/32";
    IndexOfFirst(s, |host|, '/');
    assert s[..|host|] == host && s[|host| + 1..] == "32";
    assert AllDigits("32") && "32"[..1] == "3" && "3"[..0] == "";
    assert NatOf("3") == 3;
    assert NatOf("32") == 32;
  }

  lemma HostBlockCovers(host: string, ip: nat)
    requires ParseIp(host).Some?
    ensures Covers(host + "/32", ip) <==> ip == ParseIp(host).value
  {
    HostBlock(host);
    assert Pow2(0) == 1;
  }

  lemma SplitCons(a: string, rest: string, sep: char)
    requires sep !in a
    ensures Split(a + [sep] + rest, sep) == [a] + Split(rest, sep)
  {
    var s := a + [sep] + rest;
    assert forall k | 0 <= k < |a| :: s[k] == a[k] && a[k] in a;
    IndexOfFirst(s, |a|, sep);
    assert s[..|a|] == a && s[|a| + 1..] == rest;
  }

  lemma OctetHasNoDot(a: string)
    requires ParseOctet(a).Some?
    ensures '.' !in a && '/' !in a
  {
  }

  function Quad(a: string, b: string, c: string, d: string): string {
    a + ['.'] + (b + ['.'] + (c + ['.'] + d))
  }

  lemma SplitQuad(a: string, b: string, c: string, d: string)
    requires '.' !in a && '.' !in b && '.' !in c && '.' !in d
    ensures Split(Quad(a, b, c, d), '.') == [a, b, c, d]
  {
    hide Split, IndexOf;
    SplitPair(c, d, '.');
    SplitCons(b, c + ['.'] + d, '.');
    SplitCons(a, b + ['.'] + (c + ['.'] + d), '.');
    assert [a] + ([b] + [c, d]) == [a, b, c, d];
  }

  lemma SplitPair(c: string, d: string, sep: char)
    requires sep !in c && sep !in d
    ensures Split(c + [sep] + d, sep) == [c, d]
  {
    IndexOfAbsent(d, sep);
    SplitSingle(d, sep);
    hide Split, IndexOf;
    SplitCons(c, d, sep);
  }

  /** Four octets with dots between them are an address. */
  lemma QuadParses(a: string, b: string, c: string, d: string)
    requires ParseOctet(a).Some? && ParseOctet(b).Some? && ParseOctet(c).Some? && ParseOctet(d).Some?
    ensures ParseIp(Quad(a, b, c, d))
            == Some(((ParseOctet(a).value * 256 + ParseOctet(b).value) * 256 + ParseOctet(c).value) * 256 + ParseOctet(d).value)
  {
    OctetHasNoDot(a);
    OctetHasNoDot(b);
    OctetHasNoDot(c);
    OctetHasNoDot(d);
    hide ParseOctet, Split, Quad;
    SplitQuad(a, b, c, d);
  }

  lemma SplitSingle(s: string, sep: char)
    requires IndexOf(s, sep) == |s|
    ensures Split(s, sep) == [s]
  {
  }

  /** An address, a slash and a length are a block. */
  lemma BlockParses(ip: string, len: string)
    requires ParseIp(ip).Some? && ParseNat(len).Some? && ParseNat(len).value <= 32
    ensures ParseCidr(ip + "/" + len) == Some(Cidr(ParseIp(ip).value, ParseNat(len).value))
  {
    ParseIpHasNoSlash(ip);
    var s := ip + "/" + len;
    IndexOfFirst(s, |ip|, '/');
    assert s[..|ip|] == ip && s[|ip| + 1..] == len;
  }

  lemma TwoDigits(s: string)
    requires |s| == 2 && AllDigits(s)
    ensures NatOf(s) == 10 * DigitValue(s[0]) + DigitValue(s[1])
  {
    assert s[..1][..0] == "" && s[..1][0] == s[0];
    assert NatOf(s[..1]) == DigitValue(s[0]);
  }

  lemma ThreeDigits(s: string)
    requires |s| == 3 && AllDigits(s)
    ensures NatOf(s) == 100 * DigitValue(s[0]) + 10 * DigitValue(s[1]) + DigitValue(s[2])
  {
    TwoDigits(s[..2]);
  }

  lemma OneDigit(s: string)
    requires |s| == 1 && AllDigits(s)
    ensures NatOf(s) == DigitValue(s[0])
  {
    assert s[..0] == "";
  }

  lemma ShortNumber(s: string)
    requires 1 <= |s| <= 2 && AllDigits(s)
    ensures ParseNat(s) == Some(if |s| == 1 then DigitValue(s[0]) else 10 * DigitValue(s[0]) + DigitValue(s[1]))
    ensures |s| == 1 || s[0] != '0' ==> ParseOctet(s) == ParseNat(s)
  {
    if |s| == 1 { OneDigit(s); } else { TwoDigits(s); }
  }

  lemma LongOctet(s: string)
    requires |s| == 3 && AllDigits(s) && s[0] != '0'
    requires 100 * DigitValue(s[0]) + 10 * DigitValue(s[1]) + DigitValue(s[2]) <= 255
    ensures ParseOctet(s) == Some(100 * DigitValue(s[0]) + 10 * DigitValue(s[1]) + DigitValue(s[2]))
  {
    ThreeDigits(s);
  }

  lemma Powers()
    ensures Pow2(0) == 1 && Pow2(16) == 0x1_0000 && Pow2(20) == 0x10_0000 && Pow2(24) == 0x100_0000 && Pow2(32) == MAX
  {
    assert Pow2(4) == 16;
    assert Pow2(8) == 256;
    assert Pow2(12) == 4096;
    assert Pow2(16) == 0x1_0000;
    assert Pow2(20) == 0x10_0000;
    assert Pow2(24) == 0x100_0000;
    assert Pow2(28) == 0x1000_0000;
  }
}
