/** The two address tests on dotted IPv4 addresses, against the private blocks of section 3 of RFC 1918
    and the loopback block (internal/cilium/wildcard.go, internal/controller/egressprofile_controller.go). */
module Address {
  import ProfileCounts
  import Wildcard

  type Octet = n: nat | n < 256

  function Digit(n: nat): char
    requires n < 10
  {
    ('0' as int + n) as char
  }

  /** The octet in decimal, without leading zeros. */
  function Decimal(n: Octet): string {
    if n < 10 then [Digit(n)]
    else if n < 100 then [Digit(n / 10), Digit(n % 10)]
    else [Digit(n / 100), Digit(n / 10 % 10), Digit(n % 10)]
  }

  function Dotted(a: Octet, b: Octet, c: Octet, d: Octet): string {
    Decimal(a) + "." + (Decimal(b) + "." + (Decimal(c) + "." + Decimal(d)))
  }

  predicate Private(a: Octet, b: Octet) {
    a == 10 || (a == 172 && 16 <= b <= 31) || (a == 192 && b == 168) || a == 127
  }

  function ValueOf(c: char): int {
    c as int - '0' as int
  }

  /** The number that one to three digits spell. */
  function Parse(s: string): int {
    if |s| == 1 then ValueOf(s[0])
    else if |s| == 2 then 10 * ValueOf(s[0]) + ValueOf(s[1])
    else if |s| == 3 then 100 * ValueOf(s[0]) + 10 * ValueOf(s[1]) + ValueOf(s[2])
    else -1
  }

  lemma ParseDecimal(n: Octet)
    ensures Parse(Decimal(n)) == n
    ensures '.' !in Decimal(n) && Decimal(n) != [] && Decimal(n)[0] != ':'
  {
  }

  lemma DecimalInjective(m: Octet, n: Octet)
    ensures Decimal(m) == Decimal(n) <==> m == n
    ensures '.' !in Decimal(m) && Decimal(m) != [] && Decimal(m)[0] != ':'
  {
    hide Decimal, Parse;
    ParseDecimal(m);
    ParseDecimal(n);
  }

  /** A dotted prefix matches label by label. */
  lemma {:induction false} FirstLabel(x: string, y: string, u: string, v: string)
    requires '.' !in x && '.' !in u
    ensures x + "." + y <= u + "." + v <==> x == u && y <= v
  {
    var l, r := x + "." + y, u + "." + v;
    if x != [] && u != [] {
      FirstLabel(x[1..], y, u[1..], v);
      var l', r' := x[1..] + "." + y, u[1..] + "." + v;
      assert l == [x[0]] + l' && r == [u[0]] + r';
      assert x == [x[0]] + x[1..] && u == [u[0]] + u[1..];
      assert l <= r <==> x[0] == u[0] && l' <= r' by { ConsPrefix(x[0], l', u[0], r'); }
    } else if x == [] && u == [] {
      assert l == ['.'] + y && r == ['.'] + v;
      ConsPrefix('.', y, '.', v);
    } else {
      assert l[0] == if x == [] then '.' else x[0];
      assert r[0] == if u == [] then '.' else u[0];
    }
  }

  lemma ConsPrefix(a: char, s: string, b: char, t: string)
    ensures [a] + s <= [b] + t <==> a == b && s <= t
  {
    if [a] + s <= [b] + t {
      assert ([a] + s)[0] == ([b] + t)[0];
      assert forall i :: 0 <= i < |s| ==> s[i] == ([a] + s)[i + 1] == ([b] + t)[i + 1] == t[i];
    }
  }

  /** A prefix of one octet and a dot. */
  lemma OneOctet(x: Octet, a: Octet, b: Octet, c: Octet, d: Octet)
    ensures Decimal(x) + "." <= Dotted(a, b, c, d) <==> x == a
  {
    DecimalInjective(x, a);
    DecimalInjective(a, x);
    assert Decimal(x) + "." == Decimal(x) + "." + "";
    FirstLabel(Decimal(x), "", Decimal(a), Decimal(b) + "." + (Decimal(c) + "." + Decimal(d)));
  }

  /** A prefix of two octets, each with its dot. */
  lemma TwoOctets(x: Octet, y: Octet, a: Octet, b: Octet, c: Octet, d: Octet)
    ensures Decimal(x) + "." + (Decimal(y) + ".") <= Dotted(a, b, c, d) <==> x == a && y == b
  {
    DecimalInjective(x, a);
    DecimalInjective(a, x);
    DecimalInjective(y, b);
    DecimalInjective(b, y);
    var rest := Decimal(c) + "." + Decimal(d);
    FirstLabel(Decimal(x), Decimal(y) + ".", Decimal(a), Decimal(b) + "." + rest);
    assert Decimal(y) + "." == Decimal(y) + "." + "";
    FirstLabel(Decimal(y), "", Decimal(b), rest);
  }

  lemma NoColon(a: Octet, b: Octet, c: Octet, d: Octet)
    ensures !("::1" <= Dotted(a, b, c, d)) && Dotted(a, b, c, d) != ""
  {
    DecimalInjective(a, a);
    assert Dotted(a, b, c, d)[0] == Decimal(a)[0];
  }

  /** The second entries of the generator's list: 172.16. to 172.31., in order. */
  lemma Block172(i: nat)
    requires 1 <= i <= 16
    ensures Wildcard.PRIVATE_PREFIXES[i] == Decimal(172) + "." + (Decimal(15 + i) + ".")
  {
    var s := SecondOctets();
    assert Wildcard.PRIVATE_PREFIXES[i] == "172." + s[i - 1] + ".";
  }

  lemma SecondOctets() returns (s: seq<string>)
    ensures s == ["16", "17", "18", "19", "20", "21", "22", "23", "24", "25", "26", "27", "28", "29", "30", "31"]
    ensures forall i :: 0 <= i < 16 ==> s[i] == Decimal(16 + i)
  {
    s := ["16", "17", "18", "19", "20", "21", "22", "23", "24", "25", "26", "27", "28", "29", "30", "31"];
    forall i | 0 <= i < 16 ensures s[i] == Decimal(16 + i) {
      if i < 4 { assert s[i] == ['1', Digit(6 + i)]; }
      else if i < 14 { assert s[i] == ['2', Digit(i - 4)]; }
      else { assert s[i] == ['3', Digit(i - 14)]; }
    }
  }

  lemma Singles()
    ensures "10." == Decimal(10) + "." && "127." == Decimal(127) + "." && "172." == Decimal(172) + "."
    ensures "192.168." == Decimal(192) + "." + (Decimal(168) + ".")
  {
  }

  /** The generator's prefix list is exact on IPv4: an unnamed address is a direct public one iff it lies
      outside the three private blocks and the loopback block. */
  lemma DirectPublicIsExact(a: Octet, b: Octet, c: Octet, d: Octet)
    ensures Wildcard.IsDirectPublicIp("", Dotted(a, b, c, d)) <==> !Private(a, b)
  {
    hide Decimal, Dotted;
    var ip, p := Dotted(a, b, c, d), Wildcard.PRIVATE_PREFIXES;
    NoColon(a, b, c, d);
    Singles();
    OneOctet(10, a, b, c, d);
    OneOctet(127, a, b, c, d);
    TwoOctets(192, 168, a, b, c, d);
    forall i | 1 <= i <= 16 ensures p[i] <= ip <==> a == 172 && b == 15 + i {
      Block172(i);
      TwoOctets(172, 15 + i, a, b, c, d);
    }
    assert p[0] == "10." && p[17] == "192.168." && p[18] == "127." && p[19] == "::1" && |p| == 20;
    if a == 172 && 16 <= b <= 31 { assert p[b - 15] <= ip; }
  }

  /** The profile's shorter list is not: it takes all of 172.0.0.0/8 for private, and agrees with the
      generator everywhere else. */
  lemma SimpleTestIsExact(a: Octet, b: Octet, c: Octet, d: Octet)
    ensures ProfileCounts.IsPublicIpSimple(Dotted(a, b, c, d)) <==> !Private(a, b) && a != 172
  {
    hide Decimal, Dotted;
    var q := ProfileCounts.SIMPLE_PREFIXES;
    NoColon(a, b, c, d);
    Singles();
    OneOctet(10, a, b, c, d);
    OneOctet(172, a, b, c, d);
    OneOctet(127, a, b, c, d);
    TwoOctets(192, 168, a, b, c, d);
    assert q[0] == "10." && q[1] == "172." && q[2] == "192.168." && q[3] == "127." && q[4] == "::1" && |q| == 5;
  }

  /** Both tests know the IPv6 loopback address, and take other IPv6 addresses for public. */
  lemma LoopbackIsPrivate()
    ensures !Wildcard.IsDirectPublicIp("", "::1") && !ProfileCounts.IsPublicIpSimple("::1")
    ensures Wildcard.IsDirectPublicIp("", "fd00::1") && ProfileCounts.IsPublicIpSimple("fd00::1")
  {
    var p, q, v6 := Wildcard.PRIVATE_PREFIXES, ProfileCounts.SIMPLE_PREFIXES, "fd00::1";
    assert p[19] == "::1" && q[4] == "::1";
    assert forall i :: 0 <= i < |p| ==> p[i][0] != v6[0];
    assert forall i :: 0 <= i < |q| ==> q[i][0] != v6[0];
  }
}
