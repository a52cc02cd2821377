/**
 * The part of Python's `ipaddress` module that config expansion uses:
 * `ip_address(text)`, `int(address)`, `ip_address(number)` and
 * `str(address)`. IPv4 text is the dotted quad; IPv6 text is supplied by
 * a codec (the compressed form of section 4 of RFC 5952 in Python).
 */
module IpAddress {
  import opened Wrappers
  import opened Text

  const V4Limit: nat := 0x1_0000_0000
  const V6Limit: nat := 0x1_0000_0000_0000_0000_0000_0000_0000_0000

  /** Reading and printing of IPv6 addresses, left abstract. */
  datatype V6Codec = V6Codec(parse: string -> Option<nat>, format: nat -> string)

  /** One decimal octet as `IPv4Address` accepts it: 1 to 3 digits, no leading zero, at most 255. */
  function ParseOctet(s: string): (r: Option<nat>)
    ensures r.Some? ==> r.value < 256 && NatToString(r.value) == s
  {
    if 1 <= |s| <= 3 && (|s| > 1 ==> s[0] != '0') then
      match ParseNat(s)
      case Some(n) =>
        if n <= 255 then
          NatToStringParse(s);
          Some(n)
        else None
      case None => None
    else None
  }

  function OctetsValue(a: nat, b: nat, c: nat, d: nat): nat {
    ((a * 256 + b) * 256 + c) * 256 + d
  }

  /** `int(IPv4Address(s))`, or None where `IPv4Address(s)` raises. */
  function ParseIPv4(s: string): (r: Option<nat>)
    ensures r.Some? ==> r.value < V4Limit
  {
    var parts := Split(s, '.');
    if |parts| != 4 then None
    else
      match (ParseOctet(parts[0]), ParseOctet(parts[1]), ParseOctet(parts[2]), ParseOctet(parts[3]))
      case (Some(a), Some(b), Some(c), Some(d)) => Some(OctetsValue(a, b, c, d))
      case _ => None
  }

  /** The four octets of an IPv4 number, most significant first. */
  function Octets(n: nat): (o: seq<nat>)
    requires n < V4Limit
    ensures |o| == 4 && forall k :: 0 <= k < 4 ==> o[k] < 256
    ensures n == OctetsValue(o[0], o[1], o[2], o[3])
  {
    var q1 := n / 256;
    var q2 := q1 / 256;
    [q2 / 256, q2 % 256, q1 % 256, n % 256]
  }

  /** `str(IPv4Address(n))`: the dotted quad. */
  function FormatIPv4(n: nat): string
    requires n < V4Limit
  {
    var o := Octets(n);
    Join([NatToString(o[0]), NatToString(o[1]), NatToString(o[2]), NatToString(o[3])], ".")
  }

  /** Printing an IPv4 number and reading it back gives the number. */
  lemma ParseFormatIPv4(n: nat)
    requires n < V4Limit
    ensures ParseIPv4(FormatIPv4(n)) == Some(n)
  {
    var o := Octets(n);
    var parts := [NatToString(o[0]), NatToString(o[1]), NatToString(o[2]), NatToString(o[3])];
    forall k | 0 <= k < 4 ensures '.' !in parts[k] && ParseOctet(parts[k]) == Some(o[k]) {
      ParseNatToString(o[k]);
      assert forall x :: x in parts[k] ==> IsDigit(x);
    }
    SplitJoin(parts, '.');
  }

  lemma OctetsOfValue(a: nat, b: nat, c: nat, d: nat)
    requires a < 256 && b < 256 && c < 256 && d < 256
    ensures OctetsValue(a, b, c, d) < V4Limit
    ensures Octets(OctetsValue(a, b, c, d)) == [a, b, c, d]
  {
    var n := OctetsValue(a, b, c, d);
    var q1 := (a * 256 + b) * 256 + c;
    assert n == q1 * 256 + d;
    assert n / 256 == q1 && n % 256 == d;
    var q2 := a * 256 + b;
    assert q1 / 256 == q2 && q1 % 256 == c;
    assert q2 / 256 == a && q2 % 256 == b;
  }

  /** A text IPv4Address accepts is already the canonical dotted quad. */
  lemma FormatParseIPv4(s: string)
    requires ParseIPv4(s).Some?
    ensures FormatIPv4(ParseIPv4(s).value) == s
  {
    var parts := Split(s, '.');
    var a := ParseOctet(parts[0]).value;
    var b := ParseOctet(parts[1]).value;
    var c := ParseOctet(parts[2]).value;
    var d := ParseOctet(parts[3]).value;
    OctetsOfValue(a, b, c, d);
    JoinSplit(s, '.');
    assert parts == [NatToString(a), NatToString(b), NatToString(c), NatToString(d)];
  }

  /** The dotted quad is digits and dots, with a digit at each end. */
  lemma FormatIPv4Chars(n: nat)
    requires n < V4Limit
    ensures forall ch :: ch in FormatIPv4(n) ==> IsDigit(ch) || ch == '.'
    ensures |FormatIPv4(n)| >= 1
    ensures IsDigit(FormatIPv4(n)[0]) && IsDigit(FormatIPv4(n)[|FormatIPv4(n)| - 1])
  {
    var o := Octets(n);
    var a, b, c, d := NatToString(o[0]), NatToString(o[1]), NatToString(o[2]), NatToString(o[3]);
    assert Join([c, d], ".") == c + "." + d;
    assert Join([b, c, d], ".") == b + "." + (c + "." + d);
    var f := a + "." + (b + "." + (c + "." + d));
    assert FormatIPv4(n) == f;
    assert f[0] == a[0];
    assert f[|f| - 1] == d[|d| - 1];
  }

  /**
   * `int(ip_address(s))`: IPv4 is tried first, then IPv6; None where
   * `ip_address` raises ValueError.
   */
  function ParseAddress(s: string, v6: V6Codec): (r: Option<nat>)
    ensures r.Some? ==> r.value < V6Limit
    ensures ParseIPv4(s).Some? ==> r == ParseIPv4(s)
  {
    match ParseIPv4(s)
    case Some(n) => Some(n)
    case None =>
      match v6.parse(s)
      case Some(n) => if n < V6Limit then Some(n) else None
      case None => None
  }

  /**
   * `str(ip_address(n))`: numbers below 2^32 print as IPv4, numbers below
   * 2^128 as IPv6; None where `ip_address` raises ValueError.
   */
  function AddressText(n: nat, v6: V6Codec): (r: Option<string>)
    ensures r.Some? <==> n < V6Limit
    ensures n < V4Limit ==> r == Some(FormatIPv4(n))
    ensures V4Limit <= n < V6Limit ==> r == Some(v6.format(n))
  {
    if n < V4Limit then Some(FormatIPv4(n))
    else if n < V6Limit then Some(v6.format(n))
    else None
  }

  /** The codec reads back what it prints for n, and that text is not an IPv4 address. */
  predicate RoundTrips(v6: V6Codec, n: nat) {
    v6.parse(v6.format(n)) == Some(n) && ParseIPv4(v6.format(n)).None?
  }

  /**
   * Printing an address and reading it back gives the number: always for
   * IPv4, and for IPv6 wherever the codec round-trips.
   */
  lemma ParseAddressText(n: nat, v6: V6Codec)
    requires n < V6Limit && (n >= V4Limit ==> RoundTrips(v6, n))
    ensures ParseAddress(AddressText(n, v6).value, v6) == Some(n)
  {
    if n < V4Limit {
      ParseFormatIPv4(n);
    }
  }
}
