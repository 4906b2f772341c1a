/**
 * The host-port codec of the PORT command and of the 227 reply
 * (section 4.1.2 of RFC 959): six comma-separated decimal octets
 * `h1,h2,h3,h4,p1,p2`, four for the IPv4 address and two for the port.
 */
module Net {

  import opened Wrappers
  import opened Text

  type u8 = x: int | 0 <= x < 256
  type u16 = x: int | 0 <= x < 65536

  datatype Ipv4 = Ipv4(a: u8, b: u8, c: u8, d: u8)

  /** An IPv4 socket address. */
  datatype SocketAddr = SocketAddr(ip: Ipv4, port: u16)

  /** The digits `u8::from_str` reads: one leading '+' is skipped. */
  function UnsignedDigits(s: string): string
  {
    if |s| > 0 && s[0] == '+' then s[1..] else s
  }

  /**
   * `str::parse::<u8>`: an optional '+', then one or more decimal digits
   * (leading zeros allowed) whose value is at most 255. No spaces, no '-'.
   */
  function ParseU8(s: string): (r: Option<u8>)
    ensures r.Some? ==> |s| >= 1 && (IsDigit(s[0]) || s[0] == '+') && AllDigits(s[1..])
    ensures r.Some? ==> ' ' !in s && ',' !in s && '-' !in s
  {
    var d := UnsignedDigits(s);
    if |d| == 0 || !AllDigits(d) then None
    else if DigitsValue(d) < 256 then Some(DigitsValue(d))
    else None
  }

  /** Every octet's own decimal rendering parses back to it. */
  lemma ParseU8Decimal(n: u8)
    ensures ParseU8(Decimal(n)) == Some(n)
  {
    DigitsValueOfDecimal(n);
  }

  /** A leading '+' is accepted, as Rust's integer parser does. */
  lemma ParseU8PlusSign(n: u8)
    ensures ParseU8("+" + Decimal(n)) == Some(n)
  {
    DigitsValueOfDecimal(n);
    assert UnsignedDigits("+" + Decimal(n)) == Decimal(n);
  }

  /** Values above 255 are refused. */
  lemma ParseU8Overflow(n: nat)
    requires n >= 256
    ensures ParseU8(Decimal(n)) == None
  {
    DigitsValueOfDecimal(n);
  }

  /**
   * `parse_ipv4_addr`: exactly six ','-separated fields, each a `u8`; the
   * address is the first four, the port is `(p1 << 8) | p2`, which for two
   * octets is `p1 * 256 + p2`.
   */
  function ParseIpv4Addr(addr: string): (r: Option<SocketAddr>)
    ensures r.Some? ==> |Split(addr, ',')| == 6
  {
    var f := Split(addr, ',');
    if |f| != 6 || exists i :: 0 <= i < 6 && ParseU8(f[i]).None? then None
    else
      var h1, h2, h3, h4 := ParseU8(f[0]).value, ParseU8(f[1]).value, ParseU8(f[2]).value, ParseU8(f[3]).value;
      var p1, p2 := ParseU8(f[4]).value, ParseU8(f[5]).value;
      Some(SocketAddr(Ipv4(h1, h2, h3, h4), p1 * 256 + p2))
  }

  /** The accepted inputs are exactly those with six fields that all parse as octets. */
  lemma ParseIpv4AddrAccepts(addr: string)
    ensures ParseIpv4Addr(addr).Some? <==>
      (var f := Split(addr, ','); |f| == 6 && forall i :: 0 <= i < 6 ==> ParseU8(f[i]).Some?)
  {
  }

  /** `(p1 << 8) | p2` keeps both octets apart: shifting back recovers each. */
  lemma PortOctets(port: int, p1: u8, p2: u8)
    requires port == p1 * 256 + p2
    ensures port / 256 == p1 && port % 256 == p2
  {
  }

  /** On success the four address octets come from the first four fields, in order. */
  lemma ParseIpv4AddrFields(addr: string)
    requires ParseIpv4Addr(addr).Some?
    ensures var f, r := Split(addr, ','), ParseIpv4Addr(addr).value;
      && Some(r.ip.a) == ParseU8(f[0]) && Some(r.ip.b) == ParseU8(f[1])
      && Some(r.ip.c) == ParseU8(f[2]) && Some(r.ip.d) == ParseU8(f[3])
  {
    ParseIpv4AddrAccepts(addr);
  }

  /** On success the port's high and low octets are the last two fields. */
  lemma ParseIpv4AddrPort(addr: string)
    requires ParseIpv4Addr(addr).Some?
    ensures var f, r := Split(addr, ','), ParseIpv4Addr(addr).value;
      Some(r.port / 256) == ParseU8(f[4]) && Some(r.port % 256) == ParseU8(f[5])
  {
    var f := Split(addr, ',');
    ParseIpv4AddrAccepts(addr);
    assert ParseU8(f[4]).Some? && ParseU8(f[5]).Some?;
    var p1, p2 := ParseU8(f[4]).value, ParseU8(f[5]).value;
    var port := ParseIpv4Addr(addr).value.port;
    assert port == p1 as int * 256 + p2;
    PortOctets(port, p1, p2);
  }

  /** Conversely, six fields that parse as octets give the address they spell. */
  lemma ParseIpv4AddrOfFields(addr: string, h1: u8, h2: u8, h3: u8, h4: u8, p1: u8, p2: u8)
    requires |Split(addr, ',')| == 6
    requires ParseU8(Split(addr, ',')[0]) == Some(h1) && ParseU8(Split(addr, ',')[1]) == Some(h2)
    requires ParseU8(Split(addr, ',')[2]) == Some(h3) && ParseU8(Split(addr, ',')[3]) == Some(h4)
    requires ParseU8(Split(addr, ',')[4]) == Some(p1) && ParseU8(Split(addr, ',')[5]) == Some(p2)
    ensures ParseIpv4Addr(addr) == Some(SocketAddr(Ipv4(h1, h2, h3, h4), p1 * 256 + p2))
  {
    var f := Split(addr, ',');
    assert forall i :: 0 <= i < 6 ==> ParseU8(f[i]).Some?;
  }

  /** The four octets of an address, in decimal. */
  function IpOctets(ip: Ipv4): (f: seq<string>)
    ensures |f| == 4 && forall k :: 0 <= k < 4 ==> AllDigits(f[k])
  {
    [Decimal(ip.a), Decimal(ip.b), Decimal(ip.c), Decimal(ip.d)]
  }

  /** Rust's `Ipv4Addr` display: four decimal octets separated by '.'. */
  function Dotted(ip: Ipv4): string
  {
    Join(IpOctets(ip), '.')
  }

  /** What `print_ipv4_addr` writes between the parentheses. */
  function HostPort(addr: SocketAddr): string
  {
    Replace(Dotted(addr.ip), '.', ',') + "," + Decimal(addr.port / 256) + "," + Decimal(addr.port % 256)
  }

  /**
   * `print_ipv4_addr`: "(" + the dotted address with '.' replaced by ',' +
   * "," + `port >> 8` + "," + `port & 0xff` + ")".
   */
  function PrintIpv4Addr(addr: SocketAddr): (s: string)
    ensures |s| >= 2 && s[0] == '(' && s[|s| - 1] == ')'
    ensures s[1..|s| - 1] == HostPort(addr)
  {
    "(" + HostPort(addr) + ")"
  }

  /** The six decimal octets that `PrintIpv4Addr` writes, in order. */
  function Octets(addr: SocketAddr): (f: seq<string>)
    ensures |f| == 6 && forall k :: 0 <= k < 6 ==> AllDigits(f[k])
  {
    IpOctets(addr.ip) + [Decimal(addr.port / 256), Decimal(addr.port % 256)]
  }

  /**
   * The printed text is the six octets joined by ',' inside parentheses; the
   * two port octets are each below 256 and recombine to the port.
   */
  lemma {:induction false} PrintIpv4AddrFields(addr: SocketAddr)
    ensures HostPort(addr) == Join(Octets(addr), ',')
    ensures addr.port / 256 < 256 && addr.port % 256 < 256
    ensures (addr.port / 256) * 256 + addr.port % 256 == addr.port
  {
    var four := IpOctets(addr.ip);
    var hi, lo := Decimal(addr.port / 256), Decimal(addr.port % 256);
    forall k | 0 <= k < 4 ensures '.' !in four[k] {
      assert AllDigits(four[k]);
    }
    ReplaceJoin(four, '.', ',');
    JoinAppend(four, [hi, lo], ',');
    assert Join([hi, lo], ',') == hi + "," + lo by { assert [hi, lo][1..] == [lo]; }
  }

  /**
   * Round trip: parsing the printed text without its enclosing parentheses
   * gives back the same socket address.
   */
  lemma {:induction false} ParsePrintRoundTrip(addr: SocketAddr)
    ensures var s := PrintIpv4Addr(addr); ParseIpv4Addr(s[1..|s| - 1]) == Some(addr)
  {
    var s := PrintIpv4Addr(addr);
    var f := Octets(addr);
    PrintIpv4AddrFields(addr);
    assert s[1..|s| - 1] == Join(f, ',');
    forall k | 0 <= k < 6 ensures ',' !in f[k] {
      assert AllDigits(f[k]);
    }
    SplitJoin(f, ',');
    ParseU8Decimal(addr.ip.a);
    ParseU8Decimal(addr.ip.b);
    ParseU8Decimal(addr.ip.c);
    ParseU8Decimal(addr.ip.d);
    ParseU8Decimal(addr.port / 256);
    ParseU8Decimal(addr.port % 256);
    ParseIpv4AddrOfFields(s[1..|s| - 1], addr.ip.a, addr.ip.b, addr.ip.c, addr.ip.d, addr.port / 256, addr.port % 256);
  }

  /** Three fields are too few: the PORT argument is rejected. */
  lemma ShortAddressRejected()
    ensures ParseIpv4Addr("1,2,3") == None
  {
    var f := ["1", "2", "3"];
    SplitJoin(f, ',');
    assert Join(f, ',') == "1,2,3";
  }
}
