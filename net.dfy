/**
 * The parts of Go's `net` package the agent relies on, over values handed in
 * by the caller instead of read from the operating system: IP addresses and
 * their IPv4 form, interface flags, hardware addresses and their text forms.
 */
module Net {
  import opened Wrappers
  import opened Text

  /** net.IP: 4 bytes for an IPv4 address, 16 for an IPv6 one. */
  type IP = seq<byte>

  type IPv4 = b: seq<byte> | |b| == 4 witness [0, 0, 0, 0]

  /** net.IP.To4: the address itself if it has 4 bytes, the last 4 of an IPv4-mapped IPv6 address, else nil. */
  function To4(ip: IP): Option<IPv4> {
    if |ip| == 4 then Some(ip)
    else if |ip| == 16 && (forall i :: 0 <= i < 10 ==> ip[i] == 0) && ip[10] == 255 && ip[11] == 255 then Some(ip[12..])
    else None
  }

  /** net.IP.String of an IPv4 address: the four bytes in decimal, joined by '.'. */
  function IPv4String(a: IPv4): string {
    Join(DottedParts(a), ".")
  }

  function DottedParts(a: IPv4): seq<string> {
    [FormatInt(a[0] as int), FormatInt(a[1] as int), FormatInt(a[2] as int), FormatInt(a[3] as int)]
  }

  /** Reference parser for dotted-quad text. */
  function ParseIPv4(s: string): Option<IPv4> {
    var parts := Split(s, '.');
    if |parts| != 4 then None
    else
      var a :- ParseOctet(parts[0]);
      var b :- ParseOctet(parts[1]);
      var c :- ParseOctet(parts[2]);
      var d :- ParseOctet(parts[3]);
      Some([a, b, c, d])
  }

  function ParseOctet(s: string): Option<byte> {
    var v :- ParseInt(s);
    if 0 <= v < 256 then Some(v as byte) else None
  }

  /** Every IPv4 address is read back from its dotted form. */
  lemma IPv4StringRoundTrip(a: IPv4)
    ensures ParseIPv4(IPv4String(a)) == Some(a)
  {
    var parts := DottedParts(a);
    forall i | 0 <= i < 4
      ensures '.' !in parts[i]
    {
      FormatIntCharacters(a[i] as int, '.');
    }
    SplitJoin(parts, '.');
    FormatIntRoundTrip(a[0] as int);
    FormatIntRoundTrip(a[1] as int);
    FormatIntRoundTrip(a[2] as int);
    FormatIntRoundTrip(a[3] as int);
    assert [a[0], a[1], a[2], a[3]] == a;
  }

  /**
   * The dotted form of an address is made of digits and dots alone (each
   * byte is non-negative, so no part carries a '-'), so it has no ':' or '/'
   * and can stand before a port in a URI.
   */
  lemma IPv4StringCharacters(a: IPv4, c: char)
    requires c != '.' && !IsDigit(c)
    ensures c !in IPv4String(a)
  {
    var parts := DottedParts(a);
    forall i | 0 <= i < 4
      ensures c !in parts[i]
    {
      assert parts[i] == FormatNat(a[i] as nat);
    }
    JoinFour(parts, ".");
  }

  lemma JoinFour(parts: seq<string>, sep: string)
    requires |parts| == 4
    ensures Join(parts, sep) == parts[0] + sep + (parts[1] + sep + (parts[2] + sep + parts[3]))
  {
    assert parts[1..][1..] == parts[2..];
    assert parts[2..][1..] == parts[3..];
    assert Join(parts[3..], sep) == parts[3];
    assert Join(parts[2..], sep) == parts[2] + sep + parts[3];
    assert Join(parts[1..], sep) == parts[1] + sep + (parts[2] + sep + parts[3]);
  }

  /** net.Flags, as the set of flags that are on. */
  datatype Flag = Up | Broadcast | Loopback | PointToPoint | Multicast | Running

  /** net.FlagBroadcast|net.FlagUp|net.FlagMulticast. */
  const PreferredFlags: set<Flag> := {Broadcast, Up, Multicast}

  /** A net.Interface together with the addresses its Addrs method reports. */
  datatype NetInterface = NetInterface(name: string, flags: set<Flag>, hardwareAddr: seq<byte>, addrs: seq<IP>)

  function HexBytes(bs: seq<byte>): seq<string> {
    seq(|bs|, i requires 0 <= i < |bs| => HexByte(bs[i]))
  }

  /** net.HardwareAddr.String: each byte as two lower-case hex digits, joined by ':'. */
  function HardwareAddrString(hw: seq<byte>): string {
    Join(HexBytes(hw), ":")
  }

  lemma HexByteCharacters(b: byte, c: char)
    requires !IsDigit(c) && !('a' <= c <= 'f')
    ensures c !in HexByte(b)
  {
  }
}
