// What every frame shows, header by header: encoders with every field free, the malformed,
// fragmented, truncated and unported included.
module Headers {
  import opened Wrappers
  import opened Address
  import opened Dissect
  import opened Hints
  import opened Frames

  // ---- The link layer ----

  function LinkBytes(macs: seq<byte>, tags: seq<Tag>, kind: uint16, datagram: seq<byte>): seq<byte> {
    macs + TagBytes(tags, kind) + datagram
  }

  predicate Tagged(macs: seq<byte>, tags: seq<Tag>) {
    |macs| == 12 && |tags| <= 2 && forall i | 0 <= i < |tags| :: tags[i].kind == 0x8100 || tags[i].kind == 0x88a8
  }

  lemma LinkShows(macs: seq<byte>, tags: seq<Tag>, kind: uint16, datagram: seq<byte>)
    requires Tagged(macs, tags) && kind != 0x8100 && kind != 0x88a8
    ensures Dissected(LinkBytes(macs, tags, kind, datagram)) == Datagram(kind, datagram)
  {
    hide Datagram, TagBytes;
    var b, t := LinkBytes(macs, tags, kind, datagram), TagBytes(tags, kind);
    TagLengths(tags, kind);
    assert b[12..12 + |t|] == t;
    TagsSkipped(b, 14, tags, kind, 2);
    assert b[14 + 4 * |tags|..] == datagram;
  }

  /** Only the two IP kinds show anything. */
  lemma OtherKindsShowNothing(macs: seq<byte>, tags: seq<Tag>, kind: uint16, datagram: seq<byte>)
    requires Tagged(macs, tags) && kind !in {0x0800, 0x86dd, 0x8100, 0x88a8}
    ensures Dissected(LinkBytes(macs, tags, kind, datagram)) == NOTHING
  {
    hide Dissected;
    LinkShows(macs, tags, kind, datagram);
  }

  // ---- IPv4 ----

  /** The twenty fixed bytes (section 3.1 of RFC 791); `size` counts four-byte words, `reserved`,
      `whole` and `more` are the flag bits. */
  datatype Ipv4Header = Ipv4Header(
    version: nat, size: nat, service: byte, total: uint16, id: uint16, reserved: bool, whole: bool, more: bool,
    fragment: nat, life: byte, protocol: byte, checksum: uint16, source: seq<byte>, destination: seq<byte>)
  {
    predicate Valid() { version < 16 && size < 16 && fragment < 8192 && |source| == 4 && |destination| == 4 }

    function Flags(): uint16
      requires Valid()
    {
      (if reserved then 32768 else 0) + (if whole then 16384 else 0) + (if more then 8192 else 0) + fragment
    }

    function Fixed(): (b: seq<byte>)
      requires Valid()
      ensures |b| == 12
    {
      [16 * version + size, service, total / 256, total % 256, id / 256, id % 256, Flags() / 256, Flags() % 256,
       life, protocol, checksum / 256, checksum % 256]
    }

    function Bytes(): seq<byte>
      requires Valid()
    {
      Fixed() + source + destination
    }
  }

  /** The part of the rest of a packet that its lengths and the capture leave to the transport layer. */
  function Ipv4Body(h: Ipv4Header, rest: seq<byte>): seq<byte>
    requires 5 <= h.size && 4 * h.size <= h.total && 4 * h.size <= 20 + |rest|
  {
    rest[4 * h.size - 20..if 20 + |rest| < h.total then |rest| else h.total - 20]
  }

  /** What an IPv4 packet shows, whatever its fields: nothing if version or lengths are impossible, the
      addresses alone if it is a fragment, first or later, and otherwise what its body shows. */
  lemma Ipv4Shows(macs: seq<byte>, tags: seq<Tag>, h: Ipv4Header, rest: seq<byte>)
    requires Tagged(macs, tags) && h.Valid()
    ensures Dissected(LinkBytes(macs, tags, 0x0800, h.Bytes() + rest)) ==
            if h.version != 4 || h.size < 5 || h.total < 4 * h.size || 20 + |rest| < 4 * h.size then NOTHING
            else if h.more || h.fragment > 0 then NOTHING.(source := h.source, destination := h.destination)
            else Segment(NOTHING.(source := h.source, destination := h.destination), h.protocol, Ipv4Body(h, rest),
                         20 + |rest| >= h.total)
  {
    hide Dissected, Segment, Ipv4Header.Bytes;
    var d := h.Bytes() + rest;
    LinkShows(macs, tags, 0x0800, d);
    Ipv4Fields(h, rest);
    FragmentBits(h);
    if 5 <= h.size && 4 * h.size <= h.total && 4 * h.size <= 20 + |rest| {
      var until := if 20 + |rest| < h.total then |rest| else h.total - 20;
      assert d[4 * h.size..20 + until] == rest[4 * h.size - 20..until];
    }
  }

  lemma Ipv4Fields(h: Ipv4Header, rest: seq<byte>)
    requires h.Valid()
    ensures var d := h.Bytes() + rest;
            && |h.Bytes()| == 20 && d[0] / 16 == h.version && d[0] % 16 == h.size && U16(d, 2) == h.total
            && U16(d, 6) == h.Flags() && d[9] == h.protocol && d[12..16] == h.source && d[16..20] == h.destination
  {
    var d, f := h.Bytes() + rest, h.Fixed();
    Located(f, h.source, h.destination, [], [], rest);
    assert f + h.source + h.destination + [] + [] == h.Bytes();
    assert forall i | 0 <= i < 12 :: d[i] == d[..12][i] == f[i];
  }

  lemma FragmentBits(h: Ipv4Header)
    requires h.Valid()
    ensures h.Flags() % 0x4000 != 0 <==> h.more || h.fragment > 0
  {
    var low := (if h.more then 8192 else 0) + h.fragment;
    assert h.Flags() % 0x4000 == low;
  }

  // ---- IPv6 ----

  datatype Ipv6Header = Ipv6Header(
    version: nat, traffic: nat, flow: seq<byte>, length: uint16, next: byte, life: byte, source: seq<byte>, destination: seq<byte>)
  {
    predicate Valid() { version < 16 && traffic < 16 && |flow| == 3 && |source| == 16 && |destination| == 16 }

    function Fixed(): (b: seq<byte>)
      requires Valid()
      ensures |b| == 8
    {
      [16 * version + traffic, flow[0], flow[1], flow[2], length / 256, length % 256, next, life]
    }

    function Bytes(): seq<byte>
      requires Valid()
    {
      Fixed() + source + destination
    }
  }

  /** The same of an IPv6 packet (section 3 of RFC 8200); whatever follows is judged by the next-header number. */
  lemma Ipv6Shows(macs: seq<byte>, tags: seq<Tag>, h: Ipv6Header, rest: seq<byte>)
    requires Tagged(macs, tags) && h.Valid()
    ensures Dissected(LinkBytes(macs, tags, 0x86dd, h.Bytes() + rest)) ==
            if h.version != 6 then NOTHING
            else Segment(NOTHING.(source := h.source, destination := h.destination), h.next,
                         if |rest| < h.length then rest else rest[..h.length], |rest| >= h.length)
  {
    hide Dissected, Segment, Ipv6Header.Bytes;
    var d := h.Bytes() + rest;
    LinkShows(macs, tags, 0x86dd, d);
    Ipv6Fields(h, rest);
    var until := if |rest| < h.length then |rest| else h.length;
    assert d[40..40 + until] == rest[..until];
    assert rest[..|rest|] == rest;
  }

  lemma Ipv6Fields(h: Ipv6Header, rest: seq<byte>)
    requires h.Valid()
    ensures var d := h.Bytes() + rest;
            && |h.Bytes()| == 40 && d[0] / 16 == h.version && U16(d, 4) == h.length && d[6] == h.next
            && d[8..24] == h.source && d[24..40] == h.destination
  {
    var d, f := h.Bytes() + rest, h.Fixed();
    Located(f, h.source, h.destination, [], [], rest);
    assert f + h.source + h.destination + [] + [] == h.Bytes();
    assert forall i | 0 <= i < 8 :: d[i] == d[..8][i] == f[i];
  }

  // ---- The transport layer ----

  /** Neither TCP nor UDP: ICMP for either version is named, nothing else is, and there are no ports. */
  lemma OthersShow(found: Findings, protocol: byte, s: seq<byte>, complete: bool)
    requires protocol != 6 && protocol != 17
    ensures Segment(found, protocol, s, complete) == found.(protocol := if protocol in {1, 58} then Icmp else Other)
  {
  }

  /** The twenty fixed bytes of TCP (section 3.1 of RFC 9293); `size` counts four-byte words. */
  datatype TcpFixed = TcpFixed(sport: uint16, dport: uint16, numbers: seq<byte>, size: nat, reserved: nat, rest: seq<byte>) {
    predicate Valid() { |numbers| == 8 && size < 16 && reserved < 16 && |rest| == 7 }

    function Bytes(): seq<byte>
      requires Valid()
    {
      Word(sport) + Word(dport) + numbers + [16 * size + reserved] + rest
    }
  }

  /** What a TCP segment shows: its ports only behind a complete header, its hint only in a complete capture. */
  lemma TcpShows(found: Findings, h: TcpFixed, rest: seq<byte>, complete: bool)
    requires h.Valid()
    ensures Segment(found, 6, h.Bytes() + rest, complete) ==
            if h.size < 5 || 20 + |rest| < 4 * h.size then found.(protocol := Tcp)
            else if !complete then
              found.(protocol := Tcp, sourcePort := Some(h.sport), destinationPort := Some(h.dport))
            else
              found.(protocol := Tcp, sourcePort := Some(h.sport), destinationPort := Some(h.dport),
                     application := StreamContent(rest[4 * h.size - 20..]))
  {
    hide StreamHint, DatagramHint, StreamContent, TcpFixed.Bytes;
    var s := h.Bytes() + rest;
    TcpFields(h, rest);
    if h.size >= 5 && 20 + |rest| >= 4 * h.size {
      assert s[4 * h.size..] == rest[4 * h.size - 20..];
      HintsAreContents(h.sport, h.dport, rest[4 * h.size - 20..]);
    }
  }

  lemma TcpFields(h: TcpFixed, rest: seq<byte>)
    requires h.Valid()
    ensures var s := h.Bytes() + rest;
            |h.Bytes()| == 20 && U16(s, 0) == h.sport && U16(s, 2) == h.dport && s[12] / 16 == h.size
  {
    var s := h.Bytes() + rest;
    WordRead(s, 0, h.sport);
    WordRead(s, 2, h.dport);
    assert s[12] == 16 * h.size + h.reserved;
  }

  /** What a UDP datagram shows, whatever its own length field says: no ports below a header's length,
      and a hint only if everything it claims was captured, on exactly that. */
  lemma UdpShows(found: Findings, sport: uint16, dport: uint16, length: uint16, checksum: uint16, rest: seq<byte>, complete: bool)
    ensures Segment(found, 17, Word(sport) + Word(dport) + Word(length) + Word(checksum) + rest, complete) ==
            if length < 8 then found.(protocol := Udp)
            else if !complete || 8 + |rest| < length then
              found.(protocol := Udp, sourcePort := Some(sport), destinationPort := Some(dport))
            else
              found.(protocol := Udp, sourcePort := Some(sport), destinationPort := Some(dport),
                     application := DatagramContent(sport, dport, rest[..length - 8]))
  {
    hide StreamHint, DatagramHint, DatagramContent;
    var s := Word(sport) + Word(dport) + Word(length) + Word(checksum) + rest;
    WordRead(s, 0, sport);
    WordRead(s, 2, dport);
    WordRead(s, 4, length);
    if 8 <= length <= 8 + |rest| {
      assert s[8..length] == rest[..length - 8];
      HintsAreContents(sport, dport, rest[..length - 8]);
    }
  }

  /** A transport header that is not there in full shows the protocol alone. */
  lemma ShortShows(found: Findings, s: seq<byte>, complete: bool)
    ensures |s| < 20 ==> Segment(found, 6, s, complete) == found.(protocol := Tcp)
    ensures |s| < 8 ==> Segment(found, 17, s, complete) == found.(protocol := Udp)
  {
  }

  /** A fragment, first or later, shows its addresses and neither protocol nor ports nor hint. */
  lemma FragmentsShowAddresses(macs: seq<byte>, tags: seq<Tag>, h: Ipv4Header, rest: seq<byte>)
    requires Tagged(macs, tags) && h.Valid() && (h.more || h.fragment > 0)
    requires h.version == 4 && 5 <= h.size && 4 * h.size <= h.total && 4 * h.size <= 20 + |rest|
    ensures Dissected(LinkBytes(macs, tags, 0x0800, h.Bytes() + rest)) ==
            Findings(h.source, h.destination, None, None, Other, Unknown)
  {
    hide Dissected;
    Ipv4Shows(macs, tags, h, rest);
  }

  /** Neither a fragment nor TCP nor UDP: the addresses and, for the two ICMP numbers, the protocol. */
  lemma UnportedShows(macs: seq<byte>, tags: seq<Tag>, h: Ipv4Header, rest: seq<byte>)
    requires Tagged(macs, tags) && h.Valid() && !h.more && h.fragment == 0 && h.protocol != 6 && h.protocol != 17
    requires h.version == 4 && 5 <= h.size && 4 * h.size <= h.total && 4 * h.size <= 20 + |rest|
    ensures Dissected(LinkBytes(macs, tags, 0x0800, h.Bytes() + rest)) ==
            Findings(h.source, h.destination, None, None, if h.protocol in {1, 58} then Icmp else Other, Unknown)
  {
    hide Dissected;
    Ipv4Shows(macs, tags, h, rest);
  }

  lemma UnportedShows6(macs: seq<byte>, tags: seq<Tag>, h: Ipv6Header, rest: seq<byte>)
    requires Tagged(macs, tags) && h.Valid() && h.version == 6 && h.next != 6 && h.next != 17
    ensures Dissected(LinkBytes(macs, tags, 0x86dd, h.Bytes() + rest)) ==
            Findings(h.source, h.destination, None, None, if h.next in {1, 58} then Icmp else Other, Unknown)
  {
    hide Dissected;
    Ipv6Shows(macs, tags, h, rest);
  }

  /** Every capture long enough to hold a header is one of the frames above. */
  lemma EveryIpv4Packet(d: seq<byte>) returns (h: Ipv4Header)
    requires |d| >= 20
    ensures h.Valid() && d == h.Bytes() + d[20..]
  {
    var flags := U16(d, 6);
    h := Ipv4Header(d[0] / 16, d[0] % 16, d[1], U16(d, 2), U16(d, 4), flags / 32768 == 1, flags / 16384 % 2 == 1,
                    flags / 8192 % 2 == 1, flags % 8192, d[8], d[9], U16(d, 10), d[12..16], d[16..20]);
    FlagBits(flags);
    FixedBytes(h, d);
    assert d == d[..12] + d[12..16] + d[16..20] + d[20..];
  }

  lemma FixedBytes(h: Ipv4Header, d: seq<byte>)
    requires h.Valid() && |d| >= 12 && h.Flags() == U16(d, 6)
    requires 16 * h.version + h.size == d[0] && h.service == d[1] && h.total == U16(d, 2) && h.id == U16(d, 4)
    requires h.life == d[8] && h.protocol == d[9] && h.checksum == U16(d, 10)
    ensures h.Fixed() == d[..12]
  {
    hide Ipv4Header.Flags;
  }

  lemma FlagBits(n: uint16)
    ensures n == (if n / 32768 == 1 then 32768 else 0) + (if n / 16384 % 2 == 1 then 16384 else 0) +
                 (if n / 8192 % 2 == 1 then 8192 else 0) + n % 8192
  {
  }

  lemma EveryIpv6Packet(d: seq<byte>) returns (h: Ipv6Header)
    requires |d| >= 40
    ensures h.Valid() && d == h.Bytes() + d[40..]
  {
    h := Ipv6Header(d[0] / 16, d[0] % 16, d[1..4], U16(d, 4), d[6], d[7], d[8..24], d[24..40]);
    assert h.Fixed() == d[..8];
    assert d == d[..8] + d[8..24] + d[24..40] + d[40..];
  }
}
