// Laws of dissection: it inverts an independent encoder, ignores padding and tags,
// and what it finds in a truncated capture is what the whole frame shows.
module Frames {
  import opened Wrappers
  import opened Address
  import opened Dissect
  import opened Hints

  // ---- An encoder for unfragmented TCP and UDP ----

  datatype Tag = Tag(kind: uint16, control: uint16)

  datatype NetHeader =
    | V4(service: byte, id: uint16, flags: byte, life: byte, checksum: uint16,
         source: seq<byte>, destination: seq<byte>, options: seq<byte>)
    | V6(flow: seq<byte>, life: byte, source: seq<byte>, destination: seq<byte>)

  datatype SegmentHeader =
    | TcpHeader(sport: uint16, dport: uint16, numbers: seq<byte>, reserved: byte, rest: seq<byte>, options: seq<byte>)
    | UdpHeader(sport: uint16, dport: uint16, checksum: uint16)

  datatype Frame = Frame(macs: seq<byte>, tags: seq<Tag>, net: NetHeader, segment: SegmentHeader, payload: seq<byte>)

  predicate Encodable(f: Frame) {
    && |f.macs| == 12 && |f.tags| <= 2
    && (forall i | 0 <= i < |f.tags| :: f.tags[i].kind == 0x8100 || f.tags[i].kind == 0x88a8)
    && EncodableNet(f.net)
    && EncodableSegment(f.segment)
    && (if f.net.V4? then 20 + |f.net.options| else 0) + |SegmentBytes(f.segment, f.payload)| < 0x1_0000
  }

  predicate EncodableNet(n: NetHeader) {
    match n
    // Flags: the reserved and the don't-fragment bit may be set, more-fragments may not.
    case V4(_, _, flags, _, _, source, destination, options) =>
      |source| == 4 && |destination| == 4 && |options| <= 40 && |options| % 4 == 0 && flags % 64 == 0
    case V6(flow, _, source, destination) => |flow| == 4 && flow[0] < 16 && |source| == 16 && |destination| == 16
  }

  predicate EncodableSegment(t: SegmentHeader) {
    t.TcpHeader? ==> |t.numbers| == 8 && t.reserved < 16 && |t.rest| == 7 && |t.options| <= 40 && |t.options| % 4 == 0
  }

  function SegmentBytes(t: SegmentHeader, payload: seq<byte>): seq<byte> {
    match t
    case TcpHeader(sport, dport, numbers, reserved, rest, options) =>
      Word(sport) + Word(dport) + numbers + [16 * ((5 + |options| / 4) % 16) + reserved % 16] + (rest + options) + payload
    case UdpHeader(sport, dport, checksum) =>
      Word(sport) + Word(dport) + Word((8 + |payload|) % 0x1_0000) + Word(checksum) + payload
  }

  function ProtocolNumber(t: SegmentHeader): byte {
    if t.TcpHeader? then 6 else 17
  }

  function NetBytes(n: NetHeader, protocol: byte, body: seq<byte>): seq<byte>
    requires EncodableNet(n) && |body| < 0x1_0000 && (n.V4? ==> 20 + |n.options| + |body| < 0x1_0000)
  {
    match n
    case V4(_, _, _, _, _, source, destination, options) =>
      Ipv4Fields(n, protocol, 20 + |options| + |body|) + source + destination + options + body
    case V6(_, _, source, destination) => Ipv6Fields(n, protocol, |body|) + source + destination + [] + body
  }

  function Ipv4Fields(n: NetHeader, protocol: byte, total: uint16): (h: seq<byte>)
    requires n.V4? && |n.options| <= 40
    ensures |h| == 12
  {
    [64 + 5 + |n.options| / 4, n.service, total / 256, total % 256, n.id / 256, n.id % 256, n.flags, 0,
     n.life, protocol, n.checksum / 256, n.checksum % 256]
  }

  function Ipv6Fields(n: NetHeader, protocol: byte, length: uint16): (h: seq<byte>)
    requires n.V6? && |n.flow| == 4 && n.flow[0] < 16
    ensures |h| == 8
  {
    [96 + n.flow[0], n.flow[1], n.flow[2], n.flow[3], length / 256, length % 256, protocol, n.life]
  }

  function KindOf(n: NetHeader): uint16 {
    if n.V4? then 0x0800 else 0x86dd
  }

  /** Tags, each followed by the kind of what comes next. */
  function TagBytes(tags: seq<Tag>, kind: uint16): seq<byte> {
    if tags == [] then Word(kind) else Word(tags[0].kind) + Word(tags[0].control) + TagBytes(tags[1..], kind)
  }

  function Encoded(f: Frame): seq<byte>
    requires Encodable(f)
  {
    f.macs + TagBytes(f.tags, KindOf(f.net)) +
    NetBytes(f.net, ProtocolNumber(f.segment), SegmentBytes(f.segment, f.payload))
  }

  /** What the encoded frame is meant to say. */
  ghost function Meaning(f: Frame): Findings {
    Findings(f.net.source, f.net.destination, Some(f.segment.sport), Some(f.segment.dport),
      if f.segment.TcpHeader? then Tcp else Udp,
      if f.segment.TcpHeader? then StreamContent(f.payload) else DatagramContent(f.segment.sport, f.segment.dport, f.payload))
  }

  lemma SegmentInverts(found: Findings, t: SegmentHeader, payload: seq<byte>)
    requires found == NOTHING.(source := found.source, destination := found.destination)
    requires EncodableSegment(t) && |SegmentBytes(t, payload)| < 0x1_0000
    ensures Segment(found, ProtocolNumber(t), SegmentBytes(t, payload), true) ==
            found.(sourcePort := Some(t.sport), destinationPort := Some(t.dport),
                   protocol := if t.TcpHeader? then Tcp else Udp,
                   application := if t.TcpHeader? then StreamContent(payload) else DatagramContent(t.sport, t.dport, payload))
  {
    if t.TcpHeader? { TcpInverts(found, t, payload); } else { UdpInverts(found, t, payload); }
  }

  lemma TcpInverts(found: Findings, t: SegmentHeader, payload: seq<byte>)
    requires t.TcpHeader? && EncodableSegment(t)
    ensures Segment(found, 6, SegmentBytes(t, payload), true) ==
            found.(protocol := Tcp, sourcePort := Some(t.sport), destinationPort := Some(t.dport),
                   application := StreamContent(payload))
  {
    hide StreamHint, DatagramHint, StreamContent;
    HintsAreContents(t.sport, t.dport, payload);
    var s, h := SegmentBytes(t, payload), Word(t.sport) + Word(t.dport);
    var size := 5 + |t.options| / 4;
    Located(h, t.numbers, [16 * (size % 16) + t.reserved % 16], t.rest + t.options, payload, []);
    assert s + [] == s;
    assert s[12] == s[12..13][0] && s[12] / 16 == size;
    assert forall i | 0 <= i < 4 :: s[i] == s[..4][i] == h[i];
    assert s[20 + |t.options|..] == payload;
  }

  lemma UdpInverts(found: Findings, t: SegmentHeader, payload: seq<byte>)
    requires t.UdpHeader? && 8 + |payload| < 0x1_0000
    ensures Segment(found, 17, SegmentBytes(t, payload), true) ==
            found.(protocol := Udp, sourcePort := Some(t.sport), destinationPort := Some(t.dport),
                   application := DatagramContent(t.sport, t.dport, payload))
  {
    hide StreamHint, DatagramHint, DatagramContent;
    HintsAreContents(t.sport, t.dport, payload);
    var s := SegmentBytes(t, payload);
    WordRead(s, 0, t.sport);
    WordRead(s, 2, t.dport);
    WordRead(s, 4, 8 + |payload|);
    assert s[8..8 + |payload|] == payload;
  }

  lemma NetInverts(n: NetHeader, protocol: byte, body: seq<byte>, trailer: seq<byte>)
    requires EncodableNet(n) && |body| < 0x1_0000 && (n.V4? ==> 20 + |n.options| + |body| < 0x1_0000)
    ensures Datagram(KindOf(n), NetBytes(n, protocol, body) + trailer) ==
            Segment(NOTHING.(source := n.source, destination := n.destination), protocol, body, true)
  {
    if n.V4? { V4Inverts(n, protocol, body, trailer); } else { V6Inverts(n, protocol, body, trailer); }
  }

  /** Where the parts of a packet are. */
  lemma Located(h: seq<byte>, source: seq<byte>, destination: seq<byte>, options: seq<byte>, body: seq<byte>, trailer: seq<byte>)
    ensures var d, i := h + source + destination + options + body + trailer, |h| + |source|;
            var j := i + |destination| + |options|;
            && d[..|h|] == h && d[|h|..i] == source && d[i..i + |destination|] == destination
            && |d| == j + |body| + |trailer| && d[j..j + |body|] == body
  {
    var d, i := h + source + destination + options + body + trailer, |h| + |source|;
    Between(h, source, destination + options + body + trailer);
    Between(h + source, destination, options + body + trailer);
    Between(h + source + destination + options, body, trailer);
    Regroup(h + source, destination, options, body, trailer);
    Regroup(h + source + destination, [], options, body, trailer);
    assert h + source + destination + [] == h + source + destination && [] + options == options;
  }

  lemma Regroup(a: seq<byte>, b: seq<byte>, c: seq<byte>, d: seq<byte>, e: seq<byte>)
    ensures a + b + c + d + e == a + (b + c + d + e)
  {
    Associate(a, b, c);
    Associate(a, b + c, d);
    Associate(a, b + c + d, e);
  }

  lemma Associate(a: seq<byte>, b: seq<byte>, c: seq<byte>)
    ensures a + b + c == a + (b + c)
  {
  }

  lemma Between(a: seq<byte>, b: seq<byte>, c: seq<byte>)
    ensures (a + b + c)[..|a|] == a && (a + b + c)[|a|..|a| + |b|] == b
  {
  }

  lemma V4Inverts(n: NetHeader, protocol: byte, body: seq<byte>, trailer: seq<byte>)
    requires n.V4? && EncodableNet(n) && 20 + |n.options| + |body| < 0x1_0000
    ensures Ipv4(NetBytes(n, protocol, body) + trailer) ==
            Segment(NOTHING.(source := n.source, destination := n.destination), protocol, body, true)
  {
    hide Segment;
    var total := 20 + |n.options| + |body|;
    var h, d := Ipv4Fields(n, protocol, total), NetBytes(n, protocol, body) + trailer;
    Located(h, n.source, n.destination, n.options, body, trailer);
    assert forall i | 0 <= i < 12 :: d[i] == d[..12][i] == h[i];
    assert d[0] / 16 == 4 && 4 * (d[0] % 16) == 20 + |n.options|;
    assert U16(d, 2) == total && U16(d, 6) % 0x4000 == 0 && d[9] == protocol;
  }

  lemma V6Inverts(n: NetHeader, protocol: byte, body: seq<byte>, trailer: seq<byte>)
    requires n.V6? && EncodableNet(n) && |body| < 0x1_0000
    ensures Ipv6(NetBytes(n, protocol, body) + trailer) ==
            Segment(NOTHING.(source := n.source, destination := n.destination), protocol, body, true)
  {
    hide Segment;
    var h, d := Ipv6Fields(n, protocol, |body|), NetBytes(n, protocol, body) + trailer;
    Located(h, n.source, n.destination, [], body, trailer);
    assert forall i | 0 <= i < 8 :: d[i] == d[..8][i] == h[i];
    assert d[0] / 16 == 6 && U16(d, 4) == |body| && d[6] == protocol;
  }

  lemma {:induction false} TagsSkipped(b: seq<byte>, offset: nat, tags: seq<Tag>, kind: uint16, depth: nat)
    requires offset >= 2 && offset - 2 + |TagBytes(tags, kind)| <= |b|
    requires b[offset - 2..offset - 2 + |TagBytes(tags, kind)|] == TagBytes(tags, kind)
    requires (forall i | 0 <= i < |tags| :: IsTag(tags[i].kind)) && !IsTag(kind) && |tags| <= depth
    ensures |TagBytes(tags, kind)| == 2 + 4 * |tags|
    ensures SkipTags(b, offset, U16(b, offset - 2), depth) == Some(Ethernet(offset + 4 * |tags|, kind))
    decreases |tags|
  {
    var t := TagBytes(tags, kind);
    if tags == [] {
      WordRead(b, offset - 2, kind);
    } else {
      TagLengths(tags[1..], kind);
      assert b[offset - 2..offset] == t[..2] == Word(tags[0].kind);
      WordRead(b, offset - 2, tags[0].kind);
      assert b[offset + 2..offset + 2 + |TagBytes(tags[1..], kind)|] == t[4..] == TagBytes(tags[1..], kind);
      TagsSkipped(b, offset + 4, tags[1..], kind, depth - 1);
    }
  }

  lemma {:induction false} TagLengths(tags: seq<Tag>, kind: uint16)
    ensures |TagBytes(tags, kind)| == 2 + 4 * |tags|
  {
    if tags != [] { TagLengths(tags[1..], kind); }
  }

  /** Dissection inverts encoding, whatever padding the link adds. */
  lemma DissectInvertsEncoding(f: Frame, padding: seq<byte>)
    requires Encodable(f)
    ensures Dissected(Encoded(f) + padding) == Meaning(f)
  {
    hide StreamContent, DatagramContent, Segment, Datagram, NetBytes, SegmentBytes, EncodableNet, EncodableSegment, TagBytes;
    var b := Encoded(f) + padding;
    var kind := KindOf(f.net);
    var tags := TagBytes(f.tags, kind);
    var body := SegmentBytes(f.segment, f.payload);
    var net := NetBytes(f.net, ProtocolNumber(f.segment), body);
    TagLengths(f.tags, kind);
    assert b[12..12 + |tags|] == tags;
    TagsSkipped(b, 14, f.tags, kind, 2);
    assert b[14 + 4 * |f.tags|..] == net + padding;
    NetInverts(f.net, ProtocolNumber(f.segment), body, padding);
    SegmentInverts(NOTHING.(source := f.net.source, destination := f.net.destination), f.segment, f.payload);
  }

  // ---- The hints, from the formats of the payloads ----

  /** A DNS message over UDP is recognised exactly on port 53, as a standard query or response with a question. */
  lemma DnsOverUdp(f: Frame, m: DnsMessage, padding: seq<byte>)
    requires m.Valid() && Encodable(f) && f.segment.UdpHeader? && f.payload == m.Bytes()
    ensures Dissected(Encoded(f) + padding).application ==
            if (f.segment.sport == 53 || f.segment.dport == 53) && m.opcode == 0 && m.questions > 0 then Dns else Unknown
  {
    hide Dissected, Encoded, Encodable, LooksDns, IsQuery, DnsMessage.Bytes;
    DissectInvertsEncoding(f, padding);
    DnsRead(m);
    DnsHint(m.Bytes());
  }

  /** A TLS record over TCP is recognised exactly as a client or server hello of a known version. */
  lemma TlsOverTcp(f: Frame, r: TlsRecord, padding: seq<byte>)
    requires Encodable(f) && f.segment.TcpHeader? && f.payload == r.Bytes()
    ensures Dissected(Encoded(f) + padding).application == Tls <==>
              r.kind == 22 && r.major == 3 && r.minor <= 4 && (r.message == 1 || r.message == 2)
  {
    hide Dissected, Encoded, Encodable, LooksTls, IsHello, TlsRecord.Bytes;
    DissectInvertsEncoding(f, padding);
    TlsRead(r);
    TlsHint(r.Bytes());
  }

  /** A stream that begins with a method and a space, or with the version, is HTTP, and so is no other. */
  lemma HttpOverTcp(f: Frame, padding: seq<byte>)
    requires Encodable(f) && f.segment.TcpHeader?
    ensures Dissected(Encoded(f) + padding).application == Http <==>
              exists i :: 0 <= i < 7 && Hints.Plain(HTTP_TEXTS[i]) && Ascii(HTTP_TEXTS[i]) <= f.payload
  {
    hide Dissected, Encoded, Encodable, IsHello, Ascii;
    DissectInvertsEncoding(f, padding);
    HintsExclusive(f.payload);
  }

  // ---- Truncation and padding ----

  /** Everything found in `p` is also found, with the same value, in `q`. */
  predicate Extends(p: Findings, q: Findings) {
    && (p.source != [] ==> q.source == p.source)
    && (p.destination != [] ==> q.destination == p.destination)
    && (p.sourcePort.Some? ==> q.sourcePort == p.sourcePort)
    && (p.destinationPort.Some? ==> q.destinationPort == p.destinationPort)
    && (p.protocol != Other ==> q.protocol == p.protocol)
    && (p.application != Unknown ==> q.application == p.application)
  }

  lemma {:induction false} TagsOfPrefix(b: seq<byte>, n: nat, offset: nat, kind: uint16, depth: nat)
    requires offset <= n <= |b|
    ensures SkipTags(b[..n], offset, kind, depth).Some? ==> SkipTags(b, offset, kind, depth) == SkipTags(b[..n], offset, kind, depth)
    decreases depth
  {
    if depth > 0 && IsTag(kind) && n >= offset + 4 {
      assert U16(b[..n], offset + 2) == U16(b, offset + 2);
      TagsOfPrefix(b, n, offset + 4, U16(b, offset + 2), depth - 1);
    }
  }

  lemma SegmentOfPrefix(found: Findings, protocol: byte, s: seq<byte>, n: nat, complete: bool, whole: bool)
    requires n <= |s| && found == NOTHING.(source := found.source, destination := found.destination)
    requires complete ==> n == |s| && whole
    ensures Extends(Segment(found, protocol, s[..n], complete), Segment(found, protocol, s, whole))
  {
    hide StreamHint, DatagramHint;
    if n == |s| { assert s[..n] == s; }
  }

  lemma PrefixSlices(d: seq<byte>, n: nat, lo: nat, hi: nat, m: nat)
    requires lo <= hi <= |d| && lo + m <= n <= |d| && lo + m <= hi
    ensures d[..n][lo..lo + m] == d[lo..hi][..m]
  {
    forall k | 0 <= k < m
      ensures d[..n][lo..lo + m][k] == d[lo..hi][..m][k]
    {
    }
  }

  /** What lies before the end of a prefix is the same whatever follows it. */
  lemma SameSlice(d: seq<byte>, n: nat, more: seq<byte>, lo: nat, hi: nat)
    requires lo <= hi <= n <= |d|
    ensures (d[..n] + more)[lo..hi] == d[lo..hi]
  {
  }

  lemma SameWord(d: seq<byte>, n: nat, more: seq<byte>, i: nat)
    requires i + 1 < n <= |d|
    ensures U16(d[..n] + more, i) == U16(d, i)
  {
    assert (d[..n] + more)[i] == d[i] && (d[..n] + more)[i + 1] == d[i + 1];
  }

  lemma DatagramOfPrefix(kind: uint16, d: seq<byte>, n: nat)
    requires n <= |d|
    ensures Extends(Datagram(kind, d[..n]), Datagram(kind, d))
  {
    hide Segment, U16;
    var c := d[..n];
    assert c + [] == c;
    if kind == IPV4 && Ipv4(c) != NOTHING {
      var header, total := 4 * (d[0] % 16), U16(d, 2);
      var found := NOTHING.(source := d[12..16], destination := d[16..20]);
      SameSlice(d, n, [], 12, 16);
      SameSlice(d, n, [], 16, 20);
      SameWord(d, n, [], 6);
      SameWord(d, n, [], 2);
      if U16(d, 6) % 0x4000 == 0 {
        var s := d[header..Min(|d|, total)];
        var m := Min(n, total) - header;
        PrefixSlices(d, n, header, Min(|d|, total), m);
        SegmentOfPrefix(found, d[9], s, m, n >= total, |d| >= total);
      }
    } else if kind == IPV6 && Ipv6(c) != NOTHING {
      var total := 40 + U16(d, 4);
      SameWord(d, n, [], 4);
      SameSlice(d, n, [], 8, 24);
      SameSlice(d, n, [], 24, 40);
      var s := d[40..Min(|d|, total)];
      var m := Min(n, total) - 40;
      PrefixSlices(d, n, 40, Min(|d|, total), m);
      SegmentOfPrefix(NOTHING.(source := d[8..24], destination := d[24..40]), d[6], s, m, n >= total, |d| >= total);
    }
  }

  /** Truncation is monotone: a shorter capture shows less, never something else. */
  lemma TruncationIsMonotone(b: seq<byte>, n: nat)
    requires n <= |b|
    ensures Extends(Dissected(b[..n]), Dissected(b))
  {
    hide Datagram, SkipTags;
    if n >= 14 {
      assert U16(b[..n], 12) == U16(b, 12);
      TagsOfPrefix(b, n, 14, U16(b, 12), 2);
      if Link(b[..n]).Some? {
        var e := Link(b).value;
        assert b[..n][e.offset..] == b[e.offset..][..n - e.offset];
        DatagramOfPrefix(e.kind, b[e.offset..], n - e.offset);
      }
    }
  }

  /** The length an IP packet declares, no less than its fixed header. */
  function Extent(kind: uint16, d: seq<byte>): nat
    requires |d| >= 40 || (kind == IPV4 && |d| >= 20)
  {
    if kind == IPV4 then (if U16(d, 2) < 20 then 20 else U16(d, 2)) else 40 + U16(d, 4)
  }

  lemma DatagramIgnoresPadding(kind: uint16, d: seq<byte>, padding: seq<byte>)
    requires kind == IPV4 || kind == IPV6
    requires |d| >= (if kind == IPV4 then 20 else 40) && |d| >= Extent(kind, d)
    ensures Datagram(kind, d[..Extent(kind, d)] + padding) == Datagram(kind, d)
  {
    hide Segment, U16;
    var n := Extent(kind, d);
    var c := d[..n] + padding;
    if kind == IPV4 {
      SameWord(d, n, padding, 2);
      SameWord(d, n, padding, 6);
      SameSlice(d, n, padding, 12, 16);
      SameSlice(d, n, padding, 16, 20);
      var header, total := 4 * (d[0] % 16), U16(d, 2);
      if header >= 20 && total >= header { SameSlice(d, n, padding, header, total); }
    } else {
      SameWord(d, n, padding, 4);
      SameSlice(d, n, padding, 8, 24);
      SameSlice(d, n, padding, 24, 40);
      SameSlice(d, n, padding, 40, n);
    }
  }

  lemma {:induction false} TagsIgnorePadding(b: seq<byte>, c: seq<byte>, offset: nat, kind: uint16, depth: nat)
    requires offset <= |b| && offset <= |c|
    requires SkipTags(b, offset, kind, depth).Some?
    requires SkipTags(b, offset, kind, depth).value.offset <= |c|
    requires b[..SkipTags(b, offset, kind, depth).value.offset] == c[..SkipTags(b, offset, kind, depth).value.offset]
    ensures SkipTags(c, offset, kind, depth) == SkipTags(b, offset, kind, depth)
    decreases depth
  {
    if depth > 0 && IsTag(kind) {
      var e := SkipTags(b, offset, kind, depth).value;
      TagsAdvance(b, offset + 4, U16(b, offset + 2), depth - 1);
      assert b[..e.offset][offset + 2] == b[offset + 2] && b[..e.offset][offset + 3] == b[offset + 3];
      assert c[..e.offset][offset + 2] == c[offset + 2] && c[..e.offset][offset + 3] == c[offset + 3];
      TagsIgnorePadding(b, c, offset + 4, U16(b, offset + 2), depth - 1);
    }
  }

  lemma {:induction false} TagsAdvance(b: seq<byte>, offset: nat, kind: uint16, depth: nat)
    requires offset <= |b|
    ensures SkipTags(b, offset, kind, depth).Some? ==> SkipTags(b, offset, kind, depth).value.offset >= offset
    decreases depth
  {
    if depth > 0 && IsTag(kind) && |b| >= offset + 4 {
      TagsAdvance(b, offset + 4, U16(b, offset + 2), depth - 1);
    }
  }

  /** Padding is invisible: any capture that holds the whole IP packet shows the same, whatever follows it. */
  lemma PaddingIsInvisible(b: seq<byte>, padding: seq<byte>)
    requires Link(b).Some? && Link(b).value.kind in {IPV4, IPV6}
    requires |b[Link(b).value.offset..]| >= (if Link(b).value.kind == IPV4 then 20 else 40)
    requires |b[Link(b).value.offset..]| >= Extent(Link(b).value.kind, b[Link(b).value.offset..])
    ensures var e := Link(b).value;
            Dissected(b[..e.offset + Extent(e.kind, b[e.offset..])] + padding) == Dissected(b)
  {
    hide Datagram;
    var e := Link(b).value;
    var d := b[e.offset..];
    var n := Extent(e.kind, d);
    var c := b[..e.offset + n] + padding;
    TagsAdvance(b, 14, U16(b, 12), 2);
    assert c[..e.offset] == b[..e.offset];
    assert U16(c, 12) == U16(b, 12);
    TagsIgnorePadding(b, c, 14, U16(b, 12), 2);
    assert c[e.offset..] == d[..n] + padding;
    DatagramIgnoresPadding(e.kind, d, padding);
  }

  // ---- Tags ----

  function WithTag(b: seq<byte>, tag: Tag): seq<byte>
    requires |b| >= 12
  {
    b[..12] + Word(tag.kind) + Word(tag.control) + b[12..]
  }

  predicate TwoTags(b: seq<byte>) {
    |b| >= 18 && U16(b, 12) in {0x8100, 0x88a8} && U16(b, 16) in {0x8100, 0x88a8}
  }

  /** A tag inserted behind the MAC addresses changes nothing that is found, unless the frame
      already carries two; then it hides the packet. */
  lemma TagIsTransparent(b: seq<byte>, tag: Tag)
    requires |b| >= 12 && tag.kind in {0x8100, 0x88a8}
    ensures Dissected(WithTag(b, tag)) == if TwoTags(b) then NOTHING else Dissected(b)
  {
    hide Datagram;
    var c := WithTag(b, tag);
    assert c[12..14] == Word(tag.kind);
    WordRead(c, 12, tag.kind);
    if |b| >= 14 {
      assert c[16..18] == b[12..14];
      assert U16(c, 16) == U16(b, 12);
      if |b| >= 18 {
        assert c[20..22] == b[16..18];
        assert U16(c, 20) == U16(b, 16);
      }
      if Link(c).Some? && Link(b).Some? && !TwoTags(b) {
        SuffixSame(b, tag, Link(b).value.offset);
      }
    }
    TagKindsAreNotIp();
  }

  lemma SuffixSame(b: seq<byte>, tag: Tag, offset: nat)
    requires 12 <= offset <= |b|
    ensures WithTag(b, tag)[offset + 4..] == b[offset..]
  {
  }

  lemma TagKindsAreNotIp()
    ensures forall kind: uint16, d | IsTag(kind) :: Datagram(kind, d) == NOTHING
  {
  }

  /** Three tags or more, and no address, port or protocol is found. */
  lemma ThreeTagsHide(b: seq<byte>)
    requires |b| >= 22 && U16(b, 12) in {0x8100, 0x88a8} && U16(b, 16) in {0x8100, 0x88a8} && U16(b, 20) in {0x8100, 0x88a8}
    ensures Dissected(b) == NOTHING
  {
    hide Datagram;
    TagKindsAreNotIp();
    assert Link(b) == Some(Ethernet(22, U16(b, 20)));
  }
}
