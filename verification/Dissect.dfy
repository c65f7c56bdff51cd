// The packet dissector: what it finds in a captured frame, stated on slices of the
// frame, and the bounds-checked scan over offsets that computes it.
module Dissect {
  import opened Wrappers
  import opened Address

  type uint16 = x: int | 0 <= x < 0x1_0000

  datatype Protocol = Other | Tcp | Udp | Icmp

  datatype Application = Unknown | Http | Dns | Tls

  /** What a frame shows; an address not found is empty, otherwise its 4 or 16 bytes. */
  datatype Findings = Findings(
    source: seq<byte>, destination: seq<byte>,
    sourcePort: Option<uint16>, destinationPort: Option<uint16>,
    protocol: Protocol, application: Application)

  datatype PacketMetadata = PacketMetadata(timestamp: int, wireBytes: nat, found: Findings)

  const NOTHING: Findings := Findings([], [], None, None, Other, Unknown)

  const IPV4: uint16 := 0x0800
  const IPV6: uint16 := 0x86dd

  function U16(b: seq<byte>, i: nat): uint16
    requires i + 1 < |b|
  {
    var high: int, low: int := b[i], b[i + 1];
    256 * high + low
  }

  predicate IsTag(kind: uint16) {
    kind == 0x8100 || kind == 0x88a8
  }

  function Min(a: nat, b: nat): nat {
    if a < b then a else b
  }

  // ---- Layer by layer ----

  /** Where the network layer starts, and what it is. */
  datatype Ethernet = Ethernet(offset: nat, kind: uint16)

  /** At most two tags are skipped (clause 9 of IEEE 802.1Q). */
  function SkipTags(b: seq<byte>, offset: nat, kind: uint16, depth: nat): (r: Option<Ethernet>)
    requires offset <= |b|
    ensures r.Some? ==> r.value.offset <= |b|
    decreases depth
  {
    if depth == 0 || !IsTag(kind) then Some(Ethernet(offset, kind))
    else if |b| < offset + 4 then None
    else SkipTags(b, offset + 4, U16(b, offset + 2), depth - 1)
  }

  function Link(b: seq<byte>): (r: Option<Ethernet>)
    ensures r.Some? ==> r.value.offset <= |b|
  {
    if |b| < 14 then None else SkipTags(b, 14, U16(b, 12), 2)
  }

  /** The packet an Ethernet payload starts with (section 3.1 of RFC 791, section 3 of RFC 8200). */
  function Datagram(kind: uint16, d: seq<byte>): Findings {
    if kind == IPV4 then Ipv4(d) else if kind == IPV6 then Ipv6(d) else NOTHING
  }

  function Ipv4(d: seq<byte>): Findings {
    if |d| < 20 || d[0] / 16 != 4 then NOTHING
    else
      var header, total := 4 * (d[0] % 16), U16(d, 2);
      if header < 20 || total < header || |d| < header then NOTHING
      else
        var found := NOTHING.(source := d[12..16], destination := d[16..20]);
        // Neither the first nor a later fragment is dissected further.
        if U16(d, 6) % 0x4000 != 0 then found
        else Segment(found, d[9], d[header..Min(|d|, total)], |d| >= total)
  }

  function Ipv6(d: seq<byte>): Findings {
    if |d| < 40 || d[0] / 16 != 6 then NOTHING
    else
      var total := 40 + U16(d, 4);
      Segment(NOTHING.(source := d[8..24], destination := d[24..40]), d[6], d[40..Min(|d|, total)], |d| >= total)
  }

  /** The transport layer within what was captured of the IP payload (section 3.1 of RFC 9293, RFC 768). */
  function Segment(found: Findings, protocol: byte, s: seq<byte>, complete: bool): Findings {
    if protocol == 6 then
      var tcp := found.(protocol := Tcp);
      if |s| < 20 || s[12] / 16 < 5 || |s| < 4 * (s[12] / 16) then tcp
      else
        var ported := tcp.(sourcePort := Some(U16(s, 0)), destinationPort := Some(U16(s, 2)));
        if complete then ported.(application := StreamHint(s[4 * (s[12] / 16)..])) else ported
    else if protocol == 17 then
      var udp := found.(protocol := Udp);
      if |s| < 8 || U16(s, 4) < 8 then udp
      else
        var ported := udp.(sourcePort := Some(U16(s, 0)), destinationPort := Some(U16(s, 2)));
        if complete && U16(s, 4) <= |s| then
          ported.(application := DatagramHint(U16(s, 0), U16(s, 2), s[8..U16(s, 4)]))
        else ported
    else found.(protocol := if protocol == 1 || protocol == 58 then Icmp else Other)
  }

  /** The methods and the version that start an HTTP/1 message, as bytes. */
  const HTTP_STARTS: seq<seq<byte>> := [
    [71, 69, 84, 32], [80, 79, 83, 84, 32], [72, 69, 65, 68, 32], [80, 85, 84, 32],
    [68, 69, 76, 69, 84, 69, 32], [79, 80, 84, 73, 79, 78, 83, 32], [72, 84, 84, 80, 47, 49, 46]]

  predicate LooksHttp(content: seq<byte>) {
    exists i :: 0 <= i < |HTTP_STARTS| && HTTP_STARTS[i] <= content
  }

  /** A handshake record carrying a client or server hello (section 5.1 of RFC 8446). */
  predicate LooksTls(content: seq<byte>) {
    |content| >= 6 && content[0] == 22 && content[1] == 3 && content[2] <= 4 && (content[5] == 1 || content[5] == 2)
  }

  /** A standard query or its response with at least one question (section 4.1.1 of RFC 1035). */
  predicate LooksDns(content: seq<byte>) {
    |content| >= 12 && content[2] / 8 % 16 == 0 && U16(content, 4) > 0
  }

  function StreamHint(content: seq<byte>): Application {
    if LooksTls(content) then Tls else if LooksHttp(content) then Http else Unknown
  }

  function DatagramHint(source: uint16, destination: uint16, content: seq<byte>): Application {
    if (source == 53 || destination == 53) && LooksDns(content) then Dns else Unknown
  }

  function Dissected(b: seq<byte>): Findings {
    if Link(b).None? then NOTHING else Datagram(Link(b).value.kind, b[Link(b).value.offset..])
  }

  lemma Slices(b: seq<byte>, o: nat, i: nat, j: nat)
    requires i <= j && o + j <= |b|
    ensures b[o..][i..j] == b[o + i..o + j]
  {
  }

  lemma SliceOfSlice(b: seq<byte>, lo: nat, hi: nat, i: nat, j: nat)
    requires lo <= hi <= |b| && i <= j <= hi - lo
    ensures b[lo..hi][i..j] == b[lo + i..lo + j]
  {
    forall k | 0 <= k < j - i
      ensures b[lo..hi][i..j][k] == b[lo + i..lo + j][k]
    {
    }
  }

  lemma ByteOfSlice(b: seq<byte>, lo: nat, hi: nat, i: nat)
    requires lo + i < hi <= |b|
    ensures b[lo..hi][i] == b[lo + i]
  {
  }

  lemma WordOfSlice(b: seq<byte>, lo: nat, hi: nat, i: nat)
    requires lo + i + 1 < hi <= |b|
    ensures U16(b[lo..hi], i) == U16(b, lo + i)
  {
    ByteOfSlice(b, lo, hi, i);
    ByteOfSlice(b, lo, hi, i + 1);
  }

  // ---- The scan ----

  method Dissect(b: seq<byte>, size: nat, timestamp: int) returns (p: PacketMetadata)
    ensures p == PacketMetadata(timestamp, size, Dissected(b))
  {
    p := PacketMetadata(timestamp, size, NOTHING);
    if |b| < 14 { return; }
    var offset: nat := 14;
    var kind := U16(b, 12);
    var depth := 0;
    while IsTag(kind) && depth < 2
      invariant 0 <= depth <= 2 && offset <= |b|
      invariant Link(b) == SkipTags(b, offset, kind, 2 - depth)
    {
      if |b| < offset + 4 { return; }
      kind := U16(b, offset + 2);
      offset := offset + 4;
      depth := depth + 1;
    }
    p := DissectNetwork(b, offset, kind, p);
  }

  /** The network part of the scan. */
  method DissectNetwork(b: seq<byte>, start: nat, kind: uint16, given: PacketMetadata) returns (p: PacketMetadata)
    requires start <= |b| && given.found == NOTHING
    ensures p == given.(found := Datagram(kind, b[start..]))
  {
    hide Segment;
    p := given;
    var offset, protocol: byte, end, complete := start, 0, |b|, true;
    ghost var d := b[start..];
    if kind == IPV4 {
      if |b| < offset + 20 || b[offset] / 16 != 4 { return; }
      var header, total := 4 * (b[offset] % 16), U16(b, offset + 2);
      if header < 20 || total < header || |b| < offset + header { return; }
      end := Min(|b|, offset + total);
      complete := |b| >= offset + total;
      Slices(b, offset, 12, 16);
      Slices(b, offset, 16, 20);
      p := p.(found := p.found.(source := b[offset + 12..offset + 16], destination := b[offset + 16..offset + 20]));
      protocol := b[offset + 9];
      if U16(b, offset + 6) % 0x4000 != 0 { return; }
      Slices(b, offset, header, Min(|d|, total));
      offset := offset + header;
    } else if kind == IPV6 {
      if |b| < offset + 40 || b[offset] / 16 != 6 { return; }
      var total := 40 + U16(b, offset + 4);
      end := Min(|b|, offset + total);
      complete := |b| >= offset + total;
      Slices(b, offset, 8, 24);
      Slices(b, offset, 24, 40);
      p := p.(found := p.found.(source := b[offset + 8..offset + 24], destination := b[offset + 24..offset + 40]));
      protocol := b[offset + 6];
      Slices(b, offset, 40, Min(|d|, total));
      offset := offset + 40;
    } else {
      return;
    }
    p := DissectSegment(b, offset, end, protocol, complete, p);
  }

  /** The transport part of the scan: reads stay within `offset..end`. */
  method DissectSegment(b: seq<byte>, offset: nat, limit: nat, protocol: byte, whole: bool, given: PacketMetadata)
    returns (p: PacketMetadata)
    requires offset <= limit <= |b| && given.found.protocol == Other && given.found.application == Unknown
    requires given.found.sourcePort.None? && given.found.destinationPort.None?
    ensures p == given.(found := Segment(given.found, protocol, b[offset..limit], whole))
  {
    hide StreamHint, LooksHttp, U16;
    p := given;
    ghost var s := b[offset..limit];
    var end, complete, payload := limit, whole, limit;
    if protocol == 6 {
      p := p.(found := p.found.(protocol := Tcp));
      if end < offset + 20 { return; }
      ByteOfSlice(b, offset, limit, 12);
      var header := 4 * (b[offset + 12] / 16);
      if header < 20 || end < offset + header { return; }
      payload := offset + header;
      SliceOfSlice(b, offset, limit, header, limit - offset);
    } else if protocol == 17 {
      p := p.(found := p.found.(protocol := Udp));
      if offset + 8 <= end { WordOfSlice(b, offset, limit, 4); }
      if end < offset + 8 || U16(b, offset + 4) < 8 { return; }
      complete := complete && offset + U16(b, offset + 4) <= end;
      end := Min(end, offset + U16(b, offset + 4));
      payload := offset + 8;
      if complete { SliceOfSlice(b, offset, limit, 8, U16(b, offset + 4)); }
    } else {
      if protocol == 1 || protocol == 58 { p := p.(found := p.found.(protocol := Icmp)); }
      return;
    }
    WordOfSlice(b, offset, limit, 0);
    WordOfSlice(b, offset, limit, 2);
    var source, destination := U16(b, offset), U16(b, offset + 2);
    p := p.(found := p.found.(sourcePort := Some(source), destinationPort := Some(destination)));
    if !complete { return; }
    var content := b[payload..end];
    var application: Application;
    if p.found.protocol == Tcp {
      application := DissectStream(content);
    } else {
      application := if (source == 53 || destination == 53) && |content| >= 12 &&
                        content[2] / 8 % 16 == 0 && U16(content, 4) > 0 then Dns else Unknown;
    }
    p := p.(found := p.found.(application := application));
  }

  method DissectStream(content: seq<byte>) returns (application: Application)
    ensures application == StreamHint(content)
  {
    application := Unknown;
    for i := 0 to |HTTP_STARTS|
      invariant application == if exists j :: 0 <= j < i && HTTP_STARTS[j] <= content then Http else Unknown
    {
      if HTTP_STARTS[i] <= content { application := Http; }
    }
    if |content| >= 6 && content[0] == 22 && content[1] == 3 && content[2] <= 4 &&
       (content[5] == 1 || content[5] == 2) {
      application := Tls;
    }
  }
}
