// The key a packet's flow is aggregated and stored under.
module FlowKey {
  import opened Wrappers
  import opened Dissect
  import opened Engine
  import Text

  function ProtocolName(p: Protocol): string {
    match p
    case Other => "other"
    case Tcp => "tcp"
    case Udp => "udp"
    case Icmp => "icmp"
  }

  function PortText(port: Option<nat>): string {
    if port.None? then "" else Text.Decimal(port.value)
  }

  function Parts(iface: string, p: Packet): seq<string> {
    [iface, p.source, p.destination, ProtocolName(p.protocol), PortText(p.sourcePort), PortText(p.destinationPort)]
  }

  function Key(iface: string, p: Packet): string {
    Text.Join(Parts(iface, p), '|')
  }

  /** The key in full: six texts with bars between them, a port that was not found being empty. */
  lemma KeyText(iface: string, p: Packet)
    ensures Key(iface, p) ==
            iface + "|" + p.source + "|" + p.destination + "|" +
            (match p.protocol case Tcp => "tcp" case Udp => "udp" case Icmp => "icmp" case Other => "other") + "|" +
            (if p.sourcePort.Some? then Text.Decimal(p.sourcePort.value) else "") + "|" +
            (if p.destinationPort.Some? then Text.Decimal(p.destinationPort.value) else "")
  {
    hide Text.Decimal;
    var parts := Parts(iface, p);
    JoinLast(parts, 5);
    JoinLast(parts, 4);
    JoinLast(parts, 3);
    JoinLast(parts, 2);
    JoinLast(parts, 1);
    Flatten(parts[0], parts[1], parts[2], parts[3], parts[4], parts[5]);
  }

  /** One step of joining, from the right. */
  lemma JoinLast(parts: seq<string>, i: nat)
    requires 1 <= i < |parts|
    ensures Text.Join(parts[i - 1..], '|') == parts[i - 1] + ['|'] + Text.Join(parts[i..], '|')
  {
    assert parts[i - 1..][1..] == parts[i..];
  }

  lemma Flatten(a: string, b: string, c: string, d: string, e: string, f: string)
    ensures a + ['|'] + (b + ['|'] + (c + ['|'] + (d + ['|'] + (e + ['|'] + f)))) ==
            a + "|" + b + "|" + c + "|" + d + "|" + e + "|" + f
  {
  }

  /** Interface names and printed addresses never contain the separator. */
  predicate Plain(s: string) {
    '|' !in s
  }

  lemma PlainParts(iface: string, p: Packet)
    requires Plain(iface) && Plain(p.source) && Plain(p.destination)
    ensures forall part | part in Parts(iface, p) :: '|' !in part
  {
    assert Plain("other") && Plain("tcp") && Plain("udp") && Plain("icmp");
    assert !Text.Digit('|');
  }

  lemma PortTextInjective(a: Option<nat>, b: Option<nat>)
    requires PortText(a) == PortText(b)
    ensures a == b
  {
    if a.Some? { Text.ValueOfDecimal(a.value); }
    if b.Some? { Text.ValueOfDecimal(b.value); }
  }

  lemma ProtocolNameInjective(a: Protocol, b: Protocol)
    requires ProtocolName(a) == ProtocolName(b)
    ensures a == b
  {
    assert "other"[0] == 'o' && "tcp"[0] == 't' && "udp"[0] == 'u' && "icmp"[0] == 'i';
  }

  /** The joined key tells any two flows apart: it is injective on its six fields. */
  lemma KeyInjective(i: string, p: Packet, j: string, q: Packet)
    requires Plain(i) && Plain(p.source) && Plain(p.destination)
    requires Plain(j) && Plain(q.source) && Plain(q.destination)
    requires Key(i, p) == Key(j, q)
    ensures i == j && p.source == q.source && p.destination == q.destination && p.protocol == q.protocol
    ensures p.sourcePort == q.sourcePort && p.destinationPort == q.destinationPort
  {
    PlainParts(i, p);
    PlainParts(j, q);
    Text.SplitJoin(Parts(i, p), '|');
    Text.SplitJoin(Parts(j, q), '|');
    var a, b := Parts(i, p), Parts(j, q);
    assert a == b;
    assert a[0] == b[0] && a[1] == b[1] && a[2] == b[2] && a[3] == b[3] && a[4] == b[4] && a[5] == b[5];
    ProtocolNameInjective(p.protocol, q.protocol);
    PortTextInjective(p.sourcePort, q.sourcePort);
    PortTextInjective(p.destinationPort, q.destinationPort);
  }
}
