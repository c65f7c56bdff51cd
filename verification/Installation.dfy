// What a configuration comes to on the host, in the configuration's own texts: the
// addresses, the names and numbers it reserves, and the traffic it carries.
module Installation {
  import opened Wrappers
  import opened Bits
  import opened Address
  import opened Config
  import opened Kernel
  import opened Transaction
  import opened Machine
  import opened Egress

  /** A number below sixteen is written as this hexadecimal digit, in either case. */
  predicate IsHex(n: nat, c: char) {
    if n < 10 then c as int == '0' as int + n
    else n < 16 && (c as int == 'a' as int + n - 10 || c as int == 'A' as int + n - 10)
  }

  /** Six bytes written as two digits each, the high one first. */
  predicate IsMac(mac: seq<byte>, text: string) {
    |mac| == 6 && |text| == 17 &&
    forall i | 0 <= i < 6 :: IsHex(mac[i] / 16, text[3 * i]) && IsHex(mac[i] % 16, text[3 * i + 1])
  }

  /** Where the outer address is: on the tagged link or on the port itself. */
  function OuterName(c: NetworkConfig): string {
    if c.vlanId.Some? then "mbx-outer" else c.outerInterface
  }

  /** Both ports are up without IPv6 and reverse-path filter. The inner one has exactly the inner gateway's
      address; the outer one has its MAC and, unless the plan is tagged, exactly the outer address. */
  ghost predicate PortsInForce(k: Kernel, c: NetworkConfig, b: Kernel)
    requires SoundPlan(c)
  {
    var outer, inner := c.outerInterface, c.innerInterface;
    && outer in k.links && inner in k.links && outer in b.links && inner in b.links
    && k.links[inner].up && k.links[inner].disableIpv6 == "1" && k.links[inner].rpFilter == "0"
    && k.links[inner].addresses == {Assigned(ParseIpv4(c.innerGatewayIpv4).value, c.innerPrefix)}
    && k.links[inner].mac == b.links[inner].mac && k.links[inner].kind == b.links[inner].kind
    && k.links[outer].up && k.links[outer].disableIpv6 == "1" && k.links[outer].rpFilter == "0"
    && IsMac(k.links[outer].mac, c.outerMac) && k.links[outer].kind == b.links[outer].kind
    && k.links[outer].addresses ==
         (if c.vlanId.Some? then {} else {Assigned(ParseIpv4(c.outerIpv4).value, c.outerPrefix)})
  }

  /** Nothing else among the links but, for a tagged plan, the tagged link with the outer address. */
  ghost predicate LinksInForce(k: Kernel, c: NetworkConfig, b: Kernel)
    requires SoundPlan(c)
  {
    && (forall n | n in b.links && n != c.outerInterface && n != c.innerInterface :: n in k.links && k.links[n] == b.links[n])
    && (forall n | n in k.links :: n in b.links || (c.vlanId.Some? && n == "mbx-outer"))
    && (c.vlanId.Some? ==>
          && "mbx-outer" in k.links && k.links["mbx-outer"].kind == Vlan(c.outerInterface, c.vlanId.value)
          && k.links["mbx-outer"].up && k.links["mbx-outer"].disableIpv6 == "1" && k.links["mbx-outer"].rpFilter == "0"
          && IsMac(k.links["mbx-outer"].mac, c.outerMac)
          && k.links["mbx-outer"].addresses == {Assigned(ParseIpv4(c.outerIpv4).value, c.outerPrefix)})
  }

  /** What comes in by the inner port from the device is routed by table 4242, which knows the outer
      subnet and the outer gateway and nothing else new. */
  ghost predicate RoutesInForce(k: Kernel, c: NetworkConfig, b: Kernel)
    requires SoundPlan(c)
  {
    && k.rules == b.rules + {Rule(10424, 4242, ParseIpv4(c.deviceIpv4).value, c.innerInterface)}
    && exists start: uint32 ::
         && start == ParseIpv4(c.outerIpv4).value - ParseIpv4(c.outerIpv4).value % Pow2(32 - c.outerPrefix)
         && Block(start, c.outerPrefix) == Block(ParseIpv4(c.outerIpv4).value, c.outerPrefix)
         && k.routes == b.routes + {
              Route(4242, start, c.outerPrefix, None, OuterName(c)),
              Route(4242, 0, 0, Some(ParseIpv4(c.outerGatewayIpv4).value), OuterName(c))}
  }

  /** Packets as the loaded rules treat them: the device's leave under the outer address, those for the
      outer address reach the device, and nothing else passes through either link. */
  ghost predicate CarriesTraffic(k: Kernel, c: NetworkConfig)
    requires SoundPlan(c)
  {
    var device, outer := ParseIpv4(c.deviceIpv4).value, ParseIpv4(c.outerIpv4).value;
    && k.inet.Some? && k.translation.Some?
    && (forall dst: uint32 ::
          Forwarded(k, c.innerInterface, OuterName(c), Packet(true, device, dst)) == Some(Packet(true, outer, dst)))
    && (forall src: uint32 ::
          Forwarded(k, OuterName(c), c.innerInterface, Packet(true, src, outer)) == Some(Packet(true, src, device)))
    && (forall iif, oif, p |
          (iif == c.innerInterface || iif == OuterName(c) || oif == c.innerInterface || oif == OuterName(c)) &&
          Forwarded(k, iif, oif, p).Some? ::
          || (iif == c.innerInterface && oif == OuterName(c) && p.ipv4 && p.src == device)
          || (iif == OuterName(c) && oif == c.innerInterface && p.ipv4 && (p.dst == outer || p.dst == device)))
  }

  /** Connections are those of before, but for the ones that carry the appliance's mark. */
  ghost predicate SameConnections(k: Kernel, b: Kernel) {
    && (forall i | i in b.connections && b.connections[i] != 0x4d425800 :: i in k.connections && k.connections[i] == b.connections[i])
    && (forall i | i in k.connections && k.connections[i] != 0x4d425800 :: i in b.connections && b.connections[i] == k.connections[i])
  }

  /** The configuration is in force, and nothing but what it takes has changed. */
  ghost predicate InForce(k: Kernel, c: NetworkConfig, b: Kernel) {
    && SoundPlan(c)
    && PortsInForce(k, c, b) && LinksInForce(k, c, b) && RoutesInForce(k, c, b) && CarriesTraffic(k, c)
    && k.ipForward == "1" && k.rpFilterAll == "0"
    && SameConnections(k, b) && k.defaults == b.defaults && k.rest == b.rest
  }

  /** Exactly the host from before, without the connections that carry the appliance's mark. */
  ghost predicate AsBefore(k: Kernel, b: Kernel) {
    && k.links == b.links && k.routes == b.routes && k.rules == b.rules
    && k.inet == b.inet && k.translation == b.translation
    && k.ipForward == b.ipForward && k.rpFilterAll == b.rpFilterAll
    && k.defaults == b.defaults && k.rest == b.rest && SameConnections(k, b)
  }

  predicate Spare(name: string, b: Kernel) {
    name != "lo" && name in b.links && b.links[name].addresses == {} && !b.links[name].enslaved
  }

  /** What `apply` requires of the host: two unused ports, and nobody on the reserved names and numbers. */
  ghost predicate Unoccupied(c: NetworkConfig, b: Kernel) {
    && Spare(c.outerInterface, b) && Spare(c.innerInterface, b)
    && "mbx-outer" !in b.links && b.inet.None? && b.translation.None?
    && (forall r | r in b.routes :: r.table != 4242)
    && (forall r | r in b.rules :: r.priority != 10424)
    && (c.vlanId.Some? ==> forall n | n in b.links :: b.links[n].kind != Vlan(c.outerInterface, c.vlanId.value))
  }

  lemma UnoccupiedIsEligible(c: NetworkConfig, b: Kernel)
    requires SoundPlan(c) && forall r | r in b.routes :: r.dev in b.links
    ensures Unoccupied(c, b) <==> Eligible(b, PlanOf(c)) && Installable(b, PlanOf(c))
  {
    Sound(c);
    hide SoundPlan, WellFormed, Coherent, PlanOf;
    FreeWhenUnoccupied(c, PlanOf(c), b);
  }

  lemma FreeWhenUnoccupied(c: NetworkConfig, p: Plan, b: Kernel)
    requires Coherent(p) && p.outer == c.outerInterface && p.inner == c.innerInterface && p.vlan == c.vlanId
    requires forall r | r in b.routes :: r.dev in b.links
    ensures Unoccupied(c, b) <==> Eligible(b, p) && Installable(b, p)
  {
    hide Coherent;
  }

  lemma EligiblePorts(b: Kernel, p: Plan)
    requires Eligible(b, p)
    ensures p.outer in b.links && p.inner in b.links
  {
  }

  lemma StripKeeps(k: Kernel, b: Kernel)
    requires Strip(k) == Strip(b)
    ensures AsBefore(k, b)
  {
    assert Unmarked(k.connections) == Unmarked(b.connections);
    assert forall i | i in b.connections && b.connections[i] != 0x4d425800 :: i in Unmarked(b.connections);
    assert forall i | i in k.connections && k.connections[i] != 0x4d425800 :: i in Unmarked(k.connections);
    assert Strip(k).links == Strip(b).links && Strip(k).rest == Strip(b).rest;
  }

  lemma MacIsParsed(text: string)
    requires MacText(text)
    ensures IsMac(ParseMac(text), text)
  {
    forall i | 0 <= i < 6
      ensures IsHex(ParseMac(text)[i] / 16, text[3 * i]) && IsHex(ParseMac(text)[i] % 16, text[3 * i + 1])
    {
      assert MacPlace(text, i);
      assert ParseMac(text)[i] == 16 * HexValue(text[3 * i]) + HexValue(text[3 * i + 1]);
      HexParsed(HexValue(text[3 * i]), HexValue(text[3 * i + 1]));
    }
  }

  lemma HexParsed(high: nat, low: nat)
    requires high < 16 && low < 16
    ensures (16 * high + low) / 16 == high && (16 * high + low) % 16 == low
  {
  }

  lemma LinksAreInForce(k: Kernel, c: NetworkConfig, b: Kernel)
    requires SoundPlan(c) && Eligible(b, PlanOf(c)) && k.links == Installed(b, PlanOf(c)).links
    ensures PortsInForce(k, c, b) && LinksInForce(k, c, b)
  {
    hide SoundPlan, IsMac, ParseIpv4;
    assert WellFormed(c) by { Sound(c); }
    MacIsParsed(c.outerMac);
  }

  lemma Sound(c: NetworkConfig)
    requires SoundPlan(c)
    ensures WellFormed(c) && Coherent(PlanOf(c))
    ensures PlanOf(c).outer == c.outerInterface && PlanOf(c).inner == c.innerInterface && PlanOf(c).vlan == c.vlanId
  {
    DecodeEncoded(c);
  }

  lemma RoutesAreInForce(k: Kernel, c: NetworkConfig, b: Kernel)
    requires SoundPlan(c) && Eligible(b, PlanOf(c))
    requires k.routes == Installed(b, PlanOf(c)).routes && k.rules == Installed(b, PlanOf(c)).rules
    ensures RoutesInForce(k, c, b)
  {
    MaskSplits(Outer(c), c.outerPrefix);
    MaskedBlock(Outer(c), c.outerPrefix);
    hide SoundPlan, ParseIpv4, Block, And;
    assert WellFormed(c) by { Sound(c); }
    var start := And(Outer(c), Mask(c.outerPrefix));
    assert Block(start, c.outerPrefix) == Block(Outer(c), c.outerPrefix);
  }

  lemma TrafficIsCarried(k: Kernel, c: NetworkConfig)
    requires SoundPlan(c) && k.inet == Some(FullRules(PlanOf(c))) && k.translation == Some(NatRules(PlanOf(c)))
    requires PlanOf(c).inner != OuterLink(PlanOf(c))
    ensures CarriesTraffic(k, c)
  {
    hide SoundPlan, ParseIpv4, Forwarded, FullRules, NatRules;
    assert WellFormed(c) by { Sound(c); }
    var p := PlanOf(c);
    forall iif, oif, packet | iif in {p.inner, OuterLink(p)} || oif in {p.inner, OuterLink(p)}
      ensures Forwarded(k, iif, oif, packet) ==
              if iif == p.inner && oif == OuterLink(p) && packet.ipv4 && packet.src == p.device then
                Some(packet.(src := p.outerAddress.ip))
              else if iif == OuterLink(p) && oif == p.inner && packet.ipv4 && packet.dst in {p.outerAddress.ip, p.device} then
                Some(packet.(dst := p.device))
              else None
    {
      FullForwarding(k, p, iif, oif, packet);
    }
  }

  /** The complete result of installing a sound plan is that plan in force. */
  lemma InstalledIsInForce(k: Kernel, c: NetworkConfig, b: Kernel)
    requires SoundPlan(c) && Eligible(b, PlanOf(c)) && Strip(k) == Strip(Installed(b, PlanOf(c)))
    ensures InForce(k, c, b)
  {
    Sound(c);
    hide SoundPlan, Eligible, PortsInForce, LinksInForce, RoutesInForce, CarriesTraffic, SameConnections, PlanOf, WellFormed;
    EligiblePorts(b, PlanOf(c));
    var done := Installed(b, PlanOf(c));
    StripKeeps(k, done);
    assert SameConnections(k, b) by { StripKeeps(k, done); ConnectionsKept(k, done, b); }
    LinksAreInForce(k, c, b);
    RoutesAreInForce(k, c, b);
    LinksApart(c, b);
    TrafficIsCarried(k, c);
  }

  lemma ConnectionsKept(k: Kernel, done: Kernel, b: Kernel)
    requires SameConnections(k, done) && done.connections == b.connections
    ensures SameConnections(k, b)
  {
  }

  lemma LinksApart(c: NetworkConfig, b: Kernel)
    requires SoundPlan(c) && Eligible(b, PlanOf(c))
    ensures PlanOf(c).inner != OuterLink(PlanOf(c))
  {
    hide SoundPlan;
  }
}
