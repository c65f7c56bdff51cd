// The network plan and its validation.
module Config {
  import opened Wrappers
  import opened Bits
  import opened Address
  import Text

  type uint16 = x: int | 0 <= x < 0x1_0000

  datatype NetworkConfig = NetworkConfig(
    outerInterface: string,
    innerInterface: string,
    deviceIpv4: string,
    innerGatewayIpv4: string,
    innerPrefix: uint32,
    outerIpv4: string,
    outerPrefix: uint32,
    outerGatewayIpv4: string,
    outerMac: string,
    vlanId: Option<uint16>)

  datatype PlanError =
    | OuterInterfaceName | InnerInterfaceName | SameInterface
    | NotUnicast(text: string) | PrefixRange | DeviceIsGateway | OuterIsGateway | BadMac | BadVlan
    | UnusableHost | DeviceOffSubnet | GatewayOffSubnet | OverlappingSubnets

  predicate NameChar(c: char) {
    'a' <= c <= 'z' || 'A' <= c <= 'Z' || '0' <= c <= '9' || c == '_' || c == '-' || c == '.'
  }

  predicate InterfaceName(name: string) {
    1 <= |name| <= 15 && name != "." && name != ".." && forall c | c in name :: NameChar(c)
  }

  method ValidInterface(name: string) returns (ok: bool)
    ensures ok <==> InterfaceName(name)
    ensures ok <==> 1 <= |name| <= 15 && name != "." && name != ".." && forall c | c in name ::
      'a' <= c <= 'z' || 'A' <= c <= 'Z' || '0' <= c <= '9' || c == '_' || c == '-' || c == '.'
  {
    if name == "" || |name| > 15 || name == "." || name == ".." { return false; }
    for i := 0 to |name|
      invariant forall j | 0 <= j < i :: NameChar(name[j])
    {
      var c := name[i];
      if !(('a' <= c <= 'z') || ('A' <= c <= 'Z') || ('0' <= c <= '9') || c == '_' || c == '-' || c == '.') {
        assert c in name && !NameChar(c);
        return false;
      }
    }
    return true;
  }

  /** A host address outside "this network", loopback, multicast and reserved space. */
  predicate Unicast(s: string) {
    ParseIpv4(s).Some? && 0x100_0000 <= ParseIpv4(s).value < 0xE000_0000 &&
    !(0x7F00_0000 <= ParseIpv4(s).value < 0x8000_0000)
  }

  method UnicastIpv4(s: string) returns (ok: bool)
    ensures ok <==> Unicast(s)
  {
    var address := ParseIpv4(s);
    if address.None? { return false; }
    var first := address.value / 0x100_0000;
    return first != 0 && first != 127 && first < 224;
  }

  /** In dotted numbers: the first is neither 0 nor 127 and below 224, and the others are free. */
  lemma UnicastNumbers(w: nat, x: nat, y: nat, z: nat)
    requires w <= 255 && x <= 255 && y <= 255 && z <= 255
    ensures Unicast(Text.Join([Text.Decimal(w), Text.Decimal(x), Text.Decimal(y), Text.Decimal(z)], '.')) <==>
              1 <= w <= 223 && w != 127
  {
    hide Text.Join, Text.Decimal, ParseIpv4, FormatIpv4;
    NumbersAreAccepted(w, x, y, z);
    FirstNumber(w, x, y, z);
  }

  lemma FirstNumber(w: nat, x: nat, y: nat, z: nat)
    requires w <= 255 && x <= 255 && y <= 255 && z <= 255
    ensures var a := ((w * 256 + x) * 256 + y) * 256 + z;
            0x100_0000 <= a < 0xE000_0000 && !(0x7F00_0000 <= a < 0x8000_0000) <==> 1 <= w <= 223 && w != 127
  {
  }

  /** A MAC that is not all zero and whose group bit is clear. */
  predicate UnicastMacText(s: string) {
    MacText(s) && MacByte(s, 0) % 2 == 0 && exists i :: 0 <= i < 6 && MacByte(s, i) != 0
  }

  method UnicastMac(s: string) returns (ok: bool)
    ensures ok <==> UnicastMacText(s)
  {
    if |s| != 17 { return false; }
    var bytes: seq<int> := [];
    for i := 0 to 6
      invariant |bytes| == i
      invariant forall j | 0 <= j < i ::
        MacPlace(s, j) && bytes[j] == 16 * HexValue(s[3 * j]) + HexValue(s[3 * j + 1])
    {
      if !(HexDigit(s[3 * i]) && HexDigit(s[3 * i + 1])) || (i < 5 && s[3 * i + 2] != ':') {
        assert !MacPlace(s, i);
        return false;
      }
      bytes := bytes + [16 * HexValue(s[3 * i]) + HexValue(s[3 * i + 1])];
    }
    assert forall j | 0 <= j < 6 :: bytes[j] == MacByte(s, j);
    var nonzero := false;
    for i := 0 to 6
      invariant nonzero <==> exists j :: 0 <= j < i && bytes[j] != 0
    {
      nonzero := nonzero || bytes[i] != 0;
    }
    return nonzero && bytes[0] % 2 == 0;
  }

  // ---- What an accepted plan means ----

  ghost predicate WellFormed(c: NetworkConfig) {
    && InterfaceName(c.outerInterface) && InterfaceName(c.innerInterface)
    && c.outerInterface != c.innerInterface
    && Unicast(c.deviceIpv4) && Unicast(c.innerGatewayIpv4) && Unicast(c.outerIpv4) && Unicast(c.outerGatewayIpv4)
    && 1 <= c.innerPrefix <= 30 && 1 <= c.outerPrefix <= 30
    && UnicastMacText(c.outerMac)
    && (c.vlanId.Some? ==> 1 <= c.vlanId.value <= 4094)
  }

  function Device(c: NetworkConfig): uint32
    requires Unicast(c.deviceIpv4)
  { ParseIpv4(c.deviceIpv4).value }

  function InnerGateway(c: NetworkConfig): uint32
    requires Unicast(c.innerGatewayIpv4)
  { ParseIpv4(c.innerGatewayIpv4).value }

  function Outer(c: NetworkConfig): uint32
    requires Unicast(c.outerIpv4)
  { ParseIpv4(c.outerIpv4).value }

  function OuterGateway(c: NetworkConfig): uint32
    requires Unicast(c.outerGatewayIpv4)
  { ParseIpv4(c.outerGatewayIpv4).value }

  /** The plan as a statement about sets of addresses: two disjoint blocks, each
      holding two different hosts that are neither its first nor its last address. */
  ghost predicate SoundPlan(c: NetworkConfig) {
    && WellFormed(c)
    && Device(c) != InnerGateway(c) && Outer(c) != OuterGateway(c)
    && Device(c) in Block(InnerGateway(c), c.innerPrefix)
    && OuterGateway(c) in Block(Outer(c), c.outerPrefix)
    && Usable(InnerGateway(c), c.innerPrefix) && Usable(Device(c), c.innerPrefix)
    && Usable(Outer(c), c.outerPrefix) && Usable(OuterGateway(c), c.outerPrefix)
    && Block(InnerGateway(c), c.innerPrefix) * Block(Outer(c), c.outerPrefix) == {}
  }

  predicate HostUsable(address: uint32, mask: uint32) {
    And(address, Not(mask)) != 0 && And(address, Not(mask)) != Not(mask)
  }

  lemma HostUsableIsUsable(a: uint32, prefix: nat)
    requires 1 <= prefix <= 32
    ensures HostUsable(a, Mask(prefix)) <==> Usable(a, prefix)
  {
    MaskSplits(a, prefix);
    MaskValue(prefix);
    var q := NetworkMultiple(a, prefix);
  }

  lemma SameNetwork(a: uint32, x: uint32, prefix: nat)
    requires 1 <= prefix <= 32
    ensures And(a, Mask(prefix)) == And(x, Mask(prefix)) <==> x in Block(a, prefix)
  {
    MaskSplits(a, prefix);
    MaskSplits(x, prefix);
    InBlock(a, x, prefix);
  }

  /** Text inequality and address inequality agree on accepted texts. */
  lemma SameText(s: string, t: string)
    requires ParseIpv4(s).Some? && ParseIpv4(t).Some?
    ensures s == t <==> ParseIpv4(s) == ParseIpv4(t)
  {
    TextIsUnique(s);
    TextIsUnique(t);
  }

  /** Accepts exactly the sound plans, and otherwise says why not. */
  method Validate(c: NetworkConfig) returns (errors: seq<PlanError>)
    ensures errors == [] <==> SoundPlan(c)
  {
    errors := ValidateFields(c);
    if WellFormed(c) {
      SameText(c.deviceIpv4, c.innerGatewayIpv4);
      SameText(c.outerIpv4, c.outerGatewayIpv4);
    }
    if errors == [] {
      var innerMask, outerMask := Mask(c.innerPrefix), Mask(c.outerPrefix);
      var inner, device := ParseIpv4(c.innerGatewayIpv4).value, ParseIpv4(c.deviceIpv4).value;
      var outer, gateway := ParseIpv4(c.outerIpv4).value, ParseIpv4(c.outerGatewayIpv4).value;
      HostUsableIsUsable(inner, c.innerPrefix);
      HostUsableIsUsable(device, c.innerPrefix);
      HostUsableIsUsable(outer, c.outerPrefix);
      HostUsableIsUsable(gateway, c.outerPrefix);
      SameNetwork(inner, device, c.innerPrefix);
      SameNetwork(outer, gateway, c.outerPrefix);
      OverlapTest(inner, c.innerPrefix, outer, c.outerPrefix);
      if !HostUsable(inner, innerMask) || !HostUsable(device, innerMask) ||
         !HostUsable(outer, outerMask) || !HostUsable(gateway, outerMask) {
        errors := errors + [UnusableHost];
      }
      if And(inner, innerMask) != And(device, innerMask) {
        errors := errors + [DeviceOffSubnet];
      }
      if And(outer, outerMask) != And(gateway, outerMask) {
        errors := errors + [GatewayOffSubnet];
      }
      var commonMask := if c.innerPrefix < c.outerPrefix then innerMask else outerMask;
      if And(inner, commonMask) == And(outer, commonMask) {
        errors := errors + [OverlappingSubnets];
      }
    }
  }

  /** The checks that look at one field, or compare two texts. */
  method ValidateFields(c: NetworkConfig) returns (errors: seq<PlanError>)
    ensures errors == [] <==>
      && InterfaceName(c.outerInterface) && InterfaceName(c.innerInterface) && c.outerInterface != c.innerInterface
      && Unicast(c.deviceIpv4) && Unicast(c.innerGatewayIpv4) && Unicast(c.outerIpv4) && Unicast(c.outerGatewayIpv4)
      && c.deviceIpv4 != c.innerGatewayIpv4 && c.outerIpv4 != c.outerGatewayIpv4
      && 1 <= c.innerPrefix <= 30 && 1 <= c.outerPrefix <= 30 && UnicastMacText(c.outerMac)
      && (c.vlanId == None || 1 <= c.vlanId.value <= 4094)
  {
    errors := [];
    var ok := ValidInterface(c.outerInterface);
    if !ok { errors := errors + [OuterInterfaceName]; }
    ok := ValidInterface(c.innerInterface);
    if !ok { errors := errors + [InnerInterfaceName]; }
    if c.outerInterface == c.innerInterface { errors := errors + [SameInterface]; }
    var unicast := ValidateAddresses([c.deviceIpv4, c.innerGatewayIpv4, c.outerIpv4, c.outerGatewayIpv4]);
    errors := errors + unicast;
    if c.innerPrefix < 1 || c.innerPrefix > 30 || c.outerPrefix < 1 || c.outerPrefix > 30 {
      errors := errors + [PrefixRange];
    }
    if c.deviceIpv4 == c.innerGatewayIpv4 { errors := errors + [DeviceIsGateway]; }
    if c.outerIpv4 == c.outerGatewayIpv4 { errors := errors + [OuterIsGateway]; }
    ok := UnicastMac(c.outerMac);
    if !ok { errors := errors + [BadMac]; }
    if c.vlanId.Some? && (c.vlanId.value < 1 || c.vlanId.value > 4094) {
      errors := errors + [BadVlan];
    }
  }

  method ValidateAddresses(values: seq<string>) returns (errors: seq<PlanError>)
    requires |values| == 4
    ensures errors == [] <==> Unicast(values[0]) && Unicast(values[1]) && Unicast(values[2]) && Unicast(values[3])
  {
    errors := [];
    for i := 0 to 4
      invariant errors == [] <==> forall j | 0 <= j < i :: Unicast(values[j])
    {
      var ok := UnicastIpv4(values[i]);
      if !ok { errors := errors + [NotUnicast(values[i])]; }
    }
  }

  /** The four hosts of an accepted plan are pairwise distinct, and the subnet
      route installed for it reaches the outer gateway but neither inner host. */
  lemma AcceptedPlan(c: NetworkConfig)
    requires SoundPlan(c)
    ensures Distinct([Device(c), InnerGateway(c), Outer(c), OuterGateway(c)])
    ensures var subnet := Block(And(Outer(c), Mask(c.outerPrefix)), c.outerPrefix);
            OuterGateway(c) in subnet && Outer(c) in subnet && Device(c) !in subnet && InnerGateway(c) !in subnet
  {
    SubnetReach(Device(c), InnerGateway(c), c.innerPrefix, Outer(c), OuterGateway(c), c.outerPrefix);
  }

  lemma SubnetReach(device: uint32, inner: uint32, p: nat, outer: uint32, gateway: uint32, q: nat)
    requires 1 <= p <= 32 && 1 <= q <= 32
    requires device != inner && outer != gateway
    requires device in Block(inner, p) && gateway in Block(outer, q) && Block(inner, p) * Block(outer, q) == {}
    ensures Distinct([device, inner, outer, gateway])
    ensures var subnet := Block(And(outer, Mask(q)), q);
            gateway in subnet && outer in subnet && device !in subnet && inner !in subnet
  {
    MaskedBlock(outer, q);
    SelfInBlock(inner, p);
    SelfInBlock(outer, q);
    DisjointSets(Block(inner, p), Block(outer, q), device, inner);
  }

  lemma SelfInBlock(a: uint32, prefix: nat)
    requires prefix <= 32
    ensures a in Block(a, prefix)
  {
    var q := NetworkMultiple(a, prefix);
  }

  lemma DisjointSets(s: set<int>, t: set<int>, x: int, y: int)
    requires s * t == {} && x in s && y in s
    ensures x !in t && y !in t
  {
    assert x !in s * t && y !in s * t;
  }

  lemma MaskedBlock(a: uint32, prefix: nat)
    requires 1 <= prefix <= 32
    ensures Block(And(a, Mask(prefix)), prefix) == Block(a, prefix)
  {
    MaskSplits(a, prefix);
    var n := NetworkMultiple(a, prefix);
    ModuloUnique(Network(a, prefix), Size(prefix), n, 0);
  }
}
