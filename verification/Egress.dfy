// What the loaded rules do to a forwarded packet: destination translation before
// routing, the forward chain, then source translation.
module Egress {
  import opened Wrappers
  import opened Bits
  import opened Address
  import opened Kernel
  import opened Transaction
  import opened Machine

  /** A packet about to be forwarded; the rules read its addresses only if it is IPv4. */
  datatype Packet = Packet(ipv4: bool, src: uint32, dst: uint32)

  function Prerouting(tables: seq<NatTable>, iif: string, p: Packet): Packet {
    if tables == [] then p
    else if p.ipv4 && iif == tables[0].oif && p.dst == tables[0].outer then p.(dst := tables[0].device)
    else Prerouting(tables[1..], iif, p)
  }

  function Postrouting(tables: seq<NatTable>, oif: string, p: Packet): Packet {
    if tables == [] then p
    else if p.ipv4 && oif == tables[0].oif && p.src == tables[0].device then p.(src := tables[0].outer)
    else Postrouting(tables[1..], oif, p)
  }

  /** The first rule that matches decides; the chain's policy accepts. */
  predicate Accepted(rules: seq<ForwardRule>, iif: string, oif: string, p: Packet) {
    if rules == [] then true
    else match rules[0]
      case AcceptFrom(i, o, a) => (i == iif && o == oif && p.ipv4 && p.src == a) || Accepted(rules[1..], iif, oif, p)
      case AcceptTo(i, o, a) => (i == iif && o == oif && p.ipv4 && p.dst == a) || Accepted(rules[1..], iif, oif, p)
      case DropIn(names) => iif !in names && Accepted(rules[1..], iif, oif, p)
      case DropOut(names) => oif !in names && Accepted(rules[1..], iif, oif, p)
  }

  /** A packet in at `iif` that routing sends out at `oif`, as it leaves the host. */
  function Forwarded(k: Kernel, iif: string, oif: string, p: Packet): Option<Packet> {
    var tables := if k.translation.Some? then k.translation.value else [];
    var rules := if k.inet.Some? then k.inet.value else [];
    var routed := Prerouting(tables, iif, p);
    if Accepted(rules, iif, oif, routed) then Some(Postrouting(tables, oif, routed)) else None
  }

  /** Whatever leaves the outer link, whichever way it was routed, carries the outer address. */
  ghost predicate Translated(k: Kernel, p: Plan) {
    forall iif, packet :: Forwarded(k, iif, OuterLink(p), packet).Some? ==>
      Forwarded(k, iif, OuterLink(p), packet).value.src == p.outerAddress.ip
  }

  lemma GuardVerdict(p: Plan, iif: string, oif: string, packet: Packet)
    ensures Accepted(GuardRules(p), iif, oif, packet) <==>
              iif !in {p.inner, OuterLink(p)} && oif !in {p.inner, OuterLink(p)}
  {
    var rules := GuardRules(p);
    assert rules[1..] == [DropOut({p.inner, OuterLink(p)})];
    assert rules[1..][1..] == [];
    assert Accepted(rules[1..], iif, oif, packet) <==> oif !in {p.inner, OuterLink(p)};
  }

  lemma FullVerdict(p: Plan, iif: string, oif: string, packet: Packet)
    ensures Accepted(FullRules(p), iif, oif, packet) <==>
              || (iif == p.inner && oif == OuterLink(p) && packet.ipv4 && packet.src == p.device)
              || (iif == OuterLink(p) && oif == p.inner && packet.ipv4 && packet.dst == p.device)
              || (iif !in {p.inner, OuterLink(p)} && oif !in {p.inner, OuterLink(p)})
  {
    var rules := FullRules(p);
    assert rules[1..][1..] == GuardRules(p);
    GuardVerdict(p, iif, oif, packet);
  }

  lemma OneTable(p: Plan, link: string, packet: Packet)
    ensures Prerouting(NatRules(p), link, packet) ==
            if packet.ipv4 && link == OuterLink(p) && packet.dst == p.outerAddress.ip then packet.(dst := p.device) else packet
    ensures Postrouting(NatRules(p), link, packet) ==
            if packet.ipv4 && link == OuterLink(p) && packet.src == p.device then packet.(src := p.outerAddress.ip) else packet
  {
    assert NatRules(p)[1..] == [];
  }

  /** With the guard loaded nothing is forwarded through either link, in or out. */
  lemma GuardBlocks(k: Kernel, p: Plan, iif: string, oif: string, packet: Packet)
    requires k.inet == Some(GuardRules(p))
    requires iif in {p.inner, OuterLink(p)} || oif in {p.inner, OuterLink(p)}
    ensures Forwarded(k, iif, oif, packet).None?
  {
    var tables := if k.translation.Some? then k.translation.value else [];
    GuardVerdict(p, iif, oif, Prerouting(tables, iif, packet));
  }

  /** With everything loaded, forwarding through the two links is exactly the device's traffic to
      the outside under the outer address, and the outside's traffic to the device. */
  lemma FullForwarding(k: Kernel, p: Plan, iif: string, oif: string, packet: Packet)
    requires k.inet == Some(FullRules(p)) && k.translation == Some(NatRules(p)) && p.inner != OuterLink(p)
    requires iif in {p.inner, OuterLink(p)} || oif in {p.inner, OuterLink(p)}
    ensures Forwarded(k, iif, oif, packet) ==
            if iif == p.inner && oif == OuterLink(p) && packet.ipv4 && packet.src == p.device then
              Some(packet.(src := p.outerAddress.ip))
            else if iif == OuterLink(p) && oif == p.inner && packet.ipv4 && packet.dst in {p.outerAddress.ip, p.device} then
              Some(packet.(dst := p.device))
            else None
  {
    var routed := Prerouting(NatRules(p), iif, packet);
    OneTable(p, iif, packet);
    FullVerdict(p, iif, oif, routed);
    OneTable(p, oif, routed);
  }

  /** While a table is loaded, egress is translated exactly when the complete rules do not stand
      without their translation. */
  lemma EgressTranslated(k: Kernel, p: Plan)
    requires OwnTables(k, p) && k.inet.Some? && p.inner != OuterLink(p) && p.device != p.outerAddress.ip
    ensures Translated(k, p) <==> !Leaky(k, p)
  {
    if k.inet == Some(GuardRules(p)) {
      forall iif, packet
        ensures Forwarded(k, iif, OuterLink(p), packet).None?
      {
        GuardBlocks(k, p, iif, OuterLink(p), packet);
      }
      assert |GuardRules(p)| != |FullRules(p)|;
    } else if k.translation.Some? {
      forall iif, packet | Forwarded(k, iif, OuterLink(p), packet).Some?
        ensures Forwarded(k, iif, OuterLink(p), packet).value.src == p.outerAddress.ip
      {
        FullForwarding(k, p, iif, OuterLink(p), packet);
      }
    } else {
      var packet := Packet(true, p.device, p.gateway);
      FullVerdict(p, p.inner, OuterLink(p), packet);
      assert Forwarded(k, p.inner, OuterLink(p), packet) == Some(packet);
    }
  }

  /** Whatever is forwarded to the inner link comes in by the outer one, for the device. */
  ghost predicate InboundToDevice(k: Kernel, p: Plan) {
    forall iif, packet :: Forwarded(k, iif, p.inner, packet).Some? ==>
      iif == OuterLink(p) && Forwarded(k, iif, p.inner, packet).value.dst == p.device
  }

  /** Inbound forwarding reaches only the device while a table is loaded, translated or not. */
  lemma InboundReachesDevice(k: Kernel, p: Plan)
    requires OwnTables(k, p) && k.inet.Some? && p.inner != OuterLink(p)
    ensures InboundToDevice(k, p)
  {
    forall iif, packet | Forwarded(k, iif, p.inner, packet).Some?
      ensures iif == OuterLink(p) && Forwarded(k, iif, p.inner, packet).value.dst == p.device
    {
      if k.inet == Some(GuardRules(p)) {
        GuardBlocks(k, p, iif, p.inner, packet);
      } else if k.translation.Some? {
        FullForwarding(k, p, iif, p.inner, packet);
      } else {
        FullVerdict(p, iif, p.inner, packet);
      }
    }
  }

  /** In every durable state with a table loaded, inbound packets reach only the device, and unless
      the complete rules are there because a guard swap was refused, no packet leaves the outer link
      under another address. */
  lemma ReachableEgress(s: Snapshot, b: Kernel)
    requires Durable(s, b) && !Idle(s.journal) && s.kernel.inet.Some?
    ensures Decode(s.journal.value.config).Some?
    ensures InboundToDevice(s.kernel, Decode(s.journal.value.config).value)
    ensures !s.swapRefused ==> Translated(s.kernel, Decode(s.journal.value.config).value)
  {
    hide Translated, InboundToDevice;
    var p := Decode(s.journal.value.config).value;
    DecodedAddressesDiffer(s.journal.value.config);
    InboundReachesDevice(s.kernel, p);
    EgressTranslated(s.kernel, p);
  }

  lemma DecodedAddressesDiffer(v: Json.Json)
    requires Decode(v).Some?
    ensures Decode(v).value.device != Decode(v).value.outerAddress.ip
  {
    Config.AcceptedPlan(Json.ConfigOf(v).value);
  }

  // ---- What a refused guard swap leads to ----

  /** The host forwards, a policy rule selects a table for the packet, and a route of that table
      covers its destination and leads out of a link that is up. */
  ghost predicate Routed(k: Kernel, iif: string, oif: string, packet: Packet) {
    && k.ipForward == "1" && oif in k.links && k.links[oif].up
    && exists rule, route :: rule in k.rules && route in k.routes && Selects(rule, route, iif, oif, packet)
  }

  ghost predicate Selects(rule: Rule, route: Route, iif: string, oif: string, packet: Packet) {
    && rule.iif == iif && rule.from == packet.src && rule.table == route.table && route.dev == oif
    && route.length <= 32 && packet.dst in Block(route.dst, route.length)
  }

  /** Complete rules without their translation, with the policy rule and the gateway route still there:
      whatever the device sends to any outside address leaves the outer link under the device's own. */
  lemma LeakyRulesLeak(k: Kernel, p: Plan, dst: uint32)
    requires Leaky(k, p) && k.ipForward == "1" && OwnRule(p) in k.rules && GatewayRoute(p) in k.routes
    requires OuterLink(p) in k.links && k.links[OuterLink(p)].up && p.device != p.outerAddress.ip
    ensures var packet := Packet(true, p.device, dst);
            && Routed(k, p.inner, OuterLink(p), packet)
            && Forwarded(k, p.inner, OuterLink(p), packet) == Some(packet)
            && !Translated(k, p)
  {
    var packet := Packet(true, p.device, dst);
    FullVerdict(p, p.inner, OuterLink(p), packet);
    assert Forwarded(k, p.inner, OuterLink(p), packet) == Some(packet);
    EverythingIsCovered(dst);
    assert Selects(OwnRule(p), GatewayRoute(p), p.inner, OuterLink(p), packet);
  }

  /** The calls a rollback makes before it comes to the translation, none of which its errors stop. */
  function CallsBefore(p: Plan): seq<Call> {
    [Query, DelRule(OwnRule(p)), DelRoute(GatewayRoute(p)), DelRoute(SubnetRoute(p)),
     DelAddress(OuterLink(p), p.outerAddress), DelAddress(p.inner, p.innerAddress)] +
    if p.vlan.Some? then [DelVlan] else []
  }

  method AllRefused(host: Host, calls: seq<Call>)
    requires forall i | host.at <= i < host.at + |calls| :: host.oracle(i).fault.Rejected?
    modifies host`kernel, host`at, host`faults, host`reached
    ensures host.at == old(host.at) + |calls| && Strip(host.kernel) == Strip(old(host.kernel))
  {
    hide Strip;
    for i := 0 to |calls|
      invariant host.at == old(host.at) + i && Strip(host.kernel) == Strip(old(host.kernel))
    {
      assert host.oracle(host.at).fault.Rejected?;
      var o := host.Invoke(calls[i]);
    }
  }

  /** The translation is found and deleted. */
  method TranslationGoes(host: Host)
    requires host.oracle(host.at).fault.Healthy? && host.oracle(host.at + 1).fault.Healthy?
    requires host.kernel.translation.Some?
    modifies host`kernel, host`at, host`faults, host`reached
    ensures Strip(host.kernel) == Strip(old(host.kernel).(translation := None)) && host.Now() in host.reached
  {
    var o := host.Invoke(Query);
    o := host.Invoke(Nft([DeleteNat]));
    assert [DeleteNat][1..] == [];
  }

  /** The rollback that leaks: on a host with everything installed, all its calls are rejected until
      the translation is found and deleted. This is the state `swapRefused` allows for. */
  method RefusedSwapLeaks(host: Host, p: Plan, r: Record)
    requires Eligible(host.before, p) && p.device != p.outerAddress.ip
    requires Strip(host.kernel) == Strip(Installed(host.before, p))
    requires host.oracle(host.at).fault.Healthy?
    requires var first := host.at + 1 + |CallsBefore(p)|;
             && (forall i | host.at < i < first :: host.oracle(i).fault.Rejected?)
             && (forall i | first <= i < first + 2 :: host.oracle(i).fault.Healthy?)
    modifies host
    ensures host.Now() in host.reached && host.journal == Some(r.(status := RollingBack))
    ensures Leaky(host.kernel, p) && !Translated(host.kernel, p)
    ensures forall dst :: var packet := Packet(true, p.device, dst);
      && Routed(host.kernel, p.inner, OuterLink(p), packet)
      && Forwarded(host.kernel, p.inner, OuterLink(p), packet) == Some(packet)
  {
    hide Routed, Translated, Forwarded, CallsBefore;
    ghost var installed := Installed(host.before, p);
    var o := host.Put(r.(status := RollingBack));
    AllRefused(host, CallsBefore(p));
    assert host.oracle(host.at).fault.Healthy? && host.oracle(host.at + 1).fault.Healthy?;
    TranslationGoes(host);
    assert Strip(host.kernel) == Strip(installed.(translation := None));
    assert OwnRule(p) in installed.rules && GatewayRoute(p) in installed.routes;
    forall dst
      ensures var packet := Packet(true, p.device, dst);
              && Routed(host.kernel, p.inner, OuterLink(p), packet)
              && Forwarded(host.kernel, p.inner, OuterLink(p), packet) == Some(packet)
    {
      LeakyRulesLeak(host.kernel, p, dst);
    }
    LeakyRulesLeak(host.kernel, p, 0);
  }

  lemma EverythingIsCovered(dst: uint32)
    ensures dst in Block(0, 0)
  {
    Pow2Of32();
  }
}
