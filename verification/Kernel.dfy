// The part of the host a network transaction works on, and what each call into
// the kernel does to it. The host is a value; the controller changes it one
// call at a time and can never change two parts at once.
module Kernel {
  import opened Wrappers
  import opened Bits
  import opened Address

  const TABLE: nat := 4242
  const PRIORITY: nat := 10424
  const MARK: nat := 0x4d425800
  const VLAN_LINK: string := "mbx-outer"
  const LOOPBACK: string := "lo"

  datatype Assigned = Assigned(ip: uint32, prefix: nat)

  datatype Kind = Port | Vlan(parent: string, id: nat)

  datatype Link = Link(
    up: bool, mac: seq<byte>, disableIpv6: string, rpFilter: string,
    addresses: set<Assigned>, enslaved: bool, kind: Kind)

  datatype Route = Route(table: nat, dst: uint32, length: nat, via: Option<uint32>, dev: string)

  datatype Rule = Rule(priority: nat, table: nat, from: uint32, iif: string)

  /** Rules of the forward chain of table `inet magicbox`, judged in order. */
  datatype ForwardRule =
    | AcceptFrom(iif: string, oif: string, saddr: uint32)
    | AcceptTo(iif: string, oif: string, daddr: uint32)
    | DropIn(names: set<string>)
    | DropOut(names: set<string>)

  /** Table `ip magicbox`: one prerouting and one postrouting rule. */
  datatype NatTable = NatTable(oif: string, outer: uint32, device: uint32)

  datatype Settings = Settings(disableIpv6: string, rpFilter: string)

  datatype Kernel = Kernel(
    links: map<string, Link>,
    routes: set<Route>,
    rules: set<Rule>,
    inet: Option<seq<ForwardRule>>,
    translation: Option<seq<NatTable>>,
    ipForward: string,
    rpFilterAll: string,
    connections: map<nat, nat>,   // connection -> mark
    defaults: Settings,           // what a new link starts with
    rest: int)                    // everything no call below can reach

  /** The numbers and names a transaction writes, read off a validated configuration. */
  datatype Plan = Plan(
    outer: string, inner: string, vlan: Option<nat>, mac: seq<byte>,
    device: uint32, innerAddress: Assigned, outerAddress: Assigned,
    subnet: uint32, gateway: uint32)

  /** The link that carries the outer address: the VLAN link of a tagged plan. */
  function OuterLink(p: Plan): string {
    if p.vlan.Some? then VLAN_LINK else p.outer
  }

  function SubnetRoute(p: Plan): Route {
    Route(TABLE, p.subnet, p.outerAddress.prefix, None, OuterLink(p))
  }

  function GatewayRoute(p: Plan): Route {
    Route(TABLE, 0, 0, Some(p.gateway), OuterLink(p))
  }

  function OwnRule(p: Plan): Rule {
    Rule(PRIORITY, TABLE, p.device, p.inner)
  }

  function GuardRules(p: Plan): seq<ForwardRule> {
    [DropIn({p.inner, OuterLink(p)}), DropOut({p.inner, OuterLink(p)})]
  }

  function FullRules(p: Plan): seq<ForwardRule> {
    [AcceptFrom(p.inner, OuterLink(p), p.device), AcceptTo(OuterLink(p), p.inner, p.device),
     DropIn({p.inner, OuterLink(p)}), DropOut({p.inner, OuterLink(p)})]
  }

  function NatRules(p: Plan): seq<NatTable> {
    [NatTable(OuterLink(p), p.outerAddress.ip, p.device)]
  }

  // ---- Calls ----

  datatype NftCommand =
    | DeleteInet
    | DeleteNat
    | AddInet(rules: seq<ForwardRule>)
    | AddNat(tables: seq<NatTable>)

  datatype Call =
    | Query
    | SetDisableIpv6(link: string, value: string)
    | SetRpFilter(link: string, value: string)
    | SetLink(link: string, up: bool, mac: Option<seq<byte>>)
    | AddVlan(parent: string, id: nat)
    | DelVlan
    | AddAddress(link: string, address: Assigned)
    | DelAddress(link: string, address: Assigned)
    | AddRoute(route: Route)
    | DelRoute(route: Route)
    | AddRule(rule: Rule)
    | DelRule(rule: Rule)
    | SetIpForward(value: string)
    | SetRpFilterAll(value: string)
    | Nft(batch: seq<NftCommand>)
    | ClearMarked

  /** A batch takes effect as a whole or not at all. */
  function NftEffect(k: Kernel, batch: seq<NftCommand>): Option<Kernel>
    decreases |batch|
  {
    if batch == [] then Some(k)
    else match batch[0]
      case DeleteInet => if k.inet.None? then None else NftEffect(k.(inet := None), batch[1..])
      case DeleteNat => if k.translation.None? then None else NftEffect(k.(translation := None), batch[1..])
      case AddInet(rules) =>
        NftEffect(k.(inet := Some((if k.inet.Some? then k.inet.value else []) + rules)), batch[1..])
      case AddNat(tables) =>
        NftEffect(k.(translation := Some((if k.translation.Some? then k.translation.value else []) + tables)), batch[1..])
  }

  /** A gateway is accepted when one of the device's own subnets contains it. */
  predicate OnLink(l: Link, gateway: uint32) {
    exists a :: a in l.addresses && a.prefix <= 32 && Network(gateway, a.prefix) == Network(a.ip, a.prefix)
  }

  /** What a call does when the kernel accepts it; None when the kernel refuses. */
  function Effect(k: Kernel, call: Call): Option<Kernel> {
    match call
    case Query => Some(k)
    case SetDisableIpv6(n, v) =>
      if n !in k.links then None else Some(k.(links := k.links[n := k.links[n].(disableIpv6 := v)]))
    case SetRpFilter(n, v) =>
      if n !in k.links then None else Some(k.(links := k.links[n := k.links[n].(rpFilter := v)]))
    case SetLink(n, up, mac) =>
      if n !in k.links then None
      else Some(k.(links := k.links[n := k.links[n].(up := up, mac := if mac.Some? then mac.value else k.links[n].mac)]))
    case AddVlan(parent, id) =>
      if VLAN_LINK in k.links || parent !in k.links || VlanTaken(k, parent, id) then None
      else Some(k.(links := k.links[VLAN_LINK :=
        Link(false, k.links[parent].mac, k.defaults.disableIpv6, k.defaults.rpFilter, {}, false, Vlan(parent, id))]))
    case DelVlan =>
      // Deleting a link takes its addresses and every route through it along.
      if VLAN_LINK !in k.links then None
      else Some(k.(links := k.links - {VLAN_LINK}, routes := set r | r in k.routes && r.dev != VLAN_LINK))
    case AddAddress(n, a) =>
      if n !in k.links || a in k.links[n].addresses then None
      else Some(k.(links := k.links[n := k.links[n].(addresses := k.links[n].addresses + {a})]))
    case DelAddress(n, a) =>
      if n !in k.links then None
      else Some(k.(links := k.links[n := k.links[n].(addresses := k.links[n].addresses - {a})]))
    case AddRoute(r) =>
      if r in k.routes || r.dev !in k.links || !k.links[r.dev].up ||
         (r.via.Some? && !OnLink(k.links[r.dev], r.via.value)) then None
      else Some(k.(routes := k.routes + {r}))
    case DelRoute(r) => if r.dev !in k.links then None else Some(k.(routes := k.routes - {r}))
    case AddRule(r) => if r in k.rules then None else Some(k.(rules := k.rules + {r}))
    case DelRule(r) => Some(k.(rules := k.rules - {r}))
    case SetIpForward(v) => Some(k.(ipForward := v))
    case SetRpFilterAll(v) => Some(k.(rpFilterAll := v))
    case Nft(batch) => NftEffect(k, batch)
    case ClearMarked => Some(Strip(k))
  }

  /** The parent already carries this VLAN under some other name. */
  predicate VlanTaken(k: Kernel, parent: string, id: nat) {
    exists n :: n in k.links && k.links[n].kind == Vlan(parent, id)
  }

  // ---- Marked connections ----

  function Unmarked(connections: map<nat, nat>): map<nat, nat> {
    map i | i in connections && connections[i] != MARK :: connections[i]
  }

  /** The host with the appliance's marked connections deleted and nothing else touched. */
  function Strip(k: Kernel): Kernel {
    k.(connections := Unmarked(k.connections))
  }

  predicate Marking(rules: seq<ForwardRule>) {
    exists r :: r in rules && (r.AcceptFrom? || r.AcceptTo?)
  }

  /** Traffic between two calls: while accepting rules are loaded it may create marked connections. */
  function Traffic(k: Kernel, arrivals: set<nat>): Kernel {
    if k.inet.Some? && Marking(k.inet.value) then
      k.(connections := k.connections + (map i | i in arrivals && i !in k.connections :: MARK))
    else k
  }

  lemma TrafficOnlyMarks(k: Kernel, arrivals: set<nat>)
    ensures Strip(Traffic(k, arrivals)) == Strip(k)
    ensures Traffic(k, arrivals) == k.(connections := Traffic(k, arrivals).connections)
  {
  }

  lemma StripTwice(k: Kernel)
    ensures Strip(Strip(k)) == Strip(k)
  {
  }
}
