// What a transaction may touch, what it must have in place before it touches it,
// and what it ends in. `b` is always the host before the first transaction.
module Transaction {
  import opened Wrappers
  import opened Bits
  import opened Address
  import opened Kernel

  /** Two different ports, and a gateway on the outer subnet. */
  ghost predicate Coherent(p: Plan) {
    && p.outer != p.inner
    && p.outerAddress.prefix <= 32
    && Network(p.gateway, p.outerAddress.prefix) == Network(p.outerAddress.ip, p.outerAddress.prefix)
  }

  /** What applying a plan checks: the ports are free and the reserved resources unused. */
  ghost predicate Eligible(b: Kernel, p: Plan) {
    && Coherent(p) && p.outer != LOOPBACK && p.inner != LOOPBACK
    && VLAN_LINK !in b.links
    && FreePort(b, p.outer) && FreePort(b, p.inner)
    && b.inet.None? && b.translation.None?
    && (forall r | r in b.routes :: r.table != TABLE && r.dev in b.links)
    && (forall r | r in b.rules :: r.priority != PRIORITY)
  }

  ghost predicate FreePort(b: Kernel, n: string) {
    n in b.links && b.links[n].addresses == {} && !b.links[n].enslaved
  }

  /** The plan can be installed: nobody else uses its VLAN on the outer port. */
  ghost predicate Installable(b: Kernel, p: Plan) {
    p.vlan.Some? ==> !VlanTaken(b, p.outer, p.vlan.value)
  }

  ghost predicate Own(p: Plan, n: string, a: Assigned) {
    (n == p.inner && a == p.innerAddress) || (n == OuterLink(p) && a == p.outerAddress)
  }

  ghost predicate OwnLink(p: Plan, n: string) {
    n == p.outer || n == p.inner || (n == VLAN_LINK && p.vlan.Some?)
  }

  /** The tables are absent, the guard, or the complete rules of this plan. */
  ghost predicate OwnTables(k: Kernel, p: Plan) {
    && (k.inet.None? || k.inet.value == GuardRules(p) || k.inet.value == FullRules(p))
    && (k.translation.None? || k.translation.value == NatRules(p))
  }

  /** The host differs from `b` at most in what the plan owns. */
  ghost predicate Within(k: Kernel, p: Plan, b: Kernel) {
    && k.links.Keys - {VLAN_LINK} == b.links.Keys
    && (VLAN_LINK in k.links ==> p.vlan.Some?)
    && (forall n | n in b.links && n != p.outer && n != p.inner :: n in k.links && k.links[n] == b.links[n])
    && p.outer in k.links && p.inner in k.links
    && SamePort(k, p.outer, b) && SamePort(k, p.inner, b)
    && (forall a | a in k.links[p.outer].addresses :: Own(p, p.outer, a))
    && (forall a | a in k.links[p.inner].addresses :: Own(p, p.inner, a))
    && k.routes - {SubnetRoute(p), GatewayRoute(p)} == b.routes
    && (OuterLink(p) !in k.links ==> k.routes == b.routes)
    && k.rules - {OwnRule(p)} == b.rules
    && OwnTables(k, p)
    && Unmarked(k.connections) == Unmarked(b.connections)
    && k.defaults == b.defaults && k.rest == b.rest
  }

  ghost predicate SamePort(k: Kernel, n: string, b: Kernel) {
    && n in k.links && n in b.links
    && k.links[n].enslaved == b.links[n].enslaved && k.links[n].kind == b.links[n].kind
  }

  function BaseAddresses(b: Kernel, n: string): set<Assigned> {
    if n in b.links then b.links[n].addresses else {}
  }

  /** No appliance address, route or rule is present and forwarding is configured as before. */
  ghost predicate Quiet(k: Kernel, b: Kernel) {
    && (forall n | n in k.links :: k.links[n].addresses == BaseAddresses(b, n))
    && k.routes == b.routes && k.rules == b.rules
    && k.ipForward == b.ipForward && k.rpFilterAll == b.rpFilterAll
  }

  /** Guard coverage: whatever is exposed, is exposed behind the `inet` table. */
  ghost predicate Covered(k: Kernel, b: Kernel) {
    !Quiet(k, b) ==> k.inet.Some?
  }

  /** The complete result of installing a plan on `b`. */
  ghost function Installed(b: Kernel, p: Plan): Kernel
    requires p.outer in b.links && p.inner in b.links
  {
    var outerAddresses := if p.vlan.Some? then {} else {p.outerAddress};
    var outer := b.links[p.outer].(up := true, mac := p.mac, disableIpv6 := "1", rpFilter := "0", addresses := outerAddresses);
    var inner := b.links[p.inner].(up := true, disableIpv6 := "1", rpFilter := "0", addresses := {p.innerAddress});
    var ports := b.links[p.outer := outer][p.inner := inner];
    b.(links := if p.vlan.Some? then
                  ports[VLAN_LINK := Link(true, p.mac, "1", "0", {p.outerAddress}, false, Vlan(p.outer, p.vlan.value))]
                else ports,
       routes := b.routes + {SubnetRoute(p), GatewayRoute(p)},
       rules := b.rules + {OwnRule(p)},
       inet := Some(FullRules(p)), translation := Some(NatRules(p)),
       ipForward := "1", rpFilterAll := "0")
  }

  /** Calls that respect the plan's footprint and come after the guard where they must. */
  ghost predicate Permitted(call: Call, k: Kernel, p: Plan, b: Kernel) {
    match call
    case Query => true
    case SetDisableIpv6(n, _) => OwnLink(p, n)
    case SetRpFilter(n, _) => OwnLink(p, n)
    case SetLink(n, _, _) => OwnLink(p, n)
    case AddVlan(_, _) => p.vlan.Some?
    case DelVlan => p.vlan.Some?
    case AddAddress(n, a) => k.inet.Some? && Own(p, n, a)
    case DelAddress(n, a) => Own(p, n, a)
    case AddRoute(r) => k.inet.Some? && r in {SubnetRoute(p), GatewayRoute(p)}
    case DelRoute(r) => r in {SubnetRoute(p), GatewayRoute(p)}
    case AddRule(r) => k.inet.Some? && r == OwnRule(p)
    case DelRule(r) => r == OwnRule(p)
    case SetIpForward(v) => k.inet.Some? || v == b.ipForward
    case SetRpFilterAll(v) => k.inet.Some? || v == b.rpFilterAll
    case Nft(batch) =>
      NftEffect(k, batch).Some? ==>
        OwnTables(NftEffect(k, batch).value, p) && (NftEffect(k, batch).value.inet.Some? || Quiet(k, b))
    case ClearMarked => true
  }

  /** An nft batch changes the two tables and nothing else. */
  lemma {:induction false} NftFrame(k: Kernel, batch: seq<NftCommand>)
    ensures NftEffect(k, batch).Some? ==>
              var k' := NftEffect(k, batch).value;
              k' == k.(inet := k'.inet, translation := k'.translation)
    decreases |batch|
  {
    if batch != [] {
      match batch[0]
      case DeleteInet => NftFrame(k.(inet := None), batch[1..]);
      case DeleteNat => NftFrame(k.(translation := None), batch[1..]);
      case AddInet(rules) =>
        NftFrame(k.(inet := Some((if k.inet.Some? then k.inet.value else []) + rules)), batch[1..]);
      case AddNat(tables) =>
        NftFrame(k.(translation := Some((if k.translation.Some? then k.translation.value else []) + tables)), batch[1..]);
    }
  }

  /** A permitted call keeps the footprint and the guard coverage. */
  lemma PermittedKeeps(k: Kernel, call: Call, p: Plan, b: Kernel)
    requires Eligible(b, p) && Within(k, p, b) && Covered(k, b)
    requires Permitted(call, k, p, b) && Effect(k, call).Some?
    ensures Within(Effect(k, call).value, p, b) && Covered(Effect(k, call).value, b)
  {
    if call.DelVlan? {
      DelVlanKeeps(k, p, b);
      return;
    }
    if call.AddVlan? {
      assert p.vlan.Some?;
    }
    NftIsEffect(k, call);
    hide Within, Covered, Eligible, Permitted, Effect;
    match call
    case SetDisableIpv6(_, _) => LinkCallKeeps(k, call, p, b);
    case SetRpFilter(_, _) => LinkCallKeeps(k, call, p, b);
    case SetLink(_, _, _) => LinkCallKeeps(k, call, p, b);
    case AddAddress(_, _) => LinkCallKeeps(k, call, p, b);
    case DelAddress(_, _) => LinkCallKeeps(k, call, p, b);
    case AddVlan(_, _) => AddVlanKeeps(k, call, p, b);
    case AddRoute(_) => RouteCallKeeps(k, call, p, b);
    case DelRoute(_) => RouteCallKeeps(k, call, p, b);
    case AddRule(_) => RuleCallKeeps(k, call, p, b);
    case DelRule(_) => RuleCallKeeps(k, call, p, b);
    case Nft(batch) => NftKeeps(k, batch, p, b);
    case _ => HostCallKeeps(k, call, p, b);
  }

  lemma NftIsEffect(k: Kernel, call: Call)
    ensures call.Nft? ==> Effect(k, call) == NftEffect(k, call.batch)
  {
  }

  lemma LinkCallKeeps(k: Kernel, call: Call, p: Plan, b: Kernel)
    requires Eligible(b, p) && Within(k, p, b) && Covered(k, b)
    requires call.SetDisableIpv6? || call.SetRpFilter? || call.SetLink? || call.AddAddress? || call.DelAddress?
    requires Permitted(call, k, p, b) && Effect(k, call).Some?
    ensures Within(Effect(k, call).value, p, b) && Covered(Effect(k, call).value, b)
  {
    var n := call.link;
    var l := Effect(k, call).value.links[n];
    assert Effect(k, call).value == k.(links := k.links[n := l]);
    assert OwnLink(p, n);
    LinkKeeps(k, n, l, p, b);
  }

  lemma RouteCallKeeps(k: Kernel, call: Call, p: Plan, b: Kernel)
    requires Eligible(b, p) && Within(k, p, b) && Covered(k, b)
    requires call.AddRoute? || call.DelRoute?
    requires Permitted(call, k, p, b) && Effect(k, call).Some?
    ensures Within(Effect(k, call).value, p, b) && Covered(Effect(k, call).value, b)
  {
    RouteKeeps(k, Effect(k, call).value.routes, p, b);
  }

  lemma RuleCallKeeps(k: Kernel, call: Call, p: Plan, b: Kernel)
    requires Eligible(b, p) && Within(k, p, b) && Covered(k, b)
    requires call.AddRule? || call.DelRule?
    requires Permitted(call, k, p, b) && Effect(k, call).Some?
    ensures Within(Effect(k, call).value, p, b) && Covered(Effect(k, call).value, b)
  {
    RuleKeeps(k, Effect(k, call).value.rules, p, b);
  }

  lemma AddVlanKeeps(k: Kernel, call: Call, p: Plan, b: Kernel)
    requires Eligible(b, p) && Within(k, p, b) && Covered(k, b) && call.AddVlan?
    requires p.vlan.Some? && Effect(k, call).Some?
    ensures Within(Effect(k, call).value, p, b) && Covered(Effect(k, call).value, b)
  {
    var k' := Effect(k, call).value;
    assert k'.links.Keys == k.links.Keys + {VLAN_LINK};
  }

  lemma HostCallKeeps(k: Kernel, call: Call, p: Plan, b: Kernel)
    requires Within(k, p, b) && Covered(k, b)
    requires call.Query? || call.SetIpForward? || call.SetRpFilterAll? || call.ClearMarked?
    requires Permitted(call, k, p, b) && Effect(k, call).Some?
    ensures Within(Effect(k, call).value, p, b) && Covered(Effect(k, call).value, b)
  {
    if call.SetIpForward? || call.SetRpFilterAll? {
      SettingKeeps(k, call, p, b);
    } else {
      StripTwice(k);
    }
  }

  lemma SettingKeeps(k: Kernel, call: Call, p: Plan, b: Kernel)
    requires Within(k, p, b) && Covered(k, b) && (call.SetIpForward? || call.SetRpFilterAll?)
    requires Permitted(call, k, p, b)
    ensures Within(Effect(k, call).value, p, b) && Covered(Effect(k, call).value, b)
  {
  }

  lemma LinkKeeps(k: Kernel, n: string, l: Link, p: Plan, b: Kernel)
    requires Eligible(b, p) && Within(k, p, b) && Covered(k, b)
    requires n in k.links && OwnLink(p, n) && l.kind == k.links[n].kind && l.enslaved == k.links[n].enslaved
    requires forall a | a in l.addresses :: a in k.links[n].addresses || (k.inet.Some? && Own(p, n, a))
    requires forall a | a in k.links[n].addresses && a !in l.addresses :: Own(p, n, a)
    ensures Within(k.(links := k.links[n := l]), p, b) && Covered(k.(links := k.links[n := l]), b)
  {
    var k' := k.(links := k.links[n := l]);
    assert k'.links.Keys == k.links.Keys;
    if k.inet.None? {
      assert Quiet(k, b);
      assert BaseAddresses(b, n) == {};
      assert l.addresses == {};
    }
  }

  lemma DelVlanKeeps(k: Kernel, p: Plan, b: Kernel)
    requires Eligible(b, p) && Within(k, p, b) && Covered(k, b)
    requires p.vlan.Some? && VLAN_LINK in k.links
    ensures Within(Effect(k, DelVlan).value, p, b) && Covered(Effect(k, DelVlan).value, b)
  {
    var k' := Effect(k, DelVlan).value;
    assert k'.links.Keys == k.links.Keys - {VLAN_LINK};
    assert k'.routes == b.routes;
  }

  lemma RouteKeeps(k: Kernel, routes: set<Route>, p: Plan, b: Kernel)
    requires Eligible(b, p) && Within(k, p, b) && Covered(k, b)
    requires OuterLink(p) in k.links
    requires forall r | r in routes && r !in k.routes :: k.inet.Some? && r in {SubnetRoute(p), GatewayRoute(p)}
    requires forall r | r in k.routes && r !in routes :: r in {SubnetRoute(p), GatewayRoute(p)}
    ensures Within(k.(routes := routes), p, b) && Covered(k.(routes := routes), b)
  {
    assert routes - {SubnetRoute(p), GatewayRoute(p)} == k.routes - {SubnetRoute(p), GatewayRoute(p)};
    if k.inet.None? {
      assert forall r | r in k.routes :: r !in {SubnetRoute(p), GatewayRoute(p)};
      assert routes == k.routes;
    }
  }

  lemma RuleKeeps(k: Kernel, rules: set<Rule>, p: Plan, b: Kernel)
    requires Eligible(b, p) && Within(k, p, b) && Covered(k, b)
    requires forall r | r in rules && r !in k.rules :: k.inet.Some? && r == OwnRule(p)
    requires forall r | r in k.rules && r !in rules :: r == OwnRule(p)
    ensures Within(k.(rules := rules), p, b) && Covered(k.(rules := rules), b)
  {
    assert rules - {OwnRule(p)} == k.rules - {OwnRule(p)};
    if k.inet.None? {
      assert forall r | r in k.rules :: r != OwnRule(p);
      assert rules == k.rules;
    }
  }

  lemma NftKeeps(k: Kernel, batch: seq<NftCommand>, p: Plan, b: Kernel)
    requires Within(k, p, b) && Covered(k, b)
    requires Permitted(Nft(batch), k, p, b) && NftEffect(k, batch).Some?
    ensures Within(NftEffect(k, batch).value, p, b) && Covered(NftEffect(k, batch).value, b)
  {
    NftFrame(k, batch);
  }

  // ---- What a call leaves behind, whatever traffic does meanwhile ----

  ghost predicate Marks(k: Kernel) {
    k.inet.Some? && Marking(k.inet.value)
  }

  /** Only marked connections may have appeared, and only behind accepting rules. */
  ghost predicate Drifted(k: Kernel, k': Kernel) {
    Strip(k') == Strip(k) && (!Marks(k) ==> k' == k)
  }

  /** The call took effect. */
  ghost predicate Did(k: Kernel, call: Call, k': Kernel) {
    Effect(k, call).Some? && Strip(k') == Strip(Effect(k, call).value) &&
    (!Marks(k) ==> k' == Effect(k, call).value)
  }

  lemma TrafficDrifts(k: Kernel, arrivals: set<nat>)
    ensures Drifted(k, Traffic(k, arrivals))
  {
    TrafficOnlyMarks(k, arrivals);
  }

  lemma {:induction false} NftIgnoresConnections(k: Kernel, t: Kernel, batch: seq<NftCommand>)
    requires t == k.(connections := t.connections)
    ensures NftEffect(t, batch).Some? <==> NftEffect(k, batch).Some?
    ensures NftEffect(k, batch).Some? ==>
              NftEffect(t, batch).value == NftEffect(k, batch).value.(connections := t.connections)
    decreases |batch|
  {
    if batch != [] {
      match batch[0]
      case DeleteInet =>
        if k.inet.Some? { NftIgnoresConnections(k.(inet := None), t.(inet := None), batch[1..]); }
      case DeleteNat =>
        if k.translation.Some? { NftIgnoresConnections(k.(translation := None), t.(translation := None), batch[1..]); }
      case AddInet(rules) =>
        var all := Some((if k.inet.Some? then k.inet.value else []) + rules);
        NftIgnoresConnections(k.(inet := all), t.(inet := all), batch[1..]);
      case AddNat(tables) =>
        var all := Some((if k.translation.Some? then k.translation.value else []) + tables);
        NftIgnoresConnections(k.(translation := all), t.(translation := all), batch[1..]);
    }
  }

  /** No call but the clearing of marked connections looks at connections. */
  lemma EffectIgnoresConnections(k: Kernel, t: Kernel, call: Call)
    requires t == k.(connections := t.connections)
    ensures Effect(t, call).Some? <==> Effect(k, call).Some?
    ensures Effect(k, call).Some? && !call.ClearMarked? ==>
              Effect(t, call).value == Effect(k, call).value.(connections := t.connections)
  {
    if call.Nft? { NftIgnoresConnections(k, t, call.batch); }
  }

  lemma EffectAfterTraffic(k: Kernel, arrivals: set<nat>, call: Call)
    requires Effect(Traffic(k, arrivals), call).Some?
    ensures Effect(k, call).Some? && Did(k, call, Effect(Traffic(k, arrivals), call).value)
  {
    var t := Traffic(k, arrivals);
    TrafficOnlyMarks(k, arrivals);
    EffectIgnoresConnections(k, t, call);
    if call.ClearMarked? { StripTwice(k); }
    if call.Nft? { NftFrame(k, call.batch); }
  }

  /** What the rules of the protocol look at is untouched by traffic. */
  lemma DriftKeeps(k: Kernel, t: Kernel, p: Plan, b: Kernel)
    requires Strip(t) == Strip(k)
    ensures t == k.(connections := t.connections)
    ensures Within(k, p, b) ==> Within(t, p, b)
    ensures Covered(k, b) ==> Covered(t, b)
  {
    assert Strip(t).connections == Strip(k).connections;
    assert t == Strip(t).(connections := t.connections) && k.(connections := t.connections) == Strip(k).(connections := t.connections);
  }

  /** An untouched host is within every eligible plan's footprint. */
  lemma CleanIsWithin(k: Kernel, p: Plan, b: Kernel)
    requires Strip(k) == Strip(b) && Eligible(b, p)
    ensures Within(k, p, b) && Quiet(k, b)
  {
    DriftKeeps(b, k, p, b);
    assert forall r | r in b.routes :: r !in {SubnetRoute(p), GatewayRoute(p)};
    assert b.routes - {SubnetRoute(p), GatewayRoute(p)} == b.routes;
    assert b.rules - {OwnRule(p)} == b.rules;
  }
}
